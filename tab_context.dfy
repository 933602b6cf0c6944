/** The renderer's mirror of the tab state (the React tab context): the tab list, the active
    tab id and whether the main process has sent its first update. Each update the context
    makes through its state setters is a function from the old state to the new one;
    the asynchronous IPC call an update makes is left to the main-process model, and where the
    outcome of that call matters (detaching) it is a parameter. */
module TabContext {
  import opened Options
  import opened Seqs
  import opened JsString
  import opened AddressBar

  type TabId = string

  const HOMEPAGE: string := "noxx://homepage"
  const GOOGLE: string := "https://www.google.com"
  const NEW_TAB_TITLE: string := "New Tab"
  const LOADING_TITLE: string := "Loading..."

  datatype Tab = Tab(id: TabId, title: string, url: string)

  datatype TabsState = TabsState(tabs: seq<Tab>, activeTabId: Option<TabId>, initialized: bool)

  /** The payload of a `tabs-updated` message: `tabs` is present when it is an array, and
      `activeTabId` when it is truthy. */
  datatype TabsUpdate = TabsUpdate(tabs: Option<seq<Tab>>, activeTabId: Option<TabId>)

  /** The payload of a `reattach-tab` message. */
  datatype ReattachData = ReattachData(id: TabId, title: string, url: string)

  predicate HasTab(tabs: seq<Tab>, id: TabId)
  {
    exists i :: 0 <= i < |tabs| && tabs[i].id == id
  }

  /** No two tabs share an id. */
  predicate UniqueIds(tabs: seq<Tab>)
  {
    forall i, j :: 0 <= i < j < |tabs| ==> tabs[i].id != tabs[j].id
  }

  /** The active id, when there is one, names a tab in the list. */
  predicate ActiveValid(s: TabsState)
  {
    s.activeTabId.Some? ==> HasTab(s.tabs, s.activeTabId.value)
  }

  /** The filter callback `tab => tab.id !== id`. */
  function Other(id: TabId): Tab -> bool
  {
    (t: Tab) => t.id != id
  }

  /** The find callback `tab => tab.id === id`. */
  function Same(id: TabId): Tab -> bool
  {
    (t: Tab) => t.id == id
  }

  /** `tabs.find(tab => tab.id === id)`: the first tab with that id. */
  function FindTab(tabs: seq<Tab>, id: TabId): (r: Option<Tab>)
    ensures r.None? <==> !HasTab(tabs, id)
    ensures r.Some? ==> exists i :: 0 <= i < |tabs| && tabs[i] == r.value && r.value.id == id
                                    && forall j :: 0 <= j < i ==> tabs[j].id != id
  {
    if tabs == [] then None
    else if tabs[0].id == id then Some(tabs[0])
    else
      var r := FindTab(tabs[1..], id);
      assert HasTab(tabs, id) ==> HasTab(tabs[1..], id) by {
        if HasTab(tabs, id) {
          var i :| 0 <= i < |tabs| && tabs[i].id == id;
          assert tabs[1..][i - 1].id == id;
        }
      }
      if r.Some? then
        var i :| 0 <= i < |tabs[1..]| && tabs[1..][i] == r.value && r.value.id == id
                 && forall j :: 0 <= j < i ==> tabs[1..][j].id != id;
        assert tabs[i + 1] == r.value;
        r
      else r
  }

  /** `url || fallback`. */
  function OrElse(s: string, fallback: string): string
  {
    if s != "" then s else fallback
  }

  /** `addTab`: a "New Tab" entry for `url` (Google when absent) is appended under the id
      `now` (the clock) and becomes active. */
  function AddTab(s: TabsState, now: TabId, url: string): (r: TabsState)
    ensures |r.tabs| == |s.tabs| + 1 && r.tabs[..|s.tabs|] == s.tabs
    ensures r.tabs[|s.tabs|].id == now && r.tabs[|s.tabs|].title == NEW_TAB_TITLE
    ensures r.tabs[|s.tabs|].url == (if url == "" then GOOGLE else url)
    ensures r.activeTabId == Some(now) && ActiveValid(r)
    ensures r.initialized == s.initialized
  {
    var newTab := Tab(now, NEW_TAB_TITLE, OrElse(url, GOOGLE));
    var r := s.(tabs := s.tabs + [newTab], activeTabId := Some(now));
    assert r.tabs[|s.tabs|] == newTab;
    r
  }

  /** `switchTab`. */
  function SwitchTab(s: TabsState, id: TabId): (r: TabsState)
    ensures r.activeTabId == Some(id) && r.tabs == s.tabs && r.initialized == s.initialized
  {
    s.(activeTabId := Some(id))
  }

  /** `closeTab`. With exactly one tab the state is left alone (the application is about to
      exit). Otherwise every tab with the id is dropped, the rest keep their order, and if the
      closed tab was active and tabs remain, the first remaining tab becomes active. */
  function CloseTab(s: TabsState, id: TabId): (r: TabsState)
    ensures |s.tabs| == 1 ==> r == s
    ensures |s.tabs| != 1 ==>
              (forall t :: t in r.tabs <==> t in s.tabs && t.id != id) && Subsequence(r.tabs, s.tabs)
    ensures |s.tabs| != 1 ==> forall t :: multiset(r.tabs)[t] == if t.id != id then multiset(s.tabs)[t] else 0
    ensures |s.tabs| != 1 && s.activeTabId == Some(id) && r.tabs != [] ==>
              r.activeTabId == Some(r.tabs[0].id)
    ensures !(|s.tabs| != 1 && s.activeTabId == Some(id) && r.tabs != []) ==>
              r.activeTabId == s.activeTabId
    ensures r.initialized == s.initialized
  {
    if |s.tabs| == 1 then s
    else
      FilterMultiplicity(s.tabs, Other(id));
      var updated := Filter(s.tabs, Other(id));
      if s.activeTabId == Some(id) && |updated| > 0 then
        s.(tabs := updated, activeTabId := Some(updated[0].id))
      else
        s.(tabs := updated)
  }

  /** `updateTabTitle`: only the tabs with the id get the new title. */
  function UpdateTabTitle(s: TabsState, id: TabId, title: string): (r: TabsState)
    ensures |r.tabs| == |s.tabs|
    ensures forall i :: 0 <= i < |s.tabs| ==>
              r.tabs[i].id == s.tabs[i].id && r.tabs[i].url == s.tabs[i].url
              && r.tabs[i].title == (if s.tabs[i].id == id then title else s.tabs[i].title)
    ensures r.activeTabId == s.activeTabId && r.initialized == s.initialized
  {
    s.(tabs := Map(s.tabs, (t: Tab) => if t.id == id then t.(title := title) else t))
  }

  /** The state part of `updateTabUrl`: the tabs with the id get the url and the title
      "Loading..."; all other tabs are unchanged. */
  function SetTabUrl(s: TabsState, id: TabId, url: string): (r: TabsState)
    ensures |r.tabs| == |s.tabs|
    ensures forall i :: 0 <= i < |s.tabs| ==>
              r.tabs[i] == (if s.tabs[i].id == id then Tab(id, LOADING_TITLE, url) else s.tabs[i])
    ensures r.activeTabId == s.activeTabId && r.initialized == s.initialized
  {
    s.(tabs := Map(s.tabs, (t: Tab) => if t.id == id then t.(url := url, title := LOADING_TITLE) else t))
  }

  /** `updateTabUrl`: the address-bar text is classified and the tab starts loading the
      result, which always carries a web scheme. */
  function UpdateTabUrl(s: TabsState, id: TabId, input: string,
                        isValidUrl: string -> bool, encode: string -> string): (r: TabsState)
    ensures |r.tabs| == |s.tabs|
    ensures forall i :: 0 <= i < |s.tabs| && s.tabs[i].id == id ==>
              r.tabs[i] == Tab(id, LOADING_TITLE, FinalUrl(input, isValidUrl, encode))
              && HasWebScheme(r.tabs[i].url)
    ensures forall i :: 0 <= i < |s.tabs| && s.tabs[i].id != id ==> r.tabs[i] == s.tabs[i]
    ensures r.activeTabId == s.activeTabId
  {
    SetTabUrl(s, id, FinalUrl(input, isValidUrl, encode))
  }

  /** `splice`'s normalisation of a start index against a length: a negative index counts
      from the end, and both ends are clamped. */
  function SpliceStart(i: int, len: nat): (r: nat)
    ensures r <= len
    ensures 0 <= i <= len ==> r == i
    ensures i < 0 && 0 <= len + i ==> r == len + i
    ensures i > len ==> r == len
    ensures len + i < 0 ==> r == 0
  {
    if i < 0 then (if len + i < 0 then 0 else len + i)
    else if i > len then len
    else i
  }

  /** `s` without the element at `i`. */
  function RemoveAt<T>(s: seq<T>, i: nat): (r: seq<T>)
    requires i < |s|
    ensures |r| == |s| - 1
    ensures forall j :: 0 <= j < i ==> r[j] == s[j]
    ensures forall j :: i <= j < |r| ==> r[j] == s[j + 1]
  {
    s[..i] + s[i + 1..]
  }

  /** `s` with `x` inserted so that it lands at index `i`. */
  function InsertAt<T>(s: seq<T>, i: nat, x: T): (r: seq<T>)
    requires i <= |s|
    ensures |r| == |s| + 1 && r[i] == x
    ensures forall j :: 0 <= j < i ==> r[j] == s[j]
    ensures forall j :: i < j < |r| ==> r[j] == s[j - 1]
  {
    s[..i] + [x] + s[i..]
  }

  /** The element at `from` moved so that it lands at `to`, the others keeping their order:
      a permutation whose other elements are exactly those of `s` without `s[from]`. */
  function Move<T>(s: seq<T>, from: nat, to: nat): (r: seq<T>)
    requires from < |s| && to < |s|
    ensures |r| == |s| && r[to] == s[from]
    ensures RemoveAt(r, to) == RemoveAt(s, from)
    ensures multiset(r) == multiset(s)
  {
    var rest := RemoveAt(s, from);
    var r := InsertAt(rest, to, s[from]);
    assert RemoveAt(r, to) == rest;
    assert s == s[..from] + [s[from]] + s[from + 1..];
    assert rest == s[..from] + s[from + 1..];
    assert r == rest[..to] + [s[from]] + rest[to..];
    assert rest == rest[..to] + rest[to..];
    calc {
      multiset(r);
      multiset(rest[..to]) + multiset{s[from]} + multiset(rest[to..]);
      multiset(rest) + multiset{s[from]};
      multiset(s[..from]) + multiset(s[from + 1..]) + multiset{s[from]};
      multiset(s);
    }
    r
  }

  /** Moving an element back where it came from restores the list. */
  lemma MoveBack<T>(s: seq<T>, from: nat, to: nat)
    requires from < |s| && to < |s|
    ensures Move(Move(s, from, to), to, from) == s
  {
    var m := Move(s, from, to);
    var b := Move(m, to, from);
    assert RemoveAt(b, from) == RemoveAt(m, to) == RemoveAt(s, from);
    forall j | 0 <= j < |s|
      ensures b[j] == s[j]
    {
      if j < from {
        assert b[j] == RemoveAt(b, from)[j];
      } else if j > from {
        assert b[j] == RemoveAt(b, from)[j - 1];
      }
    }
  }

  /** `reorderTabs(oldIndex, newIndex)`: a copy of the list is spliced twice, once to take the
      tab out at `oldIndex` and once to put it back in at `newIndex` (both normalised as
      `splice` does, the second against the shortened list). */
  method ReorderTabs(tabs: seq<Tab>, oldIndex: int, newIndex: int) returns (r: seq<Tab>)
    requires |tabs| > 0 && oldIndex < |tabs|
    ensures r == Move(tabs, SpliceStart(oldIndex, |tabs|), SpliceStart(newIndex, |tabs| - 1))
  {
    var newTabs := tabs;
    var from := SpliceStart(oldIndex, |newTabs|);
    var movedTab := newTabs[from];
    newTabs := newTabs[..from] + newTabs[from + 1..];
    var to := SpliceStart(newIndex, |newTabs|);
    newTabs := newTabs[..to] + [movedTab] + newTabs[to..];
    r := newTabs;
  }

  /** `detachTab`. An unknown id or the homepage tab changes nothing. Otherwise the tab is
      removed and, if it was active, the first remaining tab (if any) becomes active; when the
      IPC call fails (`ipcSucceeded` false) the tab is put back at the end of the list and the
      active id is restored. */
  function DetachTab(s: TabsState, id: TabId, ipcSucceeded: bool): (r: TabsState)
    ensures !HasTab(s.tabs, id) ==> r == s
    ensures FindTab(s.tabs, id).Some? && FindTab(s.tabs, id).value.url == HOMEPAGE ==> r == s
    ensures FindTab(s.tabs, id).Some? && FindTab(s.tabs, id).value.url != HOMEPAGE && ipcSucceeded ==>
              r.tabs == Filter(s.tabs, Other(id)) && !HasTab(r.tabs, id)
              && r.activeTabId == (if s.activeTabId == Some(id) && r.tabs != []
                                   then Some(r.tabs[0].id) else s.activeTabId)
    ensures FindTab(s.tabs, id).Some? && FindTab(s.tabs, id).value.url != HOMEPAGE && !ipcSucceeded ==>
              r.tabs == Filter(s.tabs, Other(id)) + [FindTab(s.tabs, id).value]
              && r.activeTabId == s.activeTabId
    ensures r.initialized == s.initialized
  {
    match FindTab(s.tabs, id)
    case None => s
    case Some(tabToDetach) =>
      if tabToDetach.url == HOMEPAGE then s
      else
        var remainingTabs := Filter(s.tabs, Other(id));
        var active := if s.activeTabId == Some(id) && |remainingTabs| > 0
                      then Some(remainingTabs[0].id) else s.activeTabId;
        if ipcSucceeded then
          assert !HasTab(remainingTabs, id) by {
            forall i | 0 <= i < |remainingTabs| ensures remainingTabs[i].id != id {
              assert remainingTabs[i] in remainingTabs;
            }
          }
          s.(tabs := remainingTabs, activeTabId := active)
        else
          s.(tabs := remainingTabs + [tabToDetach],
             activeTabId := if s.activeTabId == Some(id) then Some(id) else active)
  }

  /** `handleTabsUpdated`: an array of tabs replaces the list, a truthy active id replaces the
      active id, and the context counts as initialised from then on. */
  function HandleTabsUpdated(s: TabsState, data: TabsUpdate): (r: TabsState)
    ensures r.tabs == data.tabs.GetOr(s.tabs)
    ensures r.activeTabId == if data.activeTabId.Some? then data.activeTabId else s.activeTabId
    ensures r.initialized
  {
    TabsState(data.tabs.GetOr(s.tabs),
              if data.activeTabId.Some? then data.activeTabId else s.activeTabId,
              true)
  }

  /** `handleReattachTab`: the reattached tab is appended and becomes active. */
  function HandleReattachTab(s: TabsState, data: ReattachData): (r: TabsState)
    ensures |r.tabs| == |s.tabs| + 1 && r.tabs[..|s.tabs|] == s.tabs
    ensures r.tabs[|s.tabs|] == Tab(data.id, data.title, data.url)
    ensures r.activeTabId == Some(data.id) && ActiveValid(r)
    ensures r.initialized == s.initialized
  {
    var r := s.(tabs := s.tabs + [Tab(data.id, data.title, data.url)], activeTabId := Some(data.id));
    assert r.tabs[|s.tabs|].id == data.id;
    r
  }

  /** Closing keeps the ids unique and, for a list with unique ids, keeps the active id
      pointing at a tab. */
  lemma CloseKeepsActiveValid(s: TabsState, id: TabId)
    requires UniqueIds(s.tabs) && ActiveValid(s)
    ensures UniqueIds(CloseTab(s, id).tabs) && ActiveValid(CloseTab(s, id))
  {
    if |s.tabs| != 1 {
      FilterPreservesUniqueIds(s.tabs, Other(id));
      if s.activeTabId.Some? {
        if s.activeTabId.value != id {
          OtherTabSurvives(s.tabs, id, s.activeTabId.value);
        } else {
          SomeTabSurvives(s.tabs, id);
        }
      }
    }
  }

  /** A tab with another id is still there after the filter. */
  lemma OtherTabSurvives(tabs: seq<Tab>, id: TabId, a: TabId)
    requires HasTab(tabs, a) && a != id
    ensures HasTab(Filter(tabs, Other(id)), a)
  {
    var i :| 0 <= i < |tabs| && tabs[i].id == a;
    var updated := Filter(tabs, Other(id));
    assert tabs[i] in updated;
    var k :| 0 <= k < |updated| && updated[k] == tabs[i];
  }

  /** Two or more tabs with distinct ids never all share the closed id. */
  lemma SomeTabSurvives(tabs: seq<Tab>, id: TabId)
    requires UniqueIds(tabs) && |tabs| >= 2
    ensures Filter(tabs, Other(id)) != []
  {
    assert tabs[0].id != tabs[1].id;
    var keep := if tabs[0].id != id then tabs[0] else tabs[1];
    assert keep in Filter(tabs, Other(id));
  }

  lemma {:induction false} FilterPreservesUniqueIds(tabs: seq<Tab>, keep: Tab -> bool)
    requires UniqueIds(tabs)
    ensures UniqueIds(Filter(tabs, keep))
  {
    if tabs != [] {
      FilterPreservesUniqueIds(tabs[1..], keep);
      var t := Filter(tabs[1..], keep);
      if keep(tabs[0]) {
        var r := [tabs[0]] + t;
        forall i, j | 0 <= i < j < |r| ensures r[i].id != r[j].id {
          if i == 0 {
            assert r[j] == t[j - 1] && t[j - 1] in tabs[1..];
            var k :| 0 <= k < |tabs[1..]| && tabs[1..][k] == t[j - 1];
            assert tabs[k + 1] == r[j];
          }
        }
      }
    }
  }

  /** Opening a tab and closing it again brings the list back, as long as there was a tab
      before and the new id was unused; the first tab, not the one active before, ends up
      active. */
  lemma AddThenClose(s: TabsState, now: TabId, url: string)
    requires |s.tabs| >= 1 && !HasTab(s.tabs, now)
    ensures CloseTab(AddTab(s, now, url), now).tabs == s.tabs
    ensures CloseTab(AddTab(s, now, url), now).activeTabId == Some(s.tabs[0].id)
  {
    var a := AddTab(s, now, url);
    assert a.tabs == s.tabs + [a.tabs[|s.tabs|]];
    FilterConcat(s.tabs, [a.tabs[|s.tabs|]], Other(now));
    forall t | t in s.tabs ensures Other(now)(t) {
      var i :| 0 <= i < |s.tabs| && s.tabs[i] == t;
    }
    FilterAll(s.tabs, Other(now));
    assert Filter([a.tabs[|s.tabs|]], Other(now)) == [];
  }

  lemma {:induction false} OnlyMatch(tabs: seq<Tab>, id: TabId, k: nat)
    requires UniqueIds(tabs) && k < |tabs| && tabs[k].id == id
    ensures Filter(tabs, Same(id)) == [tabs[k]]
  {
    if k == 0 {
      forall x | x in tabs[1..] ensures !Same(id)(x) {
        var j :| 0 <= j < |tabs[1..]| && tabs[1..][j] == x;
        assert tabs[j + 1] == x;
      }
      FilterNone(tabs[1..], Same(id));
    } else {
      OnlyMatch(tabs[1..], id, k - 1);
    }
  }

  /** A failed detach loses no tab and duplicates none: the list is a permutation of the
      original (when ids are unique) and the active id is unchanged. */
  lemma DetachFailureRestores(s: TabsState, id: TabId)
    requires UniqueIds(s.tabs)
    ensures multiset(DetachTab(s, id, false).tabs) == multiset(s.tabs)
    ensures DetachTab(s, id, false).activeTabId == s.activeTabId
  {
    var f := FindTab(s.tabs, id);
    if f.Some? && f.value.url != HOMEPAGE {
      var i :| 0 <= i < |s.tabs| && s.tabs[i] == f.value && f.value.id == id
               && forall j :: 0 <= j < i ==> s.tabs[j].id != id;
      OnlyMatch(s.tabs, id, i);
      FilterPartition(s.tabs, Other(id), Same(id));
    }
  }

  /** A successful detach followed by the reattach message for the same id puts a tab with
      that id back, active, at the end of the list, and the list regains its length when the
      ids were unique. */
  lemma DetachThenReattach(s: TabsState, id: TabId, title: string)
    requires UniqueIds(s.tabs)
    requires FindTab(s.tabs, id).Some? && FindTab(s.tabs, id).value.url != HOMEPAGE
    ensures var url := FindTab(s.tabs, id).value.url;
            var r := HandleReattachTab(DetachTab(s, id, true), ReattachData(id, title, url));
            |r.tabs| == |s.tabs| && r.tabs[|r.tabs| - 1] == Tab(id, title, url)
            && r.activeTabId == Some(id) && ActiveValid(r)
  {
    var f := FindTab(s.tabs, id);
    var i :| 0 <= i < |s.tabs| && s.tabs[i] == f.value && f.value.id == id
             && forall j :: 0 <= j < i ==> s.tabs[j].id != id;
    OnlyMatch(s.tabs, id, i);
    FilterPartition(s.tabs, Other(id), Same(id));
    assert |multiset(Filter(s.tabs, Other(id)))| + 1 == |multiset(s.tabs)|;
  }
}
