/** The Electron main process of the browser shell: the process-wide tab tables
    (render surfaces, the per-tab back and forward stacks, detached windows), the active and
    homepage tab pointers, and the in-memory site-permission table. Every IPC handler runs to
    completion, so each one is a method that changes the shell's fields.

    The rendering engine is outside the model. A render surface (`BrowserView`) and a top-level
    window (`BrowserWindow`) are opaque objects created fresh; what the engine answers
    (`canGoBack()`, `canGoForward()`, `getURL()`, `getTitle()`, whether `reload()` threw) is
    passed in as a parameter. */
module MainProcess {
  import opened Options
  import opened Seqs

  type TabId = string
  type Url = string

  /** The pseudo-location of the built-in start page; it never has a surface. */
  const HOMEPAGE: Url := "noxx://homepage"
  /** Where a tab opened without a url goes. */
  const GOOGLE: Url := "https://www.google.com"
  const DEFAULT_TITLE: string := "New Tab"
  const HOMEPAGE_TITLE: string := "NoxX Browser"
  const DETACHED_TITLE: string := "Detached Tab"
  const GRANTED: string := "granted"

  /** An embedded engine viewport (`BrowserView`), compared by identity only. */
  class Surface {
    constructor () {}
  }

  /** A top-level native window (`BrowserWindow`) holding a detached tab. */
  class Window {
    constructor () {}
  }

  /** One entry of the tab list pushed to the user interface. */
  datatype TabMeta = TabMeta(id: TabId, title: string, url: Url)

  /** The tab record the interface sends with a reattach request. */
  datatype TabData = TabData(id: TabId, url: Url, title: string)

  /** Bookkeeping for a tab that lives in its own window. */
  datatype DetachedRecord = DetachedRecord(window: Window, view: Surface, url: Url, tabData: TabData)

  /** `x || fallback` on strings: the empty string counts as absent. */
  function OrElse(s: string, fallback: string): (r: string)
    ensures s != "" ==> r == s
    ensures s == "" ==> r == fallback
  {
    if s != "" then s else fallback
  }

  /** The key order after `delete tabViews[id]`: the same ids in the same order, minus `id`. */
  function Without(order: seq<TabId>, id: TabId): (r: seq<TabId>)
    requires NoDup(order)
    ensures NoDup(r)
    ensures forall x :: x in r <==> x in order && x != id
    ensures id !in order ==> r == order
    ensures Subsequence(r, order)
  {
    var keep := (x: TabId) => x != id;
    FilterNoDup(order, keep);
    if id in order then Filter(order, keep)
    else
      FilterAll(order, keep);
      Filter(order, keep)
  }

  /** The interface entries of the web tabs, in key order; titles and urls come from the engine. */
  function ViewMetas(ids: seq<TabId>, views: map<TabId, Surface>,
                     titleOf: Surface -> string, urlOf: Surface -> string): (r: seq<TabMeta>)
    requires forall id :: id in ids ==> id in views
    ensures |r| == |ids|
    ensures forall i :: 0 <= i < |ids| ==>
              r[i].id == ids[i] && r[i].url == OrElse(urlOf(views[ids[i]]), "")
              && r[i].title == OrElse(titleOf(views[ids[i]]), DEFAULT_TITLE)
  {
    seq(|ids|, i requires 0 <= i < |ids| =>
      TabMeta(ids[i], OrElse(titleOf(views[ids[i]]), DEFAULT_TITLE), OrElse(urlOf(views[ids[i]]), "")))
  }

  function MetaId(m: TabMeta): TabId { m.id }

  /** The back- or forward-stack of a tab; a tab without an entry reads as an empty stack. */
  function StackOf(stacks: map<TabId, seq<Url>>, id: TabId): seq<Url>
  {
    if id in stacks then stacks[id] else []
  }

  lemma ViewMetasIds(ids: seq<TabId>, views: map<TabId, Surface>,
                     titleOf: Surface -> string, urlOf: Surface -> string)
    requires forall id :: id in ids ==> id in views
    ensures Map(ViewMetas(ids, views, titleOf, urlOf), MetaId) == ids
  {
    var r := Map(ViewMetas(ids, views, titleOf, urlOf), MetaId);
    assert forall i :: 0 <= i < |ids| ==> r[i] == ids[i];
  }

  lemma PrependNoDup(m: TabMeta, rest: seq<TabMeta>)
    requires NoDup(Map(rest, MetaId)) && m.id !in Map(rest, MetaId)
    ensures NoDup(Map([m] + rest, MetaId))
  {
    var ids := Map([m] + rest, MetaId);
    assert ids == [m.id] + Map(rest, MetaId);
  }

  class Shell {
    /** The keys of `tabViews` in JavaScript's enumeration order (insertion order: the ids are
        millisecond timestamps, too long to be array indices). */
    var tabOrder: seq<TabId>
    /** tab id -> render surface. */
    var tabViews: map<TabId, Surface>
    /** The surface the main window currently displays (`setBrowserView`), if any. */
    var shownView: Option<Surface>
    var activeTabId: Option<TabId>
    var homepageTabId: Option<TabId>
    /** tab id -> back-stack, oldest first, current location last. */
    var navigationHistory: map<TabId, seq<Url>>
    /** tab id -> forward-stack, next location last. */
    var forwardHistory: map<TabId, seq<Url>>
    var detachedWindows: map<TabId, DetachedRecord>
    /** site -> permission -> status. */
    var sitePermissions: map<string, map<string, string>>

    /** The key order lists every key of `tabViews` exactly once. */
    ghost predicate Valid()
      reads this
    {
      NoDup(tabOrder) && (forall id :: id in tabViews <==> id in tabOrder)
    }

    /** A tab id is never both attached and detached. */
    ghost predicate Disjoint()
      reads this
    {
      tabViews.Keys !! detachedWindows.Keys
    }

    /** Application start: one homepage tab, active, with no surface, whose back-stack holds the
        homepage location and whose forward-stack is empty. */
    constructor Startup(now: TabId)
      ensures Valid() && Disjoint()
      ensures tabOrder == [] && tabViews == map[] && shownView == None
      ensures activeTabId == Some(now) && homepageTabId == Some(now)
      ensures navigationHistory == map[now := [HOMEPAGE]] && forwardHistory == map[now := []]
      ensures detachedWindows == map[] && sitePermissions == map[]
    {
      tabOrder := [];
      tabViews := map[];
      shownView := None;
      activeTabId := Some(now);
      homepageTabId := Some(now);
      navigationHistory := map[now := [HOMEPAGE]];
      forwardHistory := map[now := []];
      detachedWindows := map[];
      sitePermissions := map[];
    }

    /** The tab list pushed to the interface: the web tabs in key order, preceded by the
        homepage entry when a homepage id is set and it has no surface of its own. Every entry
        is a web tab or the homepage, and no id is listed twice. */
    function TabsMetadata(titleOf: Surface -> string, urlOf: Surface -> string): (r: seq<TabMeta>)
      reads this
      requires Valid()
      ensures homepageTabId.Some? && homepageTabId.value !in tabViews ==>
                r == [TabMeta(homepageTabId.value, HOMEPAGE_TITLE, HOMEPAGE)]
                     + ViewMetas(tabOrder, tabViews, titleOf, urlOf)
      ensures !(homepageTabId.Some? && homepageTabId.value !in tabViews) ==>
                r == ViewMetas(tabOrder, tabViews, titleOf, urlOf)
      ensures homepageTabId.Some? && tabViews == map[] ==>
                r == [TabMeta(homepageTabId.value, HOMEPAGE_TITLE, HOMEPAGE)]
      ensures forall i :: 0 <= i < |r| ==> r[i].id in tabViews || Some(r[i].id) == homepageTabId
      ensures NoDup(Map(r, MetaId))
    {
      var viewTabs := ViewMetas(tabOrder, tabViews, titleOf, urlOf);
      ViewMetasIds(tabOrder, tabViews, titleOf, urlOf);
      if homepageTabId.Some? then
        var homepageTab := TabMeta(homepageTabId.value, HOMEPAGE_TITLE, HOMEPAGE);
        if |viewTabs| == 0 then [homepageTab]
        else if homepageTabId.value !in tabViews then
          assert tabOrder[0] in tabViews;
          PrependNoDup(homepageTab, viewTabs);
          [homepageTab] + viewTabs
        else viewTabs
      else viewTabs
    }

    /** `add-tab`: a new surface under the id `now` (the clock), shown and active, with the
        back-stack `[url || google]` and an empty forward-stack. */
    method AddTab(now: TabId, url: Url) returns (id: TabId)
      requires Valid()
      modifies this`tabOrder, this`tabViews, this`activeTabId, this`shownView,
               this`navigationHistory, this`forwardHistory
      ensures Valid()
      ensures id == now && id in tabViews && fresh(tabViews[id])
      ensures tabViews == old(tabViews)[id := tabViews[id]]
      ensures tabOrder == if id in old(tabViews) then old(tabOrder) else old(tabOrder) + [id]
      ensures activeTabId == Some(id) && shownView == Some(tabViews[id])
      ensures navigationHistory == old(navigationHistory)[id := [OrElse(url, GOOGLE)]]
      ensures forwardHistory == old(forwardHistory)[id := []]
      ensures old(Disjoint()) && now !in detachedWindows ==> Disjoint()
    {
      id := now;
      var view := new Surface();
      if id !in tabViews {
        tabOrder := tabOrder + [id];
      }
      tabViews := tabViews[id := view];
      shownView := Some(view);
      activeTabId := Some(id);
      navigationHistory := navigationHistory[id := [OrElse(url, GOOGLE)]];
      forwardHistory := forwardHistory[id := []];
    }

    /** `switch-tab`: a web tab or the homepage becomes active; any other id changes nothing. */
    method SwitchTab(id: TabId)
      modifies this`activeTabId, this`shownView
      ensures id in tabViews ==> activeTabId == Some(id) && shownView == Some(tabViews[id])
      ensures id !in tabViews && homepageTabId == Some(id) ==>
                activeTabId == Some(id) && shownView == None
      ensures id !in tabViews && homepageTabId != Some(id) ==>
                activeTabId == old(activeTabId) && shownView == old(shownView)
    {
      if id in tabViews {
        shownView := Some(tabViews[id]);
        activeTabId := Some(id);
      } else if homepageTabId == Some(id) {
        shownView := None;
        activeTabId := Some(id);
      }
    }

    /** `close-tab`. Closing the homepage never removes it: with no web tabs it asks the
        application to exit, otherwise the first web tab becomes active. Closing any other id
        removes its surface (the stacks are kept); then the first remaining web tab, or the
        homepage if none remain, becomes active, whichever tab was active before. */
    method CloseTab(id: TabId) returns (exitRequested: bool)
      requires Valid()
      modifies this`tabOrder, this`tabViews, this`activeTabId, this`shownView
      ensures Valid()
      ensures old(Disjoint()) ==> Disjoint()
      ensures exitRequested <==> homepageTabId == Some(id) && old(tabViews) == map[]
      ensures exitRequested ==> activeTabId == old(activeTabId) && shownView == None
      ensures homepageTabId == Some(id) ==> tabViews == old(tabViews) && tabOrder == old(tabOrder)
      ensures homepageTabId != Some(id) ==>
                tabViews == old(tabViews) - {id} && tabOrder == Without(old(tabOrder), id)
      ensures !exitRequested && tabOrder != [] ==>
                activeTabId == Some(tabOrder[0]) && shownView == Some(tabViews[tabOrder[0]])
      ensures !exitRequested && tabOrder == [] ==> activeTabId == homepageTabId && shownView == None
    {
      exitRequested := false;
      if homepageTabId == Some(id) {
        if |tabOrder| == 0 {
          assert tabViews == map[];
          shownView := None;
          exitRequested := true;
          return;
        }
        assert tabOrder[0] in tabViews;
        ActivateFirst();
        return;
      }
      DropSurface(id);
      ActivateFirst();
    }

    /** After a close: the first web tab in key order is shown and active, or the homepage tab
        when there is none. */
    method ActivateFirst()
      requires Valid()
      modifies this`activeTabId, this`shownView
      ensures tabOrder != [] ==> activeTabId == Some(tabOrder[0]) && shownView == Some(tabViews[tabOrder[0]])
      ensures tabOrder == [] ==> activeTabId == homepageTabId && shownView == None
    {
      if |tabOrder| > 0 {
        shownView := Some(tabViews[tabOrder[0]]);
        activeTabId := Some(tabOrder[0]);
      } else {
        shownView := None;
        activeTabId := homepageTabId;
      }
    }

    /** `update-tab-url`: a direct navigation. It empties the tab's forward-stack (when it has
        one) and appends the url to its back-stack without de-duplicating. The homepage location
        removes the tab's surface; any other url gives the tab a shown surface. Returns true. */
    method UpdateTabUrl(tabId: TabId, url: Url) returns (ok: bool)
      requires Valid()
      modifies this`tabOrder, this`tabViews, this`shownView,
               this`navigationHistory, this`forwardHistory
      ensures Valid() && ok
      ensures forwardHistory == if tabId in old(forwardHistory)
                                then old(forwardHistory)[tabId := []] else old(forwardHistory)
      ensures StackOf(forwardHistory, tabId) == []
      ensures navigationHistory == old(navigationHistory)[tabId := StackOf(old(navigationHistory), tabId) + [url]]
      ensures url == HOMEPAGE ==>
                tabViews == old(tabViews) - {tabId} && tabOrder == Without(old(tabOrder), tabId)
                && shownView == (if tabId in old(tabViews) then None else old(shownView))
      ensures url != HOMEPAGE ==> tabId in tabViews && shownView == Some(tabViews[tabId])
      ensures url != HOMEPAGE && tabId in old(tabViews) ==>
                tabViews == old(tabViews) && tabOrder == old(tabOrder)
      ensures url != HOMEPAGE && tabId !in old(tabViews) ==>
                fresh(tabViews[tabId]) && tabViews == old(tabViews)[tabId := tabViews[tabId]]
                && tabOrder == old(tabOrder) + [tabId]
      ensures old(Disjoint()) && (url == HOMEPAGE || tabId !in detachedWindows) ==> Disjoint()
    {
      if url == HOMEPAGE {
        if tabId in tabViews {
          DropSurface(tabId);
          shownView := None;
        }
      } else {
        ShowTab(tabId);
      }
      RecordNavigation(tabId, url);
      return true;
    }

    /** The stacks after a direct navigation: the forward-stack emptied (when the tab has one),
        the url pushed on the back-stack. */
    method RecordNavigation(tabId: TabId, url: Url)
      modifies this`navigationHistory, this`forwardHistory
      ensures forwardHistory == if tabId in old(forwardHistory)
                                then old(forwardHistory)[tabId := []] else old(forwardHistory)
      ensures StackOf(forwardHistory, tabId) == []
      ensures navigationHistory == old(navigationHistory)[tabId := StackOf(old(navigationHistory), tabId) + [url]]
    {
      if tabId in forwardHistory {
        forwardHistory := forwardHistory[tabId := []];
      }
      navigationHistory := navigationHistory[tabId := StackOf(navigationHistory, tabId) + [url]];
    }

    /** The tab loses its surface (`delete tabViews[id]`), if it had one. */
    method DropSurface(tabId: TabId)
      requires Valid()
      modifies this`tabOrder, this`tabViews
      ensures Valid()
      ensures tabViews == old(tabViews) - {tabId} && tabOrder == Without(old(tabOrder), tabId)
      ensures old(Disjoint()) ==> Disjoint()
    {
      if tabId in tabViews {
        tabViews := tabViews - {tabId};
      }
      tabOrder := Without(tabOrder, tabId);
    }

    /** The tab gets a fresh surface, appended to the key order, unless it already has one. */
    method EnsureSurface(tabId: TabId)
      requires Valid()
      modifies this`tabOrder, this`tabViews
      ensures Valid() && tabId in tabViews
      ensures tabId in old(tabViews) ==> tabViews == old(tabViews) && tabOrder == old(tabOrder)
      ensures tabId !in old(tabViews) ==>
                fresh(tabViews[tabId]) && tabViews == old(tabViews)[tabId := tabViews[tabId]]
                && tabOrder == old(tabOrder) + [tabId]
    {
      if tabId !in tabViews {
        var view := new Surface();
        tabViews := tabViews[tabId := view];
        tabOrder := tabOrder + [tabId];
      }
    }

    /** Landing on the homepage: the tab loses its surface and the homepage tab is shown. */
    method LeaveForHomepage(tabId: TabId)
      requires Valid()
      modifies this`tabOrder, this`tabViews, this`activeTabId, this`shownView
      ensures Valid()
      ensures tabViews == old(tabViews) - {tabId} && tabOrder == Without(old(tabOrder), tabId)
      ensures shownView == None && activeTabId == homepageTabId
    {
      DropSurface(tabId);
      shownView := None;
      activeTabId := homepageTabId;
    }

    /** Landing on a web location: the tab has a surface, and it is the one shown. */
    method ShowTab(tabId: TabId)
      requires Valid()
      modifies this`tabOrder, this`tabViews, this`shownView
      ensures Valid() && tabId in tabViews && shownView == Some(tabViews[tabId])
      ensures tabId in old(tabViews) ==> tabViews == old(tabViews) && tabOrder == old(tabOrder)
      ensures tabId !in old(tabViews) ==>
                fresh(tabViews[tabId]) && tabViews == old(tabViews)[tabId := tabViews[tabId]]
                && tabOrder == old(tabOrder) + [tabId]
    {
      EnsureSurface(tabId);
      shownView := Some(tabViews[tabId]);
    }

    /** The shell's own back step: pop the current entry of the back-stack, push `current` on
        the forward-stack, and leave for the homepage when that is the entry now on top. */
    method PopBack(tabId: TabId, current: Url)
      requires Valid() && |StackOf(navigationHistory, tabId)| > 1
      modifies this`tabOrder, this`tabViews, this`activeTabId, this`shownView,
               this`navigationHistory, this`forwardHistory
      ensures Valid()
      ensures var back := StackOf(old(navigationHistory), tabId);
              navigationHistory == old(navigationHistory)[tabId := back[..|back| - 1]]
      ensures forwardHistory == old(forwardHistory)[tabId := StackOf(old(forwardHistory), tabId) + [current]]
      ensures var back := StackOf(old(navigationHistory), tabId);
              back[|back| - 2] == HOMEPAGE ==>
                tabViews == old(tabViews) - {tabId} && tabOrder == Without(old(tabOrder), tabId)
                && shownView == None && activeTabId == homepageTabId
      ensures var back := StackOf(old(navigationHistory), tabId);
              back[|back| - 2] != HOMEPAGE ==>
                tabViews == old(tabViews) && tabOrder == old(tabOrder)
                && shownView == old(shownView) && activeTabId == old(activeTabId)
    {
      var back := navigationHistory[tabId];
      var previousUrl := back[|back| - 2];
      if previousUrl == HOMEPAGE {
        LeaveForHomepage(tabId);
      }
      StepBackStacks(tabId, current);
    }

    /** The stacks after a back step: the back-stack loses its top, `current` goes on the
        forward-stack. */
    method StepBackStacks(tabId: TabId, current: Url)
      requires |StackOf(navigationHistory, tabId)| > 1
      modifies this`navigationHistory, this`forwardHistory
      ensures var back := StackOf(old(navigationHistory), tabId);
              navigationHistory == old(navigationHistory)[tabId := back[..|back| - 1]]
      ensures forwardHistory == old(forwardHistory)[tabId := StackOf(old(forwardHistory), tabId) + [current]]
    {
      var back := navigationHistory[tabId];
      forwardHistory := forwardHistory[tabId := StackOf(forwardHistory, tabId) + [current]];
      navigationHistory := navigationHistory[tabId := back[..|back| - 1]];
    }

    /** `go-back`. The engine's own history is used when the tab has a surface that can go
        back; the stacks are then untouched. Otherwise, with more than one back entry, the
        current entry is popped and the engine's url (or the homepage location when there is no
        surface) is pushed on the forward-stack; landing on the homepage removes the surface
        and activates the homepage tab. With at most one entry nothing changes and it returns
        false. */
    method GoBack(tabId: TabId, canGoBack: bool, engineUrl: Url) returns (ok: bool)
      requires Valid()
      modifies this`tabOrder, this`tabViews, this`activeTabId, this`shownView,
               this`navigationHistory, this`forwardHistory
      ensures Valid()
      ensures tabViews.Keys <= old(tabViews.Keys)
      ensures old(Disjoint()) ==> Disjoint()
      ensures tabId in old(tabViews) && canGoBack ==> ok && unchanged(this)
      ensures !(tabId in old(tabViews) && canGoBack) && |StackOf(old(navigationHistory), tabId)| <= 1 ==>
                !ok && unchanged(this)
      ensures !(tabId in old(tabViews) && canGoBack) && |StackOf(old(navigationHistory), tabId)| > 1 ==>
                ok && navigationHistory == old(navigationHistory)[tabId := StackOf(old(navigationHistory), tabId)[..|StackOf(old(navigationHistory), tabId)| - 1]]
      ensures !(tabId in old(tabViews) && canGoBack) && |StackOf(old(navigationHistory), tabId)| > 1 ==>
                forwardHistory == old(forwardHistory)[tabId := StackOf(old(forwardHistory), tabId) +
                                    [if tabId in old(tabViews) then engineUrl else HOMEPAGE]]
      ensures !(tabId in old(tabViews) && canGoBack) && |StackOf(old(navigationHistory), tabId)| > 1
              && StackOf(old(navigationHistory), tabId)[|StackOf(old(navigationHistory), tabId)| - 2] == HOMEPAGE ==>
                tabViews == old(tabViews) - {tabId} && tabOrder == Without(old(tabOrder), tabId)
                && shownView == None && activeTabId == homepageTabId
      ensures !(tabId in old(tabViews) && canGoBack) && |StackOf(old(navigationHistory), tabId)| > 1
              && StackOf(old(navigationHistory), tabId)[|StackOf(old(navigationHistory), tabId)| - 2] != HOMEPAGE ==>
                tabViews == old(tabViews) && tabOrder == old(tabOrder)
                && shownView == old(shownView) && activeTabId == old(activeTabId)
    {
      if tabId in tabViews && canGoBack {
        return true;
      }
      if tabId in navigationHistory && |navigationHistory[tabId]| > 1 {
        var current := if tabId in tabViews then engineUrl else HOMEPAGE;
        PopBack(tabId, current);
        return true;
      }
      return false;
    }

    /** `go-forward`. The engine's own history is used when the tab has a surface that can go
        forward. Otherwise a non-empty forward-stack is popped and the entry appended to the
        back-stack: the homepage location removes the surface and activates the homepage tab,
        any other entry makes sure the tab has a shown surface. An empty forward-stack changes
        nothing and returns false. */
    method GoForward(tabId: TabId, canGoForward: bool) returns (ok: bool)
      requires Valid()
      modifies this`tabOrder, this`tabViews, this`activeTabId, this`shownView,
               this`navigationHistory, this`forwardHistory
      ensures Valid()
      ensures tabId in old(tabViews) && canGoForward ==> ok && unchanged(this)
      ensures !(tabId in old(tabViews) && canGoForward) && StackOf(old(forwardHistory), tabId) == [] ==>
                !ok && unchanged(this)
      ensures !(tabId in old(tabViews) && canGoForward) && StackOf(old(forwardHistory), tabId) != [] ==>
                ok && forwardHistory == old(forwardHistory)[tabId := StackOf(old(forwardHistory), tabId)[..|StackOf(old(forwardHistory), tabId)| - 1]]
                && navigationHistory == old(navigationHistory)[tabId := StackOf(old(navigationHistory), tabId) + [StackOf(old(forwardHistory), tabId)[|StackOf(old(forwardHistory), tabId)| - 1]]]
      ensures !(tabId in old(tabViews) && canGoForward) && StackOf(old(forwardHistory), tabId) != []
              && StackOf(old(forwardHistory), tabId)[|StackOf(old(forwardHistory), tabId)| - 1] == HOMEPAGE ==>
                tabViews == old(tabViews) - {tabId} && tabOrder == Without(old(tabOrder), tabId)
                && shownView == None && activeTabId == homepageTabId
      ensures !(tabId in old(tabViews) && canGoForward) && StackOf(old(forwardHistory), tabId) != []
              && StackOf(old(forwardHistory), tabId)[|StackOf(old(forwardHistory), tabId)| - 1] != HOMEPAGE ==>
                tabId in tabViews && shownView == Some(tabViews[tabId])
                && activeTabId == old(activeTabId)
                && (tabId in old(tabViews) ==> tabViews == old(tabViews) && tabOrder == old(tabOrder))
                && (tabId !in old(tabViews) ==>
                      fresh(tabViews[tabId]) && tabViews == old(tabViews)[tabId := tabViews[tabId]]
                      && tabOrder == old(tabOrder) + [tabId])
      ensures old(Disjoint()) && tabId !in detachedWindows ==> Disjoint()
    {
      if tabId in tabViews && canGoForward {
        return true;
      }
      if tabId in forwardHistory && |forwardHistory[tabId]| > 0 {
        var fwd := forwardHistory[tabId];
        LandForward(tabId, fwd[|fwd| - 1]);
        StepForwardStacks(tabId);
        return true;
      }
      return false;
    }

    /** The surfaces after a forward step to `nextUrl`: the homepage location removes the
        tab's surface and shows the homepage tab, any other entry shows the tab's surface. */
    method LandForward(tabId: TabId, nextUrl: Url)
      requires Valid()
      modifies this`tabOrder, this`tabViews, this`activeTabId, this`shownView
      ensures Valid()
      ensures nextUrl == HOMEPAGE ==>
                tabViews == old(tabViews) - {tabId} && tabOrder == Without(old(tabOrder), tabId)
                && shownView == None && activeTabId == homepageTabId
      ensures nextUrl != HOMEPAGE ==>
                tabId in tabViews && shownView == Some(tabViews[tabId]) && activeTabId == old(activeTabId)
                && (tabId in old(tabViews) ==> tabViews == old(tabViews) && tabOrder == old(tabOrder))
                && (tabId !in old(tabViews) ==>
                      fresh(tabViews[tabId]) && tabViews == old(tabViews)[tabId := tabViews[tabId]]
                      && tabOrder == old(tabOrder) + [tabId])
      ensures old(Disjoint()) && tabId !in detachedWindows ==> Disjoint()
    {
      if nextUrl == HOMEPAGE {
        LeaveForHomepage(tabId);
      } else {
        ShowTab(tabId);
      }
    }

    /** The stacks after a forward step: the top of the forward-stack moves onto the
        back-stack. */
    method StepForwardStacks(tabId: TabId)
      requires StackOf(forwardHistory, tabId) != []
      modifies this`navigationHistory, this`forwardHistory
      ensures var fwd := StackOf(old(forwardHistory), tabId);
              forwardHistory == old(forwardHistory)[tabId := fwd[..|fwd| - 1]]
              && navigationHistory == old(navigationHistory)[tabId := StackOf(old(navigationHistory), tabId) + [fwd[|fwd| - 1]]]
    {
      var fwd := forwardHistory[tabId];
      forwardHistory := forwardHistory[tabId := fwd[..|fwd| - 1]];
      navigationHistory := navigationHistory[tabId := StackOf(navigationHistory, tabId) + [fwd[|fwd| - 1]]];
    }

    /** `refresh-page`: succeeds exactly when the tab has a surface and its reload did not throw. */
    method RefreshPage(tabId: TabId, reloadThrows: bool) returns (ok: bool)
      ensures ok <==> tabId in tabViews && !reloadThrows
    {
      ok := tabId in tabViews && !reloadThrows;
    }

    /** `detach-tab`: a fresh window and surface load `url`; the tab's surface leaves the main
        window and `tabViews`; a record keyed by the tab id remembers the window, surface and
        url. The active tab is left as it was (the interface moves it). Returns true. */
    method DetachTab(tabId: TabId, url: Url) returns (ok: bool)
      requires Valid()
      modifies this`tabOrder, this`tabViews, this`shownView, this`detachedWindows
      ensures Valid() && ok
      ensures old(Disjoint()) ==> Disjoint()
      ensures tabId !in tabViews && tabId in detachedWindows
      ensures tabViews == old(tabViews) - {tabId} && tabOrder == Without(old(tabOrder), tabId)
      ensures shownView == if tabId in old(tabViews) && old(shownView) == Some(old(tabViews)[tabId])
                           then None else old(shownView)
      ensures var rec := detachedWindows[tabId];
              fresh(rec.window) && fresh(rec.view)
              && rec.url == url && rec.tabData == TabData(tabId, url, DETACHED_TITLE)
              && detachedWindows == old(detachedWindows)[tabId := rec]
    {
      var newWindow := new Window();
      var detachedView := new Surface();
      if tabId in tabViews {
        if shownView == Some(tabViews[tabId]) {
          shownView := None;
        }
        tabViews := tabViews - {tabId};
        tabOrder := Without(tabOrder, tabId);
      }
      detachedWindows := detachedWindows[tabId := DetachedRecord(newWindow, detachedView, url,
                                                                  TabData(tabId, url, DETACHED_TITLE))];
      return true;
    }

    /** The `closed` event of a detached window: its record is dropped and the tab is gone. */
    method DetachedWindowClosed(tabId: TabId)
      modifies this`detachedWindows
      ensures detachedWindows == old(detachedWindows) - {tabId}
      ensures old(Disjoint()) ==> Disjoint()
    {
      detachedWindows := detachedWindows - {tabId};
    }

    /** `reattach-tab`: without a record for the id it returns false and changes nothing;
        otherwise a fresh surface loads the tab's url in the main window, the id becomes active
        and its record is deleted. */
    method ReattachTab(tabData: TabData) returns (ok: bool)
      requires Valid()
      modifies this`tabOrder, this`tabViews, this`activeTabId, this`shownView, this`detachedWindows
      ensures Valid()
      ensures ok <==> tabData.id in old(detachedWindows)
      ensures !ok ==> unchanged(this)
      ensures ok ==>
                tabData.id in tabViews && fresh(tabViews[tabData.id])
                && tabViews == old(tabViews)[tabData.id := tabViews[tabData.id]]
                && tabOrder == (if tabData.id in old(tabViews) then old(tabOrder) else old(tabOrder) + [tabData.id])
                && activeTabId == Some(tabData.id) && shownView == Some(tabViews[tabData.id])
                && detachedWindows == old(detachedWindows) - {tabData.id}
      ensures old(Disjoint()) ==> Disjoint()
    {
      if tabData.id !in detachedWindows {
        return false;
      }
      var newView := new Surface();
      if tabData.id !in tabViews {
        tabOrder := tabOrder + [tabData.id];
      }
      tabViews := tabViews[tabData.id := newView];
      activeTabId := Some(tabData.id);
      shownView := Some(newView);
      detachedWindows := detachedWindows - {tabData.id};
      return true;
    }

    /** The session's permission-request handler for a page of `site` (the requesting url's
        host name): the site gets an entry if it had none, and the request is granted only when
        the stored status is `granted`; an unknown or other status is denied. */
    method HandlePermissionRequest(site: string, permission: string) returns (granted: bool)
      modifies this`sitePermissions
      ensures granted <==> site in old(sitePermissions) && permission in old(sitePermissions)[site]
                           && old(sitePermissions)[site][permission] == GRANTED
      ensures sitePermissions == if site in old(sitePermissions) then old(sitePermissions)
                                 else old(sitePermissions)[site := map[]]
    {
      if site !in sitePermissions {
        sitePermissions := sitePermissions[site := map[]];
      }
      var stored := sitePermissions[site];
      granted := permission in stored && stored[permission] != "" && stored[permission] == GRANTED;
    }

    /** `get-site-permissions`. */
    method GetSitePermissions() returns (table: map<string, map<string, string>>)
      ensures table == sitePermissions
    {
      table := sitePermissions;
    }

    /** `set-site-permission`: creates the site entry if needed and stores the status. */
    method SetSitePermission(site: string, permission: string, status: string) returns (ok: bool)
      modifies this`sitePermissions
      ensures ok
      ensures site in sitePermissions && permission in sitePermissions[site]
      ensures sitePermissions[site][permission] == status
      ensures sitePermissions == old(sitePermissions)[site :=
                (if site in old(sitePermissions) then old(sitePermissions)[site] else map[])[permission := status]]
    {
      if site !in sitePermissions {
        sitePermissions := sitePermissions[site := map[]];
      }
      sitePermissions := sitePermissions[site := sitePermissions[site][permission := status]];
      return true;
    }

    /** `remove-site-permissions`: deletes one site. */
    method RemoveSitePermissions(site: string) returns (ok: bool)
      modifies this`sitePermissions
      ensures ok && sitePermissions == old(sitePermissions) - {site}
    {
      sitePermissions := sitePermissions - {site};
      return true;
    }

    /** `clear-all-permissions`: empties the table. */
    method ClearAllPermissions() returns (ok: bool)
      modifies this`sitePermissions
      ensures ok && sitePermissions == map[]
    {
      sitePermissions := map[];
      return true;
    }
  }

  /** A shadow go-back followed by a shadow go-forward on a tab without a surface: both stack
      lengths are restored, the forward-stack exactly, and the back-stack regains its old
      length with the homepage location on top (the location go-back saved). */
  method BackThenForwardWithoutSurface(shell: Shell, tabId: TabId, engineUrl: Url)
    requires shell.Valid() && tabId !in shell.tabViews
    requires |StackOf(shell.navigationHistory, tabId)| > 1
    modifies shell
    ensures shell.Valid()
    ensures |StackOf(shell.navigationHistory, tabId)| == |StackOf(old(shell.navigationHistory), tabId)|
    ensures StackOf(shell.forwardHistory, tabId) == StackOf(old(shell.forwardHistory), tabId)
    ensures StackOf(shell.navigationHistory, tabId) == StackOf(old(shell.navigationHistory), tabId)[..|StackOf(old(shell.navigationHistory), tabId)| - 1] + [HOMEPAGE]
  {
    var backOk := shell.GoBack(tabId, false, engineUrl);
    var forwardOk := shell.GoForward(tabId, false);
  }

  /** A shadow go-back followed by a shadow go-forward on a tab whose surface reports the
      url `engineUrl` (a web location): both stack lengths are restored, the forward-stack
      exactly, and the back-stack exactly when the engine's url is the entry that was current. */
  method BackThenForwardWithSurface(shell: Shell, tabId: TabId, engineUrl: Url)
    requires shell.Valid() && tabId in shell.tabViews && engineUrl != HOMEPAGE
    requires |StackOf(shell.navigationHistory, tabId)| > 1
    modifies shell
    ensures shell.Valid()
    ensures |StackOf(shell.navigationHistory, tabId)| == |StackOf(old(shell.navigationHistory), tabId)|
    ensures StackOf(shell.forwardHistory, tabId) == StackOf(old(shell.forwardHistory), tabId)
    ensures StackOf(shell.navigationHistory, tabId) == StackOf(old(shell.navigationHistory), tabId)[..|StackOf(old(shell.navigationHistory), tabId)| - 1] + [engineUrl]
    ensures tabId in shell.tabViews
  {
    var backOk := shell.GoBack(tabId, false, engineUrl);
    var forwardOk := shell.GoForward(tabId, false);
  }

  /** Detaching a tab and then reattaching it under the same id brings back a tab with that id,
      active, with a surface, and with no detached record left. */
  method DetachThenReattach(shell: Shell, tabId: TabId, url: Url, title: string)
    requires shell.Valid()
    modifies shell
    ensures shell.Valid()
    ensures tabId in shell.tabViews && tabId !in shell.detachedWindows
    ensures shell.activeTabId == Some(tabId)
    ensures old(shell.Disjoint()) ==> shell.Disjoint()
  {
    var detached := shell.DetachTab(tabId, url);
    var reattached := shell.ReattachTab(TabData(tabId, url, title));
  }

  /** A web-location update for an id that is detached gives it a surface while its detached
      record stays: the id is then both attached and detached. */
  method UpdateDetachedTabBreaksDisjoint(shell: Shell, tabId: TabId, url: Url)
    requires shell.Valid() && tabId in shell.detachedWindows && url != HOMEPAGE
    modifies shell
    ensures shell.Valid()
    ensures tabId in shell.tabViews && tabId in shell.detachedWindows
    ensures !shell.Disjoint()
  {
    var ok := shell.UpdateTabUrl(tabId, url);
  }
}
