/** The global browsing history (the React history context): a list of visited pages, newest
    first. `addHistoryItem` keeps one entry per url and counts its visits, but the visits the
    main process reports arrive through a document-event listener registered once on mount,
    whose `addHistoryItem` still sees the empty list of the first render: on that path every
    visit prepends a fresh entry (`ListenerVisit`). The store holds the list and changes it in
    place; the queries are filters over it.

    Dates are integer millisecond timestamps; the clock reading (`Date.now()`) is a parameter. */
module HistoryStore {
  import opened Options
  import opened Seqs
  import opened JsString

  datatype HistoryItem = HistoryItem(
    id: string,
    url: string,
    title: string,
    tabId: string,
    /** `""` stands for an absent favicon. */
    favicon: string,
    timestamp: int,
    visitCount: int,
    lastVisit: int)

  /** What `importHistory` receives once `JSON.parse` has run: a parse failure, or an object
      whose `history` field is present exactly when it is an array. */
  datatype ImportInput = ParseFailure | Parsed(historyField: Option<seq<HistoryItem>>)

  /** No url occurs twice. */
  predicate UniqueUrls(h: seq<HistoryItem>)
  {
    forall i, j :: 0 <= i < j < |h| ==> h[i].url != h[j].url
  }

  /** Internal pages and empty urls are never recorded. */
  predicate Ignored(url: string)
  {
    url == "" || StartsWith(url, "noxx://") || StartsWith(url, "chrome://")
  }

  /** `x || fallback` on strings. */
  function OrElse(s: string, fallback: string): string
  {
    if s != "" then s else fallback
  }

  /** `history.findIndex(item => item.url === url)`. */
  function FirstUrlIndex(h: seq<HistoryItem>, url: string): (i: int)
    ensures -1 <= i < |h|
    ensures i == -1 <==> forall k :: 0 <= k < |h| ==> h[k].url != url
    ensures i >= 0 ==> h[i].url == url && forall k :: 0 <= k < i ==> h[k].url != url
  {
    if h == [] then -1
    else if h[0].url == url then 0
    else
      var j := FirstUrlIndex(h[1..], url);
      if j == -1 then -1 else j + 1
  }

  /** The entry a first visit creates: the title defaults to the url, one visit, first and
      last visit now, and the decimal clock reading as id. */
  function NewItem(url: string, title: string, tabId: string, favicon: string, now: nat): HistoryItem
  {
    HistoryItem(NatToString(now), url, OrElse(title, url), tabId, favicon, now, 1, now)
  }

  /** The list after a visit to `url` at time `now`. Ignored urls change nothing. A url already
      present has its first entry updated in place (one more visit, last visit now, the new
      title and favicon unless they are empty); any other url gets a new entry in front. */
  function RecordVisit(h: seq<HistoryItem>, url: string, title: string, tabId: string,
                       favicon: string, now: nat): (r: seq<HistoryItem>)
    ensures Ignored(url) ==> r == h
    ensures !Ignored(url) && FirstUrlIndex(h, url) >= 0 ==>
              var i := FirstUrlIndex(h, url);
              |r| == |h| && r[i].url == url
              && r[i] == h[i].(visitCount := h[i].visitCount + 1, lastVisit := now,
                               title := OrElse(title, h[i].title), favicon := OrElse(favicon, h[i].favicon))
              && forall k :: 0 <= k < |h| && k != i ==> r[k] == h[k]
    ensures !Ignored(url) && FirstUrlIndex(h, url) < 0 ==>
              r == [NewItem(url, title, tabId, favicon, now)] + h && r[0].visitCount == 1
    ensures UniqueUrls(h) ==> UniqueUrls(r)
    ensures forall k :: 0 <= k < |r| ==> r[k].url == url || r[k] in h
  {
    if Ignored(url) then h
    else
      var i := FirstUrlIndex(h, url);
      if i >= 0 then
        var old_ := h[i];
        h[i := old_.(visitCount := old_.visitCount + 1, lastVisit := now,
                     title := OrElse(title, old_.title), favicon := OrElse(favicon, old_.favicon))]
      else
        [NewItem(url, title, tabId, favicon, now)] + h
  }

  /** After a visit to a recorded url, its entry is the first one for that url: the updated
      entry if it was present, the new front entry otherwise. */
  lemma VisitedUrlIndex(h: seq<HistoryItem>, url: string, title: string, tabId: string,
                        favicon: string, now: nat)
    requires !Ignored(url)
    ensures var r := RecordVisit(h, url, title, tabId, favicon, now);
            FirstUrlIndex(r, url) == if FirstUrlIndex(h, url) >= 0 then FirstUrlIndex(h, url) else 0
  {
    var r := RecordVisit(h, url, title, tabId, favicon, now);
    var i := FirstUrlIndex(h, url);
    var j := FirstUrlIndex(r, url);
    if i >= 0 {
      assert r[i].url == url;
      assert forall k :: 0 <= k < i ==> r[k] == h[k];
    } else {
      assert r[0].url == url;
    }
  }

  /** Visiting a url twice in a row leaves one entry for it with two more visits than
      before; the list grows by at most one entry. */
  lemma RevisitCountsTwice(h: seq<HistoryItem>, url: string, title: string, tabId: string,
                           favicon: string, now: nat, later: nat)
    requires !Ignored(url)
    ensures var once := RecordVisit(h, url, title, tabId, favicon, now);
            var twice := RecordVisit(once, url, title, tabId, favicon, later);
            |twice| == |once| <= |h| + 1
            && FirstUrlIndex(twice, url) == FirstUrlIndex(once, url)
            && twice[FirstUrlIndex(once, url)].visitCount == once[FirstUrlIndex(once, url)].visitCount + 1
  {
    var once := RecordVisit(h, url, title, tabId, favicon, now);
    VisitedUrlIndex(h, url, title, tabId, favicon, now);
    VisitedUrlIndex(once, url, title, tabId, favicon, later);
  }

  /** A visit delivered by the `addHistoryItem` document event. The listener is installed once,
      on mount, so the `addHistoryItem` it calls looks the url up in the history of the first
      render, the empty list, and never finds it; its functional update then puts the new entry
      in front of the current list. Ignored urls change nothing. */
  function ListenerVisit(current: seq<HistoryItem>, url: string, title: string, tabId: string,
                         favicon: string, now: nat): (r: seq<HistoryItem>)
    ensures Ignored(url) ==> r == current
    ensures !Ignored(url) ==> r == [NewItem(url, title, tabId, favicon, now)] + current
                              && r[0].visitCount == 1 && r[0].url == url
  {
    RecordVisit([], url, title, tabId, favicon, now) + current
  }

  /** On the event path a second visit to the same url does not count: the list holds two
      entries for the url, each with one visit, so urls are no longer unique. */
  lemma ListenerRevisitDuplicates(h: seq<HistoryItem>, url: string, title: string, tabId: string,
                                  favicon: string, now: nat, later: nat)
    requires !Ignored(url)
    ensures var once := ListenerVisit(h, url, title, tabId, favicon, now);
            var twice := ListenerVisit(once, url, title, tabId, favicon, later);
            |twice| == |h| + 2
            && twice[0].url == url && twice[1].url == url
            && twice[0].visitCount == 1 && twice[1].visitCount == 1
            && !UniqueUrls(twice)
  {
    var once := ListenerVisit(h, url, title, tabId, favicon, now);
    var twice := ListenerVisit(once, url, title, tabId, favicon, later);
    assert twice[0].url == twice[1].url;
  }

  /** `removeHistoryItem(id)`: exactly the entries with that id go, the rest keep their order. */
  function RemoveItem(h: seq<HistoryItem>, id: string): (r: seq<HistoryItem>)
    ensures forall x :: x in r <==> x in h && x.id != id
    ensures forall x :: multiset(r)[x] == if x.id != id then multiset(h)[x] else 0
    ensures Subsequence(r, h)
  {
    var keep := (item: HistoryItem) => item.id != id;
    FilterMultiplicity(h, keep);
    Filter(h, keep)
  }

  /** `removeHistoryItems(ids)`: exactly the entries whose id is listed go. */
  function RemoveItems(h: seq<HistoryItem>, ids: seq<string>): (r: seq<HistoryItem>)
    ensures forall x :: x in r <==> x in h && x.id !in ids
    ensures forall x :: multiset(r)[x] == if x.id !in ids then multiset(h)[x] else 0
    ensures Subsequence(r, h)
  {
    var keep := (item: HistoryItem) => item.id !in ids;
    FilterMultiplicity(h, keep);
    Filter(h, keep)
  }

  /** The `getHistoryByDateRange` test: inside the closed interval. */
  function InRange(start: int, end: int): HistoryItem -> bool
  {
    (item: HistoryItem) => start <= item.timestamp <= end
  }

  /** The `clearHistoryByDate` test: strictly before or strictly after the interval. */
  function OutsideRange(start: int, end: int): HistoryItem -> bool
  {
    (item: HistoryItem) => item.timestamp < start || item.timestamp > end
  }

  /** `getHistoryByDateRange(start, end)`: the entries in the range, both ends included. */
  function ByDateRange(h: seq<HistoryItem>, start: int, end: int): (r: seq<HistoryItem>)
    ensures forall x :: x in r <==> x in h && start <= x.timestamp <= end
    ensures forall x :: multiset(r)[x] == if start <= x.timestamp <= end then multiset(h)[x] else 0
    ensures Subsequence(r, h)
  {
    var keep := InRange(start, end);
    FilterMultiplicity(h, keep);
    Filter(h, keep)
  }

  /** `clearHistoryByDate(start, end)`: the entries outside the range. */
  function ClearByDate(h: seq<HistoryItem>, start: int, end: int): (r: seq<HistoryItem>)
    ensures forall x :: x in r <==> x in h && (x.timestamp < start || x.timestamp > end)
    ensures forall x :: multiset(r)[x] == if x.timestamp < start || x.timestamp > end then multiset(h)[x] else 0
    ensures Subsequence(r, h)
  {
    var keep := OutsideRange(start, end);
    FilterMultiplicity(h, keep);
    Filter(h, keep)
  }

  /** Clearing a date range keeps exactly what the range query does not return: together they
      are the whole history. */
  lemma ClearByDateIsComplement(h: seq<HistoryItem>, start: int, end: int)
    ensures multiset(ByDateRange(h, start, end)) + multiset(ClearByDate(h, start, end)) == multiset(h)
    ensures |ByDateRange(h, start, end)| + |ClearByDate(h, start, end)| == |h|
  {
    FilterPartition(h, InRange(start, end), OutsideRange(start, end));
    assert |multiset(h)| == |h|;
  }

  /** `getHistoryByTab(tabId)`. */
  function ByTab(h: seq<HistoryItem>, tabId: string): (r: seq<HistoryItem>)
    ensures forall x :: x in r <==> x in h && x.tabId == tabId
    ensures forall x :: multiset(r)[x] == if x.tabId == tabId then multiset(h)[x] else 0
    ensures Subsequence(r, h)
  {
    var keep := (item: HistoryItem) => item.tabId == tabId;
    FilterMultiplicity(h, keep);
    Filter(h, keep)
  }

  /** The `searchHistory` test for a non-empty query. */
  predicate MatchesQuery(item: HistoryItem, query: string)
  {
    IncludesIgnoringCase(item.title, query) || IncludesIgnoringCase(item.url, query)
  }

  /** `searchHistory(query)`: everything for an empty query, otherwise the entries whose title
      or url contains the query, ignoring case, in history order. */
  function Search(h: seq<HistoryItem>, query: string): (r: seq<HistoryItem>)
    ensures query == "" ==> r == h
    ensures query != "" ==> forall x :: x in r <==> x in h && MatchesQuery(x, query)
    ensures query != "" ==> forall x :: multiset(r)[x] == if MatchesQuery(x, query) then multiset(h)[x] else 0
    ensures Subsequence(r, h)
  {
    if query == "" then
      SubsequenceRefl(h);
      h
    else
      var keep := (item: HistoryItem) => MatchesQuery(item, query);
      FilterMultiplicity(h, keep);
      Filter(h, keep)
  }

  /** An empty query is no filter at all, also through the matching test: the empty string
      occurs in every title. */
  lemma EmptyQueryMatchesAll(item: HistoryItem)
    ensures MatchesQuery(item, "")
  {
    EmptyIncludedEverywhere(item.title);
  }

  /** Non-increasing visit counts. */
  predicate SortedByVisits(s: seq<HistoryItem>)
  {
    forall p, q :: 0 <= p < q < |s| ==> s[p].visitCount >= s[q].visitCount
  }

  /** `slice(0, limit)`'s end index: a negative limit counts from the end; both ends clamp. */
  function SliceEnd(limit: int, len: nat): (r: nat)
    ensures r <= len
    ensures 0 <= limit ==> r == if limit < len then limit else len
    ensures limit < 0 ==> r == if len + limit < 0 then 0 else len + limit
  {
    if limit < 0 then (if len + limit < 0 then 0 else len + limit)
    else if limit < len then limit
    else len
  }

  /** `findIndex` as the browser runs it: a scan from the front. */
  method FindUrlIndex(h: seq<HistoryItem>, url: string) returns (index: int)
    ensures index == FirstUrlIndex(h, url)
  {
    index := 0;
    while index < |h|
      invariant 0 <= index <= |h|
      invariant forall k :: 0 <= k < index ==> h[k].url != url
    {
      if h[index].url == url {
        return;
      }
      index := index + 1;
    }
    index := -1;
  }

  /** Exchanges two neighbouring entries. */
  method SwapWithPrevious(a: array<HistoryItem>, j: int)
    requires 0 < j < a.Length
    modifies a
    ensures a[..] == old(a[..])[j - 1 := old(a[j])][j := old(a[j - 1])]
    ensures multiset(a[..]) == multiset(old(a[..]))
  {
    a[j - 1], a[j] := a[j], a[j - 1];
  }

  /** One insertion step: the entry at `i` moves left past the entries with fewer visits, so
      that the first `i + 1` entries are in order. */
  method SiftLeft(a: array<HistoryItem>, i: int)
    requires 0 <= i < a.Length
    requires forall p, q :: 0 <= p < q < i ==> a[p].visitCount >= a[q].visitCount
    modifies a
    ensures forall p, q :: 0 <= p < q <= i ==> a[p].visitCount >= a[q].visitCount
    ensures multiset(a[..]) == multiset(old(a[..]))
    ensures a[i + 1..] == old(a[i + 1..])
  {
    var j := i;
    while j > 0 && a[j - 1].visitCount < a[j].visitCount
      invariant 0 <= j <= i
      invariant forall p, q :: 0 <= p < q <= i && p != j && q != j ==> a[p].visitCount >= a[q].visitCount
      invariant forall q :: j < q <= i ==> a[j].visitCount > a[q].visitCount
      invariant multiset(a[..]) == multiset(old(a[..]))
      invariant a[i + 1..] == old(a[i + 1..])
    {
      SwapWithPrevious(a, j);
      j := j - 1;
    }
    forall p | 0 <= p < j
      ensures a[p].visitCount >= a[j].visitCount
    {
      if p < j - 1 {
        assert a[p].visitCount >= a[j - 1].visitCount;
      }
    }
  }

  /** The comparator sort `(a, b) => b.visitCount - a.visitCount` applied to an array in place:
      an insertion sort that moves an entry left only past entries with fewer visits. */
  method SortByVisitCount(a: array<HistoryItem>)
    modifies a
    ensures SortedByVisits(a[..])
    ensures multiset(a[..]) == multiset(old(a[..]))
  {
    var i := 0;
    while i < a.Length
      invariant 0 <= i <= a.Length
      invariant forall p, q :: 0 <= p < q < i ==> a[p].visitCount >= a[q].visitCount
      invariant multiset(a[..]) == multiset(old(a[..]))
    {
      SiftLeft(a, i);
      i := i + 1;
    }
  }

  class HistoryList {
    /** The history state, newest entry first. */
    var history: seq<HistoryItem>

    constructor ()
      ensures history == []
    {
      history := [];
    }

    /** The `addHistoryItem` document-event handler: the stale lookup finds nothing, and the
        new entry is prepended to the current list. */
    method HandleAddHistoryEvent(url: string, title: string, tabId: string, favicon: string, now: nat)
      modifies this`history
      ensures history == ListenerVisit(old(history), url, title, tabId, favicon, now)
    {
      var stale := RecordVisit([], url, title, tabId, favicon, now);
      history := stale + history;
    }

    /** `addHistoryItem`: the list is copied, the url looked up, and either the entry at the
        found index is replaced or a new entry goes in front. */
    method AddHistoryItem(url: string, title: string, tabId: string, favicon: string, now: nat)
      modifies this`history
      ensures history == RecordVisit(old(history), url, title, tabId, favicon, now)
    {
      if Ignored(url) {
        return;
      }
      var existingIndex := FindUrlIndex(history, url);
      if existingIndex != -1 {
        var updatedHistory := history;
        var existing := updatedHistory[existingIndex];
        updatedHistory := updatedHistory[existingIndex := existing.(
          visitCount := existing.visitCount + 1,
          lastVisit := now,
          title := OrElse(title, existing.title),
          favicon := OrElse(favicon, existing.favicon))];
        history := updatedHistory;
      } else {
        history := [NewItem(url, title, tabId, favicon, now)] + history;
      }
    }

    /** `removeHistoryItem`. */
    method RemoveHistoryItem(id: string)
      modifies this`history
      ensures history == RemoveItem(old(history), id)
    {
      history := RemoveItem(history, id);
    }

    /** `removeHistoryItems`. */
    method RemoveHistoryItems(ids: seq<string>)
      modifies this`history
      ensures history == RemoveItems(old(history), ids)
    {
      history := RemoveItems(history, ids);
    }

    /** `clearHistory`. */
    method ClearHistory()
      modifies this`history
      ensures history == []
    {
      history := [];
    }

    /** `clearHistoryByDate`. */
    method ClearHistoryByDate(start: int, end: int)
      modifies this`history
      ensures history == ClearByDate(old(history), start, end)
    {
      history := ClearByDate(history, start, end);
    }

    /** `getMostVisitedSites(limit)`: the history itself is sorted by visit count, most visited
        first (this reorders the stored list), and its first `limit` entries are returned. A
        call without an argument passes the default `limit` of 10. */
    method GetMostVisitedSites(limit: int) returns (top: seq<HistoryItem>)
      modifies this`history
      ensures SortedByVisits(history) && multiset(history) == multiset(old(history))
      ensures top == history[..SliceEnd(limit, |history|)]
      ensures SortedByVisits(top) && (limit >= 0 ==> |top| <= limit)
    {
      var a := new HistoryItem[|history|](i requires 0 <= i < |history| reads this => history[i]);
      assert a[..] == history;
      SortByVisitCount(a);
      history := a[..];
      top := history[..SliceEnd(limit, |history|)];
    }

    /** `importHistory`: an object with a `history` array has it appended and yields true;
        anything else, including a parse failure, yields false and changes nothing. */
    method ImportHistory(data: ImportInput) returns (ok: bool)
      modifies this`history
      ensures ok <==> data.Parsed? && data.historyField.Some?
      ensures ok ==> history == old(history) + data.historyField.value
      ensures !ok ==> history == old(history)
    {
      if data.Parsed? && data.historyField.Some? {
        history := history + data.historyField.value;
        return true;
      }
      return false;
    }
  }
}
