/** The history panel: its date buckets, the selection of entries, and the list it shows
    (search results narrowed by the tab filter, the date filter and the view mode). */
module HistoryView {
  import opened Seqs
  import opened HistoryStore

  const MS_PER_DAY: int := 1000 * 60 * 60 * 24

  datatype DateCategory = Today | Yesterday | ThisWeek | ThisMonth | Older

  /** The date filter: `all`, or one bucket. */
  datatype DateFilter = AllDates | InCategory(category: DateCategory)

  /** `getDateCategory`: the whole days elapsed, rounded down, pick the bucket. A timestamp in
      the future gives a negative count, which lands in `this-week`. */
  function GetDateCategory(now: int, time: int): (r: DateCategory)
    ensures var days := (now - time) / MS_PER_DAY;
            (r == Today <==> days == 0) && (r == Yesterday <==> days == 1)
            && (r == ThisWeek <==> days < 0 || 2 <= days < 7)
            && (r == ThisMonth <==> 7 <= days < 30)
            && (r == Older <==> days >= 30)
  {
    var diffInDays := (now - time) / MS_PER_DAY;
    if diffInDays == 0 then Today
    else if diffInDays == 1 then Yesterday
    else if diffInDays < 7 then ThisWeek
    else if diffInDays < 30 then ThisMonth
    else Older
  }

  /** `toggleSelection(id)`: a selected id is deselected, any other id is added at the end. */
  function ToggleSelection(selected: seq<string>, id: string): (r: seq<string>)
    ensures id in r <==> id !in selected
    ensures forall x :: x != id ==> (x in r <==> x in selected)
    ensures NoDup(selected) ==> NoDup(r)
  {
    if id in selected then
      var r := Filter(selected, (itemId: string) => itemId != id);
      FilterIsNoDup(selected, id);
      r
    else
      selected + [id]
  }

  lemma FilterIsNoDup(selected: seq<string>, id: string)
    ensures NoDup(selected) ==> NoDup(Filter(selected, (itemId: string) => itemId != id))
  {
    if NoDup(selected) {
      FilterNoDup(selected, (itemId: string) => itemId != id);
    }
  }

  /** Toggling the same id twice restores the selection as a set. */
  lemma ToggleTwice(selected: seq<string>, id: string)
    ensures forall x :: x in ToggleSelection(ToggleSelection(selected, id), id) <==> x in selected
  {
    var once := ToggleSelection(selected, id);
    var twice := ToggleSelection(once, id);
    assert id in twice <==> id in selected;
  }

  /** The panel's per-entry test: the tab filter (`all` or a tab id), the date filter and the
      view mode (`global`, or only the active tab's entries). */
  predicate Shown(item: HistoryItem, activeFilter: string, dateFilter: DateFilter,
                  viewMode: string, activeTabId: string, now: int)
  {
    (activeFilter == "all" || item.tabId == activeFilter)
    && (dateFilter.AllDates? || GetDateCategory(now, item.timestamp) == dateFilter.category)
    && (viewMode == "global" || item.tabId == activeTabId)
  }

  /** `filteredHistory`: the search results that pass all three filters, in order. */
  function FilteredHistory(h: seq<HistoryItem>, searchTerm: string, activeFilter: string,
                           dateFilter: DateFilter, viewMode: string, activeTabId: string,
                           now: int): (r: seq<HistoryItem>)
    ensures forall x :: x in r <==>
              x in Search(h, searchTerm) && Shown(x, activeFilter, dateFilter, viewMode, activeTabId, now)
    ensures forall x :: multiset(r)[x] ==
              if Shown(x, activeFilter, dateFilter, viewMode, activeTabId, now) then multiset(Search(h, searchTerm))[x] else 0
    ensures Subsequence(r, Search(h, searchTerm))
    ensures searchTerm == "" && activeFilter == "all" && dateFilter.AllDates? && viewMode == "global" ==>
              r == h
  {
    var keep := (item: HistoryItem) => Shown(item, activeFilter, dateFilter, viewMode, activeTabId, now);
    FilterMultiplicity(Search(h, searchTerm), keep);
    if searchTerm == "" && activeFilter == "all" && dateFilter.AllDates? && viewMode == "global" then
      FilterAll(h, keep);
      Filter(Search(h, searchTerm), keep)
    else
      Filter(Search(h, searchTerm), keep)
  }

  /** `selectAll`: the ids of the shown entries, in order. */
  function SelectAll(filtered: seq<HistoryItem>): (r: seq<string>)
    ensures |r| == |filtered|
    ensures forall i :: 0 <= i < |r| ==> r[i] == filtered[i].id
  {
    Map(filtered, (item: HistoryItem) => item.id)
  }

  /** The panel state the selection actions change: the history list and the selected ids. */
  datatype PanelState = PanelState(history: seq<HistoryItem>, selected: seq<string>)

  /** `deleteSelectedItems`: the selected entries leave the history and the selection empties. */
  function DeleteSelectedItems(p: PanelState): (r: PanelState)
    ensures r.selected == []
    ensures forall x :: x in r.history <==> x in p.history && x.id !in p.selected
    ensures forall x :: multiset(r.history)[x] == if x.id !in p.selected then multiset(p.history)[x] else 0
    ensures Subsequence(r.history, p.history)
  {
    PanelState(RemoveItems(p.history, p.selected), [])
  }

  /** `clearAllHistory`: no history and no selection. */
  function ClearAllHistory(p: PanelState): (r: PanelState)
    ensures r.history == [] && r.selected == []
  {
    PanelState([], [])
  }

  /** Selecting everything shown and deleting it leaves exactly the entries that were not
      shown (when no two entries share an id). */
  lemma SelectAllThenDelete(h: seq<HistoryItem>, searchTerm: string, activeFilter: string,
                            dateFilter: DateFilter, viewMode: string, activeTabId: string, now: int)
    ensures var shown := FilteredHistory(h, searchTerm, activeFilter, dateFilter, viewMode, activeTabId, now);
            var r := DeleteSelectedItems(PanelState(h, SelectAll(shown)));
            (forall x :: x in shown ==> x !in r.history)
            && (forall x :: x in h && (forall y :: y in shown ==> y.id != x.id) ==> x in r.history)
  {
    var shown := FilteredHistory(h, searchTerm, activeFilter, dateFilter, viewMode, activeTabId, now);
    var ids := SelectAll(shown);
    forall x | x in shown ensures x.id in ids {
      var i :| 0 <= i < |shown| && shown[i] == x;
      assert ids[i] == x.id;
    }
    forall x | x in h && (forall y :: y in shown ==> y.id != x.id) ensures x.id !in ids {
      forall i | 0 <= i < |ids| ensures ids[i] != x.id {
        assert shown[i] in shown;
      }
    }
  }
}
