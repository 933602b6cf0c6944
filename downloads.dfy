/** The downloads panel: the status changes a user makes to a download, the clearing of
    finished entries, the filtered and sorted list view, and the summary counts. Sizes are
    byte counts; timestamps are milliseconds. */
module Downloads {
  import opened Seqs
  import opened JsString

  const COMPLETED: string := "completed"
  const DOWNLOADING: string := "downloading"
  const PAUSED: string := "paused"
  const FAILED: string := "failed"
  const ALL: string := "all"

  datatype Download = Download(id: string, filename: string, url: string, size: nat,
                               downloadedSize: nat, progress: int, status: string, timestamp: int)

  /** Sets the status of the downloads with that id; every other entry and every other field
      is unchanged. Shared by pause and resume. */
  function SetStatus(downloads: seq<Download>, id: string, status: string): (r: seq<Download>)
    ensures |r| == |downloads|
    ensures forall i :: 0 <= i < |r| ==>
              r[i] == if downloads[i].id == id then downloads[i].(status := status) else downloads[i]
  {
    Map(downloads, (d: Download) => if d.id == id then d.(status := status) else d)
  }

  /** `pauseDownload`. */
  function PauseDownload(downloads: seq<Download>, id: string): (r: seq<Download>)
    ensures |r| == |downloads|
    ensures forall i :: 0 <= i < |r| ==>
              if downloads[i].id == id then r[i] == downloads[i].(status := PAUSED) else r[i] == downloads[i]
  {
    SetStatus(downloads, id, PAUSED)
  }

  /** `resumeDownload`. */
  function ResumeDownload(downloads: seq<Download>, id: string): (r: seq<Download>)
    ensures |r| == |downloads|
    ensures forall i :: 0 <= i < |r| ==>
              if downloads[i].id == id then r[i] == downloads[i].(status := DOWNLOADING) else r[i] == downloads[i]
  {
    SetStatus(downloads, id, DOWNLOADING)
  }

  /** Pausing a running download and resuming it restores the list. */
  lemma PauseThenResume(downloads: seq<Download>, id: string)
    requires forall d :: d in downloads && d.id == id ==> d.status == DOWNLOADING
    ensures ResumeDownload(PauseDownload(downloads, id), id) == downloads
  {
    var r := ResumeDownload(PauseDownload(downloads, id), id);
    forall i | 0 <= i < |r| ensures r[i] == downloads[i] {
      assert downloads[i] in downloads;
    }
  }

  /** `retryDownload`: the download restarts from nothing; the others are unchanged. */
  function RetryDownload(downloads: seq<Download>, id: string): (r: seq<Download>)
    ensures |r| == |downloads|
    ensures forall i :: 0 <= i < |r| ==>
              if downloads[i].id == id then
                r[i] == downloads[i].(status := DOWNLOADING, progress := 0, downloadedSize := 0)
              else r[i] == downloads[i]
  {
    Map(downloads, (d: Download) =>
      if d.id == id then d.(status := DOWNLOADING, progress := 0, downloadedSize := 0) else d)
  }

  /** `cancelDownload`: exactly the entries with that id leave the list. */
  function CancelDownload(downloads: seq<Download>, id: string): (r: seq<Download>)
    ensures forall d :: d in r <==> d in downloads && d.id != id
    ensures forall d :: multiset(r)[d] == if d.id != id then multiset(downloads)[d] else 0
    ensures Subsequence(r, downloads)
  {
    var keep := (d: Download) => d.id != id;
    FilterMultiplicity(downloads, keep);
    Filter(downloads, keep)
  }

  function HasStatus(status: string): Download -> bool
  {
    (d: Download) => d.status == status
  }

  function LacksStatus(status: string): Download -> bool
  {
    (d: Download) => d.status != status
  }

  /** `clearCompleted`: the completed entries go, the rest keep their order. */
  function ClearCompleted(downloads: seq<Download>): (r: seq<Download>)
    ensures forall d :: d in r <==> d in downloads && d.status != COMPLETED
    ensures forall d :: multiset(r)[d] == if d.status != COMPLETED then multiset(downloads)[d] else 0
    ensures Subsequence(r, downloads)
  {
    var keep := LacksStatus(COMPLETED);
    FilterMultiplicity(downloads, keep);
    Filter(downloads, keep)
  }

  /** `clearFailed`: the failed entries go, the rest keep their order. */
  function ClearFailed(downloads: seq<Download>): (r: seq<Download>)
    ensures forall d :: d in r <==> d in downloads && d.status != FAILED
    ensures forall d :: multiset(r)[d] == if d.status != FAILED then multiset(downloads)[d] else 0
    ensures Subsequence(r, downloads)
  {
    var keep := LacksStatus(FAILED);
    FilterMultiplicity(downloads, keep);
    Filter(downloads, keep)
  }

  /** The totals shown above the list. */
  datatype Stats = Stats(total: nat, completed: nat, downloading: nat, failed: nat,
                         totalSize: nat, downloadedSize: nat)

  /** `reduce((sum, d) => sum + d.size, 0)`. */
  function SumSize(downloads: seq<Download>): nat
  {
    if downloads == [] then 0 else downloads[0].size + SumSize(downloads[1..])
  }

  /** `reduce((sum, d) => sum + d.downloadedSize, 0)`. */
  function SumDownloaded(downloads: seq<Download>): nat
  {
    if downloads == [] then 0 else downloads[0].downloadedSize + SumDownloaded(downloads[1..])
  }

  /** Entries of the three counted statuses never outnumber the list. */
  lemma {:induction false} StatusCountsBounded(downloads: seq<Download>)
    ensures Count(downloads, HasStatus(COMPLETED)) + Count(downloads, HasStatus(DOWNLOADING))
            + Count(downloads, HasStatus(FAILED)) <= |downloads|
  {
    if downloads != [] {
      StatusCountsBounded(downloads[1..]);
    }
  }

  /** The downloaded bytes never exceed the total when no entry has more downloaded than its size. */
  lemma {:induction false} DownloadedWithinTotal(downloads: seq<Download>)
    requires forall d :: d in downloads ==> d.downloadedSize <= d.size
    ensures SumDownloaded(downloads) <= SumSize(downloads)
  {
    if downloads != [] {
      assert downloads[0] in downloads;
      DownloadedWithinTotal(downloads[1..]);
    }
  }

  /** `getStats`. */
  function GetStats(downloads: seq<Download>): (r: Stats)
    ensures r.total == |downloads|
    ensures r.completed == |Filter(downloads, HasStatus(COMPLETED))|
    ensures r.downloading == |Filter(downloads, HasStatus(DOWNLOADING))|
    ensures r.failed == |Filter(downloads, HasStatus(FAILED))|
    ensures r.completed + r.downloading + r.failed <= r.total
    ensures r.totalSize == SumSize(downloads) && r.downloadedSize == SumDownloaded(downloads)
  {
    FilterCount(downloads, HasStatus(COMPLETED));
    FilterCount(downloads, HasStatus(DOWNLOADING));
    FilterCount(downloads, HasStatus(FAILED));
    StatusCountsBounded(downloads);
    Stats(|downloads|, |Filter(downloads, HasStatus(COMPLETED))|,
          |Filter(downloads, HasStatus(DOWNLOADING))|, |Filter(downloads, HasStatus(FAILED))|,
          SumSize(downloads), SumDownloaded(downloads))
  }

  /** Counting an entry and its complement covers every entry once. */
  lemma {:induction false} CountSplit(downloads: seq<Download>, status: string)
    ensures Count(downloads, HasStatus(status)) + Count(downloads, LacksStatus(status)) == |downloads|
  {
    if downloads != [] {
      CountSplit(downloads[1..], status);
    }
  }

  /** After `clearCompleted` the total drops by exactly the completed count and nothing is
      completed any more. */
  lemma ClearCompletedStats(downloads: seq<Download>)
    ensures var after := GetStats(ClearCompleted(downloads));
            after.total == GetStats(downloads).total - GetStats(downloads).completed
            && after.completed == 0
  {
    var rest := ClearCompleted(downloads);
    FilterCount(downloads, LacksStatus(COMPLETED));
    FilterCount(downloads, HasStatus(COMPLETED));
    CountSplit(downloads, COMPLETED);
    assert |rest| == |downloads| - |Filter(downloads, HasStatus(COMPLETED))|;
    FilterNone(rest, HasStatus(COMPLETED));
    assert GetStats(rest).completed == 0;
  }

  /** The list-view test: the file name contains the search term ignoring case, the status
      matches the filter (or the filter is `all`), and completed entries are hidden unless
      they are to be shown. */
  predicate Matches(d: Download, searchTerm: string, statusFilter: string, showCompleted: bool)
  {
    IncludesIgnoringCase(d.filename, searchTerm)
    && (statusFilter == ALL || d.status == statusFilter)
    && (showCompleted || d.status != COMPLETED)
  }

  /** The sort order picked in the panel; anything but name and size sorts by date. */
  datatype SortKey = ByName | BySize | ByDate

  /** Code-point order on strings, standing in for `localeCompare`. */
  predicate LexLe(a: string, b: string)
    decreases |a|
  {
    a == [] || (b != [] && (a[0] < b[0] || (a[0] == b[0] && LexLe(a[1..], b[1..]))))
  }

  lemma {:induction false} LexLeTotal(a: string, b: string)
    ensures LexLe(a, b) || LexLe(b, a)
    decreases |a|
  {
    if a != [] && b != [] && a[0] == b[0] {
      LexLeTotal(a[1..], b[1..]);
    }
  }

  lemma {:induction false} LexLeTrans(a: string, b: string, c: string)
    requires LexLe(a, b) && LexLe(b, c)
    ensures LexLe(a, c)
    decreases |a|
  {
    if a != [] && b != [] && c != [] && a[0] == b[0] && b[0] == c[0] {
      LexLeTrans(a[1..], b[1..], c[1..]);
    }
  }

  /** `a` may come before `b`: the comparator returns zero or less. Name ascending, size
      descending, date descending. */
  predicate Le(key: SortKey, a: Download, b: Download)
  {
    match key
    case ByName => LexLe(a.filename, b.filename)
    case BySize => b.size <= a.size
    case ByDate => b.timestamp <= a.timestamp
  }

  lemma LeTotal(key: SortKey, a: Download, b: Download)
    ensures Le(key, a, b) || Le(key, b, a)
  {
    if key.ByName? {
      LexLeTotal(a.filename, b.filename);
    }
  }

  lemma LeTrans(key: SortKey, a: Download, b: Download, c: Download)
    requires Le(key, a, b) && Le(key, b, c)
    ensures Le(key, a, c)
  {
    if key.ByName? {
      LexLeTrans(a.filename, b.filename, c.filename);
    }
  }

  predicate Sorted(key: SortKey, s: seq<Download>)
  {
    forall i, j :: 0 <= i < j < |s| ==> Le(key, s[i], s[j])
  }

  /** Puts `x` before the first entry it may precede. */
  function Insert(key: SortKey, x: Download, s: seq<Download>): (r: seq<Download>)
    requires Sorted(key, s)
    ensures Sorted(key, r)
    ensures multiset(r) == multiset(s) + multiset{x}
  {
    if s == [] then [x]
    else if Le(key, x, s[0]) then
      BelowHeadBelowAll(key, x, s);
      PrependSorted(key, x, s);
      [x] + s
    else
      var t := Insert(key, x, s[1..]);
      LeTotal(key, x, s[0]);
      HeadBelowRest(key, s, x, t);
      PrependSorted(key, s[0], t);
      assert s == [s[0]] + s[1..];
      [s[0]] + t
  }

  /** An entry that may precede the first of a sorted list may precede all of it. */
  lemma BelowHeadBelowAll(key: SortKey, x: Download, s: seq<Download>)
    requires Sorted(key, s) && s != [] && Le(key, x, s[0])
    ensures forall z :: z in s ==> Le(key, x, z)
  {
    forall z | z in s ensures Le(key, x, z) {
      var j :| 0 <= j < |s| && s[j] == z;
      if j > 0 {
        LeTrans(key, x, s[0], s[j]);
      }
    }
  }

  /** A sorted list stays sorted behind an entry that may precede all of it. */
  lemma PrependSorted(key: SortKey, y: Download, t: seq<Download>)
    requires Sorted(key, t) && forall z :: z in t ==> Le(key, y, z)
    ensures Sorted(key, [y] + t)
  {
    var r := [y] + t;
    forall i, j | 0 <= i < j < |r| ensures Le(key, r[i], r[j]) {
      assert r[j] == t[j - 1] && t[j - 1] in t;
      if i > 0 {
        assert r[i] == t[i - 1];
      }
    }
  }

  /** The head of a sorted list may precede every entry of the rest with `x` put in, when it
      may precede `x`. */
  lemma HeadBelowRest(key: SortKey, s: seq<Download>, x: Download, t: seq<Download>)
    requires Sorted(key, s) && s != [] && Le(key, s[0], x)
    requires multiset(t) == multiset(s[1..]) + multiset{x}
    ensures forall y :: y in t ==> Le(key, s[0], y)
  {
    forall y | y in t ensures Le(key, s[0], y) {
      assert y in multiset(t);
      if y != x {
        assert y in multiset(s[1..]);
        var j :| 0 <= j < |s[1..]| && s[1..][j] == y;
        assert s[j + 1] == y;
      }
    }
  }

  /** The list sorted by `key`: a sorted rearrangement of its entries. */
  function Sort(key: SortKey, s: seq<Download>): (r: seq<Download>)
    ensures Sorted(key, r)
    ensures multiset(r) == multiset(s)
  {
    if s == [] then []
    else
      assert s == [s[0]] + s[1..];
      Insert(key, s[0], Sort(key, s[1..]))
  }

  /** `filteredDownloads`: the matching entries, sorted by the chosen key. */
  function FilteredDownloads(downloads: seq<Download>, searchTerm: string, statusFilter: string,
                             showCompleted: bool, key: SortKey): (r: seq<Download>)
    ensures Sorted(key, r)
    ensures multiset(r) == multiset(Filter(downloads, (d: Download) => Matches(d, searchTerm, statusFilter, showCompleted)))
    ensures forall d :: d in r <==> d in downloads && Matches(d, searchTerm, statusFilter, showCompleted)
  {
    var kept := Filter(downloads, (d: Download) => Matches(d, searchTerm, statusFilter, showCompleted));
    var r := Sort(key, kept);
    forall d ensures d in r <==> d in kept {
      assert d in r <==> d in multiset(r);
      assert d in kept <==> d in multiset(kept);
    }
    r
  }
}
