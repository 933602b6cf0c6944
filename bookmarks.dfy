/** The bookmarks panel: a list of bookmarks filed into named folders, the add form's draft,
    and the filtered and grouped views of the list. Ids are the creation time in
    milliseconds, rendered in decimal; the time and its ISO rendering are parameters. */
module Bookmarks {
  import opened Options
  import opened Seqs
  import opened JsString
  import TabContext

  const DEFAULT_FOLDER: string := "default"
  const ALL: string := "all"
  const HTTPS: string := "https://"
  const GLOBE: string := "\U{1F310}"
  const INITIAL_FOLDERS: seq<string> := ["default", "work", "personal", "social"]

  datatype Bookmark = Bookmark(id: string, title: string, url: string, folder: string,
                               createdAt: string, icon: string)

  /** The add form's fields. */
  datatype Draft = Draft(title: string, url: string, folder: string)

  const EMPTY_DRAFT: Draft := Draft("", "", DEFAULT_FOLDER)

  datatype BookmarksState = BookmarksState(bookmarks: seq<Bookmark>, folders: seq<string>,
                                           draft: Draft, showAddForm: bool)

  /** The panel's initial state: no bookmarks, the four stock folders, an empty draft. */
  function Initial(): (r: BookmarksState)
    ensures r.bookmarks == [] && NoDup(r.folders) && DEFAULT_FOLDER in r.folders
    ensures r.draft == EMPTY_DRAFT && !r.showAddForm
  {
    BookmarksState([], INITIAL_FOLDERS, EMPTY_DRAFT, false)
  }

  /** The stored url: kept when it starts with `http` (which `https` does too), otherwise
      `https://` goes in front. */
  function NormalizeUrl(url: string): (r: string)
    ensures StartsWith(url, "http") ==> r == url
    ensures !StartsWith(url, "http") ==> r == HTTPS + url
    ensures StartsWith(r, "http")
  {
    if StartsWith(url, "http") then url else HTTPS + url
  }

  /** A stored url is stored as it is when the form is filled in with it again. */
  lemma NormalizeUrlIdempotent(url: string)
    ensures NormalizeUrl(NormalizeUrl(url)) == NormalizeUrl(url)
  {
  }

  /** `addBookmark`: with a title and a url in the draft, one bookmark is appended, the draft is
      reset and the form closes; otherwise nothing changes. */
  function AddBookmark(s: BookmarksState, now: nat, isoNow: string): (r: BookmarksState)
    ensures s.draft.title == "" || s.draft.url == "" ==> r == s
    ensures s.draft.title != "" && s.draft.url != "" ==>
              r.bookmarks == s.bookmarks + [Bookmark(NatToString(now), s.draft.title, NormalizeUrl(s.draft.url),
                                                     s.draft.folder, isoNow, GLOBE)]
              && r.draft == EMPTY_DRAFT && !r.showAddForm && r.folders == s.folders
  {
    if s.draft.title != "" && s.draft.url != "" then
      var bookmark := Bookmark(NatToString(now), s.draft.title, NormalizeUrl(s.draft.url),
                               s.draft.folder, isoNow, GLOBE);
      s.(bookmarks := s.bookmarks + [bookmark], draft := EMPTY_DRAFT, showAddForm := false)
    else s
  }

  /** `addCurrentPage`: the active tab, when there is one and it has a url, is appended to
      `default` under its title, or under its url when it has no title. */
  function AddCurrentPage(s: BookmarksState, tabs: seq<TabContext.Tab>, activeTabId: string,
                          now: nat, isoNow: string): (r: BookmarksState)
    ensures var active := TabContext.FindTab(tabs, activeTabId);
            active.None? || active.value.url == "" ==> r == s
    ensures var active := TabContext.FindTab(tabs, activeTabId);
            active.Some? && active.value.url != "" ==>
              var title := if active.value.title == "" then active.value.url else active.value.title;
              r == s.(bookmarks := s.bookmarks + [Bookmark(NatToString(now), title, active.value.url,
                                                           DEFAULT_FOLDER, isoNow, GLOBE)])
  {
    match TabContext.FindTab(tabs, activeTabId)
    case Some(tab) =>
      if tab.url != "" then
        var bookmark := Bookmark(NatToString(now), TabContext.OrElse(tab.title, tab.url), tab.url,
                                 DEFAULT_FOLDER, isoNow, GLOBE);
        s.(bookmarks := s.bookmarks + [bookmark])
      else s
    case None => s
  }

  function NotId(id: string): Bookmark -> bool
  {
    (b: Bookmark) => b.id != id
  }

  /** `deleteBookmark`: exactly the bookmarks with that id go, the rest keep their order. */
  function DeleteBookmark(bookmarks: seq<Bookmark>, id: string): (r: seq<Bookmark>)
    ensures forall b :: b in r <==> b in bookmarks && b.id != id
    ensures forall b :: multiset(r)[b] == if b.id != id then multiset(bookmarks)[b] else 0
    ensures Subsequence(r, bookmarks)
  {
    var keep := NotId(id);
    FilterMultiplicity(bookmarks, keep);
    Filter(bookmarks, keep)
  }

  /** Adding a bookmark under an id no other bookmark has, then deleting that id, gives back
      the list. */
  lemma AddThenDelete(s: BookmarksState, now: nat, isoNow: string)
    requires s.draft.title != "" && s.draft.url != ""
    requires forall b :: b in s.bookmarks ==> b.id != NatToString(now)
    ensures DeleteBookmark(AddBookmark(s, now, isoNow).bookmarks, NatToString(now)) == s.bookmarks
  {
    var added := AddBookmark(s, now, isoNow).bookmarks;
    var last := added[|added| - 1];
    FilterConcat(s.bookmarks, [last], NotId(NatToString(now)));
    FilterAll(s.bookmarks, NotId(NatToString(now)));
    assert Filter([last], NotId(NatToString(now))) == [];
  }

  /** The fields an edit may carry; absent ones are left alone by the spread. */
  datatype BookmarkUpdate = BookmarkUpdate(id: Option<string>, title: Option<string>,
                                           url: Option<string>, folder: Option<string>,
                                           createdAt: Option<string>, icon: Option<string>)

  /** `{ ...bookmark, ...updates }`. */
  function Merge(b: Bookmark, u: BookmarkUpdate): (r: Bookmark)
    ensures u.id.Some? ==> r.id == u.id.value
    ensures u.id.None? ==> r.id == b.id
    ensures u.title.Some? ==> r.title == u.title.value
    ensures u.title.None? ==> r.title == b.title
    ensures u.url.Some? ==> r.url == u.url.value
    ensures u.url.None? ==> r.url == b.url
    ensures u.folder.Some? ==> r.folder == u.folder.value
    ensures u.folder.None? ==> r.folder == b.folder
    ensures u.createdAt.Some? ==> r.createdAt == u.createdAt.value
    ensures u.createdAt.None? ==> r.createdAt == b.createdAt
    ensures u.icon.Some? ==> r.icon == u.icon.value
    ensures u.icon.None? ==> r.icon == b.icon
  {
    Bookmark(u.id.GetOr(b.id), u.title.GetOr(b.title), u.url.GetOr(b.url), u.folder.GetOr(b.folder),
             u.createdAt.GetOr(b.createdAt), u.icon.GetOr(b.icon))
  }

  /** `editBookmark`: every bookmark with that id has the update merged into it; the others are
      untouched, and the list keeps its length and order. */
  function EditBookmark(bookmarks: seq<Bookmark>, id: string, u: BookmarkUpdate): (r: seq<Bookmark>)
    ensures |r| == |bookmarks|
    ensures forall i :: 0 <= i < |r| ==> r[i] == if bookmarks[i].id == id then Merge(bookmarks[i], u)
                                                 else bookmarks[i]
  {
    Map(bookmarks, (b: Bookmark) => if b.id == id then Merge(b, u) else b)
  }

  /** An edit with no fields changes nothing. */
  lemma EmptyEditIsIdentity(bookmarks: seq<Bookmark>, id: string)
    ensures EditBookmark(bookmarks, id, BookmarkUpdate(None, None, None, None, None, None)) == bookmarks
  {
    var r := EditBookmark(bookmarks, id, BookmarkUpdate(None, None, None, None, None, None));
    assert forall i :: 0 <= i < |r| ==> r[i] == bookmarks[i];
  }

  /** `addFolder`: a non-empty name not already listed is appended; anything else is
      ignored. The list never gains a duplicate. */
  function AddFolder(folders: seq<string>, name: string): (r: seq<string>)
    ensures name == "" || name in folders ==> r == folders
    ensures name != "" && name !in folders ==> r == folders + [name]
    ensures name != "" ==> name in r
    ensures NoDup(folders) ==> NoDup(r)
  {
    if name != "" && name !in folders then folders + [name] else folders
  }

  /** Adding a folder twice is adding it once. */
  lemma AddFolderIdempotent(folders: seq<string>, name: string)
    ensures AddFolder(AddFolder(folders, name), name) == AddFolder(folders, name)
  {
  }

  /** `deleteFolder`: `default` cannot be deleted. Any other folder leaves the list, and its
      bookmarks move to `default`; the other bookmarks are untouched. */
  function DeleteFolder(s: BookmarksState, name: string): (r: BookmarksState)
    ensures name == DEFAULT_FOLDER ==> r == s
    ensures name != DEFAULT_FOLDER ==>
              (forall f :: f in r.folders <==> f in s.folders && f != name)
              && |r.bookmarks| == |s.bookmarks|
              && (forall i :: 0 <= i < |r.bookmarks| ==>
                    r.bookmarks[i] == if s.bookmarks[i].folder == name then s.bookmarks[i].(folder := DEFAULT_FOLDER)
                                      else s.bookmarks[i])
              && r.draft == s.draft && r.showAddForm == s.showAddForm
    ensures NoDup(s.folders) ==> NoDup(r.folders)
  {
    if name != DEFAULT_FOLDER then
      var folders := Filter(s.folders, (f: string) => f != name);
      var bookmarks := Map(s.bookmarks, (b: Bookmark) => if b.folder == name then b.(folder := DEFAULT_FOLDER) else b);
      if NoDup(s.folders) then
        FilterNoDup(s.folders, (f: string) => f != name);
        s.(folders := folders, bookmarks := bookmarks)
      else
        s.(folders := folders, bookmarks := bookmarks)
    else s
  }

  /** After a folder is deleted no bookmark is filed in it, and every bookmark filed in a
      listed folder before is still filed in a listed folder after, provided `default` is
      listed. */
  lemma DeleteFolderLeavesNoOrphans(s: BookmarksState, name: string)
    requires name != DEFAULT_FOLDER && DEFAULT_FOLDER in s.folders
    requires forall b :: b in s.bookmarks ==> b.folder in s.folders
    ensures var r := DeleteFolder(s, name);
            (forall b :: b in r.bookmarks ==> b.folder != name)
            && (forall b :: b in r.bookmarks ==> b.folder in r.folders)
            && DEFAULT_FOLDER in r.folders
  {
    var r := DeleteFolder(s, name);
    forall b | b in r.bookmarks ensures b.folder != name && b.folder in r.folders {
      var i :| 0 <= i < |r.bookmarks| && r.bookmarks[i] == b;
      assert s.bookmarks[i] in s.bookmarks;
    }
  }

  /** The search and folder test of `filteredBookmarks`. */
  predicate Matches(b: Bookmark, searchTerm: string, activeFolder: string)
  {
    (IncludesIgnoringCase(b.title, searchTerm) || IncludesIgnoringCase(b.url, searchTerm))
    && (activeFolder == ALL || b.folder == activeFolder)
  }

  /** `filteredBookmarks`: the bookmarks whose title or url contains the search term ignoring
      case, in the active folder or in any folder under `all`, in list order. */
  function FilteredBookmarks(bookmarks: seq<Bookmark>, searchTerm: string, activeFolder: string): (r: seq<Bookmark>)
    ensures forall b :: b in r <==> b in bookmarks && Matches(b, searchTerm, activeFolder)
    ensures forall b :: multiset(r)[b] == if Matches(b, searchTerm, activeFolder) then multiset(bookmarks)[b] else 0
    ensures Subsequence(r, bookmarks)
  {
    var keep := (b: Bookmark) => Matches(b, searchTerm, activeFolder);
    FilterMultiplicity(bookmarks, keep);
    Filter(bookmarks, keep)
  }

  /** With no search term and the `all` folder, the whole list is shown. */
  lemma NoFilterShowsAll(bookmarks: seq<Bookmark>)
    ensures FilteredBookmarks(bookmarks, "", ALL) == bookmarks
  {
    forall b | b in bookmarks ensures Matches(b, "", ALL) {
      EmptyIncludedEverywhere(b.title);
    }
    FilterAll(bookmarks, (b: Bookmark) => Matches(b, "", ALL));
  }

  function InFolder(folder: string): Bookmark -> bool
  {
    (b: Bookmark) => b.folder == folder
  }

  /** `getBookmarksByFolder`: one group per listed folder, holding exactly that folder's
      bookmarks in list order. */
  function BookmarksByFolder(bookmarks: seq<Bookmark>, folders: seq<string>): (r: map<string, seq<Bookmark>>)
    ensures r.Keys == set f | f in folders
    ensures forall f :: f in r ==> forall b :: b in r[f] <==> b in bookmarks && b.folder == f
    ensures forall f :: f in r ==> forall b :: multiset(r[f])[b] == if b.folder == f then multiset(bookmarks)[b] else 0
    ensures forall f :: f in r ==> Subsequence(r[f], bookmarks)
  {
    forall f | f in folders
      ensures forall b :: multiset(Filter(bookmarks, InFolder(f)))[b] == if b.folder == f then multiset(bookmarks)[b] else 0
    {
      FilterMultiplicity(bookmarks, InFolder(f));
    }
    map f | f in folders :: Filter(bookmarks, InFolder(f))
  }

  /** The groups cover every bookmark filed in a listed folder, each exactly once. */
  lemma {:induction false} GroupsPartitionBookmarks(bookmarks: seq<Bookmark>, folders: seq<string>)
    requires forall b :: b in bookmarks ==> b.folder in folders
    ensures var g := BookmarksByFolder(bookmarks, folders);
            forall b :: b in bookmarks ==> b.folder in g && b in g[b.folder]
    ensures var g := BookmarksByFolder(bookmarks, folders);
            forall f, b :: f in g && b in g[f] ==> f == b.folder
  {
  }
}
