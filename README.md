# NoxX browser shell — a Dafny model of its state machines and stores

NoxX is a desktop browser built from an Electron main process and a React interface. This
project models its core in Dafny and proves properties of that model.

**The main process.** Its tab tables are modelled:

- `tabViews`, the per-tab render surfaces;
- the back- and forward-stacks;
- the detached-window records;
- the active and homepage tab ids;
- the site-permission table.

Its IPC handlers are modelled as methods of the class `MainProcess.Shell`: add, switch, close, navigate, back, forward, refresh, detach, reattach and the permission handlers.

**The interface.** These stores are modelled:

- its mirror of the tab list (`TabContext`), and the address-bar classifier that decides between a URL, `https://` + input, and a Google search;
- the global history store (`HistoryStore`) and the history panel (`HistoryView`);
- bookmarks and folders;
- the download list and its status changes;
- the password vault with its strength meter and generator;
- the content blocker's filter lists;
- the extension list;
- the permission manager's list and counts;
- the settings record;
- the keyboard-shortcut registry (class `Shortcuts.KeyboardShortcuts`);
- the developer tools' console and colour classifiers.

**Shared helpers.**

- `Seqs`: filter, map, subsequence, counting.
- `JsString`: `trim`, ASCII `toLowerCase`, `includes`, `startsWith`, decimal rendering.
- `Options`.
- `RelativeTime`: the "time ago" label that both the history and the downloads panel carry.

**How the model is built.**

- Engine and library calls become parameters: `canGoBack`, `canGoForward`, `getURL`, page titles, the URL parser, `encodeURIComponent`, `JSON.parse`, `toLocaleDateString`, and the random draws of the password generator.
- Clocks become integer parameters, and surfaces and windows are opaque objects.
- Code that updates state step by step keeps that form: the `Shell` and `KeyboardShortcuts` classes, the insertion of a history visit, the in-place sort behind `getMostVisitedSites`, the password score, the generator, the permission counts, the key-string builder and `reorderTabs`.
- The rest are functions.

**Behaviour kept as the code has it:**

- `update-tab-url` appends to the back-stack even when the same url is already on it (electron/main.cjs:447, 487).
- `detach-tab` in the main process accepts the homepage id and leaves the active id as it was; only the interface refuses the homepage and picks a new active tab (electron/main.cjs:674-796).
- `close-tab` deletes the surface but leaves the closed tab's back- and forward-stacks in place (electron/main.cjs:312-361).
- `update-tab-url`, `add-tab` and a forward step create a surface for any id they are given, a detached id included, and leave its detached record in place (electron/main.cjs:236-269, 454, 616); the model proves Disjoint kept only when the id is not detached, and `MainProcess.UpdateDetachedTabBreaksDisjoint` shows the id ending up on both sides.

## Model

| member | source | states |
|---|---|---|
| MainProcess.Shell.Startup | electron/main.cjs:204-215 | one homepage tab, active and homepage id alike, with no surface, back-stack `[noxx://homepage]`, empty forward-stack, no detached windows, no permissions |
| MainProcess.Shell.TabsMetadata | electron/main.cjs:23-52 | the homepage entry comes first exactly when the homepage id is set and has no surface; with no surfaces it is the only entry; the web tabs follow in key order; ids are unique and each is a surface or the homepage |
| MainProcess.ViewMetasIds | electron/main.cjs:24-28 | the web-tab entries carry exactly the surface ids, in key order |
| MainProcess.Without | electron/main.cjs:336-346 | deleting a key keeps the other keys in their order and adds none |
| MainProcess.Shell.AddTab | electron/main.cjs:236-269 | a fresh surface under the new id, shown and active; back-stack seeded with the url or Google; empty forward-stack; the other tables unchanged; no id is both attached and detached afterwards when the new id is not detached |
| MainProcess.Shell.SwitchTab | electron/main.cjs:295-310 | a web tab becomes active and shown; the homepage id becomes active with nothing shown; any other id changes nothing |
| MainProcess.Shell.CloseTab | electron/main.cjs:312-361 | closing the homepage never removes it, and with no surfaces it requests exit; a web id leaves `tabViews`; afterwards the first remaining web tab is active, or the homepage when none remain |
| MainProcess.Shell.UpdateTabUrl | electron/main.cjs:422-494 | always true; the forward-stack empties and the url is appended to the back-stack; the homepage url removes the surface, any other url leaves the tab with a shown surface; Disjoint is kept for the homepage url or an id that is not detached |
| MainProcess.Shell.PopBack | electron/main.cjs:515-537 | the back-stack loses its top, the forward-stack gains the given entry, nothing else in the stacks changes |
| MainProcess.Shell.GoBack | electron/main.cjs:496-568 | native back leaves every table unchanged; otherwise a back-stack longer than one shrinks by one, the forward-stack grows by the engine url (the homepage without a surface), and a homepage top drops the surface and activates the homepage; a stack of one returns false and changes nothing; no surface is added, so Disjoint is kept |
| MainProcess.Shell.GoForward | electron/main.cjs:570-657 | native forward changes nothing; otherwise a non-empty forward-stack is popped onto the back-stack, a homepage entry drops the surface and activates the homepage, any other entry leaves a surface; an empty forward-stack returns false and changes nothing; Disjoint is kept for an id that is not detached |
| MainProcess.BackThenForwardWithoutSurface | electron/main.cjs:496-657 | a shadow back then forward on a tab without a surface restores both stack lengths and the forward-stack |
| MainProcess.BackThenForwardWithSurface | electron/main.cjs:496-657 | the same for a tab whose surface reports the current url |
| MainProcess.Shell.RefreshPage | electron/main.cjs:659-672 | true exactly when the tab has a surface and its reload did not throw |
| MainProcess.Shell.DetachTab | electron/main.cjs:674-796 | the id leaves `tabViews` and gets a detached record with the url; the active tab is untouched; DetachTab preserves Disjoint (no id both attached and detached) |
| MainProcess.Shell.DetachedWindowClosed | electron/main.cjs:785-788 | closing the window deletes exactly that record |
| MainProcess.Shell.ReattachTab | electron/main.cjs:798-845 | without a record: false and no change; otherwise the id gets a surface, becomes active and loses its record |
| MainProcess.DetachThenReattach | electron/main.cjs:674-845 | a detach followed by a reattach of the same id leaves it attached, not detached, and active |
| MainProcess.UpdateDetachedTabBreaksDisjoint | electron/main.cjs:422-494 | a web-location update for a detached id gives it a surface while its detached record stays, so the id is both attached and detached |
| MainProcess.Shell.HandlePermissionRequest | electron/main.cjs:223-233 | granted exactly when the stored status for (site, permission) is `granted`; an unknown site gets an empty entry |
| MainProcess.Shell.GetSitePermissions | electron/main.cjs:398-400 | returns the table |
| MainProcess.Shell.SetSitePermission | electron/main.cjs:403-407 | creates the site entry if needed and stores the status; other sites unchanged |
| MainProcess.Shell.RemoveSitePermissions | electron/main.cjs:410-413 | deletes exactly that site |
| MainProcess.Shell.ClearAllPermissions | electron/main.cjs:416-419 | the table is empty |
| TabContext.FindTab | src/context/TabContext.jsx:401 | none exactly when no tab has the id; otherwise a tab of the list with that id |
| TabContext.AddTab | src/context/TabContext.jsx:172-181 | appends a "New Tab" entry with the url or Google and makes it active; earlier tabs unchanged |
| TabContext.SwitchTab | src/context/TabContext.jsx:197-198 | only the active id changes |
| TabContext.CloseTab | src/context/TabContext.jsx:214-255 | one tab: no change; otherwise every tab with the id is removed and each other tab keeps its multiplicity and order; the first remaining tab becomes active if the closed one was |
| TabContext.CloseKeepsActiveValid | src/context/TabContext.jsx:214-255 | closing keeps ids unique and the active id naming a tab |
| TabContext.AddThenClose | src/context/TabContext.jsx:172-255 | opening and closing a tab restores the list, and the first tab is then active |
| TabContext.UpdateTabTitle | src/context/TabContext.jsx:257-261 | only tabs with the id get the title |
| TabContext.SetTabUrl | src/context/TabContext.jsx:328-334 | only tabs with the id get the url and "Loading..."; all others unchanged |
| TabContext.UpdateTabUrl | src/context/TabContext.jsx:294-334 | the tab with the id gets the classified url of the address-bar text and "Loading..."; others unchanged |
| AddressBar.FinalUrl | src/context/TabContext.jsx:299-324 | trimmed text the URL parser accepts is kept (with `https://` unless it has a web scheme); else text with a dot that looks like a URL gets `https://`; else a Google search of the encoded text without `&safe=active`; the result always has a web scheme |
| JsString.TrimCutsOnlyBlanks | src/context/TabContext.jsx:299 | the trimmed input is the slice of the input between its leading and trailing white space |
| AddressBar.MatchesUrlPattern | src/context/TabContext.jsx:273-277 | whatever matches the URL pattern contains a dot |
| AddressBar.LooksLikeUrl | src/context/TabContext.jsx:273-277 | true exactly when the pattern matches and the text is longer than five characters: the dot test never decides |
| AddressBar.DotlessTextIsSearched | src/context/TabContext.jsx:310-324 | dotless text the parser rejects is always searched |
| AddressBar.ShortHostIsNotUrl | src/context/TabContext.jsx:274-278 | the length test matters: `ab.cd` matches the pattern but is not taken for a URL |
| AddressBar.ShortPathLooksLikeUrl | src/context/TabContext.jsx:274-278 | `ab.io/x` is taken for a URL |
| AddressBar.BareDomainGetsHttps | src/context/TabContext.jsx:310-315 | text that looks like a URL but that the parser rejects is loaded over `https://` |
| AddressBar.ResubmitUrlIsStable | src/context/TabContext.jsx:299-315 | submitting a produced URL again yields the same URL |
| TabContext.Move | src/context/TabContext.jsx:388-397 | a permutation in which the moved tab lands at the target and the others keep their relative order |
| TabContext.MoveBack | src/context/TabContext.jsx:388-397 | moving back restores the list |
| TabContext.ReorderTabs | src/context/TabContext.jsx:388-397 | for a non-empty list and any `oldIndex` below its length (negative ones count from the end and clamp at 0), the two splices compute `Move` of the normalised indices: a permutation with the taken tab at its new place |
| TabContext.SpliceStart | src/context/TabContext.jsx:392-393 | a negative start counts from the end; both ends clamp |
| TabContext.DetachTab | src/context/TabContext.jsx:399-443 | unknown id or homepage tab: no change; otherwise the tab is removed and the first remaining tab becomes active if it was; on IPC failure it is re-appended |
| TabContext.DetachFailureRestores | src/context/TabContext.jsx:399-443 | a failed detach gives a permutation of the list and keeps the active id |
| TabContext.DetachThenReattach | src/context/TabContext.jsx:399-443 | a detach then the reattach message puts a tab with that id back, active, at the end |
| TabContext.HandleTabsUpdated | src/context/TabContext.jsx:25-37 | an array replaces the list, a truthy active id replaces the active id, and the context is initialised |
| TabContext.HandleReattachTab | src/context/TabContext.jsx:39-55 | appends the reattached tab and makes it active |
| HistoryStore.FirstUrlIndex | src/context/HistoryContext.jsx:116 | -1 exactly when no entry has the url; otherwise the first such index |
| HistoryStore.FindUrlIndex | src/context/HistoryContext.jsx:116 | the front-to-back scan finds `FirstUrlIndex` |
| HistoryStore.RecordVisit | src/context/HistoryContext.jsx:98-133 | ignored urls change nothing; a present url's first entry is that entry with one more visit, last visit now, and the new title and favicon unless empty (id, timestamp and tab id kept); a new url is prepended with one visit and title defaulting to the url; unique urls stay unique |
| HistoryStore.VisitedUrlIndex | src/context/HistoryContext.jsx:98-133 | after a visit the url's first entry is the updated one |
| HistoryStore.RevisitCountsTwice | src/context/HistoryContext.jsx:98-133 | two visits in a row leave one entry with two more visits, and the list grows by at most one |
| HistoryStore.HistoryList.AddHistoryItem | src/context/HistoryContext.jsx:98-133 | the copy-and-assign update computes `RecordVisit` |
| HistoryStore.ListenerVisit | src/context/HistoryContext.jsx:21-31 | a visit through the mount-time event listener: ignored urls change nothing; any other url gets a new one-visit entry in front of the current list, since the listener's lookup runs on the first render's empty list |
| HistoryStore.ListenerRevisitDuplicates | src/context/HistoryContext.jsx:21-31 | two event visits to one url leave two one-visit entries for it at the front, so urls are no longer unique |
| HistoryStore.HistoryList.HandleAddHistoryEvent | src/context/HistoryContext.jsx:21-31 | the stored list becomes `ListenerVisit` of it |
| HistoryStore.RemoveItem | src/context/HistoryContext.jsx:135-137 | exactly the entries with the id go; every other entry keeps its multiplicity and order |
| HistoryStore.RemoveItems | src/context/HistoryContext.jsx:139-141 | exactly the entries with a listed id go; every other entry keeps its multiplicity and order |
| HistoryStore.HistoryList.RemoveHistoryItem | src/context/HistoryContext.jsx:135-137 | the stored list becomes `RemoveItem` of it |
| HistoryStore.HistoryList.RemoveHistoryItems | src/context/HistoryContext.jsx:139-141 | the stored list becomes `RemoveItems` of it |
| HistoryStore.HistoryList.ClearHistory | src/context/HistoryContext.jsx:143-145 | the list is empty |
| HistoryStore.ByDateRange | src/context/HistoryContext.jsx:164-169 | the entries inside the range, both ends included, each as often as in the history, in order |
| HistoryStore.ClearByDate | src/context/HistoryContext.jsx:147-152 | the entries outside the range, each as often as in the history, in order |
| HistoryStore.ClearByDateIsComplement | src/context/HistoryContext.jsx:147-169 | the two are together the whole history |
| HistoryStore.HistoryList.ClearHistoryByDate | src/context/HistoryContext.jsx:147-152 | the stored list becomes `ClearByDate` of it |
| HistoryStore.ByTab | src/context/HistoryContext.jsx:171-173 | exactly the entries of that tab, each as often as in the history, in order |
| HistoryStore.Search | src/context/HistoryContext.jsx:154-162 | empty query: everything; otherwise the subsequence whose lower-cased title or url contains the lower-cased query, each match as often as in the history |
| HistoryStore.SortByVisitCount | src/context/HistoryContext.jsx:176 | the in-place sort leaves a permutation in non-increasing visit order |
| HistoryStore.HistoryList.GetMostVisitedSites | src/context/HistoryContext.jsx:175-179 | the stored list is reordered by visits (a permutation) and its first `limit` entries are returned |
| HistoryStore.SliceEnd | src/context/HistoryContext.jsx:178 | `slice(0, limit)` counts a negative limit from the end and clamps |
| HistoryStore.HistoryList.ImportHistory | src/context/HistoryContext.jsx:245-257 | true exactly for parsed data with a `history` array, which is appended; otherwise false and no change |
| RelativeTime.TimeAgo | src/components/content/History.jsx:28-38 | under 60 s "just now", then whole minutes, hours, days (each the floor: count × unit ≤ elapsed < (count + 1) × unit), then the date at 30 days |
| RelativeTime.TimeAgoMonotone | src/components/content/Downloads.jsx:21-31 | an older entry never gets a finer unit |
| RelativeTime.GetTimeAgo | src/components/content/History.jsx:28-38 | the label for each elapsed-time band: `Just now` under a minute, the floor count followed by `m ago`, `h ago` or `d ago`, and the locale date from thirty days on |
| RelativeTime.RenderUnambiguous | src/components/content/History.jsx:33-37 | two relative labels have the same text exactly when they have the same unit and count |
| JsString.NatToStringInjective | src/components/content/History.jsx:34-36 | the decimal text of a count determines the count |
| RelativeTime.SameLabelSameAgo | src/components/content/Downloads.jsx:21-31 | within thirty days two entries show the same label exactly when `TimeAgo` gives them the same unit and floor count |
| HistoryView.GetDateCategory | src/components/content/History.jsx:40-50 | whole days 0 today, 1 yesterday, under 7 this week, under 30 this month, else older |
| HistoryView.ToggleSelection | src/components/content/History.jsx:74-80 | flips the id's membership, keeps every other id, never duplicates |
| HistoryView.ToggleTwice | src/components/content/History.jsx:74-80 | toggling twice restores membership |
| HistoryView.FilteredHistory | src/components/content/History.jsx:92-98 | the subsequence of the search results passing the tab, date and view-mode tests together, each as often as in the results; with no filter, the whole history |
| HistoryView.SelectAll | src/components/content/History.jsx:82-85 | exactly the filtered ids |
| HistoryView.DeleteSelectedItems | src/components/content/History.jsx:56-59 | the selected entries go, every other entry keeps its multiplicity and order, and the selection empties |
| HistoryView.ClearAllHistory | src/components/content/History.jsx:61-64 | history and selection empty |
| HistoryView.SelectAllThenDelete | src/components/content/History.jsx:56-85 | select-all then delete removes exactly the shown entries |
| Bookmarks.Initial | src/components/content/Bookmarks.jsx:7-12 | no bookmarks; the folders are distinct and include `default` |
| Bookmarks.NormalizeUrl | src/components/content/Bookmarks.jsx:55 | input starting with `http` is kept, else `https://` is prepended; the result starts with `http` |
| Bookmarks.NormalizeUrlIdempotent | src/components/content/Bookmarks.jsx:55 | normalising twice is normalising once |
| Bookmarks.AddBookmark | src/components/content/Bookmarks.jsx:50-64 | no change unless title and url are set; then one bookmark is appended, the draft resets and the form closes |
| Bookmarks.AddCurrentPage | src/components/content/Bookmarks.jsx:66-78 | needs an active tab with a url; files it into `default`, title falling back to the url |
| Bookmarks.DeleteBookmark | src/components/content/Bookmarks.jsx:80-82 | exactly the bookmarks with the id go; every other bookmark keeps its multiplicity and order |
| Bookmarks.AddThenDelete | src/components/content/Bookmarks.jsx:50-82 | deleting the bookmark just added restores the list |
| Bookmarks.Merge | src/components/content/Bookmarks.jsx:86 | each field given in the update wins (id, title, url, folder, creation time and icon alike); the others are kept |
| Bookmarks.EditBookmark | src/components/content/Bookmarks.jsx:84-88 | only the bookmarks with the id are merged with the update |
| Bookmarks.EmptyEditIsIdentity | src/components/content/Bookmarks.jsx:84-88 | an empty update changes nothing |
| Bookmarks.AddFolder | src/components/content/Bookmarks.jsx:90-94 | empty and existing names are ignored; the list never gains a duplicate |
| Bookmarks.AddFolderIdempotent | src/components/content/Bookmarks.jsx:90-94 | adding twice is adding once |
| Bookmarks.DeleteFolder | src/components/content/Bookmarks.jsx:96-103 | `default` is kept; any other folder goes and its bookmarks move to `default` |
| Bookmarks.DeleteFolderLeavesNoOrphans | src/components/content/Bookmarks.jsx:96-103 | afterwards every bookmark's folder exists and none refers to the deleted one |
| Bookmarks.FilteredBookmarks | src/components/content/Bookmarks.jsx:110-115 | the bookmarks whose title or url contains the term, ignoring case, in the active folder or any under `all`, each as often as in the list, in order |
| Bookmarks.NoFilterShowsAll | src/components/content/Bookmarks.jsx:110-115 | no term and `all` show everything |
| Bookmarks.BookmarksByFolder | src/components/content/Bookmarks.jsx:117-123 | each listed folder maps to exactly its bookmarks, each as often as in the list, in list order |
| Bookmarks.GroupsPartitionBookmarks | src/components/content/Bookmarks.jsx:117-123 | the groups cover every bookmark and are disjoint |
| Downloads.SetStatus | src/components/content/Downloads.jsx:53-63 | only the matching id gets the status |
| Downloads.PauseDownload | src/components/content/Downloads.jsx:53-57 | each entry with the id becomes itself with status `paused`; every other entry is unchanged |
| Downloads.ResumeDownload | src/components/content/Downloads.jsx:59-63 | each entry with the id becomes itself with status `downloading`; every other entry is unchanged |
| Downloads.PauseThenResume | src/components/content/Downloads.jsx:53-63 | pausing then resuming a running download restores the list |
| Downloads.RetryDownload | src/components/content/Downloads.jsx:69-73 | only the matching id restarts: downloading, progress and downloaded size 0 |
| Downloads.CancelDownload | src/components/content/Downloads.jsx:65-67 | exactly the entries with the id go; every other entry keeps its multiplicity and order |
| Downloads.ClearCompleted | src/components/content/Downloads.jsx:91-93 | exactly the completed items go; every other entry keeps its multiplicity and order |
| Downloads.ClearFailed | src/components/content/Downloads.jsx:95-97 | exactly the failed items go; every other entry keeps its multiplicity and order |
| Downloads.GetStats | src/components/content/Downloads.jsx:130-140 | total is the length, the status counts add up to at most it, and the sizes are the sums |
| Downloads.StatusCountsBounded | src/components/content/Downloads.jsx:130-140 | completed + downloading + failed is at most the length |
| Downloads.DownloadedWithinTotal | src/components/content/Downloads.jsx:130-140 | the downloaded sum is at most the size sum when each item's is |
| Downloads.ClearCompletedStats | src/components/content/Downloads.jsx:91-140 | after clearing completed items none count as completed and the total drops by the completed count |
| Downloads.LeTotal | src/components/content/Downloads.jsx:119-128 | the comparator order is total |
| Downloads.LeTrans | src/components/content/Downloads.jsx:119-128 | the comparator order is transitive |
| Downloads.Sort | src/components/content/Downloads.jsx:119-128 | sorted by name, size descending or date descending, and a permutation (an insertion sort standing for the comparator sort) |
| Downloads.FilteredDownloads | src/components/content/Downloads.jsx:111-128 | exactly the items matching search, status and show-completed, sorted by the key, as a permutation of the filtered items |
| PasswordManager.Criteria | src/components/security/PasswordManager.jsx:96-102 | at most five criteria hold |
| PasswordManager.TestClass | src/components/security/PasswordManager.jsx:99-102 | the scan finds a character of the class exactly when there is one |
| PasswordManager.PasswordScore | src/components/security/PasswordManager.jsx:96-102 | the step-by-step score equals the number of satisfied criteria, at most 5 |
| PasswordManager.StrengthOf | src/components/security/PasswordManager.jsx:104-107 | score up to 2 Weak, 3 Fair, 4 Good, 5 Strong |
| PasswordManager.StrengthMonotone | src/components/security/PasswordManager.jsx:104-107 | a higher score never gives a weaker label |
| PasswordManager.GetPasswordStrength | src/components/security/PasswordManager.jsx:96-107 | Strong exactly when long enough with all four classes |
| PasswordManager.ExtendingNeverWeakens | src/components/security/PasswordManager.jsx:96-102 | appending characters never lowers the score |
| PasswordManager.GenerateStrongPassword | src/components/security/PasswordManager.jsx:87-94 | exactly 16 characters, each from the 70-character set |
| PasswordManager.WithPassword | src/components/security/PasswordManager.jsx:93 | the draft gets the password, other fields kept |
| PasswordManager.AddPassword | src/components/security/PasswordManager.jsx:53-65 | no change unless site, username and password are set; then one entry is appended and the draft resets |
| PasswordManager.DeletePassword | src/components/security/PasswordManager.jsx:67-69 | exactly the entries with the id go; every other entry keeps its multiplicity and order |
| PasswordManager.AddThenDelete | src/components/security/PasswordManager.jsx:53-69 | deleting the entry just added restores the list |
| PasswordManager.FilteredPasswords | src/components/security/PasswordManager.jsx:81-85 | entries whose site, username or notes contain the term, ignoring case, each as often as in the vault, in order |
| PasswordManager.EmptySearchShowsAll | src/components/security/PasswordManager.jsx:81-85 | an empty term shows every entry |
| ContentBlocker.ToggleFilterList | src/components/privacy/ContentBlocker.jsx:108-112 | only the matching list flips `enabled` |
| ContentBlocker.ToggleTwice | src/components/privacy/ContentBlocker.jsx:108-112 | toggling twice is the identity |
| ContentBlocker.UpdateFilterList | src/components/privacy/ContentBlocker.jsx:126-131 | only the matching list's refresh time changes |
| ContentBlocker.AddCustomFilter | src/components/privacy/ContentBlocker.jsx:114-120 | a non-blank input is appended trimmed, the input clears and the form hides; blank input changes nothing |
| ContentBlocker.RemoveCustomFilter | src/components/privacy/ContentBlocker.jsx:122-124 | exactly the element at the index goes, the rest keep their order |
| ContentBlocker.AddThenRemove | src/components/privacy/ContentBlocker.jsx:114-124 | removing the rule just added restores the list |
| ContentBlocker.ComputeStats | src/components/privacy/ContentBlocker.jsx:97-105 | advertising count, analytics count, and all requests; the first two add up to at most the third |
| ContentBlocker.AdsAndTrackersBounded | src/components/privacy/ContentBlocker.jsx:97-105 | no request is in both counted categories |
| ContentBlocker.Classify | src/components/privacy/ContentBlocker.jsx:133-151 | each known category name maps to its own case; anything else to the fallback |
| ContentBlocker.CategoryMappings | src/components/privacy/ContentBlocker.jsx:133-151 | icons and colours are total, use one fallback, and tell categories apart |
| ExtensionsPanel.Toggled | src/components/content/ExtensionsPanel.jsx:22 | `enabled` becomes `disabled`, anything else `enabled` |
| ExtensionsPanel.ToggleExtension | src/components/content/ExtensionsPanel.jsx:20-24 | only the matching id toggles |
| ExtensionsPanel.ToggleTwice | src/components/content/ExtensionsPanel.jsx:20-24 | toggling twice restores lists whose statuses are enabled or disabled |
| ExtensionsPanel.RemoveExtension | src/components/content/ExtensionsPanel.jsx:26-28 | exactly the extensions with the id go; every other one keeps its multiplicity and order |
| ExtensionsPanel.UpdateExtension | src/components/content/ExtensionsPanel.jsx:30-34 | only the matching id's update time changes |
| ExtensionsPanel.EnableAll | src/components/content/ExtensionsPanel.jsx:112 | every status becomes `enabled`, length kept |
| ExtensionsPanel.EnableAllIdempotent | src/components/content/ExtensionsPanel.jsx:112 | enabling all twice is once, and nothing stays disabled |
| ExtensionsPanel.FilteredExtensions | src/components/content/ExtensionsPanel.jsx:71-78 | name or description contains the term, the status matches, and system items only when shown; each as often as in the list, in order |
| ExtensionsPanel.NamelessNeverListed | src/components/content/ExtensionsPanel.jsx:71-78 | an extension with neither name nor description never shows |
| ExtensionsPanel.GetStats | src/components/content/ExtensionsPanel.jsx:80-85 | total, enabled, disabled and system counts; enabled + disabled at most total |
| ExtensionsPanel.EnabledDisabledBounded | src/components/content/ExtensionsPanel.jsx:80-85 | enabled + disabled is at most the length |
| ExtensionsPanel.EnableAllStats | src/components/content/ExtensionsPanel.jsx:80-112 | after Enable All everything counts as enabled and nothing as disabled |
| ExtensionsPanel.PermissionDescription | src/components/content/ExtensionsPanel.jsx:58-68 | an own key gives its description; an unknown name that `Object.prototype` has (`constructor`, `toString`, `__proto__`, ...) gives that inherited member; any other name gives itself; the result is text exactly when the name is not inherited, and non-empty text for a non-empty name |
| PermissionManager.ToPerms | src/components/privacy/PermissionManager.jsx:21 | one (type, status) entry per key, in key order |
| PermissionManager.ToList | src/components/privacy/PermissionManager.jsx:19-22 | one entry per site, each with exactly that site's (type, status) pairs |
| PermissionManager.DistinctKeysCount | src/components/privacy/PermissionManager.jsx:19-22 | an enumeration of a map's keys has the map's size |
| PermissionManager.GetStats | src/components/privacy/PermissionManager.jsx:113-122 | the nested counting loops compute `StatsOf`: total counts every permission, each status its own |
| PermissionManager.StatsAddUp | src/components/privacy/PermissionManager.jsx:113-122 | with only granted, denied and prompt statuses, their counts add up to the total |
| PermissionManager.TallySite | src/components/privacy/PermissionManager.jsx:116-119 | one site's permissions add their per-status counts to the running record, and one each to the total |
| PermissionManager.CountStatusSplit | src/components/privacy/PermissionManager.jsx:113-122 | per site, the three counts add up to its permission count |
| PermissionManager.FilteredPermissions | src/components/privacy/PermissionManager.jsx:106-111 | sites whose name contains the term and, unless `all`, with some permission of that status; each as often as in the list, in order |
| PermissionManager.EmptySiteOnlyUnderAll | src/components/privacy/PermissionManager.jsx:106-111 | a site without permissions shows only under `all` |
| PermissionManager.FindType | src/components/privacy/PermissionManager.jsx:39-47 | none exactly when no type has the key |
| PermissionManager.LabelIn | src/components/privacy/PermissionManager.jsx:44-47 | the matching type's label, or the raw key |
| PermissionManager.IconIn | src/components/privacy/PermissionManager.jsx:39-42 | the matching type's icon, or the default icon |
| PermissionManager.ClearAllPermissions | src/components/privacy/PermissionManager.jsx:89-92 | the list has zero counts and no filter shows anything |
| Settings.Initial | src/context/SettingsContext.jsx:14-61 | the defaults, not yet loaded |
| Settings.Spread | src/context/SettingsContext.jsx:71 | an object spreads its fields, a primitive nothing |
| Settings.Merge | src/context/SettingsContext.jsx:88-90 | update keys take the update values, other keys are kept, none added |
| Settings.MergeIdempotent | src/context/SettingsContext.jsx:88-90 | merging the same updates twice is once |
| Settings.UpdateSetting | src/context/SettingsContext.jsx:84-86 | the key holds the value, every other key unchanged |
| Settings.UpdateMultipleSettings | src/context/SettingsContext.jsx:88-90 | right-biased merge |
| Settings.UpdateOneIsUpdateMany | src/context/SettingsContext.jsx:84-90 | updating one key is merging a one-key record |
| Settings.ResetSettings | src/context/SettingsContext.jsx:92-126 | exactly the defaults, extra keys dropped |
| Settings.ResetForgetsUpdates | src/context/SettingsContext.jsx:88-126 | a reset undoes earlier updates |
| Settings.ImportSettings | src/context/SettingsContext.jsx:139-148 | a parsed value is spread over the settings and true is returned; a parse failure returns false and changes nothing |
| Settings.ImportIdempotent | src/context/SettingsContext.jsx:139-148 | importing the same text twice is once |
| Settings.Load | src/context/SettingsContext.jsx:65-76 | a saved text that parses is merged over the current settings; otherwise no change; either way loaded |
| Settings.LoadOverDefaults | src/context/SettingsContext.jsx:65-76 | loading keeps unnamed defaults and takes every saved value |
| Settings.SaveEffect | src/context/SettingsContext.jsx:78-82 | the record is written exactly once loading has completed |
| Settings.NoSaveBeforeLoad | src/context/SettingsContext.jsx:78-82 | nothing is written from the initial state |
| Shortcuts.GetKeyString | src/utils/shortcuts.js:32-43 | Ctrl (for Ctrl or Meta), Alt, Shift in that order, then the lower-cased key, joined by `+`; the last segment has no upper-case letter |
| Shortcuts.ModifiersSpellPrefix | src/utils/shortcuts.js:34-38 | the collected modifiers spell the prefix |
| Shortcuts.KeyStringShape | src/utils/shortcuts.js:40-42 | joining the modifiers and the lower-cased key gives prefix + key |
| Shortcuts.KeyboardShortcuts.constructor | src/utils/shortcuts.js:3-7 | empty and enabled |
| Shortcuts.KeyboardShortcuts.HandleKeyDown | src/utils/shortcuts.js:13-29 | nothing when disabled or typing in INPUT, TEXTAREA or an editable element; otherwise the callback bound to the key string fires exactly when there is one |
| Shortcuts.KeyboardShortcuts.Register | src/utils/shortcuts.js:45-47 | sets the binding, replacing any earlier one in its place; others untouched |
| Shortcuts.KeyboardShortcuts.Unregister | src/utils/shortcuts.js:49-51 | deletes the binding; others untouched and in order |
| Shortcuts.KeyboardShortcuts.Enable | src/utils/shortcuts.js:53-55 | enabled |
| Shortcuts.KeyboardShortcuts.Disable | src/utils/shortcuts.js:57-59 | disabled |
| Shortcuts.KeyboardShortcuts.GetShortcuts | src/utils/shortcuts.js:61-66 | one (keys, description) row per binding, in insertion order |
| Shortcuts.KeyboardShortcuts.RegisterDefaults | src/utils/shortcuts.js:124-133 | the bindings and the key order are those of registering the default table row by row; every default key is bound, and nothing else is added |
| Shortcuts.KeyboardShortcuts.RegisterAll | src/utils/shortcuts.js:124-133 | after registering a table row by row, the bindings are `BindAll` and the order `OrderAll` of the old ones; each key is bound to the dispatch of the last row naming it; keys no row names keep their binding; only the rows' keys are added |
| Shortcuts.BindAllKeys | src/utils/shortcuts.js:124-133 | registering a table binds exactly the keys bound before and the keys of its rows |
| Shortcuts.BindAllLastRowWins | src/utils/shortcuts.js:124-133 | a key is bound to the dispatch callback of the last row that names it |
| Shortcuts.BindAllOthers | src/utils/shortcuts.js:124-133 | a key no row names keeps the binding it had |
| Shortcuts.OrderAllExtends | src/utils/shortcuts.js:45-47 | the order after registering a table starts with the old order and holds exactly the old keys and the rows' keys |
| Shortcuts.UpperKeyNeverFires | src/utils/shortcuts.js:41 | a key string with an upper-case last segment is never produced |
| Shortcuts.UnmatchableDefaults | src/utils/shortcuts.js:70-119 | eleven defaults (`Ctrl+Tab`, `F5`, `F12`, `Escape`, `Alt+ArrowLeft`, `Ctrl+Plus`, …) can never fire |
| Shortcuts.CtrlTFires | src/utils/shortcuts.js:70-71 | `Ctrl+t` is produced by Ctrl with `t` or `T` |
| DeveloperTools.ConsoleSubmit | src/components/developer/DeveloperTools.jsx:73-98 | blank input: no change, nothing scheduled; otherwise appends `> ` + input, clears the input and schedules the `// Result:` echo |
| DeveloperTools.DeliverResponse | src/components/developer/DeveloperTools.jsx:87-96 | the echo is appended to the log as it then is |
| DeveloperTools.SubmitThenRespond | src/components/developer/DeveloperTools.jsx:73-98 | a command and its echo become the last two entries, earlier ones kept |
| DeveloperTools.SubmitTwiceIsSubmitOnce | src/components/developer/DeveloperTools.jsx:73-85 | a second submit without typing changes nothing |
| DeveloperTools.ClearConsole | src/components/developer/DeveloperTools.jsx:100-102 | the log is empty |
| DeveloperTools.ClearBeforeResponse | src/components/developer/DeveloperTools.jsx:87-102 | an echo pending at a clear lands in the empty log |
| DeveloperTools.ClearNetwork | src/components/developer/DeveloperTools.jsx:251 | the request list is empty |
| DeveloperTools.StatusColor | src/components/developer/DeveloperTools.jsx:104-109 | 200–299 green, 300–399 yellow, 400–499 orange, anything else red, each an if-and-only-if |
| DeveloperTools.StatusColorByClass | src/components/developer/DeveloperTools.jsx:104-109 | the colour depends only on the hundreds digit |
| DeveloperTools.MethodColor | src/components/developer/DeveloperTools.jsx:111-119 | GET, POST, PUT and DELETE get their own colours, anything else gray |
| DeveloperTools.MethodColorsDistinguishKnownMethods | src/components/developer/DeveloperTools.jsx:111-119 | two methods share a colour exactly when equal or both unknown |

## Findings

| source | as written | input that shows it | evidently intended | confidence | as-written member | corrected member |
|---|---|---|---|---|---|---|
| src/context/HistoryContext.jsx:21-31 | the `addHistoryItem` event listener is installed once with empty dependencies, so it calls the first render's `addHistoryItem`, whose `history` is `[]`; `findIndex` always gives -1 and every visit prepends a new entry | two `addHistoryItem` events for `https://a.com`: two entries for that url, each with `visitCount` 1 | a revisit increments the existing entry's count (lines 118-128) | high, not executed | HistoryStore.ListenerRevisitDuplicates | HistoryStore.RevisitCountsTwice |

## Left out

- Electron windows, views and their listeners (`setBounds`, `loadURL`, `show`, `webContents` events) are foreign calls: surfaces and windows are opaque objects, and engine answers are parameters.
- The CPU monitor, `get-system-info`, `get-cursor-position`, the dev-server polling and the exit timers are timers, floats and OS queries.
- `electron/preload.cjs` is IPC bridging only; the handlers are modelled directly.
- `isValidUrl`, `encodeURIComponent` and the permission handler's `new URL(...).hostname` are library URL parsing. They are parameters, and the handler receives the site directly.
- `getDomainStats`, `getHistoryStats` and `getRecentlyVisitedSites` are left out: they need URL parsing and calendar dates.
- Local-storage reads and writes, `JSON.parse`/`stringify` and the CSV and JSON exports are I/O. The parser is a parameter, and the save effect returns the record it would write.
- `formatFileSize`, the blocker's `dataSaved`, the extension size total and the download speed and time fields are floating point, so they are left out.
- `Math.random` in the generator becomes a parameter: the sequence of draws.
- The development-mode mock of the IPC bridge in the tab context, and its fallback timeout, are left out.
- The interface-only components are not modelled: theme, badges, panels, tab bar drag and drop, the navbar, search results and the performance display.
- Races between the interface mirror and the main process are out of scope; each handler is atomic.
- Shortcuts.KeyboardShortcuts.constructor: attaching the `keydown` listener to the document is not modelled; events are passed to `HandleKeyDown`.
- DeveloperTools.ConsoleSubmit: the 100 ms timer is not modelled. The scheduled echo is returned, and `DeliverResponse` appends it whenever the caller chooses. The echo's id is `now + 1` with `now` read at submission, while the source reads the clock again when the timer fires, so the real id can be larger.
- DeveloperTools.StatusColor: the status is an integer. A fractional status, which JavaScript would also compare, is not modelled.
- TabContext.ReorderTabs: requires a non-empty list and `oldIndex < |tabs|`. Only for `oldIndex >= |tabs|` or an empty list does the first `splice` remove nothing, so the second inserts `undefined`, which a list of tabs cannot hold. A negative `oldIndex` (the `-1` of a failed `findIndex` included) is modelled: it counts from the end, and below `-|tabs|` it clamps to 0, so `tabs[0]` is taken out and put back at `newIndex`.
- MainProcess.Shell.UpdateTabUrl: Disjoint (no id both attached and detached) is promised only for the homepage url or an id that is not detached. For a detached id and a web url the source creates a surface and keeps the detached record (electron/main.cjs:454), which `MainProcess.UpdateDetachedTabBreaksDisjoint` exhibits; Disjoint is therefore not a class invariant.
- MainProcess.Shell.AddTab: Disjoint is promised only when the new id is not detached, for the same reason.
- MainProcess.Shell.GoForward: Disjoint is promised only when the id is not detached, for the same reason (electron/main.cjs:616).
- HistoryStore.RecordVisit / HistoryStore.HistoryList.AddHistoryItem: the one-entry-per-url counting holds for a direct call of `addHistoryItem` with the current list. The visits the main process reports (src/context/TabContext.jsx:65) reach the store only through the listener registered on mount (src/context/HistoryContext.jsx:21-31), whose lookup sees the first render's empty list; that path is `ListenerVisit`, where a revisit prepends a duplicate with one visit.
- ExtensionsPanel.PermissionDescription: inherited `Object.prototype` members are named, not modelled as values; what React does when given a function or the prototype object as a child is not modelled.
- PasswordManager.Criteria: the eight-character test counts code points, while the source's `length` counts UTF-16 units, so a character outside the Basic Multilingual Plane counts twice there.
- HistoryStore.HistoryList.GetMostVisitedSites: states sorted-and-permutation but not the stability of `Array.prototype.sort` among equal visit counts.
- Downloads.FilteredDownloads: states sorted-and-permutation but not stability among equal keys. `localeCompare` is modelled as code-point order.
- JsString.ToLower: lower-cases ASCII letters only. Lengths count code points, not UTF-16 units.
- PermissionManager.GetStats: a status other than granted, denied or prompt only counts towards the total. A permission whose status is itself `total` increments the total twice, as `stats[perm.status]++` does.
- Settings.Spread: arrays and strings spread one property per index, as JavaScript does. The settings record is a map, so its key order is not modelled.
- Numeric tab ids in the interface and the string ids of the main process are both modelled as values compared for equality. The numeric-to-string conversion across IPC is not modelled.
