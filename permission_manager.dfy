/** The site-permissions panel: the main process's table (site to permission type to status)
    turned into a list, the counts above it, the filtered list and the labels of the known
    permission types. A JavaScript object enumerates its keys in insertion order, which a
    Dafny map does not keep, so the order of sites and of each site's permissions is an
    input. */
module PermissionManager {
  import opened Options
  import opened Seqs
  import opened JsString

  const ALL: string := "all"

  datatype Perm = Perm(kind: string, status: string)
  datatype SitePerms = SitePerms(site: string, permissions: seq<Perm>)

  /** `order` lists the keys of `m`, each once. */
  ghost predicate Enumerates<V>(order: seq<string>, m: map<string, V>)
  {
    NoDup(order) && (forall k :: k in order <==> k in m)
  }

  /** One site's `Object.entries(perms).map(([type, status]) => ({ type, status }))`. */
  function ToPerms(perms: map<string, string>, order: seq<string>): (r: seq<Perm>)
    requires forall k :: k in order ==> k in perms
    ensures |r| == |order|
    ensures forall j :: 0 <= j < |r| ==> r[j] == Perm(order[j], perms[order[j]])
  {
    seq(|order|, j requires 0 <= j < |order| => Perm(order[j], perms[order[j]]))
  }

  /** The map-to-list conversion: one entry per site in key order, each carrying exactly that
      site's (type, status) pairs. */
  function ToList(table: map<string, map<string, string>>, siteOrder: seq<string>,
                  typeOrder: string -> seq<string>): (r: seq<SitePerms>)
    requires Enumerates(siteOrder, table)
    requires forall s :: s in table ==> Enumerates(typeOrder(s), table[s])
    ensures |r| == |siteOrder|
    ensures forall i :: 0 <= i < |r| ==> r[i].site == siteOrder[i]
    ensures forall i, kind, status :: 0 <= i < |r| ==>
              (Perm(kind, status) in r[i].permissions <==>
                 kind in table[siteOrder[i]] && table[siteOrder[i]][kind] == status)
    ensures forall i :: 0 <= i < |r| ==> |r[i].permissions| == |table[siteOrder[i]]|
  {
    var r := seq(|siteOrder|, i requires 0 <= i < |siteOrder| =>
                   var s := siteOrder[i];
                   assert s in siteOrder && Enumerates(typeOrder(s), table[s]);
                   SitePerms(s, ToPerms(table[s], typeOrder(s))));
    forall i | 0 <= i < |r| ensures |r[i].permissions| == |table[siteOrder[i]]| {
      var s := siteOrder[i];
      assert s in siteOrder;
      DistinctKeysCount(typeOrder(s), table[s]);
    }
    forall i, kind, status | 0 <= i < |r|
      ensures Perm(kind, status) in r[i].permissions <==> kind in table[siteOrder[i]] && table[siteOrder[i]][kind] == status
    {
      var s := siteOrder[i];
      assert s in siteOrder;
      var ps := r[i].permissions;
      assert Enumerates(typeOrder(s), table[s]);
      if kind in table[s] && table[s][kind] == status {
        var j :| 0 <= j < |typeOrder(s)| && typeOrder(s)[j] == kind;
        assert ps[j] == Perm(kind, status);
      }
    }
    r
  }

  /** A duplicate-free list of a map's keys is as long as the map. */
  lemma {:induction false} DistinctKeysCount<V>(order: seq<string>, m: map<string, V>)
    requires Enumerates(order, m)
    ensures |order| == |m|
    decreases |order|
  {
    if order == [] {
      assert m.Keys == {};
    } else {
      var k := order[0];
      var rest := m - {k};
      EnumeratesTail(order, m);
      DistinctKeysCount(order[1..], rest);
      assert m.Keys == rest.Keys + {k};
    }
  }

  /** Without its first key, the rest of the list enumerates the rest of the map. */
  lemma EnumeratesTail<V>(order: seq<string>, m: map<string, V>)
    requires Enumerates(order, m) && order != []
    ensures Enumerates(order[1..], m - {order[0]})
  {
    var tail := order[1..];
    assert NoDup(tail) by {
      forall i, j | 0 <= i < j < |tail| ensures tail[i] != tail[j] {
        assert tail[i] == order[i + 1] && tail[j] == order[j + 1];
      }
    }
    forall x ensures x in tail <==> x in m - {order[0]} {
      if x in tail {
        var j :| 0 <= j < |tail| && tail[j] == x;
        assert order[j + 1] == x;
      }
      if x in m && x != order[0] {
        var j :| 0 <= j < |order| && order[j] == x;
        assert tail[j - 1] == x;
      }
    }
  }

  // ---------------------------------------------------------------- statistics

  /** Permissions of `perms` with that status. */
  function CountStatus(perms: seq<Perm>, status: string): nat
  {
    if perms == [] then 0
    else CountStatus(perms[..|perms| - 1], status) + (if perms[|perms| - 1].status == status then 1 else 0)
  }

  /** Permissions with that status over all sites. */
  function SiteCount(sites: seq<SitePerms>, status: string): nat
  {
    if sites == [] then 0
    else SiteCount(sites[..|sites| - 1], status) + CountStatus(sites[|sites| - 1].permissions, status)
  }

  /** Permissions over all sites. */
  function PermCount(sites: seq<SitePerms>): nat
  {
    if sites == [] then 0 else PermCount(sites[..|sites| - 1]) + |sites[|sites| - 1].permissions|
  }

  datatype Stats = Stats(granted: nat, denied: nat, prompt: nat, total: nat)

  /** What the counting loops compute: each status its count, and `total` one per permission
      plus one for every permission whose status is itself the text `total`, because the
      status names the counter that is incremented first. */
  function StatsOf(sites: seq<SitePerms>): Stats
  {
    Stats(SiteCount(sites, "granted"), SiteCount(sites, "denied"), SiteCount(sites, "prompt"),
          PermCount(sites) + SiteCount(sites, "total"))
  }

  /** `getStats`: for every permission of every site, the counter named by its status goes up,
      then `total` does. A status that names no counter adds a key of its own to the record,
      which the panel never shows and the model drops. */
  method GetStats(sites: seq<SitePerms>) returns (stats: Stats)
    ensures stats == StatsOf(sites)
  {
    stats := Stats(0, 0, 0, 0);
    var i := 0;
    while i < |sites|
      invariant 0 <= i <= |sites|
      invariant stats == StatsOf(sites[..i])
    {
      stats := TallySite(stats, sites[i].permissions);
      StatsStep(sites, i);
      i := i + 1;
    }
    assert sites[..i] == sites;
  }

  /** The inner loop of `getStats` over one site's permissions, starting from `start`. */
  method TallySite(start: Stats, perms: seq<Perm>) returns (stats: Stats)
    ensures stats == Stats(start.granted + CountStatus(perms, "granted"),
                           start.denied + CountStatus(perms, "denied"),
                           start.prompt + CountStatus(perms, "prompt"),
                           start.total + |perms| + CountStatus(perms, "total"))
  {
    stats := start;
    var j := 0;
    while j < |perms|
      invariant 0 <= j <= |perms|
      invariant stats.granted == start.granted + CountStatus(perms[..j], "granted")
      invariant stats.denied == start.denied + CountStatus(perms[..j], "denied")
      invariant stats.prompt == start.prompt + CountStatus(perms[..j], "prompt")
      invariant stats.total == start.total + j + CountStatus(perms[..j], "total")
    {
      CountStatusStep(perms, j);
      var status := perms[j].status;
      if status == "granted" {
        stats := stats.(granted := stats.granted + 1);
      } else if status == "denied" {
        stats := stats.(denied := stats.denied + 1);
      } else if status == "prompt" {
        stats := stats.(prompt := stats.prompt + 1);
      } else if status == "total" {
        stats := stats.(total := stats.total + 1);
      }
      stats := stats.(total := stats.total + 1);
      j := j + 1;
    }
    assert perms[..j] == perms;
  }

  /** One more permission adds one to the count of its own status only. */
  lemma CountStatusStep(perms: seq<Perm>, j: int)
    requires 0 <= j < |perms|
    ensures forall status :: CountStatus(perms[..j + 1], status) ==
                               CountStatus(perms[..j], status) + (if perms[j].status == status then 1 else 0)
  {
    assert perms[..j + 1][..j] == perms[..j];
  }

  /** One more site adds its own counts to every counter. */
  lemma StatsStep(sites: seq<SitePerms>, i: int)
    requires 0 <= i < |sites|
    ensures var done, perms := StatsOf(sites[..i]), sites[i].permissions;
            StatsOf(sites[..i + 1]) ==
              Stats(done.granted + CountStatus(perms, "granted"), done.denied + CountStatus(perms, "denied"),
                    done.prompt + CountStatus(perms, "prompt"),
                    done.total + |perms| + CountStatus(perms, "total"))
  {
    assert sites[..i + 1][..i] == sites[..i];
  }

  predicate Counted(status: string)
  {
    status == "granted" || status == "denied" || status == "prompt"
  }

  /** Over one site, the three counted statuses add up to the permission count when every
      status is one of them. */
  lemma {:induction false} CountStatusSplit(perms: seq<Perm>)
    requires forall p :: p in perms ==> Counted(p.status)
    ensures CountStatus(perms, "granted") + CountStatus(perms, "denied") + CountStatus(perms, "prompt") == |perms|
    ensures CountStatus(perms, "total") == 0
  {
    if perms != [] {
      var init := perms[..|perms| - 1];
      assert forall p :: p in init ==> p in perms;
      assert perms[|perms| - 1] in perms;
      CountStatusSplit(init);
    }
  }

  /** When every status is `granted`, `denied` or `prompt`, the three counters add up to
      `total`, and `total` is the number of permissions. */
  lemma {:induction false} StatsAddUp(sites: seq<SitePerms>)
    requires forall s, p :: s in sites && p in s.permissions ==> Counted(p.status)
    ensures var st := StatsOf(sites);
            st.granted + st.denied + st.prompt == st.total && st.total == PermCount(sites)
  {
    if sites != [] {
      var init := sites[..|sites| - 1];
      var last := sites[|sites| - 1];
      assert forall s :: s in init ==> s in sites;
      assert last in sites;
      StatsAddUp(init);
      CountStatusSplit(last.permissions);
    }
  }

  // ---------------------------------------------------------------- filtering

  predicate HasStatus(s: SitePerms, status: string)
  {
    exists p :: p in s.permissions && p.status == status
  }

  predicate Matches(s: SitePerms, searchTerm: string, activeFilter: string)
  {
    IncludesIgnoringCase(s.site, searchTerm) && (activeFilter == ALL || HasStatus(s, activeFilter))
  }

  /** `filteredPermissions`: the sites whose name contains the search term ignoring case and,
      unless the filter is `all`, that hold some permission with the chosen status. */
  function FilteredPermissions(sites: seq<SitePerms>, searchTerm: string, activeFilter: string): (r: seq<SitePerms>)
    ensures forall s :: s in r <==> s in sites && Matches(s, searchTerm, activeFilter)
    ensures forall s :: multiset(r)[s] == if Matches(s, searchTerm, activeFilter) then multiset(sites)[s] else 0
    ensures Subsequence(r, sites)
  {
    var keep := (s: SitePerms) => Matches(s, searchTerm, activeFilter);
    FilterMultiplicity(sites, keep);
    Filter(sites, keep)
  }

  /** A site with no permissions is listed only under `all`. */
  lemma EmptySiteOnlyUnderAll(sites: seq<SitePerms>, s: SitePerms, searchTerm: string, activeFilter: string)
    requires s.permissions == [] && activeFilter != ALL
    ensures s !in FilteredPermissions(sites, searchTerm, activeFilter)
  {
  }

  // ---------------------------------------------------------------- labels

  datatype PermissionType = PermissionType(key: string, displayName: string, icon: string, description: string)

  const PERMISSION_TYPES: seq<PermissionType> := [
    PermissionType("camera", "Camera", "FiCamera", "Access to camera"),
    PermissionType("microphone", "Microphone", "FiMic", "Access to microphone"),
    PermissionType("location", "Location", "FiMapPin", "Access to location"),
    PermissionType("notifications", "Notifications", "FiBell", "Send notifications"),
    PermissionType("storage", "Storage", "FiSave", "Access to storage"),
    PermissionType("fullscreen", "Fullscreen", "FiMaximize", "Enter fullscreen mode"),
    PermissionType("payment", "Payment", "FiCreditCard", "Access to payment methods"),
    PermissionType("midi", "MIDI", "FiMusic", "Access to MIDI devices")
  ]

  const DEFAULT_ICON: string := "FiInfo"

  /** `permissionTypes.find(p => p.key === type)`: the first entry with the key. */
  function FindType(types: seq<PermissionType>, kind: string): (r: Option<PermissionType>)
    ensures r.None? <==> forall t :: t in types ==> t.key != kind
    ensures r.Some? ==> r.value in types && r.value.key == kind
    ensures r.Some? ==> exists i :: 0 <= i < |types| && types[i] == r.value
                                    && forall k :: 0 <= k < i ==> types[k].key != kind
  {
    if types == [] then None
    else if types[0].key == kind then Some(types[0])
    else
      assert forall i :: 0 <= i < |types[1..]| ==> types[1..][i] == types[i + 1];
      FindType(types[1..], kind)
  }

  /** `getPermissionLabel` over a table: the label of the first entry for the type, or the type
      itself for an unknown type. */
  function LabelIn(types: seq<PermissionType>, kind: string): (r: string)
    ensures (forall t :: t in types ==> t.key != kind) ==> r == kind
    ensures |types| > 0 && types[0].key == kind ==> r == types[0].displayName
    ensures (exists t :: t in types && t.key == kind) ==> exists t :: t in types && t.key == kind && r == t.displayName
  {
    match FindType(types, kind)
    case Some(t) => t.displayName
    case None => kind
  }

  /** `getPermissionIcon` over a table: the icon of the first entry for the type, or the
      information icon for an unknown type. */
  function IconIn(types: seq<PermissionType>, kind: string): (r: string)
    ensures (forall t :: t in types ==> t.key != kind) ==> r == DEFAULT_ICON
    ensures |types| > 0 && types[0].key == kind ==> r == types[0].icon
    ensures (exists t :: t in types && t.key == kind) ==> exists t :: t in types && t.key == kind && r == t.icon
  {
    match FindType(types, kind)
    case Some(t) => t.icon
    case None => DEFAULT_ICON
  }

  /** The panel's own table. */
  function PermissionLabel(kind: string): string
  {
    LabelIn(PERMISSION_TYPES, kind)
  }

  function PermissionIcon(kind: string): string
  {
    IconIn(PERMISSION_TYPES, kind)
  }

  /** `clearAllPermissions`: after the main process empties its table, the panel's list is
      emptied too, so nothing is shown and every counter is zero. */
  function ClearAllPermissions(sites: seq<SitePerms>): (r: seq<SitePerms>)
    ensures StatsOf(r) == Stats(0, 0, 0, 0)
    ensures forall searchTerm, activeFilter :: FilteredPermissions(r, searchTerm, activeFilter) == []
  {
    []
  }
}
