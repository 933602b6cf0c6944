/** The extensions panel: installed extensions switched on and off, removed or refreshed one
    at a time or all enabled at once, the filtered list and the counts above it. Names and
    descriptions may be missing; the size text (a float in megabytes) is not modelled. */
module ExtensionsPanel {
  import opened Options
  import opened Seqs
  import opened JsString

  const ENABLED: string := "enabled"
  const DISABLED: string := "disabled"
  const ALL: string := "all"

  datatype Extension = Extension(id: string, name: Option<string>, description: Option<string>,
                                 status: string, isSystem: bool, permissions: seq<string>,
                                 lastUpdated: string)

  /** The status after a toggle: `enabled` becomes `disabled`, anything else `enabled`. */
  function Toggled(status: string): (r: string)
    ensures r == ENABLED || r == DISABLED
    ensures r == DISABLED <==> status == ENABLED
  {
    if status == ENABLED then DISABLED else ENABLED
  }

  /** `toggleExtension`: only the extensions with that id change, and only in status. */
  function ToggleExtension(extensions: seq<Extension>, id: string): (r: seq<Extension>)
    ensures |r| == |extensions|
    ensures forall i :: 0 <= i < |r| ==>
              r[i] == if extensions[i].id == id then extensions[i].(status := Toggled(extensions[i].status))
                      else extensions[i]
  {
    Map(extensions, (e: Extension) => if e.id == id then e.(status := Toggled(e.status)) else e)
  }

  /** Toggling twice restores the list when every status is `enabled` or `disabled` (an
      extension in any other state would end up `disabled`). */
  lemma ToggleTwice(extensions: seq<Extension>, id: string)
    requires forall e :: e in extensions ==> e.status == ENABLED || e.status == DISABLED
    ensures ToggleExtension(ToggleExtension(extensions, id), id) == extensions
  {
    var r := ToggleExtension(ToggleExtension(extensions, id), id);
    forall i | 0 <= i < |r| ensures r[i] == extensions[i] {
      assert extensions[i] in extensions;
    }
  }

  /** `removeExtension`: exactly the extensions with that id go, the rest keep their order. */
  function RemoveExtension(extensions: seq<Extension>, id: string): (r: seq<Extension>)
    ensures forall e :: e in r <==> e in extensions && e.id != id
    ensures forall e :: multiset(r)[e] == if e.id != id then multiset(extensions)[e] else 0
    ensures Subsequence(r, extensions)
  {
    var keep := (e: Extension) => e.id != id;
    FilterMultiplicity(extensions, keep);
    Filter(extensions, keep)
  }

  /** `updateExtension`: only the update time of the extensions with that id changes. */
  function UpdateExtension(extensions: seq<Extension>, id: string, isoNow: string): (r: seq<Extension>)
    ensures |r| == |extensions|
    ensures forall i :: 0 <= i < |r| ==>
              r[i] == if extensions[i].id == id then extensions[i].(lastUpdated := isoNow) else extensions[i]
  {
    Map(extensions, (e: Extension) => if e.id == id then e.(lastUpdated := isoNow) else e)
  }

  /** The Enable All button. */
  function EnableAll(extensions: seq<Extension>): (r: seq<Extension>)
    ensures |r| == |extensions|
    ensures forall i :: 0 <= i < |r| ==> r[i] == extensions[i].(status := ENABLED)
  {
    Map(extensions, (e: Extension) => e.(status := ENABLED))
  }

  /** Enabling everything twice is enabling it once, and nothing is left disabled. */
  lemma EnableAllIdempotent(extensions: seq<Extension>)
    ensures EnableAll(EnableAll(extensions)) == EnableAll(extensions)
    ensures forall e :: e in EnableAll(extensions) ==> e.status == ENABLED
  {
    var once := EnableAll(extensions);
    assert forall i :: 0 <= i < |once| ==> EnableAll(once)[i] == once[i];
  }

  /** `field?.toLowerCase().includes(term)`: a missing field matches nothing. */
  predicate FieldIncludes(field: Option<string>, term: string)
  {
    field.Some? && IncludesIgnoringCase(field.value, term)
  }

  predicate Matches(e: Extension, searchTerm: string, statusFilter: string, showSystem: bool)
  {
    (FieldIncludes(e.name, searchTerm) || FieldIncludes(e.description, searchTerm))
    && (statusFilter == ALL || e.status == statusFilter)
    && (showSystem || !e.isSystem)
  }

  /** `filteredExtensions`: the extensions whose name or description contains the search term
      ignoring case, with the chosen status (any under `all`), and not system extensions
      unless those are shown; in list order. */
  function FilteredExtensions(extensions: seq<Extension>, searchTerm: string, statusFilter: string,
                              showSystem: bool): (r: seq<Extension>)
    ensures forall e :: e in r <==> e in extensions && Matches(e, searchTerm, statusFilter, showSystem)
    ensures forall e :: multiset(r)[e] == if Matches(e, searchTerm, statusFilter, showSystem) then multiset(extensions)[e] else 0
    ensures Subsequence(r, extensions)
  {
    var keep := (e: Extension) => Matches(e, searchTerm, statusFilter, showSystem);
    FilterMultiplicity(extensions, keep);
    Filter(extensions, keep)
  }

  /** An extension with neither name nor description is never listed. */
  lemma NamelessNeverListed(extensions: seq<Extension>, e: Extension, searchTerm: string,
                            statusFilter: string, showSystem: bool)
    requires e.name.None? && e.description.None?
    ensures e !in FilteredExtensions(extensions, searchTerm, statusFilter, showSystem)
  {
  }

  datatype Stats = Stats(total: nat, enabled: nat, disabled: nat, system: nat)

  function HasStatus(status: string): Extension -> bool
  {
    (e: Extension) => e.status == status
  }

  /** `getStats`: the list length, the enabled, disabled and system counts. */
  function GetStats(extensions: seq<Extension>): (r: Stats)
    ensures r.total == |extensions|
    ensures r.enabled == Count(extensions, HasStatus(ENABLED))
    ensures r.disabled == Count(extensions, HasStatus(DISABLED))
    ensures r.system == Count(extensions, (e: Extension) => e.isSystem)
    ensures r.enabled + r.disabled <= r.total
  {
    EnabledDisabledBounded(extensions);
    FilterCount(extensions, HasStatus(ENABLED));
    FilterCount(extensions, HasStatus(DISABLED));
    FilterCount(extensions, (e: Extension) => e.isSystem);
    Stats(|extensions|, |Filter(extensions, HasStatus(ENABLED))|, |Filter(extensions, HasStatus(DISABLED))|,
          |Filter(extensions, (e: Extension) => e.isSystem)|)
  }

  lemma {:induction false} EnabledDisabledBounded(extensions: seq<Extension>)
    ensures Count(extensions, HasStatus(ENABLED)) + Count(extensions, HasStatus(DISABLED)) <= |extensions|
  {
    if extensions != [] {
      EnabledDisabledBounded(extensions[1..]);
    }
  }

  /** After Enable All every extension counts as enabled. */
  lemma {:induction false} EnableAllStats(extensions: seq<Extension>)
    ensures GetStats(EnableAll(extensions)).enabled == |extensions|
    ensures GetStats(EnableAll(extensions)).disabled == 0
  {
    var r := EnableAll(extensions);
    FilterAll(r, HasStatus(ENABLED));
    FilterCount(r, HasStatus(ENABLED));
  }

  const PERMISSION_DESCRIPTIONS: map<string, string> := map[
    "activeTab" := "Access to current tab",
    "storage" := "Store data locally",
    "tabs" := "Access to all tabs",
    "webRequest" := "Monitor web requests",
    "identity" := "Access to identity",
    "system" := "System-level access"
  ]

  /** The names every plain object inherits from `Object.prototype`; a property read on the
      descriptions object finds these even though it does not own them. */
  const OBJECT_PROTOTYPE_MEMBERS: set<string> := {
    "constructor", "hasOwnProperty", "isPrototypeOf", "propertyIsEnumerable", "toLocaleString",
    "toString", "valueOf", "__proto__", "__defineGetter__", "__defineSetter__",
    "__lookupGetter__", "__lookupSetter__"
  }

  /** What `descriptions[permission] || permission` yields: a string, or the inherited
      `Object.prototype` member of that name (a function, or the prototype object itself for
      `__proto__`), which is truthy and so wins over the fallback. */
  datatype Described = Text(text: string) | PrototypeMember(name: string)

  /** `getPermissionDescription`: the own description, else an inherited member of the same
      name, else the permission name itself. */
  function PermissionDescription(permission: string): (r: Described)
    ensures permission in PERMISSION_DESCRIPTIONS ==> r == Text(PERMISSION_DESCRIPTIONS[permission])
    ensures permission !in PERMISSION_DESCRIPTIONS && permission in OBJECT_PROTOTYPE_MEMBERS ==>
              r == PrototypeMember(permission)
    ensures permission !in PERMISSION_DESCRIPTIONS && permission !in OBJECT_PROTOTYPE_MEMBERS ==>
              r == Text(permission)
    ensures r.Text? <==> permission !in OBJECT_PROTOTYPE_MEMBERS
    ensures r.Text? && permission != "" ==> r.text != ""
  {
    if permission in PERMISSION_DESCRIPTIONS then Text(PERMISSION_DESCRIPTIONS[permission])
    else if permission in OBJECT_PROTOTYPE_MEMBERS then PrototypeMember(permission)
    else Text(permission)
  }
}
