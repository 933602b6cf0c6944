/** The content blocker panel: the subscribed filter lists (each switched on or off and
    refreshed on demand), the user's own filter rules, the log of blocked requests and the
    counts shown above it. The clock is a parameter. */
module ContentBlocker {
  import opened Seqs
  import opened JsString

  datatype FilterList = FilterList(id: int, name: string, description: string, url: string,
                                   enabled: bool, rules: nat, lastUpdated: int)

  datatype BlockedRequest = BlockedRequest(id: int, url: string, kind: string, category: string,
                                           timestamp: int, domain: string)

  /** The custom-rule list and its add form. */
  datatype CustomState = CustomState(customFilters: seq<string>, newFilter: string, showAddFilter: bool)

  /** `handleToggleFilterList`: the lists with that id are switched over; the others, and every
      other field, are unchanged. */
  function ToggleFilterList(lists: seq<FilterList>, id: int): (r: seq<FilterList>)
    ensures |r| == |lists|
    ensures forall i :: 0 <= i < |r| ==>
              r[i] == if lists[i].id == id then lists[i].(enabled := !lists[i].enabled) else lists[i]
  {
    Map(lists, (l: FilterList) => if l.id == id then l.(enabled := !l.enabled) else l)
  }

  /** Toggling twice is no change at all. */
  lemma ToggleTwice(lists: seq<FilterList>, id: int)
    ensures ToggleFilterList(ToggleFilterList(lists, id), id) == lists
  {
    var r := ToggleFilterList(ToggleFilterList(lists, id), id);
    assert forall i :: 0 <= i < |r| ==> r[i] == lists[i];
  }

  /** `handleUpdateFilterList`: only the refresh time of the lists with that id changes. */
  function UpdateFilterList(lists: seq<FilterList>, id: int, now: int): (r: seq<FilterList>)
    ensures |r| == |lists|
    ensures forall i :: 0 <= i < |r| ==>
              r[i] == if lists[i].id == id then lists[i].(lastUpdated := now) else lists[i]
  {
    Map(lists, (l: FilterList) => if l.id == id then l.(lastUpdated := now) else l)
  }

  /** `handleAddCustomFilter`: a rule that is not blank is appended without its surrounding
      white space, and the input clears and the form hides; a blank input changes nothing. */
  function AddCustomFilter(s: CustomState): (r: CustomState)
    ensures Trim(s.newFilter) == "" ==> r == s
    ensures Trim(s.newFilter) != "" ==>
              r.customFilters == s.customFilters + [Trim(s.newFilter)] && r.newFilter == "" && !r.showAddFilter
  {
    var rule := Trim(s.newFilter);
    if rule != "" then CustomState(s.customFilters + [rule], "", false) else s
  }

  /** `handleRemoveCustomFilter(index)`: the rule at that position goes and the others keep
      their order; a position outside the list removes nothing. */
  function RemoveCustomFilter(filters: seq<string>, index: int): (r: seq<string>)
    ensures 0 <= index < |filters| ==> r == filters[..index] + filters[index + 1..]
    ensures !(0 <= index < |filters|) ==> r == filters
  {
    if 0 <= index < |filters| then filters[..index] + filters[index + 1..] else filters
  }

  /** Removing the rule just added restores the list. */
  lemma AddThenRemove(s: CustomState)
    requires Trim(s.newFilter) != ""
    ensures RemoveCustomFilter(AddCustomFilter(s).customFilters, |s.customFilters|) == s.customFilters
  {
    var added := AddCustomFilter(s).customFilters;
    assert added[..|s.customFilters|] == s.customFilters;
  }

  /** The counters above the log. The amount of data saved is a float and not modelled. */
  datatype Stats = Stats(adsBlocked: nat, trackersBlocked: nat, requestsBlocked: nat)

  function InCategory(category: string): BlockedRequest -> bool
  {
    (r: BlockedRequest) => r.category == category
  }

  /** The counts: advertising requests, analytics requests, and all requests. */
  function ComputeStats(requests: seq<BlockedRequest>): (r: Stats)
    ensures r.adsBlocked == Count(requests, InCategory("advertising"))
    ensures r.trackersBlocked == Count(requests, InCategory("analytics"))
    ensures r.requestsBlocked == |requests|
    ensures r.adsBlocked + r.trackersBlocked <= r.requestsBlocked
  {
    AdsAndTrackersBounded(requests);
    FilterCount(requests, InCategory("advertising"));
    FilterCount(requests, InCategory("analytics"));
    Stats(|Filter(requests, InCategory("advertising"))|, |Filter(requests, InCategory("analytics"))|,
          |requests|)
  }

  /** A request is in at most one of the two counted categories. */
  lemma {:induction false} AdsAndTrackersBounded(requests: seq<BlockedRequest>)
    ensures Count(requests, InCategory("advertising")) + Count(requests, InCategory("analytics")) <= |requests|
  {
    if requests != [] {
      AdsAndTrackersBounded(requests[1..]);
    }
  }

  /** The request categories with their own icon and colour; everything else is `Other`. */
  datatype Category = Advertising | Analytics | Social | Malware | Other

  function Classify(category: string): (r: Category)
    ensures r == Advertising <==> category == "advertising"
    ensures r == Analytics <==> category == "analytics"
    ensures r == Social <==> category == "social"
    ensures r == Malware <==> category == "malware"
  {
    if category == "advertising" then Advertising
    else if category == "analytics" then Analytics
    else if category == "social" then Social
    else if category == "malware" then Malware
    else Other
  }

  /** `getCategoryIcon`. */
  function CategoryIcon(category: string): string
  {
    match Classify(category)
    case Advertising => "\U{1F6E1}\U{FE0F}"
    case Analytics => "\U{1F4CA}"
    case Social => "\U{1F465}"
    case Malware => "\U{1F9A0}"
    case Other => "\U{2753}"
  }

  /** `getCategoryColor`. */
  function CategoryColor(category: string): string
  {
    match Classify(category)
    case Advertising => "text-red-400"
    case Analytics => "text-yellow-400"
    case Social => "text-blue-400"
    case Malware => "text-purple-400"
    case Other => "text-gray-400"
  }

  /** Both mappings give every unknown category the same fallback, and tell the known
      categories apart from each other and from the fallback. */
  lemma CategoryMappings(a: string, b: string)
    ensures Classify(a) == Other ==> CategoryIcon(a) == "\U{2753}" && CategoryColor(a) == "text-gray-400"
    ensures Classify(a) != Classify(b) ==> CategoryColor(a) != CategoryColor(b)
    ensures Classify(a) != Classify(b) ==> CategoryIcon(a) != CategoryIcon(b)
  {
  }
}
