/**
 * The activity log page: the logs loaded once, narrowed by an item-type
 * filter and a text query that are combined on every change.
 */
module ActivityPage {
  import opened Wrappers
  import opened Strings
  import opened Types
  import opened Lists

  const AllTypes := "all"

  predicate HasType(log: ActivityLog, kind: string)
  {
    log.itemType == kind
  }

  /** The text filter; `query` is already lowercased by the search box. */
  predicate MentionsQuery(log: ActivityLog, query: string)
  {
    Contains(Lower(log.details), query) || Contains(Lower(log.action), query) || Contains(Lower(log.itemType), query)
  }

  /** Whether a log survives both filters: "all" and a blank query filter nothing. */
  predicate Shown(log: ActivityLog, query: string, kind: string)
  {
    (kind == AllTypes || HasType(log, kind)) && (IsBlank(query) || MentionsQuery(log, query))
  }

  /** `filterLogs`: the type pass, when a type is chosen, then the text pass, when the query is not blank. */
  function FilterLogs(logs: seq<ActivityLog>, query: string, kind: string): seq<ActivityLog>
  {
    var byType := if kind != AllTypes then Filter(logs, l => HasType(l, kind)) else logs;
    if !IsBlank(query) then Filter(byType, l => MentionsQuery(l, query)) else byType
  }

  /** The two passes are one filter with the conjunction: the shown logs are the subsequence satisfying both, in order. */
  lemma {:induction false} FilterLogsIsOnePass(logs: seq<ActivityLog>, query: string, kind: string)
    ensures FilterLogs(logs, query, kind) == Filter(logs, l => Shown(l, query, kind))
  {
    var typeP := (l: ActivityLog) => HasType(l, kind);
    var textP := (l: ActivityLog) => MentionsQuery(l, query);
    var shown := (l: ActivityLog) => Shown(l, query, kind);
    if kind != AllTypes && !IsBlank(query) {
      FilterFilter(logs, typeP, textP);
      FilterCongruent(logs, Both(typeP, textP), shown);
    } else if kind != AllTypes {
      FilterCongruent(logs, typeP, shown);
    } else if !IsBlank(query) {
      FilterCongruent(logs, textP, shown);
    } else {
      FilterAll(logs, shown);
    }
  }

  /** With no type chosen and a blank query every log is shown. */
  lemma NoFilterShowsAll(logs: seq<ActivityLog>, query: string)
    requires IsBlank(query)
    ensures FilterLogs(logs, query, AllTypes) == logs
  {
  }

  /** A chosen type keeps only logs of exactly that type. */
  lemma TypeFilterExact(logs: seq<ActivityLog>, query: string, kind: string)
    requires kind != AllTypes
    ensures forall k | 0 <= k < |FilterLogs(logs, query, kind)| :: FilterLogs(logs, query, kind)[k].itemType == kind
  {
    FilterLogsIsOnePass(logs, query, kind);
  }

  class Page {
    var allLogs: seq<ActivityLog>
    var filtered: seq<ActivityLog>
    var searchQuery: string
    var typeFilter: string

    constructor()
      ensures allLogs == [] && filtered == [] && searchQuery == "" && typeFilter == AllTypes
    {
      allLogs := [];
      filtered := [];
      searchQuery := "";
      typeFilter := AllTypes;
    }

    /** The mount fetch; `None` stands for a failed request or body, which keeps the empty lists. */
    method Load(data: Option<seq<ActivityLog>>)
      modifies this
      ensures data.Some? ==> allLogs == data.value && filtered == data.value
      ensures data.None? ==> allLogs == old(allLogs) && filtered == old(filtered)
      ensures searchQuery == old(searchQuery) && typeFilter == old(typeFilter)
    {
      if data.Some? {
        allLogs := data.value;
        filtered := data.value;
      }
    }

    /** `handleSearch`: the lowercased query, filtered together with the current type. */
    method HandleSearch(input: string)
      modifies this
      ensures searchQuery == Lower(input) && filtered == FilterLogs(allLogs, Lower(input), typeFilter)
      ensures allLogs == old(allLogs) && typeFilter == old(typeFilter)
    {
      searchQuery := Lower(input);
      filtered := FilterLogs(allLogs, searchQuery, typeFilter);
    }

    /** `handleTypeFilter`: the new type, filtered together with the current query. */
    method HandleTypeFilter(kind: string)
      modifies this
      ensures typeFilter == kind && filtered == FilterLogs(allLogs, searchQuery, kind)
      ensures allLogs == old(allLogs) && searchQuery == old(searchQuery)
    {
      typeFilter := kind;
      filtered := FilterLogs(allLogs, searchQuery, typeFilter);
    }
  }
}
