/** The VM inventory page: its filters, the import wiring, deletion and the status badge. */
module VmInventoryPage {
  import opened Wrappers
  import opened Strings
  import opened Types
  import opened Lists
  import opened Http

  predicate QueryMatches(vm: VMInventory, query: string)
  {
    Contains(Lower(vm.vmName), query) || Contains(Lower(vm.hostname), query)
    || Contains(Lower(vm.vmIpAddress), query) || Contains(Lower(vm.vmOS), query)
    || Contains(Lower(vm.department), query) || Contains(Lower(vm.user), query)
  }

  predicate StatusMatches(vm: VMInventory, status: string)
  {
    Lower(vm.vmStatus) == Lower(status)
  }

  function ByQuery(query: string): VMInventory -> bool
  {
    vm => QueryMatches(vm, query)
  }

  function ByStatus(status: string): VMInventory -> bool
  {
    vm => StatusMatches(vm, status)
  }

  /** `applyFilters(query, status)` over the loaded `vms`. */
  function ApplyFilters(vms: seq<VMInventory>, query: string, status: string): seq<VMInventory>
  {
    var afterQuery := if query != "" then Filter(vms, ByQuery(query)) else vms;
    if status != "all" then Filter(afterQuery, ByStatus(status)) else afterQuery
  }

  /** With status "all" and an empty query the list is shown as loaded. */
  lemma NoFilterKeepsAll(vms: seq<VMInventory>)
    ensures ApplyFilters(vms, "", "all") == vms
  {
  }

  /** A VM is shown when it passes the query (if any) and the status (unless "all"). */
  predicate Shown(vm: VMInventory, query: string, status: string)
  {
    (query == "" || QueryMatches(vm, query)) && (status == "all" || StatusMatches(vm, status))
  }

  function ShownBy(query: string, status: string): VMInventory -> bool
  {
    vm => Shown(vm, query, status)
  }

  /**
   * The two filters combine by conjunction: the result is the sub-list of
   * `vms` passing both, in order, and no VM is added.
   */
  lemma {:induction false} FiltersConjoin(vms: seq<VMInventory>, query: string, status: string)
    ensures ApplyFilters(vms, query, status) == Filter(vms, ShownBy(query, status))
  {
    var both := ShownBy(query, status);
    if query != "" && status != "all" {
      FilterFilter(vms, ByQuery(query), ByStatus(status));
      FilterCongruent(vms, Both(ByQuery(query), ByStatus(status)), both);
    } else if query != "" {
      FilterCongruent(vms, ByQuery(query), both);
    } else if status != "all" {
      FilterCongruent(vms, ByStatus(status), both);
    } else {
      FilterAll(vms, both);
    }
  }

  /** The page's state as far as these handlers touch it. */
  datatype PageState = PageState(
    vms: seq<VMInventory>,
    filteredVMs: seq<VMInventory>,
    searchQuery: string,
    statusFilter: string,
    currentVM: Option<VMInventory>,
    deleteDialogOpen: bool)

  /**
   * `handleSearch`: the typed value is lowercased and filtered with the
   * current status; the shown list is the loaded VMs passing both, in order.
   */
  function HandleSearch(st: PageState, value: string): (r: PageState)
    ensures r == st.(searchQuery := Lower(value),
                     filteredVMs := Filter(st.vms, ShownBy(Lower(value), st.statusFilter)))
  {
    FiltersConjoin(st.vms, Lower(value), st.statusFilter);
    st.(searchQuery := Lower(value), filteredVMs := ApplyFilters(st.vms, Lower(value), st.statusFilter))
  }

  /**
   * `handleStatusFilterChange`: the chosen status, filtered with the current
   * query; the shown list is the loaded VMs passing both, in order.
   */
  function HandleStatusFilterChange(st: PageState, value: string): (r: PageState)
    ensures r == st.(statusFilter := value,
                     filteredVMs := Filter(st.vms, ShownBy(st.searchQuery, value)))
  {
    FiltersConjoin(st.vms, st.searchQuery, value);
    st.(statusFilter := value, filteredVMs := ApplyFilters(st.vms, st.searchQuery, value))
  }

  /** `fetchVMs`: the list the server returned, or no change when the fetch threw. */
  function FetchVMs(st: PageState, server: Option<seq<VMInventory>>): (r: PageState)
    ensures server.Some? ==> r == st.(vms := server.value, filteredVMs := server.value)
    ensures server.None? ==> r == st
  {
    match server
    case Some(data) => st.(vms := data, filteredVMs := data)
    case None => st
  }

  /** The import callback is `fetchVMs`: the decoded rows are ignored and only a refetch happens. */
  function OnImport(st: PageState, decoded: seq<VMInventory>, server: Option<seq<VMInventory>>): PageState
  {
    FetchVMs(st, server)
  }

  lemma ImportIgnoresRows(st: PageState, a: seq<VMInventory>, b: seq<VMInventory>, server: Option<seq<VMInventory>>)
    ensures OnImport(st, a, server) == OnImport(st, b, server)
    ensures server.None? ==> OnImport(st, a, server).vms == st.vms
  {
  }

  datatype Request = Request(httpMethod: HttpMethod, url: string)

  /** The URL of the delete request. */
  function DeleteUrl(vm: VMInventory): string
  {
    "/api/vm-inventory/" + vm.id
  }

  /** What `handleDeleteVM` sends, if anything, and the page state afterwards. */
  datatype DeleteStep = DeleteStep(request: Option<Request>, state: PageState)

  /**
   * `handleDeleteVM`: with a current VM, the DELETE request; a DELETE that
   * does not throw (whatever its status) is followed by the refetch; the
   * dialog closes in every case.
   */
  function HandleDeleteVM(st: PageState, outcome: FetchOutcome, server: Option<seq<VMInventory>>): (r: DeleteStep)
    ensures st.currentVM.None? ==> r == DeleteStep(None, st)
    ensures st.currentVM.Some? ==> r.request == Some(Request(DELETE, DeleteUrl(st.currentVM.value)))
    ensures st.currentVM.Some? && outcome != Threw ==> r.state == FetchVMs(st, server).(deleteDialogOpen := false)
    ensures st.currentVM.Some? && outcome == Threw ==> r.state == st.(deleteDialogOpen := false)
  {
    if st.currentVM.None? then DeleteStep(None, st)
    else
      var afterRequest := if outcome != Threw then FetchVMs(st, server) else st;
      DeleteStep(Some(Request(DELETE, DeleteUrl(st.currentVM.value))), afterRequest.(deleteDialogOpen := false))
  }

  /**
   * A DELETE the server refuses is not noticed: it is followed by the same
   * refetch as an accepted one, so the VM is still listed if the server
   * still has it.
   */
  lemma RefusedDeleteRefetches(st: PageState, server: Option<seq<VMInventory>>)
    requires st.currentVM.Some?
    ensures HandleDeleteVM(st, NotOk, server) == HandleDeleteVM(st, Ok, server)
    ensures server.Some? ==> HandleDeleteVM(st, NotOk, server).state.filteredVMs == server.value
    ensures HandleDeleteVM(st, NotOk, server) != HandleDeleteVM(st, Threw, server) <==>
              server.Some? && (server.value != st.vms || server.value != st.filteredVMs)
  {
  }

  const KnownStatuses: set<string> := {"Running", "Stopped", "Maintenance", "Suspended"}
  const OtherBadge := "bg-gray-200 text-gray-800"

  function StatusBadge(status: string): string
  {
    match status
    case "Running" => "bg-green-100 text-green-800"
    case "Stopped" => "bg-yellow-100 text-yellow-800"
    case "Maintenance" => "bg-red-100 text-red-800"
    case "Suspended" => "bg-gray-100 text-gray-800"
    case _ => OtherBadge
  }

  /** The four known statuses map to four distinct classes and everything else to gray-200. */
  lemma BadgesDistinct(s: string)
    ensures s !in KnownStatuses ==> StatusBadge(s) == OtherBadge
    ensures s in KnownStatuses ==> StatusBadge(s) != OtherBadge
    ensures forall a, b :: a in KnownStatuses && b in KnownStatuses && a != b ==> StatusBadge(a) != StatusBadge(b)
  {
  }
}
