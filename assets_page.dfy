/**
 * The assets page: the save payload shared by single save and bulk import,
 * the sequential import loop, the search filter and the status badge.
 */
module AssetsPage {
  import opened Wrappers
  import opened Strings
  import opened Types
  import opened Lists
  import opened Http
  import AssetCsv

  /** `Partial<Asset>` as a form or an imported row hands it to the page. */
  datatype AssetDraft = AssetDraft(
    assetTag: Option<string>,
    model: Option<string>,
    serialNumber: Option<string>,
    manufacturer: Option<string>,
    category: Option<string>,
    purchaseDate: Option<string>,
    purchaseCost: Option<int>,
    warrantyExpires: Option<string>,
    location: Option<string>,
    macAddress: Option<string>,
    ipAddress: Option<string>,
    status: Option<string>,
    financeChecked: Option<bool>,
    assignedTo: Option<Assignee>,
    dateReleased: Option<string>,
    releasedBy: Option<string>,
    notes: Option<string>)

  /** A decoded CSV row as the import handler receives it: it has no notes. */
  function FromImported(a: AssetCsv.ImportedAsset): AssetDraft
  {
    AssetDraft(Some(a.assetTag), Some(a.model), Some(a.serialNumber), Some(a.manufacturer),
      Some(a.category), Some(a.purchaseDate), Some(a.purchaseCost), Some(a.warrantyExpires),
      Some(a.location), Some(a.macAddress), Some(a.ipAddress), Some(a.status),
      Some(a.financeChecked), Some(Named(a.assignedTo)), Some(a.dateReleased), Some(a.releasedBy), None)
  }

  /** The JSON body of a save or an import POST: fourteen fields. */
  datatype Payload = Payload(
    assetTag: string,
    model: string,
    serialNumber: string,
    macAddress: string,
    ipAddress: string,
    status: string,
    financeChecked: bool,
    assignedTo: Assignee,
    dateReleased: string,
    releasedBy: string,
    category: string,
    manufacturer: string,
    location: string,
    notes: string)

  /** `assignedTo || ""`: a falsy value (missing, "", 0) becomes "". */
  function AssigneeOrEmpty(a: Option<Assignee>): (r: Assignee)
    ensures a == Some(UserId(0)) || a == Some(Named("")) || a.None? ==> r == Named("")
  {
    match a
    case Some(UserId(n)) => if n != 0 then UserId(n) else Named("")
    case Some(Named(s)) => Named(s)
    case None => Named("")
  }

  function PayloadOf(d: AssetDraft): (p: Payload)
    ensures p.status != ""
    ensures p.financeChecked <==> d.financeChecked == Some(true)
  {
    Payload(OrEmpty(d.assetTag), OrEmpty(d.model), OrEmpty(d.serialNumber), OrEmpty(d.macAddress),
      OrEmpty(d.ipAddress), OrDefault(d.status, "available"), d.financeChecked == Some(true),
      AssigneeOrEmpty(d.assignedTo), OrEmpty(d.dateReleased), OrEmpty(d.releasedBy),
      OrEmpty(d.category), OrEmpty(d.manufacturer), OrEmpty(d.location), OrEmpty(d.notes))
  }

  /** The payload defaults: "available" for a missing status, "" for every missing text. */
  lemma PayloadDefaults(d: AssetDraft)
    ensures (d.status.None? || d.status == Some("")) ==> PayloadOf(d).status == "available"
    ensures d.assetTag.None? ==> PayloadOf(d).assetTag == ""
    ensures d.notes.None? ==> PayloadOf(d).notes == ""
    ensures d.status.Some? && d.status.value != "" ==> PayloadOf(d).status == d.status.value
  {
  }

  /** Purchase date, cost and warranty are not part of the payload, so they never reach the store. */
  lemma PayloadOmitsPurchaseFields(d: AssetDraft, date: Option<string>, cost: Option<int>, warranty: Option<string>)
    ensures PayloadOf(d) == PayloadOf(d.(purchaseDate := date, purchaseCost := cost, warrantyExpires := warranty))
  {
  }

  /** An imported row's columns reach the payload unchanged, except an empty status. */
  lemma ImportedPayload(a: AssetCsv.ImportedAsset)
    ensures var p := PayloadOf(FromImported(a));
      p.assetTag == a.assetTag && p.model == a.model && p.serialNumber == a.serialNumber
      && p.financeChecked == a.financeChecked && p.notes == ""
      && (a.status != "" ==> p.status == a.status)
  {
  }

  // ---------------------------------------------------------------- single save

  datatype Request = Request(httpMethod: HttpMethod, url: string, body: Payload)

  /** `saveAsset`: PUT `/api/assets/:id` when an asset is being edited, POST `/api/assets` otherwise. */
  function SaveRequest(current: Option<Asset>, d: AssetDraft): (r: Request)
    ensures current.Some? ==> r.httpMethod == PUT && r.url == "/api/assets/" + IntToString(current.value.id)
    ensures current.None? ==> r.httpMethod == POST && r.url == "/api/assets"
    ensures r.body == PayloadOf(d)
  {
    match current
    case Some(a) => Request(PUT, "/api/assets/" + IntToString(a.id), PayloadOf(d))
    case None => Request(POST, "/api/assets", PayloadOf(d))
  }

  /** What one `saveAsset` call leaves behind: the request sent, the toast, and whether the modal closed and the list was refetched. */
  datatype SaveReport = SaveReport(request: Request, toast: Toast, modalClosed: bool, refetched: bool)

  const SaveFailed := Toast("Save failed", "")

  /** `saveAsset`, given the outcome of its one fetch: only a throw reaches the catch; the status code is not looked at. */
  function SaveAsset(current: Option<Asset>, d: AssetDraft, outcome: FetchOutcome): (r: SaveReport)
    ensures r.request == SaveRequest(current, d)
    ensures r.refetched <==> outcome != Threw
    ensures r.modalClosed <==> outcome != Threw
    ensures outcome == Threw ==> r.toast == SaveFailed
    ensures outcome != Threw && current.Some? ==> r.toast.title == "Asset Updated"
    ensures outcome != Threw && current.None? ==> r.toast.title == "Asset Added"
  {
    var req := SaveRequest(current, d);
    if outcome == Threw then SaveReport(req, SaveFailed, false, false)
    else SaveReport(req, Toast(if current.Some? then "Asset Updated" else "Asset Added", ""), true, true)
  }

  /** A save the server answers with an error status looks exactly like one it accepts. */
  lemma SaveIgnoresStatus(current: Option<Asset>, d: AssetDraft)
    ensures SaveAsset(current, d, NotOk) == SaveAsset(current, d, Ok)
    ensures SaveAsset(current, d, Ok) != SaveAsset(current, d, Threw)
  {
  }

  // ---------------------------------------------------------------- bulk import

  datatype Toast = Toast(title: string, description: string)

  datatype ImportReport = ImportReport(
    posted: seq<Payload>,    // requests sent, in order
    logged: seq<Payload>,    // payloads whose response was not OK
    toast: Toast,
    refetched: bool)

  function ImportedToast(n: nat): Toast
  {
    Toast("Assets Imported", NatToString(n) + " assets successfully saved to the database.")
  }

  const ImportFailed := Toast("Import failed", "")

  /** The payloads of the first `n` records. */
  function PayloadsUpTo(records: seq<AssetCsv.ImportedAsset>, n: nat): (ps: seq<Payload>)
    requires n <= |records|
    ensures |ps| == n
    ensures forall k | 0 <= k < n :: ps[k] == PayloadOf(FromImported(records[k]))
  {
    seq(n, k requires 0 <= k < n => PayloadOf(FromImported(records[k])))
  }

  /** The payloads among the first `n` whose response was not OK. */
  function NotOkUpTo(records: seq<AssetCsv.ImportedAsset>, server: seq<FetchOutcome>, n: nat): seq<Payload>
    requires n <= |records| == |server|
  {
    if n == 0 then []
    else
      var tail := if server[n - 1] == NotOk then [PayloadOf(FromImported(records[n - 1]))] else [];
      NotOkUpTo(records, server, n - 1) + tail
  }

  /** Index of the first POST that throws, or the number of records. */
  function FirstThrow(server: seq<FetchOutcome>): (k: nat)
    ensures k <= |server|
    ensures k < |server| ==> server[k] == Threw
    ensures forall j | 0 <= j < k :: server[j] != Threw
  {
    if |server| == 0 then 0 else if server[0] == Threw then 0 else 1 + FirstThrow(server[1..])
  }

  /** What `handleImportAssets` does, given the outcome of each POST in turn. */
  function ImportSpec(records: seq<AssetCsv.ImportedAsset>, server: seq<FetchOutcome>): ImportReport
    requires |records| == |server|
  {
    var k := FirstThrow(server);
    if k < |records| then
      ImportReport(PayloadsUpTo(records, k + 1), NotOkUpTo(records, server, k), ImportFailed, false)
    else
      ImportReport(PayloadsUpTo(records, |records|), NotOkUpTo(records, server, |records|),
        ImportedToast(|records|), true)
  }

  /** `handleImportAssets`: one awaited POST per record, in order. */
  method ImportAssets(records: seq<AssetCsv.ImportedAsset>, server: seq<FetchOutcome>)
    returns (report: ImportReport)
    requires |records| == |server|
    ensures report == ImportSpec(records, server)
  {
    var posted: seq<Payload> := [];
    var logged: seq<Payload> := [];
    var i := 0;
    while i < |records|
      invariant 0 <= i <= |records|
      invariant forall j | 0 <= j < i :: server[j] != Threw
      invariant posted == PayloadsUpTo(records, i)
      invariant logged == NotOkUpTo(records, server, i)
    {
      var payload := PayloadOf(FromImported(records[i]));
      posted := posted + [payload];
      var res := server[i];
      if res == Threw {
        assert FirstThrow(server) == i by { FirstThrowAt(server, i); }
        return ImportReport(posted, logged, ImportFailed, false);
      }
      if res == NotOk {
        logged := logged + [payload];
      }
      i := i + 1;
    }
    FirstThrowNone(server);
    report := ImportReport(posted, logged, ImportedToast(|records|), true);
  }

  lemma {:induction false} FirstThrowAt(server: seq<FetchOutcome>, i: nat)
    requires i < |server| && server[i] == Threw
    requires forall j | 0 <= j < i :: server[j] != Threw
    ensures FirstThrow(server) == i
  {
    if i > 0 {
      FirstThrowAt(server[1..], i - 1);
    }
  }

  lemma {:induction false} FirstThrowNone(server: seq<FetchOutcome>)
    requires forall j | 0 <= j < |server| :: server[j] != Threw
    ensures FirstThrow(server) == |server|
  {
    if |server| > 0 {
      FirstThrowNone(server[1..]);
    }
  }

  /**
   * Import posts every record in order and reports the number of records,
   * not the number accepted: when no POST throws the toast counts all of
   * them even if every response was not OK.
   */
  lemma ImportReportsSubmitted(records: seq<AssetCsv.ImportedAsset>, server: seq<FetchOutcome>)
    requires |records| == |server|
    requires forall j | 0 <= j < |server| :: server[j] != Threw
    ensures ImportSpec(records, server).posted == PayloadsUpTo(records, |records|)
    ensures ImportSpec(records, server).toast == ImportedToast(|records|)
    ensures ImportSpec(records, server).refetched
  {
    FirstThrowNone(server);
  }

  /** A throwing POST abandons the records after it, reports "Import failed" and does not refetch. */
  lemma ImportAbandonsOnThrow(records: seq<AssetCsv.ImportedAsset>, server: seq<FetchOutcome>, i: nat)
    requires |records| == |server| && i < |server| && server[i] == Threw
    requires forall j | 0 <= j < i :: server[j] != Threw
    ensures |ImportSpec(records, server).posted| == i + 1
    ensures ImportSpec(records, server).toast == ImportFailed
    ensures !ImportSpec(records, server).refetched
  {
    FirstThrowAt(server, i);
  }

  /** Each logged payload is one whose response was not OK, so logging never stops the loop early. */
  lemma {:induction false} LoggedAreNotOk(records: seq<AssetCsv.ImportedAsset>, server: seq<FetchOutcome>, n: nat)
    requires n <= |records| == |server|
    ensures |NotOkUpTo(records, server, n)| <= n
    ensures forall j | 0 <= j < n :: server[j] == NotOk ==> PayloadOf(FromImported(records[j])) in NotOkUpTo(records, server, n)
  {
    if n > 0 {
      LoggedAreNotOk(records, server, n - 1);
    }
  }

  // ---------------------------------------------------------------- search

  /**
   * The text part of the search for one asset: `None` when evaluating it
   * throws, which happens when the earlier fields do not match and
   * `assignedTo` is a number (`toLowerCase` is not defined on numbers).
   */
  function TextMatch(a: Asset, query: string): Option<bool>
  {
    if Contains(Lower(a.assetTag), query) then Some(true)
    else if a.serialNumber.Some? && Contains(Lower(a.serialNumber.value), query) then Some(true)
    else if Contains(Lower(a.model), query) then Some(true)
    else if Contains(Lower(a.category), query) then Some(true)
    else match a.assignedTo
      case None => Some(false)
      case Some(Named(s)) => Some(Contains(Lower(s), query))
      case Some(UserId(_)) => None
  }

  /** `!statusFilter || asset.status === statusFilter`. */
  predicate StatusPasses(a: Asset, statusFilter: Option<string>)
  {
    statusFilter.None? || statusFilter.value == "" || a.status == statusFilter.value
  }

  predicate Keeps(a: Asset, query: string, statusFilter: Option<string>)
  {
    TextMatch(a, query) == Some(true) && StatusPasses(a, statusFilter)
  }

  /** `handleSearch`: the filtered list, or `None` when the filter throws and the list is not updated. */
  function Search(assets: seq<Asset>, input: string, statusFilter: Option<string>): (r: Option<seq<Asset>>)
    ensures r.None? <==> exists k | 0 <= k < |assets| :: TextMatch(assets[k], Lower(input)).None?
  {
    var query := Lower(input);
    if exists k | 0 <= k < |assets| :: TextMatch(assets[k], query).None? then None
    else Some(Filter(assets, a => Keeps(a, query, statusFilter)))
  }

  /** The search keeps exactly the assets that match the lowercased query and the status filter. */
  lemma SearchKeeps(assets: seq<Asset>, input: string, statusFilter: Option<string>)
    requires Search(assets, input, statusFilter).Some?
    ensures var r := Search(assets, input, statusFilter).value;
      (forall k | 0 <= k < |r| :: r[k] in assets && Keeps(r[k], Lower(input), statusFilter))
      && (forall k | 0 <= k < |assets| :: Keeps(assets[k], Lower(input), statusFilter) ==> assets[k] in r)
  {
  }

  /**
   * The search keeps the list's order: an asset between two runs is shown
   * exactly when it matches the query and the status filter, and then
   * between the results of the run before it and of the run after it.
   */
  lemma SearchInOrder(before: seq<Asset>, x: Asset, after: seq<Asset>, input: string, statusFilter: Option<string>)
    requires Search(before + [x] + after, input, statusFilter).Some?
    ensures Search(before, input, statusFilter).Some? && Search(after, input, statusFilter).Some?
    ensures Search(before + [x] + after, input, statusFilter).value ==
      Search(before, input, statusFilter).value
      + (if Keeps(x, Lower(input), statusFilter) then [x] else [])
      + Search(after, input, statusFilter).value
  {
    var all := before + [x] + after;
    forall k | 0 <= k < |before| ensures TextMatch(before[k], Lower(input)).Some? {
      assert all[k] == before[k];
    }
    forall k | 0 <= k < |after| ensures TextMatch(after[k], Lower(input)).Some? {
      assert all[|before| + 1 + k] == after[k];
    }
    FilterAround(before, x, after, a => Keeps(a, Lower(input), statusFilter));
  }

  /** A matching tag decides the text test, whatever `assignedTo` holds. */
  lemma TagMatchWins(a: Asset, input: string)
    requires Contains(Lower(a.assetTag), Lower(input))
    ensures TextMatch(a, Lower(input)) == Some(true)
  {
  }

  /** With no status filter the empty query keeps every asset. */
  lemma EmptyQueryKeepsAll(assets: seq<Asset>)
    ensures Search(assets, "", None) == Some(assets)
  {
    forall k | 0 <= k < |assets| ensures Keeps(assets[k], Lower(""), None) {
      ContainsEmpty(Lower(assets[k].assetTag));
    }
    FilterAll(assets, a => Keeps(a, Lower(""), None));
  }

  // ---------------------------------------------------------------- badges

  const DefaultBadge := "bg-gray-100 text-gray-800"

  function StatusBadgeClass(status: Option<string>): string
  {
    match status
    case Some("deployed") => "bg-blue-100 text-blue-800"
    case Some("available") => "bg-green-100 text-green-800"
    case Some("maintenance") => "bg-yellow-100 text-yellow-800"
    case Some("decommissioned") => "bg-gray-100 text-gray-800"
    case Some("assigned") => "bg-indigo-100 text-indigo-800"
    case Some("returned") => "bg-purple-100 text-purple-800"
    case Some("resigned") => "bg-orange-100 text-orange-800"
    case Some("replacement") => "bg-teal-100 text-teal-800"
    case Some("defective") => "bg-red-100 text-red-800"
    case _ => DefaultBadge
  }

  const ListedStatuses: seq<string> := ["deployed", "available", "maintenance", "assigned", "returned", "resigned", "replacement", "defective"]

  /** Each listed status's class has its colour's initial as fourth letter. */
  lemma BadgeInitial(i: nat)
    requires i < |ListedStatuses|
    ensures |StatusBadgeClass(Some(ListedStatuses[i]))| > 3
    ensures StatusBadgeClass(Some(ListedStatuses[i]))[3] == "bgyipotr"[i]
    ensures StatusBadgeClass(Some(ListedStatuses[i])) != DefaultBadge
  {
  }

  /** The eight colour initials are pairwise different. */
  lemma InitialsDistinct(i: nat, j: nat)
    requires i < 8 && j < 8 && "bgyipotr"[i] == "bgyipotr"[j]
    ensures i == j
  {
  }

  /** A status outside the list, or none, falls to the default class. */
  lemma UnlistedBadge(s: Option<string>)
    requires s.None? || s.value !in ListedStatuses
    ensures StatusBadgeClass(s) == DefaultBadge
  {
    if s.Some? {
      assert ListedStatuses[0] == "deployed" && ListedStatuses[1] == "available";
      assert ListedStatuses[2] == "maintenance" && ListedStatuses[3] == "assigned";
      assert ListedStatuses[4] == "returned" && ListedStatuses[5] == "resigned";
      assert ListedStatuses[6] == "replacement" && ListedStatuses[7] == "defective";
    }
  }

  /** Eight statuses get classes of their own, distinct from each other and from the default; "decommissioned" shares the default with every unlisted status. */
  lemma BadgeClasses(s: Option<string>, t: Option<string>)
    ensures s == Some("decommissioned") ==> StatusBadgeClass(s) == DefaultBadge
    ensures (s.None? || s.value !in ListedStatuses) ==> StatusBadgeClass(s) == DefaultBadge
    ensures s.Some? && s.value in ListedStatuses ==> StatusBadgeClass(s) != DefaultBadge
    ensures s.Some? && t.Some? && s.value in ListedStatuses && t.value in ListedStatuses ==>
      (StatusBadgeClass(s) == StatusBadgeClass(t) <==> s == t)
  {
    if s.Some? && s.value in ListedStatuses {
      var i :| 0 <= i < |ListedStatuses| && ListedStatuses[i] == s.value;
      BadgeInitial(i);
      if t.Some? && t.value in ListedStatuses {
        var j :| 0 <= j < |ListedStatuses| && ListedStatuses[j] == t.value;
        BadgeInitial(j);
        if StatusBadgeClass(s) == StatusBadgeClass(t) {
          InitialsDistinct(i, j);
        }
      }
    } else {
      UnlistedBadge(s);
    }
  }
}
