/**
 * The VM inventory CSV mapping: each VM becomes a record of 21 named
 * columns for export, and each parsed row becomes a VM on import. The
 * CSV text itself is written and read by PapaParse, which is not part of
 * this model; a parsed row is the record of the 21 known columns, a
 * column the file lacks being `None`.
 */
module VmCsv {
  import opened Wrappers
  import opened Strings
  import opened Types

  /** The exported columns, in order. */
  const ExportColumns: seq<string> := [
    "startDate", "endDate", "validity", "hypervisor", "hostname", "hostModel", "hostIpAddress",
    "hostOS", "rack", "vmId", "vmName", "vmStatus", "vmIpAddress", "internetAccess", "vmOS",
    "vmOSVersion", "deployedBy", "user", "department", "jiraTicketNumber", "remarks"]

  /** One CSV record keyed by the column names above. */
  datatype CsvRow = CsvRow(
    startDate: Option<string>,
    endDate: Option<string>,
    validity: Option<string>,
    hypervisor: Option<string>,
    hostname: Option<string>,
    hostModel: Option<string>,
    hostIpAddress: Option<string>,
    hostOS: Option<string>,
    rack: Option<string>,
    vmId: Option<string>,
    vmName: Option<string>,
    vmStatus: Option<string>,
    vmIpAddress: Option<string>,
    internetAccess: Option<string>,
    vmOS: Option<string>,
    vmOSVersion: Option<string>,
    deployedBy: Option<string>,
    user: Option<string>,
    department: Option<string>,
    jiraTicketNumber: Option<string>,
    remarks: Option<string>)

  /** The 21 cells of a record in column order. */
  function CellsOf(r: CsvRow): (cells: seq<Option<string>>)
    ensures |cells| == |ExportColumns|
  {
    [r.startDate, r.endDate, r.validity, r.hypervisor, r.hostname, r.hostModel, r.hostIpAddress,
     r.hostOS, r.rack, r.vmId, r.vmName, r.vmStatus, r.vmIpAddress, r.internetAccess, r.vmOS,
     r.vmOSVersion, r.deployedBy, r.user, r.department, r.jiraTicketNumber, r.remarks]
  }

  /** The export record of one VM; only `remarks` can be undefined. */
  function ExportRecord(vm: VMInventory): (r: CsvRow)
    ensures forall k | 0 <= k < 20 :: CellsOf(r)[k].Some?
    ensures r.internetAccess == Some(if vm.internetAccess then "true" else "false")
  {
    CsvRow(Some(vm.startDate), Some(vm.endDate), Some(vm.validity), Some(vm.hypervisor),
      Some(vm.hostname), Some(vm.hostModel), Some(vm.hostIpAddress), Some(vm.hostOS), Some(vm.rack),
      Some(vm.vmId), Some(vm.vmName), Some(vm.vmStatus), Some(vm.vmIpAddress),
      Some(if vm.internetAccess then "true" else "false"), Some(vm.vmOS), Some(vm.vmOSVersion),
      Some(vm.deployedBy), Some(vm.user), Some(vm.department), Some(vm.jiraTicketNumber), vm.remarks)
  }

  function ExportRecords(vms: seq<VMInventory>): (rs: seq<CsvRow>)
    ensures |rs| == |vms| && forall i | 0 <= i < |vms| :: rs[i] == ExportRecord(vms[i])
  {
    seq(|vms|, i requires 0 <= i < |vms| => ExportRecord(vms[i]))
  }

  /** `id`, `createdAt` and `updatedAt` are not exported. */
  lemma ExportIgnoresBookkeeping(vm: VMInventory, id: string, created: string, updated: string)
    ensures ExportRecord(vm) == ExportRecord(vm.(id := id, createdAt := created, updatedAt := updated))
  {
  }

  /** The text one cell reads as: `row.x || d`. */
  function Cell(c: Option<string>, d: string): (t: string)
    ensures c.Some? && c.value != "" ==> t == c.value
    ensures (c.None? || c.value == "") ==> t == d
  {
    OrDefault(c, d)
  }

  /** `imported-<timestamp>-<index>`. */
  function ImportedId(now: nat, idx: nat): string
  {
    "imported-" + NatToString(now) + "-" + NatToString(idx)
  }

  /** The VM built from parsed row number `idx`; `now` is `Date.now()`, `stamp` the ISO time. */
  function ImportRow(row: CsvRow, idx: nat, now: nat, stamp: string): (vm: VMInventory)
    ensures vm.validity != "" && vm.vmStatus != "" && vm.remarks.Some?
    ensures vm.internetAccess <==> row.internetAccess == Some("true")
  {
    VMInventory(ImportedId(now, idx),
      Cell(row.startDate, ""), Cell(row.endDate, ""), Cell(row.validity, "available"),
      Cell(row.hypervisor, ""), Cell(row.hostname, ""), Cell(row.hostModel, ""),
      Cell(row.hostIpAddress, ""), Cell(row.hostOS, ""), Cell(row.rack, ""), Cell(row.vmId, ""),
      Cell(row.vmName, ""), Cell(row.vmStatus, "Running"), Cell(row.vmIpAddress, ""),
      row.internetAccess == Some("true"),
      Cell(row.vmOS, ""), Cell(row.vmOSVersion, ""), Cell(row.deployedBy, ""), Cell(row.user, ""),
      Cell(row.department, ""), Cell(row.jiraTicketNumber, ""), Some(Cell(row.remarks, "")),
      stamp, stamp)
  }

  /** The `complete` callback: one VM per parsed row, in order. */
  function ImportRows(rows: seq<CsvRow>, clock: nat -> nat, stamp: nat -> string): (vms: seq<VMInventory>)
    ensures |vms| == |rows|
    ensures forall i | 0 <= i < |rows| :: vms[i] == ImportRow(rows[i], i, clock(i), stamp(i))
  {
    seq(|rows|, i requires 0 <= i < |rows| => ImportRow(rows[i], i, clock(i), stamp(i)))
  }

  /** Ids of one import are distinct, even when the clock moves between rows. */
  lemma ImportedIdsDistinct(rows: seq<CsvRow>, clock: nat -> nat, stamp: nat -> string, i: nat, j: nat)
    requires i < j < |rows|
    ensures ImportRows(rows, clock, stamp)[i].id != ImportRows(rows, clock, stamp)[j].id
  {
    ImportedIdInjective(clock(i), i, clock(j), j);
  }

  lemma ImportedIdInjective(t1: nat, i1: nat, t2: nat, i2: nat)
    requires i1 != i2
    ensures ImportedId(t1, i1) != ImportedId(t2, i2)
  {
    var a := NatToString(t1) + "-" + NatToString(i1);
    var b := NatToString(t2) + "-" + NatToString(i2);
    assert ImportedId(t1, i1) == "imported-" + a;
    assert ImportedId(t2, i2) == "imported-" + b;
    if a == b {
      NatToStringFree(t1, '-'); NatToStringFree(i1, '-');
      NatToStringFree(t2, '-'); NatToStringFree(i2, '-');
      SplitJoin([NatToString(t1), NatToString(i1)], '-');
      SplitJoin([NatToString(t2), NatToString(i2)], '-');
      assert Join([NatToString(t1), NatToString(i1)], '-') == a;
      assert Join([NatToString(t2), NatToString(i2)], '-') == b;
      NatToStringInjective(i1, i2);
      assert false;
    }
    assert ImportedId(t1, i1)[9..] == a;
    assert ImportedId(t2, i2)[9..] == b;
  }

  /** Parsed cells missing or empty default to "", except validity, status and internet access. */
  lemma ImportDefaults(idx: nat, now: nat, stamp: string)
    ensures var vm := ImportRow(CsvRow(None, None, None, None, None, None, None, None, None, None,
        None, None, None, None, None, None, None, None, None, None, None), idx, now, stamp);
      vm.validity == "available" && vm.vmStatus == "Running" && !vm.internetAccess
      && vm.hostname == "" && vm.vmName == "" && vm.remarks == Some("")
  {
  }

  /** What PapaParse hands back for an exported record: undefined is written and read back as "". */
  function Reparsed(r: CsvRow): CsvRow
  {
    r.(remarks := Some(r.remarks.GetOr("")))
  }

  /**
   * Export then import keeps all 21 columns of a VM whose validity and
   * status are non-empty; absent remarks come back as "".
   */
  lemma RoundTrip(vm: VMInventory, idx: nat, now: nat, stamp: string)
    requires vm.validity != "" && vm.vmStatus != ""
    ensures ImportRow(Reparsed(ExportRecord(vm)), idx, now, stamp)
         == vm.(id := ImportedId(now, idx), remarks := Some(vm.remarks.GetOr("")),
                createdAt := stamp, updatedAt := stamp)
  {
  }

  /** The parser's callbacks: the chosen file parsed into rows, a parser error, or no file. */
  datatype ParseEvent = NoFileChosen | ParseComplete(rows: seq<CsvRow>) | ParseError

  /** `handleFileUpload`: the argument `onImport` is called with, if it is called at all. */
  function OnImportArgument(ev: ParseEvent, clock: nat -> nat, stamp: nat -> string): (r: Option<seq<VMInventory>>)
    ensures ev.ParseComplete? <==> r.Some?
    ensures ev.ParseComplete? ==> |r.value| == |ev.rows|
  {
    match ev
    case NoFileChosen => None
    case ParseError => None
    case ParseComplete(rows) => Some(ImportRows(rows, clock, stamp))
  }

  /** A file with no data rows still calls `onImport([])`. */
  lemma NoRowsStillImports(clock: nat -> nat, stamp: nat -> string)
    ensures OnImportArgument(ParseComplete([]), clock, stamp) == Some([])
  {
  }
}
