/**
 * The `/api/vm-inventory` collection endpoint: POST validates the two
 * dates, fills in defaults and creates a record; GET lists the records.
 * The Prisma store is a class whose calls may fail.
 */
module VmInventoryApi {
  import opened Wrappers
  import opened JsValues
  import opened Http

  /** The record data handed to `prisma.vMInventory.create`; dates are instants in ms. */
  datatype VmData = VmData(
    startDate: int,
    endDate: int,
    validity: string,
    hypervisor: string,
    hostname: string,
    hostModel: string,
    hostIpAddress: string,
    hostOS: string,
    rack: string,
    vmId: string,
    vmName: string,
    vmStatus: string,
    vmIpAddress: string,
    internetAccess: bool,
    vmOS: string,
    vmOSVersion: string,
    deployedBy: string,
    user: string,
    department: string,
    jiraTicketNumber: string,
    remarks: string)

  /** A stored record: the data and the id the store gave it. */
  datatype StoredVm = StoredVm(id: nat, data: VmData)

  /**
   * `body.x ? new Date(body.x) : null` followed by the `isNaN(getTime())`
   * test: a falsy value or a value `parseDate` cannot read gives no date.
   */
  function DateOf(v: JsValue, parseDate: JsValue -> Option<int>): (d: Option<int>)
    ensures !Truthy(v) ==> d.None?
    ensures Truthy(v) ==> d == parseDate(v)
  {
    if Truthy(v) then parseDate(v) else None
  }

  /**
   * `body.x || d` for a string column. A truthy value that is not a string
   * is passed through, and the store then refuses it (`None`).
   */
  function TextOr(v: JsValue, d: string): (r: Option<string>)
    ensures !Truthy(v) ==> r == Some(d)
    ensures Truthy(v) && v.JStr? ==> r == Some(v.s)
    ensures Truthy(v) && !v.JStr? ==> r.None?
  {
    if !Truthy(v) then Some(d) else if v.JStr? then Some(v.s) else None
  }

  /** The text columns in the order the handler lists them, with their defaults. */
  const TextColumns: seq<(string, string)> := [
    ("validity", "available"), ("hypervisor", ""), ("hostname", ""), ("hostModel", ""),
    ("hostIpAddress", ""), ("hostOS", ""), ("rack", ""), ("vmId", ""), ("vmName", ""),
    ("vmStatus", "Running"), ("vmIpAddress", ""), ("vmOS", ""), ("vmOSVersion", ""),
    ("deployedBy", ""), ("user", ""), ("department", ""), ("jiraTicketNumber", ""), ("remarks", "")]

  /** Every text column of the body is acceptable to the store. */
  predicate TextsAccepted(body: map<string, JsValue>)
  {
    forall i | 0 <= i < |TextColumns| :: TextOr(Get(body, TextColumns[i].0), TextColumns[i].1).Some?
  }

  function Text(body: map<string, JsValue>, i: nat): string
    requires i < |TextColumns| && TextsAccepted(body)
  {
    TextOr(Get(body, TextColumns[i].0), TextColumns[i].1).value
  }

  /** The `data` object of the create call, or `None` when the store would refuse a column. */
  function CreateData(body: map<string, JsValue>, start: int, end: int): (r: Option<VmData>)
    ensures r.Some? <==> TextsAccepted(body)
  {
    if !TextsAccepted(body) then None
    else Some(VmData(start, end, Text(body, 0), Text(body, 1), Text(body, 2), Text(body, 3), Text(body, 4),
      Text(body, 5), Text(body, 6), Text(body, 7), Text(body, 8), Text(body, 9), Text(body, 10),
      Truthy(Get(body, "internetAccess")), Text(body, 11), Text(body, 12), Text(body, 13), Text(body, 14),
      Text(body, 15), Text(body, 16), Text(body, 17)))
  }

  /** The JSON bodies the endpoint answers with. */
  datatype Json = MessageBody(message: string) | ErrorBody(message: string, error: string)
                | RecordBody(vm: StoredVm) | ListBody(vms: seq<StoredVm>)

  datatype Response = Response(status: nat, body: Json)

  const InvalidDates := Response(400, MessageBody("Invalid or missing dates"))
  const NotAllowed := Response(405, MessageBody("Method Not Allowed"))

  function InternalError(message: string): Response
  {
    Response(500, ErrorBody("Internal Server Error", message))
  }

  /**
   * The Prisma model: the records, the next id, and the error every call
   * throws while the database is out of reach. `validationError` is the
   * message of a refused create.
   */
  class VmStore {
    var records: seq<StoredVm>
    var nextId: nat
    const fault: Option<string>
    const validationError: string

    constructor(fault: Option<string>, validationError: string)
      ensures records == [] && nextId == 1 && this.fault == fault && this.validationError == validationError
    {
      records := [];
      nextId := 1;
      this.fault := fault;
      this.validationError := validationError;
    }

    /** `prisma.vMInventory.create({ data })`. */
    method Create(data: Option<VmData>) returns (r: Result<StoredVm, string>)
      modifies this
      ensures fault.Some? ==> r == Failure(fault.value) && records == old(records) && nextId == old(nextId)
      ensures fault.None? && data.None? ==> r == Failure(validationError) && records == old(records) && nextId == old(nextId)
      ensures fault.None? && data.Some? ==>
        r == Success(StoredVm(old(nextId), data.value))
        && records == old(records) + [r.value] && nextId == old(nextId) + 1
    {
      if fault.Some? {
        return Failure(fault.value);
      }
      if data.None? {
        return Failure(validationError);
      }
      var vm := StoredVm(nextId, data.value);
      records := records + [vm];
      nextId := nextId + 1;
      r := Success(vm);
    }

    /** `prisma.vMInventory.findMany()`. */
    method FindMany() returns (r: Result<seq<StoredVm>, string>)
      ensures fault.Some? ==> r == Failure(fault.value)
      ensures fault.None? ==> r == Success(records)
    {
      if fault.Some? {
        return Failure(fault.value);
      }
      r := Success(records);
    }
  }

  /** The dates of a POST body, when both are present and readable. */
  function Dates(body: map<string, JsValue>, parseDate: JsValue -> Option<int>): Option<(int, int)>
  {
    var start := DateOf(Get(body, "startDate"), parseDate);
    var end := DateOf(Get(body, "endDate"), parseDate);
    if start.Some? && end.Some? then Some((start.value, end.value)) else None
  }

  /**
   * The reply for a request against a store holding `records` whose next
   * id is `nextId`; the record created, if any, is the one in the reply.
   */
  function Reply(httpMethod: HttpMethod, body: map<string, JsValue>, parseDate: JsValue -> Option<int>,
                 records: seq<StoredVm>, nextId: nat, fault: Option<string>, validationError: string): Response
  {
    if httpMethod == POST then
      match Dates(body, parseDate)
      case None => InvalidDates
      case Some((start, end)) =>
        if fault.Some? then InternalError(fault.value)
        else match CreateData(body, start, end)
          case None => InternalError(validationError)
          case Some(data) => Response(201, RecordBody(StoredVm(nextId, data)))
    else if httpMethod == GET then
      if fault.Some? then InternalError(fault.value) else Response(200, ListBody(records))
    else NotAllowed
  }

  /** The handler, with `parseDate` standing for `new Date(v)` (`None` for an invalid date). */
  method Handler(httpMethod: HttpMethod, body: map<string, JsValue>, store: VmStore, parseDate: JsValue -> Option<int>)
    returns (res: Response)
    modifies store
    ensures res == Reply(httpMethod, body, parseDate, old(store.records), old(store.nextId), store.fault, store.validationError)
    ensures res.status == 201 ==> store.records == old(store.records) + [res.body.vm] && store.nextId == old(store.nextId) + 1
    ensures res.status != 201 ==> store.records == old(store.records) && store.nextId == old(store.nextId)
  {
    if httpMethod == POST {
      var start := DateOf(Get(body, "startDate"), parseDate);
      var end := DateOf(Get(body, "endDate"), parseDate);
      if start.None? || end.None? {
        return InvalidDates;
      }
      var created := store.Create(CreateData(body, start.value, end.value));
      if created.Failure? {
        return InternalError(created.error);
      }
      return Response(201, RecordBody(created.value));
    }
    if httpMethod == GET {
      var listed := store.FindMany();
      if listed.Failure? {
        return InternalError(listed.error);
      }
      return Response(200, ListBody(listed.value));
    }
    return NotAllowed;
  }

  /** A POST is refused with 400 exactly when a date is missing, falsy or unreadable, before the store is asked. */
  lemma InvalidDatesIff(body: map<string, JsValue>, parseDate: JsValue -> Option<int>,
                        records: seq<StoredVm>, nextId: nat, fault: Option<string>, validationError: string)
    ensures Reply(POST, body, parseDate, records, nextId, fault, validationError) == InvalidDates
      <==> !Truthy(Get(body, "startDate")) || parseDate(Get(body, "startDate")).None?
           || !Truthy(Get(body, "endDate")) || parseDate(Get(body, "endDate")).None?
  {
    var r := Reply(POST, body, parseDate, records, nextId, fault, validationError);
    if Dates(body, parseDate).Some? {
      assert r.status != 400;
    }
  }

  /** The dates are not compared: an end before the start is stored as given. */
  lemma EndBeforeStartAccepted(body: map<string, JsValue>, parseDate: JsValue -> Option<int>,
                               records: seq<StoredVm>, nextId: nat, validationError: string)
    requires Dates(body, parseDate).Some? && Dates(body, parseDate).value.1 < Dates(body, parseDate).value.0
    requires TextsAccepted(body)
    ensures var r := Reply(POST, body, parseDate, records, nextId, None, validationError);
      r.status == 201 && r.body.vm.data.endDate < r.body.vm.data.startDate
  {
  }

  /** An absent body gets every default: "available", "Running", no internet access and "" elsewhere. */
  lemma EmptyBodyDefaults(start: int, end: int)
    ensures var d := CreateData(map[], start, end);
      d == Some(VmData(start, end, "available", "", "", "", "", "", "", "", "", "Running", "", false,
                       "", "", "", "", "", "", ""))
  {
    assert TextsAccepted(map[]);
  }

  /** `!!body.internetAccess`: the string "false" is truthy, so it grants access. */
  lemma FalseTextGrantsAccess(body: map<string, JsValue>, start: int, end: int)
    requires TextsAccepted(body) && Get(body, "internetAccess") == JStr("false")
    ensures CreateData(body, start, end).value.internetAccess
  {
  }

  /** A given non-empty text is stored as given; only falsy values are defaulted. */
  lemma GivenTextKept(body: map<string, JsValue>, start: int, end: int, i: nat)
    requires TextsAccepted(body) && i < |TextColumns|
    requires Get(body, TextColumns[i].0).JStr? && Get(body, TextColumns[i].0).s != ""
    ensures Text(body, i) == Get(body, TextColumns[i].0).s
  {
  }

  /** A truthy number in a text column makes the store refuse the create, so the POST ends in 500. */
  lemma NumberInTextRefused(body: map<string, JsValue>, parseDate: JsValue -> Option<int>,
                            records: seq<StoredVm>, nextId: nat, validationError: string, i: nat)
    requires Dates(body, parseDate).Some? && i < |TextColumns|
    requires Get(body, TextColumns[i].0).JNum? && Get(body, TextColumns[i].0).n != 0
    ensures Reply(POST, body, parseDate, records, nextId, None, validationError) == InternalError(validationError)
  {
    assert !TextOr(Get(body, TextColumns[i].0), TextColumns[i].1).Some?;
  }
}
