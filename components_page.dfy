/**
 * The components page: the list loaded from `/api/components`, search,
 * the add and edit form, save and delete through the API, and the status
 * badge. The form is a partial component, a JSON object under construction.
 */
module ComponentsPage {
  import opened Wrappers
  import opened Strings
  import opened Types
  import opened Lists
  import opened JsValues
  import opened Http

  // ---------------------------------------------------------------- search

  predicate Matches(c: Component, query: string)
  {
    Contains(Lower(c.name), query) || Contains(Lower(c.serialNumber), query)
    || Contains(Lower(c.model), query) || Contains(Lower(c.category), query)
  }

  /** `handleSearch`: the lowercased input, blank after trimming, keeps every component. */
  function Search(components: seq<Component>, input: string): seq<Component>
  {
    var query := Lower(input);
    if IsBlank(query) then components else Filter(components, c => Matches(c, query))
  }

  /** A blank query keeps all; otherwise exactly the matching components remain. */
  lemma SearchKeeps(components: seq<Component>, input: string)
    ensures IsBlank(Lower(input)) ==> Search(components, input) == components
    ensures !IsBlank(Lower(input)) ==>
      (forall k | 0 <= k < |Search(components, input)| ::
         Search(components, input)[k] in components && Matches(Search(components, input)[k], Lower(input)))
      && (forall k | 0 <= k < |components| :: Matches(components[k], Lower(input)) ==> components[k] in Search(components, input))
  {
  }

  /**
   * The search keeps the list's order: a component between two runs is shown
   * exactly when the query is blank or it matches, and then between the
   * results of the run before it and of the run after it.
   */
  lemma SearchInOrder(before: seq<Component>, x: Component, after: seq<Component>, input: string)
    ensures Search((before + [x] + after), input) ==
      Search(before, input) + (if IsBlank(Lower(input)) || Matches(x, Lower(input)) then [x] else []) + Search(after, input)
  {
    if !IsBlank(Lower(input)) {
      FilterAround(before, x, after, c => Matches(c, Lower(input)));
    }
  }

  // ---------------------------------------------------------------- the form

  /** A partial component as the form holds it: property name to value. */
  type Form = map<string, JsValue>

  /** The keys every blank form starts with, all empty strings except the two selects. */
  const BlankKeys: seq<string> := ["name", "type", "serialNumber", "model", "manufacturer", "capacitySpecs"]

  /** The form `handleAddComponent` installs: blank text fields, category "cpu", status "available". */
  function AddForm(): (f: Form)
    ensures forall k | k in BlankKeys :: k in f && f[k] == JStr("")
    ensures f.Keys == set k | k in BlankKeys + ["category", "status"]
    ensures f["category"] == JStr("cpu") && f["status"] == JStr("available")
  {
    map["name" := JStr(""), "type" := JStr(""), "serialNumber" := JStr(""), "model" := JStr(""),
        "manufacturer" := JStr(""), "capacitySpecs" := JStr(""), "category" := JStr("cpu"),
        "status" := JStr("available")]
  }

  /** The form on first render: the add form plus blank assignment fields. */
  function InitialForm(): (f: Form)
    ensures forall k | k in AddForm() :: k in f && f[k] == AddForm()[k]
    ensures forall k | k in ["assignedTo", "releasedBy", "dateReleased", "returnedTo", "dateReturned"] ::
      k in f && f[k] == JStr("")
  {
    AddForm()["assignedTo" := JStr("")]["releasedBy" := JStr("")]["dateReleased" := JStr("")]
      ["returnedTo" := JStr("")]["dateReturned" := JStr("")]
  }

  function OptionalText(s: Option<string>): (v: JsValue)
    ensures s.None? ==> v == JUndefined
    ensures s.Some? ==> v == JStr(s.value)
  {
    if s.Some? then JStr(s.value) else JUndefined
  }

  /** `setFormData(component)`: the edited component as an object; absent optionals are undefined. */
  function ComponentForm(c: Component): Form
  {
    map["id" := JStr(c.id), "name" := JStr(c.name), "type" := JStr(c.kind), "category" := JStr(c.category),
        "model" := JStr(c.model), "manufacturer" := JStr(c.manufacturer), "serialNumber" := JStr(c.serialNumber),
        "capacitySpecs" := OptionalText(c.capacitySpecs), "purchaseDate" := JStr(c.purchaseDate),
        "purchaseCost" := JNum(c.purchaseCost), "status" := JStr(c.status), "assignedTo" := OptionalText(c.assignedTo),
        "assetId" := OptionalText(c.assetId), "releasedBy" := OptionalText(c.releasedBy),
        "dateReleased" := OptionalText(c.dateReleased), "returnedTo" := OptionalText(c.returnedTo),
        "dateReturned" := OptionalText(c.dateReturned), "notes" := OptionalText(c.notes)]
  }

  /** `handleChange` and `handleSelectChange`: one property takes the new text. */
  function WithField(f: Form, name: string, value: string): (g: Form)
    ensures name in g && g[name] == JStr(value)
    ensures g.Keys == f.Keys + {name}
    ensures forall k | k in f && k != name :: g[k] == f[k]
  {
    f[name := JStr(value)]
  }

  /**
   * The save payload: the form with a falsy `purchaseDate` replaced by
   * `today` (YYYY-MM-DD) and a falsy `purchaseCost` by 0.
   */
  function Payload(f: Form, today: string): Form
  {
    var date := Get(f, "purchaseDate");
    var cost := Get(f, "purchaseCost");
    f["purchaseDate" := if Truthy(date) then date else JStr(today)]
     ["purchaseCost" := if Truthy(cost) then cost else JNum(0)]
  }

  /** The two defaults, and every other property passed through as it was. */
  lemma PayloadDefaults(f: Form, today: string)
    ensures var p := Payload(f, today);
      p.Keys == f.Keys + {"purchaseDate", "purchaseCost"}
      && p["purchaseDate"] == (if Truthy(Get(f, "purchaseDate")) then f["purchaseDate"] else JStr(today))
      && p["purchaseCost"] == (if Truthy(Get(f, "purchaseCost")) then f["purchaseCost"] else JNum(0))
      && (forall k | k in f && k != "purchaseDate" && k != "purchaseCost" :: p[k] == f[k])
  {
  }

  /** A second defaulting changes nothing once the date is a real date. */
  lemma PayloadIdempotent(f: Form, today: string, later: string)
    requires today != ""
    ensures Payload(Payload(f, today), later) == Payload(f, today)
  {
  }

  /** A cost typed into the form is the text "0", which is truthy and sent as typed. */
  lemma TypedZeroCostKept(f: Form, today: string)
    requires Get(f, "purchaseCost") == JStr("0")
    ensures Payload(f, today)["purchaseCost"] == JStr("0")
  {
  }

  /** An added component's payload carries today's date and cost 0. */
  lemma AddPayload(today: string)
    requires today != ""
    ensures Payload(AddForm(), today)["purchaseDate"] == JStr(today)
    ensures Payload(AddForm(), today)["purchaseCost"] == JNum(0)
    ensures Payload(AddForm(), today)["category"] == JStr("cpu")
  {
  }

  // ---------------------------------------------------------------- save and delete

  /** What the save's `fetch` and `res.json()` give; a non-OK response throws in the handler. */
  datatype SaveOutcome = SavedRecord(record: Component) | SaveFailed

  datatype Request = Request(httpMethod: HttpMethod, url: string, body: Option<Form>)

  function SaveRequest(current: Option<Component>, f: Form, today: string): (r: Request)
    ensures current.Some? ==> r.httpMethod == PUT && r.url == "/api/components/" + current.value.id
    ensures current.None? ==> r.httpMethod == POST && r.url == "/api/components"
    ensures r.body == Some(Payload(f, today))
  {
    if current.Some? then Request(PUT, "/api/components/" + current.value.id, Some(Payload(f, today)))
    else Request(POST, "/api/components", Some(Payload(f, today)))
  }

  /** The list after a successful save: an edit replaces the records with the returned id, an add appends it. */
  function AfterSave(components: seq<Component>, editing: bool, saved: Component): seq<Component>
  {
    if editing then MapWhere(components, (c: Component) => c.id, saved.id, _ => saved)
    else components + [saved]
  }

  /** An edit swaps in the returned record where the ids agree and leaves every other record. */
  lemma EditSwapsById(components: seq<Component>, saved: Component)
    ensures var r := AfterSave(components, true, saved);
      |r| == |components|
      && (forall k | 0 <= k < |r| :: r[k] == if components[k].id == saved.id then saved else components[k])
  {
  }

  /** An add keeps the list and puts the returned record last. */
  lemma AddAppends(components: seq<Component>, saved: Component)
    ensures var r := AfterSave(components, false, saved);
      |r| == |components| + 1 && r[..|components|] == components && r[|components|] == saved
  {
  }

  /** After a delete no component with the id is left, and every other component is. */
  lemma DeleteRemovesId(components: seq<Component>, id: string)
    ensures var r := RemoveWhere(components, (c: Component) => c.id, id);
      (forall k | 0 <= k < |r| :: r[k].id != id && r[k] in components)
      && (forall k | 0 <= k < |components| && components[k].id != id :: components[k] in r)
  {
  }

  // ---------------------------------------------------------------- badges

  const DefaultBadge := "bg-gray-100 text-gray-800"

  const BadgeStatuses: seq<string> := ["deployed", "available", "maintenance", "returned", "borrowed", "permanent"]

  function StatusBadgeClass(status: string): string
  {
    match status
    case "deployed" => "bg-blue-100 text-blue-800"
    case "available" => "bg-green-100 text-green-800"
    case "maintenance" => "bg-yellow-100 text-yellow-800"
    case "decommissioned" => DefaultBadge
    case "returned" => "bg-purple-100 text-purple-800"
    case "borrowed" => "bg-indigo-100 text-indigo-800"
    case "permanent" => "bg-teal-100 text-teal-800"
    case _ => DefaultBadge
  }

  /** Each listed status's class has its colour's initial as fourth letter; green, which shares gray's, differs from gray at the sixth. */
  lemma BadgeInitial(i: nat)
    requires i < |BadgeStatuses|
    ensures |StatusBadgeClass(BadgeStatuses[i])| > 5
    ensures StatusBadgeClass(BadgeStatuses[i])[3] == "bgypit"[i]
    ensures StatusBadgeClass(BadgeStatuses[i])[5] != DefaultBadge[5] || i != 1
  {
  }

  /** Six statuses get classes of their own, distinct from each other and from gray. */
  lemma BadgeClasses(s: string, t: string)
    requires s in BadgeStatuses && t in BadgeStatuses
    ensures StatusBadgeClass(s) != DefaultBadge
    ensures StatusBadgeClass(s) == StatusBadgeClass(t) <==> s == t
  {
    var i :| 0 <= i < |BadgeStatuses| && BadgeStatuses[i] == s;
    var j :| 0 <= j < |BadgeStatuses| && BadgeStatuses[j] == t;
    BadgeInitial(i);
    BadgeInitial(j);
    assert DefaultBadge[3] == 'g';
    if StatusBadgeClass(s) == StatusBadgeClass(t) {
      assert "bgypit"[i] == "bgypit"[j];
    }
  }

  /** "decommissioned" and every unlisted status are gray. */
  lemma OtherStatusesGray(s: string)
    requires s !in BadgeStatuses
    ensures StatusBadgeClass(s) == DefaultBadge
  {
  }

  // ---------------------------------------------------------------- the page state

  class Page {
    var loading: bool
    var components: seq<Component>
    var filtered: seq<Component>
    var current: Option<Component>
    var form: Form
    var searchQuery: string
    var deleteDialogOpen: bool

    constructor()
      ensures loading && components == [] && filtered == [] && current.None?
      ensures form == InitialForm() && searchQuery == "" && !deleteDialogOpen
    {
      loading := true;
      components := [];
      filtered := [];
      current := None;
      form := InitialForm();
      searchQuery := "";
      deleteDialogOpen := false;
    }

    /** The mount effect: `None` stands for a failed fetch; loading ends either way. */
    method Load(data: Option<seq<Component>>)
      modifies this
      ensures !loading
      ensures data.Some? ==> components == data.value && filtered == data.value
      ensures data.None? ==> components == old(components) && filtered == old(filtered)
      ensures current == old(current) && form == old(form) && searchQuery == old(searchQuery)
      ensures deleteDialogOpen == old(deleteDialogOpen)
    {
      if data.Some? {
        components := data.value;
        filtered := data.value;
      }
      loading := false;
    }

    method HandleSearch(input: string)
      modifies this
      ensures searchQuery == Lower(input) && filtered == Search(components, input)
      ensures components == old(components) && current == old(current) && form == old(form)
      ensures loading == old(loading) && deleteDialogOpen == old(deleteDialogOpen)
    {
      searchQuery := Lower(input);
      if IsBlank(searchQuery) {
        filtered := components;
      } else {
        var q := searchQuery;
        filtered := Filter(components, c => Matches(c, q));
      }
    }

    method HandleAddComponent()
      modifies this
      ensures current.None? && form == AddForm()
      ensures components == old(components) && filtered == old(filtered) && searchQuery == old(searchQuery)
      ensures loading == old(loading) && deleteDialogOpen == old(deleteDialogOpen)
    {
      current := None;
      form := AddForm();
    }

    method HandleEditComponent(c: Component)
      modifies this
      ensures current == Some(c) && form == ComponentForm(c)
      ensures components == old(components) && filtered == old(filtered) && searchQuery == old(searchQuery)
      ensures loading == old(loading) && deleteDialogOpen == old(deleteDialogOpen)
    {
      current := Some(c);
      form := ComponentForm(c);
    }

    method HandleChange(name: string, value: string)
      modifies this
      ensures form == WithField(old(form), name, value)
      ensures components == old(components) && filtered == old(filtered) && current == old(current)
      ensures searchQuery == old(searchQuery) && loading == old(loading) && deleteDialogOpen == old(deleteDialogOpen)
    {
      form := WithField(form, name, value);
    }

    method HandleDeleteComponent(c: Component)
      modifies this
      ensures current == Some(c) && deleteDialogOpen
      ensures components == old(components) && filtered == old(filtered) && form == old(form)
      ensures searchQuery == old(searchQuery) && loading == old(loading)
    {
      current := Some(c);
      deleteDialogOpen := true;
    }

    /**
     * `confirmDelete`: the DELETE's status is not looked at; only a thrown
     * fetch keeps the record. The dialog closes either way.
     */
    method ConfirmDelete(outcome: FetchOutcome) returns (request: Option<Request>)
      modifies this
      ensures old(current).None? ==>
        request.None? && components == old(components) && filtered == old(filtered) && deleteDialogOpen == old(deleteDialogOpen)
      ensures old(current).Some? ==>
        request == Some(Request(DELETE, "/api/components/" + old(current).value.id, None)) && !deleteDialogOpen
      ensures old(current).Some? && outcome != Threw ==>
        components == RemoveWhere(old(components), (c: Component) => c.id, old(current).value.id) && filtered == components
      ensures old(current).Some? && outcome == Threw ==> components == old(components) && filtered == old(filtered)
      ensures current == old(current) && form == old(form) && searchQuery == old(searchQuery) && loading == old(loading)
    {
      if current.None? {
        return None;
      }
      request := Some(Request(DELETE, "/api/components/" + current.value.id, None));
      if outcome != Threw {
        components := RemoveWhere(components, (c: Component) => c.id, current.value.id);
        filtered := components;
      }
      deleteDialogOpen := false;
    }

    /** `handleSaveComponent`, with `today` the current date as YYYY-MM-DD; a failure changes nothing. */
    method HandleSaveComponent(outcome: SaveOutcome, today: string) returns (request: Request)
      modifies this
      ensures request == SaveRequest(current, form, today)
      ensures outcome.SavedRecord? ==>
        components == AfterSave(old(components), current.Some?, outcome.record) && filtered == components
      ensures outcome.SaveFailed? ==> components == old(components) && filtered == old(filtered)
      ensures current == old(current) && form == old(form) && searchQuery == old(searchQuery)
      ensures loading == old(loading) && deleteDialogOpen == old(deleteDialogOpen)
    {
      request := SaveRequest(current, form, today);
      if outcome.SavedRecord? {
        components := AfterSave(components, current.Some?, outcome.record);
        filtered := components;
      }
    }
  }
}
