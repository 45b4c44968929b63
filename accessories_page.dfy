/**
 * The accessories page: the list loaded from `/api/accessories`, search,
 * save and delete through the API, the CSV export and the status badge.
 */
module AccessoriesPage {
  import opened Wrappers
  import opened Strings
  import opened Types
  import opened Lists
  import opened JsValues
  import opened Http

  // ---------------------------------------------------------------- search

  /** `a.model?.toLowerCase().includes(q)`: an absent optional field matches nothing. */
  predicate OptionalContains(s: Option<string>, query: string)
  {
    s.Some? && Contains(Lower(s.value), query)
  }

  predicate Matches(a: Accessory, query: string)
  {
    Contains(Lower(a.name), query) || OptionalContains(a.model, query)
    || Contains(Lower(a.category), query) || OptionalContains(a.manufacturer, query)
  }

  function Search(accessories: seq<Accessory>, input: string): seq<Accessory>
  {
    var query := Lower(input);
    if IsBlank(query) then accessories else Filter(accessories, a => Matches(a, query))
  }

  /** A blank query keeps all; otherwise exactly the matching accessories remain. */
  lemma SearchKeeps(accessories: seq<Accessory>, input: string)
    ensures IsBlank(Lower(input)) ==> Search(accessories, input) == accessories
    ensures !IsBlank(Lower(input)) ==>
      (forall k | 0 <= k < |Search(accessories, input)| ::
         Search(accessories, input)[k] in accessories && Matches(Search(accessories, input)[k], Lower(input)))
      && (forall k | 0 <= k < |accessories| :: Matches(accessories[k], Lower(input)) ==> accessories[k] in Search(accessories, input))
  {
  }

  /**
   * The search keeps the list's order: a accessory between two runs is shown
   * exactly when the query is blank or it matches, and then between the
   * results of the run before it and of the run after it.
   */
  lemma SearchInOrder(before: seq<Accessory>, x: Accessory, after: seq<Accessory>, input: string)
    ensures Search((before + [x] + after), input) ==
      Search(before, input) + (if IsBlank(Lower(input)) || Matches(x, Lower(input)) then [x] else []) + Search(after, input)
  {
    if !IsBlank(Lower(input)) {
      FilterAround(before, x, after, a => Matches(a, Lower(input)));
    }
  }

  /** An accessory without model and manufacturer is found by its name or category only. */
  lemma MissingOptionalsNeverMatch(a: Accessory, query: string)
    requires a.model.None? && a.manufacturer.None?
    ensures Matches(a, query) <==> Contains(Lower(a.name), query) || Contains(Lower(a.category), query)
  {
  }

  // ---------------------------------------------------------------- save and delete

  /** What a save's `fetch` and `res.json()` give: the saved record, or a failure of either step. */
  datatype SaveOutcome = SavedRecord(record: Accessory) | SaveFailed

  datatype Request = Request(httpMethod: HttpMethod, url: string)

  function SaveRequest(current: Option<Accessory>): (r: Request)
    ensures current.Some? ==> r == Request(PUT, "/api/accessories/" + IntToString(current.value.id))
    ensures current.None? ==> r == Request(POST, "/api/accessories")
  {
    if current.Some? then Request(PUT, "/api/accessories/" + IntToString(current.value.id))
    else Request(POST, "/api/accessories")
  }

  /** The list after a successful save: an edit replaces the records with the returned id, an add appends it. */
  function AfterSave(accessories: seq<Accessory>, editing: bool, saved: Accessory): seq<Accessory>
  {
    if editing then MapWhere(accessories, (a: Accessory) => a.id, saved.id, _ => saved)
    else accessories + [saved]
  }

  /** An edit swaps in the returned record where the ids agree and leaves every other record. */
  lemma EditSwapsById(accessories: seq<Accessory>, saved: Accessory)
    ensures var r := AfterSave(accessories, true, saved);
      |r| == |accessories|
      && (forall k | 0 <= k < |r| :: r[k] == if accessories[k].id == saved.id then saved else accessories[k])
  {
  }

  /** The id matched is the one the server returns: if it names no record, an edit changes nothing. */
  lemma EditOfUnknownIdIsNoOp(accessories: seq<Accessory>, saved: Accessory)
    requires forall k | 0 <= k < |accessories| :: accessories[k].id != saved.id
    ensures AfterSave(accessories, true, saved) == accessories
  {
  }

  // ---------------------------------------------------------------- export

  const Headers: seq<string> := ["ID", "Name", "Category", "Model", "Manufacturer", "Status", "Quantity", "Available",
    "Purchase Date", "Purchase Cost", "Assigned To", "Released By", "Date Released",
    "Returned To", "Date Returned", "Notes"]

  /** `${v}` of an optional string: an absent value prints as "undefined". */
  function TemplateText(s: Option<string>): string
  {
    if s.Some? then s.value else "undefined"
  }

  /** The export's cells of one accessory, whose cost is present (`toString` needs it). */
  function Cells(a: Accessory): (cells: seq<string>)
    requires a.purchaseCost.Some?
    ensures |cells| == |Headers|
  {
    [IntToString(a.id), a.name, a.category, OrEmpty(a.model), OrEmpty(a.manufacturer), TemplateText(a.status),
     IntToString(a.quantity), IntToString(a.quantityAvailable), TemplateText(a.purchaseDate),
     IntToString(a.purchaseCost.value), OrEmpty(a.assignedTo), OrEmpty(a.releasedBy), OrEmpty(a.dateReleased),
     OrEmpty(a.returnedTo), OrEmpty(a.dateReturned), OrEmpty(a.notes)]
  }

  /** `"${val}"`: wrapped in double quotes, with nothing inside escaped. */
  function Quote(v: string): (q: string)
    ensures |q| == |v| + 2 && q[0] == '"' && q[|q| - 1] == '"' && q[1..|q| - 1] == v
  {
    ['"'] + v + ['"']
  }

  function QuoteAll(cells: seq<string>): (qs: seq<string>)
    ensures |qs| == |cells| && forall k | 0 <= k < |cells| :: qs[k] == Quote(cells[k])
  {
    seq(|cells|, k requires 0 <= k < |cells| => Quote(cells[k]))
  }

  function Row(a: Accessory): string
    requires a.purchaseCost.Some?
  {
    Join(QuoteAll(Cells(a)), ',')
  }

  predicate Exportable(accessories: seq<Accessory>)
  {
    forall k | 0 <= k < |accessories| :: accessories[k].purchaseCost.Some?
  }

  function HeaderLine(): string
  {
    Join(Headers, ',')
  }

  lemma HeaderLineFree()
    ensures '\n' !in HeaderLine()
  {
    assert NoSeparator(Headers, '\n');
    JoinFree(Headers, ',', '\n');
  }

  function Rows(accessories: seq<Accessory>): (rows: seq<string>)
    requires Exportable(accessories)
    ensures |rows| == |accessories| && forall k | 0 <= k < |accessories| :: rows[k] == Row(accessories[k])
  {
    seq(|accessories|, k requires 0 <= k < |accessories| => Row(accessories[k]))
  }

  /** The export's lines: the header line, then one row per accessory. */
  function Lines(accessories: seq<Accessory>): (lines: seq<string>)
    requires Exportable(accessories)
    ensures |lines| == |accessories| + 1 && lines[0] == HeaderLine() && lines[1..] == Rows(accessories)
  {
    [HeaderLine()] + Rows(accessories)
  }

  datatype Export = NothingToExport | ExportThrew | ExportFile(name: string, text: string)

  /** `handleExport`, dated `today` (YYYY-MM-DD). */
  function ExportCsv(accessories: seq<Accessory>, today: string): Export
  {
    if |accessories| == 0 then NothingToExport
    else if !Exportable(accessories) then ExportThrew
    else ExportFile("accessories_export_" + today + ".csv", Join(Lines(accessories), '\n'))
  }

  /** An empty list gives no file; otherwise a missing cost makes `toString` throw, and only then. */
  lemma ExportOutcomes(accessories: seq<Accessory>, today: string)
    ensures ExportCsv(accessories, today) == NothingToExport <==> |accessories| == 0
    ensures ExportCsv(accessories, today) == ExportThrew <==> |accessories| > 0 && !Exportable(accessories)
  {
  }

  predicate NoNewline(a: Accessory)
    requires a.purchaseCost.Some?
  {
    NoSeparator(Cells(a), '\n')
  }

  /** A character that is neither in any cell nor a comma or quote is not in the row. */
  lemma RowFree(a: Accessory, c: char)
    requires a.purchaseCost.Some? && NoSeparator(Cells(a), c) && c != ',' && c != '"'
    ensures c !in Row(a)
  {
    var qs := QuoteAll(Cells(a));
    forall j | 0 <= j < |qs|
      ensures c !in qs[j]
    {
      assert qs[j] == ['"'] + Cells(a)[j] + ['"'];
    }
    JoinFree(qs, ',', c);
  }

  /** Without line breaks in the values, the file has the header line and one line per accessory, in order. */
  lemma ExportLinesRecovered(accessories: seq<Accessory>, today: string)
    requires |accessories| > 0 && Exportable(accessories)
    requires forall k | 0 <= k < |accessories| :: NoNewline(accessories[k])
    ensures Split(ExportCsv(accessories, today).text, '\n') == Lines(accessories)
    ensures |Split(ExportCsv(accessories, today).text, '\n')| == 1 + |accessories|
  {
    var lines := Lines(accessories);
    forall k | 0 <= k < |lines|
      ensures '\n' !in lines[k]
    {
      if k == 0 {
        HeaderLineFree();
      } else {
        RowFree(accessories[k - 1], '\n');
      }
    }
    SplitJoin(lines, '\n');
  }

  /** Without commas in the values, each row splits back into the sixteen quoted cells. */
  lemma RowCellsQuoted(a: Accessory)
    requires a.purchaseCost.Some? && NoSeparator(Cells(a), ',')
    ensures Split(Row(a), ',') == QuoteAll(Cells(a))
    ensures |Split(Row(a), ',')| == |Headers|
  {
    var qs := QuoteAll(Cells(a));
    forall j | 0 <= j < |qs|
      ensures ',' !in qs[j]
    {
      assert qs[j] == ['"'] + Cells(a)[j] + ['"'];
    }
    SplitJoin(qs, ',');
  }

  /** An absent purchase date is written as the text "undefined", quoted. */
  lemma UndefinedDateWritten(a: Accessory)
    requires a.purchaseCost.Some? && a.purchaseDate.None?
    ensures QuoteAll(Cells(a))[8] == "\"undefined\""
  {
  }

  // ---------------------------------------------------------------- badges

  const DefaultBadge := "bg-gray-100 text-gray-800"

  function StatusBadgeClass(status: Option<string>): string
  {
    match status
    case Some("returned") => "bg-purple-100 text-purple-800"
    case Some("borrowed") => "bg-indigo-100 text-indigo-800"
    case Some("permanent") => "bg-teal-100 text-teal-800"
    case _ => DefaultBadge
  }

  /** Three statuses get distinct classes; every other status is gray. */
  lemma BadgeClasses(s: Option<string>, t: Option<string>)
    requires s.Some? && s.value in ["returned", "borrowed", "permanent"]
    requires t.Some? && t.value in ["returned", "borrowed", "permanent"]
    ensures StatusBadgeClass(s) != DefaultBadge
    ensures StatusBadgeClass(s) == StatusBadgeClass(t) <==> s == t
  {
  }

  lemma OtherStatusesGray(s: Option<string>)
    requires s.None? || s.value !in ["returned", "borrowed", "permanent"]
    ensures StatusBadgeClass(s) == DefaultBadge
  {
  }

  // ---------------------------------------------------------------- the page state

  class Page {
    var accessories: seq<Accessory>
    var filtered: seq<Accessory>
    var current: Option<Accessory>
    var searchQuery: string
    var deleteDialogOpen: bool

    constructor()
      ensures accessories == [] && filtered == [] && current.None? && searchQuery == "" && !deleteDialogOpen
    {
      accessories := [];
      filtered := [];
      current := None;
      searchQuery := "";
      deleteDialogOpen := false;
    }

    /** The mount effect: `None` stands for a failed fetch, which keeps the empty list. */
    method Load(data: Option<seq<Accessory>>)
      modifies this
      ensures data.Some? ==> accessories == data.value && filtered == data.value
      ensures data.None? ==> accessories == old(accessories) && filtered == old(filtered)
      ensures current == old(current) && searchQuery == old(searchQuery) && deleteDialogOpen == old(deleteDialogOpen)
    {
      if data.Some? {
        accessories := data.value;
        filtered := data.value;
      }
    }

    method HandleSearch(input: string)
      modifies this
      ensures searchQuery == Lower(input) && filtered == Search(accessories, input)
      ensures accessories == old(accessories) && current == old(current) && deleteDialogOpen == old(deleteDialogOpen)
    {
      searchQuery := Lower(input);
      if IsBlank(searchQuery) {
        filtered := accessories;
      } else {
        var q := searchQuery;
        filtered := Filter(accessories, a => Matches(a, q));
      }
    }

    method HandleDeleteAccessory(a: Accessory)
      modifies this
      ensures current == Some(a) && deleteDialogOpen
      ensures accessories == old(accessories) && filtered == old(filtered) && searchQuery == old(searchQuery)
    {
      current := Some(a);
      deleteDialogOpen := true;
    }

    /**
     * `confirmDelete`: the DELETE's status is not looked at; only a thrown
     * fetch keeps the record. The dialog closes either way.
     */
    method ConfirmDelete(outcome: FetchOutcome) returns (request: Option<Request>)
      modifies this
      ensures old(current).None? ==>
        request.None? && accessories == old(accessories) && filtered == old(filtered) && deleteDialogOpen == old(deleteDialogOpen)
      ensures old(current).Some? ==>
        request == Some(Request(DELETE, "/api/accessories/" + IntToString(old(current).value.id))) && !deleteDialogOpen
      ensures old(current).Some? && outcome != Threw ==>
        accessories == RemoveWhere(old(accessories), (a: Accessory) => a.id, old(current).value.id) && filtered == accessories
      ensures old(current).Some? && outcome == Threw ==> accessories == old(accessories) && filtered == old(filtered)
      ensures current == old(current) && searchQuery == old(searchQuery)
    {
      if current.None? {
        return None;
      }
      request := Some(Request(DELETE, "/api/accessories/" + IntToString(current.value.id)));
      if outcome != Threw {
        accessories := RemoveWhere(accessories, (a: Accessory) => a.id, current.value.id);
        filtered := accessories;
      }
      deleteDialogOpen := false;
    }

    /** `handleSaveAccessory`: PUT for the selected record, POST otherwise; a failure changes nothing. */
    method HandleSaveAccessory(outcome: SaveOutcome) returns (request: Request)
      modifies this
      ensures request == SaveRequest(current)
      ensures outcome.SavedRecord? ==>
        accessories == AfterSave(old(accessories), current.Some?, outcome.record) && filtered == accessories
      ensures outcome.SaveFailed? ==> accessories == old(accessories) && filtered == old(filtered)
      ensures current == old(current) && searchQuery == old(searchQuery) && deleteDialogOpen == old(deleteDialogOpen)
    {
      request := SaveRequest(current);
      if outcome.SavedRecord? {
        accessories := AfterSave(accessories, current.Some?, outcome.record);
        filtered := accessories;
      }
    }
  }
}
