/**
 * The asset CSV codec of the assets page's import/export buttons: a fixed
 * 16-column export, the import template and the line-by-line import decoder.
 * The format has no quoting: a comma or a newline inside a field is not
 * escaped.
 */
module AssetCsv {
  import opened Wrappers
  import opened Strings
  import opened Types
  import opened Lists

  /** The export's header row, in column order. */
  const ExportHeaders: seq<string> := [
    "Asset Tag", "Model", "Serial Number", "Manufacturer", "Category", "Purchase Date",
    "Purchase Cost", "Warranty Expires", "Location", "MAC Address", "IP Address", "Status",
    "Finance Check", "Assigned To", "Date Released", "Released By"]

  /** The template's header row: column 12 carries the hint "(Yes/No)". */
  const TemplateHeaders: seq<string> := [
    "Asset Tag", "Model", "Serial Number", "Manufacturer", "Category", "Purchase Date",
    "Purchase Cost", "Warranty Expires", "Location", "MAC Address", "IP Address", "Status",
    "Finance Check (Yes/No)", "Assigned To", "Date Released", "Released By"]

  /** The template's single example row. */
  const TemplateExample: seq<string> := [
    "AST-1234", "Dell XPS 15", "DELL123456", "Dell", "Laptop", "2023-01-01", "1500",
    "2024-01-01", "Main Office", "00:1A:2B:3C:4D:5E", "192.168.1.100", "available", "Yes",
    "John Smith", "2023-05-01", "IT Admin"]

  const Columns := 16

  /** `assignedTo?.toString() || ""`. */
  function AssigneeText(a: Option<Assignee>): (t: string)
    ensures a.Some? && a.value.UserId? ==> t == IntToString(a.value.id)
    ensures a.Some? && a.value.Named? ==> t == a.value.name
    ensures a.None? ==> t == ""
  {
    match a
    case None => ""
    case Some(UserId(n)) => IntToString(n)
    case Some(Named(s)) => s
  }

  /** `purchaseCost?.toString() || ""`: a present cost is never written as "". */
  function CostText(c: Option<int>): (t: string)
    ensures c.Some? ==> t == IntToString(c.value) && t != ""
    ensures c.None? ==> t == ""
  {
    if c.Some? then IntToString(c.value) else ""
  }

  /** The 16 cells an asset is exported as, in header order. */
  function Cells(a: Asset): (cells: seq<string>)
    ensures |cells| == Columns
  {
    [a.assetTag, a.model, OrEmpty(a.serialNumber), OrEmpty(a.manufacturer), a.category,
     OrEmpty(a.purchaseDate), CostText(a.purchaseCost), OrEmpty(a.warrantyExpires),
     OrEmpty(a.location), OrEmpty(a.macAddress), OrEmpty(a.ipAddress), a.status,
     if a.financeChecked == Some(true) then "Yes" else "No",
     AssigneeText(a.assignedTo), OrEmpty(a.dateReleased), OrEmpty(a.releasedBy)]
  }

  /** One exported row: the cells joined by commas. */
  function Row(a: Asset): string
  {
    Join(Cells(a), ',')
  }

  /** The header line of the export. */
  function HeaderLine(): string
  {
    Join(ExportHeaders, ',')
  }

  /** One exported row per asset, in order. */
  function DataLines(assets: seq<Asset>): (rows: seq<string>)
    ensures |rows| == |assets|
    ensures forall i | 0 <= i < |assets| :: rows[i] == Row(assets[i])
  {
    seq(|assets|, i requires 0 <= i < |assets| => Row(assets[i]))
  }

  function ExportLines(assets: seq<Asset>): (lines: seq<string>)
    ensures |lines| == 1 + |assets|
    ensures forall i | 0 <= i < |assets| :: lines[i + 1] == Row(assets[i])
  {
    [HeaderLine()] + DataLines(assets)
  }

  /** The text of the export file. */
  function ExportCsv(assets: seq<Asset>): string
  {
    Join(ExportLines(assets), '\n')
  }

  /** The text of the import template. */
  function TemplateCsv(): string
  {
    Join([Join(TemplateHeaders, ','), Join(TemplateExample, ',')], '\n')
  }

  // ---------------------------------------------------------------- decoding

  /** One decoded row, as handed to `onImport`. */
  datatype ImportedAsset = ImportedAsset(
    assetTag: string,
    model: string,
    serialNumber: string,
    manufacturer: string,
    category: string,
    purchaseDate: string,
    purchaseCost: int,
    warrantyExpires: string,
    location: string,
    macAddress: string,
    ipAddress: string,
    status: string,
    financeChecked: bool,
    assignedTo: string,
    dateReleased: string,
    releasedBy: string,
    createdAt: string)

  /** `values[i]`; a missing cell reads as "", which every default treats like undefined. */
  function Field(values: seq<string>, i: nat): string
  {
    if i < |values| then values[i] else ""
  }

  /**
   * The object built from one row's cells. `draw` is `Math.floor(Math.random() * 10000)`,
   * `parseFloat` stands for JavaScript's (`None` is NaN), `stamp` is the ISO time.
   */
  function DecodeFields(values: seq<string>, draw: nat, parseFloat: string -> Option<int>, stamp: string): ImportedAsset
  {
    ImportedAsset(
      Or(Field(values, 0), "AST-" + NatToString(draw)),
      Field(values, 1), Field(values, 2), Field(values, 3), Field(values, 4), Field(values, 5),
      parseFloat(Field(values, 6)).GetOr(0),
      Field(values, 7), Field(values, 8), Field(values, 9), Field(values, 10),
      Or(Field(values, 11), "available"),
      Lower(Field(values, 12)) == "yes",
      Field(values, 13), Field(values, 14), Field(values, 15),
      stamp)
  }

  /** What line `i` contributes: nothing when blank or shorter than the header, else one asset. */
  function RowAt(lines: seq<string>, width: nat, i: nat, draw: nat -> nat,
                 parseFloat: string -> Option<int>, stamp: nat -> string): seq<ImportedAsset>
    requires i < |lines|
  {
    if IsBlank(lines[i]) then []
    else
      var values := Split(lines[i], ',');
      if |values| < width then [] else [DecodeFields(values, draw(i), parseFloat, stamp(i))]
  }

  /** The assets decoded from lines 1 .. n-1, in file order. */
  function DecodeRows(lines: seq<string>, width: nat, n: nat, draw: nat -> nat,
                      parseFloat: string -> Option<int>, stamp: nat -> string): seq<ImportedAsset>
    requires 1 <= n <= |lines|
  {
    if n == 1 then [] else DecodeRows(lines, width, n - 1, draw, parseFloat, stamp) + RowAt(lines, width, n - 1, draw, parseFloat, stamp)
  }

  const EmptyOrInvalid := "File is empty or invalid"
  const NoValidAssets := "No valid assets found in the file"
  const ProcessingError := "Error processing file. Please check the format."
  const ReadError := "Error reading file"
  const NoFileSelected := "Please select a file to import"

  /** The decoder applied to the text of a loaded file. */
  function DecodeCsv(text: string, draw: nat -> nat, parseFloat: string -> Option<int>,
                     stamp: nat -> string): Result<seq<ImportedAsset>, string>
  {
    var lines := Split(text, '\n');
    if |lines| < 2 then Failure(EmptyOrInvalid)
    else
      var decoded := DecodeRows(lines, |Split(lines[0], ',')|, |lines|, draw, parseFloat, stamp);
      if |decoded| == 0 then Failure(NoValidAssets) else Success(decoded)
  }

  /** What the file reader delivers: no file chosen, a read error, or the loaded result (`None` when it is not a string). */
  datatype FileEvent = NoFile | ReadFailed | Loaded(result: Option<string>)

  /** The import's visible outcome: `onImport` called with the assets (and the dialog closed), or an error message. */
  datatype ImportOutcome = Delivered(assets: seq<ImportedAsset>) | Rejected(message: string)

  function ImportOutcomeOf(file: FileEvent, draw: nat -> nat, parseFloat: string -> Option<int>,
                           stamp: nat -> string): ImportOutcome
  {
    match file
    case NoFile => Rejected(NoFileSelected)
    case ReadFailed => Rejected(ReadError)
    case Loaded(None) => Rejected(ProcessingError)
    case Loaded(Some(text)) =>
      match DecodeCsv(text, draw, parseFloat, stamp)
      case Success(assets) => Delivered(assets)
      case Failure(message) => Rejected(message)
  }

  /** `processImport` with its `onload` and `onerror` callbacks. */
  method ProcessImport(file: FileEvent, draw: nat -> nat, parseFloat: string -> Option<int>,
                       stamp: nat -> string) returns (out: ImportOutcome)
    ensures out == ImportOutcomeOf(file, draw, parseFloat, stamp)
  {
    if file.NoFile? {
      return Rejected(NoFileSelected);
    }
    if file.ReadFailed? {
      return Rejected(ReadError);
    }
    if file.result.None? {
      // `csvText.split` throws on a non-string result
      return Rejected(ProcessingError);
    }
    var csvText := file.result.value;
    var lines := Split(csvText, '\n');
    if |lines| < 2 {
      return Rejected(EmptyOrInvalid);
    }
    var headers := Split(lines[0], ',');
    var importedAssets := DecodeLines(lines, |headers|, draw, parseFloat, stamp);
    if |importedAssets| == 0 {
      return Rejected(NoValidAssets);
    }
    return Delivered(importedAssets);
  }

  /** One pass of `processImport`'s loop: a blank or short line is skipped, any other gives one asset. */
  method DecodeLine(lines: seq<string>, width: nat, i: nat, draw: nat -> nat, parseFloat: string -> Option<int>,
                    stamp: nat -> string) returns (row: seq<ImportedAsset>)
    requires i < |lines|
    ensures row == RowAt(lines, width, i, draw, parseFloat, stamp)
  {
    if IsBlank(lines[i]) {
      return [];
    }
    var values := Split(lines[i], ',');
    if |values| < width {
      return [];
    }
    var newAsset := DecodeFields(values, draw(i), parseFloat, stamp(i));
    return [newAsset];
  }

  /** The loop of `processImport` over the lines after the header. */
  method DecodeLines(lines: seq<string>, width: nat, draw: nat -> nat, parseFloat: string -> Option<int>,
                     stamp: nat -> string) returns (importedAssets: seq<ImportedAsset>)
    requires |lines| >= 1
    ensures importedAssets == DecodeRows(lines, width, |lines|, draw, parseFloat, stamp)
  {
    importedAssets := [];
    for i := 1 to |lines|
      invariant importedAssets == DecodeRows(lines, width, i, draw, parseFloat, stamp)
    {
      var row := DecodeLine(lines, width, i, draw, parseFloat, stamp);
      importedAssets := importedAssets + row;
    }
  }

  // ---------------------------------------------------------------- properties

  /** The file is rejected as empty or invalid exactly when it has no newline. */
  lemma EmptyOrInvalidIff(text: string, draw: nat -> nat, parseFloat: string -> Option<int>, stamp: nat -> string)
    ensures DecodeCsv(text, draw, parseFloat, stamp) == Failure(EmptyOrInvalid) <==> '\n' !in text
  {
    SplitSingle(text, '\n');
  }

  /** A header line followed by a single newline passes the size check and finds no asset. */
  lemma HeaderOnlyFile(header: string, draw: nat -> nat, parseFloat: string -> Option<int>, stamp: nat -> string)
    requires '\n' !in header
    ensures DecodeCsv(header + "\n", draw, parseFloat, stamp) == Failure(NoValidAssets)
  {
    SplitJoin([header, ""], '\n');
    assert Join([header, ""], '\n') == header + "\n";
    var lines := Split(header + "\n", '\n');
    assert lines == [header, ""];
    var width := |Split(lines[0], ',')|;
    assert RowAt(lines, width, 1, draw, parseFloat, stamp) == [];
    assert DecodeRows(lines, width, 2, draw, parseFloat, stamp) == [];
  }

  /** A line is kept iff it is not blank and has at least as many fields as the header. */
  lemma RowKept(lines: seq<string>, width: nat, i: nat, draw: nat -> nat,
                parseFloat: string -> Option<int>, stamp: nat -> string)
    requires i < |lines|
    ensures |RowAt(lines, width, i, draw, parseFloat, stamp)| <= 1
    ensures |RowAt(lines, width, i, draw, parseFloat, stamp)| == 1
            <==> !IsBlank(lines[i]) && |Split(lines[i], ',')| >= width
  {
  }

  /** Only the first 16 fields of a row are read: extra fields are ignored. */
  lemma ExtraFieldsIgnored(values: seq<string>, draw: nat, parseFloat: string -> Option<int>, stamp: string)
    requires |values| >= Columns
    ensures DecodeFields(values, draw, parseFloat, stamp) == DecodeFields(values[..Columns], draw, parseFloat, stamp)
  {
  }

  /** The defaults the decoder applies to one row. */
  lemma DecodeDefaults(values: seq<string>, draw: nat, parseFloat: string -> Option<int>, stamp: string)
    requires draw < 10000
    ensures var a := DecodeFields(values, draw, parseFloat, stamp);
      && a.assetTag != ""
      && (Field(values, 0) == "" ==> exists k: nat | k <= 9999 :: a.assetTag == "AST-" + NatToString(k))
      && (Field(values, 0) != "" ==> a.assetTag == values[0])
      && a.status != ""
      && (Field(values, 11) == "" ==> a.status == "available")
      && (parseFloat(Field(values, 6)).None? ==> a.purchaseCost == 0)
      && (a.financeChecked <==> Lower(Field(values, 12)) == "yes")
  {
    var a := DecodeFields(values, draw, parseFloat, stamp);
    if Field(values, 0) == "" {
      assert a.assetTag == "AST-" + NatToString(draw);
    }
  }

  /** Decoding is positional: the header's text only matters through its field count. */
  lemma {:induction false} DecodePositional(lines: seq<string>, other: seq<string>, n: nat, draw: nat -> nat,
                                            parseFloat: string -> Option<int>, stamp: nat -> string)
    requires 1 <= n <= |lines| == |other|
    requires lines[1..] == other[1..]
    requires |Split(lines[0], ',')| == |Split(other[0], ',')|
    ensures DecodeRows(lines, |Split(lines[0], ',')|, n, draw, parseFloat, stamp)
         == DecodeRows(other, |Split(other[0], ',')|, n, draw, parseFloat, stamp)
  {
    if n > 1 {
      DecodePositional(lines, other, n - 1, draw, parseFloat, stamp);
      assert lines[n - 1] == lines[1..][n - 2] == other[1..][n - 2] == other[n - 1];
    }
  }

  /** The import outcome delivers assets exactly when the decoder succeeds, and then at least one. */
  lemma ImportDelivers(text: string, draw: nat -> nat, parseFloat: string -> Option<int>, stamp: nat -> string)
    ensures ImportOutcomeOf(Loaded(Some(text)), draw, parseFloat, stamp).Delivered?
        <==> DecodeCsv(text, draw, parseFloat, stamp).Success?
    ensures DecodeCsv(text, draw, parseFloat, stamp).Success? ==>
        |DecodeCsv(text, draw, parseFloat, stamp).value| > 0
  {
  }

  // ---------------------------------------------------------------- round trip

  /** An asset that survives export: a tag and a status, and no separator in any cell. */
  predicate Exportable(a: Asset)
  {
    a.assetTag != "" && a.status != "" && NoSeparator(Cells(a), ',') && NoSeparator(Cells(a), '\n')
  }

  /** `parseFloat` reads back what `toString` wrote and gives NaN on "". */
  ghost predicate ReadsBack(parseFloat: string -> Option<int>)
  {
    parseFloat("") == None && forall c: int :: parseFloat(IntToString(c)) == Some(c)
  }

  /** What an exported asset decodes back to: the 16 columns as text, the cost or 0, the finance flag. */
  function Reimported(a: Asset, stamp: string): ImportedAsset
  {
    ImportedAsset(a.assetTag, a.model, OrEmpty(a.serialNumber), OrEmpty(a.manufacturer), a.category,
      OrEmpty(a.purchaseDate), a.purchaseCost.GetOr(0), OrEmpty(a.warrantyExpires), OrEmpty(a.location),
      OrEmpty(a.macAddress), OrEmpty(a.ipAddress), a.status, a.financeChecked == Some(true),
      AssigneeText(a.assignedTo), OrEmpty(a.dateReleased), OrEmpty(a.releasedBy), stamp)
  }

  /** The assets of an exported file as the import reads them back, line `i + 1` stamped with `stamp(i + 1)`. */
  function ReimportedAll(assets: seq<Asset>, stamp: nat -> string): (r: seq<ImportedAsset>)
    ensures |r| == |assets|
    ensures forall i | 0 <= i < |assets| :: r[i] == Reimported(assets[i], stamp(i + 1))
  {
    seq(|assets|, i requires 0 <= i < |assets| => Reimported(assets[i], stamp(i + 1)))
  }

  lemma DecodeCells(a: Asset, draw: nat, parseFloat: string -> Option<int>, stamp: string)
    requires Exportable(a) && ReadsBack(parseFloat)
    ensures DecodeFields(Cells(a), draw, parseFloat, stamp) == Reimported(a, stamp)
  {
    var cells := Cells(a);
    assert parseFloat(Field(cells, 6)).GetOr(0) == a.purchaseCost.GetOr(0) by {
      if a.purchaseCost.Some? {
        assert parseFloat(IntToString(a.purchaseCost.value)) == Some(a.purchaseCost.value);
      }
    }
    assert Lower("Yes") == "yes";
    assert Lower("No") != "yes" by { assert |Lower("No")| == 2; }
  }

  lemma JoinHasSeparator(xs: seq<string>, sep: char)
    requires |xs| >= 2
    ensures sep in Join(xs, sep)
  {
    assert Join(xs, sep)[|xs[0]|] == sep;
  }

  lemma ExportedRowKept(lines: seq<string>, i: nat, a: Asset, draw: nat -> nat,
                        parseFloat: string -> Option<int>, stamp: nat -> string)
    requires i < |lines| && lines[i] == Row(a)
    requires Exportable(a) && ReadsBack(parseFloat)
    ensures RowAt(lines, Columns, i, draw, parseFloat, stamp) == [Reimported(a, stamp(i))]
  {
    var cells := Cells(a);
    JoinHasSeparator(cells, ',');
    var k :| 0 <= k < |lines[i]| && lines[i][k] == ',';
    assert !IsWhitespace(lines[i][k]);
    SplitJoin(cells, ',');
    DecodeCells(a, draw(i), parseFloat, stamp(i));
  }

  /** Each line after the header decodes to exactly its expected asset. */
  predicate EveryRowDecodes(lines: seq<string>, width: nat, draw: nat -> nat, parseFloat: string -> Option<int>,
                            stamp: nat -> string, expected: seq<ImportedAsset>)
  {
    |expected| == |lines| - 1
    && forall i | 1 <= i < |lines| :: RowAt(lines, width, i, draw, parseFloat, stamp) == [expected[i - 1]]
  }

  /** Every exported row decodes back to its asset. */
  lemma ExportedRowsKept(assets: seq<Asset>, draw: nat -> nat, parseFloat: string -> Option<int>, stamp: nat -> string)
    requires forall i | 0 <= i < |assets| :: Exportable(assets[i])
    requires ReadsBack(parseFloat)
    ensures EveryRowDecodes(ExportLines(assets), Columns, draw, parseFloat, stamp, ReimportedAll(assets, stamp))
  {
    var lines := ExportLines(assets);
    var expected := ReimportedAll(assets, stamp);
    forall i | 1 <= i < |lines|
      ensures RowAt(lines, Columns, i, draw, parseFloat, stamp) == [expected[i - 1]]
    {
      ExportedRowKept(lines, i, assets[i - 1], draw, parseFloat, stamp);
    }
  }

  /** A line that gives its expected asset appends it to the assets decoded before it. */
  lemma DecodeRowsStep(lines: seq<string>, width: nat, n: nat, draw: nat -> nat,
                       parseFloat: string -> Option<int>, stamp: nat -> string, expected: seq<ImportedAsset>)
    requires 1 < n <= |lines| && EveryRowDecodes(lines, width, draw, parseFloat, stamp, expected)
    requires DecodeRows(lines, width, n - 1, draw, parseFloat, stamp) == expected[..n - 2]
    ensures DecodeRows(lines, width, n, draw, parseFloat, stamp) == expected[..n - 1]
  {
    assert RowAt(lines, width, n - 1, draw, parseFloat, stamp) == [expected[n - 2]];
    DecodeRowsSnoc(lines, width, n, draw, parseFloat, stamp, expected[..n - 2], expected[n - 2]);
    TakeSnoc(expected, n - 2);
  }

  /** The decoder's last step: the rows before line `n - 1`, then that line's row. */
  lemma DecodeRowsSnoc(lines: seq<string>, width: nat, n: nat, draw: nat -> nat,
                       parseFloat: string -> Option<int>, stamp: nat -> string, prev: seq<ImportedAsset>, a: ImportedAsset)
    requires 1 < n <= |lines|
    requires DecodeRows(lines, width, n - 1, draw, parseFloat, stamp) == prev
    requires RowAt(lines, width, n - 1, draw, parseFloat, stamp) == [a]
    ensures DecodeRows(lines, width, n, draw, parseFloat, stamp) == prev + [a]
  {
  }

  /** When every line after the header decodes to its expected asset, the decoder gives those assets in order. */
  lemma {:induction false} ExportedRows(lines: seq<string>, width: nat, n: nat, draw: nat -> nat,
                                        parseFloat: string -> Option<int>, stamp: nat -> string,
                                        expected: seq<ImportedAsset>)
    requires 1 <= n <= |lines| && EveryRowDecodes(lines, width, draw, parseFloat, stamp, expected)
    ensures DecodeRows(lines, width, n, draw, parseFloat, stamp) == expected[..n - 1]
  {
    if n > 1 {
      ExportedRows(lines, width, n - 1, draw, parseFloat, stamp, expected);
      DecodeRowsStep(lines, width, n, draw, parseFloat, stamp, expected);
    }
  }

  /**
   * Export then import gives back every asset, in order, with its 16 columns
   * as text; an absent cost comes back as 0, `notes` and `id` are dropped.
   */
  lemma RoundTrip(assets: seq<Asset>, draw: nat -> nat, parseFloat: string -> Option<int>, stamp: nat -> string)
    requires |assets| > 0
    requires forall i | 0 <= i < |assets| :: Exportable(assets[i])
    requires ReadsBack(parseFloat)
    ensures DecodeCsv(ExportCsv(assets), draw, parseFloat, stamp)
         == Success(ReimportedAll(assets, stamp))
  {
    ExportSplitsIntoLines(assets);
    HeaderLineFacts();
    ExportedDecodes(assets, draw, parseFloat, stamp);
    DecodeSplit(ExportCsv(assets), ExportLines(assets), draw, parseFloat, stamp, ReimportedAll(assets, stamp));
  }

  /** The export's data lines decode to the reimported assets. */
  lemma ExportedDecodes(assets: seq<Asset>, draw: nat -> nat, parseFloat: string -> Option<int>, stamp: nat -> string)
    requires forall i | 0 <= i < |assets| :: Exportable(assets[i])
    requires ReadsBack(parseFloat)
    ensures DecodeRows(ExportLines(assets), Columns, |assets| + 1, draw, parseFloat, stamp) == ReimportedAll(assets, stamp)
  {
    var lines := ExportLines(assets);
    var expected := ReimportedAll(assets, stamp);
    ExportedRowsKept(assets, draw, parseFloat, stamp);
    ExportedRows(lines, Columns, |lines|, draw, parseFloat, stamp, expected);
    assert expected[..|lines| - 1] == expected;
  }

  /** A text whose lines have a 16-column header and decode to a non-empty list is imported as that list. */
  lemma DecodeSplit(text: string, lines: seq<string>, draw: nat -> nat, parseFloat: string -> Option<int>,
                    stamp: nat -> string, expected: seq<ImportedAsset>)
    requires Split(text, '\n') == lines && |lines| >= 2 && |Split(lines[0], ',')| == Columns
    requires DecodeRows(lines, Columns, |lines|, draw, parseFloat, stamp) == expected && |expected| > 0
    ensures DecodeCsv(text, draw, parseFloat, stamp) == Success(expected)
  {
  }

  lemma ExportSplitsIntoLines(assets: seq<Asset>)
    requires forall i | 0 <= i < |assets| :: Exportable(assets[i])
    ensures Split(ExportCsv(assets), '\n') == ExportLines(assets)
  {
    var lines := ExportLines(assets);
    HeaderLineFacts();
    forall i | 0 <= i < |lines| ensures '\n' !in lines[i] {
      if i == 0 {
        assert lines[0] == HeaderLine();
      } else {
        assert lines[i] == Row(assets[i - 1]);
        JoinFree(Cells(assets[i - 1]), ',', '\n');
      }
    }
    SplitJoin(lines, '\n');
  }

  lemma HeaderLineFacts()
    ensures '\n' !in HeaderLine()
    ensures Split(HeaderLine(), ',') == ExportHeaders
  {
    HeadersFree('\n');
    JoinFree(ExportHeaders, ',', '\n');
    HeadersFree(',');
    SplitJoin(ExportHeaders, ',');
  }

  /** An empty export is rejected on import: it has a header line and nothing else. */
  lemma EmptyExportRejected(draw: nat -> nat, parseFloat: string -> Option<int>, stamp: nat -> string)
    ensures DecodeCsv(ExportCsv([]), draw, parseFloat, stamp) == Failure(EmptyOrInvalid)
  {
    HeaderLineFacts();
    EmptyOrInvalidIff(ExportCsv([]), draw, parseFloat, stamp);
  }

  lemma HeadersFree(c: char)
    requires c == ',' || c == '\n'
    ensures NoSeparator(ExportHeaders, c)
  {
  }

  /** The template has the export's layout: only column 12's header text differs. */
  lemma TemplateLayout()
    ensures |TemplateHeaders| == |ExportHeaders| == |TemplateExample| == Columns
    ensures forall k | 0 <= k < Columns && k != 12 :: TemplateHeaders[k] == ExportHeaders[k]
    ensures TemplateHeaders[12] != ExportHeaders[12]
  {
  }

  /** Nothing is escaped: a comma inside the model moves text into later columns on import. */
  lemma CommaShiftsColumns(a: Asset, draw: nat, parseFloat: string -> Option<int>, stamp: string)
    requires ',' !in a.assetTag && ',' in a.model
    ensures DecodeFields(Split(Row(a), ','), draw, parseFloat, stamp).model != a.model
  {
    var cells := Cells(a);
    var rest := Join(cells[2..], ',');
    assert Join(cells[1..], ',') == a.model + ([','] + rest);
    assert Row(a) == a.assetTag + [','] + Join(cells[1..], ',');
    SplitAfterFree(a.assetTag, Join(cells[1..], ','), ',');
    SplitFirstShorter(a.model, [','] + rest, ',');
  }
}
