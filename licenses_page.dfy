/**
 * The licences page: a client-side list of licences with search, add,
 * edit and delete, and the expiry badge of each licence.
 */
module LicensesPage {
  import opened Wrappers
  import opened Strings
  import opened Types
  import opened Lists

  // ---------------------------------------------------------------- expiry

  const DayMs := 86_400_000

  /** The end of the "expiring soon" window: thirty days after `now`. */
  function SoonLimit(now: int): int
  {
    now + 30 * DayMs
  }

  /** `expirationDate` read as an instant; `parseDate` stands for `new Date(s)` and `None` for an invalid date. */
  function ExpiryInstant(expirationDate: Option<string>, parseDate: string -> Option<int>): Option<int>
  {
    if expirationDate.None? || expirationDate.value == "" then None else parseDate(expirationDate.value)
  }

  /** `isExpired`: a readable date strictly before now. */
  predicate IsExpired(expirationDate: Option<string>, parseDate: string -> Option<int>, now: int)
  {
    var t := ExpiryInstant(expirationDate, parseDate);
    t.Some? && t.value < now
  }

  /** `isExpiringSoon`: a readable date after now and at most thirty days ahead. */
  predicate IsExpiringSoon(expirationDate: Option<string>, parseDate: string -> Option<int>, now: int)
  {
    var t := ExpiryInstant(expirationDate, parseDate);
    t.Some? && now < t.value <= SoonLimit(now)
  }

  datatype ExpiryStatus = NotApplicable | Expired | ExpiringSoon | Valid

  /** `getExpirationStatus`, as the badge it selects. */
  function ExpirationStatus(expirationDate: Option<string>, parseDate: string -> Option<int>, now: int): ExpiryStatus
  {
    if expirationDate.None? || expirationDate.value == "" then NotApplicable
    else if IsExpired(expirationDate, parseDate, now) then Expired
    else if IsExpiringSoon(expirationDate, parseDate, now) then ExpiringSoon
    else Valid
  }

  function StatusText(s: ExpiryStatus): string
  {
    match s
    case NotApplicable => "N/A"
    case Expired => "Expired"
    case ExpiringSoon => "Expiring Soon"
    case Valid => "Valid"
  }

  function StatusClass(s: ExpiryStatus): string
  {
    match s
    case NotApplicable => "bg-gray-100 text-gray-800"
    case Expired => "bg-red-100 text-red-800"
    case ExpiringSoon => "bg-yellow-100 text-yellow-800"
    case Valid => "bg-green-100 text-green-800"
  }

  /**
   * The badge by the position of the expiry instant: before now is
   * expired, the thirty days after now are "expiring soon", and exactly
   * now, later dates and unreadable dates are all "Valid".
   */
  lemma ExpiryClassification(expirationDate: Option<string>, parseDate: string -> Option<int>, now: int)
    ensures ExpirationStatus(expirationDate, parseDate, now) == NotApplicable
      <==> expirationDate.None? || expirationDate.value == ""
    ensures ExpirationStatus(expirationDate, parseDate, now) == Expired
      <==> ExpiryInstant(expirationDate, parseDate).Some? && ExpiryInstant(expirationDate, parseDate).value < now
    ensures ExpirationStatus(expirationDate, parseDate, now) == ExpiringSoon
      <==> ExpiryInstant(expirationDate, parseDate).Some?
           && now < ExpiryInstant(expirationDate, parseDate).value <= SoonLimit(now)
    ensures ExpirationStatus(expirationDate, parseDate, now) == Valid
      <==> (expirationDate.Some? && expirationDate.value != ""
            && (ExpiryInstant(expirationDate, parseDate).None?
                || ExpiryInstant(expirationDate, parseDate).value == now
                || ExpiryInstant(expirationDate, parseDate).value > SoonLimit(now)))
  {
  }

  /** The two tests never hold together, so the order of the checks is not what decides. */
  lemma ExpiredAndSoonExclusive(expirationDate: Option<string>, parseDate: string -> Option<int>, now: int)
    ensures !(IsExpired(expirationDate, parseDate, now) && IsExpiringSoon(expirationDate, parseDate, now))
  {
  }

  /** The four badges have four distinct texts and classes. */
  lemma BadgesDistinct(s: ExpiryStatus, t: ExpiryStatus)
    ensures StatusText(s) == StatusText(t) <==> s == t
    ensures StatusClass(s) == StatusClass(t) <==> s == t
  {
  }

  // ---------------------------------------------------------------- search

  predicate Matches(l: License, query: string)
  {
    Contains(Lower(l.name), query) || Contains(Lower(l.software), query) || Contains(Lower(l.key), query)
  }

  /** `handleSearch`: a query that is blank after trimming shows everything. */
  function Search(licenses: seq<License>, input: string): seq<License>
  {
    var query := Lower(input);
    if IsBlank(query) then licenses else Filter(licenses, l => Matches(l, query))
  }

  /** A blank query keeps all; otherwise exactly the licences matched by the lowercased query remain. */
  lemma SearchKeeps(licenses: seq<License>, input: string)
    ensures IsBlank(Lower(input)) ==> Search(licenses, input) == licenses
    ensures !IsBlank(Lower(input)) ==>
      (forall k | 0 <= k < |Search(licenses, input)| ::
         Search(licenses, input)[k] in licenses && Matches(Search(licenses, input)[k], Lower(input)))
      && (forall k | 0 <= k < |licenses| :: Matches(licenses[k], Lower(input)) ==> licenses[k] in Search(licenses, input))
  {
  }

  /**
   * The search keeps the list's order: a licence between two runs is shown
   * exactly when the query is blank or it matches, and then between the
   * results of the run before it and of the run after it.
   */
  lemma SearchInOrder(before: seq<License>, x: License, after: seq<License>, input: string)
    ensures Search((before + [x] + after), input) ==
      Search(before, input) + (if IsBlank(Lower(input)) || Matches(x, Lower(input)) then [x] else []) + Search(after, input)
  {
    if !IsBlank(Lower(input)) {
      FilterAround(before, x, after, l => Matches(l, Lower(input)));
    }
  }

  // ---------------------------------------------------------------- the form

  /** `formData`; numbers are already read with `parseFloat(v) || 0`. */
  datatype LicenseForm = LicenseForm(
    name: string,
    software: string,
    key: string,
    seats: int,
    seatsAvailable: int,
    purchaseDate: string,
    expirationDate: Option<string>,
    purchaseCost: int,
    notes: string)

  /** The form of `handleAddLicense`, dated `today` (YYYY-MM-DD). */
  function NewForm(today: string): LicenseForm
  {
    LicenseForm("", "", "", 1, 1, today, None, 0, "")
  }

  /** The form of `handleEditLicense`: the licence's values, missing ones as "" and 0. */
  function EditForm(l: License): LicenseForm
  {
    LicenseForm(l.name, l.software, l.key, l.seats, l.seatsAvailable, OrEmpty(l.purchaseDate),
      Some(OrEmpty(l.expirationDate)), if l.purchaseCost.Some? then l.purchaseCost.value else 0, OrEmpty(l.notes))
  }

  /** The inputs of the licence dialog, by their `name` attribute; three of them have type "number". */
  datatype LicenseField = NameField | SoftwareField | KeyField | SeatsField | SeatsAvailableField
    | PurchaseCostField | PurchaseDateField | ExpirationDateField | NotesField

  predicate NumberField(field: LicenseField)
  {
    field == SeatsField || field == SeatsAvailableField || field == PurchaseCostField
  }

  /**
   * `handleChange`: the field takes the typed text, or for a number input
   * `parseFloat(value) || 0`, where `parseFloat` gives `None` for NaN.
   */
  function WithLicenseValue(f: LicenseForm, field: LicenseField, value: string, parseFloat: string -> Option<int>): (r: LicenseForm)
    ensures NumberField(field) && parseFloat(value).None? ==>
      (field == SeatsField ==> r.seats == 0) && (field == SeatsAvailableField ==> r.seatsAvailable == 0)
      && (field == PurchaseCostField ==> r.purchaseCost == 0)
    ensures field == NameField ==> r == f.(name := value)
    ensures field == SoftwareField ==> r == f.(software := value)
    ensures field == KeyField ==> r == f.(key := value)
    ensures field == PurchaseDateField ==> r == f.(purchaseDate := value)
    ensures field == ExpirationDateField ==> r == f.(expirationDate := Some(value))
    ensures field == NotesField ==> r == f.(notes := value)
    ensures field == SeatsField ==> r == f.(seats := parseFloat(value).GetOr(0))
    ensures field == SeatsAvailableField ==> r == f.(seatsAvailable := parseFloat(value).GetOr(0))
    ensures field == PurchaseCostField ==> r == f.(purchaseCost := parseFloat(value).GetOr(0))
  {
    var n := parseFloat(value).GetOr(0);
    match field
    case NameField => f.(name := value)
    case SoftwareField => f.(software := value)
    case KeyField => f.(key := value)
    case SeatsField => f.(seats := n)
    case SeatsAvailableField => f.(seatsAvailable := n)
    case PurchaseCostField => f.(purchaseCost := n)
    case PurchaseDateField => f.(purchaseDate := value)
    case ExpirationDateField => f.(expirationDate := Some(value))
    case NotesField => f.(notes := value)
  }

  /**
   * Clearing the seats input stores 0, which an add then turns back into one
   * seat; a number input never touches the guard's three text fields.
   */
  lemma ClearedSeatsBecomeOne(f: LicenseForm, parseFloat: string -> Option<int>, now: int, nowIso: string)
    requires parseFloat("").None?
    ensures NewLicense(WithLicenseValue(f, SeatsField, "", parseFloat), now, nowIso).seats == 1
    ensures forall field: LicenseField, v: string | NumberField(field) ::
      FormComplete(WithLicenseValue(f, field, v, parseFloat)) == FormComplete(f)
  {
  }

  /** The save guard: name, software and key are non-empty (they are not trimmed). */
  predicate FormComplete(f: LicenseForm)
  {
    f.name != "" && f.software != "" && f.key != ""
  }

  /** `{ ...license, ...formData, id: license.id }`: every form field overrides, the id and timestamps stay. */
  function Merge(l: License, f: LicenseForm): License
  {
    l.(name := f.name, software := f.software, key := f.key, seats := f.seats, seatsAvailable := f.seatsAvailable,
       purchaseDate := Some(f.purchaseDate), expirationDate := f.expirationDate,
       purchaseCost := Some(f.purchaseCost), notes := Some(f.notes))
  }

  function NonEmpty(s: string): Option<string>
  {
    if s == "" then None else Some(s)
  }

  /** The licence `handleSaveLicense` adds, with `Date.now()` as its id. */
  function NewLicense(f: LicenseForm, now: int, nowIso: string): (l: License)
    ensures l.id == now
    ensures l.seats != 0 && (f.seats != 0 ==> l.seats == f.seats)
    ensures f.seatsAvailable == 0 ==> l.seatsAvailable == l.seats
    ensures f.seatsAvailable != 0 ==> l.seatsAvailable == f.seatsAvailable
    ensures f.purchaseCost == 0 <==> l.purchaseCost.None?
  {
    License(now, f.name, f.software, f.key,
      if f.seats != 0 then f.seats else 1,
      if f.seatsAvailable != 0 then f.seatsAvailable else if f.seats != 0 then f.seats else 1,
      NonEmpty(f.purchaseDate),
      if f.expirationDate.Some? then NonEmpty(f.expirationDate.value) else None,
      if f.purchaseCost != 0 then Some(f.purchaseCost) else None,
      NonEmpty(f.notes), Some(nowIso), Some(nowIso))
  }

  /** The list after a save that passed the guard. */
  function Saved(licenses: seq<License>, current: Option<License>, f: LicenseForm, now: int, nowIso: string): seq<License>
  {
    if current.Some? then MapWhere(licenses, (l: License) => l.id, current.value.id, l => Merge(l, f))
    else licenses + [NewLicense(f, now, nowIso)]
  }

  /** Editing rewrites exactly the licences with the edited id, keeping their ids, and nothing else. */
  lemma EditReplacesOnlyMatching(licenses: seq<License>, current: License, f: LicenseForm, now: int, nowIso: string)
    ensures var r := Saved(licenses, Some(current), f, now, nowIso);
      |r| == |licenses|
      && (forall k | 0 <= k < |r| :: r[k].id == licenses[k].id)
      && (forall k | 0 <= k < |r| && licenses[k].id != current.id :: r[k] == licenses[k])
      && (forall k | 0 <= k < |r| && licenses[k].id == current.id ::
            r[k].name == f.name && r[k].software == f.software && r[k].key == f.key
            && r[k].seats == f.seats && r[k].seatsAvailable == f.seatsAvailable
            && r[k].purchaseDate == Some(f.purchaseDate) && r[k].expirationDate == f.expirationDate
            && r[k].purchaseCost == Some(f.purchaseCost) && r[k].notes == Some(f.notes)
            && r[k].createdAt == licenses[k].createdAt && r[k].updatedAt == licenses[k].updatedAt)
  {
  }

  /** Adding appends exactly one licence and keeps the others in place. */
  lemma AddAppendsOne(licenses: seq<License>, f: LicenseForm, now: int, nowIso: string)
    ensures var r := Saved(licenses, None, f, now, nowIso);
      |r| == |licenses| + 1 && r[..|licenses|] == licenses && r[|licenses|] == NewLicense(f, now, nowIso)
  {
  }

  /** An entered 0 for the available seats becomes the total, and a total of 0 becomes 1. */
  lemma SeatDefaults(f: LicenseForm, now: int, nowIso: string)
    requires f.seatsAvailable == 0
    ensures f.seats != 0 ==> NewLicense(f, now, nowIso).seatsAvailable == f.seats
    ensures f.seats == 0 ==> NewLicense(f, now, nowIso).seats == 1 && NewLicense(f, now, nowIso).seatsAvailable == 1
  {
  }

  // ---------------------------------------------------------------- the page state

  class Page {
    var licenses: seq<License>
    var filtered: seq<License>
    var current: Option<License>
    var form: LicenseForm
    var searchQuery: string

    constructor(initial: seq<License>, today: string)
      ensures licenses == initial && filtered == initial && current.None? && form == NewForm(today) && searchQuery == ""
    {
      licenses := initial;
      filtered := initial;
      current := None;
      form := NewForm(today);
      searchQuery := "";
    }

    method HandleSearch(input: string)
      modifies this
      ensures searchQuery == Lower(input) && filtered == Search(licenses, input)
      ensures licenses == old(licenses) && current == old(current) && form == old(form)
    {
      searchQuery := Lower(input);
      if IsBlank(searchQuery) {
        filtered := licenses;
      } else {
        var q := searchQuery;
        filtered := Filter(licenses, l => Matches(l, q));
      }
    }

    method HandleAddLicense(today: string)
      modifies this
      ensures current.None? && form == NewForm(today)
      ensures licenses == old(licenses) && filtered == old(filtered) && searchQuery == old(searchQuery)
    {
      current := None;
      form := NewForm(today);
    }

    method HandleEditLicense(l: License)
      modifies this
      ensures current == Some(l) && form == EditForm(l)
      ensures licenses == old(licenses) && filtered == old(filtered) && searchQuery == old(searchQuery)
    {
      current := Some(l);
      form := EditForm(l);
    }

    method HandleDeleteLicense(l: License)
      modifies this
      ensures current == Some(l)
      ensures licenses == old(licenses) && filtered == old(filtered) && form == old(form) && searchQuery == old(searchQuery)
    {
      current := Some(l);
    }

    /** `handleChange`: one field of the form takes the typed value. */
    method HandleChange(field: LicenseField, value: string, parseFloat: string -> Option<int>)
      modifies this
      ensures form == WithLicenseValue(old(form), field, value, parseFloat)
      ensures licenses == old(licenses) && filtered == old(filtered) && current == old(current)
      ensures searchQuery == old(searchQuery)
    {
      form := WithLicenseValue(form, field, value, parseFloat);
    }

    /** `confirmDelete`: every licence with the selected id goes, and the search is reset to the full list. */
    method ConfirmDelete()
      modifies this
      ensures old(current).None? ==> licenses == old(licenses) && filtered == old(filtered) && current.None?
      ensures old(current).Some? ==>
        licenses == RemoveWhere(old(licenses), (l: License) => l.id, old(current).value.id)
        && filtered == licenses && current.None?
      ensures form == old(form) && searchQuery == old(searchQuery)
    {
      if current.Some? {
        licenses := RemoveWhere(licenses, (l: License) => l.id, current.value.id);
        filtered := licenses;
        current := None;
      }
    }

    /** `handleSaveLicense`; `now` is `Date.now()` and `nowIso` its ISO text. */
    method HandleSaveLicense(now: int, nowIso: string) returns (saved: bool)
      modifies this
      ensures saved <==> FormComplete(form)
      ensures !saved ==> licenses == old(licenses) && filtered == old(filtered) && current == old(current)
      ensures saved ==>
        licenses == Saved(old(licenses), old(current), form, now, nowIso) && filtered == licenses && current.None?
      ensures form == old(form) && searchQuery == old(searchQuery)
    {
      if !FormComplete(form) {
        return false;
      }
      licenses := Saved(licenses, current, form, now, nowIso);
      filtered := licenses;
      current := None;
      saved := true;
    }
  }
}
