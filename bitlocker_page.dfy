/**
 * The BitLocker page: a client-side list of recovery keys with search,
 * add, edit and delete; each key names its asset through the mock assets.
 */
module BitlockerPage {
  import opened Wrappers
  import opened Strings
  import opened Types
  import opened Lists
  import MockData

  const UnknownAsset := "Unknown Asset"

  /**
   * `getAssetName`: the model of the first asset whose id is
   * `parseInt(assetId, 10)`; NaN equals no id.
   */
  function AssetName(assets: seq<Asset>, assetId: string): (name: string)
    ensures ParseInt10(assetId).None? ==> name == UnknownAsset
    ensures ParseInt10(assetId).Some? && (forall k | 0 <= k < |assets| :: assets[k].id != ParseInt10(assetId).value)
      ==> name == UnknownAsset
    ensures ParseInt10(assetId).Some? ==>
      forall k | 0 <= k < |assets| && assets[k].id == ParseInt10(assetId).value
        && (forall j | 0 <= j < k :: assets[j].id != ParseInt10(assetId).value) :: name == assets[k].model
  {
    match ParseInt10(assetId)
    case None => UnknownAsset
    case Some(n) =>
      match Find(assets, (a: Asset) => a.id == n)
      case None => UnknownAsset
      case Some(k) => assets[k].model
  }

  /** `parseInt` stops at the first non-digit, so "1abc" names the same asset as "1". */
  lemma TrailingTextIgnored(assets: seq<Asset>)
    ensures AssetName(assets, "1abc") == AssetName(assets, "1")
  {
    ParseStopsAtNonDigit("1", "abc");
    ParseStopsAtNonDigit("1", "");
    assert "1" + "" == "1";
  }

  // ---------------------------------------------------------------- search

  predicate Matches(assets: seq<Asset>, key: BitLockerKey, query: string)
  {
    Contains(Lower(key.serialNumber), query) || Contains(Lower(key.recoveryKey), query)
    || Contains(Lower(AssetName(assets, key.assetId)), query)
  }

  /** `handleSearch`: a query blank after trimming keeps every key. */
  function Search(assets: seq<Asset>, keys: seq<BitLockerKey>, input: string): seq<BitLockerKey>
  {
    var query := Lower(input);
    if IsBlank(query) then keys else Filter(keys, k => Matches(assets, k, query))
  }

  /** The search keeps exactly the keys whose serial, recovery key or asset name contains the query. */
  lemma SearchKeeps(assets: seq<Asset>, keys: seq<BitLockerKey>, input: string)
    ensures IsBlank(Lower(input)) ==> Search(assets, keys, input) == keys
    ensures !IsBlank(Lower(input)) ==>
      (forall k | 0 <= k < |Search(assets, keys, input)| ::
         Search(assets, keys, input)[k] in keys && Matches(assets, Search(assets, keys, input)[k], Lower(input)))
      && (forall k | 0 <= k < |keys| :: Matches(assets, keys[k], Lower(input)) ==> keys[k] in Search(assets, keys, input))
  {
  }

  /**
   * The search keeps the list's order: a key between two runs is shown
   * exactly when the query is blank or it matches, and then between the
   * results of the run before it and of the run after it.
   */
  lemma SearchInOrder(assets: seq<Asset>, before: seq<BitLockerKey>, x: BitLockerKey, after: seq<BitLockerKey>, input: string)
    ensures Search(assets, (before + [x] + after), input) ==
      Search(assets, before, input) + (if IsBlank(Lower(input)) || Matches(assets, x, Lower(input)) then [x] else []) + Search(assets, after, input)
  {
    if !IsBlank(Lower(input)) {
      FilterAround(before, x, after, k => Matches(assets, k, Lower(input)));
    }
  }

  // ---------------------------------------------------------------- the form

  datatype KeyForm = KeyForm(assetId: string, serialNumber: string, recoveryKey: string, notes: Option<string>)

  const EmptyForm := KeyForm("", "", "", Some(""))

  function EditForm(k: BitLockerKey): KeyForm
  {
    KeyForm(k.assetId, k.serialNumber, k.recoveryKey, Some(OrEmpty(k.notes)))
  }

  /** The inputs of the key dialog, by their `name` attribute. */
  datatype KeyField = AssetIdField | SerialField | RecoveryField | NotesField

  /** `setFormData(prev => ({ ...prev, [name]: value }))`. */
  function WithKeyValue(f: KeyForm, field: KeyField, value: string): (r: KeyForm)
    ensures field == AssetIdField ==> r == f.(assetId := value)
    ensures field == SerialField ==> r == f.(serialNumber := value)
    ensures field == RecoveryField ==> r == f.(recoveryKey := value)
    ensures field == NotesField ==> r == f.(notes := Some(value))
  {
    match field
    case AssetIdField => f.(assetId := value)
    case SerialField => f.(serialNumber := value)
    case RecoveryField => f.(recoveryKey := value)
    case NotesField => f.(notes := Some(value))
  }

  /** A field set to "" makes the form incomplete, unless it is the notes; the notes never decide the guard. */
  lemma ClearingRequiredFieldBlocksSave(f: KeyForm, field: KeyField, value: string)
    ensures field != NotesField ==> !FormComplete(WithKeyValue(f, field, ""))
    ensures FormComplete(WithKeyValue(f, NotesField, value)) <==> FormComplete(f)
  {
  }

  /** The save guard; the recovery key's format is not checked. */
  predicate FormComplete(f: KeyForm)
  {
    f.assetId != "" && f.serialNumber != "" && f.recoveryKey != ""
  }

  /** The edited key: the form's fields, its notes even when absent, and `lastAccessed` now. */
  function Edited(k: BitLockerKey, f: KeyForm, nowIso: string): BitLockerKey
  {
    k.(assetId := Or(f.assetId, k.assetId), serialNumber := Or(f.serialNumber, k.serialNumber),
       recoveryKey := Or(f.recoveryKey, k.recoveryKey), notes := f.notes, lastAccessed := Some(nowIso))
  }

  function NewKey(f: KeyForm, now: nat, nowIso: string): BitLockerKey
  {
    BitLockerKey("bitlocker-" + NatToString(now), f.assetId, f.serialNumber, f.recoveryKey, nowIso, None, f.notes)
  }

  function Saved(keys: seq<BitLockerKey>, current: Option<BitLockerKey>, f: KeyForm, now: nat, nowIso: string): seq<BitLockerKey>
  {
    if current.Some? then MapWhere(keys, (k: BitLockerKey) => k.id, current.value.id, k => Edited(k, f, nowIso))
    else keys + [NewKey(f, now, nowIso)]
  }

  /** An edit passing the guard rewrites exactly the keys with the edited id, and only those. */
  lemma EditChangesOnlyMatching(keys: seq<BitLockerKey>, current: BitLockerKey, f: KeyForm, now: nat, nowIso: string)
    requires FormComplete(f)
    ensures var r := Saved(keys, Some(current), f, now, nowIso);
      |r| == |keys|
      && (forall j | 0 <= j < |r| && keys[j].id != current.id :: r[j] == keys[j])
      && (forall j | 0 <= j < |r| && keys[j].id == current.id ::
            r[j].id == keys[j].id && r[j].assetId == f.assetId && r[j].serialNumber == f.serialNumber
            && r[j].recoveryKey == f.recoveryKey && r[j].notes == f.notes
            && r[j].lastAccessed == Some(nowIso) && r[j].createdAt == keys[j].createdAt)
  {
  }

  /** Adding appends one key, `bitlocker-<now>`, created now and never accessed. */
  lemma AddAppendsOne(keys: seq<BitLockerKey>, f: KeyForm, now: nat, nowIso: string)
    ensures var r := Saved(keys, None, f, now, nowIso);
      |r| == |keys| + 1 && r[..|keys|] == keys
      && r[|keys|].id == "bitlocker-" + NatToString(now) && r[|keys|].createdAt == nowIso
      && r[|keys|].lastAccessed.None? && r[|keys|].assetId == f.assetId
  {
  }

  /** Two adds at different instants give different ids. */
  lemma NewKeyIdsDistinct(f: KeyForm, g: KeyForm, now: nat, later: nat, nowIso: string, laterIso: string)
    requires now != later
    ensures NewKey(f, now, nowIso).id != NewKey(g, later, laterIso).id
  {
    var p := "bitlocker-";
    if NewKey(f, now, nowIso).id == NewKey(g, later, laterIso).id {
      assert NatToString(now) == (p + NatToString(now))[|p|..];
      assert NatToString(later) == (p + NatToString(later))[|p|..];
      NatToStringInjective(now, later);
    }
  }

  // ---------------------------------------------------------------- the page state

  class Page {
    var keys: seq<BitLockerKey>
    var filtered: seq<BitLockerKey>
    var current: Option<BitLockerKey>
    var form: KeyForm
    var searchQuery: string
    /** The assets keys are named after. */
    const assets: seq<Asset>

    constructor(initial: seq<BitLockerKey>, assets: seq<Asset>)
      ensures keys == initial && filtered == initial && current.None? && form == EmptyForm
      ensures searchQuery == "" && this.assets == assets
    {
      keys := initial;
      filtered := initial;
      current := None;
      form := EmptyForm;
      searchQuery := "";
      this.assets := assets;
    }

    method HandleSearch(input: string)
      modifies this
      ensures searchQuery == Lower(input) && filtered == Search(assets, keys, input)
      ensures keys == old(keys) && current == old(current) && form == old(form)
    {
      searchQuery := Lower(input);
      if IsBlank(searchQuery) {
        filtered := keys;
      } else {
        var q := searchQuery;
        filtered := Filter(keys, k => Matches(assets, k, q));
      }
    }

    method HandleAddKey()
      modifies this
      ensures current.None? && form == EmptyForm
      ensures keys == old(keys) && filtered == old(filtered) && searchQuery == old(searchQuery)
    {
      current := None;
      form := EmptyForm;
    }

    method HandleEditKey(k: BitLockerKey)
      modifies this
      ensures current == Some(k) && form == EditForm(k)
      ensures keys == old(keys) && filtered == old(filtered) && searchQuery == old(searchQuery)
    {
      current := Some(k);
      form := EditForm(k);
    }

    method HandleDeleteKey(k: BitLockerKey)
      modifies this
      ensures current == Some(k)
      ensures keys == old(keys) && filtered == old(filtered) && form == old(form) && searchQuery == old(searchQuery)
    {
      current := Some(k);
    }

    /** `confirmDelete`: removes every key with the selected id; the selection itself is kept. */
    method ConfirmDelete()
      modifies this
      ensures old(current).None? ==> keys == old(keys) && filtered == old(filtered)
      ensures old(current).Some? ==>
        keys == RemoveWhere(old(keys), (k: BitLockerKey) => k.id, old(current).value.id) && filtered == keys
      ensures current == old(current) && form == old(form) && searchQuery == old(searchQuery)
    {
      if current.Some? {
        keys := RemoveWhere(keys, (k: BitLockerKey) => k.id, current.value.id);
        filtered := keys;
      }
    }

    /** `handleChange` and `handleSelectChange`: one field of the form takes the typed value. */
    method HandleChange(field: KeyField, value: string)
      modifies this
      ensures form == WithKeyValue(old(form), field, value)
      ensures keys == old(keys) && filtered == old(filtered) && current == old(current) && searchQuery == old(searchQuery)
    {
      form := WithKeyValue(form, field, value);
    }

    /** `handleSaveKey`; `now` is `Date.now()` and `nowIso` the current instant in ISO form. */
    method HandleSaveKey(now: nat, nowIso: string) returns (saved: bool)
      modifies this
      ensures saved <==> FormComplete(form)
      ensures !saved ==> keys == old(keys) && filtered == old(filtered)
      ensures saved ==> keys == Saved(old(keys), current, form, now, nowIso) && filtered == keys
      ensures current == old(current) && form == old(form) && searchQuery == old(searchQuery)
    {
      if !FormComplete(form) {
        return false;
      }
      keys := Saved(keys, current, form, now, nowIso);
      filtered := keys;
      saved := true;
    }
  }
}
