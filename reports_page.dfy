/**
 * The reports page's figures over the fixture data: asset tiles by
 * category and by status, licence seat use, each user's assigned assets,
 * and the optional-date label.
 */
module ReportsPage {
  import opened Wrappers
  import opened Strings
  import opened Types
  import opened Lists

  // ---------------------------------------------------------------- asset tiles

  const Categories: seq<string> := ["laptop", "desktop", "server", "network", "mobile"]
  const Statuses: seq<string> := ["deployed", "available", "maintenance", "decommissioned"]

  function LowerCategory(a: Asset): string
  {
    Lower(a.category)
  }

  function AssetStatus(a: Asset): string
  {
    a.status
  }

  /** One category tile: the assets whose category, lowercased, is exactly the tile's. */
  function CategoryCount(assets: seq<Asset>, category: string): (n: nat)
    ensures n <= |assets|
  {
    CountKey(assets, LowerCategory, category)
  }

  /** One status tile: exact, case-sensitive equality. */
  function StatusCount(assets: seq<Asset>, status: string): (n: nat)
    ensures n <= |assets|
  {
    CountKey(assets, AssetStatus, status)
  }

  /** What a tile counts: each further asset adds one to the tiles its lowercased category or its exact status names. */
  lemma TileCountsStep(assets: seq<Asset>, a: Asset, category: string, status: string)
    ensures CategoryCount([], category) == 0 && StatusCount([], status) == 0
    ensures CategoryCount(assets + [a], category) == CategoryCount(assets, category) + if Lower(a.category) == category then 1 else 0
    ensures StatusCount(assets + [a], status) == StatusCount(assets, status) + if a.status == status then 1 else 0
  {
    CountKeySnoc(assets, a, LowerCategory, category);
    CountKeySnoc(assets, a, AssetStatus, status);
  }

  lemma CategoriesDistinct()
    ensures Distinct(Categories)
  {
    forall i, j | 0 <= i < j < |Categories|
      ensures Categories[i] != Categories[j]
    {
      assert Categories[i][0] != Categories[j][0];
    }
  }

  lemma StatusesDistinct()
    ensures Distinct(Statuses)
  {
    forall i, j | 0 <= i < j < |Statuses|
      ensures Statuses[i] != Statuses[j]
    {
      assert |Statuses[i]| != |Statuses[j]|;
    }
  }

  /** The five category tiles together never count an asset twice. */
  lemma CategoryTilesBounded(assets: seq<Asset>)
    ensures SumCounts(assets, LowerCategory, Categories) <= |assets|
  {
    CategoriesDistinct();
    SumCountsBound(assets, LowerCategory, Categories);
  }

  /**
   * The four status tiles never count an asset twice, and account for
   * every asset exactly when all statuses are among the four.
   */
  lemma StatusTilesBounded(assets: seq<Asset>)
    ensures SumCounts(assets, AssetStatus, Statuses) <= |assets|
    ensures (forall j | 0 <= j < |assets| :: assets[j].status in Statuses) ==> SumCounts(assets, AssetStatus, Statuses) == |assets|
  {
    StatusesDistinct();
    SumCountsBound(assets, AssetStatus, Statuses);
    if forall j | 0 <= j < |assets| :: assets[j].status in Statuses {
      assert forall j | 0 <= j < |assets| :: AssetStatus(assets[j]) in Statuses;
    }
  }

  /** The row of status tiles is the four counts side by side. */
  lemma StatusTilesSum(assets: seq<Asset>)
    ensures SumCounts(assets, AssetStatus, Statuses)
      == StatusCount(assets, "deployed") + StatusCount(assets, "available")
         + StatusCount(assets, "maintenance") + StatusCount(assets, "decommissioned")
  {
    var k3: seq<string> := ["decommissioned"];
    var k2: seq<string> := ["maintenance"] + k3;
    var k1: seq<string> := ["available"] + k2;
    assert Statuses == ["deployed"] + k1;
    assert k3[1..] == [] && k2[1..] == k3 && k1[1..] == k2 && Statuses[1..] == k1;
    assert SumCounts(assets, AssetStatus, k3) == StatusCount(assets, "decommissioned");
    assert SumCounts(assets, AssetStatus, k2) == StatusCount(assets, "maintenance") + SumCounts(assets, AssetStatus, k3);
    assert SumCounts(assets, AssetStatus, k1) == StatusCount(assets, "available") + SumCounts(assets, AssetStatus, k2);
  }

  /** An asset with an unlisted status (a mixed-case one, say) adds to no status tile. */
  lemma UnlistedStatusUncounted(assets: seq<Asset>, a: Asset)
    requires a.status !in Statuses
    ensures SumCounts(assets + [a], AssetStatus, Statuses) == SumCounts(assets, AssetStatus, Statuses)
  {
    SumCountsSnoc(assets + [a], AssetStatus, Statuses);
    assert (assets + [a])[..|assets|] == assets;
    HitsDistinct(Statuses, a.status);
  }

  // ---------------------------------------------------------------- licence use

  function UsedSeats(l: License): int
  {
    l.seats - l.seatsAvailable
  }

  /** The utilisation percentage, guarded against a licence without seats. */
  function Utilization(l: License): real
  {
    if l.seats > 0 then (UsedSeats(l) as real / l.seats as real) * 100.0 else 0.0
  }

  /** No seats reads as unused; consistent seat numbers give a percentage, full use 100 and no use 0. */
  lemma UtilizationRange(l: License)
    ensures l.seats <= 0 ==> Utilization(l) == 0.0
    ensures l.seats > 0 && 0 <= l.seatsAvailable <= l.seats ==> 0.0 <= Utilization(l) <= 100.0
    ensures l.seats > 0 && l.seatsAvailable == 0 ==> Utilization(l) == 100.0
    ensures l.seats > 0 && l.seatsAvailable == l.seats ==> Utilization(l) == 0.0
  {
    if l.seats > 0 && 0 <= l.seatsAvailable <= l.seats {
      var r := UsedSeats(l) as real / l.seats as real;
      assert r * l.seats as real == UsedSeats(l) as real;
      assert 0.0 <= r <= 1.0;
    }
  }

  // ---------------------------------------------------------------- assignments

  /** `asset.assignedTo === user.id`: only a numeric assignment to that very id counts. */
  predicate AssignedTo(a: Asset, u: User)
  {
    a.assignedTo == Some(UserId(u.id))
  }

  function AssignedAssets(assets: seq<Asset>, u: User): (r: seq<Asset>)
    ensures forall k | 0 <= k < |r| :: r[k] in assets && r[k].assignedTo == Some(UserId(u.id))
    ensures forall k | 0 <= k < |assets| :: assets[k].assignedTo == Some(UserId(u.id)) ==> assets[k] in r
  {
    Filter(assets, a => AssignedTo(a, u))
  }

  /** The report keeps the list's order: an asset between two runs is listed exactly when it is assigned to the user, and then between the two runs' results. */
  lemma AssignedInOrder(before: seq<Asset>, x: Asset, after: seq<Asset>, u: User)
    ensures AssignedAssets(before + [x] + after, u) ==
      AssignedAssets(before, u) + (if x.assignedTo == Some(UserId(u.id)) then [x] else []) + AssignedAssets(after, u)
  {
    FilterAround(before, x, after, a => AssignedTo(a, u));
  }

  /** An assignment by name, even the user's id written as text, is never listed under the user. */
  lemma NamedAssignmentNotListed(assets: seq<Asset>, u: User)
    requires forall k | 0 <= k < |assets| :: assets[k].assignedTo.None? || assets[k].assignedTo.value.Named?
    ensures AssignedAssets(assets, u) == []
  {
    FilterNone(assets, a => AssignedTo(a, u));
  }

  /** Two different users never share an asset in this report. */
  lemma AssignmentsDisjoint(assets: seq<Asset>, u: User, v: User)
    requires u.id != v.id
    ensures forall a | a in AssignedAssets(assets, u) :: a !in AssignedAssets(assets, v)
  {
  }

  // ---------------------------------------------------------------- dates

  /**
   * `formatOptionalDate`: "N/A" for an absent or empty value, "Invalid Date"
   * when `parse` (the `Date` constructor) gives no instant, and otherwise the
   * `format` of that instant (the browser's locale rendering).
   */
  function FormatOptionalDate(s: Option<string>, parse: string -> Option<int>, format: int -> string): (t: string)
    ensures (s.None? || s.value == "") ==> t == "N/A"
    ensures s.Some? && s.value != "" && parse(s.value).None? ==> t == "Invalid Date"
    ensures s.Some? && s.value != "" && parse(s.value).Some? ==> t == format(parse(s.value).value)
  {
    if s.None? || s.value == "" then "N/A"
    else match parse(s.value)
      case None => "Invalid Date"
      case Some(instant) => format(instant)
  }
}
