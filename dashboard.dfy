/**
 * The dashboard's figures: totals of each fixture list, the four asset
 * status counts, the licences expiring within thirty days, and the cards'
 * descriptions and trends built from them.
 */
module Dashboard {
  import opened Wrappers
  import opened Strings
  import opened Types
  import opened Lists
  import LicensesPage
  import ReportsPage
  import ZabbixStatusCard

  datatype Trend = Up | Down | Neutral

  /** A stat card's optional description and its trend arrow. */
  datatype Card = Card(title: string, value: nat, description: Option<string>, trend: Option<Trend>)

  /** `isExpiringSoon`'s rule applied to a licence: `now` and `parseDate` as on the licences page. */
  predicate Expiring(l: License, parseDate: string -> Option<int>, now: int)
  {
    LicensesPage.IsExpiringSoon(l.expirationDate, parseDate, now)
  }

  /** The licences page's badge for a licence reads "Expiring Soon". */
  predicate BadgedSoon(l: License, parseDate: string -> Option<int>, now: int)
  {
    LicensesPage.ExpirationStatus(l.expirationDate, parseDate, now) == LicensesPage.ExpiringSoon
  }

  function ExpiringCount(licenses: seq<License>, parseDate: string -> Option<int>, now: int): (n: nat)
    ensures n <= |licenses|
  {
    Count(licenses, l => Expiring(l, parseDate, now))
  }

  /**
   * The dashboard counts exactly the licences the licences page badges
   * "Expiring Soon": a date after now and at most thirty days ahead; a
   * missing or unreadable date is never counted.
   */
  lemma {:induction false} ExpiringMatchesBadge(licenses: seq<License>, parseDate: string -> Option<int>, now: int)
    ensures ExpiringCount(licenses, parseDate, now)
      == Count(licenses, l => BadgedSoon(l, parseDate, now))
  {
    forall k | 0 <= k < |licenses|
      ensures Expiring(licenses[k], parseDate, now) == BadgedSoon(licenses[k], parseDate, now)
    {
      LicensesPage.ExpiryClassification(licenses[k].expirationDate, parseDate, now);
    }
    FilterCongruent(licenses, l => Expiring(l, parseDate, now), l => BadgedSoon(l, parseDate, now));
  }

  /** A licence without an expiration date never adds to the count. */
  lemma UndatedNeverExpiring(licenses: seq<License>, l: License, parseDate: string -> Option<int>, now: int)
    requires l.expirationDate.None?
    ensures ExpiringCount(licenses + [l], parseDate, now) == ExpiringCount(licenses, parseDate, now)
  {
    assert (licenses + [l])[..|licenses|] == licenses;
    CountSnoc(licenses + [l], x => Expiring(x, parseDate, now));
  }

  /** The Licenses card: "N expiring soon" and a downward trend when N > 0, otherwise no text and a neutral trend. */
  function LicensesCard(licenses: seq<License>, parseDate: string -> Option<int>, now: int): (c: Card)
    ensures c.value == |licenses|
    ensures ExpiringCount(licenses, parseDate, now) > 0 ==>
      c.description == Some(NatToString(ExpiringCount(licenses, parseDate, now)) + " expiring soon") && c.trend == Some(Down)
    ensures ExpiringCount(licenses, parseDate, now) == 0 ==> c.description.None? && c.trend == Some(Neutral)
  {
    var n := ExpiringCount(licenses, parseDate, now);
    Card("Licenses", |licenses|, if n > 0 then Some(NatToString(n) + " expiring soon") else None,
      Some(if n > 0 then Down else Neutral))
  }

  /** The Zabbix card: "N online" where N counts the VMs whose status is exactly "up". */
  function ZabbixCard(vms: seq<ZabbixVM>): (c: Card)
    ensures c.value == |vms| && c.trend == Some(Up)
    ensures c.description == Some(NatToString(ZabbixStatusCard.StatusCount(vms, "up")) + " online")
  {
    Card("Zabbix VMs", |vms|, Some(NatToString(ZabbixStatusCard.StatusCount(vms, "up")) + " online"), Some(Up))
  }

  /** The four chart counts and the asset total. */
  datatype AssetFigures = AssetFigures(deployed: nat, available: nat, maintenance: nat, decommissioned: nat, total: nat)

  function Figures(assets: seq<Asset>): AssetFigures
  {
    AssetFigures(
      ReportsPage.StatusCount(assets, "deployed"), ReportsPage.StatusCount(assets, "available"),
      ReportsPage.StatusCount(assets, "maintenance"), ReportsPage.StatusCount(assets, "decommissioned"), |assets|)
  }

  /**
   * The four status counts add up to at most the total, and to the total
   * exactly when every asset has one of the four statuses.
   */
  lemma FiguresBounded(assets: seq<Asset>)
    ensures var f := Figures(assets);
      f.deployed + f.available + f.maintenance + f.decommissioned <= f.total
      && ((forall j | 0 <= j < |assets| :: assets[j].status in ReportsPage.Statuses) ==>
            f.deployed + f.available + f.maintenance + f.decommissioned == f.total)
  {
    ReportsPage.StatusTilesBounded(assets);
    ReportsPage.StatusTilesSum(assets);
  }
}
