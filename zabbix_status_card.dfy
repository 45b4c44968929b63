/**
 * The dashboard's Zabbix card: three tiles counting the hosts that are up,
 * down or of unknown state, and one row per host with a coloured dot and
 * the status written with a capital first letter.
 */
module ZabbixStatusCard {
  import opened Wrappers
  import opened Strings
  import opened Types
  import opened Lists

  /** The statuses the `ZabbixVM` type declares. */
  const HostStatuses: seq<string> := ["up", "down", "unknown"]

  function VmStatus(vm: ZabbixVM): string
  {
    vm.status
  }

  /** `vms.filter(vm => vm.status === status).length`: exact, case-sensitive equality. */
  function StatusCount(vms: seq<ZabbixVM>, status: string): (n: nat)
    ensures n <= |vms|
  {
    CountKey(vms, VmStatus, status)
  }

  /** What a tile counts: no host for none, and each further host adds one to the tile of exactly its status. */
  lemma StatusCountStep(vms: seq<ZabbixVM>, vm: ZabbixVM, status: string)
    ensures StatusCount([], status) == 0
    ensures StatusCount(vms + [vm], status) == StatusCount(vms, status) + if vm.status == status then 1 else 0
  {
    CountKeySnoc(vms, vm, VmStatus, status);
  }

  /** Every host's status is one the type declares. */
  predicate DeclaredStatuses(vms: seq<ZabbixVM>)
  {
    forall j | 0 <= j < |vms| :: vms[j].status in HostStatuses
  }

  lemma TileSum(vms: seq<ZabbixVM>)
    ensures SumCounts(vms, VmStatus, HostStatuses)
      == StatusCount(vms, "up") + StatusCount(vms, "down") + StatusCount(vms, "unknown")
  {
    var k2: seq<string> := ["unknown"];
    var k1: seq<string> := ["down"] + k2;
    assert HostStatuses == ["up"] + k1;
    assert k2[1..] == [] && k1[1..] == k2 && HostStatuses[1..] == k1;
    assert SumCounts(vms, VmStatus, k2) == StatusCount(vms, "unknown");
    assert SumCounts(vms, VmStatus, k1) == StatusCount(vms, "down") + SumCounts(vms, VmStatus, k2);
  }

  /**
   * The three tiles never count a host twice, and together account for
   * every host exactly when all statuses are the declared ones.
   */
  lemma TilesCoverHosts(vms: seq<ZabbixVM>)
    ensures StatusCount(vms, "up") + StatusCount(vms, "down") + StatusCount(vms, "unknown") <= |vms|
    ensures DeclaredStatuses(vms) ==>
      StatusCount(vms, "up") + StatusCount(vms, "down") + StatusCount(vms, "unknown") == |vms|
  {
    assert Distinct(HostStatuses) by {
      forall i, j | 0 <= i < j < |HostStatuses|
        ensures HostStatuses[i] != HostStatuses[j]
      {
        assert HostStatuses[i][0] != HostStatuses[j][0] || |HostStatuses[i]| != |HostStatuses[j]|;
      }
    }
    SumCountsBound(vms, VmStatus, HostStatuses);
    TileSum(vms);
  }

  /** A host whose status is outside the declared three (a capitalised "Up", say) adds to no tile. */
  lemma UndeclaredStatusUncounted(vms: seq<ZabbixVM>, vm: ZabbixVM)
    requires vm.status !in HostStatuses
    ensures StatusCount(vms + [vm], "up") == StatusCount(vms, "up")
    ensures StatusCount(vms + [vm], "down") == StatusCount(vms, "down")
    ensures StatusCount(vms + [vm], "unknown") == StatusCount(vms, "unknown")
  {
    StatusCountStep(vms, vm, "up");
    StatusCountStep(vms, vm, "down");
    StatusCountStep(vms, vm, "unknown");
  }

  // ---------------------------------------------------------------- the host rows

  /** `status.charAt(0).toUpperCase() + status.slice(1)`; the empty status stays empty. */
  function StatusLabel(status: string): (text: string)
    ensures |text| == |status|
  {
    if |status| == 0 then "" else [UpperChar(status[0])] + status[1..]
  }

  /**
   * The label differs from the status only in its first character, which
   * is uppercased: lowercasing both gives the same text, and labelling a
   * label changes nothing.
   */
  lemma LabelOnlyCapitalises(status: string)
    ensures |status| > 0 ==> StatusLabel(status)[0] == UpperChar(status[0]) && StatusLabel(status)[1..] == status[1..]
    ensures Lower(StatusLabel(status)) == Lower(status)
    ensures StatusLabel(StatusLabel(status)) == StatusLabel(status)
  {
    if |status| > 0 {
      var text := StatusLabel(status);
      assert LowerChar(text[0]) == LowerChar(status[0]);
      assert forall i | 1 <= i < |status| :: text[i] == status[i];
      assert UpperChar(text[0]) == text[0];
      assert StatusLabel(text) == [UpperChar(text[0])] + text[1..];
    }
  }

  lemma DeclaredLabels()
    ensures StatusLabel("up") == "Up" && StatusLabel("down") == "Down" && StatusLabel("unknown") == "Unknown"
  {
  }

  /** The three colours a host row can take. */
  datatype Tone = Green | Red | Gray

  /** Up is green, down is red, and anything else, including an undeclared status, is gray. */
  function StatusTone(status: string): (t: Tone)
    ensures t == Green <==> status == "up"
    ensures t == Red <==> status == "down"
    ensures t == Gray <==> status != "up" && status != "down"
  {
    if status == "up" then Green else if status == "down" then Red else Gray
  }

  /** The class of the status dot. */
  function DotClass(t: Tone): string
  {
    match t
    case Green => "bg-green-500"
    case Red => "bg-red-500"
    case Gray => "bg-gray-500"
  }

  /** The class of the status text. */
  function TextClass(t: Tone): string
  {
    match t
    case Green => "text-green-700"
    case Red => "text-red-700"
    case Gray => "text-gray-700"
  }

  predicate GreenDot(vm: ZabbixVM)
  {
    StatusTone(vm.status) == Green
  }

  predicate RedDot(vm: ZabbixVM)
  {
    StatusTone(vm.status) == Red
  }

  /** The green dots are exactly the "up" tile, and the red dots exactly the "down" tile. */
  lemma {:induction false} DotsMatchTiles(vms: seq<ZabbixVM>)
    ensures Count(vms, GreenDot) == StatusCount(vms, "up")
    ensures Count(vms, RedDot) == StatusCount(vms, "down")
  {
    if |vms| > 0 {
      var init := vms[..|vms| - 1];
      var last := vms[|vms| - 1];
      assert vms == init + [last];
      DotsMatchTiles(init);
      StatusCountStep(init, last, "up");
      StatusCountStep(init, last, "down");
      CountSnoc(vms, GreenDot);
      CountSnoc(vms, RedDot);
    } else {
      StatusCountStep(vms, ZabbixVM("", "", "", "", "", 0, 0, 0, "", "", None, None), "up");
      StatusCountStep(vms, ZabbixVM("", "", "", "", "", 0, 0, 0, "", "", None, None), "down");
    }
  }
}
