/**
 * The network page's scan: the address check, the lookup among the mock
 * assets, the device details shown for a found or an unknown address, and
 * the list of recent scans. Random values (MAC addresses, serial numbers,
 * the online draw) arrive as parameters.
 */
module NetworkPage {
  import opened Wrappers
  import opened Strings
  import opened Types
  import opened Lists

  // ---------------------------------------------------------------- the address check

  /**
   * One octet of the pattern, alternative by alternative:
   * `25[0-5]`, `2[0-4][0-9]`, or `[01]?[0-9][0-9]?`.
   */
  predicate RegexOctet(s: string)
  {
    (|s| == 3 && s[0] == '2' && s[1] == '5' && '0' <= s[2] <= '5')
    || (|s| == 3 && s[0] == '2' && '0' <= s[1] <= '4' && IsDigit(s[2]))
    || (|s| == 1 && IsDigit(s[0]))
    || (|s| == 2 && (s[0] == '0' || s[0] == '1') && IsDigit(s[1]))
    || (|s| == 2 && IsDigit(s[0]) && IsDigit(s[1]))
    || (|s| == 3 && (s[0] == '0' || s[0] == '1') && IsDigit(s[1]) && IsDigit(s[2]))
  }

  /**
   * The anchored pattern `^(?:octet\.){3}octet$`: the text is four octets
   * with a dot after each of the first three.
   */
  predicate IpRegex(s: string)
  {
    exists p1, p2, p3 | 0 <= p1 < p2 < p3 < |s| ::
      s[p1] == '.' && s[p2] == '.' && s[p3] == '.'
      && RegexOctet(s[..p1]) && RegexOctet(s[p1 + 1..p2]) && RegexOctet(s[p2 + 1..p3]) && RegexOctet(s[p3 + 1..])
  }

  /** A decimal octet: one to three digits, leading zeros allowed, value at most 255. */
  predicate Octet(s: string)
  {
    1 <= |s| <= 3 && AllDigits(s) && DigitsValue(s) <= 255
  }

  /** A dotted quad: exactly four dot-separated octets. */
  predicate ValidIpv4(s: string)
  {
    var parts := Split(s, '.');
    |parts| == 4 && forall k | 0 <= k < 4 :: Octet(parts[k])
  }

  function Digit(c: char): int
  {
    c as int - '0' as int
  }

  lemma DigitsValueShort(s: string)
    requires 1 <= |s| <= 3 && AllDigits(s)
    ensures |s| == 1 ==> DigitsValue(s) == Digit(s[0])
    ensures |s| == 2 ==> DigitsValue(s) == 10 * Digit(s[0]) + Digit(s[1])
    ensures |s| == 3 ==> DigitsValue(s) == 100 * Digit(s[0]) + 10 * Digit(s[1]) + Digit(s[2])
  {
    if |s| >= 2 {
      assert s[..|s| - 1][..|s| - 2] == s[..|s| - 2];
    }
    if |s| == 3 {
      assert s[..1] == s[..2][..1];
    }
  }

  /** The alternation accepts exactly the decimal octets. */
  lemma OctetIff(s: string)
    ensures RegexOctet(s) <==> Octet(s)
  {
    if 1 <= |s| <= 3 && AllDigits(s) {
      DigitsValueShort(s);
    }
  }

  /** `s` is the four parts joined by dots. */
  lemma JoinFour(a: string, b: string, c: string, d: string)
    ensures Join([a, b, c, d], '.') == a + ['.'] + b + ['.'] + c + ['.'] + d
  {
    assert [a, b, c, d][1..] == [b, c, d];
    assert [b, c, d][1..] == [c, d];
    assert [c, d][1..] == [d];
    assert Join([c, d], '.') == c + ['.'] + d;
    assert Join([b, c, d], '.') == b + ['.'] + (c + ['.'] + d);
    assert Join([a, b, c, d], '.') == a + ['.'] + (b + ['.'] + (c + ['.'] + d));
  }

  /** A part the alternation accepts is a decimal octet, and holds no dot. */
  lemma RegexPart(x: string)
    ensures RegexOctet(x) ==> Octet(x) && '.' !in x
  {
    OctetIff(x);
    if RegexOctet(x) {
      assert forall i | 0 <= i < |x| :: x[i] != '.' by {
        assert AllDigits(x);
      }
    }
  }

  /** Three dots at increasing positions cut the text into four parts with those dots between them. */
  lemma DotCuts(s: string, p1: int, p2: int, p3: int)
    requires 0 <= p1 < p2 < p3 < |s| && s[p1] == '.' && s[p2] == '.' && s[p3] == '.'
    ensures s == s[..p1] + ['.'] + s[p1 + 1..p2] + ['.'] + s[p2 + 1..p3] + ['.'] + s[p3 + 1..]
  {
    var t := s[..p1] + ['.'] + s[p1 + 1..p2] + ['.'] + s[p2 + 1..p3] + ['.'] + s[p3 + 1..];
    assert |t| == |s|;
    forall i | 0 <= i < |s|
      ensures t[i] == s[i]
    {
      if i < p1 {
      } else if i == p1 {
      } else if i < p2 {
        assert t[i] == s[p1 + 1..p2][i - p1 - 1];
      } else if i == p2 {
      } else if i < p3 {
        assert t[i] == s[p2 + 1..p3][i - p2 - 1];
      } else if i == p3 {
      } else {
        assert t[i] == s[p3 + 1..][i - p3 - 1];
      }
    }
  }

  /** Four dot-free parts joined by dots split back into those four parts. */
  lemma SplitQuad(a: string, b: string, c: string, d: string)
    requires '.' !in a && '.' !in b && '.' !in c && '.' !in d
    ensures Split(a + ['.'] + b + ['.'] + c + ['.'] + d, '.') == [a, b, c, d]
  {
    JoinFour(a, b, c, d);
    assert NoSeparator([a, b, c, d], '.');
    SplitJoin([a, b, c, d], '.');
  }

  /** The four parts the pattern's dots cut out are the parts of the split, and each is an octet. */
  lemma RegexGivesQuad(s: string, p1: int, p2: int, p3: int)
    requires 0 <= p1 < p2 < p3 < |s| && s[p1] == '.' && s[p2] == '.' && s[p3] == '.'
    requires RegexOctet(s[..p1]) && RegexOctet(s[p1 + 1..p2]) && RegexOctet(s[p2 + 1..p3]) && RegexOctet(s[p3 + 1..])
    ensures ValidIpv4(s)
  {
    var a, b, c, d := s[..p1], s[p1 + 1..p2], s[p2 + 1..p3], s[p3 + 1..];
    RegexPart(a); RegexPart(b); RegexPart(c); RegexPart(d);
    DotCuts(s, p1, p2, p3);
    SplitQuad(a, b, c, d);
    var parts := Split(s, '.');
    assert parts == [a, b, c, d];
    assert Octet(parts[0]) && Octet(parts[1]) && Octet(parts[2]) && Octet(parts[3]);
  }

  /** Where the dots of four parts joined by dots sit, and what lies between them. */
  lemma QuadCuts(a: string, b: string, c: string, d: string)
    ensures var s := a + ['.'] + b + ['.'] + c + ['.'] + d;
      var p1, p2, p3 := |a|, |a| + 1 + |b|, |a| + 1 + |b| + 1 + |c|;
      p3 < |s| && s[p1] == '.' && s[p2] == '.' && s[p3] == '.'
      && s[..p1] == a && s[p1 + 1..p2] == b && s[p2 + 1..p3] == c && s[p3 + 1..] == d
  {
    var s := a + ['.'] + b + ['.'] + c + ['.'] + d;
    var p1, p2, p3 := |a|, |a| + 1 + |b|, |a| + 1 + |b| + 1 + |c|;
    assert s == (a + ['.']) + (b + ['.']) + (c + ['.']) + d;
    assert s[..p1] == a;
    assert s[p1 + 1..p2] == b;
    assert s[p2 + 1..p3] == c;
    assert s[p3 + 1..] == d;
  }

  /** A decimal octet is accepted by the alternation. */
  lemma OctetPart(x: string)
    ensures Octet(x) ==> RegexOctet(x)
  {
    OctetIff(x);
  }

  /** Four accepted parts joined by dots are a match of the pattern. */
  lemma QuadMatches(a: string, b: string, c: string, d: string)
    requires RegexOctet(a) && RegexOctet(b) && RegexOctet(c) && RegexOctet(d)
    ensures IpRegex(a + ['.'] + b + ['.'] + c + ['.'] + d)
  {
    var s := a + ['.'] + b + ['.'] + c + ['.'] + d;
    QuadCuts(a, b, c, d);
    var p1, p2, p3 := |a|, |a| + 1 + |b|, |a| + 1 + |b| + 1 + |c|;
    assert RegexOctet(s[..p1]) by { assert s[..p1] == a; }
    assert RegexOctet(s[p1 + 1..p2]) by { assert s[p1 + 1..p2] == b; }
    assert RegexOctet(s[p2 + 1..p3]) by { assert s[p2 + 1..p3] == c; }
    assert RegexOctet(s[p3 + 1..]) by { assert s[p3 + 1..] == d; }
  }

  /** The parts of a dotted quad, with the dots between them, are a match of the pattern. */
  lemma QuadGivesRegex(s: string)
    requires ValidIpv4(s)
    ensures IpRegex(s)
  {
    var parts := Split(s, '.');
    var a, b, c, d := parts[0], parts[1], parts[2], parts[3];
    assert parts == [a, b, c, d];
    OctetPart(a); OctetPart(b); OctetPart(c); OctetPart(d);
    JoinSplit(s, '.');
    JoinFour(a, b, c, d);
    QuadMatches(a, b, c, d);
  }

  /** The pattern accepts exactly the dotted quads of decimal octets. */
  lemma IpRegexIff(s: string)
    ensures IpRegex(s) <==> ValidIpv4(s)
  {
    if IpRegex(s) {
      var p1, p2, p3 :| 0 <= p1 < p2 < p3 < |s| && s[p1] == '.' && s[p2] == '.' && s[p3] == '.'
        && RegexOctet(s[..p1]) && RegexOctet(s[p1 + 1..p2]) && RegexOctet(s[p2 + 1..p3]) && RegexOctet(s[p3 + 1..]);
      RegexGivesQuad(s, p1, p2, p3);
    }
    if ValidIpv4(s) {
      QuadGivesRegex(s);
    }
  }

  /** Leading zeros are accepted, and a value above 255 is not. */
  lemma OctetExamples()
    ensures Octet("007") && !Octet("256") && !Octet("1000") && !Octet("")
  {
    OctetIff("007");
    OctetIff("256");
  }

  // ---------------------------------------------------------------- the scan result

  datatype Interface = Interface(name: string, macAddress: string, ipAddress: string, up: bool)

  datatype Hardware = Hardware(cpu: string, memory: string, storage: string)

  datatype DeviceDetails = DeviceDetails(
    ipAddress: string, hostname: string, macAddress: string, serialNumber: string, model: string,
    os: string, status: string, lastSeen: string, interfaces: seq<Interface>, hardware: Hardware,
    manufacturer: string, location: string, assignedTo: string)

  /**
   * The random draws one scan makes: three MAC addresses in call order,
   * the serial number's integer, and whether `Math.random() > 0.3`.
   */
  datatype Draws = Draws(mac1: string, mac2: string, mac3: string, serial: nat, online: bool)

  const KnownHardware := Hardware("Intel Core i7-10700K @ 3.80GHz", "16GB DDR4", "512GB SSD")
  const UnknownHardware := Hardware("Unknown CPU", "Unknown Memory", "Unknown Storage")

  /** The first asset with exactly this address; an asset without an address matches nothing. */
  function MatchAsset(assets: seq<Asset>, ip: string): (r: Option<nat>)
    ensures r.Some? ==> r.value < |assets| && assets[r.value].ipAddress == Some(ip)
    ensures r.Some? ==> forall j | 0 <= j < r.value :: assets[j].ipAddress != Some(ip)
    ensures r.None? ==> forall j | 0 <= j < |assets| :: assets[j].ipAddress != Some(ip)
  {
    Find(assets, (a: Asset) => a.ipAddress == Some(ip))
  }

  /** `String(assignedTo)` when truthy: a user id of 0 and an empty name read as unassigned. */
  function AssigneeText(a: Option<Assignee>): string
  {
    match a
    case Some(UserId(id)) => if id != 0 then IntToString(id) else "Unassigned"
    case Some(Named(n)) => if n != "" then n else "Unassigned"
    case None => "Unassigned"
  }

  /** The details of a known asset; `formatDate` renders `updatedAt` in the browser's locale. */
  function KnownDevice(asset: Asset, ip: string, draws: Draws, formatDate: string -> string): DeviceDetails
  {
    var ipText := OrDefault(asset.ipAddress, ip);
    DeviceDetails(
      ipText, Or(asset.assetTag, "Unknown"), OrDefault(asset.macAddress, draws.mac1),
      OrDefault(asset.serialNumber, "Unknown"), Or(asset.model, "Unknown"), "Unknown OS",
      Or(asset.status, "unknown"),
      if asset.updatedAt.Some? && asset.updatedAt.value != "" then formatDate(asset.updatedAt.value) else "Never",
      [Interface("eth0", OrDefault(asset.macAddress, draws.mac2), ipText, true), Interface("wlan0", draws.mac3, "", false)],
      KnownHardware, OrDefault(asset.manufacturer, "Unknown"), OrDefault(asset.location, "Unknown"),
      AssigneeText(asset.assignedTo))
  }

  /** `host-` and the text after the last dot. */
  function HostName(ip: string): string
  {
    "host-" + LastPart(ip, '.')
  }

  function UnknownDevice(ip: string, draws: Draws): DeviceDetails
  {
    DeviceDetails(
      ip, HostName(ip), draws.mac1, "SN" + NatToString(draws.serial), "Generic Device", "Unknown OS",
      if draws.online then "Online" else "Offline", "Never", [Interface("eth0", draws.mac2, ip, true)],
      UnknownHardware, "Unknown Manufacturer", "Unknown", "Unassigned")
  }

  /** What the scan shows for an accepted address. */
  function ScanDetails(assets: seq<Asset>, ip: string, draws: Draws, formatDate: string -> string): (d: DeviceDetails)
    ensures d.ipAddress == ip
    ensures MatchAsset(assets, ip).None? ==> d == UnknownDevice(ip, draws)
    ensures MatchAsset(assets, ip).Some? ==> d == KnownDevice(assets[MatchAsset(assets, ip).value], ip, draws, formatDate)
  {
    match MatchAsset(assets, ip)
    case Some(k) => KnownDevice(assets[k], ip, draws, formatDate)
    case None => UnknownDevice(ip, draws)
  }

  /** An unknown device of a dotted quad is named after its last octet, with no dot in the name. */
  lemma HostNameOfQuad(ip: string)
    requires ValidIpv4(ip)
    ensures HostName(ip) == "host-" + Split(ip, '.')[3]
    ensures '.' !in HostName(ip)
  {
  }

  /** The known device keeps the asset's own text where it has some, and names the fallback where not. */
  lemma KnownDeviceFallbacks(asset: Asset, ip: string, draws: Draws, formatDate: string -> string)
    ensures var d := KnownDevice(asset, ip, draws, formatDate);
      (asset.assetTag != "" ==> d.hostname == asset.assetTag) && (asset.assetTag == "" ==> d.hostname == "Unknown")
      && (asset.location.None? ==> d.location == "Unknown")
      && (asset.assignedTo.None? ==> d.assignedTo == "Unassigned")
      && (asset.updatedAt.None? ==> d.lastSeen == "Never")
      && |d.interfaces| == 2
  {
  }

  // ---------------------------------------------------------------- recent scans

  const RecentLimit := 5

  /** `[ip, ...prev].slice(0, 5)`, done only when `ip` is not already listed. */
  function RecordScan(recent: seq<string>, ip: string): (r: seq<string>)
    ensures ip in recent ==> r == recent
    ensures ip !in recent ==> r == ([ip] + recent)[..if |recent| + 1 < RecentLimit then |recent| + 1 else RecentLimit]
  {
    if ip in recent then recent
    else
      var grown := [ip] + recent;
      grown[..if |grown| < RecentLimit then |grown| else RecentLimit]
  }

  /** The recent list stays short and free of repeats, and the scanned address is in it afterwards. */
  lemma RecordScanKeeps(recent: seq<string>, ip: string)
    requires |recent| <= RecentLimit && Distinct(recent)
    ensures var r := RecordScan(recent, ip);
      |r| <= RecentLimit && Distinct(r) && ip in r
  {
    if ip !in recent {
      var r := RecordScan(recent, ip);
      assert r[0] == ip;
      forall i, j | 0 <= i < j < |r|
        ensures r[i] != r[j]
      {
        assert r[j] == recent[j - 1];
        if i > 0 {
          assert r[i] == recent[i - 1];
        }
      }
    }
  }

  /** A new address goes first and pushes the others back by one, dropping the oldest beyond five. */
  lemma NewScanFirst(recent: seq<string>, ip: string)
    requires ip !in recent
    ensures var r := RecordScan(recent, ip);
      r[0] == ip && forall k | 0 < k < |r| :: r[k] == recent[k - 1]
  {
  }

  // ---------------------------------------------------------------- the page state

  /** How `handleScan` ends at once: the two refusals, or a scan that starts. */
  datatype ScanStart = AddressRequired | InvalidAddress | Started(ip: string)

  class Page {
    var ipAddress: string
    var isScanning: bool
    var scanResults: Option<DeviceDetails>
    var recentScans: seq<string>
    /** The assets addresses are looked up in. */
    const assets: seq<Asset>

    constructor(assets: seq<Asset>)
      ensures ipAddress == "" && !isScanning && scanResults.None? && recentScans == [] && this.assets == assets
    {
      ipAddress := "";
      isScanning := false;
      scanResults := None;
      recentScans := [];
      this.assets := assets;
    }

    ghost predicate Valid()
      reads this
    {
      |recentScans| <= RecentLimit && Distinct(recentScans)
    }

    method SetIpAddress(ip: string)
      modifies this
      ensures ipAddress == ip && isScanning == old(isScanning) && scanResults == old(scanResults)
      ensures recentScans == old(recentScans)
    {
      ipAddress := ip;
    }

    /** `handleScan` up to the timer: the empty address and a malformed one are refused; nothing changes then. */
    method HandleScan() returns (start: ScanStart)
      modifies this
      ensures ipAddress == "" ==> start == AddressRequired
      ensures ipAddress != "" && !IpRegex(ipAddress) ==> start == InvalidAddress
      ensures ipAddress != "" && IpRegex(ipAddress) ==> start == Started(ipAddress)
      ensures start.Started? ==> isScanning
      ensures !start.Started? ==> isScanning == old(isScanning)
      ensures ipAddress == old(ipAddress) && scanResults == old(scanResults) && recentScans == old(recentScans)
    {
      if ipAddress == "" {
        return AddressRequired;
      }
      if !IpRegex(ipAddress) {
        return InvalidAddress;
      }
      isScanning := true;
      start := Started(ipAddress);
    }

    /** The timer's callback for the address the scan started with. */
    method CompleteScan(ip: string, draws: Draws, formatDate: string -> string)
      requires Valid()
      modifies this
      ensures Valid()
      ensures scanResults == Some(ScanDetails(assets, ip, draws, formatDate))
      ensures recentScans == RecordScan(old(recentScans), ip) && ip in recentScans
      ensures !isScanning && ipAddress == old(ipAddress)
    {
      scanResults := Some(ScanDetails(assets, ip, draws, formatDate));
      RecordScanKeeps(recentScans, ip);
      recentScans := RecordScan(recentScans, ip);
      isScanning := false;
    }
  }
}
