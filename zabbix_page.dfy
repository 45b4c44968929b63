/**
 * The Zabbix monitoring page: a simulated connection guarded by the
 * server URL and API token, a refresh that re-rolls some hosts' status,
 * optional every-minute auto-refresh, the connection card's host name and
 * the host status tiles. The random draws, the clock's texts and the
 * token's random text are parameters.
 */
module ZabbixPage {
  import opened Strings
  import opened Types
  import Card = ZabbixStatusCard

  const DefaultServerUrl := "https://zabbix.example.com/api_jsonrpc.php"

  // ---------------------------------------------------------------- the server shown

  /** `replace(/^https?:\/\//, "")`: one leading "https://" or "http://" removed, nothing else. */
  function StripScheme(url: string): (rest: string)
    ensures StartsWith(url, "https://") ==> url == "https://" + rest
    ensures StartsWith(url, "http://") ==> url == "http://" + rest
    ensures !StartsWith(url, "https://") && !StartsWith(url, "http://") ==> rest == url
  {
    if StartsWith(url, "https://") then
      assert url[..7][4] != ':';
      url[8..]
    else if StartsWith(url, "http://") then url[7..]
    else url
  }

  /** The connection card's server: the URL without its scheme, up to the first "/". */
  function ServerHost(url: string): (host: string)
    ensures '/' !in host
    ensures StartsWith(StripScheme(url), host)
  {
    var rest := StripScheme(url);
    SplitPartsFree(rest, '/');
    JoinSplit(rest, '/');
    SplitHead(rest, '/');
    Split(rest, '/')[0]
  }

  /** The first element of a split is a prefix of the text. */
  lemma SplitHead(s: string, sep: char)
    ensures StartsWith(s, Split(s, sep)[0])
  {
    if sep in s {
      var i := FirstIndex(s, sep);
      assert Split(s, sep)[0] == s[..i];
    }
  }

  lemma StripSecure(rest: string)
    ensures StripScheme("https://" + rest) == rest
  {
    var url := "https://" + rest;
    assert url[..8] == "https://" && url[8..] == rest;
  }

  lemma StripPlain(rest: string)
    ensures StripScheme("http://" + rest) == rest
  {
    var url := "http://" + rest;
    assert url[..7] == "http://" && url[7..] == rest;
    assert !StartsWith(url, "https://") by {
      assert url[4] == ':';
    }
  }

  /** An http or https URL shows the host that follows the scheme, whatever path comes after it. */
  lemma HostOfWebUrl(host: string, path: string)
    requires '/' !in host
    ensures ServerHost("https://" + host + "/" + path) == host
    ensures ServerHost("http://" + host + "/" + path) == host
    ensures ServerHost("https://" + host) == host && ServerHost("http://" + host) == host
  {
    var rest := host + "/" + path;
    assert "https://" + host + "/" + path == "https://" + rest;
    assert "http://" + host + "/" + path == "http://" + rest;
    StripSecure(rest);
    StripPlain(rest);
    StripSecure(host);
    StripPlain(host);
    SplitAfterFree(host, path, '/');
  }

  /** The default URL shows "zabbix.example.com". */
  lemma DefaultHost()
    ensures ServerHost(DefaultServerUrl) == "zabbix.example.com"
  {
    assert DefaultServerUrl == "https://" + "zabbix.example.com" + "/" + "api_jsonrpc.php";
    HostOfWebUrl("zabbix.example.com", "api_jsonrpc.php");
  }

  /** Another scheme is not stripped: "ftp://h/x" shows "ftp:". */
  lemma OtherSchemeKept()
    ensures ServerHost("ftp://h/x") == "ftp:"
  {
    var url := "ftp://h/x";
    assert !StartsWith(url, "https://") && !StartsWith(url, "http://") by {
      assert url[0] == 'f';
    }
    assert url == "ftp:" + "/" + "/h/x";
    SplitAfterFree("ftp:", "/h/x", '/');
  }

  // ---------------------------------------------------------------- refresh

  /**
   * The random numbers one host's refresh draws: `Math.random() > 0.7`,
   * the index `Math.floor(Math.random() * 3)` into the three statuses, and
   * the two `Math.floor(Math.random() * 100)` usage figures.
   */
  datatype Draw = Draw(changes: bool, pick: nat, cpu: nat, memory: nat)

  /** What `Math.random()`, which lies in [0, 1), can give. */
  predicate DrawInRange(d: Draw)
  {
    d.pick < 3 && d.cpu < 100 && d.memory < 100
  }

  predicate DrawsFor(vms: seq<ZabbixVM>, draws: seq<Draw>)
  {
    |draws| == |vms| && forall k | 0 <= k < |draws| :: DrawInRange(draws[k])
  }

  /** One host's refresh: kept, or given a status from the three with usage only when up, checked at `now`. */
  function RefreshVm(vm: ZabbixVM, d: Draw, now: string): ZabbixVM
    requires DrawInRange(d)
  {
    if !d.changes then vm
    else
      var status := Card.HostStatuses[d.pick];
      vm.(status := status, cpuUsage := if status == "up" then d.cpu else 0,
          memoryUsage := if status == "up" then d.memory else 0, lastCheck := now)
  }

  /**
   * Each refreshed host is the same host, or one whose status is a declared
   * one, whose CPU and memory are percentages that are zero unless it is
   * up, whose last check is `now`, and whose every other field (disk use
   * among them) is unchanged.
   */
  lemma RefreshShape(vm: ZabbixVM, d: Draw, now: string)
    requires DrawInRange(d)
    ensures var r := RefreshVm(vm, d, now);
      r == vm
      || (r.status in Card.HostStatuses && 0 <= r.cpuUsage < 100 && 0 <= r.memoryUsage < 100
          && (r.status != "up" ==> r.cpuUsage == 0 && r.memoryUsage == 0)
          && r.lastCheck == now
          && r.(status := vm.status, cpuUsage := vm.cpuUsage, memoryUsage := vm.memoryUsage, lastCheck := vm.lastCheck) == vm)
  {
  }

  /** `vms.map(...)` with one draw per host. */
  function Refreshed(vms: seq<ZabbixVM>, draws: seq<Draw>, now: string): (r: seq<ZabbixVM>)
    requires DrawsFor(vms, draws)
    ensures |r| == |vms|
    ensures forall k | 0 <= k < |r| :: r[k] == RefreshVm(vms[k], draws[k], now)
  {
    seq(|vms|, k requires 0 <= k < |vms| => RefreshVm(vms[k], draws[k], now))
  }

  /** A refresh keeps every host's status among the declared three, so the tiles still account for all hosts. */
  lemma RefreshKeepsDeclared(vms: seq<ZabbixVM>, draws: seq<Draw>, now: string)
    requires DrawsFor(vms, draws)
    requires Card.DeclaredStatuses(vms)
    ensures Card.DeclaredStatuses(Refreshed(vms, draws, now))
    ensures var r := Refreshed(vms, draws, now);
      Card.StatusCount(r, "up") + Card.StatusCount(r, "down") + Card.StatusCount(r, "unknown") == |vms|
  {
    var r := Refreshed(vms, draws, now);
    forall k | 0 <= k < |r|
      ensures r[k].status in Card.HostStatuses
    {
      RefreshShape(vms[k], draws[k], now);
    }
    Card.TilesCoverHosts(r);
  }

  /** A refresh in which no draw exceeds 0.7 changes no host. */
  lemma QuietRefresh(vms: seq<ZabbixVM>, draws: seq<Draw>, now: string)
    requires DrawsFor(vms, draws)
    requires forall k | 0 <= k < |draws| :: !draws[k].changes
    ensures Refreshed(vms, draws, now) == vms
  {
  }

  // ---------------------------------------------------------------- the page state

  class Page {
    var vms: seq<ZabbixVM>
    var isConnected: bool
    var isConnecting: bool
    var apiToken: string
    var serverUrl: string
    var autoRefresh: bool
    var lastRefresh: string

    /** The mock hosts, not connected, no token, the example URL; `now` is the clock's locale text. */
    constructor(initial: seq<ZabbixVM>, now: string)
      ensures vms == initial && !isConnected && !isConnecting && apiToken == ""
      ensures serverUrl == DefaultServerUrl && !autoRefresh && lastRefresh == now
    {
      vms := initial;
      isConnected := false;
      isConnecting := false;
      apiToken := "";
      serverUrl := DefaultServerUrl;
      autoRefresh := false;
      lastRefresh := now;
    }

    method SetServerUrl(url: string)
      modifies this
      ensures serverUrl == url
      ensures vms == old(vms) && isConnected == old(isConnected) && isConnecting == old(isConnecting)
      ensures apiToken == old(apiToken) && autoRefresh == old(autoRefresh) && lastRefresh == old(lastRefresh)
    {
      serverUrl := url;
    }

    method SetApiToken(token: string)
      modifies this
      ensures apiToken == token
      ensures vms == old(vms) && isConnected == old(isConnected) && isConnecting == old(isConnecting)
      ensures serverUrl == old(serverUrl) && autoRefresh == old(autoRefresh) && lastRefresh == old(lastRefresh)
    {
      apiToken := token;
    }

    /** `handleGenerateToken`: two random base-36 texts joined; the texts are parameters. */
    method GenerateToken(first: string, second: string)
      modifies this
      ensures apiToken == first + second
      ensures vms == old(vms) && isConnected == old(isConnected) && isConnecting == old(isConnecting)
      ensures serverUrl == old(serverUrl) && autoRefresh == old(autoRefresh) && lastRefresh == old(lastRefresh)
    {
      apiToken := first + second;
    }

    method SetAutoRefresh(on: bool)
      modifies this
      ensures autoRefresh == on
      ensures vms == old(vms) && isConnected == old(isConnected) && isConnecting == old(isConnecting)
      ensures serverUrl == old(serverUrl) && apiToken == old(apiToken) && lastRefresh == old(lastRefresh)
    {
      autoRefresh := on;
    }

    /**
     * `connectToZabbix`: refused, with nothing changed, when the URL or the
     * token is empty; otherwise the connection starts and completes later.
     */
    method ConnectToZabbix() returns (refused: bool)
      modifies this
      ensures refused <==> old(serverUrl) == "" || old(apiToken) == ""
      ensures isConnecting == (old(isConnecting) || !refused)
      ensures vms == old(vms) && isConnected == old(isConnected) && apiToken == old(apiToken)
      ensures serverUrl == old(serverUrl) && autoRefresh == old(autoRefresh) && lastRefresh == old(lastRefresh)
    {
      if serverUrl == "" || apiToken == "" {
        refused := true;
        return;
      }
      refused := false;
      isConnecting := true;
    }

    /** `refreshData`: the refresh time and a re-roll of the hosts. */
    method RefreshData(draws: seq<Draw>, nowText: string, nowIso: string)
      requires DrawsFor(vms, draws)
      modifies this
      ensures lastRefresh == nowText && vms == Refreshed(old(vms), draws, nowIso)
      ensures isConnected == old(isConnected) && isConnecting == old(isConnecting) && apiToken == old(apiToken)
      ensures serverUrl == old(serverUrl) && autoRefresh == old(autoRefresh)
    {
      lastRefresh := nowText;
      vms := Refreshed(vms, draws, nowIso);
    }

    /** The connection timer's end: connected, no longer connecting, and a first refresh. */
    method ConnectionEstablished(draws: seq<Draw>, nowText: string, nowIso: string)
      requires DrawsFor(vms, draws)
      modifies this
      ensures isConnected && !isConnecting
      ensures lastRefresh == nowText && vms == Refreshed(old(vms), draws, nowIso)
      ensures apiToken == old(apiToken) && serverUrl == old(serverUrl) && autoRefresh == old(autoRefresh)
    {
      isConnected := true;
      isConnecting := false;
      RefreshData(draws, nowText, nowIso);
    }

    /** The one-minute interval, which exists only while connected with auto-refresh on. */
    method AutoRefreshTick(draws: seq<Draw>, nowText: string, nowIso: string)
      requires DrawsFor(vms, draws)
      modifies this
      ensures old(isConnected && autoRefresh) ==> lastRefresh == nowText && vms == Refreshed(old(vms), draws, nowIso)
      ensures !old(isConnected && autoRefresh) ==> lastRefresh == old(lastRefresh) && vms == old(vms)
      ensures isConnected == old(isConnected) && isConnecting == old(isConnecting) && apiToken == old(apiToken)
      ensures serverUrl == old(serverUrl) && autoRefresh == old(autoRefresh)
    {
      if isConnected && autoRefresh {
        RefreshData(draws, nowText, nowIso);
      }
    }
  }
}
