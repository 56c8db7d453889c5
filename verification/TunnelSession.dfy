/** Bringing a tunnel session up in stages and tearing it down in a fixed order,
    on an operating system that may refuse any step. */
module TunnelSession {
  import opened Wrappers
  import opened Routes

  datatype Status = Created | RoutesApplied | Running | Stopped

  datatype Config = Config(
    interface: string, routes: seq<Network>, fullTunnel: bool, ipv6Enabled: bool, routeSystemDns: bool,
    dnsServers: seq<Network>, hasOutbound: bool, dnsListenPort: nat, resolvable: bool)

  function HostNetwork(ip: Network): Network {
    ip.(prefix := if ip.v6 then 128 else 32)
  }

  /** The host routes that draw the system's DNS servers into a split tunnel. */
  function DnsHostRoutes(servers: seq<Network>, ipv6Enabled: bool): seq<Network> {
    if servers == [] then []
    else
      var ip := servers[0];
      (if ipv6Enabled || !ip.v6 then [HostNetwork(ip)] else [])
      + DnsHostRoutes(servers[1..], ipv6Enabled)
  }

  /** A host route for each server that the tunnel can carry, and for no other. */
  lemma {:induction false} DnsHostRoutesExact(servers: seq<Network>, ipv6Enabled: bool, route: Network)
    ensures route in DnsHostRoutes(servers, ipv6Enabled) <==>
            exists ip :: ip in servers && (ipv6Enabled || !ip.v6) && route == HostNetwork(ip)
  {
    if servers != [] {
      DnsHostRoutesExact(servers[1..], ipv6Enabled, route);
      assert forall ip :: ip in servers <==> ip == servers[0] || ip in servers[1..];
    }
  }

  /** Every route a session plans to add. */
  function PlannedNetworks(config: Config): seq<Network> {
    if config.fullTunnel || !config.routeSystemDns then config.routes
    else config.routes + DnsHostRoutes(config.dnsServers, config.ipv6Enabled)
  }

  /** A plan has the configured networks, and in a split tunnel with the option on the
      /32 or /128 of each DNS server of a family the tunnel has; nothing else. */
  lemma PlannedNetworksExact(config: Config, network: Network)
    ensures network in PlannedNetworks(config) <==>
            || network in config.routes
            || (&& !config.fullTunnel && config.routeSystemDns
                && exists ip :: ip in config.dnsServers && (config.ipv6Enabled || !ip.v6)
                                && network == Network(ip.address, if ip.v6 then 128 else 32, ip.v6))
  {
    DnsHostRoutesExact(config.dnsServers, config.ipv6Enabled, network);
    if ip :| ip in config.dnsServers && (config.ipv6Enabled || !ip.v6)
             && network == Network(ip.address, if ip.v6 then 128 else 32, ip.v6)
    {
      assert HostNetwork(ip) == network;
    }
  }

  lemma PlannedRoutesExact(config: Config, route: Route)
    ensures route in Elements(PlannedRoutes(config)) <==>
            exists n :: n in PlannedNetworks(config) && SystemRoute(n, config.interface) == route
  {
    var networks, routes := PlannedNetworks(config), PlannedRoutes(config);
    if route in routes {
      var i :| 0 <= i < |routes| && routes[i] == route;
      assert networks[i] in networks;
    }
    if n :| n in networks && SystemRoute(n, config.interface) == route {
      var i :| 0 <= i < |networks| && networks[i] == n;
      assert routes[i] == route;
    }
  }

  /** Every configured network is routed by the plan. */
  lemma ConfiguredAreRouted(config: Config, table: set<Route>)
    requires Elements(PlannedRoutes(config)) <= table
    ensures forall n :: n in config.routes ==> SystemRoute(n, config.interface) in table
  {
    forall n | n in config.routes ensures SystemRoute(n, config.interface) in table {
      PlannedNetworksExact(config, n);
      PlannedRoutesExact(config, SystemRoute(n, config.interface));
    }
  }

  function PlannedRoutes(config: Config): seq<Route> {
    SystemRoutes(PlannedNetworks(config), config.interface)
  }

  /** A start asks the environment, from request `c` on: for the key, the device and
      the outbound context; for the endpoint; with an outbound interface for its
      bypass; then for the routes. */
  predicate BypassSetUp(config: Config, refuses: Refusals, c: nat) {
    config.hasOutbound && !refuses(c) && !refuses(c + 1) && !refuses(c + 2)
  }

  /** The routes that a start leaves in the table although the session has no handle
      to them: those its `apply` could not roll back. */
  function LeftByStart(config: Config, table: set<Route>, refuses: Refusals, c: nat): set<Route> {
    if refuses(c) || refuses(c + 1) then {}
    else LeftByApply(refuses, c + if config.hasOutbound then 3 else 2, table, PlannedRoutes(config))
  }

  /** With an outbound interface, its bypass is attempted before any route is added. */
  ghost predicate BypassFirst(log: seq<OsEvent>) {
    forall i :: 0 <= i < |log| && log[i].Added? ==>
      exists j :: 0 <= j < i && (log[j].BypassUp? || log[j].BypassFailed?)
  }

  /** Position of an event in the order of a tear-down. */
  function Stage(event: OsEvent): nat {
    match event
    case ProbeDropped => 0
    case DnsServerStopped => 1
    case Deleted(_) => 2
    case DeleteFailed(_) => 2
    case ManagerFailed(_) => 2
    case BypassDown(_, _) => 3
    case DeviceStopped => 4
    case _ => 5
  }

  ghost predicate InTearDownOrder(events: seq<OsEvent>) {
    && (forall i :: 0 <= i < |events| ==> Stage(events[i]) <= 4)
    && (forall i, j :: 0 <= i < j < |events| ==> Stage(events[i]) <= Stage(events[j]))
  }

  /** What the order means: the probe goes first and the DNS server next; no route is
      deleted after the bypass is torn down; the device goes last. Nothing is brought
      up meanwhile. */
  lemma TearDownOrderMeans(events: seq<OsEvent>, i: nat, j: nat)
    requires InTearDownOrder(events) && i < j < |events|
    ensures events[j].ProbeDropped? ==> events[i].ProbeDropped?
    ensures events[j].DnsServerStopped? ==> events[i].ProbeDropped? || events[i].DnsServerStopped?
    ensures events[i].BypassDown? ==> !events[j].Deleted? && !events[j].DeleteFailed? && !events[j].ManagerFailed?
    ensures events[i].DeviceStopped? ==> events[j].DeviceStopped?
    ensures !events[i].Added? && !events[i].BypassUp? && !events[i].DeviceStarted? && !events[i].ProbeStarted?
  {
  }

  class Session {
    const os: Os
    const config: Config
    var networks: seq<Network>
    var status: Status
    var device: bool
    var applied: Option<AppliedRoutes>
    var bypass: bool
    var probe: bool
    var dnsServer: bool

    ghost predicate Valid()
      reads this, os
    {
      && os.Consistent()
      && (applied.Some? ==> Distinct(applied.value.routes) && Elements(applied.value.routes) == os.held)
    }

    /** No handle is held. */
    ghost predicate Empty()
      reads this
    {
      !device && applied.None? && !bypass && !probe && !dnsServer
    }

    /** The session has lost the handle of routes that are still in the table, and
        holds its bypass. */
    ghost predicate HandleLost()
      reads this, os
    {
      bypass && applied.None? && os.held != {}
    }

    /** A session that has done nothing yet. */
    ghost predicate Untouched()
      reads this, os
    {
      Valid() && Empty() && os.log == [] && os.held == {} && networks == config.routes
    }

    constructor (os: Os, config: Config)
      requires os.Consistent() && os.log == [] && os.held == {}
      ensures this.os == os && this.config == config && Untouched() && status == Created
    {
      this.os, this.config, networks := os, config, config.routes;
      status, device, applied, bypass, probe, dnsServer := Created, false, None, false, false, false;
    }

    method RouteSystemDns()
      requires networks == config.routes
      modifies this`networks
      ensures networks == PlannedNetworks(config)
      ensures config.routes <= networks
      ensures config.fullTunnel || !config.routeSystemDns ==> networks == config.routes
    {
      if config.fullTunnel {
        return;
      }
      if !config.routeSystemDns {
        return;
      }
      var hosts := DnsHostRoutes(config.dnsServers, config.ipv6Enabled);
      networks := networks + hosts;
    }

    /** Bypass first: a failure is logged and survived. */
    method SetUpBypass()
      requires Valid() && Empty() && os.log == [] && os.held == {}
      modifies this`bypass, os
      ensures Valid() && os.table == old(os.table) && os.held == {}
      ensures if config.hasOutbound then os.log == [if bypass then BypassUp else BypassFailed]
              else os.log == [] && !bypass
      ensures bypass <==> config.hasOutbound && !os.refuses(old(os.calls))
      ensures os.calls == old(os.calls) + if config.hasOutbound then 1 else 0
    {
      if config.hasOutbound {
        var bypassOk := os.Ask();
        os.Note(if bypassOk then BypassUp else BypassFailed);
        bypass := bypassOk;
      }
    }

    method ApplyRoutes() returns (ok: bool)
      requires Valid() && applied.None? && os.held == {} && NoTearDown(os.log)
      requires Undeleted(os.log) == {}
      modifies this`applied, this`status, os
      ensures Valid() && old(os.log) <= os.log && NoTearDown(os.log)
      ensures ok ==> applied.Some? && status == RoutesApplied
      ensures ok ==> os.table == old(os.table) + Elements(SystemRoutes(networks, config.interface))
      ensures !ok ==> applied.None? && status == old(status) && os.table == old(os.table) + Undeleted(os.log)
      ensures !ok && Undeleted(os.log) == {} ==> os.held == {}
      ensures ok <==>
              ApplySucceeds(os.refuses, old(os.calls), SystemRoutes(networks, config.interface))
      ensures !ok ==>
                os.held == LeftByApply(
                  os.refuses, old(os.calls), old(os.table), SystemRoutes(networks, config.interface))
    {
      ghost var before := os.log;
      var result := Apply(os, config.interface, networks);
      assert NoTearDown(os.log) by {
        forall k | 0 <= k < |os.log| ensures !os.log[k].BypassDown? {
          assert k >= |before| ==> IsRouteEvent(os.log[k]);
          assert k < |before| ==> os.log[k] == before[k];
        }
      }
      if result.Err? {
        UndeletedSplit(os.log, |before|);
        LeftByApplyIsNew(os.refuses, old(os.calls), old(os.table), SystemRoutes(networks, config.interface));
        assert os.log[..|before|] == before;
        return false;
      }
      applied := Some(result.value);
      status := RoutesApplied;
      ok := true;
    }

    /** Note an event that touches neither the routes nor the bypass. */
    method NoteStarted(event: OsEvent)
      requires Valid() && (event.DnsServerStarted? || event.DeviceStarted? || event.ProbeStarted?)
      modifies os`log
      ensures Valid() && os.table == old(os.table) && os.log == old(os.log) + [event]
      ensures os.held == old(os.held)
      ensures old(NoTearDown(os.log)) ==> NoTearDown(os.log)
    {
      os.Note(event);
    }

    /** Before anything is taken: the key, the device and the outbound context, then
        the endpoint and the peer. */
    method Prepare() returns (ok: bool)
      requires Untouched()
      modifies this`networks, os`calls
      ensures Valid() && Empty()
      ensures ok <==> !os.refuses(old(os.calls)) && !os.refuses(old(os.calls) + 1)
      ensures ok ==> networks == PlannedNetworks(config) && os.calls == old(os.calls) + 2
    {
      var early := os.Ask();
      if !early {
        return false;
      }
      RouteSystemDns();
      var resolved := os.Ask();
      ok := resolved;
    }

    /** The bypass and the routes. */
    method BringRoutes() returns (ok: bool)
      requires Valid() && Empty() && os.log == [] && os.held == {} && networks == PlannedNetworks(config)
      modifies this`bypass, this`applied, this`status, os
      ensures Valid() && NoTearDown(os.log) && BypassOpens(os.log, config.hasOutbound, bypass)
      ensures config.hasOutbound ==> os.log != []
      ensures bypass <==> config.hasOutbound && !os.refuses(old(os.calls))
      ensures ok ==> applied.Some? && os.table == old(os.table) + Elements(PlannedRoutes(config))
      ensures !ok ==> applied.None? && (Undeleted(os.log) == {} ==> os.table == old(os.table) && os.held == {})
      ensures LeftByApply(
                os.refuses, old(os.calls) + if config.hasOutbound then 1 else 0, old(os.table), PlannedRoutes(config))
              == if ok then {} else os.held
    {
      SetUpBypass();
      ok := ApplyRoutes();
    }

    /** The DNS server, the device and the probe. */
    method BringDevice() returns (ok: bool)
      requires Valid() && NoTearDown(os.log) && BypassOpens(os.log, config.hasOutbound, bypass)
      requires config.hasOutbound ==> os.log != []
      modifies this`dnsServer, this`device, this`probe, this`status, os`log, os`calls
      ensures Valid() && NoTearDown(os.log) && BypassOpens(os.log, config.hasOutbound, bypass)
      ensures ok ==>
                && status == Running && device && probe
                && (config.dnsListenPort > 0 && config.resolvable ==> dnsServer)
      ensures !(config.dnsListenPort > 0 && config.resolvable) ==> dnsServer == old(dnsServer)
    {
      var wrapped := os.Ask();
      if !wrapped {
        return false;
      }
      if config.dnsListenPort > 0 && config.resolvable {
        var serving := os.Ask();
        if !serving {
          return false;
        }
        NoteStarted(DnsServerStarted);
        dnsServer := true;
      }
      var built := os.Ask();
      if !built {
        return false;
      }
      NoteStarted(DeviceStarted);
      device := true;
      NoteStarted(ProbeStarted);
      probe := true;
      status := Running;
      ok := true;
    }

    /** The stages of a start. On an error the handles taken so far are kept, for
        `Stop` to give back. */
    method StartInner() returns (ok: bool)
      requires Untouched()
      modifies this, os
      ensures Valid() && NoTearDown(os.log) && BypassOpens(os.log, config.hasOutbound, bypass)
      ensures ok ==>
                && status == Running && device && probe && applied.Some?
                && os.table == old(os.table) + Elements(PlannedRoutes(config))
                && (dnsServer <==> config.dnsListenPort > 0 && config.resolvable)
                && forall n :: n in config.routes ==> SystemRoute(n, config.interface) in os.table
      ensures !ok && applied.None? && Undeleted(os.log) == {} ==> os.table == old(os.table) && os.held == {}
      ensures bypass <==> BypassSetUp(config, os.refuses, old(os.calls))
      ensures LeftByStart(config, old(os.table), os.refuses, old(os.calls)) ==
              if applied.None? then os.held else {}
    {
      var prepared := Prepare();
      if !prepared {
        return false;
      }
      var routed := BringRoutes();
      if !routed {
        return false;
      }
      ConfiguredAreRouted(config, os.table);
      ok := BringDevice();
    }

    method StopHelpers()
      requires Valid()
      modifies this`probe, this`dnsServer, os`log
      ensures Valid() && !probe && !dnsServer && os.table == old(os.table) && os.held == old(os.held)
      ensures os.log == old(os.log) + HelperEvents(old(probe), old(dnsServer))
    {
      if probe {
        os.Note(ProbeDropped);
        probe := false;
      }
      if dnsServer {
        os.Note(DnsServerStopped);
        dnsServer := false;
      }
    }

    method GiveBackRoutes() returns (ok: bool, ghost removals: seq<OsEvent>)
      requires Valid()
      modifies this`applied, os
      ensures Valid() && applied.None?
      ensures os.log == old(os.log) + removals
      ensures forall i :: 0 <= i < |removals| ==> RemovalEvent(removals[i])
      ensures ok ==> os.held == if old(applied).Some? then {} else old(os.held)
      ensures !ok ==> old(applied).Some? && os.held <= old(os.held) && !DeletesSucceed(os.log)
      ensures !ok && old(os.held) != {} ==> os.held != {}
      ensures old(applied).Some? ==>
                (ok <==> RemovalGranted(os.refuses, old(os.calls), |old(applied).value.routes|))
    {
      removals := [];
      if applied.Some? {
        var routes := applied.value;
        applied := None;
        ghost var before := os.log;
        var removed := Remove(os, routes);
        removals := os.log[|before|..];
        if removed.Err? {
          assert removed.error.DeleteRoute? ==> removed.error.route in os.held;
          return false, removals;
        }
      }
      ok := true;
    }

    method TakeDown() returns (ghost downOk: bool)
      requires Valid() && applied.None?
      modifies this`bypass, this`device, this`status, os
      ensures Valid() && !bypass && !device && status == Stopped && os.table == old(os.table) && os.held == old(os.held)
      ensures os.log == old(os.log) + DownEvents(old(bypass), downOk, os.held, old(device))
    {
      downOk := true;
      if bypass {
        var done := os.Ask();
        os.Note(BypassDown(done, os.held));
        downOk := done;
        bypass := false;
      }
      if device {
        os.Note(DeviceStopped);
        device := false;
      }
      status := Stopped;
    }

    /** Give everything back, in order. A route that cannot be deleted ends the
        tear-down: the bypass and the device are then left as they are. The
        bypass comes down over routes of this session exactly when their handle was
        lost. */
    method Stop() returns (ok: bool)
      requires Valid()
      modifies this, os
      ensures Valid() && old(os.log) <= os.log && networks == old(networks)
      ensures !probe && !dnsServer && applied.None?
      ensures ok ==> Empty() && status == Stopped
      ensures ok ==> os.held == if old(applied).Some? then {} else old(os.held)
      ensures os.held <= old(os.held)
      ensures !ok ==> old(applied).Some? && bypass == old(bypass) && device == old(device) && status == old(status)
      ensures !ok ==> !DeletesSucceed(os.log)
      ensures !ok && old(os.held) != {} ==> os.held != {}
      ensures InTearDownOrder(os.log[|old(os.log)|..])
      ensures old(probe) ==> ProbeDropped in os.log[|old(os.log)|..]
      ensures old(dnsServer) ==> DnsServerStopped in os.log[|old(os.log)|..]
      ensures ok && old(device) ==> DeviceStopped in os.log[|old(os.log)|..]
      ensures BringsBypassDown(os.log[|old(os.log)|..]) <==> ok && old(bypass)
      ensures DownOver(os.log[|old(os.log)|..], os.held)
      ensures DownOverRoutes(os.log[|old(os.log)|..]) <==> old(HandleLost())
      ensures old(applied).Some? ==>
                (ok <==> RemovalGranted(os.refuses, old(os.calls), |old(applied).value.routes|))
    {
      ghost var log0, hadProbe, hadServer := os.log, probe, dnsServer;
      StopHelpers();
      var removed;
      ghost var removals;
      removed, removals := GiveBackRoutes();
      if !removed {
        PartialTearDown(log0, hadProbe, hadServer, removals, os.log);
        DownOverIff(os.log[|log0|..], os.held);
        return false;
      }
      ghost var installed, up := bypass, device;
      ghost var downOk := TakeDown();
      FullTearDown(log0, hadProbe, hadServer, removals, installed, downOk, os.held, up, os.log);
      DownOverIff(os.log[|log0|..], os.held);
      ok := true;
    }

    /** `start`: a failed start cleans up after itself. If no deletion is refused,
        the route table is what it was and no handle is left, whatever stage
        failed. */
    method Start() returns (ok: bool)
      requires Untouched()
      modifies this, os
      ensures Valid()
      ensures ok ==>
                && status == Running && device && probe && applied.Some?
                && os.table == old(os.table) + Elements(PlannedRoutes(config))
      ensures ok ==> forall n :: n in config.routes ==> SystemRoute(n, config.interface) in os.table
      ensures !ok && DeletesSucceed(os.log) ==> os.table == old(os.table) && Empty()
      ensures !ok ==> applied.None? && !probe && !dnsServer
      ensures config.hasOutbound ==> BypassFirst(os.log)
      ensures CleanTearDowns(os.log)
      ensures DownOverRoutes(os.log) <==>
              && BypassSetUp(config, os.refuses, old(os.calls))
              && LeftByStart(config, old(os.table), os.refuses, old(os.calls)) != {}
      ensures DownOverRoutes(os.log) ==>
                !ok && os.held == LeftByStart(config, old(os.table), os.refuses, old(os.calls))
    {
      ok := StartInner();
      OpensMeansFirst(os.log, config.hasOutbound, bypass);
      if !ok {
        ghost var failed := os.log;
        NothingDownIsClean(failed);
        if DeletesSucceed(failed) {
          NoUndeleted(failed, failed);
        }
        var cleaned := Stop();
        StopKeepsBypassFirst(failed, os.log);
        if DeletesSucceed(os.log) {
          NoUndeleted(failed, os.log);
        }
        StopTearDownClean(failed, os.log, os.held);
        DownOverLater(failed, os.log);
      }
    }
  }

  /** A session's whole life as the daemon lives it, and longer: one start, then
      any number of stops. */
  method Lifetime(config: Config, table: set<Route>, refuses: Refusals, stops: nat) returns (os: Os)
    ensures os.Consistent() && os.base == table <= os.table
    ensures config.hasOutbound ==> BypassFirst(os.log)
    ensures stops > 0 && DeletesSucceed(os.log) ==> os.table == table
    ensures CleanTearDowns(os.log)
  {
    os := new Os(table, refuses);
    var session := new Session(os, config);
    var started := session.Start();
    for n := 0 to stops
      invariant session.os == os && os.base == table && session.Valid() && session.config == config
      invariant config.hasOutbound ==> BypassFirst(os.log)
      invariant CleanTearDowns(os.log)
      invariant n > 0 || !started ==> session.applied.None? && (DeletesSucceed(os.log) ==> os.table == table)
      invariant DeletesSucceed(os.log) ==> session.applied.Some? || os.held == {}
    {
      ghost var before := os.log;
      var stopped := session.Stop();
      StopKeepsBypassFirst(before, os.log);
      StopTearDownClean(before, os.log, os.held);
      DeletesSucceedEarlier(before, os.log);
    }
  }

  // ------------------------------------------------------------------
  // Where the order is lost
  // ------------------------------------------------------------------

  /** A full tunnel by its two halves, with an outbound interface. */
  const SPLIT_IN_TWO := Config(
    "tun0", [Network(0, 1, false), Network(0x8000_0000, 1, false)], true, false, true, [], true, 0, false)

  const FIRST_HALF := Route(0, 1, false, "tun0")

  /** Requests 5 and 6: adding the second route, and rolling the first one back. */
  function RefuseFiveAndSix(n: nat): bool {
    n == 5 || n == 6
  }

  /** The environment can make a start fail that way, on an empty table. */
  lemma FailedStartLeavesRoute()
    ensures BypassSetUp(SPLIT_IN_TWO, RefuseFiveAndSix, 0)
    ensures LeftByStart(SPLIT_IN_TWO, {}, RefuseFiveAndSix, 0) == {FIRST_HALF}
  {
    var networks, planned := PlannedNetworks(SPLIT_IN_TWO), PlannedRoutes(SPLIT_IN_TWO);
    assert networks == SPLIT_IN_TWO.routes && |planned| == 2;
    HalfIsAligned();
    assert planned[0] == FIRST_HALF;
    FirstRefusedIs(RefuseFiveAndSix, 4, 2, 1);
    assert planned[..1] == [FIRST_HALF];
    OneRouteLeft(RefuseFiveAndSix, 6, {}, FIRST_HALF);
  }

  lemma HalfIsAligned()
    ensures SystemRoute(Network(0, 1, false), "tun0") == FIRST_HALF
  {
  }

  /** The daemon's own run, in which every session is stopped once: the start fails,
      and the cleanup inside it tears the bypass down over the route that is left. */
  method FailedStart() returns (session: Session, ok: bool)
    ensures !ok && DownOverRoutes(session.os.log) && session.os.held == {FIRST_HALF}
  {
    var os := new Os({}, RefuseFiveAndSix);
    session := new Session(os, SPLIT_IN_TWO);
    FailedStartLeavesRoute();
    ok := session.Start();
  }

  /** Whenever a stop is refused a route, the next stop of that session tears the
      bypass down over it. */
  method StopAgainAfterRefusal(session: Session) returns (refused: bool)
    requires session.Valid() && session.bypass && session.applied.Some? && session.os.held != {}
    modifies session, session.os
    ensures old(session.os.log) <= session.os.log
    ensures refused <==>
            !RemovalGranted(session.os.refuses, old(session.os.calls), |old(session.applied).value.routes|)
    ensures DownOverRoutes(session.os.log[|old(session.os.log)|..]) <==> refused
    ensures refused <==> session.os.held != {}
  {
    ghost var before := session.os.log;
    var first := session.Stop();
    if first {
      return false;
    }
    ghost var between := session.os.log;
    var second := session.Stop();
    ghost var log := session.os.log;
    assert log[|between|..] == log[|before|..][|between| - |before|..];
    refused := true;
  }

  /** Nothing is taken down: what a start does before it succeeds or fails. */
  ghost predicate NoTearDown(log: seq<OsEvent>) {
    forall i :: 0 <= i < |log| ==> !log[i].BypassDown?
  }

  /** As long as no deletion has been refused, the bypass comes down only when
      none of the session's routes is in the table. */
  ghost predicate CleanTearDowns(log: seq<OsEvent>) {
    forall k :: 0 <= k < |log| && log[k].BypassDown? && DeletesSucceed(log[..k]) ==> log[k].left == {}
  }

  lemma NothingDownIsClean(log: seq<OsEvent>)
    requires NoTearDown(log)
    ensures CleanTearDowns(log)
  {
  }

  /** The bypass attempt, if there is one, opens the log. */
  ghost predicate BypassOpens(log: seq<OsEvent>, hasOutbound: bool, bypass: bool) {
    if log == [] then !bypass
    else if hasOutbound then log[0] == if bypass then BypassUp else BypassFailed
    else !bypass
  }

  function HelperEvents(probe: bool, dnsServer: bool): seq<OsEvent> {
    (if probe then [ProbeDropped] else []) + (if dnsServer then [DnsServerStopped] else [])
  }

  function DownEvents(bypass: bool, downOk: bool, left: set<Route>, device: bool): seq<OsEvent> {
    (if bypass then [BypassDown(downOk, left)] else []) + (if device then [DeviceStopped] else [])
  }

  lemma UndeletedSplit(log: seq<OsEvent>, n: nat)
    requires n <= |log|
    ensures Undeleted(log) == Undeleted(log[..n]) + Undeleted(log[n..])
  {
    forall r | r in Undeleted(log) ensures r in Undeleted(log[..n]) + Undeleted(log[n..]) {
      var i :| 0 <= i < |log| && log[i].DeleteFailed? && log[i].route == r;
      if i < n {
        assert log[..n][i] == log[i];
      } else {
        assert log[n..][i - n] == log[i];
      }
    }
    forall r | r in Undeleted(log[..n]) ensures r in Undeleted(log) {
      var i :| 0 <= i < n && log[..n][i].DeleteFailed? && log[..n][i].route == r;
      assert log[i] == log[..n][i];
    }
    forall r | r in Undeleted(log[n..]) ensures r in Undeleted(log) {
      var i :| 0 <= i < |log[n..]| && log[n..][i].DeleteFailed? && log[n..][i].route == r;
      assert log[n + i] == log[n..][i];
    }
  }

  /** The bypass is torn down among these events. */
  ghost predicate BringsBypassDown(events: seq<OsEvent>) {
    exists i :: 0 <= i < |events| && events[i].BypassDown?
  }

  /** The bypass is torn down while routes of the session are in the table. */
  ghost predicate DownOverRoutes(events: seq<OsEvent>) {
    exists i :: 0 <= i < |events| && events[i].BypassDown? && events[i].left != {}
  }

  lemma DownOverIff(events: seq<OsEvent>, left: set<Route>)
    requires DownOver(events, left)
    ensures DownOverRoutes(events) <==> BringsBypassDown(events) && left != {}
  {
  }

  lemma DownOverLater(early: seq<OsEvent>, log: seq<OsEvent>)
    requires early <= log && NoTearDown(early)
    ensures DownOverRoutes(log) <==> DownOverRoutes(log[|early|..])
  {
    assert forall i :: 0 <= i < |early| ==> log[i] == early[i];
    if i :| 0 <= i < |log| && log[i].BypassDown? && log[i].left != {} {
      assert log[|early|..][i - |early|] == log[i];
    }
    if i :| 0 <= i < |log[|early|..]| && log[|early|..][i].BypassDown? && log[|early|..][i].left != {} {
      assert log[|early| + i] == log[|early|..][i];
    }
  }

  /** Wherever the bypass is torn down, `left` is what is left of the routes. */
  ghost predicate DownOver(events: seq<OsEvent>, left: set<Route>) {
    forall i :: 0 <= i < |events| && events[i].BypassDown? ==> events[i].left == left
  }

  ghost predicate Between(events: seq<OsEvent>, low: nat, high: nat) {
    forall i :: 0 <= i < |events| ==> low <= Stage(events[i]) <= high
  }

  lemma OrderedConcat(first: seq<OsEvent>, second: seq<OsEvent>, low: nat, mid: nat, high: nat)
    requires InTearDownOrder(first) && Between(first, low, mid)
    requires InTearDownOrder(second) && Between(second, mid, high) && low <= mid <= high
    ensures InTearDownOrder(first + second) && Between(first + second, low, high)
  {
  }

  lemma HelpersOrdered(probe: bool, dns: bool, removals: seq<OsEvent>)
    requires forall i :: 0 <= i < |removals| ==> RemovalEvent(removals[i])
    ensures InTearDownOrder(HelperEvents(probe, dns) + removals) && Between(HelperEvents(probe, dns) + removals, 0, 2)
  {
    assert InTearDownOrder(removals) && Between(removals, 2, 2);
    OrderedConcat(HelperEvents(probe, dns), removals, 0, 2, 2);
  }

  /** The events of a tear-down that a route ended. */
  lemma PartialTearDown(early: seq<OsEvent>, probe: bool, dns: bool, removals: seq<OsEvent>, log: seq<OsEvent>)
    requires log == early + HelperEvents(probe, dns) + removals
    requires forall i :: 0 <= i < |removals| ==> RemovalEvent(removals[i])
    ensures InTearDownOrder(log[|early|..])
    ensures probe ==> ProbeDropped in log[|early|..]
    ensures dns ==> DnsServerStopped in log[|early|..]
    ensures !BringsBypassDown(log[|early|..])
  {
    HelpersOrdered(probe, dns, removals);
    HelpersThere(probe, dns);
    assert log[|early|..] == HelperEvents(probe, dns) + removals;
  }

  /** The events of a whole tear-down. */
  lemma FullTearDown(
    early: seq<OsEvent>, probe: bool, dns: bool, removals: seq<OsEvent>, bypass: bool, downOk: bool,
    left: set<Route>, device: bool, log: seq<OsEvent>)
    requires log == early + HelperEvents(probe, dns) + removals + DownEvents(bypass, downOk, left, device)
    requires forall i :: 0 <= i < |removals| ==> RemovalEvent(removals[i])
    ensures InTearDownOrder(log[|early|..])
    ensures probe ==> ProbeDropped in log[|early|..]
    ensures dns ==> DnsServerStopped in log[|early|..]
    ensures device ==> DeviceStopped in log[|early|..]
    ensures DownOver(log[|early|..], left)
    ensures BringsBypassDown(log[|early|..]) <==> bypass
  {
    var mid := HelperEvents(probe, dns) + removals;
    var down := DownEvents(bypass, downOk, left, device);
    HelpersOrdered(probe, dns, removals);
    HelpersThere(probe, dns);
    DownOrdered(bypass, downOk, left, device);
    OrderedConcat(mid, down, 0, 2, 4);
    BypassInSecond(mid, down, left);
    assert log[|early|..] == mid + down;
  }

  lemma HelpersThere(probe: bool, dns: bool)
    ensures probe ==> ProbeDropped in HelperEvents(probe, dns)
    ensures dns ==> DnsServerStopped in HelperEvents(probe, dns)
  {
    var events := HelperEvents(probe, dns);
    assert probe ==> events[0] == ProbeDropped;
    assert dns ==> events[|events| - 1] == DnsServerStopped;
  }

  lemma DownOrdered(bypass: bool, downOk: bool, left: set<Route>, device: bool)
    ensures var down := DownEvents(bypass, downOk, left, device);
            && InTearDownOrder(down) && Between(down, 2, 4) && DownOver(down, left)
            && (BringsBypassDown(down) <==> bypass)
            && (device ==> DeviceStopped in down)
  {
    var down := DownEvents(bypass, downOk, left, device);
    assert device ==> down[|down| - 1] == DeviceStopped;
    assert bypass ==> down[0].BypassDown?;
  }

  lemma BypassInSecond(mid: seq<OsEvent>, down: seq<OsEvent>, left: set<Route>)
    requires Between(mid, 0, 2)
    ensures BringsBypassDown(mid + down) <==> BringsBypassDown(down)
    ensures DownOver(mid + down, left) <==> DownOver(down, left)
  {
    assert forall i :: 0 <= i < |down| ==> (mid + down)[|mid| + i] == down[i];
    if BringsBypassDown(mid + down) {
      var i :| 0 <= i < |mid + down| && (mid + down)[i].BypassDown?;
      assert i < |mid| ==> Stage(mid[i]) <= 2;
      assert down[i - |mid|].BypassDown?;
    }
    if BringsBypassDown(down) {
      var i :| 0 <= i < |down| && down[i].BypassDown?;
      assert (mid + down)[|mid| + i].BypassDown?;
    }
    if DownOver(mid + down, left) {
      forall i | 0 <= i < |down| && down[i].BypassDown? ensures down[i].left == left {
        assert (mid + down)[|mid| + i] == down[i];
      }
    }
  }

  lemma OpensMeansFirst(log: seq<OsEvent>, hasOutbound: bool, bypass: bool)
    requires BypassOpens(log, hasOutbound, bypass)
    ensures hasOutbound ==> BypassFirst(log)
  {
  }

  lemma DeletesSucceedEarlier(early: seq<OsEvent>, log: seq<OsEvent>)
    requires early <= log
    ensures DeletesSucceed(log) ==> DeletesSucceed(early)
  {
    if DeletesSucceed(log) {
      forall i | 0 <= i < |early| ensures !early[i].DeleteFailed? && early[i] != ManagerFailed(true) {
        assert early[i] == log[i];
      }
    }
  }

  lemma NoUndeleted(early: seq<OsEvent>, log: seq<OsEvent>)
    requires early <= log && DeletesSucceed(log)
    ensures Undeleted(early) == {}
  {
    DeletesSucceedEarlier(early, log);
  }

  lemma StopTearDownClean(early: seq<OsEvent>, log: seq<OsEvent>, left: set<Route>)
    requires early <= log && CleanTearDowns(early) && DownOver(log[|early|..], left)
    requires BringsBypassDown(log[|early|..]) && DeletesSucceed(early) ==> left == {}
    ensures CleanTearDowns(log)
  {
    forall k | 0 <= k < |log| && log[k].BypassDown? && DeletesSucceed(log[..k]) ensures log[k].left == {} {
      if k < |early| {
        assert log[..k] == early[..k] && early[k].BypassDown?;
      } else {
        DeletesSucceedEarlier(early, log[..k]);
        assert log[k] == log[|early|..][k - |early|];
      }
    }
  }

  lemma StopKeepsBypassFirst(early: seq<OsEvent>, log: seq<OsEvent>)
    requires early <= log && InTearDownOrder(log[|early|..])
    ensures BypassFirst(early) ==> BypassFirst(log)
  {
    if BypassFirst(early) {
      forall i | 0 <= i < |log| && log[i].Added?
        ensures exists j :: 0 <= j < i && (log[j].BypassUp? || log[j].BypassFailed?)
      {
        assert i >= |early| ==> Stage(log[|early|..][i - |early|]) <= 4;
        assert early[i].Added?;
        var j :| 0 <= j < i && (early[j].BypassUp? || early[j].BypassFailed?);
        assert log[j] == early[j];
      }
    }
  }
}
