/** Adding and removing the tunnel's routes as a transaction on a route table
    whose operations may fail in any pattern. */
module Routes {
  import opened Wrappers

  datatype Network = Network(address: nat, prefix: nat, v6: bool)

  datatype Route = Route(destination: nat, prefix: nat, v6: bool, interface: string)

  function HostSize(bits: nat): (size: nat)
    ensures size > 0
  {
    if bits == 0 then 1 else 2 * HostSize(bits - 1)
  }

  function ClearHost(address: nat, size: nat): nat
    requires size > 0
  {
    address - address % size
  }

  function HostBits(network: Network): nat {
    var width: nat := if network.v6 then 128 else 32;
    if network.prefix < width then width - network.prefix else 0
  }

  /** `system_route`: the network address, with the host bits cleared. */
  function SystemRoute(network: Network, interface: string): Route {
    Route(ClearHost(network.address, HostSize(HostBits(network))), network.prefix, network.v6, interface)
  }

  /** Two networks give the same route exactly when they are the same network: the
      same family and prefix, and addresses that differ in host bits only. */
  lemma SameRouteIff(a: Network, b: Network, interface: string)
    ensures SystemRoute(a, interface) == SystemRoute(b, interface) <==>
            && a.v6 == b.v6 && a.prefix == b.prefix
            && a.address / HostSize(HostBits(a)) == b.address / HostSize(HostBits(b))
  {
    Cleared(a.address, HostSize(HostBits(a)));
    Cleared(b.address, HostSize(HostBits(b)));
    if a.v6 == b.v6 && a.prefix == b.prefix {
      SameMultiple(a.address / HostSize(HostBits(a)), b.address / HostSize(HostBits(b)), HostSize(HostBits(a)));
    }
  }

  lemma {:induction false} HostSizeIsPower(bits: nat)
    ensures HostSize(bits + 8) == 256 * HostSize(bits)
    ensures HostSize(0) == 1 && HostSize(bits + 1) == 2 * HostSize(bits)
  {
    assert HostSize(bits + 8) == 2 * HostSize(bits + 7) && HostSize(bits + 7) == 2 * HostSize(bits + 6);
    assert HostSize(bits + 6) == 2 * HostSize(bits + 5) && HostSize(bits + 5) == 2 * HostSize(bits + 4);
    assert HostSize(bits + 4) == 2 * HostSize(bits + 3) && HostSize(bits + 3) == 2 * HostSize(bits + 2);
    assert HostSize(bits + 2) == 2 * HostSize(bits + 1);
  }

  /** A route leads to the first address of its network: the greatest multiple of the
      network's size, 2 to the number of host bits, that is not past the address. */
  lemma SystemRouteIsNetwork(network: Network, interface: string)
    ensures var route := SystemRoute(network, interface);
            var bits := (if network.v6 then 128 else 32) - network.prefix;
            && route.prefix == network.prefix && route.v6 == network.v6 && route.interface == interface
            && (bits <= 0 ==> route.destination == network.address)
            && (bits > 0 ==>
                  && route.destination % HostSize(bits) == 0
                  && route.destination <= network.address < route.destination + HostSize(bits))
  {
    var size := HostSize(HostBits(network));
    Cleared(network.address, size);
    if HostBits(network) > 0 {
      MultipleOf(size, network.address / size);
    }
  }

  lemma Distributes(size: nat, a: nat, b: nat)
    ensures size * (a + b) == size * a + size * b
  {
  }

  lemma AtLeastOnce(size: nat, m: nat)
    requires m >= 1
    ensures size * m >= size
  {
    Distributes(size, 1, m - 1);
  }

  lemma MultipleOf(size: nat, k: nat)
    requires size > 0
    ensures (size * k) % size == 0
  {
    var q, r := (size * k) / size, (size * k) % size;
    assert size * k == size * q + r;
    if q < k {
      Distributes(size, q, k - q);
      AtLeastOnce(size, k - q);
    } else if q > k {
      Distributes(size, k, q - k);
      AtLeastOnce(size, q - k);
    }
  }

  /** 192.168.1.5/24 leads to 192.168.1.0. */
  lemma HostBitsAreCleared(interface: string)
    ensures SystemRoute(Network(0xC0A8_0105, 24, false), interface) == Route(0xC0A8_0100, 24, false, interface)
  {
    HostSizeIsPower(0);
  }

  lemma Cleared(address: nat, size: nat)
    requires size > 0
    ensures ClearHost(address, size) == size * (address / size)
  {
  }

  /** The addresses of a network: those from its first on, as many as it has. */
  lemma InNetwork(address: nat, other: nat, size: nat)
    requires size > 0
    ensures address / size == other / size <==>
            ClearHost(other, size) <= address < ClearHost(other, size) + size
  {
    var q, o := address / size, other / size;
    Cleared(address, size);
    Cleared(other, size);
    if q < o {
      Distributes(size, q, o - q);
      AtLeastOnce(size, o - q);
    } else if o < q {
      Distributes(size, o, q - o);
      AtLeastOnce(size, q - o);
    }
  }

  lemma SameMultiple(m: nat, n: nat, size: nat)
    requires size > 0
    ensures size * m == size * n <==> m == n
  {
    if m < n {
      assert size * n == size * m + size * (n - m);
    } else if n < m {
      assert size * m == size * n + size * (m - n);
    }
  }

  function SystemRoutes(networks: seq<Network>, interface: string): seq<Route> {
    seq(|networks|, i requires 0 <= i < |networks| => SystemRoute(networks[i], interface))
  }

  function Elements(routes: seq<Route>): set<Route> {
    set r | r in routes
  }

  datatype Error = RouteManager | AddRoute(route: Route) | DeleteRoute(route: Route)

  /** What a session does to the operating system, in order. */
  datatype OsEvent =
    | Added(route: Route)
    | AlreadyThere(route: Route)
    | AddFailed(route: Route)
    | Deleted(route: Route)
    | DeleteFailed(route: Route)
    | ManagerFailed(removing: bool)
    | BypassUp
    | BypassFailed
    | BypassDown(ok: bool, left: set<Route>)  // and the session's routes still in the table
    | ProbeStarted
    | ProbeDropped
    | DnsServerStarted
    | DnsServerStopped
    | DeviceStarted
    | DeviceStopped

  datatype AddResult = AddOk | AddExists | AddError

  /** Which requests the environment refuses: the answer to request number `n`. */
  type Refusals = nat -> bool

  /** The operating system as one session sees it: a route table that held `base`
      when the session was made, the routes the session has added and not deleted
      again, and a log of what the session did. `refuses` says which of its requests
      fail, in any pattern; `calls` counts them. */
  class Os {
    ghost const base: set<Route>
    const refuses: Refusals
    var calls: nat
    var table: set<Route>
    ghost var held: set<Route>
    ghost var log: seq<OsEvent>

    constructor (table: set<Route>, refuses: Refusals)
      ensures base == this.table == table && held == {} && log == [] && Consistent()
      ensures this.refuses == refuses && calls == 0
    {
      base := table;
      this.table, this.refuses, calls := table, refuses, 0;
      held, log := {}, [];
    }

    /** Every pre-existing route is in the table, beside the session's own. */
    ghost predicate Consistent()
      reads this
    {
      table == base + held && held !! base
    }

    ghost method Note(event: OsEvent)
      requires Consistent() && !event.Added? && !event.Deleted?
      requires event.BypassDown? ==> event.left == held
      modifies this`log
      ensures Consistent() && log == old(log) + [event]
    {
      log := log + [event];
    }

    /** A request that leaves routes and log alone. */
    method Ask() returns (granted: bool)
      requires Consistent()
      modifies this`calls
      ensures Consistent() && granted == !refuses(old(calls)) && calls == old(calls) + 1
    {
      granted := !refuses(calls);
      calls := calls + 1;
    }

    /** Add a route; a route that is there is never added twice. */
    method Add(route: Route) returns (result: AddResult)
      requires Consistent()
      modifies this
      ensures Consistent() && calls == old(calls) + 1
      ensures result == if refuses(old(calls)) then AddError else if route in old(table) then AddExists else AddOk
      ensures result.AddOk? ==>
                && route !in old(table) && table == old(table) + {route} && held == old(held) + {route}
                && log == old(log) + [Added(route)]
      ensures result.AddExists? ==>
                route in table && table == old(table) && held == old(held) && log == old(log) + [AlreadyThere(route)]
      ensures result.AddError? ==> table == old(table) && held == old(held) && log == old(log) + [AddFailed(route)]
    {
      calls := calls + 1;
      if refuses(calls - 1) {
        log := log + [AddFailed(route)];
        return AddError;
      }
      if route in table {
        log := log + [AlreadyThere(route)];
        return AddExists;
      }
      table := table + {route};
      held := held + {route};
      log := log + [Added(route)];
      result := AddOk;
    }

    /** Delete a route; callers never ask for a pre-existing one. */
    method Delete(route: Route) returns (ok: bool)
      requires Consistent() && route !in base
      modifies this
      ensures Consistent() && calls == old(calls) + 1
      ensures ok <==> !refuses(old(calls)) && route in old(table)
      ensures ok ==>
                && route in old(table) && table == old(table) - {route} && held == old(held) - {route}
                && log == old(log) + [Deleted(route)]
      ensures !ok ==> table == old(table) && held == old(held) && log == old(log) + [DeleteFailed(route)]
    {
      calls := calls + 1;
      if refuses(calls - 1) || route !in table {
        log := log + [DeleteFailed(route)];
        return false;
      }
      table := table - {route};
      held := held - {route};
      log := log + [Deleted(route)];
      ok := true;
    }
  }

  /** The planned routes that are new: not in the table, each once, in order. */
  function NewRoutes(table: set<Route>, planned: seq<Route>): seq<Route> {
    if planned == [] then []
    else
      var init, last := planned[..|planned| - 1], planned[|planned| - 1];
      if last in table || last in init then NewRoutes(table, init) else NewRoutes(table, init) + [last]
  }

  lemma ElementsAppend(routes: seq<Route>, route: Route)
    ensures Elements(routes + [route]) == Elements(routes) + {route}
  {
  }

  lemma {:induction false} NewRoutesExact(table: set<Route>, planned: seq<Route>)
    ensures Elements(NewRoutes(table, planned)) == Elements(planned) - table
    ensures Distinct(NewRoutes(table, planned))
  {
    if planned != [] {
      var init, last := planned[..|planned| - 1], planned[|planned| - 1];
      NewRoutesExact(table, init);
      ElementsAppend(init, last);
      assert planned == init + [last];
      var kept := NewRoutes(table, init);
      ElementsAppend(kept, last);
      assert last in kept ==> last in Elements(kept);
      assert last in init ==> last in Elements(init);
    }
  }

  /** Removing what an apply recorded restores the table it found. */
  lemma RemoveUndoesApply(table: set<Route>, planned: seq<Route>)
    ensures (table + Elements(planned)) - Elements(NewRoutes(table, planned)) == table
  {
    NewRoutesExact(table, planned);
  }

  ghost predicate NoDeleteFailed(log: seq<OsEvent>) {
    forall i :: 0 <= i < |log| ==> !log[i].DeleteFailed?
  }

  /** Routes whose deletion was refused. */
  ghost function Undeleted(log: seq<OsEvent>): set<Route> {
    set i | 0 <= i < |log| && log[i].DeleteFailed? :: log[i].route
  }

  ghost predicate Distinct(routes: seq<Route>) {
    forall i, j :: 0 <= i < j < |routes| ==> routes[i] != routes[j]
  }

  lemma FirstOfBack(routes: seq<Route>, n: nat)
    requires n < |routes| && Distinct(routes)
    ensures Elements(routes[n..]) == {routes[n]} + Elements(routes[n + 1..])
    ensures routes[n] in Elements(routes) && routes[n] !in Elements(routes[n + 1..])
  {
    assert routes[n..] == [routes[n]] + routes[n + 1..];
  }

  predicate DeleteTried(event: OsEvent, route: Route) {
    event == Deleted(route) || event == DeleteFailed(route)
  }

  /** Of the routes from position `n` on, those whose deletion is refused when they are
      deleted last to first, beginning with request `c`. */
  function LeftFrom(refuses: Refusals, c: nat, routes: seq<Route>, n: nat): set<Route> {
    set j | n <= j < |routes| && refuses(c + |routes| - 1 - j) :: routes[j]
  }

  /** What a rollback leaves behind. */
  function Left(refuses: Refusals, c: nat, routes: seq<Route>): set<Route> {
    LeftFrom(refuses, c, routes, 0)
  }

  lemma LeftFromLater(refuses: Refusals, c: nat, routes: seq<Route>, n: nat)
    requires 0 < n <= |routes| && Distinct(routes)
    ensures routes[n - 1] !in LeftFrom(refuses, c, routes, n)
  {
  }

  lemma LeftFromStep(refuses: Refusals, c: nat, routes: seq<Route>, n: nat)
    requires n < |routes|
    ensures LeftFrom(refuses, c, routes, n) ==
            LeftFrom(refuses, c, routes, n + 1) + if refuses(c + |routes| - 1 - n) then {routes[n]} else {}
  {
  }

  /** `rollback_added_routes`: delete in reverse, ignoring failures. What stays in
      the table is exactly what could not be deleted. */
  method Rollback(os: Os, routes: seq<Route>)
    requires os.Consistent() && Elements(routes) !! os.base && Distinct(routes)
    requires Elements(routes) <= os.table
    modifies os
    ensures os.Consistent() && old(os.log) <= os.log
    ensures os.table == old(os.table) - Elements(routes) + Undeleted(os.log[|old(os.log)|..])
    ensures |os.log| == |old(os.log)| + |routes| && os.calls == old(os.calls) + |routes|
    ensures forall k :: |old(os.log)| <= k < |os.log| ==>
              DeleteTried(os.log[k], routes[|routes| - 1 - (k - |old(os.log)|)])
    ensures Undeleted(os.log[|old(os.log)|..]) == Left(os.refuses, old(os.calls), routes)
  {
    ghost var start := |os.log|;
    var n: nat := |routes|;
    assert routes[n..] == [];
    while n > 0
      invariant n <= |routes| && os.Consistent()
      invariant old(os.log) <= os.log && |os.log| == start + |routes| - n
      invariant os.calls == old(os.calls) + |routes| - n
      invariant Undeleted(os.log[start..]) == LeftFrom(os.refuses, old(os.calls), routes, n)
      invariant os.table ==
                old(os.table) - Elements(routes[n..]) + LeftFrom(os.refuses, old(os.calls), routes, n)
      invariant forall k :: start <= k < |os.log| ==> DeleteTried(os.log[k], routes[|routes| - 1 - (k - start)])
    {
      n := n - 1;
      var route := routes[n];
      ghost var log := os.log;
      FirstOfBack(routes, n);
      LeftFromStep(os.refuses, old(os.calls), routes, n);
      LeftFromLater(os.refuses, old(os.calls), routes, n + 1);
      var ok := os.Delete(route);
      UndeletedAppend(log[start..], os.log[|log|]);
      assert os.log[start..] == log[start..] + [os.log[|log|]];
    }
    assert routes[0..] == routes;
  }

  lemma UndeletedAppend(log: seq<OsEvent>, event: OsEvent)
    ensures Undeleted(log + [event]) == Undeleted(log) + if event.DeleteFailed? then {event.route} else {}
  {
    var longer := log + [event];
    forall r | r in Undeleted(log) ensures r in Undeleted(longer) {
      var i :| 0 <= i < |log| && log[i].DeleteFailed? && log[i].route == r;
      assert longer[i] == log[i];
    }
    if event.DeleteFailed? {
      assert longer[|log|] == event;
    }
  }

  datatype AppliedRoutes = AppliedRoutes(interface: string, routes: seq<Route>)

  ghost predicate IsRouteEvent(event: OsEvent) {
    || event.Added? || event.AlreadyThere? || event.AddFailed?
    || event.Deleted? || event.DeleteFailed? || event.ManagerFailed?
  }

  /** The table and the recorded routes after the first `n` planned routes. */
  ghost predicate Progress(table: set<Route>, planned: seq<Route>, n: nat, now: set<Route>, added: seq<Route>)
    requires n <= |planned|
  {
    && now == table + Elements(planned[..n])
    && added == NewRoutes(table, planned[..n])
    && Elements(added) == Elements(planned[..n]) - table
    && Distinct(added)
  }

  lemma AddedAreNew(table: set<Route>, planned: seq<Route>, n: nat, now: set<Route>, added: seq<Route>)
    requires n <= |planned| && Progress(table, planned, n, now, added)
    ensures now == table + Elements(added) && Elements(added) !! table
  {
  }

  lemma ProgressStep(table: set<Route>, planned: seq<Route>, n: nat, now: set<Route>, added: seq<Route>)
    requires n < |planned| && Progress(table, planned, n, now, added)
    ensures planned[n] in now ==> Progress(table, planned, n + 1, now, added)
    ensures planned[n] !in now ==> Progress(table, planned, n + 1, now + {planned[n]}, added + [planned[n]])
  {
    assert planned[..n + 1] == planned[..n] + [planned[n]];
    assert planned[..n + 1][..n] == planned[..n];
    ElementsAppend(planned[..n], planned[n]);
    NewRoutesExact(table, planned[..n + 1]);
    assert planned[n] in planned[..n] <==> planned[n] in Elements(planned[..n]);
  }

  /** The first of `n` requests from `c` on that is refused, or `n`. */
  function FirstRefused(refuses: Refusals, c: nat, n: nat): (i: nat)
    ensures i <= n && (i < n ==> refuses(c + i))
    ensures forall j :: c <= j < c + i ==> !refuses(j)
    decreases n
  {
    if n == 0 then 0
    else
      var i := FirstRefused(refuses, c, n - 1);
      if i < n - 1 || refuses(c + n - 1) then i else n
  }

  /** Request `c` opens the route manager, the next ones add the planned routes. */
  predicate ApplySucceeds(refuses: Refusals, c: nat, planned: seq<Route>) {
    !refuses(c) && FirstRefused(refuses, c + 1, |planned|) == |planned|
  }

  /** The routes that a failed apply leaves in the table. */
  function LeftByApply(refuses: Refusals, c: nat, table: set<Route>, planned: seq<Route>): set<Route> {
    var i := FirstRefused(refuses, c + 1, |planned|);
    if refuses(c) || i == |planned| then {} else Left(refuses, c + 2 + i, NewRoutes(table, planned[..i]))
  }

  /** No route that was there before is among them. */
  lemma LeftByApplyIsNew(refuses: Refusals, c: nat, table: set<Route>, planned: seq<Route>)
    ensures LeftByApply(refuses, c, table, planned) !! table
  {
    var i := FirstRefused(refuses, c + 1, |planned|);
    NewRoutesExact(table, planned[..i]);
    var added := NewRoutes(table, planned[..i]);
    assert forall r :: r in Left(refuses, c + 2 + i, added) ==> r in Elements(added);
  }

  lemma OneRouteLeft(refuses: Refusals, c: nat, table: set<Route>, route: Route)
    requires route !in table && refuses(c)
    ensures NewRoutes(table, [route]) == [route] && Left(refuses, c, [route]) == {route}
  {
    assert [route][..0] == [] && NewRoutes(table, []) == [];
    LeftFromStep(refuses, c, [route], 0);
  }

  lemma FirstRefusedIs(refuses: Refusals, c: nat, n: nat, i: nat)
    requires i < n && refuses(c + i) && forall j :: c <= j < c + i ==> !refuses(j)
    ensures FirstRefused(refuses, c, n) == i
  {
  }

  ghost predicate IsAddEvent(event: OsEvent) {
    event.Added? || event.AlreadyThere? || event.AddFailed?
  }

  /** The loop of `apply`: add until a request is refused. */
  method AddUntilRefused(os: Os, planned: seq<Route>) returns (added: seq<Route>, failed: Option<Route>)
    requires os.Consistent()
    modifies os
    ensures os.Consistent() && old(os.log) <= os.log
    ensures var i := FirstRefused(os.refuses, old(os.calls), |planned|);
            && Progress(old(os.table), planned, i, os.table, added)
            && failed == (if i < |planned| then Some(planned[i]) else None)
            && (failed.Some? ==> os.calls == old(os.calls) + i + 1)
    ensures forall k :: |old(os.log)| <= k < |os.log| ==> IsAddEvent(os.log[k])
  {
    ghost var start, c := |os.log|, os.calls;
    added := [];
    for n := 0 to |planned|
      invariant os.Consistent() && old(os.log) <= os.log
      invariant Progress(old(os.table), planned, n, os.table, added)
      invariant forall k :: start <= k < |os.log| ==> IsAddEvent(os.log[k])
      invariant os.calls == c + n && forall j :: c <= j < c + n ==> !os.refuses(j)
    {
      ProgressStep(old(os.table), planned, n, os.table, added);
      var outcome := os.Add(planned[n]);
      if outcome.AddOk? {
        added := added + [planned[n]];
      } else if outcome.AddError? {
        FirstRefusedIs(os.refuses, c, |planned|, n);
        return added, Some(planned[n]);
      }
    }
    failed := None;
  }

  lemma AddsHaveNoFailures(log: seq<OsEvent>, start: nat)
    requires start <= |log| && forall k :: start <= k < |log| ==> IsAddEvent(log[k])
    ensures NoDeleteFailed(log[start..])
  {
  }

  /** The error arm of `apply`. */
  method AbortedApply(os: Os, added: seq<Route>, ghost table: set<Route>, ghost start: nat)
    requires os.Consistent() && Distinct(added) && Elements(added) !! table
    requires os.table == table + Elements(added) && Elements(added) !! os.base
    requires start <= |os.log|
    requires forall k :: start <= k < |os.log| ==> IsAddEvent(os.log[k])
    modifies os
    ensures os.Consistent() && old(os.log) <= os.log
    ensures os.table == table + Undeleted(os.log[start..])
    ensures Undeleted(os.log[start..]) == Left(os.refuses, old(os.calls), added)
    ensures forall k :: start <= k < |os.log| ==> IsRouteEvent(os.log[k])
  {
    Rollback(os, added);
    SkippedHaveNoFailures(os.log, start, |old(os.log)|);
  }

  lemma NothingDeleted(log: seq<OsEvent>, start: nat)
    requires |log| == start + 1 && log[start] == ManagerFailed(false)
    ensures Undeleted(log[start..]) == {}
  {
  }

  /** The loop of `apply` and its error arm. */
  method AddOrRollBack(os: Os, planned: seq<Route>) returns (added: seq<Route>, failed: Option<Route>)
    requires os.Consistent()
    modifies os
    ensures os.Consistent() && old(os.log) <= os.log
    ensures failed.None? <==> FirstRefused(os.refuses, old(os.calls), |planned|) == |planned|
    ensures failed.None? ==>
              && os.table == old(os.table) + Elements(planned)
              && added == NewRoutes(old(os.table), planned)
              && Elements(added) == Elements(planned) - old(os.table) && Distinct(added)
              && NoDeleteFailed(os.log[|old(os.log)|..])
    ensures failed.Some? ==>
              var i := FirstRefused(os.refuses, old(os.calls), |planned|);
              var left := Left(os.refuses, old(os.calls) + i + 1, NewRoutes(old(os.table), planned[..i]));
              Undeleted(os.log[|old(os.log)|..]) == left && os.table == old(os.table) + left
    ensures forall k :: |old(os.log)| <= k < |os.log| ==> IsRouteEvent(os.log[k])
  {
    ghost var start := |os.log|;
    added, failed := AddUntilRefused(os, planned);
    if failed.Some? {
      AddedAreNew(old(os.table), planned, FirstRefused(os.refuses, old(os.calls), |planned|), os.table, added);
      AbortedApply(os, added, old(os.table), start);
    } else {
      assert planned[..|planned|] == planned;
      AddsHaveNoFailures(os.log, start);
    }
  }

  /** `apply` for routes that are worked out already. */
  method ApplyPlanned(os: Os, interface: string, planned: seq<Route>) returns (result: Result<AppliedRoutes, Error>)
    requires os.Consistent()
    modifies os
    ensures os.Consistent() && old(os.log) <= os.log
    ensures result.Ok? ==>
              && os.table == old(os.table) + Elements(planned)
              && result.value == AppliedRoutes(interface, NewRoutes(old(os.table), planned))
              && Elements(result.value.routes) == Elements(planned) - old(os.table)
              && Distinct(result.value.routes)
              && NoDeleteFailed(os.log[|old(os.log)|..])
    ensures result.Err? ==> os.table == old(os.table) + Undeleted(os.log[|old(os.log)|..])
    ensures forall k :: |old(os.log)| <= k < |os.log| ==> IsRouteEvent(os.log[k])
    ensures result.Ok? <==> ApplySucceeds(os.refuses, old(os.calls), planned)
    ensures result.Err? ==>
              Undeleted(os.log[|old(os.log)|..]) == LeftByApply(os.refuses, old(os.calls), old(os.table), planned)
  {
    ghost var start := |os.log|;
    var opens := os.Ask();
    if !opens {
      os.Note(ManagerFailed(false));
      NothingDeleted(os.log, start);
      return Err(RouteManager);
    }
    var added, failed := AddOrRollBack(os, planned);
    if failed.Some? {
      return Err(AddRoute(failed.value));
    }
    result := Ok(AppliedRoutes(interface, added));
  }

  /** `apply`: add the planned routes one by one, skipping those already there;
      on an error take the added ones away again. */
  method Apply(os: Os, interface: string, networks: seq<Network>) returns (result: Result<AppliedRoutes, Error>)
    requires os.Consistent()
    modifies os
    ensures os.Consistent() && old(os.log) <= os.log
    ensures result.Ok? ==>
              var planned := SystemRoutes(networks, interface);
              && os.table == old(os.table) + Elements(planned)
              && result.value == AppliedRoutes(interface, NewRoutes(old(os.table), planned))
              && Elements(result.value.routes) == Elements(planned) - old(os.table)
              && Distinct(result.value.routes)
              && NoDeleteFailed(os.log[|old(os.log)|..])
    ensures result.Err? ==> os.table == old(os.table) + Undeleted(os.log[|old(os.log)|..])
    ensures forall k :: |old(os.log)| <= k < |os.log| ==> IsRouteEvent(os.log[k])
    ensures result.Ok? <==> ApplySucceeds(os.refuses, old(os.calls), SystemRoutes(networks, interface))
    ensures result.Err? ==>
              var planned := SystemRoutes(networks, interface);
              Undeleted(os.log[|old(os.log)|..]) == LeftByApply(os.refuses, old(os.calls), old(os.table), planned)
  {
    result := ApplyPlanned(os, interface, SystemRoutes(networks, interface));
  }

  lemma SkippedHaveNoFailures(log: seq<OsEvent>, start: nat, mid: nat)
    requires start <= mid <= |log|
    requires forall i :: start <= i < mid ==> !log[i].DeleteFailed?
    ensures Undeleted(log[start..]) == Undeleted(log[mid..])
  {
    forall r | r in Undeleted(log[start..]) ensures r in Undeleted(log[mid..]) {
      var i :| 0 <= i < |log[start..]| && log[start..][i].DeleteFailed? && log[start..][i].route == r;
      assert log[start + i] == log[mid..][start + i - mid];
    }
    forall r | r in Undeleted(log[mid..]) ensures r in Undeleted(log[start..]) {
      var i :| 0 <= i < |log[mid..]| && log[mid..][i].DeleteFailed? && log[mid..][i].route == r;
      assert log[mid + i] == log[start..][mid + i - start];
    }
  }

  ghost predicate RemovalEvent(event: OsEvent) {
    event.Deleted? || event.DeleteFailed? || event.ManagerFailed?
  }

  /** No deletion was refused and no removal failed to begin. */
  ghost predicate DeletesSucceed(log: seq<OsEvent>) {
    forall i :: 0 <= i < |log| ==> !log[i].DeleteFailed? && log[i] != ManagerFailed(true)
  }

  /** Neither the route manager nor any of `n` deletions is refused. */
  ghost predicate RemovalGranted(refuses: Refusals, c: nat, n: nat) {
    forall j :: c <= j <= c + n ==> !refuses(j)
  }

  /** `AppliedRoutes::remove`: delete in reverse, stopping at the first failure.
      On success exactly the recorded routes are gone; on failure the ones left
      of them are still in the table. */
  method Remove(os: Os, applied: AppliedRoutes) returns (result: Result<(), Error>)
    requires os.Consistent() && Elements(applied.routes) !! os.base && Distinct(applied.routes)
    requires Elements(applied.routes) <= os.table
    modifies os
    ensures os.Consistent() && old(os.log) <= os.log
    ensures result.Ok? ==> os.table == old(os.table) - Elements(applied.routes)
    ensures result.Ok? ==> NoDeleteFailed(os.log[|old(os.log)|..]) && |os.log| == |old(os.log)| + |applied.routes|
    ensures forall k :: |old(os.log)| <= k < |os.log| && !os.log[k].ManagerFailed? ==>
              && k - |old(os.log)| < |applied.routes|
              && DeleteTried(os.log[k], applied.routes[|applied.routes| - 1 - (k - |old(os.log)|)])
    ensures result.Err? && result.error.DeleteRoute? ==>
              && result.error.route in applied.routes
              && result.error.route in os.table
    ensures result.Err? ==> os.table <= old(os.table) && old(os.table) - Elements(applied.routes) <= os.table
    ensures result == Err(RouteManager) ==> os.table == old(os.table)
    ensures result.Err? ==> !DeletesSucceed(os.log) && !result.error.AddRoute?
    ensures forall k :: |old(os.log)| <= k < |os.log| ==> RemovalEvent(os.log[k])
    ensures result.Ok? <==> RemovalGranted(os.refuses, old(os.calls), |applied.routes|)
  {
    ghost var start, c := |os.log|, os.calls;
    var opens := os.Ask();
    if !opens {
      os.Note(ManagerFailed(true));
      assert os.log[start] == ManagerFailed(true);
      return Err(RouteManager);
    }
    var routes := applied.routes;
    var n: nat := |routes|;
    assert routes[n..] == [];
    while n > 0
      invariant n <= |routes| && os.Consistent() && old(os.log) <= os.log
      invariant |os.log| == start + |routes| - n
      invariant os.table == old(os.table) - Elements(routes[n..])
      invariant os.calls == c + 1 + |routes| - n && forall j :: c <= j < os.calls ==> !os.refuses(j)
      invariant forall k :: start <= k < |os.log| ==> os.log[k] == Deleted(routes[|routes| - 1 - (k - start)])
    {
      n := n - 1;
      var route := routes[n];
      FirstOfBack(routes, n);
      var ok := os.Delete(route);
      if !ok {
        assert os.log[|os.log| - 1].DeleteFailed?;
        return Err(DeleteRoute(route));
      }
    }
    assert routes[0..] == routes;
    result := Ok(());
  }
}
