/** The TUN device with DNS hijacking, and why the resolver's own queries are
    never hijacked again. */
module TunHijack {
  import opened Wrappers
  import opened DnsPipeline
  import R = Routes
  import S = TunnelSession

  datatype Ip = V4(v4: nat) | V6(v6: nat)

  datatype SocketAddr = SocketAddr(ip: Ip, port: nat)

  /** What slicing a packet finds: a UDP datagram over one IP version, or
      anything else. */
  datatype View =
    | Udp4(source: nat, destination: nat, sourcePort: nat, destinationPort: nat, payload: Payload)
    | Udp6(source: nat, destination: nat, sourcePort: nat, destinationPort: nat, payload: Payload)
    | Opaque(bytes: seq<nat>)

  /** `isIp` is the verdict of the second parser, which `WireGuard` relies on. */
  datatype Packet = Packet(view: View, isIp: bool)

  datatype WireQuery = WireQuery(source: Ip, destination: Ip, sourcePort: nat, destinationPort: nat, payload: Payload)

  datatype Error = BuildResponse | AddressFamilyMismatch | InvalidIpPacket | Device

  const DNS_PORT := 53

  // ------------------------------------------------------------------
  // Queries and replies
  // ------------------------------------------------------------------

  function FromIpPacket(view: View): Option<WireQuery> {
    match view
    case Opaque(_) => None
    case Udp4(source, destination, sourcePort, destinationPort, payload) =>
      if destinationPort != DNS_PORT then None
      else Some(WireQuery(V4(source), V4(destination), sourcePort, destinationPort, payload))
    case Udp6(source, destination, sourcePort, destinationPort, payload) =>
      if destinationPort != DNS_PORT then None
      else Some(WireQuery(V6(source), V6(destination), sourcePort, destinationPort, payload))
  }

  /** `writes` says which packets the packet builder can write: a payload may be
      too long for the length fields. */
  function ResponsePacket(query: WireQuery, answer: Payload, writes: View -> bool): Result<View, Error> {
    match (query.source, query.destination)
    case (V4(source), V4(destination)) =>
      Written(Udp4(destination, source, query.destinationPort, query.sourcePort, answer), writes)
    case (V6(source), V6(destination)) =>
      Written(Udp6(destination, source, query.destinationPort, query.sourcePort, answer), writes)
    case _ => Err(AddressFamilyMismatch)
  }

  function Written(view: View, writes: View -> bool): Result<View, Error> {
    if writes(view) then Ok(view) else Err(BuildResponse)
  }

  /** The flow of a UDP packet: where it comes from and where it goes. */
  function Flow(view: View): (r: (SocketAddr, SocketAddr))
    requires !view.Opaque?
  {
    var source := if view.Udp4? then V4(view.source) else V6(view.source);
    var destination := if view.Udp4? then V4(view.destination) else V6(view.destination);
    (SocketAddr(source, view.sourcePort), SocketAddr(destination, view.destinationPort))
  }

  /** A hijacked packet is answered from the address it was sent to, to the address
      it was sent from, with the given payload; the address families never clash. */
  lemma ReplyReachesAsker(view: View, answer: Payload, writes: View -> bool)
    requires FromIpPacket(view).Some?
    ensures !view.Opaque?
    ensures var reply := ResponsePacket(FromIpPacket(view).value, answer, writes);
            && (reply.Ok? ==>
                  && !reply.value.Opaque? && writes(reply.value) && reply.value.payload == answer
                  && Flow(reply.value) == (Flow(view).1, Flow(view).0))
            && (reply.Err? ==> reply.error == BuildResponse)
  {
  }

  // ------------------------------------------------------------------
  // The resolver
  // ------------------------------------------------------------------

  datatype Resolver = Resolver(
    config: Config, vpnServers: seq<SocketAddr>, systemServers: seq<SocketAddr>, vpnDnsIps: seq<Ip>)

  /** `None` means that nothing is hijacked. */
  function Build(config: Config, vpnServers: seq<SocketAddr>, systemIps: seq<Ip>): Option<Resolver> {
    if config.servers == [] then None
    else
      Some(Resolver(
             config, vpnServers,
             seq(|systemIps|, i requires 0 <= i < |systemIps| => SocketAddr(systemIps[i], DNS_PORT)),
             seq(|vpnServers|, i requires 0 <= i < |vpnServers| => vpnServers[i].ip)))
  }

  /** The exempt addresses are exactly those of the VPN servers. */
  ghost predicate Sound(resolver: Resolver) {
    forall ip :: ip in resolver.vpnDnsIps <==> exists s :: s in resolver.vpnServers && s.ip == ip
  }

  lemma BuiltResolverIsSound(config: Config, vpnServers: seq<SocketAddr>, systemIps: seq<Ip>)
    ensures Build(config, vpnServers, systemIps).Some? <==> config.servers != []
    ensures Build(config, vpnServers, systemIps).Some? ==>
              var resolver := Build(config, vpnServers, systemIps).value;
              && Sound(resolver) && resolver.config == config && resolver.vpnServers == vpnServers
              && |resolver.systemServers| == |systemIps|
              && forall i :: 0 <= i < |systemIps| ==> resolver.systemServers[i] == SocketAddr(systemIps[i], 53)
  {
    if config.servers != [] {
      var ips := Build(config, vpnServers, systemIps).value.vpnDnsIps;
      forall s | s in vpnServers ensures s.ip in ips {
        var i :| 0 <= i < |vpnServers| && vpnServers[i] == s;
        assert ips[i] == s.ip;
      }
    }
  }

  // ------------------------------------------------------------------
  // Receiving
  // ------------------------------------------------------------------

  function Hijacked(resolver: Option<Resolver>, view: View): Option<WireQuery> {
    var query := FromIpPacket(view);
    if resolver.Some? && query.Some? && query.value.destination !in resolver.value.vpnDnsIps then query else None
  }

  /** Exactly the UDP datagrams for port 53 of an address that is not exempt are
      hijacked, and the query has the datagram's addresses, ports and payload. */
  lemma HijackedIff(resolver: Option<Resolver>, view: View)
    ensures Hijacked(resolver, view).Some? <==>
            && resolver.Some? && !view.Opaque?
            && Flow(view).1.port == 53 && Flow(view).1.ip !in resolver.value.vpnDnsIps
    ensures Hijacked(resolver, view).Some? ==>
              var query := Hijacked(resolver, view).value;
              && SocketAddr(query.source, query.sourcePort) == Flow(view).0
              && SocketAddr(query.destination, query.destinationPort) == Flow(view).1
              && query.payload == view.payload
  {
  }

  /** The flow of a datagram, by its fields. */
  lemma FlowIs(view: View)
    requires !view.Opaque?
    ensures Flow(view).0.port == view.sourcePort && Flow(view).1.port == view.destinationPort
    ensures view.Udp4? ==> Flow(view).0.ip == V4(view.source) && Flow(view).1.ip == V4(view.destination)
    ensures view.Udp6? ==> Flow(view).0.ip == V6(view.source) && Flow(view).1.ip == V6(view.destination)
  {
  }

  function Handed(packet: Packet): Result<Packet, Error> {
    if packet.isIp then Ok(packet) else Err(InvalidIpPacket)
  }

  /** What the calls of `recv` return for a run of packets. */
  function Deliveries(resolver: Option<Resolver>, packets: seq<Packet>): seq<Result<Packet, Error>> {
    if packets == [] then []
    else if Hijacked(resolver, packets[0].view).Some? then Deliveries(resolver, packets[1..])
    else [Handed(packets[0])] + Deliveries(resolver, packets[1..])
  }

  /** The resolutions started for a run of packets. */
  function Resolutions(resolver: Option<Resolver>, packets: seq<Packet>): seq<WireQuery> {
    if packets == [] then []
    else
      var query := Hijacked(resolver, packets[0].view);
      if query.Some? then [query.value] + Resolutions(resolver, packets[1..])
      else Resolutions(resolver, packets[1..])
  }

  /** What the first packet of a run contributes. */
  lemma HeadFate(resolver: Option<Resolver>, packets: seq<Packet>, spawned: seq<WireQuery>)
    requires packets != []
    ensures var query := Hijacked(resolver, packets[0].view);
            && (query.Some? ==>
                  && Deliveries(resolver, packets) == Deliveries(resolver, packets[1..])
                  && spawned + Resolutions(resolver, packets) ==
                     spawned + [query.value] + Resolutions(resolver, packets[1..]))
            && (query.None? ==>
                  && Deliveries(resolver, packets) == [Handed(packets[0])] + Deliveries(resolver, packets[1..])
                  && Resolutions(resolver, packets) == Resolutions(resolver, packets[1..]))
  {
    if Hijacked(resolver, packets[0].view).Some? {
      Associates(spawned, [Hijacked(resolver, packets[0].view).value], Resolutions(resolver, packets[1..]));
    }
  }

  /** Not a datagram, not for port 53, for an exempt address, or no resolver. */
  predicate PassesBy(resolver: Option<Resolver>, view: View) {
    || resolver.None? || view.Opaque? || view.destinationPort != 53
    || (if view.Udp4? then V4(view.destination) else V6(view.destination)) in resolver.value.vpnDnsIps
  }

  lemma PassesByIff(resolver: Option<Resolver>, view: View)
    ensures PassesBy(resolver, view) <==> Hijacked(resolver, view).None?
  {
    HijackedIff(resolver, view);
  }

  class VpnTun {
    const resolver: Option<Resolver>
    /** What the device still has to deliver before it fails. */
    var incoming: seq<Packet>
    /** The resolutions spawned so far. */
    var spawned: seq<WireQuery>

    constructor (resolver: Option<Resolver>, incoming: seq<Packet>)
      ensures this.resolver == resolver && this.incoming == incoming && spawned == []
    {
      this.resolver, this.incoming, spawned := resolver, incoming, [];
    }

    /** One call takes the packets up to and including the first that is not
        hijacked, and starts one resolution for each of the others. */
    method Recv() returns (r: Result<Packet, Error>)
      modifies this
      ensures old(incoming) == [] ==> r == Err(Device)
      ensures |incoming| <= |old(incoming)| && incoming == old(incoming)[|old(incoming)| - |incoming|..]
      ensures spawned + Resolutions(resolver, incoming) == old(spawned + Resolutions(resolver, incoming))
      ensures r == Err(Device) ==> incoming == [] && old(Deliveries(resolver, incoming)) == []
      ensures r != Err(Device) ==>
                && old(Deliveries(resolver, incoming)) == [r] + Deliveries(resolver, incoming)
                && |incoming| < |old(incoming)|
                && r == Handed(old(incoming)[|old(incoming)| - |incoming| - 1])
      ensures old(incoming) != [] && PassesBy(resolver, old(incoming)[0].view) ==>
                && r == (if old(incoming)[0].isIp then Ok(old(incoming)[0]) else Err(InvalidIpPacket))
                && incoming == old(incoming)[1..] && spawned == old(spawned)
    {
      ghost var all, delivered, started := incoming, Deliveries(resolver, incoming), Resolutions(resolver, incoming);
      while true
        invariant |incoming| <= |all| && incoming == all[|all| - |incoming|..]
        invariant spawned + Resolutions(resolver, incoming) == old(spawned) + started
        invariant Deliveries(resolver, incoming) == delivered
        invariant all != [] && PassesBy(resolver, all[0].view) ==> incoming == all && spawned == old(spawned)
        decreases |incoming|
      {
        if incoming == [] {
          return Err(Device);
        }
        var packet := incoming[0];
        HeadFate(resolver, incoming, spawned);
        PassesByIff(resolver, packet.view);
        incoming := incoming[1..];
        var query := Hijacked(resolver, packet.view);
        if query.Some? {
          spawned := spawned + [query.value];
          continue;
        }
        return if packet.isIp then Ok(packet) else Err(InvalidIpPacket);
      }
    }
  }

  lemma {:induction false} StreamsAppend(resolver: Option<Resolver>, front: seq<Packet>, back: seq<Packet>)
    ensures Deliveries(resolver, front + back) == Deliveries(resolver, front) + Deliveries(resolver, back)
    ensures Resolutions(resolver, front + back) == Resolutions(resolver, front) + Resolutions(resolver, back)
  {
    if front == [] {
      assert front + back == back;
    } else {
      assert (front + back)[1..] == front[1..] + back;
      StreamsAppend(resolver, front[1..], back);
    }
  }

  /** Every packet of a run has exactly one fate, in order: the packet `i` is the
      result that follows those of the packets before it, or the resolution that
      follows theirs. Nothing is lost and nothing is made up. */
  lemma {:induction false} EachPacketHasOneFate(resolver: Option<Resolver>, packets: seq<Packet>, i: nat)
    requires i < |packets|
    ensures |Deliveries(resolver, packets)| + |Resolutions(resolver, packets)| == |packets|
    ensures var query := Hijacked(resolver, packets[i].view);
            var returned := |Deliveries(resolver, packets[..i])|;
            var started := |Resolutions(resolver, packets[..i])|;
            && returned + started == i
            && (query.None? ==>
                  && returned < |Deliveries(resolver, packets)|
                  && Deliveries(resolver, packets)[returned] == Handed(packets[i]))
            && (query.Some? ==>
                  && started < |Resolutions(resolver, packets)|
                  && Resolutions(resolver, packets)[started] == query.value)
  {
    assert packets == packets[..i] + packets[i..];
    StreamsAppend(resolver, packets[..i], packets[i..]);
    FatesCount(resolver, packets);
    FatesCount(resolver, packets[..i]);
  }

  lemma {:induction false} FatesCount(resolver: Option<Resolver>, packets: seq<Packet>)
    ensures |Deliveries(resolver, packets)| + |Resolutions(resolver, packets)| == |packets|
  {
    if packets != [] {
      FatesCount(resolver, packets[1..]);
    }
  }

  // ------------------------------------------------------------------
  // No query loop
  // ------------------------------------------------------------------

  datatype Origin = Program | Forwarder

  /** The host: packets waiting at the TUN with their senders, and the running
      resolutions by the payloads they resolve. The counters are the packets that
      programs sent, the packets hijacked, the queries that programs put to the
      optional local DNS server, and the packets that resolutions sent. */
  datatype Host = Host(
    waiting: seq<(Packet, Origin)>, resolving: seq<Payload>, asked: nat, hijacked: nat, served: nat, forwarded: nat)

  datatype Action =
    | Send(packet: Packet)
    | Receive
    | Serve(payload: Payload)
    | Forward(task: nat, sent: seq<Packet>)
    | Probe(packet: Packet)

  const IDLE := Host([], [], 0, 0, 0, 0)

  /** A datagram to one of the VPN servers. */
  ghost predicate ToServer(resolver: Resolver, packet: Packet) {
    !packet.view.Opaque? && Flow(packet.view).1 in resolver.vpnServers
  }

  /** Where the directed path's datagrams go. They leave by the physical interface if
      the dialer is bound to one and binds for that address; otherwise the OS routes
      them, and in a split tunnel the system's DNS servers may be routed into the TUN. */
  datatype Env = Env(bound: bool, binds: Ip -> bool, intoTun: Ip -> bool)

  predicate EntersTun(env: Env, ip: Ip) {
    env.intoTun(ip) && !(env.bound && env.binds(ip))
  }

  ghost predicate ToSystemServer(resolver: Resolver, env: Env, packet: Packet) {
    !packet.view.Opaque? && Flow(packet.view).1 in resolver.systemServers && EntersTun(env, Flow(packet.view).1.ip)
  }

  /** What a resolution sends through the TUN: at most one datagram to each server of
      its path, of the directed path only those that enter it, and nothing when it
      is answered locally. */
  ghost predicate Forwards(resolver: Resolver, env: Env, codec: Codec, payload: Payload, sent: seq<Packet>) {
    match Decide(resolver.config, payload, codec)
    case Routed => |sent| <= |resolver.vpnServers| && forall p :: p in sent ==> ToServer(resolver, p)
    case Directed => |sent| <= |resolver.systemServers| && forall p :: p in sent ==> ToSystemServer(resolver, env, p)
    case Local(_) => sent == []
  }

  /** No directed query can be hijacked: there is no directed path, or every system
      server whose datagrams enter the TUN is exempt. */
  ghost predicate DirectedSafe(resolver: Resolver, env: Env) {
    resolver.config.fullTunnel
    || forall s :: s in resolver.systemServers && EntersTun(env, s.ip) ==> s.ip in resolver.vpnDnsIps
  }

  ghost predicate Enabled(resolver: Resolver, env: Env, codec: Codec, h: Host, a: Action) {
    match a
    case Send(_) => true
    case Receive => h.waiting != []
    case Serve(_) => true
    case Forward(task, sent) => task < |h.resolving| && Forwards(resolver, env, codec, h.resolving[task], sent)
    case Probe(packet) => ToServer(resolver, packet)
  }

  function From(packets: seq<Packet>): seq<(Packet, Origin)> {
    seq(|packets|, i requires 0 <= i < |packets| => (packets[i], Forwarder))
  }

  ghost function Next(resolver: Resolver, env: Env, codec: Codec, h: Host, a: Action): Host
    requires Enabled(resolver, env, codec, h, a)
  {
    match a
    case Send(packet) => h.(waiting := h.waiting + [(packet, Program)], asked := h.asked + 1)
    case Receive =>
      var query := Hijacked(Some(resolver), h.waiting[0].0.view);
      if query.None? then h.(waiting := h.waiting[1..])
      else h.(waiting := h.waiting[1..], resolving := h.resolving + [query.value.payload], hijacked := h.hijacked + 1)
    case Serve(payload) => h.(resolving := h.resolving + [payload], served := h.served + 1)
    case Forward(task, sent) =>
      h.(waiting := h.waiting + From(sent),
      resolving := h.resolving[..task] + h.resolving[task + 1..],
      forwarded := h.forwarded + |sent|)
    case Probe(packet) => h.(waiting := h.waiting + [(packet, Forwarder)])
  }

  /** Each receive takes one packet off the front, whatever becomes of it, a resolution
      that has sent its datagrams is over, a query served is resolved, and a probe goes
      through the TUN. */
  lemma EachTakesOne(
      resolver: Resolver, env: Env, codec: Codec, h: Host, task: nat, sent: seq<Packet>, payload: Payload,
      probe: Packet)
    ensures payload in Next(resolver, env, codec, h, Serve(payload)).resolving
    ensures Enabled(resolver, env, codec, h, Probe(probe)) ==>
              (probe, Forwarder) in Next(resolver, env, codec, h, Probe(probe)).waiting
    ensures Enabled(resolver, env, codec, h, Receive) ==>
              Next(resolver, env, codec, h, Receive).waiting == h.waiting[1..]
    ensures Enabled(resolver, env, codec, h, Forward(task, sent)) ==>
              var after := Next(resolver, env, codec, h, Forward(task, sent));
              |after.resolving| == |h.resolving| - 1 && |after.waiting| == |h.waiting| + |sent|
  {
  }

  ghost predicate Run(resolver: Resolver, env: Env, codec: Codec, h: Host, actions: seq<Action>, end: Host)
    decreases |actions|
  {
    if actions == [] then h == end
    else Enabled(resolver, env, codec, h, actions[0])
         && Run(resolver, env, codec, Next(resolver, env, codec, h, actions[0]), actions[1..], end)
  }

  function FromPrograms(waiting: seq<(Packet, Origin)>): nat {
    if waiting == [] then 0 else (if waiting[0].1.Program? then 1 else 0) + FromPrograms(waiting[1..])
  }

  lemma {:induction false} FromProgramsAppend(front: seq<(Packet, Origin)>, back: seq<(Packet, Origin)>)
    ensures FromPrograms(front + back) == FromPrograms(front) + FromPrograms(back)
  {
    if front == [] {
      assert front + back == back;
    } else {
      assert (front + back)[1..] == front[1..] + back;
      FromProgramsAppend(front[1..], back);
    }
  }

  lemma {:induction false} ForwardedAreNotFromPrograms(packets: seq<Packet>)
    ensures FromPrograms(From(packets)) == 0
  {
    if packets != [] {
      assert From(packets)[1..] == From(packets[1..]);
      ForwardedAreNotFromPrograms(packets[1..]);
    }
  }

  /** The most datagrams one resolution sends. */
  function FanOut(resolver: Resolver): nat {
    |resolver.vpnServers| + |resolver.systemServers|
  }

  ghost predicate NoLoop(resolver: Resolver, h: Host) {
    && (forall w :: w in h.waiting && w.1.Forwarder? ==> Hijacked(Some(resolver), w.0.view).None?)
    && h.hijacked + FromPrograms(h.waiting) <= h.asked
    && h.forwarded + FanOut(resolver) * |h.resolving| <= FanOut(resolver) * (h.hijacked + h.served)
  }

  /** A datagram to a VPN server is never hijacked. */
  lemma ServerTrafficPasses(resolver: Resolver, packet: Packet)
    requires Sound(resolver) && ToServer(resolver, packet)
    ensures Hijacked(Some(resolver), packet.view).None?
  {
  }

  lemma ForwardsPass(resolver: Resolver, env: Env, codec: Codec, payload: Payload, sent: seq<Packet>)
    requires Sound(resolver) && DirectedSafe(resolver, env) && Forwards(resolver, env, codec, payload, sent)
    ensures |sent| <= FanOut(resolver)
    ensures forall p :: p in sent ==> Hijacked(Some(resolver), p.view).None?
  {
    forall p | p in sent ensures Hijacked(Some(resolver), p.view).None? {
      assert Decide(resolver.config, payload, codec).Directed? ==> !resolver.config.fullTunnel;
      assert ToServer(resolver, p) || ToSystemServer(resolver, env, p);
    }
  }

  lemma ReceiveKeepsNoLoop(resolver: Resolver, env: Env, codec: Codec, h: Host)
    requires NoLoop(resolver, h) && h.waiting != []
    ensures NoLoop(resolver, Next(resolver, env, codec, h, Receive))
  {
    var fan := FanOut(resolver);
    if Hijacked(Some(resolver), h.waiting[0].0.view).Some? {
      assert fan * (|h.resolving| + 1) == fan * |h.resolving| + fan;
      assert fan * (h.hijacked + h.served + 1) == fan * (h.hijacked + h.served) + fan;
    }
  }

  lemma ServeKeepsNoLoop(resolver: Resolver, env: Env, codec: Codec, h: Host, payload: Payload)
    requires NoLoop(resolver, h)
    ensures NoLoop(resolver, Next(resolver, env, codec, h, Serve(payload)))
  {
    var fan := FanOut(resolver);
    assert fan * (|h.resolving| + 1) == fan * |h.resolving| + fan;
    assert fan * (h.hijacked + h.served + 1) == fan * (h.hijacked + h.served) + fan;
  }

  lemma ForwardKeepsNoLoop(resolver: Resolver, env: Env, codec: Codec, h: Host, task: nat, sent: seq<Packet>)
    requires NoLoop(resolver, h) && Enabled(resolver, env, codec, h, Forward(task, sent))
    requires |sent| <= FanOut(resolver) && forall p :: p in sent ==> Hijacked(Some(resolver), p.view).None?
    ensures NoLoop(resolver, Next(resolver, env, codec, h, Forward(task, sent)))
  {
    var fan, after := FanOut(resolver), Next(resolver, env, codec, h, Forward(task, sent));
    ForwardedAreNotFromPrograms(sent);
    FromProgramsAppend(h.waiting, From(sent));
    assert after.hijacked + FromPrograms(after.waiting) <= after.asked;
    assert |after.resolving| == |h.resolving| - 1;
    Less(fan, |h.resolving|);
    forall w | w in after.waiting && w.1.Forwarder? ensures Hijacked(Some(resolver), w.0.view).None? {
      assert w in h.waiting || w in From(sent);
    }
  }

  lemma Less(fan: nat, n: nat)
    requires n > 0
    ensures fan * (n - 1) == fan * n - fan
  {
  }

  lemma StepKeepsNoLoop(resolver: Resolver, env: Env, codec: Codec, h: Host, a: Action)
    requires Sound(resolver) && DirectedSafe(resolver, env) && NoLoop(resolver, h)
    requires Enabled(resolver, env, codec, h, a)
    ensures NoLoop(resolver, Next(resolver, env, codec, h, a))
  {
    match a
    case Send(packet) => FromProgramsAppend(h.waiting, [(packet, Program)]);
    case Receive => ReceiveKeepsNoLoop(resolver, env, codec, h);
    case Serve(payload) => ServeKeepsNoLoop(resolver, env, codec, h, payload);
    case Forward(task, sent) =>
      ForwardsPass(resolver, env, codec, h.resolving[task], sent);
      ForwardKeepsNoLoop(resolver, env, codec, h, task, sent);
    case Probe(packet) =>
      ServerTrafficPasses(resolver, packet);
      FromProgramsAppend(h.waiting, [(packet, Forwarder)]);
  }

  lemma {:induction false} RunKeepsNoLoop(
      resolver: Resolver, env: Env, codec: Codec, h: Host, actions: seq<Action>, end: Host)
    requires Sound(resolver) && DirectedSafe(resolver, env) && NoLoop(resolver, h)
    requires Run(resolver, env, codec, h, actions, end)
    ensures NoLoop(resolver, end)
    decreases |actions|
  {
    if actions != [] {
      StepKeepsNoLoop(resolver, env, codec, h, actions[0]);
      RunKeepsNoLoop(resolver, env, codec, Next(resolver, env, codec, h, actions[0]), actions[1..], end);
    }
  }

  /** In every interleaving of programs, resolutions, probes and the local DNS server,
      only packets of programs are hijacked, each at most once, and resolutions send
      at most one datagram to each server for every packet a program sent and every
      query it put to the local server. */
  lemma NoQueryLoop(config: Config, vpnServers: seq<SocketAddr>, systemIps: seq<Ip>, env: Env, codec: Codec,
                    actions: seq<Action>, end: Host)
    requires Build(config, vpnServers, systemIps).Some?
    requires DirectedSafe(Build(config, vpnServers, systemIps).value, env)
    requires Run(Build(config, vpnServers, systemIps).value, env, codec, IDLE, actions, end)
    ensures end.hijacked <= end.asked
    ensures end.forwarded <= (|vpnServers| + |systemIps|) * (end.asked + end.served)
    ensures forall w :: w in end.waiting && w.1.Forwarder? ==>
              Hijacked(Build(config, vpnServers, systemIps), w.0.view).None?
  {
    var resolver := Build(config, vpnServers, systemIps).value;
    BuiltResolverIsSound(config, vpnServers, systemIps);
    RunKeepsNoLoop(resolver, env, codec, IDLE, actions, end);
    Scaled(FanOut(resolver), end.hijacked + end.served, end.asked + end.served);
  }

  lemma Scaled(k: nat, m: nat, n: nat)
    requires m <= n
    ensures k * m <= k * n
  {
  }

  // ------------------------------------------------------------------
  // When queries do loop
  // ------------------------------------------------------------------

  function Turns(packet: Packet, n: nat): seq<Action> {
    if n == 0 then [] else [Receive, Forward(0, [packet])] + Turns(packet, n - 1)
  }

  /** The packet is hijacked, and its resolution may send it again. */
  ghost predicate SentAgain(resolver: Resolver, env: Env, codec: Codec, packet: Packet) {
    var query := Hijacked(Some(resolver), packet.view);
    query.Some? && Forwards(resolver, env, codec, query.value.payload, [packet])
  }

  /** One such packet of one program can be hijacked without end: here `n` times, for
      any `n`. */
  lemma QueriesLoop(resolver: Resolver, env: Env, codec: Codec, packet: Packet, n: nat) returns (end: Host)
    requires SentAgain(resolver, env, codec, packet)
    ensures Run(resolver, env, codec, IDLE, [Send(packet)] + Turns(packet, n), end)
    ensures end.asked == 1 && end.hijacked == n
  {
    var h := Host([(packet, Program)], [], 1, 0, 0, 0);
    assert Next(resolver, env, codec, IDLE, Send(packet)) == h;
    end := TurnsRun(resolver, env, codec, packet, n, h);
    RunStep(resolver, env, codec, IDLE, Send(packet), Turns(packet, n), end);
  }

  /** Were a VPN server's address not exempt, its traffic would loop. */
  lemma WithoutExemptionQueriesLoop(resolver: Resolver, env: Env, codec: Codec, packet: Packet, n: nat)
    returns (end: Host)
    requires ToServer(resolver, packet) && Hijacked(Some(resolver), packet.view).Some?
    requires Decide(resolver.config, packet.view.payload, codec).Routed?
    ensures Run(resolver, env, codec, IDLE, [Send(packet)] + Turns(packet, n), end)
    ensures end.asked == 1 && end.hijacked == n
  {
    assert |resolver.vpnServers| >= 1;
    end := QueriesLoop(resolver, env, codec, packet, n);
  }

  /** A datagram to a system server that no path but the directed one would take. */
  function StrayQuery(server: Ip): (packet: Packet)
    ensures packet.isIp && !packet.view.Opaque? && Flow(packet.view).1 == SocketAddr(server, 53)
  {
    var view := if server.V4? then Udp4(0, server.v4, 0, DNS_PORT, Garbage([]))
                else Udp6(0, server.v6, 0, DNS_PORT, Garbage([]));
    Packet(view, true)
  }

  lemma StrayIsSentAgain(resolver: Resolver, env: Env, codec: Codec, server: SocketAddr)
    requires !resolver.config.fullTunnel && server in resolver.systemServers && server.port == DNS_PORT
    requires EntersTun(env, server.ip) && server.ip !in resolver.vpnDnsIps
    ensures SentAgain(resolver, env, codec, StrayQuery(server.ip))
  {
    assert |resolver.systemServers| >= 1;
    assert Flow(StrayQuery(server.ip).view).1 == server;
  }

  /** No run hijacks more than programs asked. */
  ghost predicate NeverLoops(resolver: Resolver, env: Env, codec: Codec) {
    forall actions, end :: Run(resolver, env, codec, IDLE, actions, end) ==> end.hijacked <= end.asked
  }

  /** Queries never loop exactly when no directed query can be hijacked: in a full
      tunnel, with a dialer bound for every system server, or with no server that is
      not exempt routed into the TUN. */
  lemma NeverLoopsIff(config: Config, vpnServers: seq<SocketAddr>, systemIps: seq<Ip>, env: Env, codec: Codec)
    requires Build(config, vpnServers, systemIps).Some?
    ensures var resolver := Build(config, vpnServers, systemIps).value;
            NeverLoops(resolver, env, codec) <==> DirectedSafe(resolver, env)
  {
    var resolver := Build(config, vpnServers, systemIps).value;
    if DirectedSafe(resolver, env) {
      forall actions, end | Run(resolver, env, codec, IDLE, actions, end) ensures end.hijacked <= end.asked {
        NoQueryLoop(config, vpnServers, systemIps, env, codec, actions, end);
      }
    } else {
      var s :| s in resolver.systemServers && EntersTun(env, s.ip) && s.ip !in resolver.vpnDnsIps;
      StrayIsSentAgain(resolver, env, codec, s);
      var end := QueriesLoop(resolver, env, codec, StrayQuery(s.ip), 2);
      assert end.hijacked > end.asked;
    }
  }

  // ------------------------------------------------------------------
  // The routes of a session
  // ------------------------------------------------------------------

  function AddressOf(ip: Ip): nat {
    if ip.V4? then ip.v4 else ip.v6
  }

  function HostOf(ip: Ip): R.Network {
    R.Network(AddressOf(ip), if ip.V6? then 128 else 32, ip.V6?)
  }

  function HostsOf(ips: seq<Ip>): seq<R.Network> {
    seq(|ips|, i requires 0 <= i < |ips| => HostOf(ips[i]))
  }

  predicate Covers(network: R.Network, ip: Ip) {
    var size := R.HostSize(R.HostBits(network));
    network.v6 == ip.V6? && AddressOf(ip) / size == network.address / size
  }

  /** A route of the session's plan carries the address into the TUN. */
  ghost predicate Carried(session: S.Config, ip: Ip) {
    exists network :: network in S.PlannedNetworks(session) && Covers(network, ip)
  }

  /** A route carries the addresses of its network: those from its destination on, as
      many as its host bits allow. */
  lemma CarriedIff(session: S.Config, ip: Ip)
    ensures Carried(session, ip) <==>
            exists network :: network in S.PlannedNetworks(session)
                              && Within(R.SystemRoute(network, session.interface), ip)
  {
    forall network: R.Network ensures Covers(network, ip) <==> Within(R.SystemRoute(network, session.interface), ip) {
      R.InNetwork(AddressOf(ip), network.address, R.HostSize(R.HostBits(network)));
    }
  }

  predicate Within(route: R.Route, ip: Ip) {
    var bits := (if route.v6 then 128 else 32) - route.prefix;
    && route.v6 == ip.V6?
    && route.destination <= AddressOf(ip) < route.destination + R.HostSize(if bits < 0 then 0 else bits)
  }

  /** The environment that a session makes: its outbound interface and its routes. */
  ghost function EnvOf(session: S.Config, binds: Ip -> bool): Env {
    Env(session.hasOutbound, binds, ip => Carried(session, ip))
  }

  /** The host routes of a split tunnel carry every system server of a family that the
      tunnel has. */
  lemma SystemServersAreCarried(session: S.Config, systemIps: seq<Ip>, ip: Ip)
    requires !session.fullTunnel && session.routeSystemDns && session.dnsServers == HostsOf(systemIps)
    requires ip in systemIps && (session.ipv6Enabled || ip.V4?)
    ensures Carried(session, ip)
  {
    var i :| 0 <= i < |systemIps| && systemIps[i] == ip;
    assert session.dnsServers[i] == HostOf(ip);
    S.DnsHostRoutesExact(session.dnsServers, session.ipv6Enabled, HostOf(ip));
    assert S.HostNetwork(HostOf(ip)) == HostOf(ip);
    assert HostOf(ip) in S.PlannedNetworks(session) && Covers(HostOf(ip), ip);
  }

  /** A split tunnel that draws the system's DNS into itself and has no outbound
      interface never loops exactly when every system server is itself a VPN server,
      those of a family aside that the tunnel does not have and no route carries. */
  lemma SplitSessionNeverLoopsIff(
      session: S.Config, binds: Ip -> bool, config: Config, vpnServers: seq<SocketAddr>, systemIps: seq<Ip>,
      codec: Codec)
    requires Build(config, vpnServers, systemIps).Some? && config.fullTunnel == session.fullTunnel == false
    requires session.routeSystemDns && !session.hasOutbound && session.dnsServers == HostsOf(systemIps)
    ensures NeverLoops(Build(config, vpnServers, systemIps).value, EnvOf(session, binds), codec) <==>
            forall ip :: ip in systemIps && (session.ipv6Enabled || ip.V4? || Carried(session, ip)) ==>
                           exists s :: s in vpnServers && s.ip == ip
  {
    var resolver, env := Build(config, vpnServers, systemIps).value, EnvOf(session, binds);
    NeverLoopsIff(config, vpnServers, systemIps, env, codec);
    BuiltResolverIsSound(config, vpnServers, systemIps);
    forall ip | ip in systemIps && (session.ipv6Enabled || ip.V4? || Carried(session, ip))
      ensures SocketAddr(ip, DNS_PORT) in resolver.systemServers && EntersTun(env, ip)
    {
      var i :| 0 <= i < |systemIps| && systemIps[i] == ip;
      assert resolver.systemServers[i] == SocketAddr(ip, DNS_PORT);
      if session.ipv6Enabled || ip.V4? {
        SystemServersAreCarried(session, systemIps, ip);
      }
    }
    forall s | s in resolver.systemServers ensures s.ip in systemIps {
      var i :| 0 <= i < |resolver.systemServers| && resolver.systemServers[i] == s;
      assert systemIps[i] == s.ip;
    }
  }

  ghost predicate Turning(packet: Packet, h: Host) {
    |h.waiting| == 1 && h.waiting[0].0 == packet && h.resolving == []
  }

  function AfterTurn(packet: Packet, h: Host): Host {
    h.(waiting := [(packet, Forwarder)], hijacked := h.hijacked + 1, forwarded := h.forwarded + 1)
  }

  /** The packet is hijacked and its resolution sends it again. */
  lemma OneTurn(resolver: Resolver, env: Env, codec: Codec, packet: Packet, h: Host) returns (taken: Host)
    requires SentAgain(resolver, env, codec, packet) && Turning(packet, h)
    ensures Enabled(resolver, env, codec, h, Receive) && taken == Next(resolver, env, codec, h, Receive)
    ensures Enabled(resolver, env, codec, taken, Forward(0, [packet]))
    ensures Next(resolver, env, codec, taken, Forward(0, [packet])) == AfterTurn(packet, h)
  {
    var query := Hijacked(Some(resolver), packet.view).value;
    taken := Next(resolver, env, codec, h, Receive);
    assert taken.waiting == [] && taken.resolving == [query.payload];
    var back := Next(resolver, env, codec, taken, Forward(0, [packet]));
    assert back.waiting == [(packet, Forwarder)] && back.resolving == [];
  }

  lemma RunStep(resolver: Resolver, env: Env, codec: Codec, h: Host, a: Action, rest: seq<Action>, end: Host)
    requires Enabled(resolver, env, codec, h, a)
    requires Run(resolver, env, codec, Next(resolver, env, codec, h, a), rest, end)
    ensures Run(resolver, env, codec, h, [a] + rest, end)
  {
    assert ([a] + rest)[1..] == rest;
  }

  lemma TurnThenRun(
      resolver: Resolver, env: Env, codec: Codec, packet: Packet, h: Host, rest: seq<Action>, end: Host)
    requires SentAgain(resolver, env, codec, packet) && Turning(packet, h)
    requires Run(resolver, env, codec, AfterTurn(packet, h), rest, end)
    ensures Run(resolver, env, codec, h, [Receive, Forward(0, [packet])] + rest, end)
  {
    var taken := OneTurn(resolver, env, codec, packet, h);
    var again := Forward(0, [packet]);
    RunStep(resolver, env, codec, taken, again, rest, end);
    RunStep(resolver, env, codec, h, Receive, [again] + rest, end);
    assert [Receive, again] + rest == [Receive] + ([again] + rest);
  }

  lemma {:induction false} TurnsRun(resolver: Resolver, env: Env, codec: Codec, packet: Packet, n: nat, h: Host)
    returns (end: Host)
    requires SentAgain(resolver, env, codec, packet) && Turning(packet, h)
    ensures Run(resolver, env, codec, h, Turns(packet, n), end)
    ensures end.asked == h.asked && end.hijacked == h.hijacked + n
  {
    if n == 0 {
      end := h;
    } else {
      end := TurnsRun(resolver, env, codec, packet, n - 1, AfterTurn(packet, h));
      TurnThenRun(resolver, env, codec, packet, h, Turns(packet, n - 1), end);
    }
  }
}
