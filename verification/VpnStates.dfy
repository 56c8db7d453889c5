/** The pure tunnel state of the core crate, its transitions, and its
    projection to the `Tunnel` message that clients watch. */
module VpnStates {
  import opened Wrappers

  const U32_MAX: nat := 0xFFFF_FFFF

  type U32 = n: nat | n <= U32_MAX

  function SaturatingSucc(n: U32): U32 {
    if n < U32_MAX then n + 1 else n
  }

  datatype ConnectMode = Full | Split

  datatype Transport = Udp | FeilianTcp

  datatype VpnRequest = VpnRequest(
    mode: ConnectMode, locationId: Option<int>, otp: Option<string>, reconnect: bool, transport: Transport)

  const DEFAULT_REQUEST := VpnRequest(Full, None, None, true, Udp)

  datatype ActiveTunnel = ActiveTunnel(
    dotId: int, dotName: string, endpoint: string, assignedIp: string, transport: Transport)

  datatype VpnState =
    | Disconnected
    | Connecting(request: VpnRequest)
    | Configuring(request: VpnRequest)
    | Connected(request: VpnRequest, info: ActiveTunnel)
    | Reconnecting(request: VpnRequest, attempts: U32)
    | Failed(request: VpnRequest, error: string, attempts: U32)
    | Disconnecting(request: VpnRequest)
  {
    predicate CanConnect() {
      Disconnected? || Failed?
    }

    function Attempts(): U32 {
      if Reconnecting? || Failed? then attempts else 0
    }

    function CurrentRequest(): Option<VpnRequest> {
      if Disconnected? then None else Some(request)
    }

    function IntoRequest(): VpnRequest {
      CurrentRequest().GetOr(DEFAULT_REQUEST)
    }

    function IntoConfiguring(): VpnState {
      Configuring(IntoRequest())
    }

    function IntoConnected(info: ActiveTunnel): VpnState {
      Connected(IntoRequest(), info)
    }

    function IntoReconnecting(): VpnState {
      Reconnecting(IntoRequest(), SaturatingSucc(Attempts()))
    }

    function IntoFailed(error: string): VpnState {
      Failed(IntoRequest(), error, Attempts())
    }

    function IntoDisconnecting(): VpnState {
      Disconnecting(IntoRequest())
    }
  }

  datatype Phase =
    | Unspecified | PhaseDisconnected | PhaseConnecting | PhaseConfiguring | PhaseConnected
    | PhaseReconnecting | PhaseDisconnecting | PhaseFailed

  datatype WireMode = ModeUnspecified | ModeFull | ModeSplit

  datatype WireTransport = TransportUnspecified | TransportUdp | TransportTcp

  /** The message clients see; absent fields hold their proto3 defaults. */
  datatype Tunnel = Tunnel(
    phase: Phase, mode: WireMode, transport: WireTransport, dotId: int, dotName: string,
    endpoint: string, assignedIp: string, reconnectAttempts: U32, error: string)

  const DEFAULT_TUNNEL := Tunnel(Unspecified, ModeUnspecified, TransportUnspecified, 0, "", "", "", 0, "")

  function ModeToWire(mode: ConnectMode): WireMode {
    match mode
    case Full => ModeFull
    case Split => ModeSplit
  }

  function TransportToWire(transport: Transport): WireTransport {
    match transport
    case Udp => TransportUdp
    case FeilianTcp => TransportTcp
  }

  function ForRequest(phase: Phase, request: VpnRequest): Tunnel {
    DEFAULT_TUNNEL.(phase := phase, mode := ModeToWire(request.mode), transport := TransportToWire(request.transport))
  }

  function ToTunnel(state: VpnState): Tunnel {
    match state
    case Disconnected => DEFAULT_TUNNEL.(phase := PhaseDisconnected)
    case Connecting(request) => ForRequest(PhaseConnecting, request)
    case Configuring(request) => ForRequest(PhaseConfiguring, request)
    case Connected(request, info) =>
      ForRequest(PhaseConnected, request).(
        transport := TransportToWire(info.transport), dotId := info.dotId, dotName := info.dotName,
        endpoint := info.endpoint, assignedIp := info.assignedIp)
    case Reconnecting(request, attempts) =>
      ForRequest(PhaseReconnecting, request).(reconnectAttempts := attempts)
    case Failed(request, error, attempts) =>
      ForRequest(PhaseFailed, request).(reconnectAttempts := attempts, error := error)
    case Disconnecting(request) => ForRequest(PhaseDisconnecting, request)
  }

  /** Every transition of a machine with a request keeps it, and so does its way to
      the clients: only `Disconnected` forgets what was asked for. */
  lemma RequestIsKept(state: VpnState, info: ActiveTunnel, error: string)
    requires !state.Disconnected?
    ensures var next := [state.IntoConfiguring(), state.IntoConnected(info), state.IntoReconnecting(),
                         state.IntoFailed(error), state.IntoDisconnecting()];
            forall s :: s in next ==>
                          s.CurrentRequest() == state.CurrentRequest() && !s.Disconnected?
                          && ToTunnel(s).mode == ModeToWire(state.request.mode)
  {
  }

  /** What clients are told tells states apart: equal messages come from states of
      the same kind that agree on the mode, the tunnel's data, the count and the
      error. */
  lemma TunnelTellsStatesApart(a: VpnState, b: VpnState)
    requires ToTunnel(a) == ToTunnel(b)
    ensures a.Disconnected? == b.Disconnected? && a.Connecting? == b.Connecting? && a.Configuring? == b.Configuring?
    ensures a.Connected? == b.Connected? && a.Reconnecting? == b.Reconnecting?
    ensures a.Failed? == b.Failed? && a.Disconnecting? == b.Disconnecting?
    ensures a.Attempts() == b.Attempts()
    ensures !a.Disconnected? && !b.Disconnected? ==> a.request.mode == b.request.mode
    ensures a.Connected? && b.Connected? ==> a.info == b.info
    ensures a.Failed? && b.Failed? ==> a.error == b.error
  {
  }

  /** The attempt count does not survive the next attempt: whatever it was, the
      retry after a new attempt shows 1 again. */
  lemma RetryCountIsLost(state: VpnState, error: string)
    ensures state.IntoConfiguring().IntoFailed(error).IntoReconnecting().Attempts() == 1
    ensures state.IntoReconnecting().Attempts() == SaturatingSucc(state.Attempts())
  {
  }

  /** What every transition leaves, written out: the request that was asked for (the
      default one if there was none), the counts, the tunnel's data, the error. */
  lemma TransitionShapes(state: VpnState, info: ActiveTunnel, error: string)
    ensures var asked := if state.Disconnected? then VpnRequest(Full, None, None, true, Udp) else state.request;
            var count := if state.Reconnecting? || state.Failed? then state.attempts else 0;
            && state.IntoConfiguring() == Configuring(asked)
            && state.IntoConnected(info) == Connected(asked, info)
            && state.IntoReconnecting() == Reconnecting(asked, if count == 0xFFFF_FFFF then count else count + 1)
            && state.IntoFailed(error) == Failed(asked, error, count)
            && state.IntoDisconnecting() == Disconnecting(asked)
            && state.CurrentRequest() == (if state.Disconnected? then None else Some(state.request))
            && (state.CanConnect() <==> state.Disconnected? || state.Failed?)
  {
  }

  /** What every state shows to the clients, field by field. */
  lemma TunnelShows(state: VpnState)
    ensures ToTunnel(state).phase ==
            (match state
             case Disconnected => PhaseDisconnected
             case Connecting(_) => PhaseConnecting
             case Configuring(_) => PhaseConfiguring
             case Connected(_, _) => PhaseConnected
             case Reconnecting(_, _) => PhaseReconnecting
             case Failed(_, _, _) => PhaseFailed
             case Disconnecting(_) => PhaseDisconnecting)
    ensures state.Disconnected? ==>
              ToTunnel(state) == Tunnel(PhaseDisconnected, ModeUnspecified, TransportUnspecified, 0, "", "", "", 0, "")
    ensures !state.Disconnected? ==>
              && (ToTunnel(state).mode == ModeFull <==> state.request.mode == Full)
              && (ToTunnel(state).mode == ModeSplit <==> state.request.mode == Split)
    ensures !state.Disconnected? ==>
              var running := if state.Connected? then state.info.transport else state.request.transport;
              && (ToTunnel(state).transport == TransportUdp <==> running == Udp)
              && (ToTunnel(state).transport == TransportTcp <==> running == FeilianTcp)
    ensures state.Connected? ==>
              && ToTunnel(state).dotId == state.info.dotId && ToTunnel(state).dotName == state.info.dotName
              && ToTunnel(state).endpoint == state.info.endpoint && ToTunnel(state).assignedIp == state.info.assignedIp
    ensures !state.Connected? ==>
              && ToTunnel(state).dotId == 0 && ToTunnel(state).dotName == ""
              && ToTunnel(state).endpoint == "" && ToTunnel(state).assignedIp == ""
    ensures ToTunnel(state).reconnectAttempts == if state.Reconnecting? || state.Failed? then state.attempts else 0
    ensures ToTunnel(state).error == if state.Failed? then state.error else ""
  {
  }
}
