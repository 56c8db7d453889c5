/** The lock-protected daemon state and its critical sections. `View` and the
    functions on it say what each section does to the state; `DaemonInner`
    performs the sections in place. */
module DaemonCore {
  import opened Wrappers
  import opened VpnStates

  /** Identifies a cancellation token. */
  type TokenId = nat

  /** Identifies a spawned connect loop; a join handle is its id. */
  type TaskId = nat

  datatype Machine = Machine(state: VpnState, token: TokenId)

  datatype Fault = NotAuthenticated | AlreadyActive

  datatype View = View(
    authenticated: bool, hasClient: bool, vpn: Option<Machine>, watch: Tunnel, task: Option<TaskId>,
    activeOutbound: Option<string>, configOutbound: Option<string>)

  /** How a loop may move the machine through `vpn_transition`. */
  datatype Move = ToConfiguring | ToConnected(info: ActiveTunnel) | ToReconnecting

  function Moved(state: VpnState, move: Move): VpnState {
    match move
    case ToConfiguring => state.IntoConfiguring()
    case ToConnected(info) => state.IntoConnected(info)
    case ToReconnecting => state.IntoReconnecting()
  }

  /** What a client asking for the tunnel is told. */
  function Projection(vpn: Option<Machine>): Tunnel {
    if vpn.Some? then ToTunnel(vpn.value.state) else DEFAULT_TUNNEL
  }

  /** Replace the state of an existing machine and broadcast it. */
  function WithState(v: View, state: VpnState): View
    requires v.vpn.Some?
  {
    v.(vpn := Some(v.vpn.value.(state := state)), watch := ToTunnel(state))
  }

  function TransitionSection(v: View, move: Move): View {
    if v.vpn.None? then v else WithState(v, Moved(v.vpn.value.state, move))
  }

  function FailedSection(v: View, error: string): View {
    var cleared := v.(activeOutbound := None);
    if v.vpn.None? then cleared else WithState(cleared, v.vpn.value.state.IntoFailed(error))
  }

  function DisconnectedSection(v: View): View {
    var cleared := v.(activeOutbound := None);
    if v.vpn.None? then cleared else WithState(cleared, Disconnected)
  }

  function StartSessionSection(v: View): View {
    v.(activeOutbound := v.configOutbound)
  }

  /** Why a connect request is turned away, if it is. */
  function Refusal(v: View): Option<Fault> {
    if !v.authenticated then Some(NotAuthenticated)
    else if v.vpn.None? then (if v.hasClient then None else Some(NotAuthenticated))
    else if !v.vpn.value.state.CanConnect() then Some(AlreadyActive)
    else None
  }

  function ConnectSection(v: View, request: VpnRequest, token: TokenId, task: TaskId): View {
    if Refusal(v).Some? then v
    else
      var state := Connecting(request);
      v.(vpn := Some(Machine(state, token)), watch := ToTunnel(state), task := Some(task))
  }

  /** First section of a disconnect; the handle moves to the caller. */
  function DisconnectBeginSection(v: View): View {
    var taken := v.(task := None);
    if v.vpn.None? then taken else WithState(taken, v.vpn.value.state.IntoDisconnecting())
  }

  /** Second section of a disconnect. */
  function DisconnectEndSection(v: View): View {
    if v.vpn.None? then v else WithState(v, Disconnected)
  }

  /** The request a changed outbound interface makes the daemon reconnect. */
  function ReconnectRequest(v: View): Option<VpnRequest> {
    if v.configOutbound == v.activeOutbound || v.vpn.None? then None else v.vpn.value.state.CurrentRequest()
  }

  class DaemonInner {
    var authenticated: bool
    var hasClient: bool
    var vpn: Option<Machine>
    var watch: Tunnel
    var task: Option<TaskId>
    var activeOutbound: Option<string>
    var configOutbound: Option<string>

    ghost function Abs(): View
      reads this
    {
      View(authenticated, hasClient, vpn, watch, task, activeOutbound, configOutbound)
    }

    constructor (authenticated: bool, hasClient: bool, configOutbound: Option<string>)
      ensures Abs() == View(authenticated, hasClient, None, DEFAULT_TUNNEL, None, None, configOutbound)
    {
      this.authenticated, this.hasClient, this.configOutbound := authenticated, hasClient, configOutbound;
      vpn, watch, task, activeOutbound := None, DEFAULT_TUNNEL, None, None;
    }

    /** Assign the machine's state, then send it to the watchers. */
    method Assign(state: VpnState)
      requires vpn.Some?
      modifies this
      ensures Abs() == WithState(old(Abs()), state)
    {
      vpn := Some(vpn.value.(state := state));
      watch := ToTunnel(state);
    }

    method VpnTransition(move: Move)
      modifies this
      ensures Abs() == TransitionSection(old(Abs()), move)
      ensures old(vpn).None? ==> Abs() == old(Abs())
      ensures old(vpn).Some? ==>
                && vpn.Some? && vpn.value.token == old(vpn).value.token && watch == ToTunnel(vpn.value.state)
                && task == old(task) && activeOutbound == old(activeOutbound)
      ensures old(vpn).Some? && move.ToConfiguring? ==>
                vpn.value.state == Configuring(old(vpn).value.state.IntoRequest())
      ensures old(vpn).Some? && move.ToConnected? ==>
                vpn.value.state == Connected(old(vpn).value.state.IntoRequest(), move.info)
      ensures old(vpn).Some? && move.ToReconnecting? ==>
                vpn.value.state ==
                Reconnecting(old(vpn).value.state.IntoRequest(), SaturatingSucc(old(vpn).value.state.Attempts()))
    {
      if vpn.Some? {
        match move {
          case ToConfiguring => Assign(vpn.value.state.IntoConfiguring());
          case ToConnected(info) => Assign(vpn.value.state.IntoConnected(info));
          case ToReconnecting => Assign(vpn.value.state.IntoReconnecting());
        }
      }
    }

    method MarkFailed(error: string)
      modifies this
      ensures Abs() == FailedSection(old(Abs()), error)
      ensures activeOutbound.None? && task == old(task) && vpn.Some? == old(vpn).Some?
      ensures old(vpn).None? ==> watch == old(watch)
      ensures old(vpn).Some? ==>
                && vpn.value.token == old(vpn).value.token && watch == ToTunnel(vpn.value.state)
                && vpn.value.state == Failed(old(vpn).value.state.IntoRequest(), error, old(vpn).value.state.Attempts())
    {
      activeOutbound := None;
      if vpn.Some? {
        Assign(vpn.value.state.IntoFailed(error));
      }
    }

    method MarkDisconnected()
      modifies this
      ensures Abs() == DisconnectedSection(old(Abs()))
      ensures activeOutbound.None? && task == old(task) && vpn.Some? == old(vpn).Some?
      ensures old(vpn).None? ==> watch == old(watch)
      ensures old(vpn).Some? ==>
                && vpn.value == Machine(Disconnected, old(vpn).value.token) && watch == ToTunnel(Disconnected)
    {
      activeOutbound := None;
      if vpn.Some? {
        Assign(Disconnected);
      }
    }

    method StartSession()
      modifies this
      ensures Abs() == StartSessionSection(old(Abs()))
      ensures Abs() == old(Abs()).(activeOutbound := old(configOutbound))
    {
      activeOutbound := configOutbound;
    }

    /** `connect_tunnel`. A machine made for a first connect gets a token of its
        own that `set_connecting` replaces at once. */
    method Connect(request: VpnRequest, madeToken: TokenId, token: TokenId, spawned: TaskId)
      returns (reply: Result<Tunnel, Fault>)
      modifies this
      ensures Abs() == ConnectSection(old(Abs()), request, token, spawned)
      ensures reply == match old(Refusal(Abs()))
                       case Some(fault) => Err(fault)
                       case None => Ok(ToTunnel(Connecting(request)))
      ensures reply.Ok? <==>
              && old(authenticated)
              && (if old(vpn).None? then old(hasClient)
                  else old(vpn).value.state.Disconnected? || old(vpn).value.state.Failed?)
      ensures reply.Err? ==>
                && Abs() == old(Abs())
                && reply.error == if old(authenticated) && old(vpn).Some? then AlreadyActive else NotAuthenticated
      ensures reply.Ok? ==>
                && vpn == Some(Machine(Connecting(request), token)) && task == Some(spawned)
                && watch == ToTunnel(Connecting(request)) == reply.value && activeOutbound == old(activeOutbound)
    {
      if !authenticated {
        return Err(NotAuthenticated);
      }
      if vpn.None? {
        if !hasClient {
          return Err(NotAuthenticated);
        }
        vpn := Some(Machine(Disconnected, madeToken));
      }
      if !vpn.value.state.CanConnect() {
        return Err(AlreadyActive);
      }
      vpn := Some(Machine(vpn.value.state, token));
      Assign(Connecting(request));
      task := Some(spawned);
      reply := Ok(watch);
    }

    method DisconnectBegin() returns (cancelled: Option<TokenId>, taken: Option<TaskId>)
      modifies this
      ensures Abs() == DisconnectBeginSection(old(Abs()))
      ensures taken == old(task)
      ensures cancelled == if old(vpn).Some? then Some(old(vpn).value.token) else None
      ensures task.None? && activeOutbound == old(activeOutbound) && vpn.Some? == old(vpn).Some?
      ensures old(vpn).None? ==> watch == old(watch)
      ensures old(vpn).Some? ==>
                && vpn.value == Machine(Disconnecting(old(vpn).value.state.IntoRequest()), old(vpn).value.token)
                && watch == ToTunnel(vpn.value.state)
    {
      cancelled := None;
      if vpn.Some? {
        Assign(vpn.value.state.IntoDisconnecting());
        cancelled := Some(vpn.value.token);
      }
      taken := task;
      task := None;
    }

    method DisconnectEnd() returns (reply: Tunnel)
      modifies this
      ensures Abs() == DisconnectEndSection(old(Abs()))
      ensures task == old(task) && activeOutbound == old(activeOutbound)
      ensures old(vpn).None? ==> vpn.None? && watch == old(watch) && reply == DEFAULT_TUNNEL
      ensures old(vpn).Some? ==>
                && vpn == Some(Machine(Disconnected, old(vpn).value.token))
                && watch == reply == ToTunnel(Disconnected)
    {
      if vpn.Some? {
        Assign(Disconnected);
      }
      reply := if vpn.Some? then ToTunnel(vpn.value.state) else DEFAULT_TUNNEL;
    }

    /** First section of a reconnect: nothing changes unless one is due. */
    method ReconnectBegin() returns (due: Option<(VpnRequest, TokenId, Option<TaskId>)>)
      modifies this
      ensures ReconnectRequest(old(Abs())).None? ==> due.None? && Abs() == old(Abs())
      ensures ReconnectRequest(old(Abs())).Some? ==>
                && old(vpn).Some?
                && due == Some((ReconnectRequest(old(Abs())).value, old(vpn).value.token, old(task)))
                && Abs() == old(Abs()).(task := None)
      ensures due.Some? <==>
              old(configOutbound) != old(activeOutbound) && old(vpn).Some? && !old(vpn).value.state.Disconnected?
      ensures due.Some? ==> due.value == (old(vpn).value.state.request, old(vpn).value.token, old(task))
    {
      if configOutbound == activeOutbound {
        return None;
      }
      if vpn.None? || vpn.value.state.CurrentRequest().None? {
        return None;
      }
      due := Some((vpn.value.state.CurrentRequest().value, vpn.value.token, task));
      task := None;
    }
  }
}
