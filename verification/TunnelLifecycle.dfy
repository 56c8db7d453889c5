/** Every interleaving of the tunnel RPCs with the connect loops they spawn.
    Each critical section under the daemon lock, each read of a cancel token and
    each end of an awaited call is one atomic step. */
module TunnelLifecycle {
  import opened Wrappers
  import opened VpnStates
  import opened DaemonCore
  import R = Reconnect

  datatype Outcome =
    | Cancelled
    | Kicked(wasHealthy: bool)
    | Trigger(event: R.Event, wasHealthy: bool)

  /** Where a connect loop stands between two of its steps. */
  datatype Pc =
    | Top                                                // about to enter `Configuring`
    | Negotiating                                        // asking the dots for a config
    | Starting                                           // bringing the device up
    | Up                                                 // device up, not announced yet
    | Supervising
    | Stopping(outcome: Outcome)                         // supervision over, device still up
    | Ended(outcome: Outcome)                            // device down, disconnect reported
    | Errored                                            // the attempt returned an error
    | Marked                                             // `Failed` is written, token not read yet
    | Deciding(decision: R.Decision, afterError: bool)
    | Sleeping(cut: bool)                                // backing off; `cut`: begun under a cancelled token
    | Woken                                              // the back-off was cut by the token
    | Done

  datatype Loop = Loop(request: VpnRequest, token: TokenId, pc: Pc, attempts: U32)

  /** An RPC between two of its critical sections. */
  datatype Rpc =
    | DisconnectWaiting(task: Option<TaskId>)
    | ReconnectCancelling(request: VpnRequest, token: TokenId, task: Option<TaskId>)
    | ReconnectWaiting(request: VpnRequest, task: Option<TaskId>)
    | Finished

  datatype System = System(inner: View, loops: seq<Loop>, rpcs: seq<Rpc>, cancelled: set<TokenId>, nextToken: nat)

  datatype Action =
    // RPCs
    | Connect(request: VpnRequest)
    | DisconnectBegin
    | DisconnectEnd(rpc: nat)
    | ReconnectBegin
    | ReconnectCancel(rpc: nat)
    | ReconnectConnect(rpc: nat)
    // connect loops
    | Configure(loop: nat)
    | AttemptError(loop: nat)
    | BeginStart(loop: nat)
    | SessionUp(loop: nat)
    | MarkConnected(loop: nat, info: ActiveTunnel)
    | Supervised(loop: nat, outcome: Outcome)
    | SessionDown(loop: nat)
    | Conclude(loop: nat)
    | MarkFailed(loop: nat, error: string)
    | ReadToken(loop: nat)
    | Decide(loop: nat)
    | Wake(loop: nat, byCancel: bool)
    | Abandon(loop: nat)
    // everything else that touches the locked state
    | SetOutbound(outbound: Option<string>)
    | SetAuth(authenticated: bool, hasClient: bool)

  const MAX_ATTEMPTS_ERROR := "maximum reconnect attempts exceeded"

  function Initial(authenticated: bool, hasClient: bool, outbound: Option<string>): System {
    System(View(authenticated, hasClient, None, DEFAULT_TUNNEL, None, None, outbound), [], [], {}, 0)
  }

  predicate TaskDone(s: System, task: Option<TaskId>) {
    task.Some? ==> task.value < |s.loops| && s.loops[task.value].pc.Done?
  }

  predicate LoopAt(s: System, loop: nat, pc: Pc) {
    loop < |s.loops| && s.loops[loop].pc == pc
  }

  predicate Enabled(s: System, a: Action) {
    match a
    case Connect(_) => true
    case DisconnectBegin => true
    case DisconnectEnd(i) => i < |s.rpcs| && s.rpcs[i].DisconnectWaiting? && TaskDone(s, s.rpcs[i].task)
    case ReconnectBegin => true
    case ReconnectCancel(i) => i < |s.rpcs| && s.rpcs[i].ReconnectCancelling?
    case ReconnectConnect(i) => i < |s.rpcs| && s.rpcs[i].ReconnectWaiting? && TaskDone(s, s.rpcs[i].task)
    case Configure(t) => LoopAt(s, t, Top)
    case AttemptError(t) => LoopAt(s, t, Negotiating) || LoopAt(s, t, Starting)
    case BeginStart(t) => LoopAt(s, t, Negotiating)
    case SessionUp(t) => LoopAt(s, t, Starting)
    case MarkConnected(t, _) => LoopAt(s, t, Up)
    case Supervised(t, outcome) => LoopAt(s, t, Supervising) && (outcome.Cancelled? ==> s.loops[t].token in s.cancelled)
    case SessionDown(t) => t < |s.loops| && s.loops[t].pc.Stopping?
    case Conclude(t) => t < |s.loops| && s.loops[t].pc.Ended?
    case MarkFailed(t, _) => LoopAt(s, t, Errored)
    case ReadToken(t) => LoopAt(s, t, Marked)
    case Decide(t) => t < |s.loops| && s.loops[t].pc.Deciding?
    case Wake(t, byCancel) =>
      // the token wins over a timer that has only just been set
      && t < |s.loops| && s.loops[t].pc.Sleeping?
      && (if byCancel then s.loops[t].token in s.cancelled else !s.loops[t].pc.cut)
    case Abandon(t) => LoopAt(s, t, Woken)
    case SetOutbound(_) => true
    case SetAuth(_, _) => true
  }

  /** Move one loop on; `inner` is the locked state after its section. */
  function Goto(s: System, loop: nat, pc: Pc, inner: View): System
    requires loop < |s.loops|
  {
    s.(inner := inner, loops := s.loops[loop := s.loops[loop].(pc := pc)])
  }

  /** Count the ended attempt and ask the controller what to do. */
  function Recorded(s: System, loop: nat, event: R.Event, wasHealthy: bool, afterError: bool): System
    requires loop < |s.loops|
  {
    var l := s.loops[loop];
    var attempts := SaturatingSucc(if wasHealthy then 0 else l.attempts);
    var decision := R.Verdict(R.ANDROID_POLICY, attempts, event);
    s.(loops := s.loops[loop := l.(pc := Deciding(decision, afterError), attempts := attempts)])
  }

  /** The connect section; on success a loop with a fresh token is spawned. */
  function Admit(s: System, request: VpnRequest): System {
    var inner := ConnectSection(s.inner, request, s.nextToken, |s.loops|);
    if Refusal(s.inner).Some? then s
    else s.(inner := inner, loops := s.loops + [Loop(request, s.nextToken, Top, 0)], nextToken := s.nextToken + 1)
  }

  function Next(s: System, a: Action): System
    requires Enabled(s, a)
  {
    match a
    case Connect(request) => Admit(s, request)
    case DisconnectBegin =>
      s.(inner := DisconnectBeginSection(s.inner),
         rpcs := s.rpcs + [DisconnectWaiting(s.inner.task)],
         cancelled := s.cancelled + if s.inner.vpn.Some? then {s.inner.vpn.value.token} else {})
    case DisconnectEnd(i) =>
      s.(inner := DisconnectEndSection(s.inner), rpcs := s.rpcs[i := Finished])
    case ReconnectBegin =>
      if ReconnectRequest(s.inner).None? then s
      else
        s.(inner := s.inner.(task := None),
           rpcs := s.rpcs
             + [ReconnectCancelling(ReconnectRequest(s.inner).value, s.inner.vpn.value.token, s.inner.task)])
    case ReconnectCancel(i) =>
      var rpc := s.rpcs[i];
      s.(rpcs := s.rpcs[i := ReconnectWaiting(rpc.request, rpc.task)], cancelled := s.cancelled + {rpc.token})
    case ReconnectConnect(i) =>
      var done := s.(rpcs := s.rpcs[i := Finished]);
      Admit(done, s.rpcs[i].request)
    case Configure(t) => Goto(s, t, Negotiating, TransitionSection(s.inner, ToConfiguring))
    case AttemptError(t) => Goto(s, t, Errored, s.inner)
    case BeginStart(t) => Goto(s, t, Starting, StartSessionSection(s.inner))
    case SessionUp(t) => Goto(s, t, Up, s.inner)
    case MarkConnected(t, info) => Goto(s, t, Supervising, TransitionSection(s.inner, ToConnected(info)))
    case Supervised(t, outcome) => Goto(s, t, Stopping(outcome), s.inner)
    case SessionDown(t) => Goto(s, t, Ended(s.loops[t].pc.outcome), s.inner)
    case Conclude(t) =>
      (match s.loops[t].pc.outcome
       case Cancelled => Goto(s, t, Done, DisconnectedSection(s.inner))
       case Kicked(healthy) => Recorded(s, t, R.ServerKickOut, healthy, false)
       case Trigger(event, healthy) => Recorded(s, t, event, healthy, false))
    case MarkFailed(t, error) => Goto(s, t, Marked, FailedSection(s.inner, error))
    case ReadToken(t) =>
      if s.loops[t].token in s.cancelled then Goto(s, t, Done, s.inner)
      else Recorded(s, t, R.TransportFailed, false, true)
    case Decide(t) =>
      if s.loops[t].pc.decision.Stop? then Goto(s, t, Done, FailedSection(s.inner, MAX_ATTEMPTS_ERROR))
      else Goto(s, t, Sleeping(s.loops[t].token in s.cancelled), TransitionSection(s.inner, ToReconnecting))
    case Wake(t, byCancel) => Goto(s, t, if byCancel then Woken else Top, s.inner)
    case Abandon(t) => Goto(s, t, Done, DisconnectedSection(s.inner))
    case SetOutbound(outbound) => s.(inner := s.inner.(configOutbound := outbound))
    case SetAuth(authenticated, hasClient) =>
      s.(inner := s.inner.(authenticated := authenticated, hasClient := hasClient))
  }

  /** A run: every action is enabled when it is taken. */
  ghost predicate IsRun(s: System, run: seq<Action>)
    decreases |run|
  {
    run == [] || (Enabled(s, run[0]) && IsRun(Next(s, run[0]), run[1..]))
  }

  ghost function After(s: System, run: seq<Action>): System
    requires IsRun(s, run)
    decreases |run|
  {
    if run == [] then s else After(Next(s, run[0]), run[1..])
  }

  // ------------------------------------------------------------------
  // The watch channel: no side condition
  // ------------------------------------------------------------------

  ghost predicate WatchCurrent(s: System) {
    s.inner.watch == Projection(s.inner.vpn)
  }

  /** Whatever the RPCs and loops do, the value last sent to the watchers is the
      projection of the machine, whenever the lock is free. */
  lemma {:induction false} WatchAlwaysCurrent(s: System, run: seq<Action>)
    requires WatchCurrent(s) && IsRun(s, run)
    ensures WatchCurrent(After(s, run))
    decreases |run|
  {
    if run != [] {
      WatchAlwaysCurrent(Next(s, run[0]), run[1..]);
    }
  }

  // ------------------------------------------------------------------
  // Ownership: RPCs one at a time, no connect in the failed window
  // ------------------------------------------------------------------

  ghost predicate Live(s: System, loop: nat) {
    loop < |s.loops| && !s.loops[loop].pc.Done?
  }

  ghost predicate HasSession(pc: Pc) {
    pc.Up? || pc.Supervising? || pc.Stopping?
  }

  /** `Failed` is written but the loop goes on to write again. */
  ghost predicate InWindow(pc: Pc) {
    pc.Marked? || (pc.Deciding? && pc.afterError)
  }

  ghost predicate AtMostOneLive(s: System) {
    forall i, j :: Live(s, i) && Live(s, j) ==> i == j
  }

  /** The RPC in flight when clients call one at a time. */
  ghost function Current(s: System): Rpc {
    if s.rpcs == [] then Finished else s.rpcs[|s.rpcs| - 1]
  }

  /** The stored join handle, or the one the RPC in flight has taken. */
  ghost function Handle(s: System): Option<TaskId> {
    if s.inner.task.Some? || Current(s).Finished? then s.inner.task else Current(s).task
  }

  /** The state that a loop at this point has written last, or the `Disconnecting` that
      an RPC has written over it. */
  ghost predicate StateFits(state: VpnState, pc: Pc) {
    state.Disconnecting? || Written(state, pc)
  }

  ghost predicate Written(state: VpnState, pc: Pc) {
    match pc
    case Top => state.Connecting? || (state.Reconnecting? && state.attempts == 1)
    case Negotiating => state.Configuring?
    case Starting => state.Configuring?
    case Up => state.Configuring?
    case Errored => state.Configuring?
    case Supervising => state.Connected?
    case Stopping(_) => state.Connected?
    case Ended(_) => state.Connected?
    case Marked => state.Failed? && state.attempts == 0
    case Deciding(_, afterError) => if afterError then state.Failed? && state.attempts == 0 else state.Connected?
    case Sleeping(_) => state.Reconnecting? && state.attempts == 1
    case Woken => state.Reconnecting? && state.attempts == 1
    case Done => false
  }

  /** Handle, token and request all belong to this loop. */
  ghost predicate Owned(s: System, loop: nat)
    requires loop < |s.loops|
  {
    && Handle(s) == Some(loop)
    && s.inner.vpn.Some?
    && s.inner.vpn.value.token == s.loops[loop].token
    && s.inner.vpn.value.state.CurrentRequest() == Some(s.loops[loop].request)
    && StateFits(s.inner.vpn.value.state, s.loops[loop].pc)
    && (s.loops[loop].token in s.cancelled ==> Current(s).DisconnectWaiting? || Current(s).ReconnectWaiting?)
  }

  ghost predicate RpcsInOrder(s: System) {
    && (forall i :: 0 <= i < |s.rpcs| - 1 ==> s.rpcs[i].Finished?)
    && (!Current(s).Finished? ==> s.inner.task.None?)
    && (Current(s).DisconnectWaiting? && s.inner.vpn.Some? ==> s.inner.vpn.value.token in s.cancelled)
    && (Current(s).ReconnectCancelling? ==> s.inner.vpn.Some? && s.inner.vpn.value.token == Current(s).token)
    && (Current(s).ReconnectWaiting? ==> s.inner.vpn.Some? && s.inner.vpn.value.token in s.cancelled)
  }

  ghost predicate TokensFresh(s: System) {
    && (forall token :: token in s.cancelled ==> token < s.nextToken)
    && (s.inner.vpn.Some? ==> s.inner.vpn.value.token < s.nextToken)
  }

  ghost predicate Ownership(s: System) {
    && RpcsInOrder(s)
    && TokensFresh(s)
    && (s.inner.vpn.Some? ==> s.inner.vpn.value.state.Attempts() <= 1)
    && (forall i :: 0 <= i < |s.loops| && !s.loops[i].pc.Done? ==> Owned(s, i))
  }

  /** An admitted connect would meet a loop that is still retrying. */
  ghost predicate ConnectIntoWindow(s: System) {
    Refusal(s.inner).None? && exists i :: 0 <= i < |s.loops| && InWindow(s.loops[i].pc)
  }

  /** One RPC at a time, and no connect inside the failed window. */
  ghost predicate Disciplined(s: System, a: Action) {
    && (a.Connect? || a.DisconnectBegin? || a.ReconnectBegin? ==> Current(s).Finished?)
    && (a.Connect? ==> !ConnectIntoWindow(s))
  }

  ghost predicate IsDisciplinedRun(s: System, run: seq<Action>)
    decreases |run|
  {
    run == [] || (Enabled(s, run[0]) && Disciplined(s, run[0]) && IsDisciplinedRun(Next(s, run[0]), run[1..]))
  }

  lemma OneLiveLoop(s: System)
    requires Ownership(s)
    ensures AtMostOneLive(s)
  {
    forall i, j | Live(s, i) && Live(s, j) ensures i == j {
      assert Owned(s, i) && Owned(s, j);
    }
  }

  lemma LiveHoldsHandle(s: System, loop: nat)
    requires Ownership(s)
    ensures Live(s, loop) ==> Handle(s) == Some(loop)
  {
    if Live(s, loop) {
      assert Owned(s, loop);
    }
  }

  /** Outside the window a connect is admitted only when no loop is live. */
  lemma AdmittedMeansIdle(s: System)
    requires Ownership(s) && Refusal(s.inner).None?
    requires !ConnectIntoWindow(s)
    ensures forall i :: !Live(s, i)
  {
    forall i ensures !Live(s, i) {
      assert Live(s, i) ==> Owned(s, i);
    }
  }

  lemma ConnectKeepsOwnership(s: System, request: VpnRequest)
    requires Ownership(s) && Current(s).Finished? && !ConnectIntoWindow(s)
    ensures Ownership(Admit(s, request))
  {
    if Refusal(s.inner).None? {
      AdmittedMeansIdle(s);
      var s' := Admit(s, request);
      assert forall i :: 0 <= i < |s.loops| ==> !Live(s, i) ==> s'.loops[i].pc.Done?;
    }
  }

  lemma RpcStepKeepsOwnership(s: System, a: Action)
    requires Ownership(s) && Enabled(s, a) && Disciplined(s, a)
    requires a.DisconnectBegin? || a.DisconnectEnd? || a.ReconnectBegin? || a.ReconnectCancel?
    ensures Ownership(Next(s, a))
  {
    var s' := Next(s, a);
    assert forall i :: Live(s, i) ==> Owned(s, i);
  }

  lemma ReconnectConnectKeepsOwnership(s: System, a: Action)
    requires Ownership(s) && a.ReconnectConnect? && Enabled(s, a)
    ensures Ownership(Next(s, a))
  {
    var s1 := s.(rpcs := s.rpcs[a.rpc := Finished]);
    forall i ensures !Live(s1, i) {
      LiveHoldsHandle(s, i);
    }
    ConnectKeepsOwnership(s1, s.rpcs[a.rpc].request);
  }

  lemma AttemptKeepsOwnership(s: System, a: Action)
    requires Ownership(s) && Enabled(s, a)
    requires a.Configure? || a.AttemptError?
    ensures Ownership(Next(s, a))
  {
    var s' := Next(s, a);
    assert |s'.loops| == |s.loops| && s'.rpcs == s.rpcs;
    OneLiveLoop(s);
    forall i | 0 <= i < |s'.loops| && !s'.loops[i].pc.Done? ensures Owned(s', i) {
      assert Live(s, i);
      assert Owned(s, i);
    }
  }

  lemma BringUpKeepsOwnership(s: System, a: Action)
    requires Ownership(s) && Enabled(s, a)
    requires a.BeginStart? || a.SessionUp? || a.MarkConnected?
    ensures Ownership(Next(s, a))
  {
    var s' := Next(s, a);
    assert |s'.loops| == |s.loops| && s'.rpcs == s.rpcs;
    OneLiveLoop(s);
    forall i | 0 <= i < |s'.loops| && !s'.loops[i].pc.Done? ensures Owned(s', i) {
      assert Live(s, i);
      assert Owned(s, i);
    }
  }

  lemma TakeDownKeepsOwnership(s: System, a: Action)
    requires Ownership(s) && Enabled(s, a)
    requires a.Supervised? || a.SessionDown? || a.Conclude?
    ensures Ownership(Next(s, a))
  {
    var s' := Next(s, a);
    assert |s'.loops| == |s.loops| && s'.rpcs == s.rpcs;
    OneLiveLoop(s);
    forall i | 0 <= i < |s'.loops| && !s'.loops[i].pc.Done? ensures Owned(s', i) {
      assert Live(s, i);
      assert Owned(s, i);
    }
  }

  lemma FailureKeepsOwnership(s: System, a: Action)
    requires Ownership(s) && Enabled(s, a)
    requires a.MarkFailed? || a.ReadToken?
    ensures Ownership(Next(s, a))
  {
    var s' := Next(s, a);
    assert |s'.loops| == |s.loops| && s'.rpcs == s.rpcs;
    OneLiveLoop(s);
    forall i | 0 <= i < |s'.loops| && !s'.loops[i].pc.Done? ensures Owned(s', i) {
      assert Live(s, i);
      assert Owned(s, i);
    }
  }

  lemma DecisionKeepsOwnership(s: System, a: Action)
    requires Ownership(s) && Enabled(s, a) && a.Decide?
    ensures Ownership(Next(s, a))
  {
    var s' := Next(s, a);
    assert |s'.loops| == |s.loops| && s'.rpcs == s.rpcs;
    OneLiveLoop(s);
    forall i | 0 <= i < |s'.loops| && !s'.loops[i].pc.Done? ensures Owned(s', i) {
      assert Live(s, i);
      assert Owned(s, i);
    }
  }

  lemma BackOffKeepsOwnership(s: System, a: Action)
    requires Ownership(s) && Enabled(s, a)
    requires a.Wake? || a.Abandon?
    ensures Ownership(Next(s, a))
  {
    var s' := Next(s, a);
    assert |s'.loops| == |s.loops| && s'.rpcs == s.rpcs;
    OneLiveLoop(s);
    forall i | 0 <= i < |s'.loops| && !s'.loops[i].pc.Done? ensures Owned(s', i) {
      assert Live(s, i);
      assert Owned(s, i);
    }
  }

  lemma SettingKeepsOwnership(s: System, a: Action)
    requires Ownership(s) && Enabled(s, a) && (a.SetOutbound? || a.SetAuth?)
    ensures Ownership(Next(s, a))
  {
    assert forall i :: Live(s, i) ==> Owned(s, i);
  }

  lemma StepKeepsOwnership(s: System, a: Action)
    requires Ownership(s) && Enabled(s, a) && Disciplined(s, a)
    ensures Ownership(Next(s, a))
  {
    if a.Connect? {
      ConnectKeepsOwnership(s, a.request);
    } else if a.ReconnectConnect? {
      ReconnectConnectKeepsOwnership(s, a);
    } else if a.DisconnectBegin? || a.DisconnectEnd? || a.ReconnectBegin? || a.ReconnectCancel? {
      RpcStepKeepsOwnership(s, a);
    } else if a.SetOutbound? || a.SetAuth? {
      SettingKeepsOwnership(s, a);
    } else if a.Supervised? || a.SessionDown? || a.Conclude? {
      TakeDownKeepsOwnership(s, a);
    } else if a.Configure? || a.AttemptError? {
      AttemptKeepsOwnership(s, a);
    } else if a.BeginStart? || a.SessionUp? || a.MarkConnected? {
      BringUpKeepsOwnership(s, a);
    } else if a.MarkFailed? || a.ReadToken? {
      FailureKeepsOwnership(s, a);
    } else if a.Decide? {
      DecisionKeepsOwnership(s, a);
    } else {
      BackOffKeepsOwnership(s, a);
    }
  }

  /** In every disciplined run there is at most one live loop, and the handle,
      the token and the request in the machine are that loop's. */
  lemma {:induction false} OneLoopPerRun(s: System, run: seq<Action>)
    requires Ownership(s) && IsDisciplinedRun(s, run)
    ensures IsRun(s, run) && Ownership(After(s, run)) && AtMostOneLive(After(s, run))
    decreases |run|
  {
    if run == [] {
      OneLiveLoop(s);
    } else {
      StepKeepsOwnership(s, run[0]);
      OneLoopPerRun(Next(s, run[0]), run[1..]);
    }
  }

  lemma InitiallyOwned(authenticated: bool, hasClient: bool, outbound: Option<string>)
    ensures Ownership(Initial(authenticated, hasClient, outbound))
    ensures WatchCurrent(Initial(authenticated, hasClient, outbound))
  {
  }

  /** A live session is shown: in an owned state, a loop that supervises its session or
      takes it down has a machine that is `Connected` with the loop's request, unless
      an RPC is disconnecting it. */
  lemma LiveSessionIsConnected(s: System, loop: nat)
    requires Ownership(s) && Live(s, loop)
    requires s.loops[loop].pc.Supervising? || s.loops[loop].pc.Stopping?
    ensures s.inner.vpn.Some?
    ensures s.inner.vpn.value.state.Connected? || s.inner.vpn.value.state.Disconnecting?
    ensures s.inner.vpn.value.state.CurrentRequest() == Some(s.loops[loop].request)
  {
    assert Owned(s, loop);
  }

  /** Once a session is up and announced, clients see it with its dot, endpoint and
      address, and the machine keeps the request of the loop. */
  lemma AnnouncedSessionIsShown(s: System, loop: nat, info: ActiveTunnel)
    requires Ownership(s) && Enabled(s, MarkConnected(loop, info))
    ensures var inner := Next(s, MarkConnected(loop, info)).inner;
            && inner.vpn.Some? && inner.vpn.value.state == Connected(s.loops[loop].request, info)
            && inner.watch.phase == PhaseConnected
            && inner.watch.dotId == info.dotId && inner.watch.dotName == info.dotName
            && inner.watch.endpoint == info.endpoint && inner.watch.assignedIp == info.assignedIp
  {
    assert Live(s, loop);
    assert Owned(s, loop);
    TransitionShapes(s.inner.vpn.value.state, info, "");
  }

  /** In every disciplined run from the start: wherever a loop has its session under
      supervision or is taking it down, the machine is `Connected` or `Disconnecting`. */
  lemma LiveSessionsAreConnected(
      authenticated: bool, hasClient: bool, outbound: Option<string>, run: seq<Action>, loop: nat)
    requires IsDisciplinedRun(Initial(authenticated, hasClient, outbound), run)
    ensures var s := Initial(authenticated, hasClient, outbound);
            && IsRun(s, run)
            && var end := After(s, run);
            loop < |end.loops| && (end.loops[loop].pc.Supervising? || end.loops[loop].pc.Stopping?) ==>
              && end.inner.vpn.Some?
              && (end.inner.vpn.value.state.Connected? || end.inner.vpn.value.state.Disconnecting?)
              && end.inner.vpn.value.state.CurrentRequest() == Some(end.loops[loop].request)
  {
    var s := Initial(authenticated, hasClient, outbound);
    InitiallyOwned(authenticated, hasClient, outbound);
    OneLoopPerRun(s, run);
    var end := After(s, run);
    if loop < |end.loops| && (end.loops[loop].pc.Supervising? || end.loops[loop].pc.Stopping?) {
      LiveSessionIsConnected(end, loop);
    }
  }

  /** What the machine is after an attempt has begun, and after it has failed. */
  lemma AttemptWrites(s: System, loop: nat, error: string)
    requires Ownership(s) && Live(s, loop)
    ensures Enabled(s, Configure(loop)) ==>
              StateAfter(s, Configure(loop)) == Some(Configuring(s.loops[loop].request))
    ensures Enabled(s, MarkFailed(loop, error)) ==>
              StateAfter(s, MarkFailed(loop, error)) == Some(Failed(s.loops[loop].request, error, 0))
  {
    assert Owned(s, loop);
  }

  /** After a decision it is `Reconnecting`, or `Failed` with the reason why the loop
      gives up. */
  lemma DecisionWrites(s: System, loop: nat)
    requires Ownership(s) && Live(s, loop) && Enabled(s, Decide(loop))
    ensures StateAfter(s, Decide(loop)) ==
            Some(if s.loops[loop].pc.decision.Stop?
                 then Failed(s.loops[loop].request, "maximum reconnect attempts exceeded", 0)
                 else Reconnecting(s.loops[loop].request, 1))
  {
    assert Owned(s, loop);
  }

  /** And after a loop ends because its token is cancelled, `Disconnected`. */
  lemma EndWrites(s: System, loop: nat)
    requires Ownership(s) && Live(s, loop)
    ensures Enabled(s, Abandon(loop)) ==> StateAfter(s, Abandon(loop)) == Some(Disconnected)
    ensures Enabled(s, Conclude(loop)) && s.loops[loop].pc.outcome.Cancelled? ==>
              StateAfter(s, Conclude(loop)) == Some(Disconnected)
  {
    assert Owned(s, loop);
  }

  /** What a supervised session comes to is what is counted: the outcome is kept while the
      session is taken down, and each ended attempt is decided by its own event. */
  lemma OutcomeIsKept(s: System, loop: nat, outcome: Outcome)
    ensures Enabled(s, Supervised(loop, outcome)) ==>
              Next(s, Supervised(loop, outcome)).loops[loop].pc == Stopping(outcome)
    ensures Enabled(s, SessionDown(loop)) ==>
              Next(s, SessionDown(loop)).loops[loop].pc == Ended(s.loops[loop].pc.outcome)
  {
  }

  lemma EventDecides(s: System, loop: nat)
    ensures Enabled(s, Conclude(loop)) && !s.loops[loop].pc.outcome.Cancelled? ==>
              var l := Next(s, Conclude(loop)).loops[loop];
              var outcome := s.loops[loop].pc.outcome;
              var event := if outcome.Kicked? then R.ServerKickOut else outcome.event;
              l.pc == Deciding(R.Verdict(R.ANDROID_POLICY, l.attempts, event), false)
    ensures Enabled(s, ReadToken(loop)) && s.loops[loop].token !in s.cancelled ==>
              var l := Next(s, ReadToken(loop)).loops[loop];
              l.pc == Deciding(R.Verdict(R.ANDROID_POLICY, l.attempts, R.TransportFailed), true)
  {
  }

  /** The active interface is the configured one from the start of a session on, and none
      once the attempt has failed or the loop has ended. */
  lemma OutboundFollowsAttempt(s: System, loop: nat, error: string)
    ensures Enabled(s, BeginStart(loop)) ==>
              Next(s, BeginStart(loop)).inner.activeOutbound == s.inner.configOutbound
    ensures Enabled(s, MarkFailed(loop, error)) ==> Next(s, MarkFailed(loop, error)).inner.activeOutbound.None?
  {
  }

  lemma OutboundEndsWithLoop(s: System, a: Action)
    requires Enabled(s, a) && (a.Abandon? || a.Conclude? || a.Decide?)
    requires a.loop < |s.loops| && Next(s, a).loops[a.loop].pc.Done?
    ensures Next(s, a).inner.activeOutbound.None?
  {
  }

  /** Clients and settings never have to wait for a loop. A changed interface makes the
      daemon reconnect exactly when it is not the active one and a tunnel is wanted;
      logging in or out decides whether a connect is admitted. */
  lemma ChangeThenReconnect(s: System, outbound: Option<string>)
    ensures Enabled(s, SetOutbound(outbound)) && Enabled(Next(s, SetOutbound(outbound)), ReconnectBegin)
    ensures var changed := Next(s, SetOutbound(outbound));
            |Next(changed, ReconnectBegin).rpcs| > |s.rpcs| <==>
            outbound != s.inner.activeOutbound && s.inner.vpn.Some? && !s.inner.vpn.value.state.Disconnected?
  {
  }

  lemma LoginThenConnect(s: System, authenticated: bool, hasClient: bool, request: VpnRequest)
    ensures Enabled(s, DisconnectBegin) && Enabled(s, SetAuth(authenticated, hasClient))
    ensures var after := Next(s, SetAuth(authenticated, hasClient));
            |Next(after, Connect(request)).loops| == |s.loops| + 1 <==>
            && authenticated
            && (s.inner.vpn.None? ==> hasClient)
            && (s.inner.vpn.Some? ==> s.inner.vpn.value.state.Disconnected? || s.inner.vpn.value.state.Failed?)
  {
  }

  /** After its back-off a loop tries again, with its count, unless the token cuts it. */
  lemma BackOffThenRetry(s: System, loop: nat)
    requires LoopAt(s, loop, Sleeping(false))
    ensures Enabled(s, Wake(loop, false)) && Enabled(Next(s, Wake(loop, false)), Configure(loop))
    ensures var after := Next(s, Wake(loop, false));
            after.loops[loop] == s.loops[loop].(pc := Top) && after.inner == s.inner
    ensures Enabled(s, Wake(loop, true)) <==> s.loops[loop].token in s.cancelled
  {
  }

  ghost function StateAfter(s: System, a: Action): Option<VpnState>
    requires Enabled(s, a)
  {
    var vpn := Next(s, a).inner.vpn;
    if vpn.Some? then Some(vpn.value.state) else None
  }

  /** A completed disconnect leaves no live loop, hence no session, and a machine
      that is `Disconnected`; the client is told exactly that. */
  lemma DisconnectLeavesNothing(s: System, a: Action)
    requires Ownership(s) && a.DisconnectEnd? && Enabled(s, a)
    ensures var s' := Next(s, a);
            && (forall i :: !Live(s', i))
            && (forall l :: l in s'.loops ==> !HasSession(l.pc))
            && (s'.inner.vpn.Some? ==> s'.inner.vpn.value.state.Disconnected?)
            && s'.inner.task.None?
            && Current(s').Finished?
            && Projection(s'.inner.vpn).phase == if s.inner.vpn.Some? then PhaseDisconnected else Unspecified
  {
    var s' := Next(s, a);
    forall i ensures !Live(s', i) {
      LiveHoldsHandle(s, i);
    }
    forall l | l in s'.loops ensures !HasSession(l.pc) {
      var i :| 0 <= i < |s'.loops| && s'.loops[i] == l;
      assert !Live(s', i);
    }
  }

  /** The discipline on connects is exact: with RPCs one at a time, a connect
      breaks "at most one live loop" if and only if it is admitted while a loop
      stands in its failed window. */
  lemma ConnectIsSafeIff(s: System, request: VpnRequest)
    requires Ownership(s) && Current(s).Finished?
    ensures AtMostOneLive(Next(s, Connect(request))) <==> !ConnectIntoWindow(s)
  {
    var s' := Admit(s, request);
    if ConnectIntoWindow(s) {
      var i :| 0 <= i < |s.loops| && InWindow(s.loops[i].pc);
      assert Live(s', i) && Live(s', |s.loops|);
    } else {
      ConnectKeepsOwnership(s, request);
      OneLiveLoop(s');
    }
  }

  lemma RunFromStep(s: System, a: Action, rest: seq<Action>)
    requires Enabled(s, a) && IsRun(Next(s, a), rest)
    ensures IsRun(s, [a] + rest) && After(s, [a] + rest) == After(Next(s, a), rest)
  {
    assert ([a] + rest)[1..] == rest;
  }

  /** One failed attempt puts a loop at its start into the window, with the
      machine at `Failed`. */
  lemma AttemptEntersWindow(s: System, loop: nat) returns (run: seq<Action>)
    requires LoopAt(s, loop, Top) && s.inner.vpn.Some?
    ensures IsRun(s, run)
    ensures var s' := After(s, run);
            && LoopAt(s', loop, Marked) && |s'.loops| == |s.loops|
            && s'.inner.vpn.Some? && s'.inner.vpn.value.state.Failed?
            && s'.inner.authenticated == s.inner.authenticated && s'.rpcs == s.rpcs
  {
    var s1 := Next(s, Configure(loop));
    var s2 := Next(s1, AttemptError(loop));
    var s3 := Next(s2, MarkFailed(loop, "down"));
    assert IsRun(s3, []) && After(s3, []) == s3;
    RunFromStep(s2, MarkFailed(loop, "down"), []);
    RunFromStep(s1, AttemptError(loop), [MarkFailed(loop, "down")] + []);
    RunFromStep(s, Configure(loop), [AttemptError(loop)] + ([MarkFailed(loop, "down")] + []));
    run := [Configure(loop)] + ([AttemptError(loop)] + ([MarkFailed(loop, "down")] + []));
  }

  /** The discipline is needed: from the initial state, with no two RPCs ever
      overlapping, a connect after one failed attempt leaves two live loops. */
  lemma WindowIsReachable(first: VpnRequest, second: VpnRequest) returns (run: seq<Action>)
    ensures var s := Initial(true, true, None);
            IsRun(s, run) && var s' := Next(After(s, run), Connect(second));
            After(s, run).rpcs == [] && Live(s', 0) && Live(s', 1)
  {
    var s := Initial(true, true, None);
    var s1 := Next(s, Connect(first));
    var rest := AttemptEntersWindow(s1, 0);
    RunFromStep(s, Connect(first), rest);
    run := [Connect(first)] + rest;
  }

  /** The attempt count clients are shown never passes 1, because every new
      attempt enters `Configuring`, which carries no count. */
  lemma ShownAttemptsStayLow(authenticated: bool, hasClient: bool, outbound: Option<string>, run: seq<Action>)
    requires IsDisciplinedRun(Initial(authenticated, hasClient, outbound), run)
    ensures var s := Initial(authenticated, hasClient, outbound);
            IsRun(s, run) && After(s, run).inner.watch.reconnectAttempts <= 1
  {
    var s := Initial(authenticated, hasClient, outbound);
    InitiallyOwned(authenticated, hasClient, outbound);
    OneLoopPerRun(s, run);
    WatchAlwaysCurrent(s, run);
  }

  // ------------------------------------------------------------------
  // A cancelled loop can always reach its end
  // ------------------------------------------------------------------

  /** Steps a cancelled loop still needs, at most. */
  function Distance(pc: Pc): nat {
    match pc
    case Done => 0
    case Woken => 1
    case Sleeping(_) => 2
    case Deciding(_, _) => 3
    case Marked => 1
    case Errored => 2
    case Ended(outcome) => if outcome.Cancelled? then 1 else 4
    case Stopping(outcome) => if outcome.Cancelled? then 2 else 5
    case Supervising => 3
    case Up => 4
    case Starting => 3
    case Negotiating => 3
    case Top => 4
  }

  /** The step that takes a cancelled loop towards its end. */
  function Towards(loop: nat, pc: Pc): Action
    requires !pc.Done?
  {
    match pc
    case Woken => Abandon(loop)
    case Sleeping(_) => Wake(loop, true)
    case Deciding(_, _) => Decide(loop)
    case Marked => ReadToken(loop)
    case Errored => MarkFailed(loop, "")
    case Ended(_) => Conclude(loop)
    case Stopping(_) => SessionDown(loop)
    case Supervising => Supervised(loop, Cancelled)
    case Up => MarkConnected(loop, ActiveTunnel(0, "", "", "", Udp))
    case Starting => AttemptError(loop)
    case Negotiating => AttemptError(loop)
    case Top => Configure(loop)
  }

  /** From every state of every interleaving, a loop whose token is cancelled can
      finish within five steps of its own: it never waits for anyone else. */
  lemma {:induction false} CancelledLoopCanFinish(s: System, loop: nat) returns (run: seq<Action>)
    requires loop < |s.loops| && s.loops[loop].token in s.cancelled
    ensures IsRun(s, run) && |run| <= Distance(s.loops[loop].pc) <= 5
    ensures TaskDone(After(s, run), Some(loop))
    ensures After(s, run).rpcs == s.rpcs
    decreases Distance(s.loops[loop].pc)
  {
    if s.loops[loop].pc.Done? {
      run := [];
    } else {
      var a := Towards(loop, s.loops[loop].pc);
      var rest := CancelledLoopCanFinish(Next(s, a), loop);
      run := [a] + rest;
      assert run[1..] == rest;
    }
  }

  // ------------------------------------------------------------------
  // A cancelled loop does reach its end
  // ------------------------------------------------------------------

  /** The loop whose own step this is. */
  function Stepper(a: Action): Option<nat> {
    match a
    case Configure(t) => Some(t)
    case AttemptError(t) => Some(t)
    case BeginStart(t) => Some(t)
    case SessionUp(t) => Some(t)
    case MarkConnected(t, _) => Some(t)
    case Supervised(t, _) => Some(t)
    case SessionDown(t) => Some(t)
    case Conclude(t) => Some(t)
    case MarkFailed(t, _) => Some(t)
    case ReadToken(t) => Some(t)
    case Decide(t) => Some(t)
    case Wake(t, _) => Some(t)
    case Abandon(t) => Some(t)
    case _ => None
  }

  /** The most steps of its own that a loop with a cancelled token has left, whatever
      its session, its attempts and its timers do. Only a back-off that began before
      the cancellation can still lose the race against its timer, once. */
  function Rank(pc: Pc): nat {
    match pc
    case Done => 0
    case Woken => 1
    case Marked => 1
    case Errored => 2
    case Deciding(_, _) => 3
    case Ended(_) => 4
    case Stopping(_) => 5
    case Supervising => 6
    case Up => 7
    case Starting => 8
    case Negotiating => 9
    case Top => 10
    case Sleeping(cut) => if cut then 2 else 11
  }

  ghost predicate CancelledLoop(s: System, loop: nat) {
    loop < |s.loops| && s.loops[loop].token in s.cancelled
  }

  lemma OwnStepLowersRank(s: System, loop: nat, a: Action)
    requires CancelledLoop(s, loop) && Enabled(s, a) && Stepper(a) == Some(loop)
    ensures CancelledLoop(Next(s, a), loop)
    ensures Rank(Next(s, a).loops[loop].pc) < Rank(s.loops[loop].pc)
  {
  }

  lemma OtherStepKeepsLoop(s: System, loop: nat, a: Action)
    requires CancelledLoop(s, loop) && Enabled(s, a) && Stepper(a) != Some(loop)
    ensures CancelledLoop(Next(s, a), loop)
    ensures Next(s, a).loops[loop].pc == s.loops[loop].pc
  {
  }

  function OwnSteps(run: seq<Action>, loop: nat): nat {
    if run == [] then 0 else (if Stepper(run[0]) == Some(loop) then 1 else 0) + OwnSteps(run[1..], loop)
  }

  /** In every interleaving, a loop takes at most `Rank` own steps after its token is
      cancelled, eleven at the very most, and when it has taken that many it is done.
      With `CancelledLoopCanFinish`, it always ends if its awaited calls do. */
  lemma {:induction false} CancelledLoopEnds(s: System, loop: nat, run: seq<Action>)
    requires CancelledLoop(s, loop) && IsRun(s, run)
    ensures CancelledLoop(After(s, run), loop)
    ensures OwnSteps(run, loop) + Rank(After(s, run).loops[loop].pc) <= Rank(s.loops[loop].pc) <= 11
    ensures OwnSteps(run, loop) == Rank(s.loops[loop].pc) ==> TaskDone(After(s, run), Some(loop))
    decreases |run|
  {
    if run != [] {
      if Stepper(run[0]) == Some(loop) {
        OwnStepLowersRank(s, loop, run[0]);
      } else {
        OtherStepKeepsLoop(s, loop, run[0]);
      }
      CancelledLoopEnds(Next(s, run[0]), loop, run[1..]);
    }
  }

  /** The loop that a disconnect waits for has its token cancelled, so in every run
      that follows it has at most eleven steps left. */
  lemma WaitedLoopEnds(s: System, loop: nat, run: seq<Action>)
    requires Ownership(s) && Current(s).DisconnectWaiting? && Live(s, loop) && IsRun(s, run)
    ensures Current(s).task == Some(loop) && CancelledLoop(s, loop)
    ensures OwnSteps(run, loop) <= Rank(s.loops[loop].pc) <= 11
    ensures OwnSteps(run, loop) == Rank(s.loops[loop].pc) ==> TaskDone(After(s, run), Current(s).task)
  {
    LiveHoldsHandle(s, loop);
    assert Owned(s, loop);
    CancelledLoopEnds(s, loop, run);
  }
}
