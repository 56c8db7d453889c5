/** One connect loop on its own: the attempts it makes, the sessions it brings
    up and down, and the state it leaves behind. */
module ConnectLoop {
  import opened Wrappers
  import opened VpnStates
  import opened DaemonCore
  import opened TunnelLifecycle
  import R = Reconnect
  import S = Supervisor

  /** What the environment does to one attempt. */
  datatype Attempt =
    | Fails(error: string, starting: bool, cancelled: bool)
    | Runs(info: ActiveTunnel, ticks: seq<S.Tick>, pinned: bool, network: nat)

  datatype Event =
    | AttemptBegins
    | SessionStarts
    | Announced
    | ReportConnected
    | SessionStopped
    | ReportDisconnected

  /** Each attempt ends: a session meets an event that decides its fate. */
  ghost predicate Ends(attempt: Attempt) {
    attempt.Runs? ==>
      exists k :: 0 <= k < |attempt.ticks| && S.Decisive(attempt.ticks[k], attempt.pinned, attempt.network)
  }

  /** A session whose token is cancelled or whose device stops ends. */
  lemma StoppedSessionEnds(attempt: Attempt, tick: S.Tick)
    requires attempt.Runs? ==> tick in attempt.ticks
    requires tick.CancelFires? || tick.DeviceStops?
    ensures Ends(attempt)
  {
    if attempt.Runs? {
      var k :| 0 <= k < |attempt.ticks| && attempt.ticks[k] == tick;
      assert S.Decisive(attempt.ticks[k], attempt.pinned, attempt.network);
    }
  }

  /** How a session that ends does end. */
  ghost function OutcomeOf(attempt: Attempt): Outcome
    requires attempt.Runs? && Ends(attempt)
  {
    FirstEnd(attempt);
    var at: nat :| S.EndsAt(attempt.ticks, attempt.pinned, attempt.network, at);
    S.Verdict(attempt.ticks[at], attempt.pinned, attempt.network).value
  }

  lemma FirstEnd(attempt: Attempt)
    requires attempt.Runs? && Ends(attempt)
    ensures exists at: nat :: S.EndsAt(attempt.ticks, attempt.pinned, attempt.network, at)
  {
    var at: nat := 0;
    while !S.Decisive(attempt.ticks[at], attempt.pinned, attempt.network)
      invariant at < |attempt.ticks|
      invariant forall k :: 0 <= k < at ==> !S.Decisive(attempt.ticks[k], attempt.pinned, attempt.network)
      decreases |attempt.ticks| - at
    {
      at := at + 1;
    }
    assert S.EndsAt(attempt.ticks, attempt.pinned, attempt.network, at);
  }

  /** The session got at least one probe reply before it was given up. */
  ghost predicate WasHealthy(attempt: Attempt)
    requires Ends(attempt)
  {
    attempt.Runs? && !OutcomeOf(attempt).Cancelled? && OutcomeOf(attempt).wasHealthy
  }

  // ------------------------------------------------------------------
  // The shape of a loop's log
  // ------------------------------------------------------------------

  datatype Stage = Idle | Attempting | Raised | Told | Reporting | Lowered

  /** One event read by an observer who allows no overlapping sessions. */
  function Observe(stage: Stage, event: Event): Option<Stage> {
    match (stage, event)
    case (Idle, AttemptBegins) => Some(Attempting)
    case (Attempting, AttemptBegins) => Some(Attempting)
    case (Attempting, SessionStarts) => Some(Raised)
    case (Raised, Announced) => Some(Told)
    case (Told, ReportConnected) => Some(Reporting)
    case (Reporting, ReportConnected) => Some(Reporting)
    case (Reporting, SessionStopped) => Some(Lowered)
    case (Lowered, ReportDisconnected) => Some(Idle)
    case (_, _) => None
  }

  function Scan(log: seq<Event>): Option<Stage> {
    if log == [] then Some(Idle)
    else
      var before := Scan(log[..|log| - 1]);
      if before.None? then None else Observe(before.value, log[|log| - 1])
  }

  lemma ScanAppend(log: seq<Event>, event: Event)
    requires Scan(log).Some?
    ensures Scan(log + [event]) == Observe(Scan(log).value, event)
  {
    assert (log + [event])[..|log|] == log;
  }

  lemma {:induction false} PrefixScans(log: seq<Event>, n: nat)
    requires n <= |log| && Scan(log).Some?
    ensures Scan(log[..n]).Some?
    ensures n < |log| ==> Scan(log[..n + 1]).Some? && Scan(log[..n + 1]) == Observe(Scan(log[..n]).value, log[n])
  {
    if n == |log| {
      assert log[..n] == log;
    } else {
      var shorter := log[..|log| - 1];
      PrefixScans(shorter, n);
      assert shorter[..n] == log[..n];
      if n == |log| - 1 {
        assert log[..n + 1] == log;
      } else {
        assert shorter[..n + 1] == log[..n + 1];
      }
    }
  }

  /** A session brought up at `up` and taken down at `down`. */
  ghost predicate Bracketed(log: seq<Event>, up: nat, down: nat) {
    && up + 3 <= down && down + 1 < |log|
    && log[up] == SessionStarts && log[up + 1] == Announced
    && (forall k :: up + 2 <= k < down ==> log[k] == ReportConnected)
    && log[down] == SessionStopped && log[down + 1] == ReportDisconnected
  }

  lemma {:induction false} ReportsUntilStop(log: seq<Event>, at: nat) returns (down: nat)
    requires at <= |log| && Scan(log[..at]) == Some(Reporting)
    requires Scan(log) == Some(Idle) || Scan(log) == Some(Attempting)
    ensures at <= down && down + 1 < |log|
    ensures forall k :: at <= k < down ==> log[k] == ReportConnected
    ensures log[down] == SessionStopped && log[down + 1] == ReportDisconnected
    decreases |log| - at
  {
    assert log[..|log|] == log;
    PrefixScans(log, at);
    if log[at] == SessionStopped {
      down := at;
      PrefixScans(log, at + 1);
    } else {
      down := ReportsUntilStop(log, at + 1);
    }
  }

  /** In a log the observer accepts to its end, each session is announced once,
      reports at least once, stops once and says so once, with nothing between:
      sessions never overlap and none is left up. */
  lemma EverySessionIsBracketed(log: seq<Event>, up: nat) returns (down: nat)
    requires Scan(log) == Some(Idle) || Scan(log) == Some(Attempting)
    requires up < |log| && log[up] == SessionStarts
    ensures Bracketed(log, up, down) && log[up + 2] == ReportConnected
  {
    assert log[..|log|] == log;
    PrefixScans(log, up);
    PrefixScans(log, up + 1);
    PrefixScans(log, up + 2);
    down := ReportsUntilStop(log, up + 3);
  }

  // ------------------------------------------------------------------
  // The controller's count
  // ------------------------------------------------------------------

  /** Attempts ended since, and including, the last healthy session. */
  ghost function SinceHealthy(env: nat -> Attempt, n: nat): nat
    requires forall k: nat :: Ends(env(k))
  {
    if n == 0 then 0
    else if WasHealthy(env(n - 1)) then 1
    else SinceHealthy(env, n - 1) + 1
  }

  lemma {:induction false} SinceHealthyCounts(env: nat -> Attempt, from: nat, n: nat)
    requires forall k: nat :: Ends(env(k))
    requires from <= n && forall k: nat :: from <= k < n && from != k ==> !WasHealthy(env(k))
    requires from < n && (from == 0 || WasHealthy(env(from)))
    ensures SinceHealthy(env, n) == n - from
    decreases n
  {
    if n - 1 > from {
      SinceHealthyCounts(env, from, n - 1);
    } else if from == 0 {
      assert SinceHealthy(env, 0) == 0;
    }
  }

  /** Does the loop make another attempt after attempt `k`? */
  ghost predicate GoesOn(env: nat -> Attempt, cut: nat -> bool, k: nat)
    requires forall i: nat :: Ends(env(i))
  {
    && (match env(k)
        case Fails(_, _, cancelled) => !cancelled
        case Runs(_, _, _, _) => !OutcomeOf(env(k)).Cancelled?)
    && SinceHealthy(env, k + 1) <= R.ANDROID_POLICY.maxAttempts
    && !cut(k)
  }

  /** The number of attempts a loop makes. */
  ghost predicate Makes(env: nat -> Attempt, cut: nat -> bool, n: nat)
    requires forall i: nat :: Ends(env(i))
  {
    n > 0 && !GoesOn(env, cut, n - 1) && forall k: nat :: k < n - 1 ==> GoesOn(env, cut, k)
  }

  /** Between healthy sessions a loop makes at most one attempt more than the
      policy allows: any stretch of unhealthy attempts is that short. */
  lemma {:induction false} UnhealthyStretchIsShort(env: nat -> Attempt, cut: nat -> bool, n: nat, lo: nat, hi: nat)
    requires forall k: nat :: Ends(env(k))
    requires Makes(env, cut, n) && lo <= hi <= n
    requires forall k: nat :: lo <= k < hi ==> !WasHealthy(env(k))
    ensures hi - lo <= SinceHealthy(env, hi)
    ensures hi - lo <= R.ANDROID_POLICY.maxAttempts + 1
    decreases hi
  {
    if lo < hi {
      UnhealthyStretchIsShort(env, cut, n, lo, hi - 1);
      assert SinceHealthy(env, hi) == SinceHealthy(env, hi - 1) + 1;
      if hi >= 2 {
        assert GoesOn(env, cut, hi - 2);
      }
    }
  }

  // ------------------------------------------------------------------
  // The loop
  // ------------------------------------------------------------------

  /** What a loop that has ended leaves: no active outbound, and `Failed` or
      `Disconnected` in the machine, whichever its end calls for. */
  ghost predicate Settled(v: View, failed: bool) {
    && v.activeOutbound.None?
    && (v.vpn.Some? ==> if failed then v.vpn.value.state.Failed? else v.vpn.value.state.Disconnected?)
  }

  /** Does attempt `k`, the last one, end the loop in failure? It does when the
      attempts are used up, or when an attempt errs under a cancelled token. */
  ghost predicate EndsFailed(env: nat -> Attempt, k: nat)
    requires forall i: nat :: Ends(env(i))
  {
    match env(k)
    case Fails(_, _, cancelled) => cancelled || SinceHealthy(env, k + 1) > R.ANDROID_POLICY.maxAttempts
    case Runs(_, _, _, _) =>
      !OutcomeOf(env(k)).Cancelled? && SinceHealthy(env, k + 1) > R.ANDROID_POLICY.maxAttempts
  }

  method Supervise(attempt: Attempt) returns (outcome: Outcome, reports: nat)
    requires attempt.Runs? && Ends(attempt)
    ensures outcome == OutcomeOf(attempt)
  {
    FirstEnd(attempt);
    var at;
    outcome, at, reports := S.Run(attempt.ticks, attempt.pinned, attempt.network);
    assert forall i: nat :: S.EndsAt(attempt.ticks, attempt.pinned, attempt.network, i) ==> i == at;
  }

  /** What one attempt adds to the log; `reports` is `None` if no session came up. */
  function AttemptLog(reports: Option<nat>): seq<Event> {
    match reports
    case None => [AttemptBegins]
    case Some(n) => Opening() + Keepalives(n) + Closing()
  }

  /** What follows the begin of an attempt whose session comes up. */
  function SessionLog(reports: nat): seq<Event> {
    [SessionStarts, Announced, ReportConnected] + Keepalives(reports) + Closing()
  }

  function Opening(): seq<Event> {
    [AttemptBegins, SessionStarts, Announced, ReportConnected]
  }

  function Keepalives(n: nat): seq<Event> {
    if n == 0 then [] else Keepalives(n - 1) + [ReportConnected]
  }

  function Closing(): seq<Event> {
    [SessionStopped, ReportDisconnected]
  }

  lemma OpeningScans(log: seq<Event>)
    requires Scan(log) == Some(Idle) || Scan(log) == Some(Attempting)
    ensures Scan(log + [AttemptBegins]) == Some(Attempting)
    ensures Scan(log + Opening()) == Some(Reporting)
  {
    var l1 := log + [AttemptBegins];
    var l2 := l1 + [SessionStarts];
    var l3 := l2 + [Announced];
    ScanAppend(log, AttemptBegins);
    ScanAppend(l1, SessionStarts);
    ScanAppend(l2, Announced);
    ScanAppend(l3, ReportConnected);
    assert log + Opening() == l3 + [ReportConnected];
  }

  lemma {:induction false} KeepalivesScan(log: seq<Event>, n: nat)
    requires Scan(log) == Some(Reporting)
    ensures Scan(log + Keepalives(n)) == Some(Reporting)
  {
    if n == 0 {
      assert log + Keepalives(0) == log;
    } else {
      KeepalivesScan(log, n - 1);
      ScanAppend(log + Keepalives(n - 1), ReportConnected);
      assert log + Keepalives(n) == log + Keepalives(n - 1) + [ReportConnected];
    }
  }

  lemma ClosingScans(log: seq<Event>)
    requires Scan(log) == Some(Reporting)
    ensures Scan(log + Closing()) == Some(Idle)
  {
    ScanAppend(log, SessionStopped);
    ScanAppend(log + [SessionStopped], ReportDisconnected);
    assert log + Closing() == log + [SessionStopped] + [ReportDisconnected];
  }

  /** An attempt that follows a well-formed log leaves it well-formed. */
  lemma AttemptScans(log: seq<Event>, reports: Option<nat>)
    requires Scan(log) == Some(Idle) || Scan(log) == Some(Attempting)
    ensures Scan(log + AttemptLog(reports)) == Some(if reports.Some? then Idle else Attempting)
  {
    OpeningScans(log);
    if reports.Some? {
      KeepalivesScan(log + Opening(), reports.value);
      ClosingScans(log + Opening() + Keepalives(reports.value));
      assert log + AttemptLog(reports) == log + Opening() + Keepalives(reports.value) + Closing();
    }
  }

  function Attempts(log: seq<Event>): nat {
    if log == [] then 0
    else Attempts(log[..|log| - 1]) + if log[|log| - 1] == AttemptBegins then 1 else 0
  }

  lemma AttemptsAppend(log: seq<Event>, event: Event)
    ensures Attempts(log + [event]) == Attempts(log) + if event == AttemptBegins then 1 else 0
  {
    assert (log + [event])[..|log|] == log;
  }

  lemma {:induction false} AttemptsConcat(log: seq<Event>, more: seq<Event>)
    ensures Attempts(log + more) == Attempts(log) + Attempts(more)
  {
    if more == [] {
      assert log + more == log;
    } else {
      var init := more[..|more| - 1];
      AttemptsConcat(log, init);
      AttemptsAppend(log + init, more[|more| - 1]);
      assert log + more == log + init + [more[|more| - 1]];
    }
  }

  lemma {:induction false} KeepalivesAreNoAttempts(n: nat)
    ensures Attempts(Keepalives(n)) == 0
  {
    if n > 0 {
      KeepalivesAreNoAttempts(n - 1);
      AttemptsAppend(Keepalives(n - 1), ReportConnected);
    }
  }

  lemma OneAttemptEach(reports: Option<nat>)
    ensures Attempts(AttemptLog(reports)) == 1
  {
    AttemptsAppend([], AttemptBegins);
    assert [] + [AttemptBegins] == [AttemptBegins];
    if reports.Some? {
      AttemptsAppend([AttemptBegins], SessionStarts);
      AttemptsAppend([AttemptBegins, SessionStarts], Announced);
      AttemptsAppend([AttemptBegins, SessionStarts, Announced], ReportConnected);
      assert Opening() == [AttemptBegins, SessionStarts, Announced] + [ReportConnected];
      KeepalivesAreNoAttempts(reports.value);
      AttemptsConcat(Opening(), Keepalives(reports.value));
      AttemptsConcat(Opening() + Keepalives(reports.value), Closing());
      AttemptsAppend([], SessionStopped);
      AttemptsAppend([SessionStopped], ReportDisconnected);
      assert [] + [SessionStopped] == [SessionStopped];
      assert Closing() == [SessionStopped] + [ReportDisconnected];
    }
  }

  lemma AttemptExtendsLog(log: seq<Event>, reports: Option<nat>)
    requires Scan(log) == Some(Idle) || Scan(log) == Some(Attempting)
    ensures Scan(log + AttemptLog(reports)) == Some(if reports.Some? then Idle else Attempting)
    ensures Attempts(log + AttemptLog(reports)) == Attempts(log) + 1
  {
    AttemptScans(log, reports);
    OneAttemptEach(reports);
    AttemptsConcat(log, AttemptLog(reports));
  }

  /** The log of a session attempt, whatever its keep-alives. */
  ghost predicate Extends(before: seq<Event>, log: seq<Event>, ran: bool) {
    exists reports: Option<nat> :: reports.Some? == ran && log == before + AttemptLog(reports)
  }

  lemma ExtendedLog(before: seq<Event>, log: seq<Event>, ran: bool)
    requires Scan(before) == Some(Idle) || Scan(before) == Some(Attempting)
    requires Extends(before, log, ran)
    ensures Scan(log) == Some(if ran then Idle else Attempting)
    ensures Attempts(log) == Attempts(before) + 1
  {
    var reports: Option<nat> :| reports.Some? == ran && log == before + AttemptLog(reports);
    AttemptExtendsLog(before, reports);
  }

  lemma FailedExtends(before: seq<Event>, log: seq<Event>)
    requires log == before + [AttemptBegins]
    ensures Extends(before, log, false)
  {
    assert log == before + AttemptLog(None);
  }

  lemma SessionExtends(before: seq<Event>, begun: seq<Event>, log: seq<Event>)
    requires begun == before + [AttemptBegins] && exists reports: nat :: log == begun + SessionLog(reports)
    ensures Extends(before, log, true)
  {
    var reports: nat :| log == begun + SessionLog(reports);
    assert log == before + AttemptLog(Some(reports));
  }

  /** The session is in the machine and shown, and the interface it was started with is
      the active one. */
  ghost predicate SessionShown(v: View, info: ActiveTunnel) {
    && v.activeOutbound == v.configOutbound
    && (v.vpn.Some? ==>
          && v.vpn.value.state.Connected? && v.vpn.value.state.info == info
          && v.watch == ToTunnel(v.vpn.value.state))
  }

  /** From the start of a session to the report of its end. */
  method RunSession(daemon: DaemonInner, attempt: Attempt, before: seq<Event>)
    returns (outcome: Outcome, log: seq<Event>)
    requires attempt.Runs? && Ends(attempt)
    modifies daemon
    ensures outcome == OutcomeOf(attempt)
    ensures exists reports: nat :: log == before + SessionLog(reports)
    ensures daemon.vpn.Some? == old(daemon.vpn.Some?)
    ensures SessionShown(daemon.Abs(), attempt.info)
  {
    daemon.StartSession();
    log := before + [SessionStarts];
    daemon.VpnTransition(ToConnected(attempt.info));
    log := log + [Announced];
    log := log + [ReportConnected];
    var reports: nat;
    outcome, reports := Supervise(attempt);
    for sent := 0 to reports
      invariant log == before + [SessionStarts, Announced, ReportConnected] + Keepalives(sent)
    {
      log := log + [ReportConnected];
    }
    log := log + [SessionStopped];
    log := log + [ReportDisconnected];
    assert log == before + SessionLog(reports);
  }

  /** A single attempt, supervised to its end, torn down and reported. */
  method ConnectOnce(daemon: DaemonInner, attempt: Attempt, before: seq<Event>)
    returns (result: Result<Outcome, string>, log: seq<Event>)
    requires Ends(attempt)
    modifies daemon
    ensures result == ResultOf(attempt)
    ensures Extends(before, log, attempt.Runs?)
    ensures daemon.vpn.Some? == old(daemon.vpn.Some?)
    ensures attempt.Runs? ==> SessionShown(daemon.Abs(), attempt.info)
    ensures attempt.Fails? ==>
              && (daemon.vpn.Some? ==> daemon.vpn.value.state.Configuring?)
              && (attempt.starting ==> daemon.activeOutbound == daemon.configOutbound)
  {
    log := before + [AttemptBegins];
    daemon.VpnTransition(ToConfiguring);
    if attempt.Fails? {
      if attempt.starting {
        daemon.StartSession();
      }
      FailedExtends(before, log);
      result := Err(attempt.error);
    } else {
      ghost var begun := log;
      var outcome;
      outcome, log := RunSession(daemon, attempt, log);
      SessionExtends(before, begun, log);
      result := Ok(outcome);
    }
  }

  /** Sleep off a decision, or stop; `cut` says the token ends the sleep. */
  method HandleDecision(daemon: DaemonInner, decision: R.Decision, cut: bool) returns (goOn: bool)
    modifies daemon
    ensures goOn <==> !decision.Stop? && !cut
    ensures !goOn ==> Settled(daemon.Abs(), decision.Stop?)
    ensures daemon.vpn.Some? && decision.Stop? ==>
              && daemon.vpn.value.state.Failed?
              && daemon.vpn.value.state.error == "maximum reconnect attempts exceeded"
    ensures daemon.vpn.Some? && goOn ==> daemon.vpn.value.state.Reconnecting?
    ensures daemon.vpn.Some? == old(daemon.vpn.Some?)
  {
    if decision.Stop? {
      daemon.MarkFailed(MAX_ATTEMPTS_ERROR);
      return false;
    }
    daemon.VpnTransition(ToReconnecting);
    if cut {
      daemon.MarkDisconnected();
    }
    goOn := !cut;
  }

  /** The controller's count once an attempt that found it at `count` is over. */
  function CountAfter(count: U32, result: Result<Outcome, string>): U32 {
    SaturatingSucc(if result.Ok? && !result.value.Cancelled? && result.value.wasHealthy then 0 else count)
  }

  ghost predicate Continues(count: U32, result: Result<Outcome, string>, cancelled: bool, cut: bool) {
    && !cut
    && (if result.Ok? then !result.value.Cancelled? else !cancelled)
    && CountAfter(count, result) <= R.ANDROID_POLICY.maxAttempts
  }

  ghost predicate StopsFailed(count: U32, result: Result<Outcome, string>, cancelled: bool) {
    var spent := CountAfter(count, result) > R.ANDROID_POLICY.maxAttempts;
    if result.Ok? then !result.value.Cancelled? && spent else cancelled || spent
  }

  /** What the loop does once an attempt is over: count it and decide. */
  method AfterAttempt(
    daemon: DaemonInner, controller: R.ReconnectController, result: Result<Outcome, string>, cancelled: bool, cut: bool)
    returns (goOn: bool, ghost decision: Option<R.Decision>)
    requires controller.policy == R.ANDROID_POLICY
    modifies daemon, controller
    ensures goOn <==> Continues(old(controller.attempts), result, cancelled, cut)
    ensures goOn ==> controller.attempts == CountAfter(old(controller.attempts), result)
    ensures goOn ==> decision.Some?
    ensures decision.Some? ==>
              decision.value == R.Verdict(
                R.ANDROID_POLICY, CountAfter(old(controller.attempts), result),
                if result.Err? then R.TransportFailed
                else if result.value.Kicked? then R.ServerKickOut
                else if result.value.Trigger? then result.value.event else R.NetworkChanged)
    ensures !goOn ==> Settled(daemon.Abs(), StopsFailed(old(controller.attempts), result, cancelled))
    ensures daemon.vpn.Some? && goOn ==> daemon.vpn.value.state.Reconnecting?
    ensures daemon.vpn.Some? && result.Err? && cancelled ==>
              daemon.vpn.value.state.Failed? && daemon.vpn.value.state.error == result.error
    ensures daemon.vpn.Some? == old(daemon.vpn.Some?)
  {
    var event;
    match result {
      case Ok(Cancelled) =>
        daemon.MarkDisconnected();
        return false, None;
      case Ok(Kicked(healthy)) =>
        if healthy {
          controller.Reset();
        }
        event := R.ServerKickOut;
      case Ok(Trigger(trigger, healthy)) =>
        if healthy {
          controller.Reset();
        }
        event := trigger;
      case Err(error) =>
        daemon.MarkFailed(error);
        if cancelled {
          return false, None;
        }
        event := R.TransportFailed;
    }
    var verdict := controller.Record(event);
    decision := Some(verdict);
    goOn := HandleDecision(daemon, verdict, cut);
  }

  ghost function ResultOf(attempt: Attempt): Result<Outcome, string>
    requires Ends(attempt)
  {
    if attempt.Fails? then Err(attempt.error) else Ok(OutcomeOf(attempt))
  }

  ghost predicate CancelledAtError(attempt: Attempt) {
    attempt.Fails? && attempt.cancelled
  }

  /** The controller's count is the number of attempts ended since, and
      including, the last healthy session. */
  lemma TurnCounts(env: nat -> Attempt, cut: nat -> bool, n: nat, count: U32)
    requires forall k: nat :: Ends(env(k))
    requires count == SinceHealthy(env, n) <= R.ANDROID_POLICY.maxAttempts
    ensures var result, cancelled := ResultOf(env(n)), CancelledAtError(env(n));
            && CountAfter(count, result) == SinceHealthy(env, n + 1)
            && (Continues(count, result, cancelled, cut(n)) <==> GoesOn(env, cut, n))
            && (StopsFailed(count, result, cancelled) <==> EndsFailed(env, n))
  {
    assert SinceHealthy(env, n + 1) == if WasHealthy(env(n)) then 1 else SinceHealthy(env, n) + 1;
  }

  /** The result with which an attempt ends, read off the step that counts it in the
      interleaved system. */
  function StepResult(s: System, a: Action): Result<Outcome, string>
    requires Enabled(s, a) && (a.Conclude? || a.ReadToken?)
  {
    if a.Conclude? then Ok(s.loops[a.loop].pc.outcome) else Err("")
  }

  /** The loop on its own and the loop among all interleavings count and decide alike:
      the step that counts an attempt sets the same count, and the step that acts on
      the decision ends the loop exactly when that count is past the maximum. */
  lemma LoopsAgree(s: System, a: Action)
    requires Enabled(s, a) && (a.Conclude? || a.ReadToken?)
    requires a.ReadToken? ==> s.loops[a.loop].token !in s.cancelled
    requires a.Conclude? ==> !s.loops[a.loop].pc.outcome.Cancelled?
    ensures var counted := Next(s, a);
            && a.loop < |counted.loops| && counted.loops[a.loop].pc.Deciding?
            && counted.loops[a.loop].attempts == CountAfter(s.loops[a.loop].attempts, StepResult(s, a))
            && Enabled(counted, Decide(a.loop))
            && (Next(counted, Decide(a.loop)).loops[a.loop].pc.Done? <==>
                counted.loops[a.loop].attempts > R.ANDROID_POLICY.maxAttempts)
            && (!Next(counted, Decide(a.loop)).loops[a.loop].pc.Done? <==>
                Continues(s.loops[a.loop].attempts, StepResult(s, a), false, false))
  {
  }

  /** The two ends that no decision precedes: a cancelled session, and an error under
      a cancelled token. */
  lemma CancelledEndsAgree(s: System, a: Action, cut: bool)
    requires Enabled(s, a) && (a.Conclude? || a.ReadToken?)
    ensures Next(s, a).loops[a.loop].pc.Done? <==>
            if a.Conclude? then s.loops[a.loop].pc.outcome.Cancelled? else s.loops[a.loop].token in s.cancelled
    ensures Next(s, a).loops[a.loop].pc.Done? ==>
              !Continues(s.loops[a.loop].attempts, StepResult(s, a), a.ReadToken?, cut)
  {
  }

  ghost predicate AllGoOn(env: nat -> Attempt, cut: nat -> bool, n: nat)
    requires forall i: nat :: Ends(env(i))
  {
    forall k: nat :: k < n ==> GoesOn(env, cut, k)
  }

  /** One turn of the loop: an attempt, its count, and the decision. */
  method Turn(
    daemon: DaemonInner, controller: R.ReconnectController, env: nat -> Attempt, cut: nat -> bool,
    n: nat, before: seq<Event>)
    returns (goOn: bool, log: seq<Event>)
    requires forall k: nat :: Ends(env(k))
    requires AllGoOn(env, cut, n) && controller.policy == R.ANDROID_POLICY
    requires controller.attempts == SinceHealthy(env, n) <= R.ANDROID_POLICY.maxAttempts
    modifies daemon, controller
    ensures Extends(before, log, env(n).Runs?)
    ensures goOn ==>
              && AllGoOn(env, cut, n + 1)
              && controller.attempts == SinceHealthy(env, n + 1) <= R.ANDROID_POLICY.maxAttempts
              && (!WasHealthy(env(n)) ==> controller.attempts == old(controller.attempts) + 1)
    ensures !goOn ==> Makes(env, cut, n + 1) && Settled(daemon.Abs(), EndsFailed(env, n))
    ensures daemon.vpn.Some? == old(daemon.vpn.Some?)
  {
    var attempt := env(n);
    var result;
    result, log := ConnectOnce(daemon, attempt, before);
    TurnCounts(env, cut, n, controller.attempts);
    ghost var decision;
    goOn, decision := AfterAttempt(daemon, controller, result, attempt.Fails? && attempt.cancelled, cut(n));
  }

  /** `run_connect_loop`: attempt, count, decide. `env` gives what each attempt
      meets and `cut` whether the back-off after it is cancelled; from attempt
      `calm` on no session is healthy. The loop ends, having made exactly the
      attempts the count allows, with every session bracketed in its log. */
  method RunConnectLoop(daemon: DaemonInner, env: nat -> Attempt, cut: nat -> bool, ghost calm: nat)
    returns (log: seq<Event>)
    requires forall k: nat :: Ends(env(k))
    requires forall k: nat :: k >= calm ==> !WasHealthy(env(k))
    modifies daemon
    ensures Makes(env, cut, Attempts(log))
    ensures Scan(log) == Some(Idle) || Scan(log) == Some(Attempting)
    ensures Settled(daemon.Abs(), EndsFailed(env, Attempts(log) - 1))
    ensures daemon.vpn.Some? == old(daemon.vpn.Some?)
  {
    var controller := new R.ReconnectController(R.ANDROID_POLICY);
    log := [];
    var n: nat := 0;
    var goOn := true;
    while goOn
      invariant Attempts(log) == n
      invariant Scan(log) == Some(Idle) || Scan(log) == Some(Attempting)
      invariant fresh(controller) && controller.policy == R.ANDROID_POLICY
      invariant goOn ==> AllGoOn(env, cut, n)
      invariant goOn ==> controller.attempts == SinceHealthy(env, n) <= R.ANDROID_POLICY.maxAttempts
      invariant !goOn ==> n > 0 && Makes(env, cut, n) && Settled(daemon.Abs(), EndsFailed(env, n - 1))
      invariant daemon.vpn.Some? == old(daemon.vpn.Some?)
      decreases goOn, if n < calm then calm - n else 0, R.ANDROID_POLICY.maxAttempts + 1 - controller.attempts
    {
      assert n >= calm ==> !WasHealthy(env(n));
      ghost var before := log;
      goOn, log := Turn(daemon, controller, env, cut, n, log);
      ExtendedLog(before, log, env(n).Runs?);
      n := n + 1;
    }
  }
}
