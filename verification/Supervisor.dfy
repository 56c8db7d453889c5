/** The supervisor of a live session: an event loop that ends with the first
    event that decides the session's fate. Ages are in seconds. */
module Supervisor {
  import opened Wrappers
  import opened TunnelLifecycle
  import R = Reconnect

  const CONNECT_TIMEOUT: nat := 15
  const LIVENESS_TIMEOUT: nat := 30

  /** What the select loop wakes up to; `probeAge` is the age of the last probe
      reply as read by that handler, `None` before the first reply. */
  datatype Tick =
    | CancelFires
    | DeviceStops(probeAge: Option<nat>)
    | LivenessPoll(probeAge: Option<nat>, sessionAge: nat)
    | NetworkPoll(probeAge: Option<nat>, pinnedPresent: Option<bool>, snapshot: Option<nat>)
    | ReportPoll(kicked: bool, probeAge: Option<nat>)

  datatype Liveness = Healthy | ConnectTimeout | Stalled

  function LivenessStatus(probeAge: Option<nat>, sessionAge: nat): Liveness {
    match probeAge
    case None => if sessionAge > CONNECT_TIMEOUT then ConnectTimeout else Healthy
    case Some(age) => if age > LIVENESS_TIMEOUT then Stalled else Healthy
  }

  /** The outcome one event forces, if it forces any. `pinned` says that an
      outbound interface is configured; `network` is the snapshot at the start. */
  function Verdict(tick: Tick, pinned: bool, network: nat): Option<Outcome> {
    match tick
    case CancelFires => Some(Cancelled)
    case DeviceStops(age) => Some(Trigger(R.TransportFailed, age.Some?))
    case LivenessPoll(age, sessionAge) =>
      if LivenessStatus(age, sessionAge) != Healthy then Some(Trigger(R.HandshakeTimeout, age.Some?)) else None
    case NetworkPoll(age, present, snapshot) =>
      if pinned then
        if present.GetOr(false) then None else Some(Trigger(R.NetworkChanged, age.Some?))
      else if snapshot.Some? && snapshot.value != network then Some(Trigger(R.NetworkChanged, age.Some?))
      else None
    case ReportPoll(kicked, age) => if kicked then Some(Kicked(age.Some?)) else None
  }

  predicate Decisive(tick: Tick, pinned: bool, network: nat) {
    Verdict(tick, pinned, network).Some?
  }

  /** Keep-alive reports sent for the given events. */
  function Reports(ticks: seq<Tick>): nat {
    if ticks == [] then 0 else Reports(ticks[..|ticks| - 1]) + if ticks[|ticks| - 1].ReportPoll? then 1 else 0
  }

  /** The position of the event that ends the session. */
  ghost predicate EndsAt(ticks: seq<Tick>, pinned: bool, network: nat, at: nat) {
    && at < |ticks| && Decisive(ticks[at], pinned, network)
    && forall k :: 0 <= k < at ==> !Decisive(ticks[k], pinned, network)
  }

  /** The liveness limits: no reply at all is tolerated for 15 seconds of the session,
      a gap after a reply for 30. */
  lemma LivenessEndsIff(probeAge: Option<nat>, sessionAge: nat, pinned: bool, network: nat)
    ensures Verdict(LivenessPoll(probeAge, sessionAge), pinned, network) ==
            if (probeAge.None? && sessionAge > 15) || (probeAge.Some? && probeAge.value > 30)
            then Some(Trigger(R.HandshakeTimeout, probeAge.Some?)) else None
  {
  }

  /** A network poll ends the session when the pinned interface is not known to be
      there, or without a pin when the network is known to have changed. */
  lemma NetworkEndsIff(probeAge: Option<nat>, present: Option<bool>, snapshot: Option<nat>, pinned: bool, network: nat)
    ensures Verdict(NetworkPoll(probeAge, present, snapshot), pinned, network) ==
            if (if pinned then present != Some(true) else snapshot.Some? && snapshot != Some(network))
            then Some(Trigger(R.NetworkChanged, probeAge.Some?)) else None
  {
  }

  lemma OtherEnds(probeAge: Option<nat>, kicked: bool, pinned: bool, network: nat)
    ensures Verdict(ReportPoll(kicked, probeAge), pinned, network) ==
            if kicked then Some(Kicked(probeAge.Some?)) else None
    ensures Verdict(CancelFires, pinned, network) == Some(Cancelled)
    ensures Verdict(DeviceStops(probeAge), pinned, network) == Some(Trigger(R.TransportFailed, probeAge.Some?))
  {
  }

  lemma ReportsAppend(ticks: seq<Tick>, tick: Tick)
    ensures Reports(ticks + [tick]) == Reports(ticks) + if tick.ReportPoll? then 1 else 0
  {
    assert (ticks + [tick])[..|ticks|] == ticks;
  }

  /** One keep-alive for each report poll. */
  lemma {:induction false} ReportsCount(ticks: seq<Tick>)
    ensures Reports(ticks) == |(set k | 0 <= k < |ticks| && ticks[k].ReportPoll?)|
  {
    var all := set k | 0 <= k < |ticks| && ticks[k].ReportPoll?;
    if ticks == [] {
      assert all == {};
    } else {
      var init, last := ticks[..|ticks| - 1], |ticks| - 1;
      ReportsCount(init);
      var before := set k | 0 <= k < |init| && init[k].ReportPoll?;
      assert all == before + if ticks[last].ReportPoll? then {last} else {};
    }
  }

  /** The outcome, by the event that ends the session. */
  ghost predicate Decides(tick: Tick, pinned: bool, network: nat, outcome: Outcome) {
    match tick
    case CancelFires => outcome == Cancelled
    case DeviceStops(age) => outcome == Trigger(R.TransportFailed, age.Some?)
    case LivenessPoll(age, sessionAge) =>
      && ((age.None? && sessionAge > 15) || (age.Some? && age.value > 30))
      && outcome == Trigger(R.HandshakeTimeout, age.Some?)
    case NetworkPoll(age, present, snapshot) =>
      && (if pinned then present != Some(true) else snapshot.Some? && snapshot != Some(network))
      && outcome == Trigger(R.NetworkChanged, age.Some?)
    case ReportPoll(kicked, age) => kicked && outcome == Kicked(age.Some?)
  }

  /** `run`: the session ends with the first event that decides its fate. */
  method Run(ticks: seq<Tick>, pinned: bool, network: nat) returns (outcome: Outcome, at: nat, reports: nat)
    requires exists k :: 0 <= k < |ticks| && Decisive(ticks[k], pinned, network)
    ensures EndsAt(ticks, pinned, network, at)
    ensures Verdict(ticks[at], pinned, network) == Some(outcome)
    ensures reports == Reports(ticks[..at + 1])
    ensures at < |ticks| && Decides(ticks[at], pinned, network, outcome)
    ensures forall k, other :: 0 <= k < at ==> !Decides(ticks[k], pinned, network, other)
  {
    at, reports := 0, 0;
    while true
      invariant at <= |ticks| && reports == Reports(ticks[..at])
      invariant forall k :: 0 <= k < at ==> !Decisive(ticks[k], pinned, network)
      decreases |ticks| - at
    {
      var tick := ticks[at];
      assert ticks[..at + 1][..at] == ticks[..at];
      match tick {
        case CancelFires =>
          return Cancelled, at, reports;
        case DeviceStops(age) =>
          return Trigger(R.TransportFailed, age.Some?), at, reports;
        case LivenessPoll(age, sessionAge) =>
          if LivenessStatus(age, sessionAge) != Healthy {
            return Trigger(R.HandshakeTimeout, age.Some?), at, reports;
          }
        case NetworkPoll(age, present, snapshot) =>
          if pinned {
            if !present.GetOr(false) {
              return Trigger(R.NetworkChanged, age.Some?), at, reports;
            }
          } else if snapshot.Some? && snapshot.value != network {
            return Trigger(R.NetworkChanged, age.Some?), at, reports;
          }
        case ReportPoll(kicked, age) =>
          reports := reports + 1;
          if kicked {
            return Kicked(age.Some?), at, reports;
          }
      }
      at := at + 1;
    }
  }
}
