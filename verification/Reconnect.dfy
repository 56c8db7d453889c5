/** The reconnect controller: a saturating attempt counter, a back-off delay
    and a decision per recorded event. Delays are in milliseconds. */
module Reconnect {
  import opened VpnStates

  datatype Event = HandshakeTimeout | IdleTimeout | ServerKickOut | NetworkChanged | TransportFailed

  datatype Decision = Retry(after: nat, attempt: U32) | SwitchNode(after: nat, attempt: U32) | Stop

  datatype Policy = Policy(maxAttempts: U32, baseDelay: nat, maxDelay: nat, switchNodeAfter: U32)

  const ANDROID_POLICY := Policy(8, 2_000, 60_000, 3)

  function Min(a: nat, b: nat): nat {
    if a < b then a else b
  }

  function Pow2(n: nat): nat {
    if n == 0 then 1 else 2 * Pow2(n - 1)
  }

  /** The delay before retry number `attempt`: doubling, capped twice. */
  function DelayForAttempt(policy: Policy, attempt: U32): nat {
    var exponent := Min(if attempt == 0 then 0 else attempt - 1, 5);
    Min(policy.baseDelay * Pow2(exponent), policy.maxDelay)
  }

  /** What an event yields once the counter stands at `attempts`. */
  function Verdict(policy: Policy, attempts: U32, event: Event): Decision {
    if attempts > policy.maxAttempts then Stop
    else if event.ServerKickOut? || attempts >= policy.switchNodeAfter then
      SwitchNode(DelayForAttempt(policy, attempts), attempts)
    else
      Retry(DelayForAttempt(policy, attempts), attempts)
  }

  class ReconnectController {
    const policy: Policy
    var attempts: U32

    constructor (policy: Policy)
      ensures this.policy == policy && attempts == 0
    {
      this.policy := policy;
      attempts := 0;
    }

    method Record(event: Event) returns (decision: Decision)
      modifies this
      ensures attempts == SaturatingSucc(old(attempts))
      ensures decision == Verdict(policy, attempts, event)
    {
      attempts := SaturatingSucc(attempts);
      if attempts > policy.maxAttempts {
        return Stop;
      }
      var delay := DelayForAttempt(policy, attempts);
      if event.ServerKickOut? || attempts >= policy.switchNodeAfter {
        decision := SwitchNode(delay, attempts);
      } else {
        decision := Retry(delay, attempts);
      }
    }

    method Reset()
      modifies this
      ensures attempts == 0
    {
      attempts := 0;
    }
  }

  lemma {:induction false} Pow2Monotone(m: nat, n: nat)
    requires m <= n
    ensures Pow2(m) <= Pow2(n)
    decreases n - m
  {
    if m < n {
      Pow2Monotone(m + 1, n);
    }
  }

  /** Back-off never shortens as attempts accumulate and never passes the cap. */
  lemma DelayMonotone(policy: Policy, earlier: U32, later: U32)
    requires earlier <= later
    ensures DelayForAttempt(policy, earlier) <= DelayForAttempt(policy, later) <= policy.maxDelay
  {
    var a := Min(if earlier == 0 then 0 else earlier - 1, 5);
    var b := Min(if later == 0 then 0 else later - 1, 5);
    Pow2Monotone(a, b);
    assert policy.baseDelay * Pow2(a) <= policy.baseDelay * Pow2(b);
  }

  /** The back-off of the daemon's policy, in seconds, retry by retry. */
  const ANDROID_SECONDS := [2, 4, 8, 16, 32, 60, 60, 60]

  /** Under the daemon's policy, with no node kicking: two retries on the same node,
      six on another, then the end. A kick switches the node at once. */
  lemma AndroidSchedule(attempts: U32, event: Event)
    requires attempts > 0
    ensures Verdict(ANDROID_POLICY, attempts, event) ==
            if attempts > 8 then Stop
            else if attempts <= 2 && !event.ServerKickOut? then Retry(1000 * ANDROID_SECONDS[attempts - 1], attempts)
            else SwitchNode(1000 * ANDROID_SECONDS[attempts - 1], attempts)
  {
    assert Pow2(1) == 2 && Pow2(2) == 4 && Pow2(3) == 8 && Pow2(4) == 16 && Pow2(5) == 32;
  }
}
