/** The parallel upstream query: one task for each server, a bounded channel, and
    a receiver that takes the first success. */
module DnsForwarder {
  import opened Wrappers

  type Reply = seq<nat>

  datatype Error = BindSocket(server: nat) | Send(server: nat) | Recv(server: nat) | Timeout(server: nat) | AllFailed

  type Outcome = Result<Reply, Error>

  // ------------------------------------------------------------------
  // Arrival orders
  // ------------------------------------------------------------------

  /** Servers in the order in which their outcomes arrive, each at most once. */
  ghost predicate Arrivals(arrived: seq<nat>, n: nat) {
    && (forall i :: 0 <= i < |arrived| ==> arrived[i] < n)
    && (forall i, j :: 0 <= i < j < |arrived| ==> arrived[i] != arrived[j])
  }

  /** The first success of an arrival order. */
  ghost function FirstSuccess(arrived: seq<nat>, outcomes: seq<Outcome>): Option<Reply>
    requires Arrivals(arrived, |outcomes|)
  {
    if arrived == [] then None
    else
      var head := outcomes[arrived[0]];
      assert Arrivals(arrived[1..], |outcomes|);
      if head.Ok? then Some(head.value) else FirstSuccess(arrived[1..], outcomes)
  }

  lemma {:induction false} FirstSuccessIsFirst(arrived: seq<nat>, outcomes: seq<Outcome>)
    requires Arrivals(arrived, |outcomes|)
    ensures FirstSuccess(arrived, outcomes).None? <==> forall i :: 0 <= i < |arrived| ==> outcomes[arrived[i]].Err?
    ensures FirstSuccess(arrived, outcomes).Some? ==>
              exists i :: && 0 <= i < |arrived| && outcomes[arrived[i]] == Ok(FirstSuccess(arrived, outcomes).value)
                          && forall j :: 0 <= j < i ==> outcomes[arrived[j]].Err?
  {
    if arrived != [] {
      var rest := arrived[1..];
      assert Arrivals(rest, |outcomes|);
      FirstSuccessIsFirst(rest, outcomes);
      if outcomes[arrived[0]].Err? {
        assert forall i :: 0 < i < |arrived| ==> arrived[i] == rest[i - 1];
        assert forall i :: 0 <= i < |rest| ==> rest[i] == arrived[i + 1];
        if FirstSuccess(rest, outcomes).Some? {
          var i :| 0 <= i < |rest| && outcomes[rest[i]] == Ok(FirstSuccess(rest, outcomes).value)
                   && forall j :: 0 <= j < i ==> outcomes[rest[j]].Err?;
          assert outcomes[arrived[i + 1]] == Ok(FirstSuccess(arrived, outcomes).value);
        }
      }
    }
  }

  /** What arrives after the first success changes nothing. */
  lemma {:induction false} LaterArrivalsDoNotMatter(early: seq<nat>, late: seq<nat>, outcomes: seq<Outcome>)
    requires Arrivals(early + late, |outcomes|)
    ensures Arrivals(early, |outcomes|)
    ensures FirstSuccess(early, outcomes).Some? ==>
              FirstSuccess(early + late, outcomes) == FirstSuccess(early, outcomes)
  {
    var all := early + late;
    assert forall i :: 0 <= i < |early| ==> early[i] == all[i];
    if early != [] {
      assert all[1..] == early[1..] + late;
      LaterArrivalsDoNotMatter(early[1..], late, outcomes);
    }
  }

  /** Once every server has arrived, the order still decides which reply wins, but
      not whether there is one. */
  lemma CompleteArrivals(arrived: seq<nat>, outcomes: seq<Outcome>)
    requires Arrivals(arrived, |outcomes|) && |arrived| == |outcomes|
    ensures FirstSuccess(arrived, outcomes).Some? <==> exists k :: 0 <= k < |outcomes| && outcomes[k].Ok?
  {
    FirstSuccessIsFirst(arrived, outcomes);
    if k: nat :| k < |outcomes| && outcomes[k].Ok? {
      AllArrive(arrived, |outcomes|, k);
    }
  }

  /** Pigeonhole: `n` different servers below `n` are all of them. */
  lemma AllArrive(arrived: seq<nat>, n: nat, k: nat)
    requires Arrivals(arrived, n) && |arrived| == n && k < n
    ensures k in arrived
  {
    var seen := set i | 0 <= i < |arrived| :: arrived[i];
    DistinctSize(arrived, n);
    if k !in arrived {
      assert seen <= Below(n) - {k};
      SubsetSize(seen, Below(n) - {k});
    }
  }

  lemma {:induction false} DistinctSize(arrived: seq<nat>, n: nat)
    requires Arrivals(arrived, n)
    ensures |(set i | 0 <= i < |arrived| :: arrived[i])| == |arrived|
  {
    var seen := set i | 0 <= i < |arrived| :: arrived[i];
    if arrived == [] {
      assert seen == {};
    } else {
      var rest := arrived[..|arrived| - 1];
      var last := arrived[|arrived| - 1];
      DistinctSize(rest, n);
      assert seen == (set i | 0 <= i < |rest| :: rest[i]) + {last};
    }
  }

  function Below(n: nat): (r: set<nat>)
    ensures |r| == n
    ensures forall k: nat :: k in r <==> k < n
  {
    if n == 0 then {} else Below(n - 1) + {n - 1}
  }

  lemma {:induction false} SubsetSize(a: set<nat>, b: set<nat>)
    requires a <= b
    ensures |a| <= |b|
    decreases a
  {
    if a != {} {
      var x :| x in a;
      SubsetSize(a - {x}, b - {x});
    }
  }

  // ------------------------------------------------------------------
  // The channel and the query
  // ------------------------------------------------------------------

  /** A bounded channel. Sending into a full one would block: `Send` demands room. */
  class Channel {
    const capacity: nat
    var queue: seq<Outcome>

    constructor (capacity: nat)
      ensures this.capacity == capacity && queue == []
    {
      this.capacity, queue := capacity, [];
    }

    method Send(outcome: Outcome)
      requires |queue| < capacity
      modifies this
      ensures queue == old(queue) + [outcome]
    {
      queue := queue + [outcome];
    }

    method Receive() returns (outcome: Outcome)
      requires queue != []
      modifies this
      ensures old(queue) == [outcome] + queue
    {
      outcome := queue[0];
      queue := queue[1..];
    }
  }

  /** `outcomes` holds what the query to each server comes to, when it is made.
      With several servers the tasks end in any order and at any time between two
      receives. `arrived` is the order in which they did. */
  method ParallelQuery(outcomes: seq<Outcome>) returns (r: Outcome, ghost arrived: seq<nat>)
    ensures outcomes == [] ==> r == Err(AllFailed)
    ensures |outcomes| == 1 ==> r == outcomes[0]
    ensures r.Ok? <==> exists k :: 0 <= k < |outcomes| && outcomes[k].Ok?
    ensures |outcomes| > 1 && r.Err? ==> r.error == AllFailed
    ensures |outcomes| > 1 ==>
              && Arrivals(arrived, |outcomes|)
              && (r.Ok? ==> FirstSuccess(arrived, outcomes) == Some(r.value))
  {
    arrived := [];
    if outcomes == [] {
      return Err(AllFailed), [];
    }
    if |outcomes| == 1 {
      return outcomes[0], [];
    }
    var channel := new Channel(|outcomes|);
    var running := Below(|outcomes|);
    ghost var taken := 0;
    while true
      invariant Arrivals(arrived, |outcomes|) && |arrived| + |running| == |outcomes|
      invariant forall k: nat :: k in running <==> k < |outcomes| && k !in arrived
      invariant fresh(channel) && channel.capacity == |outcomes|
      invariant taken <= |arrived| && |channel.queue| == |arrived| - taken
      invariant forall i :: taken <= i < |arrived| ==> channel.queue[i - taken] == outcomes[arrived[i]]
      invariant forall i :: 0 <= i < taken ==> outcomes[arrived[i]].Err?
      decreases |outcomes| - taken
    {
      while running != {}
        invariant Arrivals(arrived, |outcomes|) && |arrived| + |running| == |outcomes|
        invariant forall k: nat :: k in running <==> k < |outcomes| && k !in arrived
        invariant taken <= |arrived| && |channel.queue| == |arrived| - taken
        invariant forall i :: taken <= i < |arrived| ==> channel.queue[i - taken] == outcomes[arrived[i]]
        invariant forall i :: 0 <= i < taken ==> outcomes[arrived[i]].Err?
        decreases |running|
      {
        if channel.queue != [] {
          if * {
            break;
          }
        }
        var k: nat :| k in running;
        channel.Send(outcomes[k]);
        arrived := arrived + [k];
        running := running - {k};
      }
      if channel.queue == [] {
        CompleteArrivals(arrived, outcomes);
        FirstSuccessIsFirst(arrived, outcomes);
        return Err(AllFailed), arrived;
      }
      var outcome := channel.Receive();
      assert outcome == outcomes[arrived[taken]];
      if outcome.Ok? {
        SuccessAt(arrived, outcomes, taken);
        return outcome, arrived;
      }
      taken := taken + 1;
    }
  }

  lemma {:induction false} SuccessAt(arrived: seq<nat>, outcomes: seq<Outcome>, i: nat)
    requires Arrivals(arrived, |outcomes|) && i < |arrived|
    requires outcomes[arrived[i]].Ok? && forall j :: 0 <= j < i ==> outcomes[arrived[j]].Err?
    ensures FirstSuccess(arrived, outcomes) == Some(outcomes[arrived[i]].value)
  {
    if i > 0 {
      SuccessAt(arrived[1..], outcomes, i - 1);
    }
  }
}
