/** The sending half of the FeiLian TCP transport: one connection at a time,
    redialled for a new destination or after a failed write. `Net` and `SendStep`
    say what a send does; `FeilianTcpSend` performs it in place. */
module FeilianSender {
  import opened Wrappers
  import opened FeilianFrames

  type Addr = nat

  /** One TCP connection and every byte ever written to it. */
  datatype Conn = Conn(destination: Addr, wire: seq<Byte>)

  datatype Writer = Writer(destination: Addr, conn: nat)

  datatype Net = Net(current: Option<Writer>, conns: seq<Conn>)

  /** What the network does to one send. A failed write has put fewer bytes on
      the wire than it was given; `header` and `body` say how many. */
  datatype Fate = Fate(dials: bool, header: Option<nat>, body: Option<nat>)

  datatype Send = Send(payload: Payload, destination: Addr, fate: Fate)

  datatype Outcome = Sent(conn: nat) | InvalidFrame | DialFailed | WriteFailed

  const FRESH := Net(None, [])

  ghost predicate Valid(net: Net) {
    net.current.Some? ==>
      && net.current.value.conn < |net.conns|
      && net.conns[net.current.value.conn].destination == net.current.value.destination
  }

  function Put(bytes: seq<Byte>, fails: Option<nat>): seq<Byte> {
    if fails.Some? && fails.value < |bytes| then bytes[..fails.value] else bytes
  }

  function Fails(bytes: seq<Byte>, fails: Option<nat>): bool {
    fails.Some? && fails.value < |bytes|
  }

  /** The bytes one send writes, and whether it writes them all. */
  function Written(payload: Payload, fate: Fate): seq<Byte>
    requires Sendable(payload)
  {
    var header := ToLe32(|payload|);
    if Fails(header, fate.header) then Put(header, fate.header) else header + Put(payload, fate.body)
  }

  function WritesAll(payload: Payload, fate: Fate): bool
    requires Sendable(payload)
  {
    !Fails(ToLe32(|payload|), fate.header) && !Fails(payload, fate.body)
  }

  function Dialled(net: Net, destination: Addr): Net {
    Net(Some(Writer(destination, |net.conns|)), net.conns + [Conn(destination, [])])
  }

  function ShouldDial(net: Net, destination: Addr): bool {
    net.current.None? || net.current.value.destination != destination
  }

  function SendStep(net: Net, send: Send): (Net, Outcome)
    requires Valid(net)
  {
    if !Sendable(send.payload) then (net, InvalidFrame)
    else if ShouldDial(net, send.destination) && !send.fate.dials then (net, DialFailed)
    else
      var ready := if ShouldDial(net, send.destination) then Dialled(net, send.destination) else net;
      var c := ready.current.value.conn;
      var conn := ready.conns[c].(wire := ready.conns[c].wire + Written(send.payload, send.fate));
      var written := ready.(conns := ready.conns[c := conn]);
      if WritesAll(send.payload, send.fate) then (written, Sent(c)) else (written.(current := None), WriteFailed)
  }

  class FeilianTcpSend {
    var current: Option<Writer>
    var conns: seq<Conn>

    ghost function Abs(): Net
      reads this
    {
      Net(current, conns)
    }

    constructor ()
      ensures Abs() == FRESH && Valid(Abs())
    {
      current, conns := None, [];
    }

    /** `write_all`: an error leaves a proper prefix on the wire. */
    method WriteAll(c: nat, bytes: seq<Byte>, fails: Option<nat>) returns (ok: bool)
      requires c < |conns|
      modifies this
      ensures ok == !Fails(bytes, fails) && current == old(current)
      ensures conns == old(conns)[c := old(conns)[c].(wire := old(conns)[c].wire + Put(bytes, fails))]
    {
      conns := conns[c := conns[c].(wire := conns[c].wire + Put(bytes, fails))];
      ok := !Fails(bytes, fails);
    }

    /** `send_to`, under the mutex that guards the writer. */
    method SendTo(payload: Payload, destination: Addr, fate: Fate) returns (outcome: Outcome)
      requires Valid(Abs())
      modifies this
      ensures Valid(Abs())
      ensures (Abs(), outcome) == SendStep(old(Abs()), Send(payload, destination, fate))
    {
      if !(0 < |payload| <= MAX_FRAME) {
        return InvalidFrame;
      }
      if current.None? || current.value.destination != destination {
        if !fate.dials {
          return DialFailed;
        }
        current := Some(Writer(destination, |conns|));
        conns := conns + [Conn(destination, [])];
      }
      var c := current.value.conn;
      ghost var ready := Abs();
      var ok := WriteAll(c, ToLe32(|payload|), fate.header);
      if ok {
        ok := WriteAll(c, payload, fate.body);
      }
      assert ready.conns[c].wire + ToLe32(|payload|) + Put(payload, fate.body)
          == ready.conns[c].wire + (ToLe32(|payload|) + Put(payload, fate.body));
      assert conns == ready.conns[c := ready.conns[c].(wire := ready.conns[c].wire + Written(payload, fate))];
      if !ok {
        current := None;
        return WriteFailed;
      }
      outcome := Sent(c);
    }
  }

  /** When a send dials, and what it comes to: a datagram of a bad size and a failed dial
      leave everything as it was; a connection to the right destination is used again
      and one elsewhere is not; only an error gives the connection up. */
  lemma SendOutcome(net: Net, send: Send)
    requires Valid(net)
    ensures var (after, outcome) := SendStep(net, send);
            var reuses := net.current.Some? && net.current.value.destination == send.destination;
            && (outcome == InvalidFrame <==> |send.payload| == 0 || |send.payload| > 65_535)
            && (outcome == DialFailed <==>
                  1 <= |send.payload| <= 65_535 && !reuses && !send.fate.dials)
            && (outcome == InvalidFrame || outcome == DialFailed ==> after == net)
            && (outcome.Sent? || outcome.WriteFailed? ==>
                  |after.conns| == |net.conns| + if reuses then 0 else 1)
            && (outcome.Sent? ==> outcome.conn == if reuses then net.current.value.conn else |net.conns|)
            && (outcome.Sent? ==> after.current == Some(Writer(send.destination, outcome.conn)))
            && (outcome.WriteFailed? ==> after.current.None?)
  {
  }

  /** A send whose octets the network takes succeeds. */
  lemma SendSucceedsIff(net: Net, send: Send)
    requires Valid(net) && 1 <= |send.payload| <= 65_535
    requires send.fate.dials || (net.current.Some? && net.current.value.destination == send.destination)
    ensures SendStep(net, send).1.Sent? <==>
            && (send.fate.header.None? || send.fate.header.value >= 4)
            && (send.fate.body.None? || send.fate.body.value >= |send.payload|)
  {
  }

  // ------------------------------------------------------------------
  // Whole runs
  // ------------------------------------------------------------------

  lemma StepValid(net: Net, send: Send)
    requires Valid(net)
    ensures Valid(SendStep(net, send).0)
  {
  }

  /** The transport after a run of sends from a fresh one. */
  ghost function Run(sends: seq<Send>): (net: Net)
    ensures Valid(net)
  {
    if sends == [] then FRESH
    else
      StepValid(Run(sends[..|sends| - 1]), sends[|sends| - 1]);
      SendStep(Run(sends[..|sends| - 1]), sends[|sends| - 1]).0
  }

  /** What the last send of a non-empty run returned. */
  ghost function LastOutcome(sends: seq<Send>): Outcome
    requires sends != []
  {
    SendStep(Run(sends[..|sends| - 1]), sends[|sends| - 1]).1
  }

  /** The datagrams whose send returned Ok on connection `c`, in order. */
  ghost function Acked(sends: seq<Send>, c: nat): seq<Payload> {
    if sends == [] then []
    else
      Acked(sends[..|sends| - 1], c)
      + if LastOutcome(sends) == Sent(c) then [sends[|sends| - 1].payload] else []
  }

  /** The bytes of a connection are the acknowledged frames and at most one
      truncated frame, which only an abandoned connection can carry. */
  ghost predicate Aligned(net: Net, c: nat, acked: seq<Payload>, tail: seq<Byte>)
    requires c < |net.conns|
  {
    && AllSendable(acked) && Truncated(tail)
    && net.conns[c].wire == Frames(acked) + tail
    && (net.current.Some? && net.current.value.conn == c ==> tail == [])
  }

  lemma WrittenIsFrameOrTruncation(payload: Payload, fate: Fate)
    requires Sendable(payload)
    ensures WritesAll(payload, fate) ==> Written(payload, fate) == Frame(payload)
    ensures !WritesAll(payload, fate) ==> Truncated(Written(payload, fate))
  {
    var header := ToLe32(|payload|);
    var sent := Written(payload, fate);
    if !WritesAll(payload, fate) {
      if Fails(header, fate.header) {
        assert sent == Frame(payload)[..fate.header.value];
      } else {
        assert sent == Frame(payload)[..4 + fate.body.value];
      }
      assert |sent| < |Frame(payload)| && sent == Frame(payload)[..|sent|];
    }
  }

  lemma AckedNothingYet(sends: seq<Send>, c: nat)
    requires c >= |Run(sends).conns|
    ensures Acked(sends, c) == []
    decreases |sends|
  {
    if sends != [] {
      AckedNothingYet(sends[..|sends| - 1], c);
    }
  }

  lemma WriteAligned(acked: seq<Payload>, payload: Payload, fate: Fate) returns (tail: seq<Byte>)
    requires AllSendable(acked) && Sendable(payload)
    ensures Truncated(tail)
    ensures WritesAll(payload, fate) ==>
              tail == [] && AllSendable(acked + [payload])
              && Frames(acked) + Written(payload, fate) == Frames(acked + [payload])
    ensures !WritesAll(payload, fate) ==> Frames(acked) + Written(payload, fate) == Frames(acked) + tail
  {
    WrittenIsFrameOrTruncation(payload, fate);
    FramesAppend(acked, payload);
    NothingIsTruncated();
    tail := if WritesAll(payload, fate) then [] else Written(payload, fate);
  }

  lemma StepAligned(net: Net, send: Send, c: nat, acked: seq<Payload>, tail: seq<Byte>) returns (tail': seq<Byte>)
    requires Valid(net) && c < |SendStep(net, send).0.conns|
    requires c < |net.conns| ==> Aligned(net, c, acked, tail)
    requires c >= |net.conns| ==> acked == [] && tail == []
    ensures var (net', outcome) := SendStep(net, send);
            Aligned(net', c, acked + (if outcome == Sent(c) then [send.payload] else []), tail')
  {
    var (net', outcome) := SendStep(net, send);
    tail' := tail;
    assert acked + [] == acked;
    if outcome.Sent? || outcome.WriteFailed? {
      var used := if ShouldDial(net, send.destination) then |net.conns| else net.current.value.conn;
      if c == used {
        assert tail == [] && Frames(acked) + [] == Frames(acked);
        tail' := WriteAligned(acked, send.payload, send.fate);
        assert net'.conns[c].wire == Frames(acked) + Written(send.payload, send.fate);
        assert Frames(acked + [send.payload]) + [] == Frames(acked + [send.payload]);
      }
    }
  }

  lemma {:induction false} RunAligned(sends: seq<Send>, c: nat) returns (tail: seq<Byte>)
    requires c < |Run(sends).conns|
    ensures Aligned(Run(sends), c, Acked(sends, c), tail)
    decreases |sends|
  {
    var before := sends[..|sends| - 1];
    tail := [];
    if c < |Run(before).conns| {
      tail := RunAligned(before, c);
    } else {
      AckedNothingYet(before, c);
    }
    tail := StepAligned(Run(before), sends[|sends| - 1], c, Acked(before, c), tail);
  }

  /** Over any run of sends, with failed dials, failed writes and changing
      destinations, a peer reading a connection recovers exactly the datagrams
      whose send returned Ok on it, in order. */
  lemma PeerRecoversAcked(sends: seq<Send>, c: nat)
    requires c < |Run(sends).conns|
    ensures Delivered(Run(sends).conns[c].wire) == Acked(sends, c)
  {
    var tail := RunAligned(sends, c);
    FramesDeliver(Acked(sends, c), tail);
  }

  /** If the connection breaks after any number of its bytes, the peer still gets
      a prefix of them: no datagram is corrupted, reordered or made up. */
  lemma BrokenConnectionDeliversPrefix(sends: seq<Send>, c: nat, received: nat) returns (whole: nat)
    requires c < |Run(sends).conns| && received <= |Run(sends).conns[c].wire|
    ensures whole <= |Acked(sends, c)|
    ensures Delivered(Run(sends).conns[c].wire[..received]) == Acked(sends, c)[..whole]
  {
    var tail := RunAligned(sends, c);
    var acked := Acked(sends, c);
    var wire := Run(sends).conns[c].wire;
    if received <= |Frames(acked)| {
      whole := TruncationDeliversWholeFrames(acked, received);
      assert wire[..received] == Frames(acked)[..received];
    } else {
      var part := tail[..received - |Frames(acked)|];
      ShorterIsTruncated(tail, |part|);
      FramesDeliver(acked, part);
      assert wire[..received] == Frames(acked) + part;
      whole := |acked|;
      assert acked[..whole] == acked;
    }
  }

  /** Every acknowledged datagram went to a connection dialled for its own
      destination. */
  lemma AckedReachesDestination(sends: seq<Send>)
    requires sends != [] && LastOutcome(sends).Sent?
    ensures var c := LastOutcome(sends).conn;
            && c < |Run(sends).conns|
            && Run(sends).conns[c].destination == sends[|sends| - 1].destination
            && Acked(sends, c) == Acked(sends[..|sends| - 1], c) + [sends[|sends| - 1].payload]
  {
    StepValid(Run(sends[..|sends| - 1]), sends[|sends| - 1]);
  }
}
