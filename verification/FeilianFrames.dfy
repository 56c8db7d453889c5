/** The FeiLian TCP framing: each datagram travels as a 32-bit little-endian
    length followed by its bytes, and the reader takes frames off the stream
    until it ends, a length is out of range or the consumer is gone. */
module FeilianFrames {
  import opened Wrappers

  const MAX_FRAME: nat := 65_535

  type Byte = b: nat | b < 256

  type Payload = seq<Byte>

  /** The sizes a frame may carry. */
  predicate Sendable(payload: Payload) {
    0 < |payload| <= MAX_FRAME
  }

  function Pow256(k: nat): nat {
    if k == 0 then 1 else 256 * Pow256(k - 1)
  }

  function ToLe(n: nat, k: nat): (bytes: seq<Byte>)
    requires n < Pow256(k)
    ensures |bytes| == k && FromLe(bytes) == n
  {
    if k == 0 then [] else [n % 256] + ToLe(n / 256, k - 1)
  }

  function FromLe(bytes: seq<Byte>): nat {
    if bytes == [] then 0
    else
      var low: nat := bytes[0];
      low + 256 * FromLe(bytes[1..])
  }

  /** The length field of a frame: a `u32` in little-endian order. */
  function ToLe32(n: nat): (bytes: seq<Byte>)
    requires n <= MAX_FRAME
    ensures |bytes| == 4 && FromLe(bytes) == n
  {
    assert Pow256(1) == 256 && Pow256(2) == 65_536 && Pow256(3) == 16_777_216 && Pow256(4) == 0x1_0000_0000;
    ToLe(n, 4)
  }

  /** The header, octet by octet: the low one first. */
  lemma HeaderBytes(n: nat)
    requires n <= 65_535
    ensures ToLe32(n) == [n % 256, n / 256, 0, 0]
  {
    assert ToLe(n / 256, 3) == [n / 256 % 256] + ToLe(n / 256 / 256, 2);
    assert n / 256 / 256 == 0 && ToLe(0, 2) == [0] + ToLe(0, 1) && ToLe(0, 1) == [0] + ToLe(0, 0);
  }

  function LowFirst(a: nat, b: nat, c: nat, d: nat): nat {
    a + 0x100 * b + 0x1_0000 * c + 0x100_0000 * d
  }

  lemma HeaderValue(a: Byte, b: Byte, c: Byte, d: Byte)
    ensures FromLe([a, b, c, d]) == LowFirst(a, b, c, d)
  {
    assert [d][1..] == [] && FromLe([d]) == d;
    assert [c, d][1..] == [d] && FromLe([c, d]) == c + 256 * FromLe([d]);
    assert [b, c, d][1..] == [c, d] && FromLe([b, c, d]) == b + 256 * FromLe([c, d]);
    assert [a, b, c, d][1..] == [b, c, d] && FromLe([a, b, c, d]) == a + 256 * FromLe([b, c, d]);
  }

  /** Frames carry one to 65535 octets. */
  lemma SendableIff(payload: Payload)
    ensures Sendable(payload) <==> 1 <= |payload| <= 65_535
  {
  }

  function Frame(payload: Payload): seq<Byte>
    requires Sendable(payload)
  {
    ToLe32(|payload|) + payload
  }

  ghost predicate AllSendable(payloads: seq<Payload>) {
    forall p :: p in payloads ==> Sendable(p)
  }

  ghost function Frames(payloads: seq<Payload>): seq<Byte>
    requires AllSendable(payloads)
  {
    if payloads == [] then [] else Frame(payloads[0]) + Frames(payloads[1..])
  }

  /** The datagrams a reader hands on from the bytes of a connection. */
  ghost function Delivered(bytes: seq<Byte>): seq<Payload> {
    if |bytes| < 4 then []
    else
      var n := FromLe(bytes[..4]);
      if n == 0 || n > MAX_FRAME || |bytes| < 4 + n then []
      else [bytes[4..4 + n]] + Delivered(bytes[4 + n..])
  }

  // ------------------------------------------------------------------
  // The reader
  // ------------------------------------------------------------------

  ghost function Flat(chunks: seq<seq<Byte>>): seq<Byte> {
    if chunks == [] then [] else chunks[0] + Flat(chunks[1..])
  }

  /** The read half of a connection: bytes arrive in chunks of any size. */
  class ByteStream {
    var chunks: seq<seq<Byte>>

    constructor (chunks: seq<seq<Byte>>)
      ensures this.chunks == chunks
    {
      this.chunks := chunks;
    }

    /** `read_exact`: gather `n` bytes over as many chunks as it takes. */
    method ReadExact(n: nat) returns (read: Option<seq<Byte>>)
      modifies this
      ensures read.Some? <==> n <= |old(Flat(chunks))|
      ensures read.Some? ==> read.value == old(Flat(chunks))[..n] && Flat(chunks) == old(Flat(chunks))[n..]
    {
      var buffer: seq<Byte> := [];
      while |buffer| < n && chunks != []
        invariant |buffer| <= n
        invariant buffer + Flat(chunks) == old(Flat(chunks))
        decreases |chunks|, n - |buffer|
      {
        var chunk := chunks[0];
        var rest := chunks[1..];
        var missing := n - |buffer|;
        if |chunk| <= missing {
          buffer := buffer + chunk;
          chunks := rest;
        } else {
          buffer := buffer + chunk[..missing];
          chunks := [chunk[missing..]] + rest;
          assert chunks[1..] == rest && chunk == chunk[..missing] + chunk[missing..];
        }
      }
      read := if |buffer| == n then Some(buffer) else None;
    }
  }

  /** The datagrams that reach a consumer who takes only so many. */
  ghost function Taken(payloads: seq<Payload>, accepts: Option<nat>): (taken: seq<Payload>)
    ensures taken <= payloads
    ensures accepts.None? ==> |taken| == |payloads|
    ensures accepts.Some? ==> |taken| == if accepts.value < |payloads| then accepts.value else |payloads|
  {
    if accepts.Some? && accepts.value < |payloads| then payloads[..accepts.value] else payloads
  }

  /** `read_feilian_tcp_frames`: what is handed on depends on the bytes of the
      stream alone, not on how they were cut into chunks. */
  method ReadFrames(stream: ByteStream, accepts: Option<nat>) returns (handed: seq<Payload>)
    modifies stream
    ensures handed == Taken(Delivered(old(Flat(stream.chunks))), accepts)
  {
    handed := [];
    ghost var all := Flat(stream.chunks);
    ghost var rest := all;
    while true
      invariant Flat(stream.chunks) == rest
      invariant handed + Delivered(rest) == Delivered(all)
      invariant accepts.Some? ==> |handed| <= accepts.value
      decreases |rest|
    {
      var header := stream.ReadExact(4);
      if header.None? {
        return;
      }
      var n := FromLe(header.value);
      if n == 0 || n > MAX_FRAME {
        return;
      }
      var payload := stream.ReadExact(n);
      if payload.None? {
        return;
      }
      DeliveredHead(rest, n);
      Associates(handed, [payload.value], Delivered(rest[4..][n..]));
      rest := rest[4..][n..];
      if accepts == Some(|handed|) {
        assert handed == Delivered(all)[..|handed|];
        return;
      }
      handed := handed + [payload.value];
    }
  }

  lemma DeliveredHead(bytes: seq<Byte>, n: nat)
    requires |bytes| >= 4 && n == FromLe(bytes[..4]) && 0 < n <= MAX_FRAME && n <= |bytes[4..]|
    ensures Delivered(bytes) == [bytes[4..][..n]] + Delivered(bytes[4..][n..])
  {
    assert bytes[4..][..n] == bytes[4..4 + n] && bytes[4..][n..] == bytes[4 + n..];
  }

  /** A header that is no length of a frame ends the reading, and so does a frame whose
      octets do not all come; whatever follows, nothing more is delivered. */
  lemma ReadingEnds(bytes: seq<Byte>)
    ensures |bytes| < 4 ==> Delivered(bytes) == []
    ensures |bytes| >= 4 ==>
              var n := LowFirst(bytes[0], bytes[1], bytes[2], bytes[3]);
              && (n == 0 || n > 65_535 || |bytes| - 4 < n ==> Delivered(bytes) == [])
              && (0 < n <= 65_535 && |bytes| - 4 >= n ==>
                    Delivered(bytes) == [bytes[4..4 + n]] + Delivered(bytes[4 + n..]))
  {
    if |bytes| >= 4 {
      HeaderValue(bytes[0], bytes[1], bytes[2], bytes[3]);
      assert bytes[..4] == [bytes[0], bytes[1], bytes[2], bytes[3]];
    }
  }

  // ------------------------------------------------------------------
  // Printer and parser
  // ------------------------------------------------------------------

  /** Bytes that begin a frame without completing it. */
  ghost predicate Truncated(tail: seq<Byte>) {
    exists p: Payload :: Sendable(p) && |tail| < |Frame(p)| && tail == Frame(p)[..|tail|]
  }

  lemma NothingIsTruncated()
    ensures Truncated([])
  {
    var p: Payload := [0];
    assert Sendable(p) && [] == Frame(p)[..0];
  }

  lemma DeliveredFrame(p: Payload, rest: seq<Byte>)
    requires Sendable(p)
    ensures Delivered(Frame(p) + rest) == [p] + Delivered(rest)
  {
    var bytes := Frame(p) + rest;
    assert bytes[..4] == ToLe32(|p|);
    assert bytes[4..4 + |p|] == p && bytes[4 + |p|..] == rest;
  }

  lemma TruncatedDeliversNothing(tail: seq<Byte>)
    requires Truncated(tail)
    ensures Delivered(tail) == []
  {
    if |tail| >= 4 {
      var p: Payload :| Sendable(p) && |tail| < |Frame(p)| && tail == Frame(p)[..|tail|];
      assert tail[..4] == ToLe32(|p|);
    }
  }

  /** Whole frames and a truncated last one deliver exactly the whole frames. */
  lemma {:induction false} FramesDeliver(payloads: seq<Payload>, tail: seq<Byte>)
    requires AllSendable(payloads) && Truncated(tail)
    ensures Delivered(Frames(payloads) + tail) == payloads
  {
    if payloads == [] {
      TruncatedDeliversNothing(tail);
      assert Frames(payloads) + tail == tail;
    } else {
      FramesDeliver(payloads[1..], tail);
      OneMoreDelivered(payloads[0], payloads[1..], tail);
    }
  }

  lemma OneMoreDelivered(p: Payload, payloads: seq<Payload>, tail: seq<Byte>)
    requires Sendable(p) && AllSendable(payloads)
    requires Delivered(Frames(payloads) + tail) == payloads
    ensures Delivered(Frame(p) + Frames(payloads) + tail) == [p] + payloads
  {
    DeliveredFrame(p, Frames(payloads) + tail);
    Associates(Frame(p), Frames(payloads), tail);
  }

  /** A truncation cut shorter is one. */
  lemma ShorterIsTruncated(tail: seq<Byte>, n: nat)
    requires Truncated(tail) && n <= |tail|
    ensures Truncated(tail[..n])
  {
    var p: Payload :| Sendable(p) && |tail| < |Frame(p)| && tail == Frame(p)[..|tail|];
    assert tail[..n] == Frame(p)[..|tail[..n]|];
  }

  /** Decoding what was encoded gives it back. */
  lemma RoundTrip(payloads: seq<Payload>)
    requires AllSendable(payloads)
    ensures Delivered(Frames(payloads)) == payloads
  {
    NothingIsTruncated();
    FramesDeliver(payloads, []);
    assert Frames(payloads) + [] == Frames(payloads);
  }

  /** Cut the encoding anywhere: what is left is whole frames and a truncation. */
  lemma {:induction false} CutFrames(payloads: seq<Payload>, cut: nat) returns (whole: nat, tail: seq<Byte>)
    requires AllSendable(payloads) && cut <= |Frames(payloads)|
    ensures whole <= |payloads| && Truncated(tail)
    ensures Frames(payloads)[..cut] == Frames(payloads[..whole]) + tail
    ensures |Frames(payloads[..whole])| <= cut
    ensures whole < |payloads| ==> cut < |Frames(payloads[..whole + 1])|
  {
    if payloads == [] {
      NothingIsTruncated();
      whole, tail := 0, [];
    } else if cut < |Frame(payloads[0])| {
      whole, tail := 0, Frame(payloads[0])[..cut];
      CutFirst(payloads, cut);
    } else {
      var first := Frame(payloads[0]);
      whole, tail := CutFrames(payloads[1..], cut - |first|);
      PrependFrame(payloads, whole);
      if whole < |payloads| - 1 {
        PrependFrame(payloads, whole + 1);
      }
      CutRest(first, Frames(payloads[1..]), cut);
      Associates(first, Frames(payloads[1..][..whole]), tail);
      whole := whole + 1;
    }
  }

  lemma CutFirst(payloads: seq<Payload>, cut: nat)
    requires AllSendable(payloads) && payloads != [] && cut < |Frame(payloads[0])|
    ensures Truncated(Frame(payloads[0])[..cut])
    ensures cut <= |Frames(payloads)| && Frames(payloads)[..cut] == Frames(payloads[..0]) + Frame(payloads[0])[..cut]
    ensures Frames(payloads[..1]) == Frame(payloads[0])
  {
    var first := Frame(payloads[0]);
    assert payloads[0] in payloads && first[..cut] == first[..|first[..cut]|];
    assert payloads[..1][0] == payloads[0] && payloads[..1][1..] == [];
    CutWithin(first, Frames(payloads[1..]), cut);
  }

  lemma CutWithin(first: seq<Byte>, rest: seq<Byte>, cut: nat)
    requires cut <= |first|
    ensures (first + rest)[..cut] == [] + first[..cut]
  {
  }

  lemma CutRest(first: seq<Byte>, rest: seq<Byte>, cut: nat)
    requires |first| <= cut <= |first| + |rest|
    ensures (first + rest)[..cut] == first + rest[..cut - |first|]
  {
  }

  lemma PrependFrame(payloads: seq<Payload>, n: nat)
    requires AllSendable(payloads) && n < |payloads|
    ensures Frames(payloads[..n + 1]) == Frame(payloads[0]) + Frames(payloads[1..][..n])
  {
    assert payloads[..n + 1][1..] == payloads[1..][..n];
  }

  /** From every truncation of the stream the reader delivers exactly the frames
      wholly contained in it: the longest run of frames that fits. */
  lemma TruncationDeliversWholeFrames(payloads: seq<Payload>, cut: nat) returns (whole: nat)
    requires AllSendable(payloads) && cut <= |Frames(payloads)|
    ensures whole <= |payloads| && Delivered(Frames(payloads)[..cut]) == payloads[..whole]
    ensures |Frames(payloads[..whole])| <= cut
    ensures whole < |payloads| ==> cut < |Frames(payloads[..whole + 1])|
  {
    var tail;
    whole, tail := CutFrames(payloads, cut);
    FramesDeliver(payloads[..whole], tail);
  }

  lemma {:induction false} FramesAppend(payloads: seq<Payload>, last: Payload)
    requires AllSendable(payloads) && Sendable(last)
    ensures AllSendable(payloads + [last])
    ensures Frames(payloads + [last]) == Frames(payloads) + Frame(last)
  {
    var longer := payloads + [last];
    if payloads == [] {
      assert longer[1..] == [] && Frames(longer) == Frame(last);
    } else {
      FramesAppend(payloads[1..], last);
      assert longer[1..] == payloads[1..] + [last];
    }
  }
}
