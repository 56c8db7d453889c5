/** The key derivation loop of the request signer against section 2.3 of RFC 5869. */
module Hkdf {
  type Byte = x: int | 0 <= x < 256 witness 0
  type Bytes = seq<Byte>

  /** A keyed hash: key and message to digest. */
  type Hmac = (Bytes, Bytes) -> Bytes

  const HASH_LEN := 32

  ghost predicate HasHashLength(hmac: Hmac) {
    forall key, message :: |hmac(key, message)| == HASH_LEN
  }

  // ------------------------------------------------------------------
  // The standard
  // ------------------------------------------------------------------

  /** T(i) of the standard, whose last octet is the number `i` itself: defined for
      the first 255 blocks, T(0) being empty. */
  function T(hmac: Hmac, prk: Bytes, info: Bytes, i: nat): Bytes
    requires i <= 255
  {
    if i == 0 then [] else hmac(prk, T(hmac, prk, info, i - 1) + info + [i])
  }

  /** T(1) | T(2) | ... | T(n). */
  function Stream(hmac: Hmac, prk: Bytes, info: Bytes, n: nat): Bytes
    requires n <= 255
  {
    if n == 0 then [] else Stream(hmac, prk, info, n - 1) + T(hmac, prk, info, n)
  }

  /** The first blocks as the standard writes them out. */
  lemma FirstBlocks(hmac: Hmac, prk: Bytes, info: Bytes)
    ensures T(hmac, prk, info, 1) == hmac(prk, info + [1])
    ensures T(hmac, prk, info, 2) == hmac(prk, T(hmac, prk, info, 1) + info + [2])
    ensures T(hmac, prk, info, 255) == hmac(prk, T(hmac, prk, info, 254) + info + [255])
    ensures Stream(hmac, prk, info, 2) == T(hmac, prk, info, 1) + T(hmac, prk, info, 2)
  {
    assert [] + info == info;
    assert Stream(hmac, prk, info, 1) == T(hmac, prk, info, 1);
  }

  lemma {:induction false} StreamLength(hmac: Hmac, prk: Bytes, info: Bytes, n: nat)
    requires HasHashLength(hmac) && n <= 255
    ensures |Stream(hmac, prk, info, n)| == 32 * n
  {
    if n > 0 {
      StreamLength(hmac, prk, info, n - 1);
    }
  }

  // ------------------------------------------------------------------
  // The loop
  // ------------------------------------------------------------------

  /** The blocks as the loop computes them for any length: the counter is one octet
      and wraps. */
  function Block(hmac: Hmac, prk: Bytes, info: Bytes, i: nat): Bytes {
    if i == 0 then [] else hmac(prk, Block(hmac, prk, info, i - 1) + info + [i % 256])
  }

  function Blocks(hmac: Hmac, prk: Bytes, info: Bytes, n: nat): Bytes {
    if n == 0 then [] else Blocks(hmac, prk, info, n - 1) + Block(hmac, prk, info, n)
  }

  /** Up to 255 blocks the wrapping counter is the standard's. */
  lemma {:induction false} BlocksAreStandard(hmac: Hmac, prk: Bytes, info: Bytes, n: nat)
    requires n <= 255
    ensures Block(hmac, prk, info, n) == T(hmac, prk, info, n)
    ensures Blocks(hmac, prk, info, n) == Stream(hmac, prk, info, n)
  {
    if n > 0 {
      BlocksAreStandard(hmac, prk, info, n - 1);
    }
  }

  lemma {:induction false} BlocksLength(hmac: Hmac, prk: Bytes, info: Bytes, n: nat)
    requires HasHashLength(hmac)
    ensures |Blocks(hmac, prk, info, n)| == HASH_LEN * n
  {
    if n > 0 {
      BlocksLength(hmac, prk, info, n - 1);
    }
  }

  /** More blocks only lengthen the stream. */
  lemma {:induction false} BlocksExtend(hmac: Hmac, prk: Bytes, info: Bytes, m: nat, n: nat)
    requires m <= n
    ensures Blocks(hmac, prk, info, m) <= Blocks(hmac, prk, info, n)
  {
    if m < n {
      BlocksExtend(hmac, prk, info, m, n - 1);
    }
  }

  /** The smallest number of blocks that holds `length` octets. */
  function BlocksFor(length: nat): nat {
    (length + HASH_LEN - 1) / HASH_LEN
  }

  lemma NextBlock(hmac: Hmac, prk: Bytes, info: Bytes, n: nat)
    requires HasHashLength(hmac)
    ensures Block(hmac, prk, info, n + 1) == hmac(prk, Block(hmac, prk, info, n) + info + [(n + 1) % 256])
    ensures Blocks(hmac, prk, info, n + 1) == Blocks(hmac, prk, info, n) + Block(hmac, prk, info, n + 1)
    ensures |Block(hmac, prk, info, n + 1)| == HASH_LEN
    ensures ((n + 1) % 256 + 1) % 256 == (n + 2) % 256
  {
  }

  lemma BlocksForLength(n: nat, length: nat)
    requires HASH_LEN * n >= length && (n == 0 || HASH_LEN * (n - 1) < length)
    ensures n == BlocksFor(length)
  {
  }

  /** What the first `length` octets of the loop's blocks are: within the standard's
      limit they are its output; beyond it, where the standard allows none, the
      counter has wrapped and the first 255 blocks still agree. */
  lemma Truncated(hmac: Hmac, prk: Bytes, info: Bytes, length: nat, okm: Bytes)
    requires HasHashLength(hmac)
    requires |okm| == length && okm <= Blocks(hmac, prk, info, BlocksFor(length))
    ensures length <= 255 * HASH_LEN ==>
              BlocksFor(length) <= 255 && okm <= Stream(hmac, prk, info, BlocksFor(length))
    ensures length > 255 * HASH_LEN ==> Stream(hmac, prk, info, 255) <= okm
  {
    if length <= 255 * HASH_LEN {
      BlocksAreStandard(hmac, prk, info, BlocksFor(length));
    } else {
      BlocksAreStandard(hmac, prk, info, 255);
      StreamLength(hmac, prk, info, 255);
      BlocksExtend(hmac, prk, info, 255, BlocksFor(length));
      var all := Blocks(hmac, prk, info, BlocksFor(length));
      assert okm == all[..length] && Stream(hmac, prk, info, 255) == all[..255 * HASH_LEN];
    }
  }

  /** `hkdf_sha256`: the result is the first `length` octets of T(1) | T(2) | ... of
      the standard, for every length the standard allows. */
  method HkdfSha256(hmac: Hmac, ikm: Bytes, salt: Bytes, info: Bytes, length: nat) returns (okm: Bytes)
    requires HasHashLength(hmac)
    ensures |okm| == length
    ensures length <= 255 * HASH_LEN ==>
              BlocksFor(length) <= 255 && okm <= Stream(hmac, hmac(salt, ikm), info, BlocksFor(length))
    ensures length > 255 * HASH_LEN ==> Stream(hmac, hmac(salt, ikm), info, 255) <= okm
    ensures okm <= Blocks(hmac, hmac(salt, ikm), info, BlocksFor(length))
  {
    var prk := hmac(salt, ikm);
    okm := [];
    var previous: Bytes := [];
    var counter: Byte := 1;
    ghost var n := 0;
    while |okm| < length
      invariant okm == Blocks(hmac, prk, info, n) && |okm| == HASH_LEN * n
      invariant previous == Block(hmac, prk, info, n)
      invariant counter == (n + 1) % 256
      invariant n == 0 || HASH_LEN * (n - 1) < length
      decreases length - |okm|
    {
      NextBlock(hmac, prk, info, n);
      previous := hmac(prk, previous + info + [counter]);
      okm := okm + previous;
      counter := (counter + 1) % 256;
      n := n + 1;
    }
    BlocksForLength(n, length);
    okm := okm[..length];
    Truncated(hmac, prk, info, length, okm);
  }

  /** Key derivation is consistent in the length: a shorter key is the front of a
      longer one. */
  lemma ShorterIsPrefix(hmac: Hmac, prk: Bytes, info: Bytes, short: Bytes, long: Bytes)
    requires HasHashLength(hmac) && |short| <= |long|
    requires short <= Blocks(hmac, prk, info, BlocksFor(|short|)) && long <= Blocks(hmac, prk, info, BlocksFor(|long|))
    ensures short <= long
  {
    BlocksExtend(hmac, prk, info, BlocksFor(|short|), BlocksFor(|long|));
    var all := Blocks(hmac, prk, info, BlocksFor(|long|));
    assert short == all[..|short|] && long == all[..|long|];
  }
}
