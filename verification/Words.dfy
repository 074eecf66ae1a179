/** Bytes, and the 32-bit length field kept in front of every message. */
module Words {
  type byte = b: int | 0 <= b < 256

  const U32_LIMIT: nat := 0x1_0000_0000

  /** The four bytes of `n` cut down to 32 bits, lowest first. */
  function U32Bytes(n: nat): (bs: seq<byte>)
    ensures |bs| == 4
  {
    [n % 256, n / 0x100 % 256, n / 0x1_0000 % 256, n / 0x100_0000 % 256]
  }

  function U32Value(bs: seq<byte>): nat
    requires |bs| == 4
  {
    var b0: nat, b1: nat, b2: nat, b3: nat := bs[0], bs[1], bs[2], bs[3];
    b0 + 0x100 * b1 + 0x1_0000 * b2 + 0x100_0000 * b3
  }

  /** The field gives back the number, truncated to 32 bits. */
  lemma U32RoundTrip(n: nat)
    ensures U32Value(U32Bytes(n)) == n % U32_LIMIT
  {
    assert n / 0x1_0000 == n / 0x100 / 0x100;
    assert n / 0x100_0000 == n / 0x1_0000 / 0x100;
    assert n / U32_LIMIT == n / 0x100_0000 / 0x100;
  }

  /** Stores `bs` at `at`, the way `memcpy` would; nothing if it does not fit. */
  function Put(buf: seq<byte>, at: nat, bs: seq<byte>): (r: seq<byte>)
    ensures |r| == |buf|
    ensures forall k :: 0 <= k < |buf| && !(at <= k < at + |bs|) ==> r[k] == buf[k]
    ensures at + |bs| <= |buf| ==> forall k :: 0 <= k < |bs| ==> r[at + k] == bs[k]
  {
    if at + |bs| <= |buf| then buf[..at] + bs + buf[at + |bs|..] else buf
  }

  lemma PutNothing(buf: seq<byte>, at: nat)
    ensures Put(buf, at, []) == buf
  {
  }

  /** Two stores next to each other are one store. */
  lemma PutPut(buf: seq<byte>, at: nat, a: seq<byte>, b: seq<byte>)
    requires at + |a| + |b| <= |buf|
    ensures Put(Put(buf, at, a), at + |a|, b) == Put(buf, at, a + b)
  {
    var x, y := Put(Put(buf, at, a), at + |a|, b), Put(buf, at, a + b);
    forall i | 0 <= i < |buf|
      ensures x[i] == y[i]
    {
    }
  }

  /** The `n` bytes at `at`; zeros if they are not all inside the buffer. */
  function Get(buf: seq<byte>, at: nat, n: nat): (r: seq<byte>)
    ensures |r| == n
  {
    if at + n <= |buf| then buf[at..at + n] else seq(n, _ => 0)
  }
}
