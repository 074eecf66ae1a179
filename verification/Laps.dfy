/**
 * Index arithmetic of the ring buffers: a cursor only ever grows, and a cell is
 * found by masking the cursor with `size - 1`.
 */
module Laps {

  function Pow2(k: nat): (p: nat)
    ensures p >= 1
  {
    if k == 0 then 1 else 2 * Pow2(k - 1)
  }

  /** Bitwise "and" of two natural numbers, bit by bit from the lowest one. */
  function And(x: nat, y: nat): nat {
    if x == 0 || y == 0 then 0
    else (if x % 2 == 1 && y % 2 == 1 then 1 else 0) + 2 * And(x / 2, y / 2)
  }

  /** What every constructor asserts of the size it is given. */
  predicate SizeAsserted(size: nat) {
    size != 0 && And(size, size - 1) == 0
  }

  ghost predicate PowerOfTwo(size: nat) {
    exists k: nat :: size == Pow2(k)
  }

  lemma {:induction false} AndSelf(x: nat)
    ensures And(x, x) == x
  {
    if x > 0 {
      AndSelf(x / 2);
    }
  }

  /** The constructors' assertion accepts exactly the powers of two. */
  lemma {:induction false} SizeAssertedIffPowerOfTwo(size: nat)
    ensures SizeAsserted(size) <==> PowerOfTwo(size)
  {
    if size == 0 {
    } else if size == 1 {
      assert size == Pow2(0);
    } else {
      var half := size / 2;
      SizeAssertedIffPowerOfTwo(half);
      if size % 2 == 1 {
        AndSelf(half);
        assert (size - 1) / 2 == half && And(size, size - 1) == 2 * half;
      } else {
        assert (size - 1) / 2 == half - 1 && (size - 1) % 2 == 1;
        assert And(size, size - 1) == 2 * And(half, half - 1);
        if PowerOfTwo(half) {
          var k: nat :| half == Pow2(k);
          assert size == Pow2(k + 1);
        }
        if PowerOfTwo(size) {
          var k: nat :| size == Pow2(k);
          assert k > 0 && half == Pow2(k - 1);
        }
      }
    }
  }

  lemma {:induction false} LapsApart(q: nat, q': nat, n: nat)
    requires q < q'
    ensures q * n + n <= q' * n
  {
    assert q' * n == (q' - 1) * n + n;
    if q + 1 < q' {
      LapsApart(q, q' - 1, n);
    }
  }

  /** Quotient and remainder are the only way to write `x` in laps of `n`. */
  lemma QuotientRemainder(x: nat, q: nat, r: nat, n: nat)
    requires r < n && x == q * n + r
    ensures x / n == q && x % n == r
  {
    UniqueSplit(q, r, x / n, x % n, n);
  }

  lemma UniqueSplit(q: nat, r: nat, q': nat, r': nat, n: nat)
    requires r < n && r' < n && q * n + r == q' * n + r'
    ensures q == q' && r == r'
  {
    if q > q' {
      LapsApart(q', q, n);
    } else if q < q' {
      LapsApart(q, q', n);
    }
  }

  lemma HalveModulo(x: nat, n: nat)
    requires n > 0
    ensures x % (2 * n) == 2 * ((x / 2) % n) + x % 2
  {
    var h := x / 2;
    var q, r := h / n, h % n;
    Rearrange(x, h, q, r, n);
    QuotientRemainder(x, q, 2 * r + x % 2, 2 * n);
  }

  lemma Rearrange(x: nat, h: nat, q: nat, r: nat, n: nat)
    requires x == 2 * h + x % 2 && h == q * n + r
    ensures x == q * (2 * n) + (2 * r + x % 2)
  {
    assert 2 * (q * n) == q * (2 * n);
  }

  /** Masking with `size - 1` is the remainder modulo `size`. */
  lemma {:induction false} MaskIsModulo(x: nat, k: nat)
    ensures And(x, Pow2(k) - 1) == x % Pow2(k)
  {
    if k == 0 {
      assert x % 1 == 0;
    } else {
      var n := Pow2(k - 1);
      MaskIsModulo(x / 2, k - 1);
      HalveModulo(x, n);
      assert (2 * n - 1) / 2 == n - 1 && (2 * n - 1) % 2 == 1;
    }
  }

  /** The same, for a size the constructors accept. */
  lemma MaskIndex(x: nat, size: nat)
    requires SizeAsserted(size)
    ensures And(x, size - 1) == Cell(x, size)
  {
    SizeAssertedIffPowerOfTwo(size);
    var k: nat :| size == Pow2(k);
    MaskIsModulo(x, k);
  }

  lemma {:induction false} Pow2Divides(j: nat, k: nat)
    requires j <= k
    ensures Pow2(k) == Pow2(k - j) * Pow2(j)
  {
    if j < k {
      Pow2Divides(j, k - 1);
      assert 2 * (Pow2(k - 1 - j) * Pow2(j)) == (2 * Pow2(k - 1 - j)) * Pow2(j);
    }
  }

  /** A 64-bit cursor that wraps around keeps pointing at the same cell. */
  lemma WrappedCursorSameCell(x: nat, size: nat)
    requires SizeAsserted(size) && size <= Pow2(64)
    ensures And(x % Pow2(64), size - 1) == And(x, size - 1)
  {
    SizeAssertedIffPowerOfTwo(size);
    var k: nat :| size == Pow2(k);
    if k > 64 {
      Pow2Grows(64, k);
    }
    Pow2Divides(k, 64);
    var w, n := Pow2(64), Pow2(k);
    MaskIndex(x, size);
    MaskIndex(x % w, size);
    ModuloMultiple(x, Pow2(64 - k), n);
  }

  lemma Regroup(q: nat, m: nat, n: nat, q': nat, r: nat)
    ensures q * (m * n) + (q' * n + r) == (q * m + q') * n + r
  {
    assert q * (m * n) == (q * m) * n;
    assert (q * m + q') * n == (q * m) * n + q' * n;
  }

  lemma Divided(x: nat, n: nat)
    requires n > 0
    ensures x == (x / n) * n + x % n
  {
  }

  lemma ModuloMultiple(x: nat, m: nat, n: nat)
    requires m > 0 && n > 0 && m * n > 0
    ensures (x % (m * n)) % n == x % n
  {
    var d := m * n;
    var q, r := x / d, x % d;
    Divided(x, d);
    Divided(r, n);
    Regroup(q, m, n, r / n, r % n);
    QuotientRemainder(x, q * m + r / n, r % n, n);
  }

  lemma {:induction false} Pow2Grows(j: nat, k: nat)
    requires j < k
    ensures Pow2(j) < Pow2(k)
  {
    if j + 1 < k {
      Pow2Grows(j, k - 1);
    }
  }

  /** The cell a position falls into; by `MaskIndex` the one masking finds. */
  function Cell(x: nat, n: nat): (c: nat)
    requires n > 0
    ensures c < n
  {
    x % n
  }

  lemma FirstCell(n: nat)
    requires n > 0
    ensures Cell(0, n) == 0
  {
  }

  /** Where position `b`, less than one lap after `a`, falls relative to `a`. */
  lemma LapOffset(a: nat, b: nat, n: nat)
    requires n > 0 && a <= b < a + n
    ensures Cell(b, n) == if Cell(a, n) + (b - a) < n then Cell(a, n) + (b - a) else Cell(a, n) + (b - a) - n
  {
    var q, r := a / n, Cell(a, n);
    assert a == q * n + r;
    if r + (b - a) < n {
      QuotientRemainder(b, q, r + (b - a), n);
    } else {
      assert (q + 1) * n == q * n + n;
      QuotientRemainder(b, q + 1, r + (b - a) - n, n);
    }
  }

  /** A whole lap further is the same cell again. */
  lemma NextLapSameCell(a: nat, n: nat)
    requires n > 0
    ensures Cell(a + n, n) == Cell(a, n)
  {
    var q, r := a / n, a % n;
    assert a + n == (q + 1) * n + r;
    QuotientRemainder(a + n, q + 1, r, n);
  }

  /** Positions less than one lap apart share a cell only if they are the same. */
  lemma SameCell(a: nat, b: nat, n: nat)
    requires n > 0 && a <= b < a + n
    ensures Cell(a, n) == Cell(b, n) <==> a == b
  {
    LapOffset(a, b, n);
  }

  /** The number of positions left in the lap of `x`, itself included. */
  function Padding(x: nat, n: nat): (p: nat)
    requires n > 0
    ensures 1 <= p <= n
  {
    n - Cell(x, n)
  }

  /** After its padding a position is at the start of a lap. */
  lemma PaddingEndsLap(x: nat, n: nat)
    requires n > 0
    ensures Cell(x + Padding(x, n), n) == 0
  {
    var q, r := x / n, Cell(x, n);
    assert x + Padding(x, n) == (q + 1) * n + 0;
    QuotientRemainder(x + Padding(x, n), q + 1, 0, n);
  }

  /**
   * Two runs of cells do not meet when the positions behind them are apart and
   * together span at most one lap.
   */
  lemma RunsApart(p: nat, len: nat, w: nat, wlen: nat, n: nat)
    requires n > 0 && p + len <= w && w + wlen <= p + n && len > 0 && wlen > 0
    requires Cell(p, n) + len <= n && Cell(w, n) + wlen <= n
    ensures Cell(p, n) + len <= Cell(w, n) || Cell(w, n) + wlen <= Cell(p, n)
  {
    LapOffset(p, w, n);
  }
}
