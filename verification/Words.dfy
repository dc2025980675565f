/** The unsigned 64-bit arithmetic of the lock-free ring, beside the unbounded
    arithmetic it stands for. */
module Words {

  const TWO63: int := 0x8000_0000_0000_0000
  const TWO64: int := 0x1_0000_0000_0000_0000

  /** How tickets are added, compared and mapped to cells. */
  datatype Arith = Unbounded | Word64 {

    /** `a + b` on uint64. */
    function Add(a: nat, b: nat): nat {
      match this
      case Unbounded => a + b
      case Word64 => (a + b) % TWO64
    }

    /** `int64(a) - int64(b)`. */
    function Dif(a: nat, b: nat): int {
      match this
      case Unbounded => a - b
      case Word64 => Signed((Signed(a % TWO64) - Signed(b % TWO64)) % TWO64)
    }

    /** `pos & mask`, where the mask is `n - 1`. */
    function Index(pos: nat, n: nat): (i: nat)
      requires n > 0
      ensures i < n
    {
      match this
      case Unbounded => pos % n
      case Word64 => BitAnd(pos, n - 1)
    }
  }

  /** The two's-complement reading of a 64-bit word. */
  function Signed(w: int): int {
    if w < TWO63 then w else w - TWO64
  }

  /** Bitwise conjunction, one binary digit at a time. */
  function BitAnd(a: nat, b: nat): (r: nat)
    ensures r <= a && r <= b
  {
    if a == 0 || b == 0 then 0
    else 2 * BitAnd(a / 2, b / 2) + (if a % 2 == 1 && b % 2 == 1 then 1 else 0)
  }

  function Pow2(k: nat): (r: nat)
    ensures r > 0
  {
    if k == 0 then 1 else 2 * Pow2(k - 1)
  }

  ghost predicate IsPowerOfTwo(n: nat) {
    exists k: nat :: n == Pow2(k)
  }

  lemma HalfMod(p: nat, m: nat)
    requires m > 0
    ensures p % (2 * m) == 2 * ((p / 2) % m) + p % 2
  {
    var q, r := (p / 2) / m, (p / 2) % m;
    assert p / 2 == q * m + r;
    assert p == 2 * (p / 2) + p % 2;
    var low := 2 * r + p % 2;
    assert p == q * (2 * m) + low by {
      assert 2 * (q * m) == q * (2 * m);
    }
    assert 0 <= low < 2 * m;
    ModOf(p, 2 * m, q, low);
  }

  /** The remainder is the only one in range. */
  lemma ModOf(p: int, n: nat, q: int, r: int)
    requires n > 0 && p == q * n + r && 0 <= r < n
    ensures p % n == r
  {
    var q', r' := p / n, p % n;
    assert p == q' * n + r';
    assert (q - q') * n == r' - r;
    if q > q' {
      MulAtLeast(q - q', n);
    } else if q < q' {
      assert (q' - q) * n == r - r';
      MulAtLeast(q' - q, n);
    }
  }

  lemma MulAtLeast(a: int, n: nat)
    requires a >= 1
    ensures a * n >= n
  {
    assert a * n == (a - 1) * n + n;
    assert (a - 1) * n >= 0;
  }

  /** Masking with `2^k - 1` is the remainder modulo `2^k`. */
  lemma {:induction false} MaskIsRemainder(p: nat, k: nat)
    ensures BitAnd(p, Pow2(k) - 1) == p % Pow2(k)
    decreases k
  {
    if k > 0 {
      var m := Pow2(k - 1);
      HalfMod(p, m);
      MaskIsRemainder(p / 2, k - 1);
      BitAndOdd(p, m);
    }
  }

  lemma BitAndOdd(p: nat, m: nat)
    requires m > 0
    ensures BitAnd(p, 2 * m - 1) == 2 * BitAnd(p / 2, m - 1) + p % 2
  {
    var b := 2 * m - 1;
    assert b / 2 == m - 1 && b % 2 == 1;
  }

  /** The index of the i-th element of a circular buffer of size n that starts at `start`. */
  function Slot(start: nat, i: nat, n: nat): (k: nat)
    requires start < n && i <= n
    ensures k < n
  {
    if start + i < n then start + i else start + i - n
  }

  lemma SlotIsMod(start: nat, i: nat, n: nat)
    requires start < n && i <= n
    ensures (start + i) % n == Slot(start, i, n)
  {
    if start + i < n {
      ModOf(start + i, n, 0, start + i);
    } else {
      ModOf(start + i, n, 1, start + i - n);
    }
  }

  /** Two tickets of one cell are equal or at least a whole ring apart. */
  lemma SameCellGap(a: nat, b: nat, n: nat)
    requires n > 0 && a % n == b % n
    ensures a == b || a >= b + n || b >= a + n
  {
    var qa, qb := a / n, b / n;
    assert a - b == (qa - qb) * n;
    if qa > qb { MulAtLeast(qa - qb, n); }
    else if qa < qb {
      MulAtLeast(qb - qa, n);
      assert (qb - qa) * n == b - a;
    }
  }

  lemma NextRoundSameCell(a: nat, n: nat)
    requires n > 0
    ensures (a + n) % n == a % n
  {
    assert a + n == (a / n + 1) * n + a % n;
    ModOf(a + n, n, a / n + 1, a % n);
  }

  /** The signed 64-bit difference of two words less than 2^63 apart is their
      true difference, even when both are beyond the signed range. */
  lemma DifAgrees(a: nat, b: nat)
    requires a < TWO64 && b < TWO64
    requires -TWO63 < a - b < TWO63
    ensures Word64.Dif(a, b) == Unbounded.Dif(a, b)
  {
  }

  lemma {:induction false} Pow2Add(a: nat, b: nat)
    ensures Pow2(a + b) == Pow2(a) * Pow2(b)
  {
    if a > 0 { Pow2Add(a - 1, b); }
  }

  lemma Pow2Literals()
    ensures Pow2(31) == 0x8000_0000 && Pow2(32) == 0x1_0000_0000 && Pow2(63) == TWO63
  {
    assert Pow2(8) == 256;
    Pow2Add(8, 8);
    Pow2Add(16, 16);
    assert Pow2(32) == 2 * Pow2(31);
    Pow2Add(31, 32);
  }
}
