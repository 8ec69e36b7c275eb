/** Machine words: 64-bit wrap-around, the signed reading of a word, and the bitwise mask
    that turns a ticket into a cell index. */
module Words {

  const TWO_63: int := 0x8000_0000_0000_0000
  const TWO_64: int := 0x1_0000_0000_0000_0000

  /** Counters either count without bound (tickets) or wrap at 64 bits (the code). */
  datatype Width = Unbounded | Bits64

  function Norm(width: Width, x: nat): nat {
    if width.Unbounded? then x else x % TWO_64
  }

  /** The two's-complement reading of an integer's low 64 bits. */
  function AsInt64(x: int): int {
    var r := x % TWO_64;
    if r < TWO_63 then r else r - TWO_64
  }

  /** `int64(a) - int64(b)`, with the wrap-around of the subtraction itself. */
  function Dif(width: Width, a: int, b: int): int {
    if width.Unbounded? then a - b else AsInt64(AsInt64(a) - AsInt64(b))
  }

  /** Two integers a whole number of words apart read the same. */
  lemma AsInt64Laps(x: int, laps: int)
    ensures AsInt64(x + TWO_64 * laps) == AsInt64(x)
  {
    assert (x + TWO_64 * laps) % TWO_64 == x % TWO_64;
  }

  function Laps(x: int): (n: int)
    ensures AsInt64(x) == x - TWO_64 * n
  {
    if x % TWO_64 < TWO_63 then x / TWO_64 else x / TWO_64 + 1
  }

  /** Sums of signed words wrap as the sums themselves do. */
  lemma AsInt64Sum(x: int, y: int)
    ensures AsInt64(AsInt64(x) + AsInt64(y)) == AsInt64(AsInt64(x) + y) == AsInt64(x + y)
  {
    AsInt64Laps(x + y, -Laps(x) - Laps(y));
    AsInt64Laps(x + y, -Laps(x));
  }

  lemma AsInt64Dif(x: int, y: int)
    ensures AsInt64(AsInt64(x) - AsInt64(y)) == AsInt64(x - y)
  {
    AsInt64Laps(x - y, Laps(y) - Laps(x));
  }

  lemma AsInt64Of(x: nat)
    ensures AsInt64(x % TWO_64) == AsInt64(x)
  {
  }

  /** The signed difference of two wrapped counters is the true difference exactly when the
      true difference fits 64 signed bits. */
  lemma WrappedDifference(a: nat, b: nat)
    ensures Dif(Bits64, Norm(Bits64, a), Norm(Bits64, b)) == a - b <==> -TWO_63 <= a - b < TWO_63
  {
    AsInt64Of(a);
    AsInt64Of(b);
    AsInt64Dif(a, b);
  }

  function Pow2(k: nat): nat
    ensures Pow2(k) >= 1
  {
    if k == 0 then 1 else 2 * Pow2(k - 1)
  }

  /** Bitwise AND, bit by bit. */
  function BitAnd(a: nat, b: nat): (r: nat)
    ensures r <= a && r <= b
  {
    if a == 0 || b == 0 then 0
    else 2 * BitAnd(a / 2, b / 2) + (if a % 2 == 1 && b % 2 == 1 then 1 else 0)
  }

  lemma {:induction false} AndIdempotent(a: nat)
    ensures BitAnd(a, a) == a
  {
    if a > 0 { AndIdempotent(a / 2); }
  }

  /** `n & (n-1)` clears the lowest set bit, so it is zero exactly on powers of two. */
  lemma {:induction false} PowerOfTwoTest(n: nat)
    requires n >= 1
    ensures BitAnd(n, n - 1) == 0 <==> exists k: nat :: n == Pow2(k)
  {
    if n == 1 {
      assert n == Pow2(0);
    } else if n % 2 == 1 {
      AndIdempotent(n / 2);
      assert (n - 1) / 2 == n / 2;
      assert BitAnd(n, n - 1) == 2 * (n / 2);
      forall k: nat ensures n != Pow2(k) { if k > 0 { assert Pow2(k) == 2 * Pow2(k - 1); } }
    } else {
      PowerOfTwoTest(n / 2);
      assert (n - 1) / 2 == n / 2 - 1;
      assert BitAnd(n, n - 1) == 2 * BitAnd(n / 2, n / 2 - 1);
      if BitAnd(n, n - 1) == 0 {
        var k: nat :| n / 2 == Pow2(k);
        assert n == Pow2(k + 1);
      }
      forall k: nat | n == Pow2(k) ensures BitAnd(n, n - 1) == 0 {
        assert n / 2 == Pow2(k - 1);
      }
    }
  }

  lemma {:induction false} MaskSmall(p: nat, k: nat)
    requires p < Pow2(k)
    ensures BitAnd(p, Pow2(k) - 1) == p
  {
    if k > 0 && p > 0 { MaskSmall(p / 2, k - 1); }
  }

  /** Adding a higher power of two does not change the masked bits. */
  lemma {:induction false} MaskLap(p: nat, k: nat, j: nat)
    requires k <= j
    ensures BitAnd(p + Pow2(j), Pow2(k) - 1) == BitAnd(p, Pow2(k) - 1)
  {
    if k > 0 {
      MaskLap(p / 2, k - 1, j - 1);
      assert (p + Pow2(j)) / 2 == p / 2 + Pow2(j - 1);
    }
  }

  /** Two different tickets of one cell are at least a lap apart. */
  lemma {:induction false} MaskFar(p: nat, q: nat, k: nat)
    requires BitAnd(p, Pow2(k) - 1) == BitAnd(q, Pow2(k) - 1) && p < q
    ensures p + Pow2(k) <= q
  {
    if k > 0 {
      MaskParity(p, k);
      MaskParity(q, k);
      MaskFar(p / 2, q / 2, k - 1);
    }
  }

  lemma MaskParity(p: nat, k: nat)
    requires k > 0
    ensures BitAnd(p, Pow2(k) - 1) == 2 * BitAnd(p / 2, Pow2(k - 1) - 1) + p % 2
  {
    assert Pow2(k) - 1 == 2 * (Pow2(k - 1) - 1) + 1;
  }

  /** `pos & mask` is the ticket modulo the capacity. */
  lemma {:induction false} MaskIsModulo(p: nat, k: nat)
    ensures BitAnd(p, Pow2(k) - 1) == p % Pow2(k)
    decreases p
  {
    var c := Pow2(k);
    if p < c {
      MaskSmall(p, k);
      SmallModulo(p, c);
    } else {
      MaskIsModulo(p - c, k);
      MaskLap(p - c, k, k);
      ModuloLap(p - c, c);
    }
  }

  /** Wrapping a counter at 64 bits does not change the cell it selects. */
  lemma MaskAfterWrap(p: nat, k: nat)
    requires k <= 64
    ensures BitAnd(p % TWO_64, Pow2(k) - 1) == BitAnd(p, Pow2(k) - 1)
  {
    MaskAfterLaps(p % TWO_64, p / TWO_64, k);
  }

  lemma {:induction false} MaskAfterLaps(p: nat, laps: nat, k: nat)
    requires k <= 64
    ensures BitAnd(p + TWO_64 * laps, Pow2(k) - 1) == BitAnd(p, Pow2(k) - 1)
  {
    if laps > 0 {
      MaskAfterLaps(p, laps - 1, k);
      MaskLap(p + TWO_64 * (laps - 1), k, 64);
      Pow2Of64();
    }
  }

  lemma Pow2Of64()
    ensures Pow2(64) == TWO_64
  {
    Pow2Plus16(0);
    Pow2Plus16(16);
    Pow2Plus16(32);
    Pow2Plus16(48);
  }

  lemma Pow2Plus16(k: nat)
    ensures Pow2(k + 16) == 0x1_0000 * Pow2(k)
  {
    Pow2Plus4(k);
    Pow2Plus4(k + 4);
    Pow2Plus4(k + 8);
    Pow2Plus4(k + 12);
  }

  lemma Pow2Plus4(k: nat)
    ensures Pow2(k + 4) == 16 * Pow2(k)
  {
    assert Pow2(k + 2) == 4 * Pow2(k);
  }

  lemma SmallModulo(p: nat, c: nat)
    requires p < c
    ensures p % c == p
  {
  }

  lemma ModuloLap(p: nat, c: nat)
    requires c > 0
    ensures (p + c) % c == p % c
  {
    var q, r := p / c, p % c;
    assert c * (q + 1) == c * q + c;
    QuotientUnique(c, q + 1, r, (p + c) / c, (p + c) % c);
  }

  lemma QuotientUnique(m: nat, q: int, r: nat, q': int, r': nat)
    requires r < m && r' < m && m * q + r == m * q' + r'
    ensures q == q' && r == r'
  {
    var d := q - q';
    assert m * d == m * q - m * q';
  }
}
