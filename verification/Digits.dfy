/** Binary digits of a capped 64-bit value, most significant first. */
module Digits {
  import opened Decimal

  function Pow2(n: nat): (p: nat)
    ensures p >= 1
  {
    if n == 0 then 1 else 2 * Pow2(n - 1)
  }

  /** `u64::MAX.checked_shr(64 - n).unwrap_or(0)`: a shift by 64 overflows and gives 0. */
  function Cap(n: nat): (c: u64)
    requires n <= 64
  {
    if n == 0 then 0
    else
      DivIsLess(U64_MAX, Pow2(64 - n));
      U64_MAX / Pow2(64 - n)
  }

  function Min(a: int, b: int): int {
    if a < b then a else b
  }

  /** Bit `i` of `v`, counted from the least significant one. */
  function Bit(v: nat, i: nat): (b: nat)
    ensures b == 0 || b == 1
  {
    v / Pow2(i) % 2
  }

  function Bits(v: nat, n: nat): (bits: seq<nat>)
    ensures |bits| == n && Binary(bits)
  {
    seq(n, j requires 0 <= j < n => Bit(v, n - 1 - j))
  }

  predicate Binary(bits: seq<nat>) {
    forall k | 0 <= k < |bits| :: bits[k] == 0 || bits[k] == 1
  }

  /** The number written by binary digits, most significant first. */
  function Numeral(bits: seq<nat>): nat {
    if bits == [] then 0 else 2 * Numeral(bits[..|bits| - 1]) + bits[|bits| - 1]
  }

  predicate LexLess(a: seq<nat>, b: seq<nat>)
    requires |a| == |b|
  {
    a != [] && (a[0] < b[0] || (a[0] == b[0] && LexLess(a[1..], b[1..])))
  }

  // ---------------------------------------------------------------- arithmetic

  lemma MulAtLeast(q: nat, m: nat)
    requires m >= 1
    ensures q * m >= q
  {
  }

  lemma DivIsLess(a: nat, m: nat)
    requires m >= 1
    ensures 0 <= a / m <= a
  {
    MulAtLeast(a / m, m);
    assert a == a / m * m + a % m;
  }

  lemma DivUnique(a: nat, m: nat, q: nat, r: nat)
    requires m >= 1 && a == q * m + r && r < m
    ensures a / m == q && a % m == r
  {
    var d := a / m - q;
    assert d * m == r - a % m;
    assert d >= 1 ==> d * m >= m;
    assert d <= -1 ==> d * m <= 0 - m;
  }

  lemma HalfThenDiv(v: nat, p: nat)
    requires p >= 1
    ensures v / (2 * p) == v / 2 / p
    ensures v % (2 * p) == 2 * (v / 2 % p) + v % 2
  {
    var q, r := v / 2 / p, v / 2 % p;
    assert v / 2 == q * p + r;
    assert v == 2 * (q * p + r) + v % 2;
    assert 2 * (q * p) == q * (2 * p);
    DivUnique(v, 2 * p, q, 2 * r + v % 2);
  }

  lemma {:induction false} Pow2Sum(a: nat, b: nat)
    ensures Pow2(a + b) == Pow2(a) * Pow2(b)
  {
    if a == 0 {
    } else {
      Pow2Sum(a - 1, b);
      assert Pow2(a + b) == 2 * (Pow2(a - 1) * Pow2(b));
    }
  }

  lemma Pow2Plus4(n: nat)
    ensures Pow2(n + 4) == 16 * Pow2(n)
  {
    assert Pow2(n + 4) == 2 * Pow2(n + 3) == 4 * Pow2(n + 2) == 8 * Pow2(n + 1);
  }

  lemma Pow2Plus16(n: nat)
    ensures Pow2(n + 16) == 0x1_0000 * Pow2(n)
  {
    Pow2Plus4(n);
    Pow2Plus4(n + 4);
    Pow2Plus4(n + 8);
    Pow2Plus4(n + 12);
  }

  lemma Pow2At64(n: nat)
    requires n == 64
    ensures Pow2(n) == U64_MAX + 1
  {
    var zero := n - 64;
    Pow2Plus16(zero);
    Pow2Plus16(zero + 16);
    Pow2Plus16(zero + 32);
    Pow2Plus16(zero + 48);
    assert Pow2(zero) == 1;
  }

  lemma OneLessThanProduct(a: nat, p: nat, m: nat)
    requires p >= 1 && m >= 1 && a + 1 == p * m
    ensures a / m == p - 1
  {
    assert a == (p - 1) * m + (m - 1);
    DivUnique(a, m, p - 1, m - 1);
  }

  lemma CapIs(n: nat)
    requires n <= 64
    ensures Cap(n) == Pow2(n) - 1
  {
    if n > 0 {
      Pow2At64(n + (64 - n));
      Pow2Sum(n, 64 - n);
      OneLessThanProduct(U64_MAX, Pow2(n), Pow2(64 - n));
    }
  }

  // ---------------------------------------------------------------- digits

  lemma BitOfHalf(v: nat, i: nat)
    ensures Bit(v, 0) == v % 2
    ensures i >= 1 ==> Bit(v, i) == Bit(v / 2, i - 1)
  {
    assert Pow2(0) == 1 && v / 1 == v;
    if i >= 1 {
      HalfThenDiv(v, Pow2(i - 1));
    }
  }

  /** Dropping the last digit halves the value. */
  lemma BitsSnoc(v: nat, n: nat)
    requires n >= 1
    ensures Bits(v, n) == Bits(v / 2, n - 1) + [v % 2]
  {
    forall j | 0 <= j < n
      ensures Bits(v, n)[j] == (Bits(v / 2, n - 1) + [v % 2])[j]
    {
      BitOfHalf(v, n - 1 - j);
    }
  }

  lemma {:induction false} NumeralOfBits(v: nat, n: nat)
    ensures Numeral(Bits(v, n)) == v % Pow2(n)
  {
    if n > 0 {
      BitsSnoc(v, n);
      NumeralOfBits(v / 2, n - 1);
      HalfThenDiv(v, Pow2(n - 1));
    }
  }

  lemma {:induction false} NumeralBound(bits: seq<nat>)
    requires Binary(bits)
    ensures Numeral(bits) < Pow2(|bits|)
  {
    if bits != [] {
      NumeralBound(bits[..|bits| - 1]);
    }
  }

  lemma {:induction false} NumeralHead(bits: seq<nat>)
    requires bits != []
    ensures Numeral(bits) == bits[0] * Pow2(|bits| - 1) + Numeral(bits[1..])
  {
    if |bits| > 1 {
      var front := bits[..|bits| - 1];
      NumeralHead(front);
      assert front[1..] == bits[1..][..|bits| - 2];
      assert bits[0] * Pow2(|bits| - 1) == 2 * (bits[0] * Pow2(|bits| - 2));
    }
  }

  lemma HeadDecides(a: nat, b: nat, m: nat, x: nat, y: nat)
    requires a <= 1 && b <= 1 && x < m && y < m
    ensures a * m + x < b * m + y <==> a < b || (a == b && x < y)
  {
  }

  /** Comparing digit vectors of one width lexicographically compares the numbers. */
  lemma {:induction false} LexLessIff(a: seq<nat>, b: seq<nat>)
    requires |a| == |b| && Binary(a) && Binary(b)
    ensures LexLess(a, b) <==> Numeral(a) < Numeral(b)
  {
    if a != [] {
      NumeralHead(a);
      NumeralHead(b);
      NumeralBound(a[1..]);
      NumeralBound(b[1..]);
      LexLessIff(a[1..], b[1..]);
      HeadDecides(a[0], b[0], Pow2(|a| - 1), Numeral(a[1..]), Numeral(b[1..]));
    }
  }

  /** The digits of the capped value: what `attestation_indexes` returns for a price of `n` digits. */
  function CappedBits(v: u64, n: nat): (bits: seq<nat>)
    requires n <= 64
    ensures |bits| == n && Binary(bits)
  {
    Bits(Min(v, Cap(n)), n)
  }

  /** The digits are the numeral of the value capped at `2^n - 1`. */
  lemma CappedBitsNumeral(v: u64, n: nat)
    requires n <= 64
    ensures Numeral(CappedBits(v, n)) == Min(v, Pow2(n) - 1)
  {
    CapIs(n);
    var w := Min(v, Cap(n));
    NumeralOfBits(w, n);
    DivUnique(w, Pow2(n), 0, w);
  }

  lemma CappedBitsOrder(v: u64, w: u64, n: nat)
    requires n <= 64
    ensures LexLess(CappedBits(v, n), CappedBits(w, n)) <==> Min(v, Pow2(n) - 1) < Min(w, Pow2(n) - 1)
  {
    CappedBitsNumeral(v, n);
    CappedBitsNumeral(w, n);
    LexLessIff(CappedBits(v, n), CappedBits(w, n));
  }

  lemma {:induction false} Pow2Monotone(m: nat, n: nat)
    requires m <= n
    ensures Pow2(m) <= Pow2(n)
  {
    if m < n {
      Pow2Monotone(m, n - 1);
    }
  }

  lemma LastBits(v: nat, m: nat, n: nat)
    requires m <= n
    ensures Bits(v, n)[n - m..] == Bits(v, m)
  {
  }

  /** Two widths read the same value up to the smaller cap; below it the narrow digits end the wide ones. */
  lemma CappedBitsAtTwoWidths(v: u64, m: nat, n: nat)
    requires m <= n <= 64
    ensures Numeral(CappedBits(v, m)) == Min(Numeral(CappedBits(v, n)), Pow2(m) - 1)
    ensures v < Pow2(m) ==> CappedBits(v, n)[n - m..] == CappedBits(v, m)
  {
    Pow2Monotone(m, n);
    assert Numeral(CappedBits(v, m)) == Min(Numeral(CappedBits(v, n)), Pow2(m) - 1) by {
      CappedBitsNumeral(v, m);
      CappedBitsNumeral(v, n);
    }
    if v < Pow2(m) {
      assert Min(v, Cap(n)) == v == Min(v, Cap(m)) by {
        CapIs(m);
        CapIs(n);
      }
      LastBits(v, m, n);
    }
  }

  /** Every digit can be 0 and 1. */
  lemma SomeBitIs(n: nat, i: nat, bit: nat) returns (v: u64)
    requires i < n <= 64 && bit <= 1
    ensures CappedBits(v, n)[i] == bit
  {
    var at := n - 1 - i;
    CapIs(n);
    Pow2Monotone(at + 1, n);
    assert Pow2(at + 1) == 2 * Pow2(at);
    v := if bit == 0 then 0 else Pow2(at);
    assert Min(v, Cap(n)) == v;
    DivUnique(v, Pow2(at), bit, 0);
    assert Bits(v, n)[i] == Bit(v, at);
  }
}
