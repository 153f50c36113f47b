/** The attestation equations over the group of secp256k1. A point stands for its discrete
    logarithm; key pairs start with a point that already is the secret times the generator. */
module Secp256k1 {
  import opened Digits

  /** The order of the group. */
  const N: int := 0xFFFFFFFFFFFFFFFFFFFFFFFFFFFFFFFEBAAEDCE6AF48A03BBFD25E8CD0364141

  type Scalar = s: int | 0 <= s < N

  type NonZeroScalar = s: int | 0 < s < N witness 1

  datatype Point = Point(log: Scalar)

  datatype KeyPair = KeyPair(secret: NonZeroScalar, point: Point)

  const G: Point := Point(1)

  function Reduce(a: nat): Scalar {
    a % N
  }

  function Add(p: Point, q: Point): Point {
    Point(Reduce(p.log + q.log))
  }

  function Mul(k: nat, p: Point): Point {
    Point(Reduce(k * p.log))
  }

  function KeyPairFrom(secret: NonZeroScalar): KeyPair {
    KeyPair(secret, Mul(secret, G))
  }

  function RevealAttestScalar(signing: KeyPair, nonce: KeyPair, index: nat): Scalar {
    Reduce((index + 1) * nonce.secret + signing.secret)
  }

  predicate VerifyAttestScalar(key: Point, nonce: Point, index: nat, s: Scalar) {
    Mul(s, G) == Add(Mul(index + 1, nonce), key)
  }

  /** The point a client expects at position `i`: the key plus `i + 1` nonces. */
  function Anticipated(key: Point, nonce: Point, i: nat): Point {
    Add(key, Mul(i + 1, nonce))
  }

  /** Points for every outcome of a nonce, computed as a running sum. */
  method AnticipateAttestations(key: Point, nonce: Point, nOutcomes: nat) returns (points: seq<Point>)
    ensures |points| == nOutcomes
    ensures forall i | 0 <= i < nOutcomes :: points[i] == Anticipated(key, nonce, i)
  {
    points := [];
    var c := key;
    ReduceSmall(key.log);
    for i := 0 to nOutcomes
      invariant |points| == i
      invariant c == Add(key, Mul(i, nonce))
      invariant forall j | 0 <= j < i :: points[j] == Anticipated(key, nonce, j)
    {
      NextPoint(key, nonce, i);
      c := Add(c, nonce);
      points := points + [c];
    }
  }

  // ---------------------------------------------------------------- modular arithmetic

  lemma ModSmall(a: nat, m: nat)
    requires a < m
    ensures a % m == a
  {
    DivUnique(a, m, 0, a);
  }

  lemma ModOfSum(a: nat, b: nat, m: nat)
    requires m >= 1
    ensures (a % m + b) % m == (a + b) % m
  {
    var q, r := (a % m + b) / m, (a % m + b) % m;
    assert a + b == a / m * m + (q * m + r);
    assert a / m * m + q * m == (a / m + q) * m;
    DivUnique(a + b, m, a / m + q, r);
  }

  lemma ReduceSmall(a: Scalar)
    ensures Reduce(a) == a
  {
    ModSmall(a, N);
  }

  lemma ReduceOfSum(a: nat, b: nat)
    ensures Reduce(Reduce(a) + b) == Reduce(a + b) == Reduce(a + Reduce(b))
  {
    ModOfSum(a, b, N);
    ModOfSum(b, a, N);
  }

  /** One more nonce on the running sum. */
  lemma NextPoint(key: Point, nonce: Point, i: nat)
    ensures Add(Add(key, Mul(i, nonce)), nonce) == Add(key, Mul(i + 1, nonce))
  {
    hide Reduce;
    var x, r := key.log, nonce.log;
    ReduceOfSum(x, i * r);
    ReduceOfSum(x + i * r, r);
    ReduceOfSum(x, (i + 1) * r);
    assert (i + 1) * r == i * r + r;
  }

  /** What is multiplied with the generator is its logarithm. */
  lemma TimesG(s: Scalar)
    ensures Mul(s, G) == Point(s)
  {
    ReduceSmall(s);
  }

  /** The revealed scalar times the generator is the anticipated point of its index, and verifies. */
  lemma RevealedVerifies(signing: NonZeroScalar, nonce: NonZeroScalar, index: nat)
    ensures var key, n := KeyPairFrom(signing), KeyPairFrom(nonce);
            var s := RevealAttestScalar(key, n, index);
            Mul(s, G) == Anticipated(key.point, n.point, index) &&
            VerifyAttestScalar(key.point, n.point, index, s)
  {
    hide Reduce;
    TimesG(signing);
    TimesG(nonce);
    TimesG(RevealAttestScalar(KeyPairFrom(signing), KeyPairFrom(nonce), index));
    var multiple := (index + 1) * nonce;
    ReduceOfSum(signing, multiple);
    ReduceOfSum(multiple, signing);
  }

  // ---------------------------------------------------------------- what a scalar reveals

  lemma ModAdd(a: nat, b: nat, m: nat)
    requires m >= 1 && a < m && b < m
    ensures (a + b) % m == if a + b < m then a + b else a + b - m
  {
    if a + b < m {
      DivUnique(a + b, m, 0, a + b);
    } else {
      DivUnique(a + b, m, 1, a + b - m);
    }
  }

  lemma ReduceAdd(a: Scalar, b: Scalar)
    ensures Reduce(a + b) == if a + b < N then a + b else a + b - N
  {
    ModAdd(a, b, N);
  }

  /** Adding one thing to both sides keeps two residues apart. */
  lemma ReduceCancels(a: nat, b: nat, c: Scalar)
    ensures Reduce(a + c) == Reduce(b + c) <==> Reduce(a) == Reduce(b)
  {
    hide Reduce;
    ReduceOfSum(a, c);
    ReduceOfSum(b, c);
    ReduceOfSum(c, a);
    ReduceOfSum(c, b);
    ReduceAdd(Reduce(a), c);
    ReduceAdd(Reduce(b), c);
  }

  /** The first three multiples of a nonce, written with what is left over. */
  lemma FirstMultiples(r: NonZeroScalar, i: nat)
    requires i < 3
    ensures var twice := if r + r < N then r + r else r + r - N;
            Reduce((i + 1) * r) ==
              if i == 0 then r else if i == 1 then twice else if twice + r < N then twice + r else twice + r - N
  {
    hide Reduce;
    ReduceSmall(r);
    ReduceAdd(r, r);
    ReduceOfSum(r + r, r);
    ReduceAdd(Reduce(r + r), r);
    assert (i + 1) * r == if i == 0 then r else if i == 1 then r + r else r + r + r;
  }

  /** They differ: none is a multiple of the odd order. */
  lemma MultiplesDiffer(r: NonZeroScalar, i: nat, j: nat)
    requires i < 3 && j < 3
    ensures Reduce((i + 1) * r) == Reduce((j + 1) * r) <==> i == j
  {
    hide Reduce;
    FirstMultiples(r, i);
    FirstMultiples(r, j);
  }

  // ---------------------------------------------------------------- multiples that agree

  predicate Vanishes(m: nat, r: NonZeroScalar) {
    Reduce(m * r) == 0
  }

  predicate Divides(d: nat, m: nat)
    requires d >= 1
  {
    m % d == 0
  }

  /** Taking away a multiple of what vanishes changes nothing. */
  lemma VanishesModulo(d: nat, m: nat, r: NonZeroScalar)
    requires d >= 1 && Vanishes(d, r) && Vanishes(m, r)
    ensures Vanishes(m % d, r)
  {
    hide Reduce;
    var q := m / d;
    VanishesTimes(d, q, r);
    assert m * r == q * d * r + m % d * r;
    ReduceOfSum(q * d * r, m % d * r);
    ReduceSmall(Reduce(m % d * r));
  }

  lemma {:induction false} VanishesTimes(d: nat, q: nat, r: NonZeroScalar)
    requires Vanishes(d, r)
    ensures Vanishes(q * d, r)
  {
    hide Reduce;
    if q == 0 {
      ReduceSmall(0);
    } else {
      VanishesTimes(d, q - 1, r);
      assert q * d * r == (q - 1) * d * r + d * r;
      ReduceOfSum((q - 1) * d * r, d * r);
    }
  }

  /** The least multiple that vanishes divides every multiple that does. */
  lemma {:induction false} LeastVanishing(m: nat, r: NonZeroScalar) returns (d: nat)
    requires m >= 1 && Vanishes(m, r)
    ensures 1 <= d <= m && Vanishes(d, r)
    ensures forall k: nat :: Vanishes(k, r) ==> Divides(d, k)
    decreases m
  {
    hide Vanishes;
    if k: nat :| Vanishes(k, r) && !Divides(m, k) {
      VanishesModulo(m, k, r);
      d := LeastVanishing(k % m, r);
    } else {
      d := m;
    }
  }

  /** As the nonce is smaller than the order, a multiple that vanishes shares a factor with the order. */
  lemma SharesFactor(m: nat, r: NonZeroScalar) returns (d: nat)
    requires m >= 1 && Vanishes(m, r)
    ensures 1 < d <= m && Divides(d, m) && Divides(d, N)
  {
    hide Vanishes;
    d := LeastVanishing(m, r);
    assert Vanishes(N, r) by {
      hide *;
      OrderVanishes(r);
    }
    assert d != 1 by {
      OneStays(r);
    }
  }

  lemma OrderVanishes(r: NonZeroScalar)
    ensures Vanishes(N, r)
  {
    DivUnique(N * r, N, r, 0);
  }

  lemma OneStays(r: NonZeroScalar)
    ensures !Vanishes(1, r)
  {
    ReduceSmall(r);
  }

  lemma DifferenceVanishes(r: NonZeroScalar, i: nat, j: nat)
    requires i <= j
    ensures Reduce((i + 1) * r) == Reduce((j + 1) * r) <==> Vanishes(j - i, r)
  {
    hide Reduce;
    var less, rest := (i + 1) * r, (j - i) * r;
    assert (j + 1) * r == less + rest;
    ReduceOfSum(less, rest);
    ReduceOfSum(rest, Reduce(less));
    ReduceAdd(Reduce(less), Reduce(rest));
    ReduceOfSum(Reduce(less), rest);
  }

  /** A scalar that was revealed for one index passes the check for another precisely when the difference of the two
      vanishes on the nonce. Their difference then shares a factor with the order of the group, which three indexes
      rule out as the order is odd. */
  lemma RevealsOnlyItsIndex(signing: NonZeroScalar, nonce: NonZeroScalar, i: nat, j: nat)
    ensures var key, n := KeyPairFrom(signing), KeyPairFrom(nonce);
            var apart: nat := if i <= j then j - i else i - j;
            var verifies := VerifyAttestScalar(key.point, n.point, j, RevealAttestScalar(key, n, i));
            && (verifies <==> Vanishes(apart, nonce))
            && (verifies && i != j ==> exists d: nat :: 1 < d <= apart && Divides(d, apart) && Divides(d, N))
            && (i < 3 && j < 3 ==> (verifies <==> i == j))
  {
    hide Reduce, Vanishes, Divides;
    TimesG(signing);
    TimesG(nonce);
    TimesG(RevealAttestScalar(KeyPairFrom(signing), KeyPairFrom(nonce), i));
    ReduceOfSum((j + 1) * nonce, signing);
    ReduceCancels((i + 1) * nonce, (j + 1) * nonce, signing);
    DifferenceVanishes(nonce, if i <= j then i else j, if i <= j then j else i);
    var apart: nat := if i <= j then j - i else i - j;
    if i != j && Vanishes(apart, nonce) {
      var d := SharesFactor(apart, nonce);
    }
    if i < 3 && j < 3 {
      MultiplesDiffer(nonce, i, j);
    }
  }

  /** A scalar revealed under one key passes no check under another. */
  lemma RevealsUnderItsKey(signing: NonZeroScalar, nonce: NonZeroScalar, i: nat, other: Point)
    ensures var key, n := KeyPairFrom(signing), KeyPairFrom(nonce);
            VerifyAttestScalar(other, n.point, i, RevealAttestScalar(key, n, i)) <==> other == key.point
  {
    hide Reduce;
    TimesG(signing);
    TimesG(nonce);
    TimesG(RevealAttestScalar(KeyPairFrom(signing), KeyPairFrom(nonce), i));
    var multiple := (i + 1) * nonce;
    ReduceOfSum(multiple, other.log);
    ReduceOfSum(multiple, signing);
    ReduceOfSum(signing, multiple);
    ReduceOfSum(other.log, multiple);
    ReduceCancels(signing, other.log, Reduce(multiple));
    ReduceSmall(signing);
    ReduceSmall(other.log);
  }
}
