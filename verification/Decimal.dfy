/** Unsigned decimal numerals as Rust prints and parses them: the parser takes one
    optional leading `+` and any number of leading zeros, and fails above `max`. */
module Decimal {
  import opened Wrappers

  const U64_MAX: int := 0xFFFF_FFFF_FFFF_FFFF
  const U8_MAX: int := 0xFF

  type u64 = v: int | 0 <= v <= U64_MAX
  type u8 = v: int | 0 <= v <= U8_MAX

  predicate IsDigit(c: char) {
    '0' <= c <= '9'
  }

  function DigitChar(d: nat): (c: char)
    requires d < 10
    ensures IsDigit(c) && c as int - '0' as int == d
  {
    (d + '0' as int) as char
  }

  function Print(n: nat): (s: string)
    ensures s != []
    ensures forall c | c in s :: IsDigit(c)
  {
    if n < 10 then [DigitChar(n)] else Print(n / 10) + [DigitChar(n % 10)]
  }

  /** The number a string of digits stands for; the empty string stands for 0. */
  function Value(s: string): Option<nat> {
    if s == [] then Some(0)
    else if !IsDigit(s[|s| - 1]) then None
    else
      match Value(s[..|s| - 1])
      case None => None
      case Some(v) => Some(10 * v + (s[|s| - 1] as int - '0' as int))
  }

  function Parse(s: string, max: nat): (r: Option<nat>)
    ensures r.Some? ==> r.value <= max
  {
    if s == "" || s == "+" then None
    else
      var digits := if s[0] == '+' then s[1..] else s;
      match Value(digits)
      case None => None
      case Some(v) => if v <= max then Some(v) else None
  }

  lemma {:induction false} ValueOfPrint(n: nat)
    ensures Value(Print(n)) == Some(n)
  {
    if n < 10 {
      assert Value([]) == Some(0);
      assert Print(n)[..0] == [];
    } else {
      ValueOfPrint(n / 10);
      var s := Print(n);
      assert s[..|s| - 1] == Print(n / 10);
    }
  }

  /** Printing and parsing a number within the bound gives it back. */
  lemma ParseOfPrint(n: nat, max: nat)
    ensures Parse(Print(n), max) == if n <= max then Some(n) else None
  {
    ValueOfPrint(n);
    var s := Print(n);
    assert IsDigit(s[0]);
    assert s != "+";
  }

  /** A leading zero or a plus sign is accepted too, so parsing does not determine the string. */
  lemma ParseIsNotInjective()
    ensures Parse("5", U64_MAX) == Parse("05", U64_MAX) == Parse("+5", U64_MAX) == Some(5)
  {
    assert Value("") == Some(0);
    assert "5"[..0] == "" && "0"[..0] == "";
    assert Value("5") == Some(5);
    assert "05"[..1] == "0" && "+5"[1..] == "5";
    assert Value("0") == Some(0);
    assert Value("05") == Some(5);
  }

  function Zeros(k: nat): string {
    seq(k, _ => '0')
  }

  lemma ZerosMore(k: nat)
    ensures Zeros(k) + "0" == Zeros(k + 1)
  {
  }

  lemma {:induction false} ValueOfZeros(k: nat, s: string)
    ensures Value(Zeros(k) + s) == Value(s)
    decreases |s|, k
  {
    if s != "" {
      var front := s[..|s| - 1];
      ValueOfZeros(k, front);
      assert (Zeros(k) + s)[..|Zeros(k) + s| - 1] == Zeros(k) + front;
    } else if k > 0 {
      ValueOfZeros(k - 1, "");
      ZerosMore(k - 1);
      assert Zeros(k) + "" == Zeros(k - 1) + "" + "0";
      assert (Zeros(k) + "")[..k - 1] == Zeros(k - 1) + "";
    }
  }

  /** A string of digits with a value is the printed value behind some zeros. */
  lemma {:induction false} ValueIsPadded(s: string) returns (k: nat)
    requires s != "" && Value(s).Some?
    ensures s == Zeros(k) + Print(Value(s).value)
    decreases |s|
  {
    var front, d := s[..|s| - 1], s[|s| - 1];
    assert s == front + [d];
    var digit := d as int - '0' as int;
    assert [DigitChar(digit)] == [d];
    if front == "" {
      k := 0;
    } else {
      var w := Value(front).value;
      k := ValueIsPadded(front);
      if w == 0 {
        ZerosMore(k);
        k := k + 1;
      } else {
        assert Print(10 * w + digit) == Print(w) + [d];
      }
    }
  }

  ghost predicate IsNumeral(s: string, v: nat) {
    exists k: nat :: s == Zeros(k) + Print(v)
  }

  /** What parses as a number is its printed text, behind any number of zeros and at most one plus sign. */
  lemma ParseIff(s: string, max: nat, v: nat)
    ensures Parse(s, max) == Some(v) <==>
            v <= max && (IsNumeral(s, v) || (StartsWithPlus(s) && IsNumeral(s[1..], v)))
  {
    if Parse(s, max) == Some(v) {
      var k := ValueIsPadded(if s[0] == '+' then s[1..] else s);
    }
    if k: nat :| s == Zeros(k) + Print(v) {
      NumeralParses(k, v);
      assert IsDigit(s[0]);
    } else if StartsWithPlus(s) {
      if k: nat :| s[1..] == Zeros(k) + Print(v) {
        NumeralParses(k, v);
      }
    }
  }

  predicate StartsWithPlus(s: string) {
    s != "" && s[0] == '+'
  }

  lemma NumeralParses(k: nat, v: nat)
    ensures Value(Zeros(k) + Print(v)) == Some(v)
  {
    ValueOfZeros(k, Print(v));
    ValueOfPrint(v);
  }
}
