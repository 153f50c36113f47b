/** The string operations the grammar of paths, ids and kinds is written with.
    Every delimiter is ASCII, so character positions stand for byte positions. */
module Strings {
  import opened Wrappers

  /** Position of the first `c`, as `str::find`. */
  function IndexOf(s: string, c: char): (r: Option<nat>)
    ensures r.None? ==> c !in s
    ensures r.Some? ==> r.value < |s| && s[r.value] == c && forall k | 0 <= k < r.value :: s[k] != c
  {
    IndexFrom(s, c, 0)
  }

  function IndexFrom(s: string, c: char, from: nat): (r: Option<nat>)
    requires from <= |s|
    ensures r.None? ==> forall k | from <= k < |s| :: s[k] != c
    ensures r.Some? ==> from <= r.value < |s| && s[r.value] == c && forall k | from <= k < r.value :: s[k] != c
    decreases |s| - from
  {
    if from == |s| then None else if s[from] == c then Some(from) else IndexFrom(s, c, from + 1)
  }

  /** Position of the last `c`, as `str::rfind`. */
  function LastIndexOf(s: string, c: char): (r: Option<nat>)
    ensures r.None? ==> c !in s
    ensures r.Some? ==> r.value < |s| && s[r.value] == c && forall k | r.value < k < |s| :: s[k] != c
  {
    LastIndexBefore(s, c, |s|)
  }

  function LastIndexBefore(s: string, c: char, end: nat): (r: Option<nat>)
    requires end <= |s|
    ensures r.None? ==> forall k | 0 <= k < end :: s[k] != c
    ensures r.Some? ==> r.value < end && s[r.value] == c && forall k | r.value < k < end :: s[k] != c
  {
    if end == 0 then None else if s[end - 1] == c then Some(end - 1) else LastIndexBefore(s, c, end - 1)
  }

  /** The pieces between occurrences of `c`, as `str::split`. */
  function Split(s: string, c: char): (r: seq<string>)
    ensures |r| >= 1
    ensures forall part | part in r :: c !in part
    ensures |r| == 1 <==> c !in s
  {
    SplitFrom(s, c, 0)
  }

  function SplitFrom(s: string, c: char, from: nat): (r: seq<string>)
    requires from <= |s|
    ensures |r| >= 1
    ensures forall part | part in r :: c !in part
    ensures |r| == 1 <==> forall k | from <= k < |s| :: s[k] != c
    decreases |s| - from
  {
    match IndexFrom(s, c, from)
    case None => [s[from..]]
    case Some(i) => [s[from..i]] + SplitFrom(s, c, i + 1)
  }

  predicate StartsWith(s: string, p: string) {
    p <= s
  }

  predicate EndsWith(s: string, p: string) {
    |p| <= |s| && s[|s| - |p|..] == p
  }

  lemma IndexOfIs(s: string, c: char, i: nat)
    requires i < |s| && s[i] == c && forall k | 0 <= k < i :: s[k] != c
    ensures IndexOf(s, c) == Some(i)
  {
    var j := IndexOf(s, c).value;
    assert s[j] == c;
  }

  lemma LastIndexOfIs(s: string, c: char, i: nat)
    requires i < |s| && s[i] == c && forall k | i < k < |s| :: s[k] != c
    ensures LastIndexOf(s, c) == Some(i)
  {
    var j := LastIndexOf(s, c).value;
    assert s[j] == c;
  }

  lemma LastIndexOfAt(a: string, c: char, b: string)
    requires c !in b
    ensures LastIndexOf(a + [c] + b, c) == Some(|a|)
  {
    var s := a + [c] + b;
    assert s[|a|] == c;
    assert forall k | |a| < k < |s| :: s[k] == b[k - |a| - 1];
  }

  /** The first piece of what is left, up to the next `c` or to the end. */
  lemma SplitFromIs(s: string, c: char, from: nat, end: nat)
    requires from <= end <= |s| && (forall k | from <= k < end :: s[k] != c) && (end < |s| ==> s[end] == c)
    ensures SplitFrom(s, c, from) ==
            if end < |s| then [s[from..end]] + SplitFrom(s, c, end + 1) else [s[from..end]]
  {
    if end < |s| {
      assert IndexFrom(s, c, from) == Some(end);
    } else {
      assert s[from..end] == s[from..];
    }
  }

  // ---------------------------------------------------------------- splitting undoes joining

  lemma IndexFromShift(p: string, s: string, c: char, from: nat)
    requires from <= |s|
    ensures IndexFrom(p + s, c, |p| + from) ==
            match IndexFrom(s, c, from)
            case None => None
            case Some(i) => Some(|p| + i)
  {
    assert forall k | 0 <= k < |s| :: (p + s)[|p| + k] == s[k];
    assert forall k | |p| <= k < |p| + |s| :: (p + s)[k] == s[k - |p|];
  }

  lemma SplitFromUnfolds(s: string, c: char, from: nat)
    requires from <= |s|
    ensures SplitFrom(s, c, from) ==
            match IndexFrom(s, c, from)
            case None => [s[from..]]
            case Some(i) => [s[from..i]] + SplitFrom(s, c, i + 1)
  {
  }

  lemma {:induction false} SplitFromShift(p: string, s: string, c: char, from: nat)
    requires from <= |s|
    ensures SplitFrom(p + s, c, |p| + from) == SplitFrom(s, c, from)
    decreases |s| - from
  {
    hide IndexFrom, SplitFrom;
    IndexFromShift(p, s, c, from);
    SplitFromUnfolds(s, c, from);
    SplitFromUnfolds(p + s, c, |p| + from);
    match IndexFrom(s, c, from)
    case None =>
      assert (p + s)[|p| + from..] == s[from..];
    case Some(i) =>
      SplitFromShift(p, s, c, i + 1);
      assert (p + s)[|p| + from..|p| + i] == s[from..i];
  }

  /** The first piece ends where the first `c` is, and the other pieces are those of what follows it. */
  lemma SplitOfSum(a: string, c: char, b: string)
    requires c !in a
    ensures Split(a + [c] + b, c) == [a] + Split(b, c)
  {
    hide SplitFrom;
    var s := a + [c] + b;
    assert forall k | 0 <= k < |a| :: s[k] == a[k];
    SplitFromIs(s, c, 0, |a|);
    assert s[0..|a|] == a && |a + [c]| == |a| + 1;
    SplitFromShift(a + [c], b, c, 0);
  }

  lemma SplitOfWord(a: string, c: char)
    requires c !in a
    ensures Split(a, c) == [a]
  {
    SplitFromIs(a, c, 0, |a|);
    assert a[0..|a|] == a;
  }

  /** The same, seen from what is split. */
  lemma SplitBreaks(s: string, c: char)
    requires c in s
    ensures var i := IndexOf(s, c).value;
            s == s[..i] + [c] + s[i + 1..] && Split(s, c) == [s[..i]] + Split(s[i + 1..], c)
  {
    var i := IndexOf(s, c).value;
    assert s == s[..i] + [c] + s[i + 1..];
    SplitOfSum(s[..i], c, s[i + 1..]);
  }

  /** What follows a piece: nothing, or the delimiter and more. */
  predicate PieceEnds(rest: string, c: char) {
    rest == "" || rest[0] == c
  }

  lemma SplitHeadIff(s: string, c: char, a: string)
    ensures Split(s, c)[0] == a <==> c !in a && StartsWith(s, a) && PieceEnds(s[|a|..], c)
  {
    hide SplitFrom;
    if c in s {
      SplitBreaks(s, c);
    } else {
      SplitOfWord(s, c);
    }
    if c !in a && StartsWith(s, a) && PieceEnds(s[|a|..], c) {
      SplitHead(a, c, s[|a|..]);
      assert s == a + s[|a|..];
    }
  }

  lemma SplitHead(a: string, c: char, rest: string)
    requires c !in a && PieceEnds(rest, c)
    ensures Split(a + rest, c)[0] == a
  {
    hide SplitFrom;
    if rest == "" {
      SplitOfWord(a, c);
      assert a + rest == a;
    } else {
      SplitOfSum(a, c, rest[1..]);
      assert rest == [c] + rest[1..];
      assert a + [c] + rest[1..] == a + rest;
    }
  }

  lemma SplitTwoIff(s: string, c: char, a: string, b: string)
    ensures Split(s, c) == [a, b] <==> c !in a && c !in b && s == a + [c] + b
  {
    hide SplitFrom;
    if c !in a && c !in b && s == a + [c] + b {
      SplitOfSum(a, c, b);
      SplitOfWord(b, c);
    }
    if Split(s, c) == [a, b] {
      SplitBreaks(s, c);
      var at := IndexOf(s, c).value;
      var rest := s[at + 1..];
      assert Split(s, c)[0] == a && Split(rest, c) == Split(s, c)[1..] == [b];
      assert |Split(rest, c)| == 1;
      SplitOfWord(rest, c);
      assert [rest][0] == [b][0];
    }
  }

  lemma SplitThreeIff(s: string, c: char, a: string, b: string, d: string)
    ensures Split(s, c) == [a, b, d] <==> c !in a && c !in b && c !in d && s == a + [c] + (b + [c] + d)
  {
    hide SplitFrom;
    if c !in a && c !in b && c !in d && s == a + [c] + (b + [c] + d) {
      SplitOfSum(a, c, b + [c] + d);
      SplitTwoIff(b + [c] + d, c, b, d);
    }
    if Split(s, c) == [a, b, d] {
      SplitBreaks(s, c);
      var at := IndexOf(s, c).value;
      var rest := s[at + 1..];
      assert Split(s, c)[0] == a && Split(rest, c) == Split(s, c)[1..] == [b, d];
      SplitTwoIff(rest, c, b, d);
    }
  }

  /** Whatever follows, the first two pieces end at the first two delimiters. */
  predicate BeginsWithTwo(s: string, c: char, a: string, b: string) {
    c !in a && c !in b && StartsWith(s, a + [c] + b) && PieceEnds(s[|a| + 1 + |b|..], c)
  }

  lemma SplitBeginsIff(s: string, c: char, a: string, b: string)
    ensures |Split(s, c)| >= 2 && Split(s, c)[0] == a && Split(s, c)[1] == b <==> BeginsWithTwo(s, c, a, b)
  {
    hide Split, BeginsWithTwo;
    if BeginsWithTwo(s, c, a, b) {
      TwoPieces(s, c, a, b);
    }
    if |Split(s, c)| >= 2 && Split(s, c)[0] == a && Split(s, c)[1] == b {
      SplitBreaks(s, c);
      SecondPiece(a, c, s[IndexOf(s, c).value + 1..], b);
    }
  }

  lemma TwoPieces(s: string, c: char, a: string, b: string)
    requires BeginsWithTwo(s, c, a, b)
    ensures |Split(s, c)| >= 2 && Split(s, c)[0] == a && Split(s, c)[1] == b
  {
    hide SplitFrom;
    var tail := s[|a| + 1 + |b|..];
    assert s == a + [c] + (b + tail);
    SplitOfSum(a, c, b + tail);
    SplitHead(b, c, tail);
  }

  lemma SecondPiece(a: string, c: char, rest: string, b: string)
    requires c !in a && Split(rest, c)[0] == b
    ensures BeginsWithTwo(a + [c] + rest, c, a, b)
  {
    hide SplitFrom;
    SplitHeadIff(rest, c, b);
    var s, tail := a + [c] + rest, rest[|b|..];
    assert s == a + [c] + b + tail;
    assert s[..|a| + 1 + |b|] == a + [c] + b && s[|a| + 1 + |b|..] == tail;
  }
}
