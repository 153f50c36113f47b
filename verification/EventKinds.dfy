/** Event kinds, their printer and their recursive parser. */
module EventKinds {
  import opened Wrappers
  import opened Strings
  import opened Decimal

  datatype VsMatchKind = WinOrDraw | Win

  datatype BoundKind = Gt

  datatype Predicate = Eq(target: string) | Bound(bound: BoundKind, value: u64)

  datatype PredicateKind = EqKind | BoundOf(bound: BoundKind)

  /** `n_digits` is the number of nonces of a price, at most 64; 0 means no nonce based attestation. */
  datatype EventKind =
    | VsMatch(vs: VsMatchKind)
    | SingleOccurrence
    | Predicated(inner: EventKind, pred: Predicate)
    | Price(n_digits: u8)

  datatype EventKindError =
    | Unknown(kind: string)
    | ArgsBadFormat
    | UnexpectedArgs
    | PredEqToInvalidOutcome(outcome: string)
    | PredBoundWithNonNumericRhs
    | PredBoundOnNonNumericEvent

  predicate EqFuzzy(a: EventKind, b: EventKind) {
    (a.Price? && b.Price?) || a == b
  }

  function NNonces(k: EventKind): u8 {
    if k.Price? then k.n_digits else 1
  }

  function NOutcomesForNonce(k: EventKind): nat {
    match k
    case VsMatch(WinOrDraw) => 3
    case VsMatch(Win) => 2
    case SingleOccurrence => 1
    case Predicated(_, _) => 2
    case Price(_) => 2
  }

  function NOutcomes(k: EventKind): u64 {
    if k.Price? then U64_MAX else NOutcomesForNonce(k)
  }

  // ---------------------------------------------------------------- printer and parser

  function PrintKind(k: EventKind): string {
    match k
    case VsMatch(Win) => "winner"
    case VsMatch(WinOrDraw) => "vs"
    case SingleOccurrence => "occur"
    case Predicated(inner, Eq(target)) => PrintKind(inner) + (['='] + target)
    case Predicated(inner, Bound(Gt, bound)) => PrintKind(inner) + (['_'] + Print(bound))
    case Price(n) => if n > 0 then "price?n=" + Print(n) else "price"
  }

  /** One argument after the `?`: split at its first `=`, or a bare name. */
  function ParseArg(arg: string): (string, string) {
    match IndexOf(arg, '=')
    case None => (arg, "")
    case Some(i) => (arg[..i], arg[i + 1..])
  }

  function ParseArgs(args: string): seq<(string, string)> {
    var parts := Split(args, '&');
    seq(|parts|, i requires 0 <= i < |parts| => ParseArg(parts[i]))
  }

  function ParsePrice(args: seq<(string, string)>): Result<EventKind, EventKindError> {
    if args == [] then Ok(Price(0))
    else if |args| == 1 && args[0].0 == "n" then
      match Parse(args[0].1, U8_MAX)
      case None => Err(ArgsBadFormat)
      case Some(n) => if n == 0 || n > 64 then Err(ArgsBadFormat) else Ok(Price(n))
    else Err(UnexpectedArgs)
  }

  function ParseKind(s: string): Result<EventKind, EventKindError>
    decreases |s|, 1
  {
    match IndexOf(s, '?')
    case Some(opener) => ParseHead(s[..opener], ParseArgs(s[opener + 1..]))
    case None => ParseHead(s, [])
  }

  function ParseHead(head: string, args: seq<(string, string)>): Result<EventKind, EventKindError>
    decreases |head|, 0
  {
    if head == "vs" then WithoutArgs(args, VsMatch(WinOrDraw))
    else if head == "winner" then WithoutArgs(args, VsMatch(Win))
    else if head == "occur" then WithoutArgs(args, SingleOccurrence)
    else if head == "price" then ParsePrice(args)
    else if '=' in head then
      if args != [] then Err(UnexpectedArgs)
      else
        var at := IndexOf(head, '=').value;
        match ParseKind(head[..at])
        case Err(e) => Err(e)
        case Ok(inner) => Ok(Predicated(inner, Eq(head[at + 1..])))
    else if '_' in head then
      if args != [] then Err(UnexpectedArgs)
      else
        var at := IndexOf(head, '_').value;
        match Parse(head[at + 1..], U64_MAX)
        case None => Err(PredBoundWithNonNumericRhs)
        case Some(bound) =>
          match ParseKind(head[..at])
          case Err(e) => Err(e)
          case Ok(inner) =>
            if inner.Price? then Ok(Predicated(inner, Bound(Gt, bound))) else Err(PredBoundOnNonNumericEvent)
    else Err(Unknown(head))
  }

  function WithoutArgs(args: seq<(string, string)>, k: EventKind): Result<EventKind, EventKindError> {
    if args == [] then Ok(k) else Err(UnexpectedArgs)
  }

  // ---------------------------------------------------------------- the kinds the parser can return

  /** Kinds an `=` can be put on: a price without digits, a bound on one, or an enumerated kind. */
  predicate EqBase(k: EventKind) {
    match k
    case VsMatch(_) => true
    case SingleOccurrence => true
    case Price(n) => n == 0
    case Predicated(inner, p) => inner == Price(0) && p.Bound?
  }

  predicate Canonical(k: EventKind) {
    match k
    case VsMatch(_) => true
    case SingleOccurrence => true
    case Price(n) => n <= 64
    case Predicated(inner, Eq(target)) => EqBase(inner) && '?' !in target
    case Predicated(inner, Bound(_, _)) => inner == Price(0)
  }

  lemma ArgsAreNotEmpty(s: string)
    ensures ParseArgs(s) != []
  {
  }

  /** Parsing a string without `?`, split by what it contains. */
  lemma ParsePlain(s: string)
    requires '?' !in s
    ensures ParseKind(s) == ParseHead(s, [])
  {
  }

  /** Whatever the parser accepts is canonical: the inner price of a predicate has no digits,
      a bound sits on a price, and at most one `=` sits on top of at most one bound. */
  lemma {:induction false} ParseIsCanonical(s: string)
    ensures ParseKind(s).Ok? ==> Canonical(ParseKind(s).value)
    ensures ParseKind(s).Ok? && '?' !in s && '=' !in s ==> EqBase(ParseKind(s).value)
    ensures ParseKind(s).Ok? && '?' !in s && '=' !in s && '_' !in s ==> !ParseKind(s).value.Predicated?
    decreases |s|
  {
    match IndexOf(s, '?')
    case Some(opener) => ArgsAreNotEmpty(s[opener + 1..]);
    case None =>
      ParsePlain(s);
      if '=' in s {
        var at := IndexOf(s, '=').value;
        ParseIsCanonical(s[..at]);
      } else if '_' in s {
        var at := IndexOf(s, '_').value;
        ParseIsCanonical(s[..at]);
      }
  }

  // ---------------------------------------------------------------- round trip

  /** The text of a kind an `=` can be put on holds no `?`, no `=` and no slash, and a `_` only for a bound. */
  lemma BaseText(k: EventKind)
    requires EqBase(k)
    ensures var s := PrintKind(k); '?' !in s && '=' !in s && '/' !in s && '.' !in s
  {
    if k.Predicated? {
      assert PrintKind(k.inner) == "price";
    }
  }

  lemma SplitsAt(head: string, c: char, tail: string)
    requires c !in head
    ensures var s := head + ([c] + tail);
            IndexOf(s, c) == Some(|head|) && s[..|head|] == head && s[|head| + 1..] == tail
  {
    var s := head + ([c] + tail);
    assert forall k | 0 <= k < |head| :: s[k] == head[k];
    IndexOfIs(s, c, |head|);
  }

  lemma RoundTripWords()
    ensures ParseKind("winner") == Ok(VsMatch(Win))
    ensures ParseKind("vs") == Ok(VsMatch(WinOrDraw))
    ensures ParseKind("occur") == Ok(SingleOccurrence)
    ensures ParseKind("price") == Ok(Price(0))
  {
    assert ParseKind("winner") == ParseHead("winner", []) by { ParsePlain("winner"); }
    assert ParseKind("vs") == ParseHead("vs", []) by { ParsePlain("vs"); }
    assert ParseKind("occur") == ParseHead("occur", []) by { ParsePlain("occur"); }
    assert ParseKind("price") == ParseHead("price", []) by { ParsePlain("price"); }
    assert |"winner"| == 6 && |"vs"| == 2 && |"occur"| == |"price"| == 5;
  }

  /** A head with a mark is none of the four words. */
  lemma ParseEqText(s: string)
    requires '?' !in s && '=' in s
    ensures var at := IndexOf(s, '=').value;
            ParseKind(s[..at]).Ok? ==> ParseKind(s) == Ok(Predicated(ParseKind(s[..at]).value, Eq(s[at + 1..])))
  {
    ParsePlain(s);
    var at := IndexOf(s, '=').value;
    assert s[at] == '=';
    assert s != "vs" && s != "winner" && s != "occur" && s != "price";
  }

  lemma ParseBoundText(s: string)
    requires '?' !in s && '=' !in s && '_' in s
    ensures var at := IndexOf(s, '_').value;
            ParseKind(s[..at]) == Ok(Price(0)) && Parse(s[at + 1..], U64_MAX).Some? ==>
              ParseKind(s) == Ok(Predicated(Price(0), Bound(Gt, Parse(s[at + 1..], U64_MAX).value)))
  {
    ParsePlain(s);
    var at := IndexOf(s, '_').value;
    assert s[at] == '_';
    assert s != "vs" && s != "winner" && s != "occur" && s != "price";
  }

  lemma RoundTripBound(bound: u64)
    ensures ParseKind(PrintKind(Predicated(Price(0), Bound(Gt, bound)))) == Ok(Predicated(Price(0), Bound(Gt, bound)))
  {
    var k := Predicated(Price(0), Bound(Gt, bound));
    var s := PrintKind(k);
    assert PrintKind(Price(0)) == "price";
    BaseText(k);
    SplitsAt("price", '_', Print(bound));
    RoundTripWords();
    ParseOfPrint(bound, U64_MAX);
    ParseBoundText(s);
  }

  lemma RoundTripPrice(n: u8)
    ensures ParseKind(PrintKind(Price(n))) == if n <= 64 then Ok(Price(n)) else Err(ArgsBadFormat)
  {
    if n == 0 {
      ParsePlain("price");
    } else {
      var s := PrintKind(Price(n));
      var digits := Print(n);
      assert s == "price" + (['?'] + ("n=" + digits));
      SplitsAt("price", '?', "n=" + digits);
      assert "n=" + digits == "n" + (['='] + digits);
      SplitsAt("n", '=', digits);
      assert '&' !in "n=" + digits;
      assert Split("n=" + digits, '&') == ["n=" + digits];
      assert ParseArgs("n=" + digits) == [("n", digits)];
      ParseOfPrint(n, U8_MAX);
    }
  }

  lemma RoundTripBase(k: EventKind)
    requires EqBase(k)
    ensures ParseKind(PrintKind(k)) == Ok(k)
  {
    hide ParseKind;
    if k.Predicated? {
      RoundTripBound(k.pred.value);
      assert k == Predicated(Price(0), Bound(Gt, k.pred.value));
    } else {
      RoundTripWords();
    }
  }

  lemma RoundTripEq(inner: EventKind, target: string)
    requires EqBase(inner) && '?' !in target
    ensures ParseKind(PrintKind(Predicated(inner, Eq(target)))) == Ok(Predicated(inner, Eq(target)))
  {
    var s := PrintKind(inner) + (['='] + target);
    RoundTripBase(inner);
    BaseText(inner);
    SplitsAt(PrintKind(inner), '=', target);
    assert '?' !in s;
    ParseEqText(s);
  }

  /** Parsing the text of a kind gives it back exactly for the canonical kinds. */
  lemma RoundTripIff(k: EventKind)
    ensures ParseKind(PrintKind(k)) == Ok(k) <==> Canonical(k)
  {
    ParseIsCanonical(PrintKind(k));
    if Canonical(k) {
      match k
      case Price(n) => RoundTripPrice(n);
      case Predicated(inner, Eq(target)) => RoundTripEq(inner, target);
      case _ => RoundTripBase(k);
    }
  }

  /** Every accepted string prints, after parsing, to a string that parses to the same kind. */
  lemma AcceptedRoundTrips(s: string)
    requires ParseKind(s).Ok?
    ensures ParseKind(PrintKind(ParseKind(s).value)) == ParseKind(s)
  {
    ParseIsCanonical(s);
    RoundTripIff(ParseKind(s).value);
  }
}
