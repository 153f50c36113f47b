/** The grammar of event kinds and event ids: what the two parsers accept, told from the text alone. */
module Grammar {
  import opened Wrappers
  import opened Strings
  import opened Decimal
  import opened Paths
  import opened EventKinds
  import opened EventIds
  import opened Outcomes
  import opened IdParser

  // ---------------------------------------------------------------- kinds

  /** The texts of a kind. Numbers may have leading zeros and a plus sign. */
  ghost predicate IsKindText(s: string, k: EventKind)
    decreases k
  {
    match k
    case VsMatch(WinOrDraw) => s == "vs"
    case VsMatch(Win) => s == "winner"
    case SingleOccurrence => s == "occur"
    case Price(n) =>
      if n == 0 then s == "price" else n <= 64 && exists d :: s == "price?n=" + d && Parse(d, U8_MAX) == Some(n)
    case Predicated(inner, Bound(Gt, bound)) =>
      inner == Price(0) && exists d :: s == "price_" + d && Parse(d, U64_MAX) == Some(bound)
    case Predicated(inner, Eq(target)) =>
      '?' !in target && exists t :: s == t + ("=" + target) && IsBaseText(t) && IsKindText(t, inner)
  }

  /** What comes before an `=`. */
  predicate IsBaseText(s: string) {
    '?' !in s && '=' !in s
  }

  /** The parser accepts the texts of kinds and nothing else. */
  lemma ParseKindIff(s: string, k: EventKind)
    ensures ParseKind(s) == Ok(k) <==> IsKindText(s, k)
  {
    hide ParseKind, IsKindText;
    if ParseKind(s) == Ok(k) {
      ParsedIsKindText(s);
    }
    if IsKindText(s, k) {
      KindTextParses(s, k);
    }
  }

  lemma {:induction false} ParsedIsKindText(s: string)
    requires ParseKind(s).Ok?
    ensures IsKindText(s, ParseKind(s).value)
    decreases |s|
  {
    hide ParseKind, IsKindText;
    if '?' in s {
      ArgsOnPrice(s);
    } else if '=' in s {
      var at := EqParsed(s);
      ParsedIsKindText(s[..at]);
      EqIsKindText(s, at);
    } else if '_' in s {
      BoundOnPrice(s);
    } else {
      WordIsKindText(s);
    }
  }

  lemma EqParsed(s: string) returns (at: nat)
    requires '?' !in s && '=' in s && ParseKind(s).Ok?
    ensures at < |s| && s[at] == '=' && IsBaseText(s[..at]) && ParseKind(s[..at]).Ok?
    ensures ParseKind(s) == Ok(Predicated(ParseKind(s[..at]).value, Eq(s[at + 1..])))
  {
    ParsePlain(s);
    at := IndexOf(s, '=').value;
    assert s[at] == '=';
    assert s != "vs" && s != "winner" && s != "occur" && s != "price";
  }

  lemma EqIsKindText(s: string, at: nat)
    requires '?' !in s && at < |s| && s[at] == '=' && IsBaseText(s[..at])
    requires ParseKind(s[..at]).Ok? && IsKindText(s[..at], ParseKind(s[..at]).value)
    ensures IsKindText(s, Predicated(ParseKind(s[..at]).value, Eq(s[at + 1..])))
  {
    hide ParseKind;
    assert s == s[..at] + ("=" + s[at + 1..]);
  }

  lemma WordIsKindText(s: string)
    requires '?' !in s && '=' !in s && '_' !in s && ParseKind(s).Ok?
    ensures IsKindText(s, ParseKind(s).value)
  {
    ParsePlain(s);
  }

  /** Arguments go with a price only, and then it is one, the number of digits. */
  lemma ArgsOnPrice(s: string)
    requires '?' in s && ParseKind(s).Ok?
    ensures IsKindText(s, ParseKind(s).value)
  {
    var opener := IndexOf(s, '?').value;
    var rest := s[opener + 1..];
    ArgsAreNotEmpty(rest);
    assert ParseKind(s) == ParseHead(s[..opener], ParseArgs(rest));
    assert s[..opener] == "price";
    var args := ParseArgs(rest);
    assert |Split(rest, '&')| == 1;
    SplitOfWord(rest, '&');
    var at := IndexOf(rest, '=');
    assert at.Some? by {
      assert args[0] == ParseArg(rest);
      assert Parse("", U8_MAX) == None;
    }
    assert rest == "n=" + rest[at.value + 1..];
    assert s == "price" + ("?" + rest);
    assert s == "price?n=" + rest[at.value + 1..];
  }

  lemma BoundOnPrice(s: string)
    requires '?' !in s && '=' !in s && '_' in s && ParseKind(s).Ok?
    ensures IsKindText(s, ParseKind(s).value)
  {
    ParsePlain(s);
    var at := IndexOf(s, '_').value;
    assert s[at] == '_';
    assert s != "vs" && s != "winner" && s != "occur" && s != "price";
    var inner := s[..at];
    assert '_' !in inner && '?' !in inner && '=' !in inner;
    ParsePlain(inner);
    assert inner == "price";
    assert s == "price_" + s[at + 1..];
  }

  lemma {:induction false} KindTextParses(s: string, k: EventKind)
    requires IsKindText(s, k)
    ensures ParseKind(s) == Ok(k)
    decreases k
  {
    hide ParseKind, Parse;
    match k
    case Price(n) =>
      if n == 0 {
        RoundTripWords();
      } else {
        var d :| s == "price?n=" + d && Parse(d, U8_MAX) == Some(n);
        PriceTextParses(d, n);
      }
    case Predicated(inner, Bound(Gt, bound)) =>
      var d :| s == "price_" + d && Parse(d, U64_MAX) == Some(bound);
      BoundTextParses(d, bound);
    case Predicated(inner, Eq(target)) =>
      var t :| s == t + ("=" + target) && IsBaseText(t) && IsKindText(t, inner);
      KindTextParses(t, inner);
      SplitsAt(t, '=', target);
      assert ['='] + target == "=" + target;
      ParseEqText(s);
    case _ => RoundTripWords();
  }

  lemma PriceTextParses(d: string, n: u8)
    requires 0 < n <= 64 && Parse(d, U8_MAX) == Some(n)
    ensures ParseKind("price?n=" + d) == Ok(Price(n))
  {
    hide ParseArgs, Parse;
    NumberIsArg(d, n);
    assert "price?n=" + d == "price" + (['?'] + ("n=" + d));
    SplitsAt("price", '?', "n=" + d);
  }

  lemma NumberIsArg(d: string, n: u8)
    requires Parse(d, U8_MAX) == Some(n)
    ensures ParseArgs("n=" + d) == [("n", d)]
  {
    hide Parse, SplitFrom;
    NumberHasNo(d, U8_MAX, '&');
    SplitOfWord("n=" + d, '&');
    assert "n=" + d == "n" + (['='] + d);
    SplitsAt("n", '=', d);
  }

  lemma BoundTextParses(d: string, bound: u64)
    requires Parse(d, U64_MAX) == Some(bound)
    ensures ParseKind("price_" + d) == Ok(Predicated(Price(0), Bound(Gt, bound)))
  {
    hide ParseKind;
    NumberHasNo(d, U64_MAX, '?');
    NumberHasNo(d, U64_MAX, '=');
    assert "price_" + d == "price" + (['_'] + d);
    SplitsAt("price", '_', d);
    RoundTripWords();
    ParseBoundText("price_" + d);
  }

  /** A number is written with digits, behind a plus sign at most. */
  lemma NumberHasNo(d: string, max: nat, c: char)
    requires Parse(d, max).Some? && !IsDigit(c) && c != '+'
    ensures c !in d
  {
    DigitsOnly(if d[0] == '+' then d[1..] else d, c);
    assert d == [d[0]] + d[1..];
  }

  lemma {:induction false} DigitsOnly(s: string, c: char)
    requires Value(s).Some? && !IsDigit(c)
    ensures c !in s
    decreases |s|
  {
    if s != "" {
      DigitsOnly(s[..|s| - 1], c);
      assert s == s[..|s| - 1] + [s[|s| - 1]];
    }
  }

  predicate IsWord(s: string) {
    s == "vs" || s == "winner" || s == "occur" || s == "price"
  }

  function Before(s: string, c: char): string {
    match IndexOf(s, c)
    case None => s
    case Some(at) => s[..at]
  }

  /** What a text without arguments is refused for is found before its first `=`: what comes after a `_` there is no
      number, or what comes before it is no price, or there is no such word. */
  lemma PlainErrorIff(s: string)
    requires '?' !in s
    ensures var base := Before(s, '=');
            var head := Before(base, '_');
            var isBound := '_' in base;
            var numeric := isBound && Parse(base[|head| + 1..], U64_MAX).Some?;
            && (ParseKind(s) == Err(PredBoundWithNonNumericRhs) <==> isBound && !numeric)
            && (ParseKind(s) == Err(PredBoundOnNonNumericEvent) <==> numeric && IsWord(head) && head != "price")
            && (ParseKind(s) == Err(Unknown(head)) <==> (!isBound || numeric) && !IsWord(head))
            && (ParseKind(s).Err? ==> !ParseKind(s).error.UnexpectedArgs? && !ParseKind(s).error.ArgsBadFormat?)
  {
    var base := Before(s, '=');
    BaseError(base);
    if '=' in s {
      ParsePlain(s);
      assert s[|base|] == '=';
      assert !IsWord(s);
    }
  }

  lemma BaseError(base: string)
    requires '?' !in base && '=' !in base
    ensures var head := Before(base, '_');
            var isBound := '_' in base;
            var numeric := isBound && Parse(base[|head| + 1..], U64_MAX).Some?;
            && (ParseKind(base) == Err(PredBoundWithNonNumericRhs) <==> isBound && !numeric)
            && (ParseKind(base) == Err(PredBoundOnNonNumericEvent) <==> numeric && IsWord(head) && head != "price")
            && (ParseKind(base) == Err(Unknown(head)) <==> (!isBound || numeric) && !IsWord(head))
            && (ParseKind(base).Err? ==>
                  !ParseKind(base).error.UnexpectedArgs? && !ParseKind(base).error.ArgsBadFormat?)
  {
    ParsePlain(base);
    var head := Before(base, '_');
    ParsePlain(head);
    if '_' in base {
      assert base[|head|] == '_';
      assert !IsWord(base);
      assert '_' !in head && '=' !in head;
    }
  }

  /** With arguments only a price can do, with one argument, the number of digits. */
  lemma ArgsErrorIff(s: string)
    requires '?' in s
    ensures var head := Before(s, '?');
            var rest := s[|head| + 1..];
            var named := '&' !in rest && Before(rest, '=') == "n";
            && (ParseKind(s) == Err(Unknown(head)) <==> !IsWord(head) && '=' !in head && '_' !in head)
            && (ParseKind(s) == Err(ArgsBadFormat) <==> head == "price" && named && ParseKind(s).Err?)
            && (ParseKind(s) == Err(UnexpectedArgs) <==>
                  if head == "price" then !named else IsWord(head) || '=' in head || '_' in head)
  {
    var head := Before(s, '?');
    var rest := s[|head| + 1..];
    ArgsAreNotEmpty(rest);
    assert ParseKind(s) == ParseHead(head, ParseArgs(rest));
    if '&' !in rest {
      SplitOfWord(rest, '&');
      assert ParseArgs(rest)[0] == ParseArg(rest);
      assert ParseArg(rest).0 == Before(rest, '=');
    }
    assert |ParseArgs(rest)| == 1 <==> '&' !in rest;
  }

  // ---------------------------------------------------------------- the two sides of a match

  /** The last segment of a match: two words with a `_` between them. */
  predicate IsMatchName(name: string, left: string, right: string) {
    name == left + "_" + right && '_' !in left && '_' !in right
  }

  /** The first two words of a name, whatever follows. */
  predicate BeginsWithSides(name: string, left: string, right: string) {
    BeginsWithTwo(name, '_', left, right)
  }

  lemma TeamsAre(path: Path, left: string, right: string)
    ensures Teams(path) == [left, right] <==> IsMatchName(Last(path), left, right)
  {
    hide Last;
    SplitTwoIff(Last(path), '_', left, right);
    assert left + ['_'] + right == left + "_" + right;
  }

  lemma TeamsBegin(path: Path, left: string, right: string)
    ensures |Teams(path)| >= 2 && Teams(path)[0] == left && Teams(path)[1] == right <==>
            BeginsWithSides(Last(path), left, right)
  {
    hide Last, Split, BeginsWithTwo;
    SplitBeginsIff(Last(path), '_', left, right);
  }

  // ---------------------------------------------------------------- ids

  ghost predicate NamesMatch(name: string) {
    exists left, right :: IsMatchName(name, left, right) && left != right
  }

  /** What `target` names: a printed outcome of the kind, or a number. The sides of a match are the first two words of
      the name here, and they need not differ. */
  ghost predicate NamesOutcome(name: string, inner: EventKind, target: string) {
    match inner
    case VsMatch(WinOrDraw) =>
      exists left, right :: BeginsWithSides(name, left, right) && target in [left + "_win", right + "_win", "draw"]
    case VsMatch(Win) => exists left, right :: BeginsWithSides(name, left, right) && target in [left, right]
    case SingleOccurrence => target == "true"
    case Predicated(_, _) => target in ["true", "false"]
    case Price(_) => Parse(target, U64_MAX).Some?
  }

  /** The last segment of the path suits the kind. */
  ghost predicate Suits(name: string, kind: EventKind) {
    match kind
    case VsMatch(_) => NamesMatch(name)
    case Predicated(inner, Eq(target)) => NamesOutcome(name, inner, target)
    case _ => true
  }

  /** The parser accepts exactly the paths that show a kind which their last segment suits. */
  lemma ValidTextIff(s: string)
    ensures Valid(EventId(s)) <==>
            IsPath(s) && Kinded(EventId(s)) && Suits(Last(PathOf(EventId(s))), KindOf(EventId(s)))
  {
    hide ParseKind, StripEvent, Last, Teams, FromStr;
    var id := EventId(s);
    if Kinded(id) {
      ValidIff(id);
      MatchAccepted(PathOf(id));
      if KindOf(id).Predicated? && KindOf(id).pred.Eq? {
        TargetAccepted(PathOf(id), KindOf(id).inner, KindOf(id).pred.target);
      }
    } else {
      ValidIsKinded(s);
    }
  }

  lemma ValidIsKinded(s: string)
    ensures Valid(EventId(s)) ==> Kinded(EventId(s))
  {
    if Valid(EventId(s)) {
      ValidIsUsable(EventId(s));
    }
  }

  lemma MatchAccepted(path: Path)
    ensures |Teams(path)| == 2 && Teams(path)[0] != Teams(path)[1] <==> NamesMatch(Last(path))
  {
    hide Last, Split, IsMatchName;
    if |Teams(path)| == 2 {
      TeamsAre(path, Teams(path)[0], Teams(path)[1]);
    }
    forall left, right | IsMatchName(Last(path), left, right)
      ensures Teams(path) == [left, right]
    {
      TeamsAre(path, left, right);
    }
  }

  /** An outcome parses against the id of the inner kind exactly when the text names one. */
  lemma TargetAccepted(path: Path, inner: EventKind, target: string)
    requires EventPath(path) && EqBase(inner)
    ensures var id := FromPathAndKind(path, inner);
            Kinded(id) && (HasParties(id) && ParseOutcome(id, target).Ok? <==> NamesOutcome(Last(path), inner, target))
  {
    hide ParseKind, StripEvent, Last, Split, Parse, BeginsWithSides, WithEvent, StripWin;
    InnerAnswers(path, inner);
    var id := FromPathAndKind(path, inner);
    if inner.VsMatch? {
      forall left, right
        ensures |Teams(path)| >= 2 && Teams(path)[0] == left && Teams(path)[1] == right <==>
                BeginsWithSides(Last(path), left, right)
      {
        TeamsBegin(path, left, right);
      }
      if HasParties(id) {
        var (left, right) := Parties(id).value;
        SideTexts(inner.vs, left, right, target);
      }
    }
  }

  /** The texts that parse as an outcome of a match. */
  lemma SideTexts(k: VsMatchKind, left: string, right: string, s: string)
    ensures ParseFor(VsMatch(k), Some((left, right)), s).Ok? <==>
            s in if k.Win? then [left, right] else [left + "_win", right + "_win", "draw"]
  {
    WinSuffix(left);
    WinSuffix(right);
    if k.WinOrDraw? && StripWin(s).Some? {
      assert s == StripWin(s).value + "_win";
    }
  }

  /** What a text is rejected for: no dot in the last segment, or no path or not the name of a match, or what the parser
      of kinds says, or a target that names no outcome. */
  lemma RejectedIff(s: string)
    ensures IsPath(s) && StripEvent(s).Some? && ParseKind(StripEvent(s).value.1).Err? ==>
              FromStr(s) == Rejected(Kind(ParseKind(StripEvent(s).value.1).error))
    ensures FromStr(s) == Rejected(MissingEventKind) <==> IsPath(s) && '.' !in Last(s)
    ensures FromStr(s) == Rejected(BadFormat) <==>
            !IsPath(s) || (Kinded(EventId(s)) && KindOf(EventId(s)).VsMatch? && !NamesMatch(Last(PathOf(EventId(s)))))
    ensures FromStr(s).Accepted? ==> FromStr(s).id == EventId(s)
  {
    hide ParseKind, Teams, IsPath, ParseOutcome, NamesMatch;
    var id := EventId(s);
    PathHasSlash(s);
    if IsPath(s) && Kinded(id) {
      ValidIff(id);
      MatchAccepted(PathOf(id));
    }
  }

  lemma PathHasSlash(s: string)
    ensures IsPath(s) ==> '/' in s && LastIndexOf(s, '/').Some? && Last(s) == s[LastIndexOf(s, '/').value + 1..]
  {
    assert IsPath(s) ==> s[0] == '/';
  }

  lemma OnPath(path: Path, kind: EventKind)
    requires StartsWith(path, "/") && '.' !in Last(path) && Canonical(kind) && '/' !in PrintKind(kind)
    ensures var id := FromPathAndKind(path, kind);
            Kinded(id) && PathOf(id) == path && KindOf(id) == kind && (Valid(id) <==> Suits(Last(path), kind))
  {
    hide ParseKind, StripEvent, Last, IsPath, WithEvent, FromStr, Suits, PrintKind;
    assert path[0] == '/';
    FromPathAndKindAnswers(path, kind);
    EventTextIsPath(path, PrintKind(kind));
    ValidTextIff(FromPathAndKind(path, kind).text);
  }

  /** A match can be put on a path exactly when its last segment is two different words with a `_` between them. */
  lemma MatchIsValidIff(path: Path, k: VsMatchKind)
    requires StartsWith(path, "/") && '.' !in Last(path)
    ensures var id := FromPathAndKind(path, VsMatch(k));
            Kinded(id) && PathOf(id) == path && KindOf(id) == VsMatch(k) && (Valid(id) <==> NamesMatch(Last(path)))
  {
    hide ParseKind, StripEvent, Last, IsPath, WithEvent, FromStr, NamesMatch;
    OnPath(path, VsMatch(k));
  }

  /** Occurrences, prices of up to 64 digits, and bounds on prices can be put on every path of events. */
  lemma PlainIsValid(path: Path, kind: EventKind)
    requires StartsWith(path, "/") && '.' !in Last(path)
    requires kind.SingleOccurrence? || (kind.Price? && kind.n_digits <= 64) ||
             (kind.Predicated? && kind.inner == Price(0) && kind.pred.Bound?)
    ensures var id := FromPathAndKind(path, kind);
            Valid(id) && Kinded(id) && PathOf(id) == path && KindOf(id) == kind
  {
    hide ParseKind, StripEvent, Last, IsPath, WithEvent, FromStr;
    assert '/' !in PrintKind(kind) by {
      assert kind.Predicated? ==> PrintKind(kind.inner) == "price";
    }
    OnPath(path, kind);
  }

  /** A predicate is accepted on names that no match can have: its match is not looked at as an id of its own. */
  lemma SomePredicateHasNoMatch()
    ensures Valid(EventId("/a_a.winner=a")) && !Valid(EventId("/a_a.winner"))
  {
    hide ParseKind, StripEvent, Last, FromStr, Suits, Split;
    var path := "/a_a";
    var kind := Predicated(VsMatch(Win), Eq("a"));
    SameSides();
    assert PrintKind(VsMatch(Win)) == "winner";
    assert PrintKind(kind) == "winner" + (['='] + "a") == "winner=a";
    assert WithEvent(path, "winner=a") == "/a_a.winner=a" && WithEvent(path, "winner") == "/a_a.winner";
    OnPath(path, kind);
    OnPath(path, VsMatch(Win));
    SameSidesSuit();
  }

  lemma SameSides()
    ensures StartsWith("/a_a", "/") && Last("/a_a") == "a_a" && '.' !in Last("/a_a")
  {
    assert "/a_a"[0] == '/';
    LastIndexOfIs("/a_a", '/', 0);
  }

  lemma SameSidesSuit()
    ensures Suits("a_a", Predicated(VsMatch(Win), Eq("a"))) && !Suits("a_a", VsMatch(Win))
  {
    assert "a_a" == "a" + "_" + "a" && "a_a"[3..] == "";
    assert BeginsWithSides("a_a", "a", "a");
    forall left, right | IsMatchName("a_a", left, right)
      ensures left == right
    {
      assert |left| + |right| == 2 && (left + "_" + right)[|left|] == '_';
      assert |left| == 1;
      assert (left + "_" + right)[0] == left[0] && (left + "_" + right)[2] == right[0];
    }
  }

  // ---------------------------------------------------------------- the outcomes of a match

  /** The outcome of a match with value 0 is its left side and that with value 1 its right side, in the order in which
      they stand in the path. */
  lemma MatchOutcomesIff(id: EventId, left: string, right: string, s: string, v: u64)
    requires Kinded(id) && KindOf(id).VsMatch? && IsMatchName(Last(PathOf(id)), left, right)
    ensures HasParties(id)
    ensures ParseValue(id, s) == Ok(v) <==>
            if KindOf(id).vs.Win? then (s == left && v == 0) || (s == right && left != right && v == 1)
            else (s == left + "_win" && v == 0) || (s == right + "_win" && left != right && v == 1) ||
                 (s == "draw" && v == 2)
  {
    hide ParseKind, StripEvent, Last, Split, IsMatchName, StripWin;
    TeamsAre(PathOf(id), left, right);
    WinSuffix(left);
    WinSuffix(right);
    SideTexts(KindOf(id).vs, left, right, s);
    if left + "_win" == right + "_win" {
      assert StripWin(left + "_win") == StripWin(right + "_win");
    }
  }

  /** So the text of a match is its two outcomes, in order; they are announced in that order too, and each is attested
      to with its position. */
  lemma SidesInOrder(id: EventId, v: u64)
    requires Usable(id) && KindOf(id).VsMatch? && InRange(id, v)
    ensures AttestationIndexes(Outcome(id, v)) == [v]
    ensures var first, second := OutcomeString(Outcome(id, 0)), OutcomeString(Outcome(id, 1));
            if KindOf(id).vs.Win? then
              IsMatchName(Last(PathOf(id)), first, second) && DescriptorOf(id) == Enum([first, second])
            else
              EndsWith(first, "_win") && EndsWith(second, "_win") &&
              IsMatchName(Last(PathOf(id)), first[..|first| - 4], second[..|second| - 4]) &&
              OutcomeString(Outcome(id, 2)) == "draw" && DescriptorOf(id) == Enum([first, second, "draw"])
  {
    hide ParseKind, StripEvent, Last, Split, IsMatchName, StripWin;
    var teams := Teams(PathOf(id));
    assert teams == [teams[0], teams[1]];
    TeamsAre(PathOf(id), teams[0], teams[1]);
    WinText(teams[0]);
    WinText(teams[1]);
  }

  /** The text that an error blames is the one that does not parse, or that without what marks a winner. */
  lemma BlamedText(id: EventId, s: string)
    requires HasParties(id) && ParseValue(id, s).Err?
    ensures ParseValue(id, s).error.outcome == s || ParseValue(id, s).error.outcome + "_win" == s
  {
    hide ParseKind, StripEvent, Parse;
  }

  lemma WinText(s: string)
    ensures EndsWith(s + "_win", "_win") && (s + "_win")[..|s + "_win"| - 4] == s
  {
  }
}
