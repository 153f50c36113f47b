/** Validation of event ids, and the predicate ids derived from them. */
module IdParser {
  import opened Wrappers
  import opened Strings
  import opened Decimal
  import opened Paths
  import opened EventKinds
  import opened EventIds
  import opened Outcomes

  datatype EventIdError = BadFormat | Kind(error: EventKindError) | MissingEventKind

  datatype IdResult = Accepted(id: EventId) | Rejected(error: EventIdError) | Panics

  /** `EventId::try_from`. */
  function TryFrom(p: Path): IdResult {
    match StripEvent(p)
    case None => Rejected(MissingEventKind)
    case Some((path, kindText)) =>
      match ParseKind(kindText)
      case Err(e) => Rejected(Kind(e))
      case Ok(kind) =>
        StripEventParts(p);
        ParseIsCanonical(kindText);
        CheckKind(EventId(p), path, kind)
  }

  /** The checks on the kind; the outcome named by an `=` predicate is checked against the inner id. */
  function CheckKind(id: EventId, path: Path, kind: EventKind): IdResult
    requires EventPath(path) && Canonical(kind)
  {
    match kind
    case VsMatch(_) =>
      if |Teams(path)| != 2 || Teams(path)[0] == Teams(path)[1] then Rejected(BadFormat) else Accepted(id)
    case Predicated(inner, Eq(target)) =>
      InnerAnswers(path, inner);
      CheckTarget(id, FromPathAndKind(path, inner), target)
    case _ => Accepted(id)
  }

  /** What the path part of an id looks like. */
  predicate EventPath(path: Path) {
    '/' in path && '.' !in Last(path)
  }

  function CheckTarget(id: EventId, inner: EventId, target: string): IdResult
    requires Kinded(inner)
  {
    if !HasParties(inner) then Panics
    else
      match ParseOutcome(inner, target)
      case Err(e) => Rejected(Kind(PredEqToInvalidOutcome(e.outcome)))
      case Ok(_) => Accepted(id)
  }

  /** `EventId::from_str`, which deserialization uses too. */
  function FromStr(s: string): IdResult {
    if IsPath(s) then TryFrom(s) else Rejected(BadFormat)
  }

  predicate Valid(id: EventId) {
    FromStr(id.text) == Accepted(id)
  }

  /** The id an `=` predicate is checked against is well formed and shows the inner kind. */
  lemma InnerAnswers(path: Path, inner: EventKind)
    requires EventPath(path) && EqBase(inner)
    ensures var id := FromPathAndKind(path, inner); Kinded(id) && PathOf(id) == path && KindOf(id) == inner
  {
    BaseText(inner);
    FromPathAndKindAnswers(path, inner);
  }

  lemma ValidIsUsable(id: EventId)
    requires Valid(id)
    ensures IsPath(id.text) && Usable(id)
  {
  }

  lemma ValidIff(id: EventId)
    requires Kinded(id)
    ensures EventPath(PathOf(id)) && Canonical(KindOf(id))
    ensures TryFrom(id.text) == CheckKind(id, PathOf(id), KindOf(id))
    ensures Valid(id) <==> IsPath(id.text) && CheckKind(id, PathOf(id), KindOf(id)) == Accepted(id)
  {
    StripEventParts(id.text);
    KindIsCanonical(id);
  }

  /** A valid `=` predicate names an outcome of the event it is about: a printed one, or a price. */
  lemma ValidTargetIsOutcome(id: EventId)
    requires Valid(id) && KindOf(id).Predicated? && KindOf(id).pred.Eq?
    ensures var inner := FromPathAndKind(PathOf(id), KindOf(id).inner);
            var target := KindOf(id).pred.target;
            HasParties(inner) && PathOf(inner) == PathOf(id) && KindOf(inner) == KindOf(id).inner &&
            if KindOf(inner).Price? then Parse(target, U64_MAX).Some?
            else exists v: u64 | InRange(inner, v) :: target == OutcomeString(Outcome(inner, v))
  {
    ValidIff(id);
    var inner := FromPathAndKind(PathOf(id), KindOf(id).inner);
    var target := KindOf(id).pred.target;
    InnerAnswers(PathOf(id), KindOf(id).inner);
    assert HasParties(inner) && ParseOutcome(inner, target).Ok?;
    hide Kinded, WithEvent, PrintKind, FromStr;
    OutcomeStringOfParse(inner, target);
    if !KindOf(inner).Price? {
      var v := ParseOutcome(inner, target).value.value;
      assert Outcome(inner, v) == ParseOutcome(inner, target).value;
    }
  }

  /** An occurrence can be put on every path of events. */
  lemma OccurrenceIsValid(path: Path)
    requires StartsWith(path, "/") && '/' in path && '.' !in Last(path)
    ensures var id := FromPathAndKind(path, SingleOccurrence);
            Valid(id) && Kinded(id) && PathOf(id) == path && KindOf(id) == SingleOccurrence
  {
    hide ParseKind, StripEvent, Last, IsPath, WithEvent, FromStr;
    assert PrintKind(SingleOccurrence) == "occur";
    FromPathAndKindAnswers(path, SingleOccurrence);
    EventTextIsPath(path, "occur");
    ValidIff(FromPathAndKind(path, SingleOccurrence));
  }

  /** And so can a price. */
  lemma PriceIsValid(path: Path)
    requires StartsWith(path, "/") && '/' in path && '.' !in Last(path)
    ensures var id := FromPathAndKind(path, Price(0));
            Valid(id) && Kinded(id) && PathOf(id) == path && KindOf(id) == Price(0)
  {
    hide ParseKind, StripEvent, Last, IsPath, WithEvent, FromStr;
    assert PrintKind(Price(0)) == "price";
    FromPathAndKindAnswers(path, Price(0));
    EventTextIsPath(path, "price");
    ValidIff(FromPathAndKind(path, Price(0)));
  }

  /** Parsing an id panics exactly on an `=` predicate over a match whose last segment has no `_`. */
  lemma FromStrPanicsIff(s: string)
    ensures FromStr(s) == Panics <==>
            IsPath(s) && Kinded(EventId(s)) && PanicKind(KindOf(EventId(s))) && '_' !in Last(PathOf(EventId(s)))
  {
    var id := EventId(s);
    if IsPath(s) && Kinded(id) {
      ValidIff(id);
      if KindOf(id).Predicated? && KindOf(id).pred.Eq? {
        InnerAnswers(PathOf(id), KindOf(id).inner);
      }
    }
  }

  predicate PanicKind(k: EventKind) {
    k.Predicated? && k.pred.Eq? && k.inner.VsMatch?
  }

  lemma ParseVsDraw()
    ensures ParseKind("vs=draw") == Ok(Predicated(VsMatch(WinOrDraw), Eq("draw")))
  {
    hide ParseKind;
    var k := Predicated(VsMatch(WinOrDraw), Eq("draw"));
    calc {
      PrintKind(k);
      "vs" + (['='] + "draw");
      { assert ['='] + "draw" == "=draw"; }
      "vs" + "=draw";
      "vs=draw";
    }
    RoundTripIff(k);
  }

  lemma FromStrCanPanic()
    ensures FromStr("/a.vs=draw") == Panics
  {
    hide ParseKind, FromStr, IsPath;
    PanickingText();
    ParseVsDraw();
    FromStrPanicsIff("/a.vs=draw");
  }

  lemma PanickingText()
    ensures IsPath("/a.vs=draw") && StripEvent("/a.vs=draw") == Some(("/a", "vs=draw")) && Last("/a") == "a"
  {
    var s := "/a.vs=draw";
    assert s[0] == '/' && s[|s| - 1] == 'w';
    LastIndexOfIs("/a", '/', 0);
    assert Last("/a") == "a";
    hide LastIndexOf, IndexOf, StripEvent, Last;
    assert s == WithEvent("/a", "vs=draw");
    StripEventOf("/a", "vs=draw");
  }

  /** Prefixing by a path keeps an id valid. */
  lemma PrefixKeepsValid(id: EventId, base: Path)
    requires Valid(id) && IsPath(base)
    ensures Valid(PrefixId(id, base))
  {
    var id' := PrefixId(id, base);
    PrefixKeepsPath(id.text, base);
    PrefixIdKeeps(id, base);
    ValidIff(id);
    ValidIff(id');
    SameCheck(id, PathOf(id), id', PathOf(id'), KindOf(id));
  }

  /** The checks see the last segment of the path only. */
  lemma SameCheck(a: EventId, path: Path, b: EventId, path': Path, kind: EventKind)
    requires EventPath(path) && EventPath(path') && Canonical(kind)
    requires Teams(path) == Teams(path')
    ensures CheckKind(a, path, kind) == Accepted(a) <==> CheckKind(b, path', kind) == Accepted(b)
  {
    hide Kinded, Teams, PrintKind, WithEvent, ParseFor;
    if kind.Predicated? && kind.pred.Eq? {
      var inner, inner' := FromPathAndKind(path, kind.inner), FromPathAndKind(path', kind.inner);
      InnerAnswers(path, kind.inner);
      InnerAnswers(path', kind.inner);
      if HasParties(inner) {
        assert Parties(inner) == Parties(inner');
        SameOutcomes(inner, inner', 0, kind.pred.target);
      }
    }
  }

  // ---------------------------------------------------------------- predicate ids

  /** `EventId::predicate`; an `=` names an outcome of the id, so the value has to be printable. */
  function PredicateId(id: EventId, kind: PredicateKind, value: u64): EventId
    requires HasParties(id) && !KindOf(id).Predicated?
    requires kind.EqKind? ==> InRange(id, value)
  {
    ReplaceKind(id, PredicateOf(id, kind, value))
  }

  function PredicateOf(id: EventId, kind: PredicateKind, value: u64): EventKind
    requires HasParties(id) && !KindOf(id).Predicated?
    requires kind.EqKind? ==> InRange(id, value)
  {
    var inner := if KindOf(id).Price? then Price(0) else KindOf(id);
    Predicated(inner, if kind.EqKind? then Eq(OutcomeString(Outcome(id, value))) else Bound(kind.bound, value))
  }

  /** What a caller checks before predicating: a bound needs a price, and an `=` an outcome without `?`. */
  predicate Predicable(id: EventId, kind: PredicateKind, value: u64)
    requires HasParties(id)
    requires kind.EqKind? ==> InRange(id, value)
  {
    if kind.EqKind? then '?' !in OutcomeString(Outcome(id, value)) else KindOf(id).Price?
  }

  lemma OutcomeStringHasNoSlash(o: Outcome)
    requires HasParties(o.id) && InRange(o.id, o.value)
    ensures '/' !in OutcomeString(o)
  {
    if KindOf(o.id).VsMatch? {
      TeamsHaveNoSlash(PathOf(o.id));
    }
    PrintForHasNoSlash(KindOf(o.id), Parties(o.id), o.value);
  }

  lemma PrintForHasNoSlash(kind: EventKind, parties: Option<(string, string)>, value: u64)
    requires kind.VsMatch? ==> parties.Some? && '/' !in parties.value.0 && '/' !in parties.value.1
    ensures '/' !in PrintFor(kind, parties, value)
  {
  }

  lemma TeamsHaveNoSlash(path: Path)
    ensures forall t | t in Teams(path) :: '/' !in t
  {
    SplitKeeps(Last(path), '_', 0, '/');
  }

  /** A character that is nowhere in a string is in none of its pieces. */
  lemma {:induction false} SplitKeeps(s: string, c: char, from: nat, d: char)
    requires from <= |s| && d !in s
    ensures forall t | t in SplitFrom(s, c, from) :: d !in t
    decreases |s| - from
  {
    match IndexFrom(s, c, from)
    case None =>
    case Some(i) => SplitKeeps(s, c, i + 1, d);
  }

  lemma PredicateTextHasNoSlash(id: EventId, kind: PredicateKind, value: u64)
    requires HasParties(id) && !KindOf(id).Predicated?
    requires kind.EqKind? ==> InRange(id, value)
    ensures '/' !in PrintKind(PredicateOf(id, kind, value))
    ensures Predicable(id, kind, value) <==> Canonical(PredicateOf(id, kind, value))
  {
    BaseText(PredicateOf(id, kind, value).inner);
    if kind.EqKind? {
      OutcomeStringHasNoSlash(Outcome(id, value));
    }
  }

  /** The predicate id shows the intended kind over the same path exactly when the caller's check holds. */
  lemma PredicateIdAnswersIff(id: EventId, kind: PredicateKind, value: u64)
    requires HasParties(id) && !KindOf(id).Predicated?
    requires kind.EqKind? ==> InRange(id, value)
    ensures var pred := PredicateId(id, kind, value);
            Predicable(id, kind, value) <==> Kinded(pred) && KindOf(pred) == PredicateOf(id, kind, value)
    ensures StripEvent(PredicateId(id, kind, value).text).Some? && PathOf(PredicateId(id, kind, value)) == PathOf(id)
  {
    var k := PredicateOf(id, kind, value);
    PredicateTextHasNoSlash(id, kind, value);
    StripEventParts(id.text);
    StripEventOf(PathOf(id), PrintKind(k));
    RoundTripIff(k);
  }

  /** A predicate on an id that is valid and not itself a predicate is accepted by the parser,
      with the path kept and the intended kind, exactly when the caller's check holds. */
  lemma PredicateIdValidIff(id: EventId, kind: PredicateKind, value: u64)
    requires Valid(id) && !KindOf(id).Predicated?
    requires kind.EqKind? ==> InRange(id, value)
    ensures var pred := PredicateId(id, kind, value);
            Predicable(id, kind, value) <==>
            Valid(pred) && PathOf(pred) == PathOf(id) && KindOf(pred) == PredicateOf(id, kind, value)
  {
    var pred := PredicateId(id, kind, value);
    PredicateIdAnswersIff(id, kind, value);
    if Predicable(id, kind, value) {
      PredicateTextHasNoSlash(id, kind, value);
      PredicateTextIsPath(id.text, PrintKind(PredicateOf(id, kind, value)));
      ValidIff(pred);
      if kind.EqKind? {
        InnerAnswers(PathOf(id), KindOf(pred).inner);
        PredicateTargetParses(id, FromPathAndKind(PathOf(id), KindOf(pred).inner), value);
      }
    }
  }

  lemma PredicateTextIsPath(p: Path, kindText: string)
    requires IsPath(p) && StripEvent(p).Some? && '/' !in kindText
    ensures IsPath(WithEvent(StripEvent(p).value.0, kindText))
  {
    StripEventParts(p);
    var path := StripEvent(p).value.0;
    var s := WithEvent(path, kindText);
    assert path[0] == '/' by {
      assert p[0] == '/';
      assert path != [];
    }
    assert s[|s| - 1] == if kindText == "" then '.' else kindText[|kindText| - 1];
    assert s[0] == '/';
  }

  /** The printed outcome of an id is an outcome of the id of the inner kind. */
  lemma PredicateTargetParses(id: EventId, inner: EventId, value: u64)
    requires Usable(id) && InRange(id, value) && Kinded(inner) && PathOf(inner) == PathOf(id)
    requires KindOf(inner) == (if KindOf(id).Price? then Price(0) else KindOf(id))
    ensures HasParties(inner) && ParseValue(inner, OutcomeString(Outcome(id, value))) == Ok(value)
  {
    ParseOfOutcomeString(Outcome(id, value));
  }
}
