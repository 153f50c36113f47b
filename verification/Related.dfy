/** Deriving events and outcomes: predicates on an event, and the outcomes that follow from one outcome. */
module Related {
  import opened Wrappers
  import opened Strings
  import opened Decimal
  import opened Digits
  import opened Paths
  import opened EventKinds
  import opened EventIds
  import opened Outcomes
  import opened IdParser
  import opened Announcements
  import opened Stores

  // ---------------------------------------------------------------- a database seen below a prefix

  /** The query a prefixed database passes on. */
  function PrefixQuery(prefix: Path, q: EventQuery): EventQuery {
    q.(path := Some(Prefix(match q.path case None => ROOT case Some(p) => p, prefix)))
  }

  function StripEventId(prefix: Path, e: Event): Event {
    e.(id := StripId(e.id, prefix))
  }

  function StrippedIds(prefix: Path, events: seq<Event>): seq<EventId> {
    seq(|events|, i requires 0 <= i < |events| => StripId(events[i].id, prefix))
  }

  class PrefixedDb {
    const inner: InMemory
    const prefix: Path

    constructor (inner: InMemory, prefix: Path)
      ensures this.inner == inner && this.prefix == prefix
    {
      this.inner, this.prefix := inner, prefix;
    }

    method QueryEvent(q: EventQuery) returns (r: Option<Event>)
      requires inner.Valid()
      ensures IsPrefixedFirst(inner.inner, prefix, q, r)
    {
      var first := inner.QueryEvent(PrefixQuery(prefix, q));
      r := if first.None? then None else Some(StripEventId(prefix, first.value));
    }

    method QueryEvents(q: EventQuery) returns (r: seq<Event>)
      requires inner.Valid()
      ensures exists events | IsQueryResult(inner.inner, PrefixQuery(prefix, q), events) ::
                r == seq(|events|, i requires 0 <= i < |events| => StripEventId(prefix, events[i]))
    {
      var events := inner.QueryEvents(PrefixQuery(prefix, q));
      r := seq(|events|, i requires 0 <= i < |events| => StripEventId(prefix, events[i]));
    }
  }

  ghost predicate IsPrefixedFirst(s: Store, prefix: Path, q: EventQuery, r: Option<Event>)
    requires Keyed(s)
  {
    exists first | IsFirst(s, PrefixQuery(prefix, q), first) ::
      r == if first.None? then None else Some(StripEventId(prefix, first.value))
  }

  /** A raw prefix of the path of an event is a raw prefix of its text. */
  lemma FoundStartsWith(prefix: Path, q: EventQuery, e: AnnouncedEvent)
    requires Kinded(e.event.id) && Matches(PrefixQuery(prefix, q), e)
    ensures prefix != ROOT ==> StartsWith(e.event.id.text, prefix)
  {
    hide ParseKind, KindOf, StripEvent, Prefix;
    StripEventParts(e.event.id.text);
    if prefix != ROOT {
      var path := match q.path case None => ROOT case Some(p) => p;
      StartsWithBase(path, prefix, PathOf(e.event.id), e.event.id.text);
    }
  }

  lemma StartsWithBase(path: Path, prefix: Path, found: Path, text: Path)
    requires prefix != ROOT && StartsWith(found, Prefix(path, prefix)) && StartsWith(text, found)
    ensures StartsWith(text, prefix)
  {
    assert Prefix(path, prefix)[..|prefix|] == prefix;
    assert found[..|prefix|] == Prefix(path, prefix)[..|prefix|];
    assert text[..|prefix|] == found[..|prefix|];
  }

  /** Whatever a prefixed query finds, prefixing the stripped id again names the stored event it came from. */
  lemma FoundIsNamedAgain(s: Store, prefix: Path, q: EventQuery, e: Event)
    requires Keyed(s) && IsFirst(s, PrefixQuery(prefix, q), Some(e))
    ensures PrefixId(StripId(e.id, prefix), prefix) == e.id && e.id in s
  {
    FoundStartsWith(prefix, q, s[e.id]);
    hide ParseKind, Matches, PrefixQuery;
    if prefix != ROOT {
      StripThenPrefixId(e.id, prefix);
    }
  }

  /** The outcome creator can look at the stripped id, and then sees the kind of the stored one, exactly
      when the event lies below the prefix with a slash left in what follows it. */
  lemma FoundShowsKindIff(s: Store, prefix: Path, q: EventQuery, e: Event)
    requires Keyed(s) && IsFirst(s, PrefixQuery(prefix, q), Some(e)) && prefix != ROOT
    ensures StartsWith(e.id.text, prefix)
    ensures Kinded(StripId(e.id, prefix)) <==> '/' in e.id.text[|prefix|..]
    ensures Kinded(StripId(e.id, prefix)) ==> KindOf(StripId(e.id, prefix)) == KindOf(e.id)
  {
    FoundStartsWith(prefix, q, s[e.id]);
    hide ParseKind, Matches, PrefixQuery, StripEvent;
    StrippedIdShowsEventIff(e.id, prefix);
  }

  // ---------------------------------------------------------------- predicates of an event

  datatype OutcomeFilter = All | Indexes(chosen: seq<u64>)

  /** `EventId::predicate` for every outcome the filter picks; an index out of range would not print. */
  function ApplyPredicate(id: EventId, kind: PredicateKind, filter: OutcomeFilter): seq<EventId>
    requires HasParties(id) && !KindOf(id).Predicated?
    requires kind.EqKind? && filter.Indexes? ==> forall i | 0 <= i < |filter.chosen| :: InRange(id, filter.chosen[i])
  {
    match filter
    case Indexes(chosen) => seq(|chosen|, i requires 0 <= i < |chosen| => PredicateId(id, kind, chosen[i]))
    case All => seq(NOutcomes(KindOf(id)), i requires 0 <= i < NOutcomes(KindOf(id)) => PredicateId(id, kind, i))
  }

  // ---------------------------------------------------------------- related outcomes

  /** A bound compares numbers, and expects a numeric outcome. */
  function PredicateOutcome(p: Predicate, outcome: string): u64
    requires p.Bound? ==> Parse(outcome, U64_MAX).Some?
  {
    match p
    case Eq(target) => if outcome == target then 1 else 0
    case Bound(Gt, bound) => if Parse(outcome, U64_MAX).value > bound then 1 else 0
  }

  /** A bound only ever meets a printed price. */
  lemma BoundMeetsNumber(outcome: Outcome, related: EventId)
    requires HasParties(outcome.id) && InRange(outcome.id, outcome.value) && Kinded(related)
    requires KindOf(related).Predicated? && EqFuzzy(KindOf(related).inner, KindOf(outcome.id))
    ensures KindOf(related).pred.Bound? ==> Parse(OutcomeString(outcome), U64_MAX) == Some(outcome.value)
  {
    KindIsCanonical(related);
    ParseOfPrint(outcome.value, U64_MAX);
  }

  function Relate(outcome: Outcome, related: EventId): Option<Outcome>
    requires HasParties(outcome.id) && InRange(outcome.id, outcome.value) && Kinded(related)
  {
    var kind := KindOf(outcome.id);
    match KindOf(related)
    case Predicated(inner, pred) =>
      if EqFuzzy(inner, kind) then
        BoundMeetsNumber(outcome, related);
        Some(Outcome(related, PredicateOutcome(pred, OutcomeString(outcome))))
      else None
    case Price(_) => if kind.Price? then Some(Outcome(related, outcome.value)) else None
    case _ => None
  }

  predicate AllKinded(ids: seq<EventId>) {
    forall id | id in ids :: Kinded(id)
  }

  function FilterRelated(outcome: Outcome, related: seq<EventId>): (r: seq<Outcome>)
    requires HasParties(outcome.id) && InRange(outcome.id, outcome.value) && AllKinded(related)
    ensures forall o :: o in r <==> exists id | id in related :: Relate(outcome, id) == Some(o)
  {
    if related == [] then []
    else
      var rest := FilterRelated(outcome, related[1..]);
      assert related == [related[0]] + related[1..];
      match Relate(outcome, related[0])
      case None => rest
      case Some(o) => [o] + rest
  }

  /** The query for siblings: every event whose path begins with the path of the source, as text. */
  function SiblingQuery(id: EventId): EventQuery
    requires StripEvent(id.text).Some?
  {
    EventQuery(Some(PathOf(id)), None, Earliest, ROOT, None)
  }

  /** `complete_related` on what the query returned. */
  function CompleteRelated(outcome: Outcome, related: seq<EventId>): (r: seq<Outcome>)
    requires HasParties(outcome.id) && InRange(outcome.id, outcome.value) && AllKinded(related)
    ensures forall o :: o in r <==>
              NOutcomes(KindOf(outcome.id)) >= 3 && exists id | id in related :: Relate(outcome, id) == Some(o)
  {
    if NOutcomes(KindOf(outcome.id)) < 3 then [] else FilterRelated(outcome, related)
  }

  /** What follows from an outcome is for the event that it was looked up for. */
  lemma RelateNames(outcome: Outcome, related: EventId)
    requires HasParties(outcome.id) && InRange(outcome.id, outcome.value) && Kinded(related)
    ensures Relate(outcome, related).Some? ==> Relate(outcome, related).value.id == related
  {
    hide ParseKind, OutcomeString, PredicateOutcome;
  }

  /** What is completed, seen from an event: it was looked up, the outcome has enough others, and says something
      about the event. */
  lemma CompletedIff(outcome: Outcome, related: seq<EventId>, o: Outcome)
    requires HasParties(outcome.id) && InRange(outcome.id, outcome.value) && AllKinded(related)
    ensures o in CompleteRelated(outcome, related) <==>
            NOutcomes(KindOf(outcome.id)) >= 3 && o.id in related && Relate(outcome, o.id) == Some(o)
  {
    hide ParseKind, Relate, FilterRelated, OutcomeString;
    forall id | id in related && Relate(outcome, id) == Some(o)
      ensures id == o.id
    {
      RelateNames(outcome, id);
    }
  }

  /** Nothing follows from an outcome of a `winner`, an occurrence or a predicate, for any event. */
  lemma FewOutcomesIff(outcome: Outcome, related: seq<EventId>)
    requires HasParties(outcome.id) && InRange(outcome.id, outcome.value) && AllKinded(related)
    ensures NOutcomes(KindOf(outcome.id)) >= 3 <==>
            KindOf(outcome.id).Price? || KindOf(outcome.id) == VsMatch(WinOrDraw)
    ensures NOutcomes(KindOf(outcome.id)) < 3 ==> CompleteRelated(outcome, related) == []
  {
    hide ParseKind, FilterRelated, OutcomeString;
  }

  /** So a predicate on a `winner` or on an occurrence is never completed, whatever outcome is looked at. */
  lemma PredicateOfFewIsNeverCompleted(outcome: Outcome, related: seq<EventId>, pred: EventId)
    requires HasParties(outcome.id) && InRange(outcome.id, outcome.value) && AllKinded(related)
    requires Kinded(pred) && KindOf(pred).Predicated?
    requires KindOf(pred).inner == VsMatch(Win) || KindOf(pred).inner == SingleOccurrence
    ensures forall o | o in CompleteRelated(outcome, related) :: o.id != pred
  {
    hide ParseKind, FilterRelated, CompleteRelated, OutcomeString;
    FewOutcomesIff(outcome, related);
    forall o | o in CompleteRelated(outcome, related)
      ensures o.id != pred
    {
      CompletedIff(outcome, related, o);
    }
  }

  /** What an outcome of `source` says about an `=` predicate made for outcome `w` of a sibling. */
  lemma EqRelates(source: EventId, other: EventId, v: u64, w: u64)
    requires Usable(source) && Usable(other) && !KindOf(other).Predicated?
    requires EqFuzzy(KindOf(source), KindOf(other)) && Teams(PathOf(source)) == Teams(PathOf(other))
    requires InRange(source, v) && InRange(other, w) && Predicable(other, EqKind, w)
    ensures var pred := PredicateId(other, EqKind, w);
            Kinded(pred) && Relate(Outcome(source, v), pred) == Some(Outcome(pred, if v == w then 1 else 0))
  {
    hide ParseKind, Split, PrintKind, WithEvent, IndexOf, Teams;
    PredicateIdAnswersIff(other, EqKind, w);
    OutcomeStringInjective(source, v, w);
  }

  /** An `=` predicate made by `EventId::predicate` for outcome `w` of a sibling is completed as true exactly when
      it was looked up, the source has three outcomes or more, and the outcome is `w`; as false exactly when the
      outcome is another. */
  lemma EqSiblingTruth(source: EventId, other: EventId, v: u64, w: u64, related: seq<EventId>, truth: u64)
    requires Usable(source) && Usable(other) && !KindOf(other).Predicated? && AllKinded(related)
    requires EqFuzzy(KindOf(source), KindOf(other)) && Teams(PathOf(source)) == Teams(PathOf(other))
    requires InRange(source, v) && InRange(other, w) && Predicable(other, EqKind, w)
    ensures var pred := PredicateId(other, EqKind, w);
            Outcome(pred, truth) in CompleteRelated(Outcome(source, v), related) <==>
            pred in related && NOutcomes(KindOf(source)) >= 3 && truth == if v == w then 1 else 0
  {
    hide ParseKind, Teams, Relate, PredicateId, CompleteRelated;
    EqRelates(source, other, v, w);
    CompletedIff(Outcome(source, v), related, Outcome(PredicateId(other, EqKind, w), truth));
  }

  /** A bound predicate of a price is completed as true exactly when it was looked up and the price exceeds the
      bound, and as false exactly when it does not. */
  lemma BoundSiblingTruth(
    source: EventId, other: EventId, v: u64, bound: u64, related: seq<EventId>, truth: u64)
    requires Usable(source) && Usable(other) && KindOf(source).Price? && KindOf(other).Price? && AllKinded(related)
    ensures var pred := PredicateId(other, BoundOf(Gt), bound);
            Outcome(pred, truth) in CompleteRelated(Outcome(source, v), related) <==>
            pred in related && truth == if v > bound then 1 else 0
  {
    hide ParseKind, Teams, Relate, PredicateId, CompleteRelated;
    BoundRelates(source, other, v, bound);
    CompletedIff(Outcome(source, v), related, Outcome(PredicateId(other, BoundOf(Gt), bound), truth));
  }

  lemma BoundRelates(source: EventId, other: EventId, v: u64, bound: u64)
    requires Usable(source) && Usable(other) && KindOf(source).Price? && KindOf(other).Price?
    ensures var pred := PredicateId(other, BoundOf(Gt), bound);
            Kinded(pred) && Relate(Outcome(source, v), pred) == Some(Outcome(pred, if v > bound then 1 else 0))
  {
    hide ParseKind, Split, PrintKind, WithEvent, IndexOf, Teams;
    PredicateIdAnswersIff(other, BoundOf(Gt), bound);
    var pred := PredicateId(other, BoundOf(Gt), bound);
    BoundMeetsNumber(Outcome(source, v), pred);
  }

  /** A sibling price of any width that was looked up is completed with the same value and no other; the narrower
      digits are the wider ones capped. */
  lemma PriceSiblingValue(source: EventId, sibling: EventId, v: u64, related: seq<EventId>, x: u64)
    requires Usable(source) && Usable(sibling) && KindOf(source).Price? && KindOf(sibling).Price? && AllKinded(related)
    ensures Outcome(sibling, x) in CompleteRelated(Outcome(source, v), related) <==> sibling in related && x == v
    ensures var n, m := KindOf(source).n_digits, KindOf(sibling).n_digits;
            m <= n ==>
              Numeral(AttestationIndexes(Outcome(sibling, v))) ==
                Digits.Min(Numeral(AttestationIndexes(Outcome(source, v))), Pow2(m) - 1)
  {
    hide ParseKind, CappedBits, Numeral, Pow2, CompleteRelated;
    CompletedIff(Outcome(source, v), related, Outcome(sibling, x));
    KindIsCanonical(source);
    KindIsCanonical(sibling);
    var n, m := KindOf(source).n_digits, KindOf(sibling).n_digits;
    if m <= n {
      CappedBitsAtTwoWidths(v, m, n);
    }
  }

  // ---------------------------------------------------------------- looked up below a prefix

  lemma QueriedIds(s: Store, q: EventQuery, prefix: Path, events: seq<Event>, x: EventId)
    requires Keyed(s) && IsQueryResult(s, q, events)
    ensures x in StrippedIds(prefix, events) <==> exists id | id in s && Matches(q, s[id]) :: x == StripId(id, prefix)
  {
    hide Matches, Kinded, Ordered, StripId;
    var ids := StrippedIds(prefix, events);
    if x in ids {
      var i :| 0 <= i < |ids| && ids[i] == x;
      assert events[i] in events;
    }
    if id :| id in s && Matches(q, s[id]) && x == StripId(id, prefix) {
      var i :| 0 <= i < |events| && events[i] == s[id].event;
      assert ids[i] == x;
    }
  }

  /** Prefixing again what the sibling query found names the stored event. */
  lemma SiblingIsNamedAgain(prefix: Path, source: EventId, id: EventId)
    requires StripEvent(source.text).Some? && Kinded(id)
    requires MatchesId(PrefixQuery(prefix, SiblingQuery(source)), id)
    ensures PrefixId(StripId(id, prefix), prefix) == id && (prefix != ROOT ==> StartsWith(id.text, prefix))
  {
    hide ParseKind, StripEvent, KindOf, Prefix;
    StripEventParts(id.text);
    if prefix != ROOT {
      StartsWithBase(PathOf(source), prefix, PathOf(id), id.text);
    }
    StripThenPrefixId(id, prefix);
  }

  /** An event is found, prefix stripped, exactly when it is stored under the prefix and its path continues the path
      of the source as text. */
  lemma SiblingFoundIff(s: Store, prefix: Path, source: EventId, events: seq<Event>, x: EventId)
    requires Keyed(s) && StripEvent(source.text).Some? && Kinded(x)
    requires IsQueryResult(s, PrefixQuery(prefix, SiblingQuery(source)), events)
    ensures x in StrippedIds(prefix, events) <==>
            PrefixId(x, prefix) in s &&
            StartsWith(PathOf(PrefixId(x, prefix)), Prefix(PathOf(source), prefix))
  {
    hide ParseKind, StripEvent, KindOf, Prefix, IsQueryResult;
    var q := PrefixQuery(prefix, SiblingQuery(source));
    QueriedIds(s, q, prefix, events, x);
    EventTextIsNotRoot(x.text);
    StripUndoesPrefixIff(x.text, prefix);
    forall id | id in s && Matches(q, s[id]) && x == StripId(id, prefix)
      ensures id == PrefixId(x, prefix)
    {
      SiblingIsNamedAgain(prefix, source, id);
    }
    if PrefixId(x, prefix) in s {
      assert s[PrefixId(x, prefix)].event.id == PrefixId(x, prefix);
    }
  }

  /** Below a path other than the root everything that is found shows its kind, so nothing panics. */
  lemma SiblingsShowKinds(s: Store, prefix: Path, source: EventId, events: seq<Event>)
    requires Keyed(s) && StripEvent(source.text).Some? && PathOf(source) != ROOT
    requires IsQueryResult(s, PrefixQuery(prefix, SiblingQuery(source)), events)
    ensures AllKinded(StrippedIds(prefix, events))
  {
    hide ParseKind, StripEvent, IsQueryResult;
    var q := PrefixQuery(prefix, SiblingQuery(source));
    StripEventParts(source.text);
    forall x | x in StrippedIds(prefix, events)
      ensures Kinded(x)
    {
      QueriedIds(s, q, prefix, events, x);
      var id :| id in s && Matches(q, s[id]) && x == StripId(id, prefix);
      SiblingIsNamedAgain(prefix, source, id);
      StripEventParts(id.text);
      SlashIsLeft(PathOf(source), prefix, PathOf(id), id.text);
      StrippedIdShowsEventIff(id, prefix);
    }
  }

  lemma SlashIsLeft(path: Path, prefix: Path, found: Path, text: Path)
    requires '/' in path && path != ROOT && StartsWith(found, Prefix(path, prefix)) && StartsWith(text, found)
    ensures StartsWith(text, prefix) || prefix == ROOT
    ensures '/' in StripPrefix(text, prefix)
  {
    var i :| 0 <= i < |path| && path[i] == '/';
    if prefix != ROOT {
      StartsWithBase(path, prefix, found, text);
      assert text[|prefix| + i] == found[|prefix| + i] == (prefix + path)[|prefix| + i] == path[i];
      assert StripPrefix(text, prefix)[i] == '/';
    } else {
      assert text[i] == path[i];
    }
  }

  /** Of the full set of `=` predicates of a match with a draw, stored below the prefix, exactly one is completed as
      true, the one of the outcome, and the others as false. */
  lemma ExactlyOneTrue(s: Store, prefix: Path, source: EventId, v: u64, events: seq<Event>)
    requires Usable(source) && KindOf(source) == VsMatch(WinOrDraw) && InRange(source, v)
    requires forall w: u64 | InRange(source, w) :: Predicable(source, EqKind, w)
    requires Keyed(s) && IsQueryResult(s, PrefixQuery(prefix, SiblingQuery(source)), events)
    requires forall id | id in ApplyPredicate(source, EqKind, All) :: PrefixId(id, prefix) in s
    ensures var preds := ApplyPredicate(source, EqKind, All);
            var ids := StrippedIds(prefix, events);
            |preds| == 3 && AllKinded(ids) &&
            (forall w: u64, x: u64 | w < 3 && x < 3 && w != x :: preds[w] != preds[x]) &&
            (forall w: u64, truth: u64 | w < 3 ::
               Outcome(preds[w], truth) in CompleteRelated(Outcome(source, v), ids) <==>
               truth == if v == w then 1 else 0)
  {
    hide Relate, PredicateId, ParseKind, Predicable, CompleteRelated, Prefix, IsQueryResult, StripEvent;
    var preds := ApplyPredicate(source, EqKind, All);
    var ids := StrippedIds(prefix, events);
    MatchIsBelowRoot(source);
    SiblingsShowKinds(s, prefix, source, events);
    forall w: u64 | w < 3
      ensures Kinded(preds[w]) && preds[w] in ids
    {
      EqRelates(source, source, v, w);
      PredicateIdAnswersIff(source, EqKind, w);
      SiblingFoundIff(s, prefix, source, events, preds[w]);
      assert preds[w] in preds;
      PrefixIdKeeps(preds[w], prefix);
      SamePathStarts(PathOf(source), prefix);
    }
    forall w: u64, truth: u64 | w < 3
      ensures Outcome(preds[w], truth) in CompleteRelated(Outcome(source, v), ids) <==>
              truth == if v == w then 1 else 0
    {
      EqSiblingTruth(source, source, v, w, ids, truth);
    }
    forall w: u64, x: u64 | w < 3 && x < 3 && w != x
      ensures preds[w] != preds[x]
    {
      EqRelates(source, source, w, w);
      EqRelates(source, source, w, x);
    }
  }

  lemma MatchIsBelowRoot(source: EventId)
    requires Usable(source) && KindOf(source).VsMatch?
    ensures PathOf(source) != ROOT
  {
    hide ParseKind, StripEvent;
    RootHasNoTeams();
  }

  lemma RootHasNoTeams()
    ensures |Teams(ROOT)| == 1
  {
    LastIndexOfIs(ROOT, '/', 0);
    assert Last(ROOT) == "";
  }

  lemma SamePathStarts(path: Path, prefix: Path)
    ensures path != ROOT ==> StartsWith(if prefix == ROOT then path else prefix + path, Prefix(path, prefix))
  {
  }

  /** An `=` predicate on a price compares text: written by hand, it is true of the price it names
      exactly when it is written the way prices are printed. */
  lemma PriceTargetFaithfulIff(target: string, t: u64)
    requires Parse(target, U64_MAX) == Some(t)
    ensures (forall v: u64 :: PredicateOutcome(Eq(target), Print(v)) == 1 <==> v == t) <==> target == Print(t)
  {
    if target == Print(t) {
      forall v: u64
        ensures PredicateOutcome(Eq(target), Print(v)) == 1 <==> v == t
      {
        ParseOfPrint(v, U64_MAX);
      }
    }
    if forall v: u64 :: PredicateOutcome(Eq(target), Print(v)) == 1 <==> v == t {
      assert PredicateOutcome(Eq(target), Print(t)) == 1;
    }
  }

  /** Such a predicate can be stored: on every valid price the parser accepts it. */
  lemma PaddedIsValid(source: EventId)
    requires Valid(source) && KindOf(source).Price?
    ensures var pred := ReplaceKind(source, Predicated(Price(0), Eq("05")));
            Valid(pred) && Kinded(pred) &&
            KindOf(pred) == Predicated(Price(0), Eq("05")) && PathOf(pred) == PathOf(source)
  {
    hide ParseKind, StripEvent, Last, Parse;
    var kind := Predicated(Price(0), Eq("05"));
    var pred := ReplaceKind(source, kind);
    StripEventParts(source.text);
    PaddedText();
    FromPathAndKindAnswers(PathOf(source), kind);
    PredicateTextIsPath(source.text, PrintKind(kind));
    ValidIff(pred);
    InnerAnswers(PathOf(source), Price(0));
    ParseIsNotInjective();
  }

  lemma PaddedText()
    ensures var kind := Predicated(Price(0), Eq("05")); Canonical(kind) && '/' !in PrintKind(kind)
  {
    assert PrintKind(Price(0)) == "price";
    assert PrintKind(Predicated(Price(0), Eq("05"))) == "price" + (['='] + "05");
  }

  /** And no price completes it as true, the one it names included. */
  lemma PaddedTargetIsNeverTrue(source: EventId, v: u64, related: seq<EventId>, pred: EventId)
    requires HasParties(source) && KindOf(source).Price? && AllKinded(related)
    requires Kinded(pred) && KindOf(pred) == Predicated(Price(0), Eq("05"))
    ensures Parse("05", U64_MAX) == Some(5)
    ensures Outcome(pred, 1) !in CompleteRelated(Outcome(source, v), related)
  {
    hide ParseKind, StripEvent, Parse, CompleteRelated;
    ParseIsNotInjective();
    CompletedIff(Outcome(source, v), related, Outcome(pred, 1));
    PaddedIsNotPrinted(v);
  }

  lemma PaddedIsNotPrinted(v: u64)
    ensures Print(v) != "05"
  {
    ParseIsNotInjective();
    ParseOfPrint(v, U64_MAX);
    assert v < 10 ==> |Print(v)| == 1;
  }

  /** The sibling query looks at text: next to every valid price there is another valid path, the one with a further
      digit, that the outcome of the price completes as well wherever it is stored. */
  lemma NeighbourIsCompleted(s: Store, prefix: Path, source: EventId, v: u64, events: seq<Event>)
    requires Valid(source) && KindOf(source).Price?
    requires Keyed(s) && IsQueryResult(s, PrefixQuery(prefix, SiblingQuery(source)), events)
    ensures var neighbour := FromPathAndKind(PathOf(source) + "0", Price(0));
            Valid(neighbour) && PathOf(neighbour) != PathOf(source) &&
            (PrefixId(neighbour, prefix) in s && AllKinded(StrippedIds(prefix, events)) ==>
               Outcome(neighbour, v) in CompleteRelated(Outcome(source, v), StrippedIds(prefix, events)))
  {
    hide ParseKind, StripEvent, Last, CompleteRelated, IsQueryResult, FromStr;
    ValidIsUsable(source);
    NeighbourAnswers(source);
    var neighbour := FromPathAndKind(PathOf(source) + "0", Price(0));
    PrefixIdKeeps(neighbour, prefix);
    SiblingFoundIff(s, prefix, source, events, neighbour);
    LongerPathStarts(PathOf(source), prefix);
    if AllKinded(StrippedIds(prefix, events)) {
      CompletedIff(Outcome(source, v), StrippedIds(prefix, events), Outcome(neighbour, v));
    }
  }

  lemma NeighbourAnswers(source: EventId)
    requires Valid(source) && KindOf(source).Price?
    ensures var neighbour := FromPathAndKind(PathOf(source) + "0", Price(0));
            Valid(neighbour) && Kinded(neighbour) && KindOf(neighbour) == Price(0) &&
            PathOf(neighbour) == PathOf(source) + "0"
  {
    hide ParseKind, StripEvent, LastIndexOf, Last, Split;
    ValidIsUsable(source);
    StripEventParts(source.text);
    NeighbourPath(PathOf(source));
    PathStartsWithSlash(source.text);
    PriceIsValid(PathOf(source) + "0");
  }

  lemma PathStartsWithSlash(p: Path)
    requires IsPath(p) && StripEvent(p).Some?
    ensures StartsWith(StripEvent(p).value.0 + "0", "/")
  {
    StripEventParts(p);
    var path := StripEvent(p).value.0;
    assert path != [];
    assert p[0] == path[0] == '/';
    assert (path + "0")[0] == '/';
  }

  lemma LongerPathStarts(path: Path, prefix: Path)
    ensures StartsWith(if prefix == ROOT then path + "0" else prefix + (path + "0"), Prefix(path, prefix))
  {
    assert prefix + (path + "0") == (prefix + path) + "0";
  }

  lemma NeighbourPath(path: Path)
    requires '/' in path && '.' !in Last(path)
    ensures '/' in path + "0" && '.' !in Last(path + "0")
    ensures path + "0" != path
  {
    LastOfSum(path, "0");
    assert (path + "0")[LastIndexOf(path, '/').value] == '/';
  }

  /** The kinds of events that an outcome says something about: prices by a price, and predicates on its kind. */
  predicate SpeaksAbout(kind: EventKind, other: EventKind) {
    (kind.Price? && other.Price?) || (other.Predicated? && EqFuzzy(other.inner, kind))
  }

  lemma RelateSomeIff(outcome: Outcome, related: EventId)
    requires HasParties(outcome.id) && InRange(outcome.id, outcome.value) && Kinded(related)
    ensures Relate(outcome, related).Some? <==> SpeaksAbout(KindOf(outcome.id), KindOf(related))
  {
    hide ParseKind, OutcomeString, PredicateOutcome;
  }

  /** Only events of the same path are completed exactly when no event stored below the prefix, of a kind that the
      outcome says something about, has a path that continues the text of the source path. */
  lemma OnlySiblingsIff(s: Store, prefix: Path, outcome: Outcome, events: seq<Event>)
    requires Keyed(s) && HasParties(outcome.id) && InRange(outcome.id, outcome.value)
    requires IsQueryResult(s, PrefixQuery(prefix, SiblingQuery(outcome.id)), events)
    requires AllKinded(StrippedIds(prefix, events)) && NOutcomes(KindOf(outcome.id)) >= 3
    ensures (forall o | o in CompleteRelated(outcome, StrippedIds(prefix, events)) ::
               Kinded(o.id) && PathOf(o.id) == PathOf(outcome.id)) <==>
            (forall id | SpeaksOfSibling(s, prefix, outcome.id, id) ::
               StripEvent(PrefixId(outcome.id, prefix).text).Some? &&
               PathOf(id) == PathOf(PrefixId(outcome.id, prefix)))
  {
    hide ParseKind, StripEvent, KindOf, Prefix, IsQueryResult, CompleteRelated, OutcomeString,
         SpeaksAbout, Relate, StartsWith, StrippedIds;
    var ids := StrippedIds(prefix, events);
    PrefixIdKeeps(outcome.id, prefix);
    forall o | o in CompleteRelated(outcome, ids)
      ensures var id := PrefixId(o.id, prefix);
              Kinded(o.id) && SpeaksOfSibling(s, prefix, outcome.id, id) &&
              (PathOf(o.id) == PathOf(outcome.id) <==> PathOf(id) == PathOf(PrefixId(outcome.id, prefix)))
    {
      CompletedIsStored(s, prefix, outcome, events, o);
    }
    forall id | SpeaksOfSibling(s, prefix, outcome.id, id)
      ensures var x := StripId(id, prefix);
              PrefixId(x, prefix) == id && Kinded(x) && Relate(outcome, x).Some? &&
              Relate(outcome, x).value.id == x && Relate(outcome, x).value in CompleteRelated(outcome, ids)
    {
      StoredIsCompleted(s, prefix, outcome, events, id);
    }
  }

  /** A stored event whose path continues the text of the source path, of a kind that its outcomes speak about. */
  predicate SpeaksOfSibling(s: Store, prefix: Path, source: EventId, id: EventId)
    requires Keyed(s) && Kinded(source)
  {
    id in s && StartsWith(PathOf(id), Prefix(PathOf(source), prefix)) && SpeaksAbout(KindOf(source), KindOf(id))
  }

  lemma CompletedIsStored(s: Store, prefix: Path, outcome: Outcome, events: seq<Event>, o: Outcome)
    requires Keyed(s) && HasParties(outcome.id) && InRange(outcome.id, outcome.value)
    requires IsQueryResult(s, PrefixQuery(prefix, SiblingQuery(outcome.id)), events)
    requires AllKinded(StrippedIds(prefix, events)) && o in CompleteRelated(outcome, StrippedIds(prefix, events))
    ensures var id := PrefixId(o.id, prefix);
            Kinded(o.id) && SpeaksOfSibling(s, prefix, outcome.id, id) &&
            StripEvent(PrefixId(outcome.id, prefix).text).Some? &&
            (PathOf(o.id) == PathOf(outcome.id) <==> PathOf(id) == PathOf(PrefixId(outcome.id, prefix)))
  {
    hide ParseKind, StripEvent, KindOf, Prefix, IsQueryResult, CompleteRelated, OutcomeString,
         SpeaksAbout, Relate, StartsWith;
    CompletedIff(outcome, StrippedIds(prefix, events), o);
    RelateSomeIff(outcome, o.id);
    SiblingFoundIff(s, prefix, outcome.id, events, o.id);
    PrefixIdKeeps(o.id, prefix);
    SamePathsPrefixed(o.id, outcome.id, prefix);
  }

  lemma StoredIsCompleted(s: Store, prefix: Path, outcome: Outcome, events: seq<Event>, id: EventId)
    requires Keyed(s) && HasParties(outcome.id) && InRange(outcome.id, outcome.value)
    requires IsQueryResult(s, PrefixQuery(prefix, SiblingQuery(outcome.id)), events)
    requires AllKinded(StrippedIds(prefix, events)) && NOutcomes(KindOf(outcome.id)) >= 3
    requires SpeaksOfSibling(s, prefix, outcome.id, id)
    ensures var x := StripId(id, prefix);
            PrefixId(x, prefix) == id && Kinded(x) && Relate(outcome, x).Some? && Relate(outcome, x).value.id == x &&
            Relate(outcome, x).value in CompleteRelated(outcome, StrippedIds(prefix, events))
  {
    hide ParseKind, StripEvent, KindOf, Prefix, IsQueryResult, CompleteRelated, OutcomeString,
         SpeaksAbout, Relate, StartsWith;
    var x := StripId(id, prefix);
    QueriedIds(s, PrefixQuery(prefix, SiblingQuery(outcome.id)), prefix, events, x);
    SiblingIsNamedAgain(prefix, outcome.id, id);
    PrefixIdKeeps(x, prefix);
    RelateSomeIff(outcome, x);
    RelateNames(outcome, x);
    CompletedIff(outcome, StrippedIds(prefix, events), Relate(outcome, x).value);
  }

  lemma SamePathsPrefixed(a: EventId, b: EventId, prefix: Path)
    requires StripEvent(a.text).Some? && StripEvent(b.text).Some?
    ensures StripEvent(PrefixId(a, prefix).text).Some? && StripEvent(PrefixId(b, prefix).text).Some?
    ensures PathOf(a) == PathOf(b) <==> PathOf(PrefixId(a, prefix)) == PathOf(PrefixId(b, prefix))
  {
    hide StripEvent;
    PrefixIdKeeps(a, prefix);
    PrefixIdKeeps(b, prefix);
    var x, y := PathOf(a), PathOf(b);
    if prefix != ROOT {
      assert (prefix + x)[|prefix|..] == x && (prefix + y)[|prefix|..] == y;
    }
  }
}
