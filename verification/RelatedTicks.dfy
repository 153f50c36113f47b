/** What follows from the outcomes of ticks: predicates on them, the events that an outcome speaks about, and what it
    says about them. */
module RelatedTicks {
  import opened Wrappers
  import opened Strings
  import opened Decimal
  import opened Paths
  import opened EventKinds
  import opened EventIds
  import opened Outcomes
  import opened IdParser
  import opened Announcements
  import opened KeyChains
  import opened Stores
  import opened Oracles
  import opened OracleRuns
  import opened Related
  import opened Tickers
  import opened Ticks

  /** The oracle that the running loop calls is the one opened last. */
  function Running(o: State): nat {
    if o.oracles == [] then 0 else |o.oracles| - 1
  }

  /** Other sources add and complete events that the tickers do not come across. */
  predicate OtherOk(c: Config, who: nat, op: Op) {
    match op
    case Open(_) => false
    case Publish(_) => false
    case Add(w, e) => w == who && Valid(e.id) && !Asked(c, e.id)
    case Complete(w, stamped) => w == who && Acceptable(stamped.outcome) && !Asked(c, stamped.outcome.id)
  }

  /** An outcome that was yielded is what the creator makes up for a tick that is due. */
  predicate StampedFor(c: Config, stamped: StampedOutcome, k: nat) {
    && stamped.outcome.id == TickId(c, TimeOf(c, k))
    && !CreatorPanics(c.creator, stamped.outcome.id)
    && stamped.outcome.value == CreatedValue(c.creator, stamped.outcome.id)
    && Acceptable(PrefixStamped(stamped, c.prefix).outcome)
    && stamped.time >= TimeOf(c, k)
  }

  // ---------------------------------------------------------------- the paths of ticks

  function OwnPath(c: Config, t: Time): Path {
    Prefix(TickPath(c, t), c.prefix)
  }

  /** No other of the first `n` ticks has a path that continues the path of tick `k` as text. */
  ghost predicate NoneContinues(c: Config, n: nat, k: nat) {
    forall j: nat | j < n && j != k :: !StartsWith(OwnPath(c, TimeOf(c, j)), OwnPath(c, TimeOf(c, k)))
  }

  /** Writing the times of the first `n` ticks equally long, as they are up to the year 9999, is enough for that. */
  lemma SameWidthSuffices(c: Config, n: nat, k: nat)
    requires ConfigOk(c) && k < n
    requires forall i: nat, j: nat | i < n && j < n :: |c.stamp(TimeOf(c, i))| == |c.stamp(TimeOf(c, j))|
    ensures NoneContinues(c, n, k)
  {
    hide ConfigOk, TimeOf, OwnId;
    forall j: nat | j < n && j != k
      ensures !StartsWith(OwnPath(c, TimeOf(c, j)), OwnPath(c, TimeOf(c, k)))
    {
      if OwnPath(c, TimeOf(c, j)) == OwnPath(c, TimeOf(c, k)) {
        OwnIdOfPath(c, TimeOf(c, j), TimeOf(c, k));
        OwnIdInjective(c, j, k);
      }
      assert |TickPath(c, TimeOf(c, j))| == |TickPath(c, TimeOf(c, k))|;
    }
  }

  /** When no time continues the text of another, no tick continues the path of another. */
  lemma ApartSuffices(c: Config, n: nat, k: nat)
    requires ConfigOk(c) && StampsApart(c.stamp)
    ensures NoneContinues(c, n, k)
  {
    hide ConfigOk, TimeOf, OwnId, OwnPath, StampsApart;
    forall j: nat | j < n && j != k
      ensures !StartsWith(OwnPath(c, TimeOf(c, j)), OwnPath(c, TimeOf(c, k)))
    {
      if StartsWith(OwnPath(c, TimeOf(c, j)), OwnPath(c, TimeOf(c, k))) {
        SamePath(c, OwnPath(c, TimeOf(c, j)), TimeOf(c, j), TimeOf(c, k));
        OwnIdInjective(c, j, k);
      }
    }
  }

  /** Two ticks whose paths begin the same path are one. */
  lemma SamePath(c: Config, path: Path, t: Time, u: Time)
    requires ConfigOk(c) && StampsApart(c.stamp)
    requires StartsWith(path, OwnPath(c, t)) && StartsWith(path, OwnPath(c, u))
    ensures c.stamp(t) == c.stamp(u) && TickId(c, t) == TickId(c, u) && OwnId(c, t) == OwnId(c, u)
  {
    hide ConfigOk, StampsApart, TickId, OwnPath;
    OwnPathText(c, t);
    OwnPathText(c, u);
    SameStamp(c, path, t, u, Base(c.prefix), Base(c.endsWith));
  }

  lemma OwnPathText(c: Config, t: Time)
    requires ConfigOk(c)
    ensures OwnPath(c, t) == Base(c.prefix) + "/" + c.stamp(t) + Base(c.endsWith)
    ensures TickId(c, t) == FromPathAndKind("/" + c.stamp(t) + Base(c.endsWith), c.kind)
  {
    hide Valid, Kinded, ParseKind, FromPathAndKind, StampOk, TickPath, OwnPath;
    PathText(c, t);
  }

  lemma PathText(c: Config, t: Time)
    requires IsPath(c.endsWith) && StampOk(c.stamp)
    ensures TickPath(c, t) == "/" + c.stamp(t) + Base(c.endsWith)
    ensures OwnPath(c, t) == Base(c.prefix) + "/" + c.stamp(t) + Base(c.endsWith)
  {
    hide StampOk, Last;
    TickPathLast(c, t);
    hide IsPath;
    var word := "/" + c.stamp(t);
    PrefixText(c.endsWith, word);
    PrefixText(TickPath(c, t), c.prefix);
    Regroup(Base(c.prefix), "/", c.stamp(t), Base(c.endsWith));
    WordIsNotRoot(c, t);
  }

  lemma PrefixText(p: Path, base: Path)
    ensures base != ROOT && p == ROOT ==> Prefix(p, base) == base
    ensures p != ROOT ==> Prefix(p, base) == Base(base) + p
  {
    assert "" + p == p;
  }

  lemma Regroup(a: string, b: string, c: string, d: string)
    ensures a + (b + c + d) == a + b + c + d && b + c + "" == b + c
  {
  }

  lemma WordIsNotRoot(c: Config, t: Time)
    requires StampOk(c.stamp)
    ensures "/" + c.stamp(t) != ROOT
  {
    assert c.stamp(t) != "";
    assert |"/" + c.stamp(t)| != |ROOT|;
  }

  lemma SameStamp(c: Config, path: Path, t: Time, u: Time, base: string, end: string)
    requires StampsApart(c.stamp)
    requires StartsWith(path, base + "/" + c.stamp(t) + end) && StartsWith(path, base + "/" + c.stamp(u) + end)
    ensures c.stamp(t) == c.stamp(u)
  {
    BeginsBehind(path, base, c.stamp(t), end);
    BeginsBehind(path, base, c.stamp(u), end);
    SameBeginning(path, |base| + 1, c.stamp(t), c.stamp(u));
  }

  lemma SameBeginning(path: string, n: nat, a: string, b: string)
    requires n + |a| <= |path| && n + |b| <= |path| && path[n..n + |a|] == a && path[n..n + |b|] == b
    ensures StartsWith(a, b) || StartsWith(b, a)
  {
    if |a| <= |b| {
      assert path[n..n + |a|] == path[n..n + |b|][..|a|];
    } else {
      assert path[n..n + |b|] == path[n..n + |a|][..|b|];
    }
  }

  lemma BeginsBehind(path: string, base: string, word: string, end: string)
    requires StartsWith(path, base + "/" + word + end)
    ensures |base| + 1 + |word| <= |path| && path[|base| + 1..|base| + 1 + |word|] == word
  {
    var head := base + "/" + word + end;
    assert head[|base| + 1..|base| + 1 + |word|] == word;
  }

  // ---------------------------------------------------------------- predicates on ticks

  lemma OtherKindIsNotAsked(c: Config, id: EventId)
    requires ConfigOk(c) && c.outcomesKind.Some?
    requires Kinded(id) && KindOf(id) != c.kind
    ensures !Asked(c, id)
  {
    hide Kinded, PathOf, KindOf, StampOk, TickId;
  }

  /** What the outcome ticker looks at does not depend on the kind when it has none configured. */
  lemma AnyKindIsAsked(c: Config, id: EventId, pred: EventId)
    requires Kinded(id) && Kinded(pred) && PathOf(pred) == PathOf(id) && c.outcomesKind.None?
    requires MatchesId(PrefixQuery(c.prefix, EarliestQuery(c)), id)
    ensures Asked(c, pred)
  {
    hide ParseKind, StripEvent;
  }

  /** A predicate on a tick, as the loop prefixes it. */
  lemma PredicateOfTick(c: Config, t: Time, kind: PredicateKind, value: u64)
    requires ConfigOk(c) && !c.kind.Predicated?
    requires HasParties(TickId(c, t)) && (kind.EqKind? ==> InRange(TickId(c, t), value))
    requires KindOf(TickId(c, t)) == c.kind && Predicable(TickId(c, t), kind, value)
    ensures var id := PrefixId(PredicateId(TickId(c, t), kind, value), c.prefix);
            Valid(id) && Kinded(id) && KindOf(id).Predicated? &&
            Kinded(OwnId(c, t)) && PathOf(id) == PathOf(OwnId(c, t))
  {
    hide ParseKind, StampOk, OutcomeString, FromStr, Predicable, StripEvent, PredicateId;
    TickIsValid(c, t);
    PredicateIdValidIff(TickId(c, t), kind, value);
    PredicateIdAnswersIff(TickId(c, t), kind, value);
    var pred := PredicateId(TickId(c, t), kind, value);
    PrefixIdKeeps(TickId(c, t), c.prefix);
    PrefixKeepsValid(pred, c.prefix);
    PrefixIdKeeps(pred, c.prefix);
  }

  /** Predicates on the ticks are valid events, and events of another source exactly when the outcome ticker has a kind
      configured: without one it comes across them and makes up their outcomes itself. */
  lemma PredicatesFitIff(c: Config, who: nat, t: Time, kind: PredicateKind, value: u64)
    requires ConfigOk(c) && !c.kind.Predicated?
    requires HasParties(TickId(c, t)) && (kind.EqKind? ==> InRange(TickId(c, t), value))
    requires KindOf(TickId(c, t)) == c.kind && Predicable(TickId(c, t), kind, value)
    ensures var e := PrefixEvent(Event(PredicateId(TickId(c, t), kind, value), Some(t)), c.prefix);
            Valid(e.id) && (OtherOk(c, who, Add(who, e)) <==> c.outcomesKind.Some?)
  {
    hide Kinded, KindOf, InRange, Valid, Predicable, Asked, PredicateId, MatchesId, ConfigOk, TickId,
         OwnId, PathOf;
    PredicateOfTick(c, t, kind, value);
    OwnIdAsked(c, t);
    var id := PrefixId(PredicateId(TickId(c, t), kind, value), c.prefix);
    if c.outcomesKind.Some? {
      OtherKindIsNotAsked(c, id);
    } else {
      AnyKindIsAsked(c, OwnId(c, t), id);
    }
  }

  // ---------------------------------------------------------------- what follows

  /** What the sibling query finds for a tick still shows its kind when stripped, and is named again. */
  lemma SiblingStrips(c: Config, t: Time, id: EventId)
    requires ConfigOk(c) && Kinded(id) && StartsWith(PathOf(id), OwnPath(c, t))
    ensures var stripped := StripId(id, c.prefix);
            Kinded(stripped) && KindOf(stripped) == KindOf(id) && PrefixId(stripped, c.prefix) == id
  {
    hide ParseKind, Valid, StampOk, StripEvent, TickPath, Last;
    TickPathLast(c, t);
    StripEventParts(id.text);
    SlashIsLeft(TickPath(c, t), c.prefix, PathOf(id), id.text);
    StripThenPrefixId(id, c.prefix);
    StrippedIdShowsEventIff(id, c.prefix);
  }

  /** Of the ticks, the sibling query of tick `k` finds that tick alone. */
  lemma SiblingTick(c: Config, s: Store, n: nat, done: nat, k: nat, id: EventId)
    requires ConfigOk(c) && NoneContinues(c, n, k) && Keyed(s) && Progress(c, s, n, done) && k < n
    requires id in s && Asked(c, id) && StartsWith(PathOf(id), OwnPath(c, TimeOf(c, k)))
    ensures id == OwnId(c, TimeOf(c, k))
  {
    hide ConfigOk, Asked, Kinded, TimeOf, OwnId, StripEvent, TickRecord, OwnPath;
    var j := TickOf(c, s, n, done, id);
    OwnIdShows(c, TimeOf(c, j));
    OwnPathIs(c, TimeOf(c, j));
  }

  lemma OwnPathIs(c: Config, t: Time)
    ensures OwnPath(c, t) == Prefix(TickPath(c, t), c.prefix)
  {
  }

  lemma OwnIdOfPath(c: Config, t: Time, u: Time)
    requires ConfigOk(c) && Prefix(TickPath(c, t), c.prefix) == Prefix(TickPath(c, u), c.prefix)
    ensures OwnId(c, t) == OwnId(c, u)
  {
    hide Valid, Kinded, StampOk;
    var a, b := TickPath(c, t), TickPath(c, u);
    TickPathLast(c, t);
    TickPathLast(c, u);
    if c.prefix != ROOT {
      assert (c.prefix + a)[|c.prefix|..] == a && (c.prefix + b)[|c.prefix|..] == b;
    }
  }

  /** What follows from an outcome can be printed, and is the same value for an event of the same kind. */
  lemma RelatedInRange(outcome: Outcome, related: EventId)
    requires HasParties(outcome.id) && InRange(outcome.id, outcome.value) && Kinded(related)
    requires Relate(outcome, related).Some?
    ensures var o := Relate(outcome, related).value;
            o.id == related && InRange(related, o.value) &&
            (KindOf(related) == KindOf(outcome.id) ==> o.value == outcome.value)
  {
    hide ParseKind, OutcomeString, Parse;
    KindIsCanonical(related);
  }

  /** Of one kind, only prices speak of each other. */
  lemma OnlyPricesSpeak(kind: EventKind)
    ensures SpeaksAbout(kind, kind) <==> kind.Price?
  {
    assert kind.Predicated? ==> kind.inner < kind;
  }

  /** The outcome that follows for a stored event, prefixed as the loop does it, is the outcome of the tick again or one
      of another source. */
  ghost predicate Fits(c: Config, o: State, stamped: StampedOutcome, id: EventId)
    requires HasParties(stamped.outcome.id) && InRange(stamped.outcome.id, stamped.outcome.value)
  {
    var stripped := StripId(id, c.prefix);
    Kinded(stripped) && PrefixId(stripped, c.prefix) == id &&
    var related := Relate(stamped.outcome, stripped);
    related.Some? ==>
      var out := PrefixStamped(StampedOutcome(related.value, stamped.time), c.prefix);
      out == PrefixStamped(stamped, c.prefix) || OtherOk(c, Running(o), Complete(Running(o), out))
  }

  /** When the path of a price tick is continued by that of no other tick, what follows from its outcome is that outcome
      again, or an outcome of another source. Other ticks than prices need nothing for that. */
  lemma RelatedFits(hash: Hash, c: Config, o: State, n: nat, done: nat, k: nat, stamped: StampedOutcome, id: EventId)
    requires ConfigOk(c) && Good(hash, o) && Progress(c, o.store, n, done)
    requires c.kind.Price? ==> NoneContinues(c, n, k)
    requires k < n && StampedFor(c, stamped, k)
    requires HasParties(stamped.outcome.id) && InRange(stamped.outcome.id, stamped.outcome.value)
    requires id in o.store && Matches(PrefixQuery(c.prefix, SiblingQuery(stamped.outcome.id)), o.store[id])
    ensures Fits(c, o, stamped, id)
  {
    hide ConfigOk, Progress, ParseKind, StripEvent, StampOk, NoneContinues, TickId, TickPath,
         TimeOf, Relate, Made, FromStr, SpeaksAbout;
    var tick := TimeOf(c, k);
    TickIsValid(c, tick);
    SiblingStrips(c, tick, id);
    var stripped := StripId(id, c.prefix);
    if Relate(stamped.outcome, stripped).Some? {
      RelatedInRange(stamped.outcome, stripped);
      assert Valid(id);
      if Asked(c, id) {
        var j := TickOf(c, o.store, n, done, id);
        OwnIdShows(c, TimeOf(c, j));
        RelateSomeIff(stamped.outcome, stripped);
        OnlyPricesSpeak(c.kind);
        SiblingTick(c, o.store, n, done, k, id);
        OwnIdShows(c, tick);
      }
    }
  }

  /** A stored price tick that continues the path of another is completed by its outcome, whatever its own would be. */
  lemma ContinuedDoesNotFit(hash: Hash, c: Config, o: State, n: nat, done: nat, k: nat, stamped: StampedOutcome, j: nat)
    requires ConfigOk(c) && Good(hash, o) && Progress(c, o.store, n, done) && c.kind.Price?
    requires k < n && StampedFor(c, stamped, k)
    requires HasParties(stamped.outcome.id) && InRange(stamped.outcome.id, stamped.outcome.value)
    requires j < n && j != k && StartsWith(OwnPath(c, TimeOf(c, j)), OwnPath(c, TimeOf(c, k)))
    ensures var id := OwnId(c, TimeOf(c, j));
            id in o.store && Matches(PrefixQuery(c.prefix, SiblingQuery(stamped.outcome.id)), o.store[id]) &&
            !Fits(c, o, stamped, id)
  {
    hide ConfigOk, Progress, ParseKind, StripEvent, StampOk, TickId, TickPath, TimeOf, Relate, Made, FromStr,
         StampedFor, CreatedValue, CreatorPanics;
    StampedIsTick(c, stamped, k);
    var t := TimeOf(c, j);
    KeyedIn(hash, o);
    TickMatches(c, o.store, n, done, j);
    TickIsValid(c, t);
    TickIsValid(c, TimeOf(c, k));
    OwnIdShows(c, t);
    OwnIdAsked(c, t);
    RelateSomeIff(stamped.outcome, TickId(c, t));
    RelatedInRange(stamped.outcome, TickId(c, t));
    if OwnId(c, t) == OwnId(c, TimeOf(c, k)) {
      OwnIdInjective(c, j, k);
    }
  }

  lemma StampedIsTick(c: Config, stamped: StampedOutcome, k: nat)
    requires StampedFor(c, stamped, k)
    ensures stamped.outcome.id == TickId(c, TimeOf(c, k))
  {
    hide Acceptable;
  }

  /** Everything that follows from the outcome of a tick fits exactly when the tick is no price, or no other stored tick
      continues its path. */
  lemma RelatedFitsIff(hash: Hash, c: Config, o: State, n: nat, done: nat, k: nat, stamped: StampedOutcome)
    requires ConfigOk(c) && Good(hash, o) && Keyed(o.store) && Progress(c, o.store, n, done)
    requires k < n && StampedFor(c, stamped, k)
    requires HasParties(stamped.outcome.id) && InRange(stamped.outcome.id, stamped.outcome.value)
    ensures (forall id |
               id in o.store && Matches(PrefixQuery(c.prefix, SiblingQuery(stamped.outcome.id)), o.store[id]) ::
               Fits(c, o, stamped, id)) <==>
            (c.kind.Price? ==> NoneContinues(c, n, k))
  {
    hide ConfigOk, Progress, Good, ParseKind, StripEvent, StampedFor, TimeOf, Fits, OwnPath, MatchesId, InRange;
    if c.kind.Price? ==> NoneContinues(c, n, k) {
      forall id | id in o.store && Matches(PrefixQuery(c.prefix, SiblingQuery(stamped.outcome.id)), o.store[id])
        ensures Fits(c, o, stamped, id)
      {
        RelatedFits(hash, c, o, n, done, k, stamped, id);
      }
    } else {
      var j: nat :| j < n && j != k && StartsWith(OwnPath(c, TimeOf(c, j)), OwnPath(c, TimeOf(c, k)));
      ContinuedDoesNotFit(hash, c, o, n, done, k, stamped, j);
    }
  }

  /** The outcome follows from `outcome` for an event of the store that the sibling query finds. */
  ghost predicate Follows(s: Store, prefix: Path, outcome: Outcome, o: Outcome)
    requires Keyed(s) && HasParties(outcome.id) && InRange(outcome.id, outcome.value)
  {
    var id := PrefixId(o.id, prefix);
    && id in s && MatchesId(PrefixQuery(prefix, SiblingQuery(outcome.id)), id) && StripId(id, prefix) == o.id
    && Kinded(o.id) && Relate(outcome, o.id) == Some(o)
  }

  /** One of the outcomes that are given after the outcome of a tick. */
  ghost predicate Given(s: Store, prefix: Path, base: StampedOutcome, x: StampedOutcome)
    requires Keyed(s)
  {
    HasParties(base.outcome.id) && InRange(base.outcome.id, base.outcome.value) &&
    x.time == base.time && Follows(s, prefix, base.outcome, x.outcome)
  }

  /** What is found for a tick shows its kinds, and every outcome given follows from that of the tick. */
  lemma SiblingsFollow(c: Config, s: Store, k: nat, base: StampedOutcome, siblings: Option<seq<Outcome>>)
    requires ConfigOk(c) && Keyed(s) && StampedFor(c, base, k)
    requires HasParties(base.outcome.id) && InRange(base.outcome.id, base.outcome.value)
    requires AreSiblings(s, c.prefix, base.outcome, siblings)
    ensures siblings.Some? && forall x | x in StampAll(siblings.value, base.time) :: Given(s, c.prefix, base, x)
  {
    hide ConfigOk, Kinded, IsQueryResult, CompleteRelated, TimeOf, OutcomeString,
         IdParser.Valid, SiblingQuery, CreatedValue, CreatorPanics, Acceptable, Follows, StampedFor;
    TickIsBelowRoot(c, base, k);
    if NOutcomes(KindOf(base.outcome.id)) >= 3 {
      var events :| IsQueryResult(s, PrefixQuery(c.prefix, SiblingQuery(base.outcome.id)), events) &&
        siblings == if Related.AllKinded(StrippedIds(c.prefix, events))
                    then Some(CompleteRelated(base.outcome, StrippedIds(c.prefix, events))) else None;
      SiblingsShowKinds(s, c.prefix, base.outcome.id, events);
      forall o | o in siblings.value
        ensures Follows(s, c.prefix, base.outcome, o)
      {
        GivenFollows(s, c.prefix, base.outcome, events, o);
      }
    }
  }

  lemma TickIsBelowRoot(c: Config, base: StampedOutcome, k: nat)
    requires ConfigOk(c) && StampedFor(c, base, k)
    ensures StripEvent(base.outcome.id.text).Some? && PathOf(base.outcome.id) != ROOT
  {
    hide ConfigOk, TimeOf, TickId, TickPath, IdParser.Valid, ParseKind, StripEvent, CreatedValue,
         CreatorPanics;
    TickIsValid(c, TimeOf(c, k));
    TickPathIsBelow(c, TimeOf(c, k));
  }

  lemma TickPathIsBelow(c: Config, t: Time)
    requires ConfigOk(c)
    ensures TickPath(c, t) != ROOT
  {
    hide TickPath, TickId, StampOk, IdParser.Valid, ParseKind;
    TickPathLast(c, t);
  }

  lemma GivenFollows(s: Store, prefix: Path, outcome: Outcome, events: seq<Event>, o: Outcome)
    requires Keyed(s) && HasParties(outcome.id) && InRange(outcome.id, outcome.value)
    requires IsQueryResult(s, PrefixQuery(prefix, SiblingQuery(outcome.id)), events)
    requires Related.AllKinded(StrippedIds(prefix, events))
    requires o in CompleteRelated(outcome, StrippedIds(prefix, events))
    ensures Follows(s, prefix, outcome, o)
  {
    hide ParseKind, StripEvent, IsQueryResult, CompleteRelated, Relate, OutcomeString, KindOf, StartsWith;
    CompletedIff(outcome, StrippedIds(prefix, events), o);
    SiblingFoundIff(s, prefix, outcome.id, events, o.id);
    EventTextIsNotRoot(o.id.text);
    StripUndoesPrefixIff(o.id.text, prefix);
  }

  lemma StillSpeaks(s: Store, s': Store, prefix: Path, source: EventId, id: EventId)
    requires Keyed(s) && Keyed(s') && Kinded(source) && Extends(s', s) && SpeaksOfSibling(s, prefix, source, id)
    ensures SpeaksOfSibling(s', prefix, source, id)
  {
    hide ParseKind, StripEvent, SpeaksAbout, StartsWith;
  }

  /** Every event that the outcome speaks about is among those it is completed for. */
  lemma RelatedCovers(s: Store, prefix: Path, outcome: Outcome, list: seq<Outcome>, id: EventId)
    requires Keyed(s) && HasParties(outcome.id) && InRange(outcome.id, outcome.value)
    requires AreSiblings(s, prefix, outcome, Some(list)) && NOutcomes(KindOf(outcome.id)) >= 3
    requires SpeaksOfSibling(s, prefix, outcome.id, id)
    ensures exists j | 0 <= j < |list| :: PrefixId(list[j].id, prefix) == id
  {
    hide ParseKind, StripEvent, IsQueryResult, CompleteRelated, OutcomeString, SpeaksOfSibling,
         Relate, KindOf;
    var events :| IsQueryResult(s, PrefixQuery(prefix, SiblingQuery(outcome.id)), events) &&
      Some(list) == if Related.AllKinded(StrippedIds(prefix, events))
                    then Some(CompleteRelated(outcome, StrippedIds(prefix, events))) else None;
    StoredIsCompleted(s, prefix, outcome, events, id);
    var o := Relate(outcome, StripId(id, prefix)).value;
    var j :| 0 <= j < |list| && list[j] == o;
  }

  /** The text is what an outcome of `source` says about the event that it names `x`. */
  predicate Says(source: EventId, v: u64, x: EventId, text: string) {
    HasParties(source) && InRange(source, v) && HasParties(x) &&
    var r := Relate(Outcome(source, v), x);
    r.Some? && InRange(x, r.value.value) && text == OutcomeString(Outcome(x, r.value.value))
  }

  /** The text is what the outcome made up for tick `k` says about the stored event. */
  predicate Said(c: Config, k: nat, id: EventId, text: string)
    requires Kinded(id)
  {
    var tick := TickId(c, TimeOf(c, k));
    StartsWith(PathOf(id), OwnPath(c, TimeOf(c, k))) && !CreatorPanics(c.creator, tick) &&
    Says(tick, CreatedValue(c.creator, tick), StripId(id, c.prefix), text)
  }

  ghost predicate SaidBefore(c: Config, k: nat, id: EventId, text: string)
    requires Kinded(id)
  {
    exists j: nat | j < k :: Said(c, j, id, text)
  }

  lemma FollowIsSaid(c: Config, k: nat, base: StampedOutcome, s: Store, o: Outcome)
    requires ConfigOk(c) && StampedFor(c, base, k)
    requires HasParties(base.outcome.id) && InRange(base.outcome.id, base.outcome.value)
    requires Keyed(s) && Follows(s, c.prefix, base.outcome, o)
    ensures var x := Outcome(PrefixId(o.id, c.prefix), o.value);
            HasParties(x.id) && InRange(x.id, x.value) && Said(c, k, x.id, OutcomeString(x))
  {
    hide ParseKind, StripEvent, TickId, TimeOf, CreatorPanics, CreatedValue, IdParser.Valid, OutcomeString, Relate,
         Acceptable, ConfigOk;
    TickIsValid(c, TimeOf(c, k));
    RelatedInRange(base.outcome, o.id);
    RelateSomeIff(base.outcome, o.id);
    PrefixKeepsOutcomes(o.id, c.prefix, o.value, "");
    PrefixIdKeeps(o.id, c.prefix);
    assert Said(c, k, PrefixId(o.id, c.prefix), OutcomeString(Outcome(PrefixId(o.id, c.prefix), o.value)));
  }
}
