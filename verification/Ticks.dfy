/** The events of a ticker: their times and ids, and what a store holds while a ticker makes progress. */
module Ticks {
  import opened Wrappers
  import opened Strings
  import opened Decimal
  import opened Paths
  import opened EventKinds
  import opened EventIds
  import opened Outcomes
  import opened IdParser
  import opened Announcements
  import opened Attestations
  import opened Stores
  import opened Related
  import opened Tickers

  function TimeOf(c: Config, k: nat): Time {
    c.initial + k * c.interval
  }

  /** The id a tick is stored under. */
  function OwnId(c: Config, t: Time): EventId {
    PrefixId(TickId(c, t), c.prefix)
  }

  /** Times are written as one word of a path, the same within a second and only there. */
  ghost predicate StampOk(stamp: Time -> string) {
    && (forall t, u :: stamp(t) == stamp(u) <==> Truncate(t) == Truncate(u))
    && (forall t :: stamp(t) != "" && '/' !in stamp(t) && '.' !in stamp(t) && '_' !in stamp(t))
  }

  /** No time continues the text of another, as none does that is written `%FT%T`. */
  ghost predicate StampsApart(stamp: Time -> string) {
    forall t, u :: StartsWith(stamp(t), stamp(u)) ==> stamp(t) == stamp(u)
  }

  /** The interval is a positive number of seconds, the id of a tick is valid and shows the configured path and kind,
      and the outcome ticker looks at the ticks; events are told apart by the text of their times where that matters. */
  ghost predicate ConfigOk(c: Config) {
    && IsPath(c.prefix) && IsPath(c.endsWith)
    && c.interval > 0 && c.interval % SECOND == 0
    && StampOk(c.stamp)
    && Valid(TickId(c, 0)) && PathOf(TickId(c, 0)) == TickPath(c, 0) && KindOf(TickId(c, 0)) == c.kind
    && (c.outcomesEndWith == ROOT || EndsWith(c.endsWith, c.outcomesEndWith))
    && (c.outcomesKind == None || c.outcomesKind == Some(c.kind))
    && (c.creator.Random? ==> c.creator.max != Some(0))
    && (c.completes ==> StampsApart(c.stamp))
  }

  /** The event ticker or the outcome ticker may come across the event. */
  predicate Asked(c: Config, id: EventId)
    requires Kinded(id)
  {
    MatchesId(PrefixQuery(c.prefix, LatestQuery(c)), id) || MatchesId(PrefixQuery(c.prefix, EarliestQuery(c)), id)
  }

  /** The event ticker asks for events of its kind whose path begins with the prefix and ends as configured. */
  lemma LatestAsksIff(c: Config, e: AnnouncedEvent)
    requires Kinded(e.event.id)
    ensures Matches(PrefixQuery(c.prefix, LatestQuery(c)), e) <==>
            BeginsAndEnds(PathOf(e.event.id), c.prefix, c.endsWith) && KindOf(e.event.id) == c.kind
  {
    hide ParseKind, StripEvent, KindOf;
    MatchesIff(PrefixQuery(c.prefix, LatestQuery(c)), e);
  }

  /** The outcome ticker asks for events that are not attested to, of its kind if it has one. */
  lemma EarliestAsksIff(c: Config, e: AnnouncedEvent)
    requires Kinded(e.event.id)
    ensures Matches(PrefixQuery(c.prefix, EarliestQuery(c)), e) <==>
            BeginsAndEnds(PathOf(e.event.id), c.prefix, c.outcomesEndWith) && e.attestation.None? &&
            (c.outcomesKind.Some? ==> KindOf(e.event.id) == c.outcomesKind.value)
  {
    hide ParseKind, StripEvent, KindOf;
    MatchesIff(PrefixQuery(c.prefix, EarliestQuery(c)), e);
  }

  ghost predicate BeginsAndEnds(path: Path, prefix: Path, end: Path) {
    (exists rest: string :: path == prefix + rest) && (end == ROOT || exists front: string :: path == front + end)
  }

  /** Some way to write times: the sign, the number of whole seconds, and an end. */
  function Seconds(t: Time): string {
    SignedSeconds(t) + ['s']
  }

  function SignedSeconds(t: Time): string {
    if t >= 0 then ['+'] + Print(t / SECOND) else ['-'] + Print(-(t / SECOND))
  }

  lemma SecondsAreApart(t: Time, u: Time)
    ensures SignedSeconds(t) == SignedSeconds(u) <==> Truncate(t) == Truncate(u)
  {
    var a, b := t / SECOND, u / SECOND;
    assert t == SECOND * a + t % SECOND && u == SECOND * b + u % SECOND;
    if SignedSeconds(t) == SignedSeconds(u) {
      assert SignedSeconds(t)[0] == SignedSeconds(u)[0] && SignedSeconds(t)[1..] == SignedSeconds(u)[1..];
      ValueOfPrint(if t >= 0 then a else -a);
      ValueOfPrint(if u >= 0 then b else -b);
    }
  }

  lemma SecondsText(t: Time)
    ensures Seconds(t) != "" && '/' !in Seconds(t) && '.' !in Seconds(t) && '_' !in Seconds(t)
    ensures 's' !in SignedSeconds(t)
  {
  }

  /** A word with an end that is nowhere else in it begins no other one. */
  lemma EndedWords(a: string, b: string, end: char)
    requires end !in a && StartsWith(a + [end], b + [end])
    ensures a == b
  {
    assert (b + [end])[|b|] == (a + [end])[|b|] == end;
    assert forall k | 0 <= k < |a| :: (a + [end])[k] == a[k] != end;
    assert |a| == |b|;
    assert (a + [end])[..|a|] == a && (b + [end])[..|b|] == b;
  }

  lemma SecondsAreOk()
    ensures StampOk(Seconds) && StampsApart(Seconds)
  {
    hide SignedSeconds, Print;
    forall t
      ensures Seconds(t) != "" && '/' !in Seconds(t) && '.' !in Seconds(t) && '_' !in Seconds(t)
    {
      SecondsText(t);
    }
    forall t, u
      ensures Seconds(t) == Seconds(u) <==> Truncate(t) == Truncate(u)
      ensures StartsWith(Seconds(t), Seconds(u)) ==> Seconds(t) == Seconds(u)
    {
      SecondsAreApart(t, u);
      SecondsText(t);
      if StartsWith(Seconds(t), Seconds(u)) {
        EndedWords(SignedSeconds(t), SignedSeconds(u), 's');
      }
    }
  }

  /** There are such configurations: a tick every second below the root, say. */
  lemma SomeConfig() returns (c: Config)
    ensures ConfigOk(c)
  {
    hide StampOk, Valid, ParseKind, StripEvent, TickPath, Last, FromPathAndKind, StampsApart;
    c := Config(ROOT, ROOT, SingleOccurrence, SECOND, 0, 0, ROOT, None, Zero, true, Seconds);
    SecondsAreOk();
    assert IsPath(ROOT);
    TickPathLast(c, 0);
    StampIsWord(c, 0);
    OccurrenceIsValid(TickPath(c, 0));
  }

  lemma StampIsWord(c: Config, t: Time)
    requires StampOk(c.stamp)
    ensures '.' !in c.stamp(t)
  {
  }

  // ---------------------------------------------------------------- the ids of ticks

  lemma TickPathLast(c: Config, t: Time)
    requires IsPath(c.endsWith) && StampOk(c.stamp)
    ensures '/' in TickPath(c, t) && TickPath(c, t) != ROOT
    ensures Last(TickPath(c, t)) == if c.endsWith == ROOT then c.stamp(t) else Last(c.endsWith)
    ensures IsPath(TickPath(c, t)) && StartsWith(TickPath(c, t), "/")
  {
    hide Last, LastIndexOf, IndexOf;
    var time := "/" + c.stamp(t);
    WordPath(c.stamp(t));
    PrefixKeepsPath(c.endsWith, time);
    if c.endsWith != ROOT {
      assert c.endsWith[0] == '/';
      LastOfPrefixed(time, c.endsWith);
      SumIsNotRoot(time, c.endsWith);
    }
  }

  /** The kind of the ticks reads back from every path it is put on. */
  lemma TickKind(c: Config)
    requires ConfigOk(c)
    ensures Canonical(c.kind) && '/' !in PrintKind(c.kind)
  {
    hide ParseKind, StampOk, FromStr;
    ValidIsUsable(TickId(c, 0));
    KindReadsBack(TickPath(c, 0), c.kind);
  }

  lemma KindReadsBack(path: Path, kind: EventKind)
    requires var id := FromPathAndKind(path, kind); Kinded(id) && PathOf(id) == path && KindOf(id) == kind
    ensures Canonical(kind) && '/' !in PrintKind(kind)
  {
    hide ParseKind, PrintKind, Canonical;
    var id := FromPathAndKind(path, kind);
    KindIsCanonical(id);
    StripEventParts(id.text);
    SameTail(path, PrintKind(kind), StripEvent(id.text).value.1);
  }

  lemma SameTail(path: Path, a: string, b: string)
    requires WithEvent(path, a) == WithEvent(path, b)
    ensures a == b
  {
    assert WithEvent(path, a)[|path| + 1..] == a;
    assert WithEvent(path, b)[|path| + 1..] == b;
  }

  /** Without two teams nothing about a match is accepted, and nothing else depends on the teams. */
  lemma CheckWithoutTeams(a: EventId, path: Path, b: EventId, path': Path, kind: EventKind)
    requires EventPath(path) && EventPath(path') && Canonical(kind)
    requires |Teams(path)| == 1 && |Teams(path')| == 1
    requires CheckKind(a, path, kind) == Accepted(a)
    ensures CheckKind(b, path', kind) == Accepted(b)
  {
    hide Kinded, Teams, PrintKind, WithEvent, ParseFor;
    if kind.Predicated? && kind.pred.Eq? {
      var inner, inner' := FromPathAndKind(path, kind.inner), FromPathAndKind(path', kind.inner);
      InnerAnswers(path, kind.inner);
      InnerAnswers(path', kind.inner);
      SameOutcomes(inner, inner', 0, kind.pred.target);
    }
  }

  /** The id of every tick is valid, and shows its path and its kind. */
  lemma TickIsValid(c: Config, t: Time)
    requires ConfigOk(c)
    ensures var id := TickId(c, t);
            Valid(id) && Kinded(id) && PathOf(id) == TickPath(c, t) && KindOf(id) == c.kind && '/' in id.text
  {
    hide ParseKind, Split, CheckKind, PrintKind;
    var first, id := TickId(c, 0), TickId(c, t);
    TickKind(c);
    TickPathLast(c, 0);
    TickPathLast(c, t);
    ValidIff(first);
    assert '.' !in Last(TickPath(c, t));
    FromPathAndKindAnswers(TickPath(c, t), c.kind);
    ValidIff(id);
    EventTextIsPath(TickPath(c, t), PrintKind(c.kind));
    assert id.text[0] == '/';
    if c.endsWith == ROOT {
      CheckWithoutTeams(first, TickPath(c, 0), id, TickPath(c, t), c.kind);
    } else {
      SameCheck(first, TickPath(c, 0), id, TickPath(c, t), c.kind);
    }
  }

  /** Under a prefix a path keeps its ending. */
  lemma PathBelow(c: Config, t: Time)
    requires IsPath(c.endsWith) && StampOk(c.stamp)
    ensures var path := Prefix(TickPath(c, t), c.prefix);
            StartsWith(path, c.prefix) && (c.endsWith == ROOT || EndsWith(path, c.endsWith))
  {
    hide Last, EndsWith;
    TickPathLast(c, t);
    hide StampOk;
    if c.endsWith != ROOT {
      TickPathEnds(c, t);
      EndsWithTail(c.prefix, TickPath(c, t), c.endsWith);
    }
  }

  lemma TickPathEnds(c: Config, t: Time)
    requires c.endsWith != ROOT && StampOk(c.stamp)
    ensures EndsWith(TickPath(c, t), c.endsWith)
  {
    hide StampOk;
    var time := "/" + c.stamp(t);
    if time != ROOT {
      EndsWithTail(time, c.endsWith, c.endsWith);
    }
  }

  /** The stored id of every tick is valid, and stripping it gives back what the stream yielded. */
  lemma OwnIdShows(c: Config, t: Time)
    requires ConfigOk(c)
    ensures var id := OwnId(c, t);
            Valid(id) && Kinded(id) && KindOf(id) == c.kind && PathOf(id) == Prefix(TickPath(c, t), c.prefix) &&
            StripId(id, c.prefix) == TickId(c, t)
  {
    hide ParseKind, StampOk, FromStr, WithEvent, TickPath, StripEvent;
    var id := TickId(c, t);
    TickIsValid(c, t);
    PrefixKeepsValid(id, c.prefix);
    PrefixIdKeeps(id, c.prefix);
    assert PathOf(OwnId(c, t)) == Prefix(TickPath(c, t), c.prefix) by {
      TickPathLast(c, t);
    }
    EventTextIsNotRoot(id.text);
    StripUndoesPrefixIff(id.text, c.prefix);
  }

  /** Both tickers come across every tick. */
  lemma OwnIdAsked(c: Config, t: Time)
    requires ConfigOk(c)
    ensures var id := OwnId(c, t);
            Kinded(id) &&
            MatchesId(PrefixQuery(c.prefix, LatestQuery(c)), id) &&
            MatchesId(PrefixQuery(c.prefix, EarliestQuery(c)), id)
  {
    hide ParseKind, StampOk, Valid, PathOf, StartsWith, EndsWith;
    OwnIdShows(c, t);
    hide OwnId, KindOf, TickPath, TickId;
    PathBelow(c, t);
    OwnPathEnds(c, Prefix(TickPath(c, t), c.prefix));
  }

  lemma OwnPathEnds(c: Config, path: Path)
    requires IsPath(c.endsWith) && (c.outcomesEndWith == ROOT || EndsWith(c.endsWith, c.outcomesEndWith))
    requires c.endsWith == ROOT || EndsWith(path, c.endsWith)
    ensures c.outcomesEndWith == ROOT || EndsWith(path, c.outcomesEndWith)
  {
    if c.outcomesEndWith != ROOT {
      if c.endsWith == ROOT {
        assert c.outcomesEndWith == "";
      } else {
        EndsWithTail(path[..|path| - |c.endsWith|], c.endsWith, c.outcomesEndWith);
      }
    }
  }

  lemma EndsWithTail(a: string, b: string, tail: string)
    requires EndsWith(b, tail)
    ensures EndsWith(a + b, tail)
  {
    assert (a + b)[|a + b| - |tail|..] == b[|b| - |tail|..];
  }

  /** Ticks are stored under different ids. */
  lemma OwnIdInjective(c: Config, j: nat, k: nat)
    requires ConfigOk(c) && OwnId(c, TimeOf(c, j)) == OwnId(c, TimeOf(c, k))
    ensures j == k
  {
    hide ParseKind, Valid, Kinded, MatchesId;
    var t, u := TimeOf(c, j), TimeOf(c, k);
    OwnIdShows(c, t);
    OwnIdShows(c, u);
    assert c.stamp(t) == c.stamp(u) by {
      TickIsValid(c, t);
      TickIsValid(c, u);
      StampOfPath(c, t, u);
    }
    assert Truncate(t) == Truncate(u);
    if j < k {
      TimesApart(c, j, k);
    } else if k < j {
      TimesApart(c, k, j);
    }
  }

  lemma StampOfPath(c: Config, t: Time, u: Time)
    requires StampOk(c.stamp) && TickPath(c, t) == TickPath(c, u)
    ensures c.stamp(t) == c.stamp(u)
  {
    var a, b := "/" + c.stamp(t), "/" + c.stamp(u);
    assert a[1..] == c.stamp(t) && b[1..] == c.stamp(u);
    if c.endsWith != ROOT {
      SameHead(a, b, c.endsWith);
    }
  }

  lemma SameHead(a: string, b: string, tail: string)
    requires a + tail == b + tail
    ensures a == b
  {
    assert (a + tail)[..|a|] == a && (b + tail)[..|b|] == b;
  }

  lemma TimesApart(c: Config, j: nat, k: nat)
    requires c.interval > 0 && c.interval % SECOND == 0 && j < k
    ensures TimeOf(c, k) >= TimeOf(c, j) + SECOND
  {
    Multiples(c.interval, k - j, SECOND);
    assert TimeOf(c, k) - TimeOf(c, j) == (k - j) * c.interval;
  }

  lemma Multiples(x: int, n: nat, unit: nat)
    requires x > 0 && unit > 0 && x % unit == 0 && n > 0
    ensures n * x >= unit
  {
    assert x == unit * (x / unit);
    assert x / unit >= 1;
    assert x >= unit;
  }

  // ---------------------------------------------------------------- what the store holds

  /** The stored events that the tickers come across are the first `n` ticks, and the first `done` of
      them are attested to, each no earlier than it was due. */
  ghost predicate Progress(c: Config, s: Store, n: nat, done: nat)
    requires Keyed(s)
  {
    && done <= n
    && (forall id | id in s && Asked(c, id) :: IsTick(c, id, n))
    && (forall k: nat | k < n :: TickStored(c, s, k, done))
  }

  ghost predicate IsTick(c: Config, id: EventId, n: nat) {
    exists k: nat | k < n :: id == OwnId(c, TimeOf(c, k))
  }

  ghost predicate TickStored(c: Config, s: Store, k: nat, done: nat) {
    var t := TimeOf(c, k);
    OwnId(c, t) in s && TickRecord(c, t, s[OwnId(c, t)], k < done)
  }

  ghost predicate TickRecord(c: Config, t: Time, r: AnnouncedEvent, attested: bool) {
    && r.event == Event(OwnId(c, t), Some(t))
    && r.attestation.Some? == attested
    && (attested ==> AttestedAfter(r.attestation.value, t) && NamesCreated(c, t, r.attestation.value.outcome))
  }

  ghost predicate AttestedAfter(a: Attestation, due: Time) {
    exists now | now >= due :: a.time == Truncate(now)
  }

  /** The text is the outcome that the creator makes up for the tick, of the stored event. */
  predicate NamesCreated(c: Config, t: Time, text: string) {
    !CreatorPanics(c.creator, TickId(c, t)) &&
    var o := Outcome(OwnId(c, t), CreatedValue(c.creator, TickId(c, t)));
    HasParties(o.id) && InRange(o.id, o.value) && text == OutcomeString(o)
  }

  lemma IsTickOf(c: Config, k: nat, n: nat)
    requires k < n
    ensures IsTick(c, OwnId(c, TimeOf(c, k)), n)
  {
  }

  lemma TickOf(c: Config, s: Store, n: nat, done: nat, id: EventId) returns (k: nat)
    requires Keyed(s) && Progress(c, s, n, done) && id in s && Asked(c, id)
    ensures k < n && id == OwnId(c, TimeOf(c, k))
    ensures TickRecord(c, TimeOf(c, k), s[id], k < done)
  {
    hide OwnId, Asked, TimeOf, Kinded, TickRecord;
    assert IsTick(c, id, n);
    k :| k < n && id == OwnId(c, TimeOf(c, k));
    assert TickStored(c, s, k, done);
  }

  /** The latest query finds every tick, the earliest query those that are not attested to. */
  lemma TickMatches(c: Config, s: Store, n: nat, done: nat, k: nat)
    requires ConfigOk(c) && Keyed(s) && Progress(c, s, n, done) && k < n
    ensures var id := OwnId(c, TimeOf(c, k));
            id in s && s[id].event == Event(id, Some(TimeOf(c, k))) &&
            Matches(PrefixQuery(c.prefix, LatestQuery(c)), s[id]) &&
            (Matches(PrefixQuery(c.prefix, EarliestQuery(c)), s[id]) <==> k >= done)
  {
    hide ConfigOk, MatchesId, OwnId, TimeOf, Kinded;
    assert TickStored(c, s, k, done);
    OwnIdAsked(c, TimeOf(c, k));
  }

  /** What a query of the tickers finds is a tick. */
  lemma FoundIsTick(c: Config, s: Store, n: nat, done: nat, q: EventQuery, e: Event) returns (k: nat)
    requires Keyed(s) && Progress(c, s, n, done) && (q == LatestQuery(c) || q == EarliestQuery(c))
    requires IsFirst(s, PrefixQuery(c.prefix, q), Some(e))
    ensures k < n && e == Event(OwnId(c, TimeOf(c, k)), Some(TimeOf(c, k)))
    ensures q == EarliestQuery(c) ==> k >= done
  {
    hide ConfigOk, MatchesId, OwnId, TimeOf, Kinded, Progress;
    assert Asked(c, e.id);
    k := TickOf(c, s, n, done, e.id);
  }

  lemma QueryOrders(c: Config)
    ensures PrefixQuery(c.prefix, LatestQuery(c)).order == Latest
    ensures PrefixQuery(c.prefix, EarliestQuery(c)).order == Earliest
  {
  }

  /** The first answer to the latest query is the last tick. */
  lemma FirstLatest(c: Config, s: Store, n: nat, done: nat, first: Option<Event>)
    requires ConfigOk(c) && Keyed(s) && Progress(c, s, n, done)
    requires IsFirst(s, PrefixQuery(c.prefix, LatestQuery(c)), first)
    ensures if n == 0 then first == None else first == Some(Event(OwnId(c, TimeOf(c, n - 1)), Some(TimeOf(c, n - 1))))
  {
    hide ConfigOk, Matches, OwnId, TimeOf, Kinded, Progress, PrefixQuery, LatestQuery;
    QueryOrders(c);
    if n > 0 {
      TickMatches(c, s, n, done, n - 1);
    }
    if first.Some? {
      var k := FoundIsTick(c, s, n, done, LatestQuery(c), first.value);
      LaterTick(c, k, n - 1);
    }
  }

  /** The latest tick is the last one. */
  lemma LatestIsLast(c: Config, s: Store, n: nat, done: nat, found: Option<Event>)
    requires ConfigOk(c) && Keyed(s) && Progress(c, s, n, done)
    requires IsPrefixedFirst(s, c.prefix, LatestQuery(c), found)
    ensures AfterLatest(c, found) == Some(if n == 0 then Ready(TimeOf(c, 0)) else Delayed(TimeOf(c, n)))
  {
    hide ConfigOk, IsFirst, OwnId, StripId, TimeOf, Kinded, Progress, PrefixQuery, LatestQuery;
    var q := PrefixQuery(c.prefix, LatestQuery(c));
    var first :| IsFirst(s, q, first) &&
                 found == if first.None? then None else Some(StripEventId(c.prefix, first.value));
    FirstLatest(c, s, n, done, first);
    NextTime(c, n);
  }

  lemma LaterTick(c: Config, j: nat, k: nat)
    requires ConfigOk(c)
    ensures TimeOf(c, j) <= TimeOf(c, k) <==> j <= k
  {
    hide Valid, Kinded, Truncate, StampOk;
    if j < k {
      TimesApart(c, j, k);
    } else if k < j {
      TimesApart(c, k, j);
    }
  }

  lemma NextTime(c: Config, n: nat)
    ensures TimeOf(c, 0) == c.initial
    ensures n > 0 ==> TimeOf(c, n - 1) + c.interval == TimeOf(c, n)
  {
    assert n > 0 ==> (n - 1) * c.interval + c.interval == n * c.interval;
  }

  lemma DoneAtMost(c: Config, s: Store, n: nat, done: nat)
    requires Keyed(s) && Progress(c, s, n, done)
    ensures done <= n
  {
    hide Asked, TickStored, IsTick;
  }

  /** The first answer to the earliest query is the first tick that is not attested to. */
  lemma FirstEarliest(c: Config, s: Store, n: nat, done: nat, first: Option<Event>)
    requires ConfigOk(c) && Keyed(s) && Progress(c, s, n, done)
    requires IsFirst(s, PrefixQuery(c.prefix, EarliestQuery(c)), first)
    ensures done <= n
    ensures if done == n then first == None else first == Some(Event(OwnId(c, TimeOf(c, done)), Some(TimeOf(c, done))))
  {
    hide ConfigOk, Matches, OwnId, TimeOf, Kinded, Progress, PrefixQuery, EarliestQuery;
    QueryOrders(c);
    DoneAtMost(c, s, n, done);
    if done < n {
      TickMatches(c, s, n, done, done);
    }
    if first.Some? {
      var k := FoundIsTick(c, s, n, done, EarliestQuery(c), first.value);
      LaterTick(c, k, done);
    }
  }

  /** The earliest tick that is not attested to is the next one to attest to. */
  lemma EarliestIsNext(c: Config, s: Store, n: nat, done: nat, found: Option<Event>)
    requires ConfigOk(c) && Keyed(s) && Progress(c, s, n, done)
    requires IsPrefixedFirst(s, c.prefix, EarliestQuery(c), found)
    ensures done <= n
    ensures AfterEarliest(found) ==
            Some(if done == n then AskEarliest else Due(TickId(c, TimeOf(c, done)), TimeOf(c, done)))
  {
    hide ConfigOk, IsFirst, OwnId, StripId, TimeOf, Kinded, TickId, Progress, PrefixQuery, EarliestQuery;
    var q := PrefixQuery(c.prefix, EarliestQuery(c));
    var first :| IsFirst(s, q, first) &&
                 found == if first.None? then None else Some(StripEventId(c.prefix, first.value));
    FirstEarliest(c, s, n, done, first);
    OwnIdShows(c, TimeOf(c, done));
  }

  /** Adding the next tick. */
  lemma TickAdded(c: Config, s: Store, n: nat, done: nat, r: AnnouncedEvent)
    requires ConfigOk(c) && Keyed(s) && Progress(c, s, n, done)
    requires r.event == Event(OwnId(c, TimeOf(c, n)), Some(TimeOf(c, n))) && r.attestation.None?
    ensures r.event.id !in s
    ensures Keyed(s[r.event.id := r]) && Progress(c, s[r.event.id := r], n + 1, done)
  {
    hide ConfigOk, MatchesId, OwnId, TimeOf, Kinded;
    var id := r.event.id;
    OwnIdAsked(c, TimeOf(c, n));
    if id in s {
      assert IsTick(c, id, n);
      var k: nat :| k < n && id == OwnId(c, TimeOf(c, k));
      OwnIdInjective(c, k, n);
    }
    var s' := s[id := r];
    forall i | i in s' && Asked(c, i)
      ensures IsTick(c, i, n + 1)
    {
      if i == id {
        IsTickOf(c, n, n + 1);
      } else {
        assert IsTick(c, i, n);
        var k: nat :| k < n && i == OwnId(c, TimeOf(c, k));
        IsTickOf(c, k, n + 1);
      }
    }
    forall k: nat | k < n + 1
      ensures TickStored(c, s', k, done)
    {
      if k < n {
        assert TickStored(c, s, k, done);
      }
    }
  }

  /** Attesting to the next tick. */
  lemma TickCompleted(c: Config, s: Store, n: nat, done: nat, a: Attestation, now: Time)
    requires ConfigOk(c) && Keyed(s) && Progress(c, s, n, done) && done < n
    requires now >= TimeOf(c, done) && a.time == Truncate(now) && NamesCreated(c, TimeOf(c, done), a.outcome)
    ensures var id := OwnId(c, TimeOf(c, done));
            id in s && s[id].attestation.None? &&
            var s' := s[id := s[id].(attestation := Some(a))];
            Keyed(s') && Progress(c, s', n, done + 1)
  {
    hide ConfigOk, MatchesId, OwnId, TimeOf, Kinded, Truncate, NamesCreated;
    assert TickStored(c, s, done, done);
    var id := OwnId(c, TimeOf(c, done));
    var s' := s[id := s[id].(attestation := Some(a))];
    var done' := done + 1;
    forall k: nat | k < n
      ensures TickStored(c, s', k, done')
    {
      assert TickStored(c, s, k, done);
      if OwnId(c, TimeOf(c, k)) == id {
        OwnIdInjective(c, k, done);
      }
    }
  }

  /** What happens to events that the tickers do not come across does not matter. */
  lemma OthersKeep(c: Config, s: Store, s': Store, id: EventId, n: nat, done: nat)
    requires ConfigOk(c) && Keyed(s) && Keyed(s') && Progress(c, s, n, done)
    requires Kinded(id) && !Asked(c, id)
    requires forall i | i != id :: (i in s <==> i in s') && (i in s ==> s[i] == s'[i])
    ensures Progress(c, s', n, done)
  {
    hide ConfigOk, MatchesId, OwnId, TimeOf, Kinded;
    forall k: nat | k < n
      ensures TickStored(c, s', k, done)
    {
      assert TickStored(c, s, k, done);
      OwnIdAsked(c, TimeOf(c, k));
    }
  }

  // ---------------------------------------------------------------- another first time

  /** Nothing but the times depends on when the first tick is. */
  lemma SameTicks(c: Config, initial: Time)
    ensures var c' := StartingAt(c, initial);
            (ConfigOk(c') <==> ConfigOk(c)) &&
            LatestQuery(c') == LatestQuery(c) && EarliestQuery(c') == EarliestQuery(c) &&
            (forall t :: TickId(c', t) == TickId(c, t) && OwnId(c', t) == OwnId(c, t)) &&
            (forall id | Kinded(id) :: Asked(c', id) <==> Asked(c, id))
  {
    hide Valid, ParseKind, MatchesId, StampOk, StampsApart;
  }

  /** As long as no tick is stored the first one can be at any time. */
  lemma NoTicksYet(c: Config, initial: Time, s: Store, done: nat)
    requires Keyed(s) && Progress(c, s, 0, done)
    ensures Progress(StartingAt(c, initial), s, 0, done)
  {
    hide OwnId, MatchesId, TimeOf, Kinded, ConfigOk;
    SameTicks(c, initial);
  }
}
