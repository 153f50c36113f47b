/** The event ticker, the outcome ticker and the oracle loop that consumes what they yield. */
module Tickers {
  import opened Wrappers
  import opened Decimal
  import opened Paths
  import opened EventKinds
  import opened EventIds
  import opened Outcomes
  import opened IdParser
  import opened Announcements
  import opened KeyChains
  import opened Nodes
  import opened Stores
  import opened Oracles
  import opened Related

  /** An event ticker and an outcome ticker below one prefix. `initial` is the time of the first tick, which a process
      may work out anew when it starts; `completes` says whether related events are completed along with the outcomes;
      `stamp` writes the second a time falls in. */
  datatype Config = Config(
    prefix: Path,
    endsWith: Path,
    kind: EventKind,
    interval: Time,
    lookAhead: Time,
    initial: Time,
    outcomesEndWith: Path,
    outcomesKind: Option<EventKind>,
    creator: Creator,
    completes: bool,
    stamp: Time -> string)

  function StartingAt(c: Config, initial: Time): Config {
    c.(initial := initial)
  }

  /** How the outcome ticker makes up values: the random one draws from a generator that is seeded with the id. */
  datatype Creator = Zero | Random(max: Option<u64>, draw: EventId -> nat)

  function ValueLimit(max: Option<u64>, id: EventId): u64
    requires Kinded(id)
  {
    var n := NOutcomes(KindOf(id));
    if max.Some? && max.value < n then max.value else n
  }

  /** A random value is drawn below a limit, and drawing below zero panics. */
  predicate CreatorPanics(creator: Creator, id: EventId) {
    creator.Random? && (!Kinded(id) || ValueLimit(creator.max, id) == 0)
  }

  function CreatedValue(creator: Creator, id: EventId): u64
    requires !CreatorPanics(creator, id)
  {
    match creator
    case Zero => 0
    case Random(max, draw) => draw(id) % ValueLimit(max, id)
  }

  /** Whatever a creator makes up can be printed, and stays below the configured maximum. */
  lemma CreatedInRange(creator: Creator, id: EventId)
    requires Kinded(id) && !CreatorPanics(creator, id)
    ensures InRange(id, CreatedValue(creator, id))
    ensures creator.Zero? ==> CreatedValue(creator, id) == 0
    ensures creator.Random? && creator.max.Some? ==> CreatedValue(creator, id) < creator.max.value
  {
    KindIsCanonical(id);
  }

  /** A creator panics on an event exactly when its maximum is configured as zero. */
  lemma CreatorPanicsIff(creator: Creator, id: EventId)
    requires Kinded(id)
    ensures CreatorPanics(creator, id) <==> creator.Random? && creator.max == Some(0)
  {
    KindIsCanonical(id);
  }

  /** Below the limit of a draw is everything that can be printed and is below the maximum, but for the greatest number
      as a price. */
  lemma BelowLimitIff(max: Option<u64>, id: EventId, v: u64)
    requires Kinded(id)
    ensures v < ValueLimit(max, id) <==>
            InRange(id, v) && (max.None? || v < max.value) && (KindOf(id).Price? ==> v < U64_MAX)
  {
    hide ParseKind, StripEvent, KindOf;
  }

  /** And everything below the limit is what some draw makes up. */
  lemma CreatedIff(max: Option<u64>, id: EventId, v: u64)
    requires Kinded(id)
    ensures (exists draw :: CanCreate(Random(max, draw), id, v)) <==>
            InRange(id, v) && (max.None? || v < max.value) && (KindOf(id).Price? ==> v < U64_MAX)
  {
    hide Kinded, KindOf, InRange, ValueLimit;
    BelowLimitIff(max, id, v);
    if v < ValueLimit(max, id) {
      DrawnBelow(v, ValueLimit(max, id));
      assert CanCreate(Random(max, (_: EventId) => v), id, v);
    }
  }

  predicate CanCreate(creator: Creator, id: EventId, v: u64) {
    !CreatorPanics(creator, id) && CreatedValue(creator, id) == v
  }

  lemma DrawnBelow(v: nat, limit: nat)
    requires v < limit
    ensures v % limit == v
  {
  }

  /** The path of a tick before it is prefixed: the time, then the configured ending. */
  function TickPath(c: Config, t: Time): Path {
    Prefix(c.endsWith, "/" + c.stamp(t))
  }

  function TickId(c: Config, t: Time): EventId {
    FromPathAndKind(TickPath(c, t), c.kind)
  }

  function TickEvent(c: Config, t: Time): Event {
    Event(TickId(c, t), Some(t))
  }

  /** What the event stream asks for: its own latest event. */
  function LatestQuery(c: Config): EventQuery {
    EventQuery(None, None, Latest, c.endsWith, Some(c.kind))
  }

  /** What the outcome stream asks for: the earliest event that is not attested to. */
  function EarliestQuery(c: Config): EventQuery {
    EventQuery(None, Some(false), Earliest, c.outcomesEndWith, c.outcomesKind)
  }

  /** The loop prefixes what a stream yielded before handing it to the oracle. */
  function PrefixEvent(e: Event, base: Path): Event {
    e.(id := PrefixId(e.id, base))
  }

  function PrefixStamped(stamped: StampedOutcome, base: Path): StampedOutcome {
    stamped.(outcome := stamped.outcome.(id := PrefixId(stamped.outcome.id, base)))
  }

  /** Where the event stream is: about to query, delayed, about to yield, or waiting to be notified. */
  datatype EventPc = AskLatest | Delayed(next: Time) | Ready(time: Time) | Yielded(time: Time)

  datatype OutcomePc = AskEarliest | Due(id: EventId, at: Time) | Stamped(outcome: StampedOutcome)

  /** Where the stream around the outcome stream is: it passes on what that one yields, or is about to ask what follows
      from it, or gives that one by one. */
  datatype Relating =
    | Idle
    | Held(base: StampedOutcome)
    | Giving(base: StampedOutcome, left: seq<StampedOutcome>)

  /** The outcome stream is asked again when nothing is left to give. */
  predicate Finished(r: Relating) {
    r.Idle? || (r.Giving? && r.left == [])
  }

  /** What the event stream does with the answer to its query; an event without a time is a panic. */
  function AfterLatest(c: Config, found: Option<Event>): Option<EventPc> {
    match found
    case None => Some(Ready(c.initial))
    case Some(Event(_, None)) => None
    case Some(Event(_, Some(latest))) => Some(Delayed(latest + c.interval))
  }

  function AfterEarliest(found: Option<Event>): Option<OutcomePc> {
    match found
    case None => Some(AskEarliest)
    case Some(Event(_, None)) => None
    case Some(Event(id, Some(at))) => Some(Due(id, at))
  }

  /** A delayed stream is ready from the time of its tick less the look-ahead on. */
  function Woken(c: Config, pc: EventPc, now: Time): EventPc
    requires pc.Delayed?
  {
    if now >= pc.next - c.lookAhead then Ready(pc.next) else pc
  }

  /** What the outcome stream yields, stamped with the time it is then. */
  function Created(c: Config, pc: OutcomePc, now: Time): StampedOutcome
    requires pc.Due? && !CreatorPanics(c.creator, pc.id)
  {
    StampedOutcome(Outcome(pc.id, CreatedValue(c.creator, pc.id)), now)
  }

  /** The indexes that a filter picks for `=` predicates name outcomes. */
  predicate Picks(id: EventId, kind: PredicateKind, filter: OutcomeFilter)
    requires Kinded(id)
  {
    kind.EqKind? && filter.Indexes? ==> forall i | 0 <= i < |filter.chosen| :: InRange(id, filter.chosen[i])
  }

  function StampAll(outcomes: seq<Outcome>, time: Time): seq<StampedOutcome> {
    seq(|outcomes|, i requires 0 <= i < |outcomes| => StampedOutcome(outcomes[i], time))
  }

  /** The outcomes that follow for the siblings that a prefixed database knows of. */
  ghost predicate AreSiblings(s: Store, prefix: Path, outcome: Outcome, r: Option<seq<Outcome>>)
    requires Keyed(s) && HasParties(outcome.id) && InRange(outcome.id, outcome.value)
  {
    if NOutcomes(KindOf(outcome.id)) < 3 then r == Some([])
    else
      exists events | IsQueryResult(s, PrefixQuery(prefix, SiblingQuery(outcome.id)), events) ::
        var ids := StrippedIds(prefix, events);
        r == if Related.AllKinded(ids) then Some(CompleteRelated(outcome, ids)) else None
  }

  class TimeEventStream {
    const db: PrefixedDb
    const config: Config
    var pc: EventPc

    constructor (db: PrefixedDb, config: Config)
      ensures this.db == db && this.config == config && pc == AskLatest
    {
      this.db, this.config, pc := db, config, AskLatest;
    }

    method Query() returns (ok: bool)
      requires db.inner.Valid() && pc.AskLatest?
      modifies this`pc
      ensures exists found | IsPrefixedFirst(db.inner.inner, db.prefix, LatestQuery(config), found) ::
                match AfterLatest(config, found)
                case None => !ok && pc == old(pc)
                case Some(next) => ok && pc == next
    {
      var found := db.QueryEvent(LatestQuery(config));
      ok := AfterLatest(config, found).Some?;
      if ok {
        pc := AfterLatest(config, found).value;
      }
    }

    /** `delay_until`: a time that has passed does not delay. */
    method Delay(now: Time)
      requires pc.Delayed?
      modifies this`pc
      ensures pc == Woken(config, old(pc), now)
    {
      var delta := pc.next - config.lookAhead - now;
      if delta <= 0 {
        pc := Ready(pc.next);
      }
    }

    method Yield() returns (e: Event)
      requires pc.Ready?
      modifies this`pc
      ensures pc == Yielded(old(pc).time) && e == TickEvent(config, old(pc).time)
    {
      e := TickEvent(config, pc.time);
      pc := Yielded(pc.time);
    }

    /** Processing has been tried; whether it failed or not, the stream asks again. */
    method Notified()
      requires pc.Yielded?
      modifies this`pc
      ensures pc == AskLatest
    {
      pc := AskLatest;
    }
  }

  class TimeOutcomeStream {
    const db: PrefixedDb
    const config: Config
    var pc: OutcomePc

    constructor (db: PrefixedDb, config: Config)
      ensures this.db == db && this.config == config && pc == AskEarliest
    {
      this.db, this.config, pc := db, config, AskEarliest;
    }

    method Query() returns (ok: bool)
      requires db.inner.Valid() && pc.AskEarliest?
      modifies this`pc
      ensures exists found | IsPrefixedFirst(db.inner.inner, db.prefix, EarliestQuery(config), found) ::
                match AfterEarliest(found)
                case None => !ok && pc == old(pc)
                case Some(next) => ok && pc == next
    {
      var found := db.QueryEvent(EarliestQuery(config));
      ok := AfterEarliest(found).Some?;
      if ok {
        pc := AfterEarliest(found).value;
      }
    }

    /** Yields an outcome of an event that is due; nothing when making it up panics. */
    method Yield(now: Time) returns (r: Option<StampedOutcome>)
      requires pc.Due? && now >= pc.at
      modifies this`pc
      ensures r == if CreatorPanics(config.creator, old(pc).id) then None else Some(Created(config, old(pc), now))
      ensures pc == if r.Some? then Stamped(r.value) else old(pc)
    {
      if CreatorPanics(config.creator, pc.id) {
        return None;
      }
      r := Some(Created(config, pc, now));
      pc := Stamped(r.value);
    }

    method Notified()
      requires pc.Stamped?
      modifies this`pc
      ensures pc == AskEarliest
    {
      pc := AskEarliest;
    }
  }

  /** An event stream with predicates configured: what the wrapped stream yields, then a predicate for
      every outcome that the filter picks. */
  class PredicateStream {
    const kind: PredicateKind
    const filter: OutcomeFilter

    constructor (kind: PredicateKind, filter: OutcomeFilter)
      ensures this.kind == kind && this.filter == filter
    {
      this.kind, this.filter := kind, filter;
    }

    method Next(base: Event) returns (out: seq<Event>)
      requires HasParties(base.id) && !KindOf(base.id).Predicated? && Picks(base.id, kind, filter)
      ensures var ids := ApplyPredicate(base.id, kind, filter);
              |out| == |ids| + 1 && out[0] == base &&
              forall i | 0 <= i < |ids| :: out[i + 1] == Event(ids[i], base.expectedOutcomeTime)
    {
      var ids := ApplyPredicate(base.id, kind, filter);
      out := [base];
      for i := 0 to |ids|
        invariant |out| == i + 1 && out[0] == base
        invariant forall j | 0 <= j < i :: out[j + 1] == Event(ids[j], base.expectedOutcomeTime)
      {
        out := out + [Event(ids[i], base.expectedOutcomeTime)];
      }
    }
  }

  /** An outcome stream that completes related events: what the wrapped stream yields, then what follows
      from it for the siblings, all with the time of the first. */
  class RelatedStream {
    const db: PrefixedDb

    constructor (db: PrefixedDb)
      ensures this.db == db
    {
      this.db := db;
    }

    /** `complete_related`; nothing comes out when a sibling does not show its kind once it is stripped. */
    method Siblings(outcome: Outcome) returns (r: Option<seq<Outcome>>)
      requires db.inner.Valid() && HasParties(outcome.id) && InRange(outcome.id, outcome.value)
      ensures AreSiblings(db.inner.inner, db.prefix, outcome, r)
    {
      hide ParseKind, OutcomeString, IsQueryResult, KindOf, FilterRelated;
      if NOutcomes(KindOf(outcome.id)) < 3 {
        return Some([]);
      }
      var events := db.QueryEvents(SiblingQuery(outcome.id));
      var ids := seq(|events|, i requires 0 <= i < |events| => events[i].id);
      ghost var found :| IsQueryResult(db.inner.inner, PrefixQuery(db.prefix, SiblingQuery(outcome.id)), found) &&
        events == seq(|found|, i requires 0 <= i < |found| => StripEventId(db.prefix, found[i]));
      assert ids == StrippedIds(db.prefix, found);
      if !Related.AllKinded(ids) {
        return None;
      }
      r := Some(CompleteRelated(outcome, ids));
    }

    method Next(base: StampedOutcome) returns (out: Option<seq<StampedOutcome>>)
      requires db.inner.Valid() && HasParties(base.outcome.id) && InRange(base.outcome.id, base.outcome.value)
      ensures exists siblings | AreSiblings(db.inner.inner, db.prefix, base.outcome, siblings) ::
                out == if siblings.None? then None else Some([base] + StampAll(siblings.value, base.time))
    {
      hide Kinded, StripEvent, AreSiblings;
      var siblings := Siblings(base.outcome);
      if siblings.None? {
        return None;
      }
      var related := siblings.value;
      var yielded := [base];
      for i := 0 to |related|
        invariant yielded == [base] + StampAll(related[..i], base.time)
      {
        assert related[..i + 1] == related[..i] + [related[i]];
        yielded := yielded + [StampedOutcome(related[i], base.time)];
      }
      assert related[..|related|] == related;
      out := Some(yielded);
    }
  }

  /** The one consumer of all streams. What each method returns is sent to the notifier. */
  class OracleLoop {
    const oracle: Oracle

    constructor (oracle: Oracle)
      ensures this.oracle == oracle
    {
      this.oracle := oracle;
    }

    method TakeEvent(parent: Path, e: Event) returns (failed: bool)
      requires oracle.db.Valid() && Valid(PrefixId(e.id, parent))
      modifies oracle.db`inner
      ensures oracle.db.Valid()
      ensures var (store, reply) := AddSpec(oracle.keychain, old(oracle.db.inner), PrefixEvent(e, parent));
              oracle.db.inner == store && failed == reply.Err?
    {
      var res := oracle.AddEvent(PrefixEvent(e, parent));
      failed := res.Err?;
    }

    method TakeOutcome(parent: Path, stamped: StampedOutcome) returns (failed: bool)
      requires oracle.db.Valid() && Acceptable(PrefixStamped(stamped, parent).outcome)
      modifies oracle.db`inner
      ensures oracle.db.Valid()
      ensures var (store, reply) := CompleteSpec(oracle.keychain, old(oracle.db.inner), PrefixStamped(stamped, parent));
              oracle.db.inner == store && failed == reply.Err?
    {
      var res := oracle.CompleteEvent(PrefixStamped(stamped, parent));
      failed := res.Err?;
    }

    method TakeNode(parent: Path, node: Node) returns (failed: bool)
      modifies oracle.db`nodeKinds
      ensures oracle.db.nodeKinds == old(oracle.db.nodeKinds)[Prefix(node.path, parent) := node.kind] && !failed
    {
      oracle.db.SetNode(node.(path := Prefix(node.path, parent)));
      failed := false;
    }
  }
}
