/** Runs of the event ticker, the outcome ticker and the oracle loop over one store, next to other
    sources, with a clock, failures of processing and restarts. */
module TickerRuns {
  import opened Wrappers
  import opened Paths
  import opened EventKinds
  import opened EventIds
  import opened Outcomes
  import opened IdParser
  import opened Announcements
  import opened Attestations
  import opened KeyChains
  import opened Stores
  import opened Oracles
  import opened OracleRuns
  import opened Related
  import opened Tickers
  import opened Ticks
  import opened RelatedTicks

  // ---------------------------------------------------------------- the protocol

  /** An event the event stream yielded, when, and whether no tick was stored by then. */
  datatype Emission = Emission(time: Time, at: Time, first: bool)

  /** The calls the oracle was given so far, the time of a first tick as the running process worked it out, the clock,
      both streams, the stream that completes related events around the second, the events that other sources have tried
      to attest to, and what was yielded. */
  datatype Sys = Sys(
    ops: seq<Op>,
    initial: Time,
    clock: Time,
    events: EventPc,
    outcomes: OutcomePc,
    relating: Relating,
    touched: set<EventId>,
    emitted: seq<Emission>)

  /** Processing can fail before its write, and its reply can get lost after it. */
  datatype Fault = NoFault | WriteFails | ReplyLost

  datatype Move =
    | Advance(to: Time)
    | Restart(master: Seed, initial: Time)
    | QueryLatest(found: Option<Event>)
    | Wake
    | YieldEvent
    | ProcessEvent(fault: Fault)
    | QueryEarliest(found: Option<Event>)
    | YieldOutcome
    | ProcessOutcome(fault: Fault)
    | QueryRelated(siblings: Option<seq<Outcome>>)
    | RelatedFails
    | ProcessRelated(fault: Fault)
    | Other(op: Op)

  /** The outcome can be looked at to see what follows from it. */
  predicate CanRelate(o: Outcome) {
    HasParties(o.id) && InRange(o.id, o.value)
  }

  /** When a move can be tried; `o` is what the calls so far made of the store and the oracles. */
  ghost predicate Enabled(hash: Hash, c: Config, s: Sys, o: State, m: Move) {
    Keyed(o.store) &&
    match m
    case Advance(to) => s.clock <= to
    case Restart(master, _) => o.keys == Some(PublicKeys(NewKeyChain(hash, master)))
    case QueryLatest(found) => s.events.AskLatest? && IsPrefixedFirst(o.store, c.prefix, LatestQuery(c), found)
    case Wake => s.events.Delayed? && s.clock >= s.events.next - c.lookAhead
    case YieldEvent => s.events.Ready?
    case ProcessEvent(_) => s.events.Yielded?
    case QueryEarliest(found) =>
      s.outcomes.AskEarliest? && Finished(s.relating) && IsPrefixedFirst(o.store, c.prefix, EarliestQuery(c), found)
    case YieldOutcome => s.outcomes.Due? && s.clock >= s.outcomes.at
    case ProcessOutcome(_) => s.outcomes.Stamped?
    case QueryRelated(siblings) =>
      s.relating.Held? &&
      (CanRelate(s.relating.base.outcome) ==> AreSiblings(o.store, c.prefix, s.relating.base.outcome, siblings))
    case RelatedFails => s.relating.Held?
    case ProcessRelated(_) => s.relating.Giving? && s.relating.left != []
    case Other(op) => OtherOk(c, Running(o), op)
  }

  /** No `expect`, no panic of the creator, and nothing handed to the oracle that it cannot print or decode. */
  ghost predicate Defined(c: Config, s: Sys, o: State, m: Move) {
    match m
    case QueryLatest(found) => AfterLatest(StartingAt(c, s.initial), found).Some?
    case ProcessEvent(_) => s.events.Yielded? && Valid(PrefixId(TickId(c, s.events.time), c.prefix))
    case QueryEarliest(found) => AfterEarliest(found).Some?
    case YieldOutcome => s.outcomes.Due? && !CreatorPanics(c.creator, s.outcomes.id)
    case ProcessOutcome(_) => s.outcomes.Stamped? && Acceptable(PrefixStamped(s.outcomes.outcome, c.prefix).outcome)
    case QueryRelated(siblings) => s.relating.Held? && CanRelate(s.relating.base.outcome) && siblings.Some?
    case ProcessRelated(_) =>
      s.relating.Giving? && s.relating.left != [] &&
      Acceptable(PrefixStamped(s.relating.left[0], c.prefix).outcome)
    case Other(op) => OpOk(op)
    case _ => true
  }

  /** The call that a move makes on the oracle, if any. */
  ghost function Call(c: Config, s: Sys, o: State, m: Move): (call: Option<Op>)
    requires Defined(c, s, o, m)
    ensures call.Some? ==> OpOk(call.value)
  {
    match m
    case Restart(master, _) => Some(Open(master))
    case ProcessEvent(fault) =>
      if fault.WriteFails? then None
      else Some(Add(Running(o), PrefixEvent(TickEvent(c, s.events.time), c.prefix)))
    case ProcessOutcome(fault) =>
      if fault.WriteFails? then None else Some(Complete(Running(o), PrefixStamped(s.outcomes.outcome, c.prefix)))
    case ProcessRelated(fault) =>
      if fault.WriteFails? then None else Some(Complete(Running(o), PrefixStamped(s.relating.left[0], c.prefix)))
    case Other(op) => Some(op)
    case _ => None
  }

  /** Nothing is stored that the tickers come across. */
  ghost predicate NoneAsked(c: Config, s: Store)
    requires Keyed(s)
  {
    forall id | id in s :: !Asked(c, id)
  }

  ghost function After(hash: Hash, c: Config, s: Sys, o: State, m: Move): Sys
    requires Enabled(hash, c, s, o, m) && Defined(c, s, o, m)
  {
    var called := Call(c, s, o, m);
    var s := s.(ops := if called.Some? then s.ops + [called.value] else s.ops);
    match m
    case Advance(to) => s.(clock := to)
    case Restart(_, initial) => s.(initial := initial, events := AskLatest, outcomes := AskEarliest, relating := Idle)
    case QueryLatest(found) => s.(events := AfterLatest(StartingAt(c, s.initial), found).value)
    case Wake => s.(events := Woken(c, s.events, s.clock))
    case YieldEvent =>
      s.(events := Yielded(s.events.time),
         emitted := s.emitted + [Emission(s.events.time, s.clock, NoneAsked(c, o.store))])
    case ProcessEvent(_) => s.(events := AskLatest)
    case QueryEarliest(found) => s.(outcomes := AfterEarliest(found).value, relating := Idle)
    case YieldOutcome => s.(outcomes := Stamped(Created(c, s.outcomes, s.clock)))
    case ProcessOutcome(_) =>
      AfterOutcome(c, s)
    case QueryRelated(siblings) =>
      s.(relating := Giving(s.relating.base, StampAll(siblings.value, s.relating.base.time)))
    case RelatedFails => s.(relating := Giving(s.relating.base, []))
    case ProcessRelated(_) => AfterRelated(s)
    case Other(op) => s.(touched := if op.Complete? then s.touched + {op.stamped.outcome.id} else s.touched)
  }

  // ---------------------------------------------------------------- what every move keeps

  /** Every event but the first is yielded at most the look-ahead early. */
  predicate EmittedInTime(c: Config, emitted: seq<Emission>) {
    forall i | 0 <= i < |emitted| :: InTime(c, emitted[i])
  }

  predicate InTime(c: Config, e: Emission) {
    e.first || e.at >= e.time - c.lookAhead
  }

  /** The first time of the progression is that of the running process as long as no tick is stored. */
  predicate EventsOk(c: Config, s: Sys, n: nat) {
    && (n == 0 ==> s.initial == c.initial)
    && match s.events
       case AskLatest => true
       case Delayed(next) => next == TimeOf(c, n)
       case Ready(time) => time == TimeOf(c, n) && (n == 0 || s.clock >= time - c.lookAhead)
       case Yielded(time) => time == TimeOf(c, n)
  }

  ghost predicate OutcomesOk(c: Config, s: Sys, n: nat, done: nat) {
    match s.outcomes
    case AskEarliest => true
    case Due(id, at) => done < n && id == TickId(c, TimeOf(c, done)) && at == TimeOf(c, done)
    case Stamped(stamped) => done < n && StampedFor(c, stamped, done)
  }

  /** What is held back or given comes from a tick, and follows from its outcome. */
  ghost predicate RelatingOk(c: Config, s: Sys, store: Store, n: nat, done: nat)
    requires Keyed(store)
  {
    match s.relating
    case Idle => true
    case Held(base) => c.completes && s.outcomes.AskEarliest? && OfTick(c, base, n, done)
    case Giving(base, left) =>
      c.completes && s.outcomes.AskEarliest? && OfTick(c, base, n, done) &&
      forall x | x in left :: Given(store, c.prefix, base, x)
  }

  ghost predicate OfTick(c: Config, base: StampedOutcome, n: nat, done: nat) {
    exists k: nat | k <= done && k < n :: StampedFor(c, base, k)
  }

  /** Every attestation to an event that is no tick, and that no other source has tried to attest to, is for what the
      outcome of one of the first `n` ticks says about it. */
  ghost predicate AllSaid(c: Config, touched: set<EventId>, store: Store, n: nat)
    requires Keyed(store)
  {
    forall id | IsAttested(store, id) && !Asked(c, id) && id !in touched ::
      c.completes && SaidBefore(c, n, id, store[id].attestation.value.outcome)
  }

  ghost predicate Inv(hash: Hash, c: Config, s: Sys, n: nat, done: nat) {
    && AllOk(s.ops)
    && Good(hash, Run(hash, s.ops))
    && Run(hash, s.ops).oracles != []
    && Progress(c, Run(hash, s.ops).store, n, done)
    && EventsOk(c, s, n)
    && OutcomesOk(c, s, n, done)
    && RelatingOk(c, s, Run(hash, s.ops).store, n, done)
    && AllSaid(c, s.touched, Run(hash, s.ops).store, n)
    && EmittedInTime(c, s.emitted)
  }

  predicate IsAttested(s: Store, id: EventId) {
    id in s && s[id].attestation.Some?
  }

  /** Nothing is lost, and nothing more is attested to. */
  ghost predicate Announces(s: Store, s': Store) {
    Extends(s', s) && forall id | IsAttested(s', id) :: IsAttested(s, id)
  }

  lemma AddAnnounces(kc: KeyChain, s: Store, e: Event)
    requires Valid(e.id)
    ensures e.id in AddSpec(kc, s, e).0 && Announces(s, AddSpec(kc, s, e).0)
  {
    hide Valid, Announce;
  }

  /** Nothing else changes, and the event, if it is there, is attested to now: for the outcome, if it was not before. */
  ghost predicate Completes(s: Store, s': Store, o: Outcome)
    requires Acceptable(o)
  {
    && Extends(s', s) && s'.Keys == s.Keys
    && (forall id | id in s && id != o.id :: s'[id] == s[id])
    && (o.id in s ==>
          s'[o.id].attestation.Some? &&
          (s[o.id].attestation.None? ==> s'[o.id].attestation.value.outcome == OutcomeString(o)))
  }

  lemma CompletesExtends(s: Store, s': Store, o: Outcome)
    requires Acceptable(o) && Completes(s, s', o)
    ensures Extends(s', s)
  {
  }

  lemma CompletesItself(s: Store, o: Outcome)
    requires Acceptable(o) && (o.id in s ==> s[o.id].attestation.Some?)
    ensures Completes(s, s, o)
  {
    hide Acceptable, OutcomeString;
  }

  lemma AttestedCompletes(s: Store, s': Store, o: Outcome, a: Attestation)
    requires Acceptable(o) && o.id in s && s[o.id].attestation.None? && a.outcome == OutcomeString(o)
    requires s' == s[o.id := s[o.id].(attestation := Some(a))]
    ensures Completes(s, s', o)
  {
    hide Acceptable, OutcomeString;
  }

  lemma CompleteAttests(hash: Hash, o: State, stamped: StampedOutcome)
    requires Good(hash, o) && o.oracles != [] && Acceptable(stamped.outcome)
    ensures Completes(o.store, Step(hash, o, Complete(Running(o), stamped)).0.store, stamped.outcome)
  {
    hide Acceptable, DecideComplete, MadeUnder, SchemesFor, Completes, Good,
         Step, OutcomeString, ScalarsForOutcome, EcdsaSignOutcome;
    KeyedIn(hash, o);
    var id := stamped.outcome.id;
    if id in o.store && o.store[id].attestation.None? {
      CompleteDecides(hash, o, Running(o), stamped);
      var a :| 0 <= a < |o.oracles| && DecideComplete(o.oracles[Running(o)], o.store, stamped) ==
        GoComplete(id, Attest(o.oracles[Running(o)], stamped, SchemesFor(o.oracles[a], id)));
      var attestation := Attest(o.oracles[Running(o)], stamped, SchemesFor(o.oracles[a], id));
      CompleteGoes(hash, o, Running(o), stamped, attestation);
      AttestedCompletes(
        o.store, Step(hash, o, Complete(Running(o), stamped)).0.store, stamped.outcome, attestation);
    } else {
      CompleteStops(hash, o, Running(o), stamped);
      CompletesItself(o.store, stamped.outcome);
    }
  }

  // what is said stays said

  lemma SaidLater(c: Config, n: nat, n': nat, id: EventId, text: string)
    requires Kinded(id) && SaidBefore(c, n, id, text) && n <= n'
    ensures SaidBefore(c, n', id, text)
  {
    hide Kinded, Said;
  }

  lemma SaidAfterAdd(c: Config, touched: set<EventId>, s: Store, s': Store, n: nat, n': nat)
    requires Keyed(s) && Keyed(s') && AllSaid(c, touched, s, n) && Announces(s, s') && n <= n'
    ensures AllSaid(c, touched, s', n')
  {
    hide Kinded, SaidBefore, Asked;
    forall id | IsAttested(s', id) && !Asked(c, id) && id !in touched
      ensures c.completes && SaidBefore(c, n', id, s'[id].attestation.value.outcome)
    {
      SaidLater(c, n, n', id, s'[id].attestation.value.outcome);
    }
  }

  lemma SaidAfterCompletion(
    c: Config, touched: set<EventId>, touched': set<EventId>, s: Store, s': Store, n: nat, o: Outcome)
    requires Keyed(s) && Keyed(s') && AllSaid(c, touched, s, n) && touched <= touched'
    requires Acceptable(o) && Completes(s, s', o) && Kinded(o.id)
    requires Asked(c, o.id) || o.id in touched' || (c.completes && SaidBefore(c, n, o.id, OutcomeString(o)))
    ensures AllSaid(c, touched', s', n)
  {
    hide Kinded, SaidBefore, Asked, Acceptable, OutcomeString;
  }

  /** What is given still follows when more is stored. */
  lemma RelatingStays(c: Config, s: Sys, s': Sys, store: Store, store': Store, n: nat, done: nat, n': nat, done': nat)
    requires Keyed(store) && Keyed(store') && Extends(store', store) && RelatingOk(c, s, store, n, done)
    requires n <= n' && done <= done' && s'.relating == s.relating && s'.outcomes == s.outcomes
    ensures RelatingOk(c, s', store', n', done')
  {
    hide StampedFor, HasParties, InRange;
    if !s.relating.Idle? {
      var k: nat :| k <= done && k < n && StampedFor(c, s.relating.base, k);
    }
    if s.relating.Giving? {
      forall x | x in s.relating.left
        ensures Given(store', c.prefix, s.relating.base, x)
      {
        GivenStays(store, store', c.prefix, s.relating.base, x);
      }
    }
  }

  lemma GivenStays(s: Store, s': Store, prefix: Path, base: StampedOutcome, x: StampedOutcome)
    requires Keyed(s) && Keyed(s') && Extends(s', s) && Given(s, prefix, base, x)
    ensures Given(s', prefix, base, x)
  {
    hide HasParties, InRange, Relate, MatchesId, KindOf, Kinded;
  }

  lemma RunAppend(hash: Hash, ops: seq<Op>, op: Op)
    requires AllOk(ops) && OpOk(op)
    ensures AllOk(ops + [op]) && Run(hash, ops + [op]) == Step(hash, Run(hash, ops), op).0
    ensures LastReply(hash, ops + [op]) == Step(hash, Run(hash, ops), op).1
  {
    hide OpOk, Step;
    assert (ops + [op])[..|ops|] == ops;
  }

  /** Adding the next tick works, and is announced. */
  lemma AddsTick(hash: Hash, c: Config, o: State, n: nat, done: nat)
    requires ConfigOk(c) && Good(hash, o) && o.oracles != [] && Progress(c, o.store, n, done)
    ensures var e := PrefixEvent(TickEvent(c, TimeOf(c, n)), c.prefix);
            Valid(e.id) &&
            var (o', reply) := Step(hash, o, Add(Running(o), e));
            reply == Added(Ok(())) && Keyed(o'.store) && o'.oracles == o.oracles && Progress(c, o'.store, n + 1, done)
  {
    hide ConfigOk, Progress, Valid, Announce, TimeOf, TickId;
    KeyedIn(hash, o);
    var e := PrefixEvent(TickEvent(c, TimeOf(c, n)), c.prefix);
    OwnIdShows(c, TimeOf(c, n));
    ValidIsUsable(e.id);
    TickAdded(c, o.store, n, done, AnnouncedEvent(e, Announce(o.oracles[Running(o)], e), None));
  }

  lemma StampedNames(c: Config, stamped: StampedOutcome, k: nat)
    requires StampedFor(c, stamped, k)
    ensures var o := PrefixStamped(stamped, c.prefix).outcome;
            Acceptable(o) && Valid(o.id) && HasParties(o.id) && InRange(o.id, o.value) &&
            o.id == OwnId(c, TimeOf(c, k)) &&
            NamesCreated(c, TimeOf(c, k), OutcomeString(o))
  {
    hide Valid, TimeOf, TickId, InRange, CreatedValue, CreatorPanics, OutcomeString, Kinded;
    ValidIsUsable(PrefixStamped(stamped, c.prefix).outcome.id);
  }

  /** Completing the next tick works, and attests to it. */
  lemma CompletesTick(hash: Hash, c: Config, o: State, n: nat, done: nat, stamped: StampedOutcome)
    requires ConfigOk(c) && Good(hash, o) && o.oracles != [] && Progress(c, o.store, n, done)
    requires done < n && StampedFor(c, stamped, done)
    ensures var (o', reply) := Step(hash, o, Complete(Running(o), PrefixStamped(stamped, c.prefix)));
            reply == CompletedAs(Ok(())) && Keyed(o'.store) && o'.oracles == o.oracles &&
            Progress(c, o'.store, n, done + 1)
  {
    hide ConfigOk, Good, Acceptable, Valid, InRange, TimeOf, TickId, OwnId, Step, SchemesFor,
         DecideComplete, MadeUnder, PrintFor, NamesCreated, Kinded;
    KeyedIn(hash, o);
    var prefixed := PrefixStamped(stamped, c.prefix);
    var id := OwnId(c, TimeOf(c, done));
    StampedNames(c, stamped, done);
    assert TickStored(c, o.store, done, done);
    CompleteDecides(hash, o, Running(o), prefixed);
    var a :| 0 <= a < |o.oracles| &&
      MadeUnder(o.oracles[a], o.oracles[Running(o)], o.store[id]) &&
      DecideComplete(o.oracles[Running(o)], o.store, prefixed) ==
        GoComplete(id, Attest(o.oracles[Running(o)], prefixed, SchemesFor(o.oracles[a], id)));
    var attestation := Attest(o.oracles[Running(o)], prefixed, SchemesFor(o.oracles[a], id));
    assert attestation.outcome == OutcomeString(prefixed.outcome) && attestation.time == Truncate(stamped.time);
    hide Progress, Attest;
    CompleteGoes(hash, o, Running(o), prefixed, attestation);
    TickCompleted(c, o.store, n, done, attestation, stamped.time);
  }

  /** An echo of the outcome of a tick that is attested to already changes nothing: it is the outcome attested to. */
  lemma EchoChangesNothing(hash: Hash, c: Config, o: State, n: nat, done: nat, stamped: StampedOutcome, k: nat)
    requires ConfigOk(c) && Good(hash, o) && Progress(c, o.store, n, done)
    requires k < done && StampedFor(c, stamped, k)
    requires o.oracles != []
    ensures Step(hash, o, Complete(Running(o), PrefixStamped(stamped, c.prefix))) ==
              (o, CompletedAs(Err(OutcomeAlreadyCompleted)))
  {
    hide ConfigOk, Good, Valid, InRange, TimeOf, TickId, Kinded, CreatorPanics, CreatedValue,
         PrintFor, VerifyAgainstId;
    KeyedIn(hash, o);
    assert TickStored(c, o.store, k, done);
  }

  /** A call goes for the record under its own id only. */
  lemma CallTouches(hash: Hash, o: State, op: Op, id: EventId)
    requires Keyed(o.store) && OpOk(op) && !op.Open? && !op.Publish? && id != GoesFor(op)
    ensures var o' := Step(hash, o, op).0;
            (id in o.store <==> id in o'.store) && (id in o.store ==> o.store[id] == o'.store[id])
  {
    hide Valid, InRange, Kinded, Attest, Announce, VerifyAgainstId, OutcomeString;
  }

  function GoesFor(op: Op): EventId
    requires !op.Open? && !op.Publish?
  {
    if op.Add? then op.event.id else op.stamped.outcome.id
  }

  lemma GoesForKinded(op: Op)
    requires OpOk(op) && !op.Open? && !op.Publish?
    ensures Kinded(GoesFor(op))
  {
    ValidIsUsable(GoesFor(op));
  }

  /** A call of another source leaves the ticks alone. */
  lemma OthersStep(hash: Hash, c: Config, o: State, n: nat, done: nat, op: Op)
    requires ConfigOk(c) && Good(hash, o) && Progress(c, o.store, n, done) && OtherOk(c, Running(o), op)
    ensures OpOk(op) && !op.Publish?
    ensures var o' := Step(hash, o, op).0; Keyed(o'.store) && o'.oracles == o.oracles && Progress(c, o'.store, n, done)
  {
    hide ConfigOk, Valid, InRange, Progress, Asked, Good, Step, Kinded;
    KeyedIn(hash, o);
    StepKeeps(hash, o, op);
    var o' := Step(hash, o, op).0;
    KeyedIn(hash, o');
    GoesForKinded(op);
    forall id | id != GoesFor(op)
      ensures (id in o.store <==> id in o'.store) && (id in o.store ==> o.store[id] == o'.store[id])
    {
      CallTouches(hash, o, op, id);
    }
    CallKeepsOracles(hash, o, op);
    OthersKeep(c, o.store, o'.store, GoesFor(op), n, done);
  }

  /** What the outcome stream yields for the next tick is an outcome the oracle takes. */
  lemma YieldedIsStamped(c: Config, k: nat, pc: OutcomePc, now: Time)
    requires ConfigOk(c) && now >= TimeOf(c, k) && pc.Due? && pc.id == TickId(c, TimeOf(c, k))
    ensures !CreatorPanics(c.creator, pc.id) && StampedFor(c, Created(c, pc, now), k)
  {
    hide Valid, TimeOf, TickId, StampOk, CreatedValue;
    TickIsValid(c, TimeOf(c, k));
    OwnIdShows(c, TimeOf(c, k));
    CreatorIsOk(c, pc.id);
    CreatedInRange(c.creator, pc.id);
  }

  lemma CreatorIsOk(c: Config, id: EventId)
    requires ConfigOk(c) && Kinded(id)
    ensures !CreatorPanics(c.creator, id)
  {
    hide Valid, TickId, StampOk, ParseKind;
  }

  /** The moves that wait, ask or yield. */
  predicate Quiet(m: Move) {
    m.Advance? || m.QueryLatest? || m.Wake? || m.YieldEvent? || m.QueryEarliest? || m.YieldOutcome? ||
    m.QueryRelated? || m.RelatedFails?
  }

  /** The answer to the latest query leads to the next tick, or to the first one of the running process. */
  lemma LatestLeadsOn(c: Config, initial: Time, s: Store, n: nat, done: nat, found: Option<Event>)
    requires ConfigOk(c) && Keyed(s) && Progress(c, s, n, done)
    requires IsPrefixedFirst(s, c.prefix, LatestQuery(c), found)
    ensures AfterLatest(StartingAt(c, initial), found) == Some(if n == 0 then Ready(initial) else Delayed(TimeOf(c, n)))
  {
    hide ConfigOk, Progress, IsPrefixedFirst, TimeOf;
    LatestIsLast(c, s, n, done, found);
  }

  /** No stored event is one that the tickers come across exactly when there is no tick yet. */
  lemma NoneAskedIff(c: Config, s: Store, n: nat, done: nat)
    requires ConfigOk(c) && Keyed(s) && Progress(c, s, n, done)
    ensures NoneAsked(c, s) <==> n == 0
  {
    hide ConfigOk, MatchesId, Kinded, TickRecord, OwnId, TimeOf;
    if n > 0 {
      OwnIdAsked(c, TimeOf(c, 0));
      assert TickStored(c, s, 0, done);
      assert Asked(c, OwnId(c, TimeOf(c, 0)));
    }
    forall id | id in s && Asked(c, id)
      ensures n > 0
    {
      var k := TickOf(c, s, n, done, id);
    }
  }

  /** The outcome of a tick can be looked at, and what is found for it can be given. */
  lemma BaseCanRelate(c: Config, base: StampedOutcome, n: nat, done: nat) returns (k: nat)
    requires ConfigOk(c) && OfTick(c, base, n, done)
    ensures k <= done && k < n && StampedFor(c, base, k) && CanRelate(base.outcome)
  {
    hide TimeOf, TickId, ConfigOk, Valid, CreatedValue, CreatorPanics, ParseKind, StripEvent;
    k :| k <= done && k < n && StampedFor(c, base, k);
    TickIsValid(c, TimeOf(c, k));
    ValidIsUsable(TickId(c, TimeOf(c, k)));
    CreatedInRange(c.creator, base.outcome.id);
  }

  lemma RelatedIsGiven(c: Config, s: Sys, store: Store, siblings: Option<seq<Outcome>>, n: nat, done: nat)
    requires ConfigOk(c) && Keyed(store) && RelatingOk(c, s, store, n, done) && s.relating.Held?
    requires CanRelate(s.relating.base.outcome) ==> AreSiblings(store, c.prefix, s.relating.base.outcome, siblings)
    ensures CanRelate(s.relating.base.outcome) && siblings.Some?
    ensures var base := s.relating.base;
            RelatingOk(c, s.(relating := Giving(base, StampAll(siblings.value, base.time))), store, n, done)
  {
    hide ConfigOk, AreSiblings, StampedFor, HasParties, InRange, Given;
    var k := BaseCanRelate(c, s.relating.base, n, done);
    SiblingsFollow(c, store, k, s.relating.base, siblings);
  }

  lemma QuietKeeps(hash: Hash, c: Config, s: Sys, m: Move, n: nat, done: nat)
    requires ConfigOk(c) && Inv(hash, c, s, n, done) && Quiet(m)
    requires Enabled(hash, c, s, Run(hash, s.ops), m)
    ensures Defined(c, s, Run(hash, s.ops), m)
    ensures Inv(hash, c, After(hash, c, s, Run(hash, s.ops), m), n, done)
  {
    hide ConfigOk, Good, Progress, Run, Valid, InRange, TimeOf, TickId, AfterLatest, AfterEarliest, HasParties,
         StampedFor, Created, CreatorPanics, AllSaid, Given, OfTick, NoneAsked, AreSiblings, CanRelate, StampAll;
    var o := Run(hash, s.ops);
    match m {
      case QueryLatest(found) =>
        LatestLeadsOn(c, s.initial, o.store, n, done, found);
        NextTime(c, n);
      case YieldEvent =>
        NoneAskedIff(c, o.store, n, done);
      case QueryEarliest(found) =>
        EarliestIsNext(c, o.store, n, done, found);
      case YieldOutcome =>
        YieldedIsStamped(c, done, s.outcomes, s.clock);
      case QueryRelated(siblings) =>
        RelatedIsGiven(c, s, o.store, siblings, n, done);
      case _ =>
    }
  }

  /** A call on the oracle keeps the runs good, and the rest is what the call made of the ticks. */
  lemma CalledInv(hash: Hash, c: Config, s: Sys, s': Sys, op: Op, n: nat, done: nat, n': nat, done': nat)
    requires Inv(hash, c, s, n, done) && OpOk(op) && !op.Publish? && s'.ops == s.ops + [op]
    requires var o' := Step(hash, Run(hash, s.ops), op).0;
             o'.oracles != [] && Keyed(o'.store) && Progress(c, o'.store, n', done') &&
             RelatingOk(c, s', o'.store, n', done') && AllSaid(c, s'.touched, o'.store, n')
    requires EventsOk(c, s', n') && OutcomesOk(c, s', n', done') && s'.emitted == s.emitted
    ensures Inv(hash, c, s', n', done')
  {
    hide Good, Progress, Run, OpOk, Step, EventsOk, OutcomesOk, RelatingOk, AllSaid;
    StepKeeps(hash, Run(hash, s.ops), op);
    RunAppend(hash, s.ops, op);
  }

  /** A new start works out the first time anew; it matters only while no tick is stored. */
  lemma RestartMove(hash: Hash, c: Config, s: Sys, m: Move, n: nat, done: nat)
    requires Inv(hash, c, s, n, done) && m.Restart? && Enabled(hash, c, s, Run(hash, s.ops), m)
    ensures Defined(c, s, Run(hash, s.ops), m)
    ensures Inv(hash, if n == 0 then StartingAt(c, m.initial) else c, After(hash, c, s, Run(hash, s.ops), m), n, done)
  {
    hide Good, Progress, Run, Step, TimeOf, StampedFor, AllSaid;
    var o := Run(hash, s.ops);
    RestartKeeps(hash, o, m.master);
    RunAppend(hash, s.ops, Open(m.master));
    KeyedIn(hash, o);
    if n == 0 {
      NoTicksYet(c, m.initial, o.store, done);
      NothingSaidYet(c, m.initial, s.touched, o.store);
    }
  }

  lemma NothingSaidYet(c: Config, initial: Time, touched: set<EventId>, s: Store)
    requires Keyed(s) && AllSaid(c, touched, s, 0)
    ensures AllSaid(StartingAt(c, initial), touched, s, 0)
  {
    hide Kinded, Asked, Said;
    SameTicks(c, initial);
  }

  lemma EventMove(hash: Hash, c: Config, s: Sys, m: Move, n: nat, done: nat)
    requires ConfigOk(c) && Inv(hash, c, s, n, done)
    requires m.ProcessEvent? && Enabled(hash, c, s, Run(hash, s.ops), m)
    ensures Defined(c, s, Run(hash, s.ops), m)
    ensures Inv(hash, c, After(hash, c, s, Run(hash, s.ops), m), if m.fault.WriteFails? then n else n + 1, done)
  {
    hide ConfigOk, Good, Progress, Run, Step, TimeOf, StampedFor, TickId, Valid, RelatingOk, AllSaid, Keyed, Announces;
    var o := Run(hash, s.ops);
    AddsTick(hash, c, o, n, done);
    if m.fault.WriteFails? {
      KeyedIn(hash, o);
      RelatingStays(c, s, After(hash, c, s, o, m), o.store, o.store, n, done, n, done);
    } else {
      var s' := After(hash, c, s, o, m);
      var e := PrefixEvent(TickEvent(c, s.events.time), c.prefix);
      var store' := Step(hash, o, Add(Running(o), e)).0.store;
      AddedFits(hash, c, s, s', e, n, done, n + 1);
      CalledInv(hash, c, s, s', Add(Running(o), e), n, done, n + 1, done);
    }
  }

  /** An added event changes nothing about what is given and said. */
  lemma AddedFits(hash: Hash, c: Config, s: Sys, s': Sys, e: Event, n: nat, done: nat, n': nat)
    requires Inv(hash, c, s, n, done) && Valid(e.id) && n <= n'
    requires s'.relating == s.relating && s'.outcomes == s.outcomes && s'.touched == s.touched
    ensures var o := Run(hash, s.ops);
            var store' := Step(hash, o, Add(Running(o), e)).0.store;
            Keyed(store') && Announces(o.store, store') && e.id in store' &&
            RelatingOk(c, s', store', n', done) && AllSaid(c, s'.touched, store', n')
  {
    hide Good, Progress, Run, Step, Valid, RelatingOk, AllSaid, EventsOk, OutcomesOk, AddSpec, Announces;
    var o := Run(hash, s.ops);
    StepOfAdd(hash, o, e);
    AddAnnounces(o.oracles[Running(o)], o.store, e);
    StepKeeps(hash, o, Add(Running(o), e));
    KeyedIn(hash, o);
    KeyedIn(hash, Step(hash, o, Add(Running(o), e)).0);
    var store' := Step(hash, o, Add(Running(o), e)).0.store;
    RelatingStays(c, s, s', o.store, store', n, done, n', done);
    SaidAfterAdd(c, s.touched, o.store, store', n, n');
  }

  lemma StepOfAdd(hash: Hash, o: State, e: Event)
    requires Valid(e.id) && o.oracles != []
    ensures var (store, reply) := AddSpec(o.oracles[Running(o)], o.store, e);
            Step(hash, o, Add(Running(o), e)) == (o.(store := store), Added(reply))
  {
    hide Valid, AddSpec;
  }

  lemma StepOfComplete(hash: Hash, o: State, stamped: StampedOutcome)
    requires Acceptable(stamped.outcome) && o.oracles != []
    ensures var (store, reply) := CompleteSpec(o.oracles[Running(o)], o.store, stamped);
            Step(hash, o, Complete(Running(o), stamped)) == (o.(store := store), CompletedAs(reply))
  {
    hide Acceptable, CompleteSpec;
  }

  lemma OutcomeMove(hash: Hash, c: Config, s: Sys, m: Move, n: nat, done: nat)
    requires ConfigOk(c) && Inv(hash, c, s, n, done)
    requires m.ProcessOutcome? && Enabled(hash, c, s, Run(hash, s.ops), m)
    ensures Defined(c, s, Run(hash, s.ops), m)
    ensures Inv(hash, c, After(hash, c, s, Run(hash, s.ops), m), n, if m.fault.WriteFails? then done else done + 1)
  {
    hide ConfigOk, Good, Progress, Run, TimeOf, TickId, Valid, InRange, AllSaid, StampedFor, Acceptable, RelatingOk,
         Inv, EventsOk, EmittedInTime, AfterOutcome, Keyed;
    StampedOf(hash, c, s, n, done);
    OutcomeAfter(hash, c, s, Run(hash, s.ops), m);
    if m.fault.WriteFails? {
      OutcomeLost(hash, c, s, n, done);
    } else {
      OutcomeTaken(hash, c, s, n, done);
    }
  }

  function AfterOutcome(c: Config, s: Sys): Sys
    requires s.outcomes.Stamped?
  {
    s.(outcomes := AskEarliest, relating := if c.completes then Held(s.outcomes.outcome) else Idle)
  }

  lemma OutcomeAfter(hash: Hash, c: Config, s: Sys, o: State, m: Move)
    requires m.ProcessOutcome? && Enabled(hash, c, s, o, m)
    requires Acceptable(PrefixStamped(s.outcomes.outcome, c.prefix).outcome)
    ensures Defined(c, s, o, m)
    ensures After(hash, c, s, o, m) ==
            if m.fault.WriteFails? then AfterOutcome(c, s)
            else AfterOutcome(c, s).(ops := s.ops + [Complete(Running(o), PrefixStamped(s.outcomes.outcome, c.prefix))])
  {
    hide Acceptable, Keyed, Running;
  }

  lemma StampedOf(hash: Hash, c: Config, s: Sys, n: nat, done: nat)
    requires Inv(hash, c, s, n, done) && s.outcomes.Stamped?
    ensures AllOk(s.ops) && Good(hash, Run(hash, s.ops)) && Keyed(Run(hash, s.ops).store)
    ensures done < n && StampedFor(c, s.outcomes.outcome, done)
    ensures Acceptable(PrefixStamped(s.outcomes.outcome, c.prefix).outcome)
  {
    hide Good, Progress, Run, AllSaid, RelatingOk, EventsOk, EmittedInTime, Acceptable;
    KeyedIn(hash, Run(hash, s.ops));
  }

  lemma OutcomeLost(hash: Hash, c: Config, s: Sys, n: nat, done: nat)
    requires ConfigOk(c) && Inv(hash, c, s, n, done) && s.outcomes.Stamped?
    ensures Inv(hash, c, AfterOutcome(c, s), n, done)
  {
    hide ConfigOk, Good, Progress, Run, AllSaid, StampedFor, RelatingOk, EmittedInTime, Keyed;
    StampedOf(hash, c, s, n, done);
    HeldFits(c, AfterOutcome(c, s), Run(hash, s.ops).store, s.outcomes.outcome, n, done, done);
  }

  lemma OutcomeTaken(hash: Hash, c: Config, s: Sys, n: nat, done: nat)
    requires ConfigOk(c) && Inv(hash, c, s, n, done) && s.outcomes.Stamped?
    ensures AllOk(s.ops)
    ensures var call := Complete(Running(Run(hash, s.ops)), PrefixStamped(s.outcomes.outcome, c.prefix));
            Inv(hash, c, AfterOutcome(c, s).(ops := s.ops + [call]), n, done + 1)
  {
    hide ConfigOk, Good, Progress, Run, AllSaid, StampedFor, RelatingOk, Acceptable, Step, OpOk, Keyed, Completes;
    var o := Run(hash, s.ops);
    var stamped := s.outcomes.outcome;
    StampedOf(hash, c, s, n, done);
    var call := Complete(Running(o), PrefixStamped(stamped, c.prefix));
    var s' := AfterOutcome(c, s).(ops := s.ops + [call]);
    CompleteIsOk(Running(o), PrefixStamped(stamped, c.prefix));
    TickFits(hash, c, s, stamped, n, done);
    HeldFits(c, s', Step(hash, o, call).0.store, stamped, n, done + 1, done);
    CalledInv(hash, c, s, s', call, n, done, n, done + 1);
  }

  lemma HeldFits(c: Config, s: Sys, store: Store, base: StampedOutcome, n: nat, done: nat, k: nat)
    requires Keyed(store) && s.outcomes.AskEarliest? && s.relating == if c.completes then Held(base) else Idle
    requires k <= done && k < n && StampedFor(c, base, k)
    ensures RelatingOk(c, s, store, n, done)
  {
    hide StampedFor, Keyed;
  }

  /** Attesting to a tick says nothing about other events. */
  lemma TickFits(hash: Hash, c: Config, s: Sys, stamped: StampedOutcome, n: nat, done: nat)
    requires ConfigOk(c) && Inv(hash, c, s, n, done) && done < n && StampedFor(c, stamped, done)
    requires Acceptable(PrefixStamped(stamped, c.prefix).outcome)
    ensures var o := Run(hash, s.ops);
            var out := PrefixStamped(stamped, c.prefix);
            var o' := Step(hash, o, Complete(Running(o), out)).0;
            Keyed(o'.store) && o'.oracles == o.oracles && Progress(c, o'.store, n, done + 1) &&
            AllSaid(c, s.touched, o'.store, n) && Completes(o.store, o'.store, out.outcome)
  {
    hide ConfigOk, Good, Progress, Run, Step, TimeOf, TickId, Valid, InRange, AllSaid, StampedFor, Acceptable, EventsOk,
         OutcomesOk, RelatingOk, EmittedInTime, Completes, Asked, Kinded, OutcomeString;
    var o := Run(hash, s.ops);
    var out := PrefixStamped(stamped, c.prefix);
    StampedNames(c, stamped, done);
    CompletesTick(hash, c, o, n, done, stamped);
    KeyedIn(hash, o);
    CompleteAttests(hash, o, out);
    TickIsAsked(c, TimeOf(c, done));
    SaidAfterCompletion(
      c, s.touched, s.touched, o.store, Step(hash, o, Complete(Running(o), out)).0.store, n, out.outcome);
  }

  lemma TickIsAsked(c: Config, t: Time)
    requires ConfigOk(c)
    ensures Kinded(OwnId(c, t)) && Asked(c, OwnId(c, t))
  {
    hide ConfigOk, MatchesId, Kinded, OwnId;
    OwnIdAsked(c, t);
  }

  /** What follows is the outcome of the tick again, or an outcome of another event that the outcome speaks about. */
  lemma GivenFits(hash: Hash, c: Config, o: State, n: nat, done: nat, k: nat, base: StampedOutcome, x: StampedOutcome)
    requires ConfigOk(c) && c.completes && Good(hash, o) && Keyed(o.store) && Progress(c, o.store, n, done)
    requires k < n && StampedFor(c, base, k) && Given(o.store, c.prefix, base, x)
    ensures var out := PrefixStamped(x, c.prefix);
            Acceptable(out.outcome) && Kinded(out.outcome.id) && CanRelate(out.outcome) && out.outcome.id in o.store &&
            (out == PrefixStamped(base, c.prefix) || OtherOk(c, Running(o), Complete(Running(o), out))) &&
            SaidBefore(c, n, out.outcome.id, OutcomeString(out.outcome)) &&
            Said(c, k, out.outcome.id, OutcomeString(out.outcome))
  {
    hide ConfigOk, Kinded, TimeOf, OutcomeString, Valid, CreatedValue, CreatorPanics, StampsApart,
         NoneContinues, Relate, KindOf, MatchesId, Good, Progress, InRange, Said, HasParties, Asked;
    var id := PrefixId(x.outcome.id, c.prefix);
    CompletesApart(c);
    ApartSuffices(c, n, k);
    RelatedFits(hash, c, o, n, done, k, base, id);
    FollowIsSaid(c, k, base, o.store, x.outcome);
    assert PrefixStamped(x, c.prefix).outcome == Outcome(id, x.outcome.value);
    assert StampedOutcome(x.outcome, base.time) == x;
    OtherIsAcceptable(c, Running(o), PrefixStamped(x, c.prefix));
  }

  lemma CompletesApart(c: Config)
    requires ConfigOk(c) && c.completes
    ensures StampsApart(c.stamp)
  {
  }

  lemma OtherIsAcceptable(c: Config, who: nat, stamped: StampedOutcome)
    ensures OtherOk(c, who, Complete(who, stamped)) ==> Acceptable(stamped.outcome)
  {
    hide Acceptable, Asked;
  }

  lemma RelatedMove(hash: Hash, c: Config, s: Sys, m: Move, n: nat, done: nat) returns (done': nat)
    requires ConfigOk(c) && Inv(hash, c, s, n, done)
    requires m.ProcessRelated? && Enabled(hash, c, s, Run(hash, s.ops), m)
    ensures Defined(c, s, Run(hash, s.ops), m) && done <= done' <= done + 1
    ensures Inv(hash, c, After(hash, c, s, Run(hash, s.ops), m), n, done')
    ensures m.fault.WriteFails? ==> done' == done
  {
    hide ConfigOk, Good, Progress, Run, AllSaid, Acceptable, RelatingOk, Inv, AfterRelated, Keyed;
    done' := done;
    if m.fault.WriteFails? {
      RelatedLost(hash, c, s, n, done);
    } else {
      done' := RelatedTaken(hash, c, s, n, done);
    }
    var k := GivenOf(hash, c, s, n, done);
    RelatedAfter(hash, c, s, Run(hash, s.ops), m);
  }

  function AfterRelated(s: Sys): Sys
    requires s.relating.Giving? && s.relating.left != []
  {
    s.(relating := Giving(s.relating.base, s.relating.left[1..]))
  }

  lemma RelatedAfter(hash: Hash, c: Config, s: Sys, o: State, m: Move)
    requires m.ProcessRelated? && Enabled(hash, c, s, o, m)
    requires Acceptable(PrefixStamped(s.relating.left[0], c.prefix).outcome)
    ensures Defined(c, s, o, m)
    ensures After(hash, c, s, o, m) ==
            if m.fault.WriteFails? then AfterRelated(s)
            else AfterRelated(s).(ops := s.ops + [Complete(Running(o), PrefixStamped(s.relating.left[0], c.prefix))])
  {
    hide Acceptable, Keyed, Running;
  }

  /** What is given next: it follows from the outcome of a tick. */
  lemma GivenOf(hash: Hash, c: Config, s: Sys, n: nat, done: nat) returns (k: nat)
    requires ConfigOk(c) && Inv(hash, c, s, n, done) && s.relating.Giving? && s.relating.left != []
    ensures c.completes && AllOk(s.ops) && Good(hash, Run(hash, s.ops)) && Keyed(Run(hash, s.ops).store)
    ensures s.outcomes.AskEarliest?
    ensures k <= done && k < n && StampedFor(c, s.relating.base, k)
    ensures var o := Run(hash, s.ops);
            var out := PrefixStamped(s.relating.left[0], c.prefix);
            Acceptable(out.outcome) && Kinded(out.outcome.id) && CanRelate(out.outcome) && out.outcome.id in o.store &&
            (out == PrefixStamped(s.relating.base, c.prefix) || OtherOk(c, Running(o), Complete(Running(o), out))) &&
            SaidBefore(c, n, out.outcome.id, OutcomeString(out.outcome)) &&
            Said(c, k, out.outcome.id, OutcomeString(out.outcome))
  {
    hide ConfigOk, Good, Progress, Run, AllSaid, StampedFor, Acceptable, Given, OtherOk, SaidBefore, Said, OutcomesOk,
         EventsOk, EmittedInTime, CanRelate, Kinded, OutcomeString;
    KeyedIn(hash, Run(hash, s.ops));
    k :| k <= done && k < n && StampedFor(c, s.relating.base, k);
    GivenFits(hash, c, Run(hash, s.ops), n, done, k, s.relating.base, s.relating.left[0]);
  }

  lemma RelatedLost(hash: Hash, c: Config, s: Sys, n: nat, done: nat)
    requires ConfigOk(c) && Inv(hash, c, s, n, done) && s.relating.Giving? && s.relating.left != []
    ensures Inv(hash, c, AfterRelated(s), n, done)
  {
    hide ConfigOk, Good, Progress, Run, AllSaid, Given, OfTick, EmittedInTime, Keyed;
  }

  lemma RelatedTaken(hash: Hash, c: Config, s: Sys, n: nat, done: nat) returns (done': nat)
    requires ConfigOk(c) && Inv(hash, c, s, n, done) && s.relating.Giving? && s.relating.left != []
    ensures AllOk(s.ops) && done <= done' <= done + 1
    ensures var call := Complete(Running(Run(hash, s.ops)), PrefixStamped(s.relating.left[0], c.prefix));
            Inv(hash, c, AfterRelated(s).(ops := s.ops + [call]), n, done')
  {
    hide ConfigOk, Good, Progress, Run, AllSaid, StampedFor, Acceptable, Step, OpOk, Keyed, Completes, OtherOk,
         SaidBefore, Said, RelatingOk, OutcomeString, CanRelate, Kinded;
    var o := Run(hash, s.ops);
    var k := GivenOf(hash, c, s, n, done);
    var out := PrefixStamped(s.relating.left[0], c.prefix);
    var call := Complete(Running(o), out);
    CompleteIsOk(Running(o), out);
    done' := RelatedStep(hash, c, o, n, done, k, s.relating.base, out);
    CompleteAttests(hash, o, out);
    var store' := Step(hash, o, call).0.store;
    SaidAfterCompletion(c, s.touched, s.touched, o.store, store', n, out.outcome);
    var s' := AfterRelated(s).(ops := s.ops + [call]);
    CompletesExtends(o.store, store', out.outcome);
    RelatingStays(c, s, s, o.store, store', n, done, n, done');
    TailFits(c, s, s', store', n, done');
    CalledInv(hash, c, s, s', call, n, done, n, done');
  }

  lemma TailFits(c: Config, s: Sys, s': Sys, store: Store, n: nat, done: nat)
    requires Keyed(store) && RelatingOk(c, s, store, n, done) && s.relating.Giving? && s.relating.left != []
    requires s'.outcomes == s.outcomes && s'.relating == AfterRelated(s).relating
    ensures RelatingOk(c, s', store, n, done)
  {
    hide Given, OfTick, Keyed;
  }

  lemma CompleteIsOk(who: nat, out: StampedOutcome)
    requires Acceptable(out.outcome)
    ensures OpOk(Complete(who, out))
  {
    hide Acceptable;
  }

  /** Attesting to what follows attests to the tick when it is the tick again and was not yet, and else leaves the ticks
      alone. */
  lemma RelatedStep(
    hash: Hash, c: Config, o: State, n: nat, done: nat, k: nat, base: StampedOutcome, out: StampedOutcome)
    returns (done': nat)
    requires ConfigOk(c) && Good(hash, o) && Keyed(o.store) && o.oracles != [] && Progress(c, o.store, n, done)
    requires k <= done && k < n && StampedFor(c, base, k) && Acceptable(out.outcome)
    requires out == PrefixStamped(base, c.prefix) || OtherOk(c, Running(o), Complete(Running(o), out))
    ensures done <= done' <= done + 1
    ensures var o' := Step(hash, o, Complete(Running(o), out)).0;
            o'.oracles != [] && Keyed(o'.store) && Progress(c, o'.store, n, done')
  {
    hide ConfigOk, Good, Progress, Step, TimeOf, TickId, Valid, InRange, StampedFor, Acceptable, OtherOk;
    done' := done;
    if out == PrefixStamped(base, c.prefix) {
      if k == done {
        CompletesTick(hash, c, o, n, done, base);
        done' := done + 1;
      } else {
        EchoChangesNothing(hash, c, o, n, done, base, k);
      }
    } else {
      OthersStep(hash, c, o, n, done, Complete(Running(o), out));
    }
  }

  lemma OtherMove(hash: Hash, c: Config, s: Sys, m: Move, n: nat, done: nat)
    requires ConfigOk(c) && Inv(hash, c, s, n, done)
    requires m.Other? && Enabled(hash, c, s, Run(hash, s.ops), m)
    ensures Defined(c, s, Run(hash, s.ops), m)
    ensures Inv(hash, c, After(hash, c, s, Run(hash, s.ops), m), n, done)
  {
    hide ConfigOk, Good, Progress, Run, Step, TimeOf, StampedFor, OpOk, RelatingOk, AllSaid, Acceptable, Asked, Valid;
    var o := Run(hash, s.ops);
    OthersStep(hash, c, o, n, done, m.op);
    var s' := After(hash, c, s, o, m);
    if m.op.Add? {
      AddedFits(hash, c, s, s', m.op.event, n, done, n);
    } else {
      OtherCompletes(hash, c, s, s', m.op.stamped, n, done);
    }
    CalledInv(hash, c, s, s', m.op, n, done, n, done);
  }

  /** An event that another source attests to is one that it has touched. */
  lemma OtherCompletes(hash: Hash, c: Config, s: Sys, s': Sys, stamped: StampedOutcome, n: nat, done: nat)
    requires Inv(hash, c, s, n, done) && Acceptable(stamped.outcome)
    requires s'.relating == s.relating && s'.outcomes == s.outcomes
    requires s'.touched == s.touched + {stamped.outcome.id}
    ensures var o := Run(hash, s.ops);
            var store' := Step(hash, o, Complete(Running(o), stamped)).0.store;
            Keyed(store') && RelatingOk(c, s', store', n, done) && AllSaid(c, s'.touched, store', n)
  {
    hide Good, Progress, Run, Step, RelatingOk, AllSaid, EventsOk, OutcomesOk, Acceptable;
    var o := Run(hash, s.ops);
    KeyedIn(hash, o);
    CompleteAttests(hash, o, stamped);
    CompleteIsOk(Running(o), stamped);
    StepKeeps(hash, o, Complete(Running(o), stamped));
    KeyedIn(hash, Step(hash, o, Complete(Running(o), stamped)).0);
    var store' := Step(hash, o, Complete(Running(o), stamped)).0.store;
    AcceptableIsKinded(stamped.outcome);
    RelatingStays(c, s, s', o.store, store', n, done, n, done);
    SaidAfterCompletion(c, s.touched, s'.touched, o.store, store', n, stamped.outcome);
  }

  lemma AcceptableIsKinded(o: Outcome)
    requires Acceptable(o)
    ensures Kinded(o.id)
  {
  }

  /** Every move that can be tried is defined, and takes the progress at most one tick further; the first time stays
      once a tick is stored. */
  lemma MoveKeeps(hash: Hash, c: Config, s: Sys, m: Move, n: nat, done: nat) returns (first: Time, n': nat, done': nat)
    requires ConfigOk(c) && Inv(hash, c, s, n, done)
    requires Enabled(hash, c, s, Run(hash, s.ops), m)
    ensures Defined(c, s, Run(hash, s.ops), m)
    ensures Inv(hash, StartingAt(c, first), After(hash, c, s, Run(hash, s.ops), m), n', done')
    ensures n <= n' <= n + 1 && done <= done' <= done + 1 && (n > 0 ==> first == c.initial)
  {
    hide ConfigOk, Inv, Enabled, Defined, After;
    first, n', done' := c.initial, n, done;
    assert StartingAt(c, c.initial) == c;
    match m {
      case Restart(_, initial) =>
        RestartMove(hash, c, s, m, n, done);
        first := if n == 0 then initial else c.initial;
      case ProcessEvent(fault) =>
        EventMove(hash, c, s, m, n, done);
        n' := if fault.WriteFails? then n else n + 1;
      case ProcessOutcome(fault) =>
        OutcomeMove(hash, c, s, m, n, done);
        done' := if fault.WriteFails? then done else done + 1;
      case ProcessRelated(_) => done' := RelatedMove(hash, c, s, m, n, done);
      case Other(_) => OtherMove(hash, c, s, m, n, done);
      case _ => QuietKeeps(hash, c, s, m, n, done);
    }
  }

  /** What a move is does not depend on when the first tick is. */
  lemma SameMoves(hash: Hash, c: Config, first: Time, s: Sys, o: State, m: Move)
    ensures var c' := StartingAt(c, first);
            (Enabled(hash, c', s, o, m) <==> Enabled(hash, c, s, o, m)) &&
            (Defined(c', s, o, m) <==> Defined(c, s, o, m)) &&
            (Defined(c, s, o, m) ==> Call(c', s, o, m) == Call(c, s, o, m)) &&
            (Enabled(hash, c, s, o, m) && Defined(c, s, o, m) ==> After(hash, c', s, o, m) == After(hash, c, s, o, m))
  {
    hide Valid, InRange, Kinded, MatchesId, NewKeyChain, PublicKeys, HasParties, AreSiblings;
    SameTicks(c, first);
    assert StartingAt(StartingAt(c, first), s.initial) == StartingAt(c, s.initial);
    if m.Other? && OpOk(m.op) && !m.op.Open? && !m.op.Publish? {
      GoesForKinded(m.op);
    }
  }

  /** Opening the oracle again from the same seed succeeds, and leaves the store alone. */
  lemma RestartKeeps(hash: Hash, o: State, master: Seed)
    requires Good(hash, o) && o.keys == Some(PublicKeys(NewKeyChain(hash, master)))
    ensures var (o', reply) := Step(hash, o, Open(master));
            reply == Opened(true) && Good(hash, o') && o'.oracles != [] && o'.store == o.store
  {
    hide Good;
    OpenKeeps(hash, o, master);
  }

  // ---------------------------------------------------------------- runs

  /** Moves that can be tried, each from what the last one left. */
  ghost predicate IsStretch(hash: Hash, c: Config, trace: seq<Sys>, moves: seq<Move>) {
    && |trace| == |moves| + 1
    && forall i | 0 <= i < |moves| :: Moves(hash, c, trace[i], moves[i], trace[i + 1])
  }

  /** A run: a fresh oracle on an empty store, then moves that can be tried. */
  ghost predicate IsTrace(hash: Hash, c: Config, trace: seq<Sys>, moves: seq<Move>) {
    IsStretch(hash, c, trace, moves) && Starts(trace[0])
  }

  ghost predicate Starts(s: Sys) {
    && (exists master :: s.ops == [Open(master)])
    && s.events == AskLatest && s.outcomes == AskEarliest && s.relating == Idle && s.touched == {} && s.emitted == []
  }

  /** A move that is not defined would stop the run. */
  ghost predicate Moves(hash: Hash, c: Config, s: Sys, m: Move, s': Sys) {
    AllOk(s.ops) &&
    var o := Run(hash, s.ops);
    Enabled(hash, c, s, o, m) && Defined(c, s, o, m) && s' == After(hash, c, s, o, m)
  }

  lemma StartIsInv(hash: Hash, c: Config, s: Sys)
    requires Starts(s)
    ensures Inv(hash, StartingAt(c, s.initial), s, 0, 0)
  {
    hide NewKeyChain, PublicKeys, Valid, Made;
    var master :| s.ops == [Open(master)];
    RunIsGood(hash, []);
    RunAppend(hash, [], Open(master));
    assert [] + [Open(master)] == s.ops;
    OpenKeeps(hash, INITIAL, master);
  }

  /** The invariant holds along every stretch; the first time stays once a tick is stored, and the ticks only get more.
      */
  lemma {:induction false} StretchIsInv(
    hash: Hash, c: Config, trace: seq<Sys>, moves: seq<Move>, first: Time, n: nat, done: nat)
    returns (first': Time, n': nat, done': nat)
    requires ConfigOk(c) && IsStretch(hash, c, trace, moves) && Inv(hash, StartingAt(c, first), trace[0], n, done)
    ensures Inv(hash, StartingAt(c, first'), trace[|moves|], n', done')
    ensures n <= n' && done <= done' && (n > 0 ==> first' == first)
  {
    hide ConfigOk, Starts, Moves, Inv;
    if moves == [] {
      first', n', done' := first, n, done;
    } else {
      var last := |moves| - 1;
      assert Moves(hash, c, trace[last], moves[last], trace[last + 1]);
      first', n', done' := StretchIsInv(hash, c, trace[..|moves|], moves[..last], first, n, done);
      first', n', done' := InvStep(hash, c, trace[last], moves[last], trace[last + 1], first', n', done');
    }
  }

  lemma InvStep(hash: Hash, c: Config, s: Sys, m: Move, s': Sys, first: Time, n: nat, done: nat)
    returns (first': Time, n': nat, done': nat)
    requires ConfigOk(c) && Inv(hash, StartingAt(c, first), s, n, done) && Moves(hash, c, s, m, s')
    ensures Inv(hash, StartingAt(c, first'), s', n', done') && (n > 0 ==> first' == first)
    ensures n <= n' <= n + 1 && done <= done' <= done + 1
  {
    hide ConfigOk, Inv, After, Enabled, Defined, Call;
    SameTicks(c, first);
    SameMoves(hash, c, first, s, Run(hash, s.ops), m);
    first', n', done' := MoveKeeps(hash, StartingAt(c, first), s, m, n, done);
    assert StartingAt(StartingAt(c, first), first') == StartingAt(c, first');
  }

  ghost predicate Reachable(hash: Hash, c: Config, s: Sys) {
    exists trace, moves | IsTrace(hash, c, trace, moves) :: s == trace[|moves|]
  }

  /** Some moves lead from one state to the other. */
  ghost predicate LeadsTo(hash: Hash, c: Config, s: Sys, s': Sys) {
    exists trace, moves | IsStretch(hash, c, trace, moves) :: trace[0] == s && s' == trace[|moves|]
  }

  /** There are runs: the fresh oracle on an empty store is one. */
  lemma StartIsReachable(hash: Hash, c: Config, s: Sys)
    requires Starts(s)
    ensures Reachable(hash, c, s)
  {
    var moves: seq<Move> := [];
    assert IsTrace(hash, c, [s], moves);
    assert [s][|moves|] == s;
  }

  lemma ReachableIsInv(hash: Hash, c: Config, s: Sys) returns (first: Time, n: nat, done: nat)
    requires ConfigOk(c) && Reachable(hash, c, s)
    ensures Inv(hash, StartingAt(c, first), s, n, done)
  {
    hide ConfigOk, Inv, Starts, Moves;
    var trace: seq<Sys>, moves: seq<Move> :| IsTrace(hash, c, trace, moves) && s == trace[|moves|];
    StartIsInv(hash, c, trace[0]);
    first, n, done := StretchIsInv(hash, c, trace, moves, trace[0].initial, 0, 0);
  }

  lemma LeadsNowhere(hash: Hash, c: Config, s: Sys)
    ensures LeadsTo(hash, c, s, s)
  {
    var moves: seq<Move> := [];
    assert IsStretch(hash, c, [s], moves);
    assert [s][0] == s && [s][|moves|] == s;
  }

  lemma LeadsOneOn(hash: Hash, c: Config, s: Sys, s': Sys, m: Move, s'': Sys)
    requires LeadsTo(hash, c, s, s') && Moves(hash, c, s', m, s'')
    ensures LeadsTo(hash, c, s, s'')
  {
    hide Moves;
    var trace, moves :| IsStretch(hash, c, trace, moves) && trace[0] == s && s' == trace[|moves|];
    assert IsStretch(hash, c, trace + [s''], moves + [m]);
    assert (trace + [s''])[0] == s && (trace + [s''])[|moves + [m]|] == s'';
  }

  lemma LeadsFurther(hash: Hash, c: Config, s: Sys, s': Sys, s'': Sys)
    requires LeadsTo(hash, c, s, s') && LeadsTo(hash, c, s', s'')
    ensures LeadsTo(hash, c, s, s'')
  {
    hide Moves;
    var trace, moves :| IsStretch(hash, c, trace, moves) && trace[0] == s' && s'' == trace[|moves|];
    StretchLeads(hash, c, s, trace, moves);
  }

  lemma {:induction false} StretchLeads(hash: Hash, c: Config, s: Sys, trace: seq<Sys>, moves: seq<Move>)
    requires IsStretch(hash, c, trace, moves) && LeadsTo(hash, c, s, trace[0])
    ensures LeadsTo(hash, c, s, trace[|moves|])
    decreases |moves|
  {
    hide Moves, LeadsTo;
    if moves != [] {
      var last := |moves| - 1;
      assert Moves(hash, c, trace[last], moves[last], trace[last + 1]);
      StretchLeads(hash, c, s, trace[..|moves|], moves[..last]);
      LeadsOneOn(hash, c, s, trace[last], moves[last], trace[last + 1]);
    }
  }

  lemma LeadsIsReachable(hash: Hash, c: Config, s: Sys, s': Sys)
    requires Reachable(hash, c, s) && LeadsTo(hash, c, s, s')
    ensures Reachable(hash, c, s')
  {
    hide Starts, Moves;
    var trace, moves :| IsTrace(hash, c, trace, moves) && s == trace[|moves|];
    var more, moreMoves :| IsStretch(hash, c, more, moreMoves) && more[0] == s && s' == more[|moreMoves|];
    StretchOnTrace(hash, c, trace, moves, more, moreMoves);
  }

  lemma {:induction false} StretchOnTrace(
    hash: Hash, c: Config, trace: seq<Sys>, moves: seq<Move>, more: seq<Sys>, moreMoves: seq<Move>)
    requires IsTrace(hash, c, trace, moves) && IsStretch(hash, c, more, moreMoves) && more[0] == trace[|moves|]
    ensures Reachable(hash, c, more[|moreMoves|])
    decreases |moreMoves|
  {
    hide Starts, Moves, Reachable;
    if moreMoves == [] {
      assert Reachable(hash, c, trace[|moves|]) by {
        TraceReaches(hash, c, trace, moves);
      }
    } else {
      var last := |moreMoves| - 1;
      assert Moves(hash, c, more[last], moreMoves[last], more[last + 1]);
      StretchOnTrace(hash, c, trace, moves, more[..|moreMoves|], moreMoves[..last]);
      ReachesOn(hash, c, more[last], moreMoves[last], more[last + 1]);
    }
  }

  lemma TraceReaches(hash: Hash, c: Config, trace: seq<Sys>, moves: seq<Move>)
    requires IsTrace(hash, c, trace, moves)
    ensures Reachable(hash, c, trace[|moves|])
  {
    hide IsTrace;
  }

  /** What leads on is good still, with the same first time once a tick is stored. */
  lemma LeadsInv(hash: Hash, c: Config, s: Sys, s': Sys, first: Time, n: nat, done: nat)
    returns (first': Time, n': nat, done': nat)
    requires ConfigOk(c) && LeadsTo(hash, c, s, s') && Inv(hash, StartingAt(c, first), s, n, done)
    ensures Inv(hash, StartingAt(c, first'), s', n', done')
    ensures n <= n' && done <= done' && (n > 0 ==> first' == first)
  {
    hide ConfigOk, Moves, Inv;
    var trace, moves :| IsStretch(hash, c, trace, moves) && trace[0] == s && s' == trace[|moves|];
    first', n', done' := StretchIsInv(hash, c, trace, moves, first, n, done);
  }

  /** A move that can be tried leads from a reachable state to a reachable state. */
  lemma ReachesOn(hash: Hash, c: Config, s: Sys, m: Move, s': Sys)
    requires Reachable(hash, c, s) && Moves(hash, c, s, m, s')
    ensures Reachable(hash, c, s')
  {
    hide Starts, Moves;
    var trace, moves :| IsTrace(hash, c, trace, moves) && s == trace[|moves|];
    assert IsTrace(hash, c, trace + [s'], moves + [m]);
    assert (trace + [s'])[|moves + [m]|] == s';
  }

  lemma InvParts(hash: Hash, c: Config, s: Sys, n: nat, done: nat)
    requires Inv(hash, c, s, n, done)
    ensures AllOk(s.ops) && Good(hash, Run(hash, s.ops)) && Keyed(Run(hash, s.ops).store)
    ensures Run(hash, s.ops).oracles != [] && Progress(c, Run(hash, s.ops).store, n, done) && done <= n
  {
    hide Run, Progress, Good;
    KeyedIn(hash, Run(hash, s.ops));
    DoneAtMost(c, Run(hash, s.ops).store, n, done);
  }

  // ---------------------------------------------------------------- what every run shows

  /** A tick that was yielded is added. */
  lemma EventReply(hash: Hash, c: Config, s: Sys, n: nat, done: nat)
    requires ConfigOk(c) && Inv(hash, c, s, n, done) && s.events.Yielded?
    ensures var o := Run(hash, s.ops);
            var e := PrefixEvent(TickEvent(c, s.events.time), c.prefix);
            Valid(e.id) && Step(hash, o, Add(Running(o), e)).1 == Added(Ok(()))
  {
    hide ConfigOk, Good, Progress, Run, Valid, TimeOf, TickId, Step, OutcomesOk;
    AddsTick(hash, c, Run(hash, s.ops), n, done);
  }

  /** An outcome that was yielded is attested to. */
  lemma OutcomeReply(hash: Hash, c: Config, s: Sys, n: nat, done: nat)
    requires ConfigOk(c) && Inv(hash, c, s, n, done) && s.outcomes.Stamped?
    ensures var o := Run(hash, s.ops);
            var stamped := PrefixStamped(s.outcomes.outcome, c.prefix);
            Acceptable(stamped.outcome) && Step(hash, o, Complete(Running(o), stamped)).1 == CompletedAs(Ok(()))
  {
    hide ConfigOk, Good, Progress, Run, Acceptable, TimeOf, TickId, Step, EventsOk, CreatorPanics,
         CreatedValue;
    CompletesTick(hash, c, Run(hash, s.ops), n, done, s.outcomes.outcome);
  }

  /** What follows is attested to, or the same was attested to before; unless another source did. */
  lemma RelatedReply(hash: Hash, c: Config, s: Sys, n: nat, done: nat)
    requires ConfigOk(c) && Inv(hash, c, s, n, done) && s.relating.Giving? && s.relating.left != []
    ensures var o := Run(hash, s.ops);
            var out := PrefixStamped(s.relating.left[0], c.prefix);
            Acceptable(out.outcome) && out.outcome.id in o.store &&
            (out.outcome.id !in s.touched ==>
               Step(hash, o, Complete(Running(o), out)).1 in
                 {CompletedAs(Ok(())), CompletedAs(Err(OutcomeAlreadyCompleted))})
  {
    hide ConfigOk, Good, Progress, Run, Acceptable, TimeOf, TickId, Step, EventsOk, Given, Said, OutcomeString, Asked,
         Kinded, OutcomesOk, EmittedInTime, StampedFor, OtherOk;
    var o := Run(hash, s.ops);
    var base := s.relating.base;
    var k := GivenOf(hash, c, s, n, done);
    var out := PrefixStamped(s.relating.left[0], c.prefix);
    var id := out.outcome.id;
    if out == PrefixStamped(base, c.prefix) {
      TickReply(hash, c, o, n, done, k, base);
    } else if o.store[id].attestation.None? {
      UnattestedReply(hash, o, out);
    } else if id !in s.touched {
      OtherIsNotAsked(c, Running(o), out);
      var text := o.store[id].attestation.value.outcome;
      var j: nat :| j < n && Said(c, j, id, text);
      SaidOnce(c, j, k, id, text, OutcomeString(out.outcome));
      AttestedReply(hash, o, out);
    }
  }

  lemma TickReply(hash: Hash, c: Config, o: State, n: nat, done: nat, k: nat, base: StampedOutcome)
    requires ConfigOk(c) && Good(hash, o) && o.oracles != [] && Progress(c, o.store, n, done)
    requires k <= done && k < n && StampedFor(c, base, k)
    ensures var out := PrefixStamped(base, c.prefix);
            Acceptable(out.outcome) &&
            Step(hash, o, Complete(Running(o), out)).1 in
              {CompletedAs(Ok(())), CompletedAs(Err(OutcomeAlreadyCompleted))}
  {
    hide ConfigOk, Good, Progress, Acceptable, TimeOf, TickId, Step, CreatorPanics, CreatedValue;
    if k == done {
      CompletesTick(hash, c, o, n, done, base);
    } else {
      EchoChangesNothing(hash, c, o, n, done, base, k);
    }
  }

  lemma UnattestedReply(hash: Hash, o: State, out: StampedOutcome)
    requires Good(hash, o) && o.oracles != [] && Acceptable(out.outcome)
    requires out.outcome.id in o.store && o.store[out.outcome.id].attestation.None?
    ensures Step(hash, o, Complete(Running(o), out)).1 == CompletedAs(Ok(()))
  {
    hide Acceptable, DecideComplete, MadeUnder, SchemesFor, Good, Step, Attest;
    KeyedIn(hash, o);
    var id := out.outcome.id;
    CompleteDecides(hash, o, Running(o), out);
    var a :| 0 <= a < |o.oracles| && DecideComplete(o.oracles[Running(o)], o.store, out) ==
      GoComplete(id, Attest(o.oracles[Running(o)], out, SchemesFor(o.oracles[a], id)));
    CompleteGoes(hash, o, Running(o), out, Attest(o.oracles[Running(o)], out, SchemesFor(o.oracles[a], id)));
  }

  lemma AttestedReply(hash: Hash, o: State, out: StampedOutcome)
    requires Keyed(o.store) && o.oracles != [] && Acceptable(out.outcome)
    requires IsAttested(o.store, out.outcome.id)
    requires o.store[out.outcome.id].attestation.value.outcome == OutcomeString(out.outcome)
    ensures Step(hash, o, Complete(Running(o), out)).1 == CompletedAs(Err(OutcomeAlreadyCompleted))
  {
    hide OutcomeString, Acceptable, Attest, VerifyAgainstId;
    hide Valid, InRange;
  }

  lemma OtherIsNotAsked(c: Config, who: nat, out: StampedOutcome)
    requires OtherOk(c, who, Complete(who, out))
    ensures Kinded(out.outcome.id) && !Asked(c, out.outcome.id)
  {
    hide Asked;
  }

  /** The outcomes of two ticks say something about one event only when the ticks are one, and then the same. */
  lemma SaidOnce(c: Config, j: nat, k: nat, id: EventId, a: string, b: string)
    requires ConfigOk(c) && c.completes && Kinded(id) && Said(c, j, id, a) && Said(c, k, id, b)
    ensures a == b
  {
    hide ConfigOk, StampsApart, TickId, TimeOf, OwnPath, Relate, OutcomeString, HasParties, InRange, CreatorPanics,
         CreatedValue, ParseKind, KindOf, StripEvent;
    CompletesApart(c);
    SamePath(c, PathOf(id), TimeOf(c, j), TimeOf(c, k));
  }

  /** Nothing that can be tried at any point of a run panics. */
  lemma NoMovePanics(hash: Hash, c: Config, s: Sys, m: Move)
    requires ConfigOk(c) && Reachable(hash, c, s)
    requires AllOk(s.ops) && Enabled(hash, c, s, Run(hash, s.ops), m)
    ensures Defined(c, s, Run(hash, s.ops), m)
  {
    hide *;
    var first, n, done := ReachableIsInv(hash, c, s);
    SameTicks(c, first);
    SameMoves(hash, c, first, s, Run(hash, s.ops), m);
    var first', n', done' := MoveKeeps(hash, StartingAt(c, first), s, m, n, done);
  }

  /** And nothing is rejected: the next tick is always added, and the outcome of a tick is always attested to; what
      follows from it is attested to, or was, and never for another outcome unless another source did it. */
  lemma NothingIsRejected(hash: Hash, c: Config, s: Sys, m: Move)
    requires ConfigOk(c) && Reachable(hash, c, s)
    requires AllOk(s.ops) && Enabled(hash, c, s, Run(hash, s.ops), m) && Defined(c, s, Run(hash, s.ops), m)
    ensures var call := Call(c, s, Run(hash, s.ops), m);
            call.Some? ==>
              var reply := Step(hash, Run(hash, s.ops), call.value).1;
              (m.ProcessEvent? ==> reply == Added(Ok(()))) &&
              (m.ProcessOutcome? ==> reply == CompletedAs(Ok(()))) &&
              (m.ProcessRelated? && GoesFor(call.value) !in s.touched ==>
                 reply in {CompletedAs(Ok(())), CompletedAs(Err(OutcomeAlreadyCompleted))})
  {
    hide ConfigOk, Inv, Run, Step, Reachable, IsPrefixedFirst, OtherOk, Acceptable, Valid, OpOk;
    var first, n, done := ReachableIsInv(hash, c, s);
    var c' := StartingAt(c, first);
    SameTicks(c, first);
    if m.ProcessEvent? {
      EventReply(hash, c', s, n, done);
    } else if m.ProcessOutcome? {
      OutcomeReply(hash, c', s, n, done);
    } else if m.ProcessRelated? {
      RelatedReply(hash, c', s, n, done);
    }
  }

  ghost predicate HasTime(c: Config, s: Store, t: Time)
    requires Keyed(s)
  {
    exists id | id in s && Asked(c, id) :: s[id].event.expectedOutcomeTime == Some(t)
  }

  /** Two stored events that the tickers come across are never at the same time. */
  ghost predicate TimesDiffer(c: Config, s: Store)
    requires Keyed(s)
  {
    forall a, b | a in s && b in s && Asked(c, a) && Asked(c, b) ::
      s[a].event.expectedOutcomeTime == s[b].event.expectedOutcomeTime ==> a == b
  }

  /** The times of the stored events that the tickers come across are the first `n` of a progression: no gap, nothing
      else, and none twice. */
  ghost predicate HoldsProgression(c: Config, s: Store, first: Time, n: nat)
    requires Keyed(s)
  {
    TimesDiffer(c, s) &&
    forall t :: HasTime(c, s, t) <==> exists k: nat | k < n :: t == TimeOf(StartingAt(c, first), k)
  }

  /** After any run, with retries and restarts, the stored times are the first so many of a progression. */
  lemma StoredTimesAreTheProgression(hash: Hash, c: Config, s: Sys) returns (first: Time, n: nat)
    requires ConfigOk(c) && Reachable(hash, c, s)
    ensures AllOk(s.ops) && Keyed(Run(hash, s.ops).store) && HoldsProgression(c, Run(hash, s.ops).store, first, n)
  {
    hide ConfigOk, Good, Run, OwnId, Asked, Reachable, Kinded;
    var done: nat;
    first, n, done := ReachableIsInv(hash, c, s);
    InvProgression(hash, c, s, first, n, done);
  }

  lemma InvProgression(hash: Hash, c: Config, s: Sys, first: Time, n: nat, done: nat)
    requires ConfigOk(c) && Inv(hash, StartingAt(c, first), s, n, done)
    ensures AllOk(s.ops) && Keyed(Run(hash, s.ops).store) && HoldsProgression(c, Run(hash, s.ops).store, first, n)
  {
    hide ConfigOk, Good, Run, OwnId, Asked, Kinded;
    var c' := StartingAt(c, first);
    InvParts(hash, c', s, n, done);
    SameTicks(c, first);
    var store := Run(hash, s.ops).store;
    ProgressTimes(c', store, n, done);
    SameAsked(c, first, store);
  }

  lemma SameAsked(c: Config, first: Time, s: Store)
    requires Keyed(s)
    ensures TimesDiffer(StartingAt(c, first), s) <==> TimesDiffer(c, s)
    ensures forall t :: HasTime(StartingAt(c, first), s, t) <==> HasTime(c, s, t)
  {
    hide Asked, Kinded;
    SameTicks(c, first);
  }

  lemma ProgressTimes(c: Config, s: Store, n: nat, done: nat)
    requires ConfigOk(c) && Keyed(s) && Progress(c, s, n, done)
    ensures TimesDiffer(c, s)
    ensures forall t :: HasTime(c, s, t) <==> exists k: nat | k < n :: t == TimeOf(c, k)
  {
    hide ConfigOk, OwnId, MatchesId, TimeOf, Kinded;
    forall t
      ensures HasTime(c, s, t) <==> exists k: nat | k < n :: t == TimeOf(c, k)
    {
      if HasTime(c, s, t) {
        var id :| id in s && Asked(c, id) && s[id].event.expectedOutcomeTime == Some(t);
        var k := TickOf(c, s, n, done, id);
      }
      if k: nat :| k < n && t == TimeOf(c, k) {
        assert TickStored(c, s, k, done);
        OwnIdAsked(c, t);
        assert Asked(c, OwnId(c, t));
      }
    }
    forall a, b | a in s && b in s && Asked(c, a) && Asked(c, b)
      ensures s[a].event.expectedOutcomeTime == s[b].event.expectedOutcomeTime ==> a == b
    {
      var j := TickOf(c, s, n, done, a);
      var k := TickOf(c, s, n, done, b);
    }
  }

  /** The first time is fixed once a tick is stored: whatever leads on from there, with whatever first times later
      processes work out, the stored times go on with the same progression. */
  lemma FirstTimeIsFixed(hash: Hash, c: Config, s: Sys, s': Sys) returns (first: Time, n: nat, n': nat)
    requires ConfigOk(c) && Reachable(hash, c, s) && LeadsTo(hash, c, s, s')
    requires AllOk(s.ops) && Keyed(Run(hash, s.ops).store) && !NoneAsked(c, Run(hash, s.ops).store)
    ensures AllOk(s'.ops) && Keyed(Run(hash, s'.ops).store) && 0 < n <= n'
    ensures HoldsProgression(c, Run(hash, s.ops).store, first, n)
    ensures HoldsProgression(c, Run(hash, s'.ops).store, first, n')
  {
    hide ConfigOk, Inv, Run, NoneAsked, HoldsProgression, Reachable, LeadsTo, Progress;
    var done;
    first, n, done := ReachableIsInv(hash, c, s);
    SomeTick(hash, c, s, first, n, done);
    var first', done';
    first', n', done' := LeadsInv(hash, c, s, s', first, n, done);
    InvProgression(hash, c, s, first, n, done);
    InvProgression(hash, c, s', first, n', done');
  }

  lemma SomeTick(hash: Hash, c: Config, s: Sys, first: Time, n: nat, done: nat)
    requires ConfigOk(c) && Inv(hash, StartingAt(c, first), s, n, done)
    requires !NoneAsked(c, Run(hash, s.ops).store)
    ensures n > 0
  {
    hide ConfigOk, Run, Good, Progress, Asked, Kinded;
    SameTicks(c, first);
    InvParts(hash, StartingAt(c, first), s, n, done);
    NoneAskedIff(StartingAt(c, first), Run(hash, s.ops).store, n, done);
  }

  /** Every event that is yielded while a tick is stored is yielded at most the look-ahead before its time. */
  lemma NothingTooEarly(hash: Hash, c: Config, s: Sys, i: nat)
    requires ConfigOk(c) && Reachable(hash, c, s) && i < |s.emitted|
    ensures InTime(c, s.emitted[i])
  {
    hide ConfigOk, Good, Progress, Run, Reachable, RelatingOk, AllSaid, OutcomesOk, EventsOk;
    var first, n, done := ReachableIsInv(hash, c, s);
  }

  /** Ticks are attested to in the order of their times. */
  lemma AttestedInOrder(hash: Hash, c: Config, s: Sys, a: EventId, b: EventId)
    requires ConfigOk(c) && Reachable(hash, c, s) && AllOk(s.ops)
    requires var store := Run(hash, s.ops).store;
             Keyed(store) && a in store && b in store && Asked(c, a) && Asked(c, b) &&
             NoLater(store[a].event.expectedOutcomeTime, store[b].event.expectedOutcomeTime) &&
             store[b].attestation.Some?
    ensures Run(hash, s.ops).store[a].attestation.Some?
  {
    hide ConfigOk, Good, Run, OwnId, Asked, TimeOf, Reachable, Kinded, Progress;
    var first, n, done := ReachableIsInv(hash, c, s);
    var c' := StartingAt(c, first);
    InvParts(hash, c', s, n, done);
    SameTicks(c, first);
    var store := Run(hash, s.ops).store;
    var j := TickOf(c', store, n, done, a);
    var k := TickOf(c', store, n, done, b);
    LaterTick(c', j, k);
  }

  /** What the store says of a tick at `t`: it has its time, and if it is attested to, then for the outcome that the
      creator makes up for it, and dated no earlier when `t` is a whole second. */
  ghost predicate TickIsRight(c: Config, t: Time, r: AnnouncedEvent) {
    && r.event == Event(OwnId(c, t), Some(t))
    && (r.attestation.Some? ==>
          NamesCreated(c, t, r.attestation.value.outcome) &&
          (t % SECOND == 0 ==> r.attestation.value.time >= t))
  }

  /** At any point of any run, a stored event that a ticker comes across is a tick, dated and attested to rightly. */
  lemma StoredTicksAreRight(hash: Hash, c: Config, s: Sys, id: EventId) returns (t: Time)
    requires ConfigOk(c) && Reachable(hash, c, s) && AllOk(s.ops)
    requires var store := Run(hash, s.ops).store; Keyed(store) && id in store && Asked(c, id)
    ensures TickIsRight(c, t, Run(hash, s.ops).store[id])
  {
    hide ConfigOk, Good, Run, OwnId, Asked, Reachable, Kinded, Progress, TimeOf, NamesCreated, Truncate, Inv;
    var first, n, done := ReachableIsInv(hash, c, s);
    var c' := StartingAt(c, first);
    InvParts(hash, c', s, n, done);
    SameTicks(c, first);
    var k := TickOf(c', Run(hash, s.ops).store, n, done, id);
    t := TimeOf(c', k);
    SameNames(c, first, t);
    TruncateKeepsOrderIff(t);
  }

  lemma SameNames(c: Config, first: Time, t: Time)
    ensures OwnId(StartingAt(c, first), t) == OwnId(c, t)
    ensures forall text :: NamesCreated(StartingAt(c, first), t, text) <==> NamesCreated(c, t, text)
  {
    hide OwnId, TickId, OutcomeString, CreatedValue, HasParties, InRange, CreatorPanics;
    SameTicks(c, first);
  }

  /** All of it together: at any point of any run, a stored event that a ticker comes across is a tick with its time,
      and if it is attested to, the attestation is dated no earlier, names the outcome made up for it, and verifies
      against what was announced under the published keys. */
  lemma TickerIsFaithful(hash: Hash, c: Config, s: Sys, id: EventId) returns (t: Time)
    requires ConfigOk(c) && Reachable(hash, c, s) && AllOk(s.ops) && KeysTellApart(Run(hash, s.ops))
    requires var store := Run(hash, s.ops).store; Keyed(store) && id in store && Asked(c, id)
    ensures TickIsRight(c, t, Run(hash, s.ops).store[id])
    ensures Run(hash, s.ops).store[id].attestation.Some? ==> Verifies(Run(hash, s.ops), id)
  {
    hide *;
    t := StoredTicksAreRight(hash, c, s, id);
    if Run(hash, s.ops).store[id].attestation.Some? {
      var first, n, done := ReachableIsInv(hash, c, s);
      InvParts(hash, StartingAt(c, first), s, n, done);
      OneKeyVerifies(hash, Run(hash, s.ops), id);
    }
  }

  // ---------------------------------------------------------------- the tickers never get stuck

  /** The same ticks, from a state that leads on without another source. */
  ghost predicate GoesOn(hash: Hash, c: Config, s: Sys, s': Sys, n: nat, done: nat) {
    LeadsTo(hash, c, s, s') && Inv(hash, c, s', n, done) && s'.touched == s.touched
  }

  lemma GoesFurther(hash: Hash, c: Config, s: Sys, s': Sys, s'': Sys, n: nat, done: nat, n': nat, done': nat)
    requires GoesOn(hash, c, s, s', n, done) && GoesOn(hash, c, s', s'', n', done')
    ensures GoesOn(hash, c, s, s'', n', done')
  {
    hide LeadsTo, Inv;
    LeadsFurther(hash, c, s, s', s'');
  }

  lemma OneMove(hash: Hash, c: Config, s: Sys, n: nat, done: nat, m: Move, s': Sys)
    requires Inv(hash, c, s, n, done) && Enabled(hash, c, s, Run(hash, s.ops), m) && Defined(c, s, Run(hash, s.ops), m)
    requires s' == After(hash, c, s, Run(hash, s.ops), m)
    ensures Moves(hash, c, s, m, s') && LeadsTo(hash, c, s, s')
  {
    hide Enabled, Defined, After, Run, Good, Progress, LeadsTo, AllSaid, RelatingOk;
    assert Moves(hash, c, s, m, s');
    LeadsNowhere(hash, c, s);
    LeadsOneOn(hash, c, s, s, m, s');
  }

  lemma QuietStep(hash: Hash, c: Config, s: Sys, m: Move, n: nat, done: nat) returns (s': Sys)
    requires ConfigOk(c) && Inv(hash, c, s, n, done) && Quiet(m)
    requires Enabled(hash, c, s, Run(hash, s.ops), m)
    ensures GoesOn(hash, c, s, s', n, done)
    ensures Defined(c, s, Run(hash, s.ops), m) && s' == After(hash, c, s, Run(hash, s.ops), m)
    ensures Moves(hash, c, s, m, s')
  {
    hide ConfigOk, Inv, Run, Enabled, Defined, LeadsTo, Moves;
    KeyedRun(hash, c, s, n, done);
    QuietKeeps(hash, c, s, m, n, done);
    s' := After(hash, c, s, Run(hash, s.ops), m);
    OneMove(hash, c, s, n, done, m, s');
  }

  lemma KeyedRun(hash: Hash, c: Config, s: Sys, n: nat, done: nat)
    requires Inv(hash, c, s, n, done)
    ensures AllOk(s.ops) && Keyed(Run(hash, s.ops).store)
  {
    hide Run;
    KeyedIn(hash, Run(hash, s.ops));
  }

  lemma AnswerExists(s: Store, prefix: Path, q: EventQuery) returns (found: Option<Event>)
    requires Keyed(s)
    ensures IsPrefixedFirst(s, prefix, q, found)
  {
    var first := FirstExists(s, PrefixQuery(prefix, q), s.Keys);
    assert IsFirst(s, PrefixQuery(prefix, q), first);
    found := if first.None? then None else Some(StripEventId(prefix, first.value));
  }

  function EventsRank(pc: EventPc): nat {
    match pc
    case AskLatest => 3
    case Delayed(_) => 2
    case Ready(_) => 1
    case Yielded(_) => 0
  }

  /** Wherever the event stream is, it can add the next tick. */
  lemma {:induction false} EventsGoOn(hash: Hash, c: Config, s: Sys, n: nat, done: nat) returns (s': Sys)
    requires ConfigOk(c) && Inv(hash, c, s, n, done)
    ensures GoesOn(hash, c, s, s', n + 1, done)
    decreases EventsRank(s.events), 0
  {
    hide ConfigOk, Inv, Run, IsPrefixedFirst, Keyed, GoesOn;
    KeyedRun(hash, c, s, n, done);
    var o := Run(hash, s.ops);
    match s.events {
      case AskLatest =>
        var found := AnswerExists(o.store, c.prefix, LatestQuery(c));
        var s1 := QuietStep(hash, c, s, QueryLatest(found), n, done);
        s' := EventsGoFrom(hash, c, s, s1, n, done);
      case Delayed(next) =>
        var time := if s.clock >= next - c.lookAhead then s.clock else next - c.lookAhead;
        var s1 := QuietStep(hash, c, s, Advance(time), n, done);
        GoneInv(hash, c, s, s1, n, done);
        var s2 := QuietStep(hash, c, s1, Wake, n, done);
        GoesFurther(hash, c, s, s1, s2, n, done, n, done);
        s' := EventsGoFrom(hash, c, s, s2, n, done);
      case Ready(_) =>
        var s1 := QuietStep(hash, c, s, YieldEvent, n, done);
        s' := EventsGoFrom(hash, c, s, s1, n, done);
      case Yielded(_) =>
        EventMove(hash, c, s, ProcessEvent(NoFault), n, done);
        s' := After(hash, c, s, o, ProcessEvent(NoFault));
        OneMove(hash, c, s, n, done, ProcessEvent(NoFault), s');
        assert GoesOn(hash, c, s, s', n + 1, done) by {
          MovedOn(hash, c, s, s', n + 1, done);
        }
    }
  }

  lemma {:induction false} EventsGoFrom(hash: Hash, c: Config, s: Sys, s1: Sys, n: nat, done: nat) returns (s': Sys)
    requires ConfigOk(c) && GoesOn(hash, c, s, s1, n, done)
    ensures GoesOn(hash, c, s, s', n + 1, done)
    decreases EventsRank(s1.events), 1
  {
    hide ConfigOk, Inv, GoesOn;
    GoneInv(hash, c, s, s1, n, done);
    s' := EventsGoOn(hash, c, s1, n, done);
    GoesFurther(hash, c, s, s1, s', n, done, n + 1, done);
  }

  lemma GoneInv(hash: Hash, c: Config, s: Sys, s': Sys, n: nat, done: nat)
    requires GoesOn(hash, c, s, s', n, done)
    ensures Inv(hash, c, s', n, done) && LeadsTo(hash, c, s, s') && s'.touched == s.touched
  {
    hide Inv, LeadsTo;
  }

  lemma MovedOn(hash: Hash, c: Config, s: Sys, s': Sys, n: nat, done: nat)
    requires LeadsTo(hash, c, s, s') && Inv(hash, c, s', n, done) && s'.touched == s.touched
    ensures GoesOn(hash, c, s, s', n, done)
  {
    hide Inv, LeadsTo;
  }

  /** What is left to give can be got over with, in the worst case without giving it. */
  lemma {:induction false} RelatingGoesOn(hash: Hash, c: Config, s: Sys, n: nat, done: nat) returns (s': Sys)
    requires ConfigOk(c) && Inv(hash, c, s, n, done)
    ensures GoesOn(hash, c, s, s', n, done) && Finished(s'.relating) && s'.outcomes == s.outcomes
    decreases RelatingRank(s.relating)
  {
    hide ConfigOk, Inv, Run, Keyed, GoesOn, StartingAt;
    KeyedRun(hash, c, s, n, done);
    if Finished(s.relating) {
      s' := s;
      LeadsNowhere(hash, c, s);
      MovedOn(hash, c, s, s, n, done);
    } else {
      var m := if s.relating.Held? then RelatedFails else ProcessRelated(WriteFails);
      if s.relating.Held? {
        s' := QuietStep(hash, c, s, m, n, done);
      } else {
        var done' := RelatedMove(hash, c, s, m, n, done);
        s' := After(hash, c, s, Run(hash, s.ops), m);
        OneMove(hash, c, s, n, done, m, s');
        MovedOn(hash, c, s, s', n, done);
      }
      GoneInv(hash, c, s, s', n, done);
      var s1 := s';
      s' := RelatingGoesOn(hash, c, s1, n, done);
      GoesFurther(hash, c, s, s1, s', n, done, n, done);
    }
  }

  function RelatingRank(r: Relating): nat {
    match r
    case Idle => 0
    case Held(_) => 1
    case Giving(_, left) => |left|
  }

  function OutcomesRank(pc: OutcomePc): nat {
    match pc
    case AskEarliest => 2
    case Due(_, _) => 1
    case Stamped(_) => 0
  }

  /** Wherever the outcome stream is, it can attest to the next tick, and what follows from that can be looked at. */
  lemma {:induction false} OutcomesGoOn(hash: Hash, c: Config, s: Sys, n: nat, done: nat) returns (s': Sys)
    requires ConfigOk(c) && Inv(hash, c, s, n, done) && done < n
    ensures GoesOn(hash, c, s, s', n, done + 1)
    ensures c.completes ==> s'.relating.Held? && s'.relating.base.outcome.id == TickId(c, TimeOf(c, done))
    decreases OutcomesRank(s.outcomes), 0
  {
    hide ConfigOk, Inv, Run, IsPrefixedFirst, Keyed, CreatorPanics, Acceptable, GoesOn, StampedFor, TickId, TimeOf;
    KeyedRun(hash, c, s, n, done);
    match s.outcomes {
      case AskEarliest =>
        var s1 := RelatingGoesOn(hash, c, s, n, done);
        GoneInv(hash, c, s, s1, n, done);
        KeyedRun(hash, c, s1, n, done);
        var o := Run(hash, s1.ops);
        var found := AnswerExists(o.store, c.prefix, EarliestQuery(c));
        ProgressOf(hash, c, s1, n, done);
        EarliestIsNext(c, o.store, n, done, found);
        var s2 := QuietStep(hash, c, s1, QueryEarliest(found), n, done);
        GoesFurther(hash, c, s, s1, s2, n, done, n, done);
        s' := OutcomesGoFrom(hash, c, s, s2, n, done);
      case Due(id, at) =>
        var time := if s.clock >= at then s.clock else at;
        var s1 := QuietStep(hash, c, s, Advance(time), n, done);
        GoneInv(hash, c, s, s1, n, done);
        KeyedRun(hash, c, s1, n, done);
        var s2 := QuietStep(hash, c, s1, YieldOutcome, n, done);
        GoesFurther(hash, c, s, s1, s2, n, done, n, done);
        s' := OutcomesGoFrom(hash, c, s, s2, n, done);
      case Stamped(stamped) =>
        StampedOf(hash, c, s, n, done);
        StampedIsTick(c, stamped, done);
        OutcomeMove(hash, c, s, ProcessOutcome(NoFault), n, done);
        s' := After(hash, c, s, Run(hash, s.ops), ProcessOutcome(NoFault));
        OneMove(hash, c, s, n, done, ProcessOutcome(NoFault), s');
        MovedOn(hash, c, s, s', n, done + 1);
    }
  }

  lemma {:induction false} OutcomesGoFrom(hash: Hash, c: Config, s: Sys, s1: Sys, n: nat, done: nat) returns (s': Sys)
    requires ConfigOk(c) && GoesOn(hash, c, s, s1, n, done) && done < n
    ensures GoesOn(hash, c, s, s', n, done + 1)
    ensures c.completes ==> s'.relating.Held? && s'.relating.base.outcome.id == TickId(c, TimeOf(c, done))
    decreases OutcomesRank(s1.outcomes), 1
  {
    hide ConfigOk, Inv, GoesOn, TickId, TimeOf;
    GoneInv(hash, c, s, s1, n, done);
    s' := OutcomesGoOn(hash, c, s1, n, done);
    GoesFurther(hash, c, s, s1, s', n, done, n, done + 1);
  }

  lemma ProgressOf(hash: Hash, c: Config, s: Sys, n: nat, done: nat)
    requires Inv(hash, c, s, n, done)
    ensures AllOk(s.ops) && Keyed(Run(hash, s.ops).store) && Progress(c, Run(hash, s.ops).store, n, done)
  {
    hide Run, Progress;
    KeyedIn(hash, Run(hash, s.ops));
  }

  /** The tickers can go on until the first `k` ticks are stored and attested to, and no other. */
  lemma {:induction false} TickersGoOn(hash: Hash, c: Config, s: Sys, n: nat, done: nat, k: nat)
    returns (s': Sys, n': nat, done': nat)
    requires ConfigOk(c) && Inv(hash, c, s, n, done)
    ensures GoesOn(hash, c, s, s', n', done') && done' == (if done < k then k else done) && n <= n'
    decreases k
  {
    hide ConfigOk, Inv, GoesOn;
    if k <= done {
      s', n', done' := s, n, done;
      LeadsNowhere(hash, c, s);
      MovedOn(hash, c, s, s, n, done);
    } else {
      var s1, n1, done1 := TickersGoOn(hash, c, s, n, done, k - 1);
      GoneInv(hash, c, s, s1, n1, done1);
      s', n' := OneTickMore(hash, c, s1, n1, done1);
      done' := done1 + 1;
      GoesFurther(hash, c, s, s1, s', n1, done1, n', done');
    }
  }

  lemma OneTickMore(hash: Hash, c: Config, s: Sys, n: nat, done: nat) returns (s': Sys, n': nat)
    requires ConfigOk(c) && Inv(hash, c, s, n, done)
    ensures GoesOn(hash, c, s, s', n', done + 1) && n <= n'
    ensures c.completes ==> s'.relating.Held? && s'.relating.base.outcome.id == TickId(c, TimeOf(c, done))
  {
    hide ConfigOk, Inv, Run, Progress, Good, Keyed, GoesOn, TickId, TimeOf;
    InvParts(hash, c, s, n, done);
    var s1 := s;
    n' := n;
    LeadsNowhere(hash, c, s);
    MovedOn(hash, c, s, s, n, done);
    if done == n {
      s1 := EventsGoOn(hash, c, s, n, done);
      n' := n + 1;
    }
    s' := OutcomesGoFrom(hash, c, s, s1, n', done);
  }

  /** What leads on does not depend on when the first tick is. */
  lemma LeadsAnyStart(hash: Hash, c: Config, first: Time, s: Sys, s': Sys)
    ensures LeadsTo(hash, StartingAt(c, first), s, s') <==> LeadsTo(hash, c, s, s')
  {
    hide Moves;
    forall trace, moves
      ensures IsStretch(hash, StartingAt(c, first), trace, moves) <==> IsStretch(hash, c, trace, moves)
    {
      SameStretch(hash, c, first, trace, moves);
    }
  }

  lemma SameStretch(hash: Hash, c: Config, first: Time, trace: seq<Sys>, moves: seq<Move>)
    ensures IsStretch(hash, StartingAt(c, first), trace, moves) <==> IsStretch(hash, c, trace, moves)
  {
    hide Moves;
    if |trace| == |moves| + 1 {
      forall i | 0 <= i < |moves|
        ensures Moves(hash, StartingAt(c, first), trace[i], moves[i], trace[i + 1]) <==>
                Moves(hash, c, trace[i], moves[i], trace[i + 1])
      {
        SameMove(hash, c, first, trace[i], moves[i], trace[i + 1]);
      }
    }
  }

  lemma SameMove(hash: Hash, c: Config, first: Time, s: Sys, m: Move, s': Sys)
    ensures Moves(hash, StartingAt(c, first), s, m, s') <==> Moves(hash, c, s, m, s')
  {
    hide Enabled, Defined, After, Call, Run;
    if AllOk(s.ops) {
      SameMoves(hash, c, first, s, Run(hash, s.ops), m);
    }
  }

  /** So no failure, restart or delay leaves the tickers stuck: from every reachable state some moves lead
      to one whose store has any given tick of the progression, attested to. */
  lemma NeverStuck(hash: Hash, c: Config, s: Sys, k: nat) returns (s': Sys, first: Time)
    requires ConfigOk(c) && Reachable(hash, c, s)
    ensures LeadsTo(hash, c, s, s') && Reachable(hash, c, s') && AllOk(s'.ops)
    ensures var store := Run(hash, s'.ops).store;
            var t := TimeOf(StartingAt(c, first), k);
            OwnId(c, t) in store && TickIsRight(c, t, store[OwnId(c, t)]) && store[OwnId(c, t)].attestation.Some?
  {
    hide ConfigOk, Reachable, Good, OwnId, TimeOf, Run, NamesCreated, Truncate, LeadsTo, RelatingOk, AllSaid;
    var n, done;
    first, n, done := ReachableIsInv(hash, c, s);
    var c' := StartingAt(c, first);
    SameTicks(c, first);
    s', n, done := TickersGoOn(hash, c', s, n, done, k + 1);
    GoneInv(hash, c', s, s', n, done);
    LeadsAnyStart(hash, c, first, s, s');
    LeadsIsReachable(hash, c, s, s');
    InvParts(hash, c', s', n, done);
    var t := TimeOf(c', k);
    SameNames(c, first, t);
    assert TickStored(c', Run(hash, s'.ops).store, k, done);
    TruncateKeepsOrderIff(t);
  }

}
