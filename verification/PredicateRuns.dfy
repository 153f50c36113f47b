/** Predicates on ticks, and other events that their outcomes speak about, in every run: what they are attested to for,
    and when they stay without an attestation. */
module PredicateRuns {
  import opened Wrappers
  import opened Decimal
  import opened Strings
  import opened Paths
  import opened EventKinds
  import opened EventIds
  import opened Outcomes
  import opened IdParser
  import opened Announcements
  import opened Attestations
  import opened KeyChains
  import opened Stores
  import opened Oracles
  import opened OracleRuns
  import opened Related
  import opened Tickers
  import opened Ticks
  import opened RelatedTicks
  import opened TickerRuns

  // ---------------------------------------------------------------- what they are attested to for

  /** What is true of outcome `v` of an event: it is the one named, or above the bound. */
  predicate IsTrueOf(kind: PredicateKind, v: u64, value: u64) {
    match kind
    case EqKind => v == value
    case BoundOf(Gt) => v > value
  }

  /** The predicate can be made for a tick at `t`, and reads back. */
  predicate IsPredicable(c: Config, t: Time, kind: PredicateKind, value: u64) {
    var tick := TickId(c, t);
    HasParties(tick) && !KindOf(tick).Predicated? && (kind.EqKind? ==> InRange(tick, value)) &&
    Predicable(tick, kind, value)
  }

  /** The id that it is stored under. */
  function StoredPredicate(c: Config, t: Time, kind: PredicateKind, value: u64): EventId
    requires IsPredicable(c, t, kind, value)
  {
    PrefixId(PredicateId(TickId(c, t), kind, value), c.prefix)
  }

  /** It shows as a predicate on the path of its tick, and its text is not that of the root. */
  lemma PredicateShows(c: Config, t: Time, kind: PredicateKind, value: u64)
    requires ConfigOk(c) && IsPredicable(c, t, kind, value)
    ensures var id := StoredPredicate(c, t, kind, value);
            Kinded(id) && Valid(id) && PathOf(id) == OwnPath(c, t) && StripId(id, c.prefix).text != ROOT &&
            StripId(id, c.prefix) == PredicateId(TickId(c, t), kind, value) &&
            KindOf(id).Predicated? && EqFuzzy(KindOf(id).inner, c.kind) && Usable(TickId(c, t)) &&
            KindOf(TickId(c, t)) == c.kind
  {
    hide ConfigOk, ParseKind, StripEvent, TickId, Predicable, Valid, InRange, Teams, PredicateId;
    TickIsValid(c, t);
    ValidIsUsable(TickId(c, t));
    PredicateOfTick(c, t, kind, value);
    PredicateIdAnswersIff(TickId(c, t), kind, value);
    var pred := PredicateId(TickId(c, t), kind, value);
    PrefixIdKeeps(pred, c.prefix);
    OwnIdShows(c, t);
    EventTextIsNotRoot(pred.text);
    StripUndoesPrefixIff(pred.text, c.prefix);
  }

  /** What the outcome of an event says about a predicate on it is whether it is true. */
  lemma SaysWhatIsTrue(tick: EventId, kind: PredicateKind, v: u64, value: u64, text: string)
    requires Usable(tick) && !KindOf(tick).Predicated? && InRange(tick, v)
    requires (kind.EqKind? ==> InRange(tick, value)) && Predicable(tick, kind, value)
    requires Says(tick, v, PredicateId(tick, kind, value), text)
    ensures text == if IsTrueOf(kind, v, value) then "true" else "false"
  {
    hide ParseKind, StripEvent, Teams, Relate, PredicateId;
    if kind.EqKind? {
      EqRelates(tick, tick, v, value);
    } else {
      assert kind == BoundOf(Gt);
      BoundRelates(tick, tick, v, value);
    }
    PredicateIdAnswersIff(tick, kind, value);
  }

  /** The path of a predicate is that of its tick, so what is said about it is said by the outcome of its tick. */
  lemma SaidByItsTick(c: Config, k: nat, t: Time, kind: PredicateKind, value: u64, text: string)
    requires ConfigOk(c) && c.completes && IsPredicable(c, t, kind, value)
    requires Kinded(StoredPredicate(c, t, kind, value)) && Said(c, k, StoredPredicate(c, t, kind, value), text)
    ensures !CreatorPanics(c.creator, TickId(c, t)) && InRange(TickId(c, t), CreatedValue(c.creator, TickId(c, t)))
    ensures text == if IsTrueOf(kind, CreatedValue(c.creator, TickId(c, t)), value) then "true" else "false"
  {
    hide ConfigOk, ParseKind, StripEvent, Teams, TickId, TimeOf, Relate, CreatorPanics, CreatedValue, InRange,
         Predicable, OwnPath, StampsApart, PredicateId, OutcomeString;
    PredicateShows(c, t, kind, value);
    CompletesApart(c);
    SamePath(c, OwnPath(c, t), TimeOf(c, k), t);
    SaysWhatIsTrue(TickId(c, t), kind, CreatedValue(c.creator, TickId(c, t)), value, text);
  }

  /** In every run, with whatever failures, restarts and other sources, a predicate on a tick that is attested to, and
      that no other source has tried to attest to, is attested to as true exactly when it is true of the outcome that
      is made up for its tick. */
  lemma PredicateIsRight(hash: Hash, c: Config, s: Sys, t: Time, kind: PredicateKind, value: u64)
    requires ConfigOk(c) && Reachable(hash, c, s) && AllOk(s.ops)
    requires c.outcomesKind.Some? && IsPredicable(c, t, kind, value)
    requires var id := StoredPredicate(c, t, kind, value); IsAttested(Run(hash, s.ops).store, id) && id !in s.touched
    ensures !CreatorPanics(c.creator, TickId(c, t))
    ensures Run(hash, s.ops).store[StoredPredicate(c, t, kind, value)].attestation.value.outcome ==
            if IsTrueOf(kind, CreatedValue(c.creator, TickId(c, t)), value) then "true" else "false"
  {
    hide ConfigOk, Run, Reachable, Good, Progress, EventsOk, OutcomesOk, RelatingOk, EmittedInTime, IsPredicable,
         StoredPredicate, Kinded, KindOf, Asked, CreatorPanics, CreatedValue, TickId, Said;
    var first, n, done := ReachableIsInv(hash, c, s);
    var c' := StartingAt(c, first);
    SameTicks(c, first);
    SamePredicates(c, first, t, kind, value);
    var id := StoredPredicate(c, t, kind, value);
    PredicateShows(c', t, kind, value);
    PredicateIsNotAsked(c', t, kind, value);
    InvParts(hash, c', s, n, done);
    var text := Run(hash, s.ops).store[id].attestation.value.outcome;
    var k: nat :| k < n && Said(c', k, id, text);
    SaidByItsTick(c', k, t, kind, value, text);
  }

  lemma SamePredicates(c: Config, first: Time, t: Time, kind: PredicateKind, value: u64)
    ensures var c' := StartingAt(c, first);
            c'.creator == c.creator && c'.completes == c.completes && TickId(c', t) == TickId(c, t) &&
            (IsPredicable(c', t, kind, value) <==> IsPredicable(c, t, kind, value)) &&
            (IsPredicable(c, t, kind, value) ==>
               StoredPredicate(c', t, kind, value) == StoredPredicate(c, t, kind, value))
  {
    hide HasParties, KindOf, InRange, Predicable, PredicateId, FromPathAndKind, PrefixId;
  }

  lemma PredicateIsNotAsked(c: Config, t: Time, kind: PredicateKind, value: u64)
    requires ConfigOk(c) && c.outcomesKind.Some? && IsPredicable(c, t, kind, value)
    ensures Kinded(StoredPredicate(c, t, kind, value)) && !Asked(c, StoredPredicate(c, t, kind, value))
  {
    hide ConfigOk, IsPredicable, StoredPredicate, Kinded, Asked, TickId, PathOf, HasParties;
    KindIsNotPredicated(c, t, kind, value);
    PredicateShows(c, t, kind, value);
    OtherKindIsNotAsked(c, StoredPredicate(c, t, kind, value));
  }

  lemma KindIsNotPredicated(c: Config, t: Time, kind: PredicateKind, value: u64)
    requires ConfigOk(c) && IsPredicable(c, t, kind, value)
    ensures !c.kind.Predicated?
  {
    hide ConfigOk, ParseKind, StripEvent, TickId, Predicable, InRange, Teams;
    TickIsValid(c, t);
  }

  // ---------------------------------------------------------------- when they stay without an attestation

  /** What the outcome of the tick at `t` says about the event can still come: the tick is not attested to, or its
      outcome is about to be looked at, or what it says about the event is about to be given. */
  ghost predicate StillToCome(c: Config, s: Sys, store: Store, t: Time, id: EventId) {
    || !IsAttested(store, OwnId(c, t))
    || (s.relating.Held? && s.relating.base.outcome.id == TickId(c, t))
    || (s.relating.Giving? && exists x | x in s.relating.left :: PrefixId(x.outcome.id, c.prefix) == id)
  }

  /** An event that is no tick and not attested to, and that the outcome of a stored tick at `t` speaks about. */
  ghost predicate Waits(c: Config, store: Store, t: Time, id: EventId) {
    Keyed(store) && OwnId(c, t) in store && Kinded(TickId(c, t)) && NOutcomes(c.kind) >= 3 &&
    SpeaksOfSibling(store, c.prefix, TickId(c, t), id) && !Asked(c, id)
  }

  ghost predicate AttestedAlone(hash: Hash, s: Sys, id: EventId) {
    AllOk(s.ops) && id !in s.touched && IsAttested(Run(hash, s.ops).store, id)
  }

  /** From any state of a run, an event that the outcome of a stored tick speaks about, a predicate on it say, can come
      to be attested to without another source exactly when what the outcome says about it can still come. So it stays
      without an attestation from where its tick is attested to and the looking failed, or came before the event was
      stored, or its own completion failed, or the process was started anew in between: nothing is tried again. */
  lemma AttestedLaterIff(hash: Hash, c: Config, s: Sys, t: Time, id: EventId)
    requires ConfigOk(c) && c.completes && Reachable(hash, c, s) && AllOk(s.ops) && id !in s.touched
    requires Waits(c, Run(hash, s.ops).store, t, id) && !IsAttested(Run(hash, s.ops).store, id)
    ensures StillToCome(c, s, Run(hash, s.ops).store, t, id) <==>
            exists s' :: LeadsTo(hash, c, s, s') && AttestedAlone(hash, s', id)
  {
    hide ConfigOk, Run, Reachable, LeadsTo, Waits, StillToCome, AttestedAlone, Inv;
    var first, n, done := ReachableIsInv(hash, c, s);
    if StillToCome(c, s, Run(hash, s.ops).store, t, id) {
      var s' := CanBeAttested(hash, c, s, t, id, first, n, done);
    }
    forall s' | LeadsTo(hash, c, s, s') && AttestedAlone(hash, s', id)
      ensures StillToCome(c, s, Run(hash, s.ops).store, t, id)
    {
      if !StillToCome(c, s, Run(hash, s.ops).store, t, id) {
        StaysLost(hash, c, s, s', t, id, first, n, done);
      }
    }
  }

  // ---------------------------------------------------------------- what is lost stays lost

  ghost predicate Lost(hash: Hash, c: Config, s: Sys, t: Time, id: EventId) {
    AllOk(s.ops) &&
    var store := Run(hash, s.ops).store;
    Waits(c, store, t, id) && !IsAttested(store, id) && !StillToCome(c, s, store, t, id)
  }

  lemma StaysLost(hash: Hash, c: Config, s: Sys, s': Sys, t: Time, id: EventId, first: Time, n: nat, done: nat)
    requires ConfigOk(c) && c.completes && Inv(hash, StartingAt(c, first), s, n, done) && LeadsTo(hash, c, s, s')
    requires Lost(hash, c, s, t, id)
    ensures !AttestedAlone(hash, s', id)
  {
    hide ConfigOk, Inv, Moves, Lost, Run;
    var trace: seq<Sys>, moves: seq<Move> :|
      IsStretch(hash, c, trace, moves) && trace[0] == s && s' == trace[|moves|];
    var first', n', done' := StretchLost(hash, c, trace, moves, t, id, first, n, done);
    if id !in s'.touched {
      LostIsUnattested(hash, c, s', t, id);
    }
  }

  lemma LostIsUnattested(hash: Hash, c: Config, s: Sys, t: Time, id: EventId)
    requires Lost(hash, c, s, t, id)
    ensures AllOk(s.ops) && !IsAttested(Run(hash, s.ops).store, id)
  {
    hide Waits, StillToCome, Run;
  }

  lemma {:induction false} StretchLost(
    hash: Hash, c: Config, trace: seq<Sys>, moves: seq<Move>, t: Time, id: EventId, first: Time, n: nat, done: nat)
    returns (first': Time, n': nat, done': nat)
    requires ConfigOk(c) && c.completes && IsStretch(hash, c, trace, moves)
    requires Inv(hash, StartingAt(c, first), trace[0], n, done) && Lost(hash, c, trace[0], t, id)
    ensures Inv(hash, StartingAt(c, first'), trace[|moves|], n', done')
    ensures id !in trace[|moves|].touched ==> Lost(hash, c, trace[|moves|], t, id)
    decreases |moves|
  {
    hide ConfigOk, Moves, Inv, Lost;
    first', n', done' := first, n, done;
    if moves != [] {
      var last := |moves| - 1;
      assert Moves(hash, c, trace[last], moves[last], trace[last + 1]);
      first', n', done' := StretchLost(hash, c, trace[..|moves|], moves[..last], t, id, first, n, done);
      MoveTouches(hash, c, trace[last], moves[last], trace[last + 1]);
      if id !in trace[last + 1].touched {
        MoveLost(hash, c, trace[last], moves[last], trace[last + 1], t, id, first', n', done');
      }
      first', n', done' := InvStep(hash, c, trace[last], moves[last], trace[last + 1], first', n', done');
    }
  }

  lemma MoveTouches(hash: Hash, c: Config, s: Sys, m: Move, s': Sys)
    requires Moves(hash, c, s, m, s')
    ensures s.touched <= s'.touched
    ensures m.Other? && m.op.Complete? ==> m.op.stamped.outcome.id in s'.touched
  {
    hide Enabled, Defined, Call, Run, AfterLatest, AfterEarliest, Created;
  }

  /** A call attests to nothing but the event that it completes. */
  lemma NewAttestation(hash: Hash, o: State, op: Op, id: EventId)
    requires Keyed(o.store) && OpOk(op) && !op.Publish?
    requires IsAttested(Step(hash, o, op).0.store, id) && !IsAttested(o.store, id)
    ensures op.Complete? && op.stamped.outcome.id == id
  {
    hide Valid, InRange, Kinded, Attest, Announce, VerifyAgainstId, OutcomeString, Acceptable;
    if op.Open? {
    } else if GoesFor(op) != id {
      CallTouches(hash, o, op, id);
    } else if op.Add? && op.who < |o.oracles| {
      AddAnnounces(o.oracles[op.who], o.store, op.event);
    }
  }

  /** What a move makes of the store. */
  lemma MoveStore(hash: Hash, c: Config, s: Sys, m: Move, s': Sys, first: Time, n: nat, done: nat)
    requires ConfigOk(c) && Inv(hash, StartingAt(c, first), s, n, done) && Moves(hash, c, s, m, s')
    ensures AllOk(s'.ops) && Keyed(Run(hash, s.ops).store) && Keyed(Run(hash, s'.ops).store)
    ensures Extends(Run(hash, s'.ops).store, Run(hash, s.ops).store)
    ensures forall id | IsAttested(Run(hash, s'.ops).store, id) && !IsAttested(Run(hash, s.ops).store, id) ::
              Defined(c, s, Run(hash, s.ops), m) &&
              var call := Call(c, s, Run(hash, s.ops), m);
              call.Some? && call.value.Complete? && call.value.stamped.outcome.id == id
  {
    hide ConfigOk, Inv, Enabled, Run, Step, OpOk, Extends, Defined, After, IsAttested, Keyed;
    var o := Run(hash, s.ops);
    InvParts(hash, StartingAt(c, first), s, n, done);
    var call := Call(c, s, o, m);
    OpsAfter(hash, c, s, m, s');
    if call.None? {
      SameExtends(o.store);
    } else {
      NotPublished(hash, c, s, o, m);
      RunAppend(hash, s.ops, call.value);
      StepKeeps(hash, o, call.value);
      KeyedIn(hash, Step(hash, o, call.value).0);
      forall id | IsAttested(Step(hash, o, call.value).0.store, id) && !IsAttested(o.store, id)
        ensures call.value.Complete? && call.value.stamped.outcome.id == id
      {
        NewAttestation(hash, o, call.value, id);
      }
    }
  }

  lemma SameExtends(s: Store)
    ensures Extends(s, s)
  {
  }

  lemma OpsAfter(hash: Hash, c: Config, s: Sys, m: Move, s': Sys)
    requires Moves(hash, c, s, m, s')
    ensures Defined(c, s, Run(hash, s.ops), m)
    ensures var call := Call(c, s, Run(hash, s.ops), m);
            s'.ops == if call.Some? then s.ops + [call.value] else s.ops
  {
    hide Enabled, Defined, Call, Run, AfterLatest, AfterEarliest, Created;
  }

  lemma NotPublished(hash: Hash, c: Config, s: Sys, o: State, m: Move)
    requires Enabled(hash, c, s, o, m) && Defined(c, s, o, m) && Call(c, s, o, m).Some?
    ensures !Call(c, s, o, m).value.Publish?
  {
    hide Acceptable, Valid, Asked, Keyed;
  }

  lemma MoveLost(
    hash: Hash, c: Config, s: Sys, m: Move, s': Sys, t: Time, id: EventId, first: Time, n: nat, done: nat)
    requires ConfigOk(c) && c.completes && Inv(hash, StartingAt(c, first), s, n, done) && Moves(hash, c, s, m, s')
    requires Lost(hash, c, s, t, id) && id !in s'.touched
    ensures Lost(hash, c, s', t, id)
  {
    hide ConfigOk, Inv, Run, Moves, Keyed, Waits, StillToCome, Defined, Call;
    MoveStore(hash, c, s, m, s', first, n, done);
    var store, store' := Run(hash, s.ops).store, Run(hash, s'.ops).store;
    WaitsStill(c, store, store', t, id);
    OpsAfter(hash, c, s, m, s');
    NoMoveAttests(hash, c, s, m, s', t, id, first, n, done);
    NothingToCome(hash, c, s, m, s', t, id, first, n, done);
  }

  lemma WaitsStill(c: Config, store: Store, store': Store, t: Time, id: EventId)
    requires Waits(c, store, t, id) && Keyed(store') && Extends(store', store)
    ensures Waits(c, store', t, id)
  {
    hide Kinded, Asked, KindOf, PathOf, SpeaksAbout, Keyed, OwnId, TickId;
  }

  lemma NoMoveAttests(
    hash: Hash, c: Config, s: Sys, m: Move, s': Sys, t: Time, id: EventId, first: Time, n: nat, done: nat)
    requires ConfigOk(c) && c.completes && Inv(hash, StartingAt(c, first), s, n, done) && Moves(hash, c, s, m, s')
    requires Lost(hash, c, s, t, id) && id !in s'.touched && Defined(c, s, Run(hash, s.ops), m)
    ensures var call := Call(c, s, Run(hash, s.ops), m);
            call.Some? && call.value.Complete? ==> call.value.stamped.outcome.id != id
  {
    hide ConfigOk, Inv, Run, Keyed, Valid, Acceptable, Asked, OwnId, TickId, Kinded, SpeaksOfSibling, AfterLatest,
         AfterEarliest, Created;
    MoveTouches(hash, c, s, m, s');
    if m.ProcessOutcome? {
      OutcomeIsAsked(hash, c, s, first, n, done);
    }
  }

  lemma OutcomeIsAsked(hash: Hash, c: Config, s: Sys, first: Time, n: nat, done: nat)
    requires ConfigOk(c) && Inv(hash, StartingAt(c, first), s, n, done) && s.outcomes.Stamped?
    ensures var id := PrefixId(s.outcomes.outcome.outcome.id, c.prefix); Kinded(id) && Asked(c, id)
    ensures AllOk(s.ops) && !IsAttested(Run(hash, s.ops).store, PrefixId(s.outcomes.outcome.outcome.id, c.prefix))
  {
    hide ConfigOk, Run, Good, Progress, Asked, Kinded, RelatingOk, AllSaid, EmittedInTime, EventsOk, Acceptable, TimeOf,
         CreatorPanics, CreatedValue, TickId, TickRecord, OwnId;
    var c' := StartingAt(c, first);
    SameTicks(c, first);
    InvParts(hash, c', s, n, done);
    StampedIsTick(c', s.outcomes.outcome, done);
    TickIsAsked(c', TimeOf(c', done));
    OwnIdIs(c', TimeOf(c', done));
    NotDone(c', Run(hash, s.ops).store, n, done);
  }

  lemma OwnIdIs(c: Config, t: Time)
    ensures OwnId(c, t) == PrefixId(TickId(c, t), c.prefix)
  {
  }

  lemma NotDone(c: Config, s: Store, n: nat, done: nat)
    requires Keyed(s) && Progress(c, s, n, done) && done < n
    ensures OwnId(c, TimeOf(c, done)) in s && !IsAttested(s, OwnId(c, TimeOf(c, done)))
  {
    hide OwnId, TimeOf, Asked;
    assert TickStored(c, s, done, done);
  }

  lemma NothingToCome(
    hash: Hash, c: Config, s: Sys, m: Move, s': Sys, t: Time, id: EventId, first: Time, n: nat, done: nat)
    requires ConfigOk(c) && c.completes && Inv(hash, StartingAt(c, first), s, n, done) && Moves(hash, c, s, m, s')
    requires Lost(hash, c, s, t, id) && AllOk(s'.ops) && Extends(Run(hash, s'.ops).store, Run(hash, s.ops).store)
    ensures !StillToCome(c, s', Run(hash, s'.ops).store, t, id)
  {
    hide ConfigOk, Inv, Run, Keyed, Valid, Acceptable, Asked, OwnId, TickId, Kinded, SpeaksOfSibling, AfterLatest,
         AfterEarliest, Created, Call, CanRelate, AreSiblings, StampAll;
    assert IsAttested(Run(hash, s'.ops).store, OwnId(c, t));
    if m.ProcessOutcome? {
      OutcomeIsAsked(hash, c, s, first, n, done);
      OwnIdIs(c, t);
    } else if m.QueryRelated? {
      GivenIsOfBase(hash, c, s, m.siblings, t, id, first, n, done);
    }
  }

  /** What is found for a tick and is the event is found for its own tick. */
  lemma GivenIsOfBase(
    hash: Hash, c: Config, s: Sys, siblings: Option<seq<Outcome>>, t: Time, id: EventId, first: Time, n: nat, done: nat)
    requires ConfigOk(c) && c.completes && Inv(hash, StartingAt(c, first), s, n, done) && s.relating.Held?
    requires AllOk(s.ops) && Waits(c, Run(hash, s.ops).store, t, id)
    requires CanRelate(s.relating.base.outcome) && siblings.Some?
    requires AreSiblings(Run(hash, s.ops).store, c.prefix, s.relating.base.outcome, siblings)
    ensures forall x | x in StampAll(siblings.value, s.relating.base.time) && PrefixId(x.outcome.id, c.prefix) == id ::
              s.relating.base.outcome.id == TickId(c, t)
  {
    hide ConfigOk, Inv, Run, Keyed, Kinded, TickId, TimeOf, AreSiblings, StampAll, Given, HasParties, InRange;
    var c' := StartingAt(c, first);
    SameTicks(c, first);
    var store := Run(hash, s.ops).store;
    var k := BaseOfHeld(hash, c', s, n, done);
    SiblingsFollow(c', store, k, s.relating.base, siblings);
    forall x | x in StampAll(siblings.value, s.relating.base.time) && PrefixId(x.outcome.id, c.prefix) == id
      ensures s.relating.base.outcome.id == TickId(c, t)
    {
      SpokenByOne(c', store, k, t, s.relating.base, x);
    }
  }

  lemma BaseOfHeld(hash: Hash, c: Config, s: Sys, n: nat, done: nat) returns (k: nat)
    requires Inv(hash, c, s, n, done) && s.relating.Held?
    ensures StampedFor(c, s.relating.base, k) && k < n && k <= done
  {
    hide Run, Good, Progress, AllSaid, EmittedInTime, EventsOk, OutcomesOk, StampedFor;
    k :| k <= done && k < n && StampedFor(c, s.relating.base, k);
  }

  /** Outcomes of two ticks that speak about one event are of one tick. */
  lemma SpokenByOne(c: Config, store: Store, k: nat, t: Time, base: StampedOutcome, x: StampedOutcome)
    requires ConfigOk(c) && c.completes && Keyed(store) && StampedFor(c, base, k) && Given(store, c.prefix, base, x)
    requires Kinded(TickId(c, t)) && SpeaksOfSibling(store, c.prefix, TickId(c, t), PrefixId(x.outcome.id, c.prefix))
    ensures base.outcome.id == TickId(c, t)
  {
    hide ConfigOk, TickId, TimeOf, Relate, HasParties, InRange, StampsApart, ParseKind, StripEvent, SpeaksAbout, KindOf,
         CreatorPanics, CreatedValue, Acceptable;
    CompletesApart(c);
    TickIsValid(c, t);
    TickIsValid(c, TimeOf(c, k));
    OwnPathIs(c, t);
    OwnPathIs(c, TimeOf(c, k));
    SamePath(c, PathOf(PrefixId(x.outcome.id, c.prefix)), TimeOf(c, k), t);
  }

  // ---------------------------------------------------------------- what can come comes

  lemma CanBeAttested(hash: Hash, c: Config, s: Sys, t: Time, id: EventId, first: Time, n: nat, done: nat)
    returns (s': Sys)
    requires ConfigOk(c) && c.completes && Inv(hash, StartingAt(c, first), s, n, done) && id !in s.touched
    requires AllOk(s.ops) && Waits(c, Run(hash, s.ops).store, t, id)
    requires StillToCome(c, s, Run(hash, s.ops).store, t, id)
    ensures LeadsTo(hash, c, s, s') && AttestedAlone(hash, s', id)
  {
    hide ConfigOk, Inv, Run, Keyed, TickId, OwnId, SpeaksOfSibling, Asked, GoesOn, LeadsTo, PrefixId;
    var c' := StartingAt(c, first);
    SameTicks(c, first);
    SameWaits(c, first, Run(hash, s.ops).store, t, id);
    var n', done';
    if !IsAttested(Run(hash, s.ops).store, OwnId(c, t)) {
      var s1, n1, done1 := DriveToTick(hash, c', s, t, n, done);
      GoneInv(hash, c', s, s1, n1, done1);
      WaitsLater(hash, c', s, s1, t, id, n, done, n1, done1);
      s', n', done' := HeldCan(hash, c', s1, t, id, n1, done1);
      GoesFurther(hash, c', s, s1, s', n1, done1, n', done');
    } else if s.relating.Held? {
      s', n', done' := HeldCan(hash, c', s, t, id, n, done);
    } else {
      WaitsInStore(c, Run(hash, s.ops).store, t, id);
      s', n', done' := GivingCan(hash, c', s, id, n, done);
    }
    GoneInv(hash, c', s, s', n', done');
    LeadsAnyStart(hash, c, first, s, s');
    KeyedRun(hash, c', s', n', done');
  }

  lemma SameWaits(c: Config, first: Time, store: Store, t: Time, id: EventId)
    ensures Waits(StartingAt(c, first), store, t, id) <==> Waits(c, store, t, id)
  {
    hide Kinded, Asked, OwnId, TickId, StartsWith, SpeaksAbout;
    SameTicks(c, first);
  }

  lemma WaitsInStore(c: Config, store: Store, t: Time, id: EventId)
    requires Waits(c, store, t, id)
    ensures id in store
  {
    hide Kinded, Asked, Keyed, OwnId, TickId, SpeaksAbout;
  }

  lemma WaitsLater(
    hash: Hash, c: Config, s: Sys, s': Sys, t: Time, id: EventId, n: nat, done: nat, n': nat, done': nat)
    requires ConfigOk(c) && LeadsTo(hash, c, s, s') && Inv(hash, c, s, n, done) && Inv(hash, c, s', n', done')
    requires AllOk(s.ops) && Waits(c, Run(hash, s.ops).store, t, id)
    ensures AllOk(s'.ops) && Waits(c, Run(hash, s'.ops).store, t, id)
  {
    hide ConfigOk, Inv, Run, Keyed, Waits, Moves;
    KeyedRun(hash, c, s', n', done');
    StoreGrows(hash, c, s, s', n, done);
    WaitsStill(c, Run(hash, s.ops).store, Run(hash, s'.ops).store, t, id);
  }

  lemma StoreGrows(hash: Hash, c: Config, s: Sys, s': Sys, n: nat, done: nat)
    requires ConfigOk(c) && LeadsTo(hash, c, s, s') && Inv(hash, c, s, n, done)
    ensures AllOk(s.ops) && AllOk(s'.ops) && Extends(Run(hash, s'.ops).store, Run(hash, s.ops).store)
  {
    hide ConfigOk, Inv, Run, Moves;
    var trace: seq<Sys>, moves: seq<Move> :|
      IsStretch(hash, c, trace, moves) && trace[0] == s && s' == trace[|moves|];
    assert StartingAt(c, c.initial) == c;
    var first, n', done' := StretchGrows(hash, c, trace, moves, c.initial, n, done);
  }

  lemma {:induction false} StretchGrows(
    hash: Hash, c: Config, trace: seq<Sys>, moves: seq<Move>, first: Time, n: nat, done: nat)
    returns (first': Time, n': nat, done': nat)
    requires ConfigOk(c) && IsStretch(hash, c, trace, moves) && Inv(hash, StartingAt(c, first), trace[0], n, done)
    ensures Inv(hash, StartingAt(c, first'), trace[|moves|], n', done')
    ensures AllOk(trace[0].ops) && AllOk(trace[|moves|].ops)
    ensures Extends(Run(hash, trace[|moves|].ops).store, Run(hash, trace[0].ops).store)
    decreases |moves|
  {
    hide ConfigOk, Moves, Inv, Run, Extends;
    first', n', done' := first, n, done;
    KeyedRun(hash, StartingAt(c, first), trace[0], n, done);
    if moves == [] {
      SameExtends(Run(hash, trace[0].ops).store);
    } else {
      var last := |moves| - 1;
      assert Moves(hash, c, trace[last], moves[last], trace[last + 1]);
      first', n', done' := StretchGrows(hash, c, trace[..|moves|], moves[..last], first, n, done);
      MoveStore(hash, c, trace[last], moves[last], trace[last + 1], first', n', done');
      first', n', done' := InvStep(hash, c, trace[last], moves[last], trace[last + 1], first', n', done');
      ExtendsMore(
        Run(hash, trace[last + 1].ops).store, Run(hash, trace[last].ops).store, Run(hash, trace[0].ops).store);
    }
  }

  lemma ExtendsMore(s'': Store, s': Store, s: Store)
    requires Extends(s'', s') && Extends(s', s)
    ensures Extends(s'', s)
  {
  }

  /** A stored tick that is not attested to comes to be, and then what follows from its outcome can be looked at. */
  lemma DriveToTick(hash: Hash, c: Config, s: Sys, t: Time, n: nat, done: nat)
    returns (s': Sys, n': nat, done': nat)
    requires ConfigOk(c) && c.completes && Inv(hash, c, s, n, done) && AllOk(s.ops)
    requires OwnId(c, t) in Run(hash, s.ops).store && !IsAttested(Run(hash, s.ops).store, OwnId(c, t))
    ensures GoesOn(hash, c, s, s', n', done')
    ensures s'.relating.Held? && s'.relating.base.outcome.id == TickId(c, t)
  {
    hide ConfigOk, Inv, Run, GoesOn, Progress, TimeOf, TickId, OwnId, Asked, Kinded, Good, PrefixId;
    InvParts(hash, c, s, n, done);
    TickIsAsked(c, t);
    var k := UnattestedTick(c, Run(hash, s.ops).store, n, done, t);
    var s1, n1, done1 := TickersGoOn(hash, c, s, n, done, k);
    GoneInv(hash, c, s, s1, n1, done1);
    s', n' := OneTickMore(hash, c, s1, n1, done1);
    done' := done1 + 1;
    GoesFurther(hash, c, s, s1, s', n1, done1, n', done');
  }

  lemma UnattestedTick(c: Config, s: Store, n: nat, done: nat, t: Time) returns (k: nat)
    requires ConfigOk(c) && Keyed(s) && Progress(c, s, n, done)
    requires OwnId(c, t) in s && !IsAttested(s, OwnId(c, t))
    ensures done <= k && TickId(c, TimeOf(c, k)) == TickId(c, t)
  {
    hide ConfigOk, TimeOf, TickId, Asked, Kinded, PathOf, KindOf, Valid, OwnId, Progress;
    TickIsAsked(c, t);
    k := TickOf(c, s, n, done, OwnId(c, t));
    OwnIdShows(c, t);
    OwnIdShows(c, TimeOf(c, k));
  }

  /** From where the outcome of the tick is about to be looked at. */
  lemma HeldCan(hash: Hash, c: Config, s: Sys, t: Time, id: EventId, n: nat, done: nat)
    returns (s': Sys, n': nat, done': nat)
    requires ConfigOk(c) && Inv(hash, c, s, n, done) && AllOk(s.ops) && Waits(c, Run(hash, s.ops).store, t, id)
    requires s.relating.Held? && s.relating.base.outcome.id == TickId(c, t)
    ensures GoesOn(hash, c, s, s', n', done') && AllOk(s'.ops) && IsAttested(Run(hash, s'.ops).store, id)
  {
    hide ConfigOk, Inv, Run, GoesOn, TickId, Asked, Kinded, SpeaksOfSibling, HasParties, InRange, AreSiblings, PrefixId,
         OwnId;
    var store := Run(hash, s.ops).store;
    var k := HeldRelates(hash, c, s, n, done);
    var siblings := SiblingsExist(store, c.prefix, s.relating.base.outcome);
    var s1 := QuietStep(hash, c, s, QueryRelated(siblings), n, done);
    GoneInv(hash, c, s, s1, n, done);
    WaitsKind(c, t);
    RelatedCovers(store, c.prefix, s.relating.base.outcome, siblings.value, id);
    var j :| 0 <= j < |siblings.value| && PrefixId(siblings.value[j].id, c.prefix) == id;
    assert s1.relating.left[j].outcome == siblings.value[j];
    WaitsInStore(c, store, t, id);
    s', n', done' := GivingCan(hash, c, s1, id, n, done);
    GoesFurther(hash, c, s, s1, s', n, done, n', done');
  }

  lemma WaitsKind(c: Config, t: Time)
    requires ConfigOk(c)
    ensures Kinded(TickId(c, t)) && KindOf(TickId(c, t)) == c.kind
  {
    hide ConfigOk, ParseKind, StripEvent, TickId, Valid;
    TickIsValid(c, t);
  }

  lemma HeldRelates(hash: Hash, c: Config, s: Sys, n: nat, done: nat) returns (k: nat)
    requires ConfigOk(c) && Inv(hash, c, s, n, done) && s.relating.Held?
    ensures StampedFor(c, s.relating.base, k) && CanRelate(s.relating.base.outcome)
  {
    hide ConfigOk, Run, Good, Progress, AllSaid, EmittedInTime, EventsOk, OutcomesOk, StampedFor, CanRelate;
    k := BaseCanRelate(c, s.relating.base, n, done);
  }

  /** Every outcome that can be looked at has an answer. */
  lemma SiblingsExist(s: Store, prefix: Path, outcome: Outcome) returns (r: Option<seq<Outcome>>)
    requires Keyed(s) && CanRelate(outcome)
    ensures AreSiblings(s, prefix, outcome, r)
  {
    hide CompleteRelated, IsQueryResult, SiblingQuery, ParseKind, InRange;
    if NOutcomes(KindOf(outcome.id)) < 3 {
      r := Some([]);
    } else {
      var events := AllMatches(s, PrefixQuery(prefix, SiblingQuery(outcome.id)), s.Keys);
      MatchesAreResult(s, PrefixQuery(prefix, SiblingQuery(outcome.id)), events);
      var ids := StrippedIds(prefix, events);
      r := if Related.AllKinded(ids) then Some(CompleteRelated(outcome, ids)) else None;
    }
  }

  /** From where what the outcome says about the event is about to be given. */
  lemma {:induction false} GivingCan(hash: Hash, c: Config, s: Sys, id: EventId, n: nat, done: nat)
    returns (s': Sys, n': nat, done': nat)
    requires ConfigOk(c) && Inv(hash, c, s, n, done) && s.relating.Giving? && AllOk(s.ops)
    requires id in Run(hash, s.ops).store && exists x | x in s.relating.left :: PrefixId(x.outcome.id, c.prefix) == id
    ensures GoesOn(hash, c, s, s', n', done') && AllOk(s'.ops) && IsAttested(Run(hash, s'.ops).store, id)
    decreases |s.relating.left|
  {
    hide ConfigOk, Inv, Run, GoesOn, PrefixId;
    var s1, done1 := GiveOne(hash, c, s, n, done);
    GoneInv(hash, c, s, s1, n, done1);
    var left := s.relating.left;
    if PrefixId(left[0].outcome.id, c.prefix) == id {
      s', n', done' := s1, n, done1;
    } else {
      var x :| x in left && PrefixId(x.outcome.id, c.prefix) == id;
      assert x in left[1..];
      s', n', done' := GivingCan(hash, c, s1, id, n, done1);
      GoesFurther(hash, c, s, s1, s', n, done1, n', done');
    }
  }

  lemma GiveOne(hash: Hash, c: Config, s: Sys, n: nat, done: nat) returns (s': Sys, done': nat)
    requires ConfigOk(c) && Inv(hash, c, s, n, done) && s.relating.Giving? && s.relating.left != []
    ensures GoesOn(hash, c, s, s', n, done') && s'.relating == AfterRelated(s).relating
    ensures AllOk(s.ops) && AllOk(s'.ops)
    ensures var store, store' := Run(hash, s.ops).store, Run(hash, s'.ops).store;
            var id := PrefixId(s.relating.left[0].outcome.id, c.prefix);
            store'.Keys == store.Keys && IsAttested(store', id)
  {
    hide ConfigOk, Inv, Run, GoesOn, Acceptable, Keyed, Good, Progress, StampedFor, Said, SaidBefore, OtherOk, Kinded,
         CanRelate, OutcomeString, Enabled, Defined, After, OpOk, Step, Extends, PrefixId, LeadsTo, AfterRelated;
    var k := GivenOf(hash, c, s, n, done);
    var o := Run(hash, s.ops);
    InvParts(hash, c, s, n, done);
    var out := PrefixStamped(s.relating.left[0], c.prefix);
    CanGive(hash, c, s, o);
    done' := RelatedMove(hash, c, s, ProcessRelated(NoFault), n, done);
    s' := After(hash, c, s, o, ProcessRelated(NoFault));
    RelatedAfter(hash, c, s, o, ProcessRelated(NoFault));
    OneMove(hash, c, s, n, done, ProcessRelated(NoFault), s');
    AfterRelatedIs(s);
    MovedOn(hash, c, s, s', n, done');
    CompleteIsOk(Running(o), out);
    RunAppend(hash, s.ops, Complete(Running(o), out));
    CompleteAttests(hash, o, out);
  }

  lemma CanGive(hash: Hash, c: Config, s: Sys, o: State)
    requires Keyed(o.store) && s.relating.Giving? && s.relating.left != []
    ensures Enabled(hash, c, s, o, ProcessRelated(NoFault))
  {
    hide Keyed;
  }

  lemma AfterRelatedIs(s: Sys)
    requires s.relating.Giving? && s.relating.left != []
    ensures AfterRelated(s).touched == s.touched
    ensures AfterRelated(s).relating == Giving(s.relating.base, s.relating.left[1..])
  {
  }

  // ---------------------------------------------------------------- without a kind configured

  /** The store after an oracle has added a tick and then a predicate on it. */
  function TickAndPredicate(kc: KeyChain, tick: Event, pred: Event): Store
    requires Valid(tick.id) && Valid(pred.id)
  {
    AddSpec(kc, AddSpec(kc, map[], tick).0, pred).0
  }

  /** What the outcome ticker yields at `t` for the event that it was asked about, as the loop hands it on. */
  function MadeFor(c: Config, id: EventId, t: Time): StampedOutcome
    requires !CreatorPanics(c.creator, id)
  {
    PrefixStamped(Created(c, Due(id, t), t), c.prefix)
  }

  /** Without a kind configured the outcome ticker makes up outcomes of predicates as well, and wrong ones. For every
      ticker of prices that makes up 0: the earliest event without an attestation can be the predicate that the price is
      0, which is attested to as false, and the price is then attested to as 0. */
  lemma WrongWithoutKind(kc: KeyChain, c: Config, t: Time)
    requires ConfigOk(c) && c.outcomesKind.None? && c.kind.Price? && c.creator.Zero? && IsPredicable(c, t, EqKind, 0)
    ensures var pred := PredicateId(TickId(c, t), EqKind, 0);
            var predId, tickId := StoredPredicate(c, t, EqKind, 0), OwnId(c, t);
            Valid(predId) && Valid(tickId) &&
            var s := TickAndPredicate(kc, Event(tickId, Some(t)), Event(predId, Some(t)));
            Keyed(s) && IsPrefixedFirst(s, c.prefix, EarliestQuery(c), Some(Event(pred, Some(t)))) &&
            Acceptable(MadeFor(c, pred, t).outcome) && Acceptable(MadeFor(c, TickId(c, t), t).outcome) &&
            var s' := CompleteSpec(kc, s, MadeFor(c, pred, t)).0;
            var s'' := CompleteSpec(kc, s', MadeFor(c, TickId(c, t), t)).0;
            IsAttested(s'', predId) && s''[predId].attestation.value.outcome == "false" &&
            IsAttested(s'', tickId) && s''[tickId].attestation.value.outcome == Print(0) && IsTrueOf(EqKind, 0, 0)
  {
    hide ConfigOk, Valid, Kinded, StoredPredicate, TickId, OwnId, PredicateId, CompleteSpec, Predicable, InRange,
         IsPrefixedFirst, MadeFor, Acceptable, IsAttested, Announce, TickAndPredicate, KindOf, Keyed, HasParties,
         OutcomeString, StripId, PathOf, OwnPath, Usable, EarliestQuery;
    var predId, tickId := StoredPredicate(c, t, EqKind, 0), OwnId(c, t);
    PredicateShows(c, t, EqKind, 0);
    OwnIdShows(c, t);
    BothStored(kc, tickId, predId, t);
    PredicateCanBeFirst(c, TickAndPredicate(kc, Event(tickId, Some(t)), Event(predId, Some(t))), t);
    MadeForPredicate(c, t);
    MadeForTick(c, t);
    BothCompleted(
      kc, TickAndPredicate(kc, Event(tickId, Some(t)), Event(predId, Some(t))),
      MadeFor(c, PredicateId(TickId(c, t), EqKind, 0), t), MadeFor(c, TickId(c, t), t));
  }

  lemma BothCompleted(kc: KeyChain, s: Store, a: StampedOutcome, b: StampedOutcome)
    requires Acceptable(a.outcome) && Acceptable(b.outcome) && a.outcome.id != b.outcome.id
    requires Announced(kc, s, a.outcome.id) && Announced(kc, s, b.outcome.id)
    ensures var s' := CompleteSpec(kc, s, a).0;
            var s'' := CompleteSpec(kc, s', b).0;
            IsAttested(s'', a.outcome.id) && IsAttested(s'', b.outcome.id) &&
            s''[a.outcome.id].attestation.value.outcome == OutcomeString(a.outcome) &&
            s''[b.outcome.id].attestation.value.outcome == OutcomeString(b.outcome)
  {
    hide Acceptable, OutcomeString, CompleteSpec, Announce;
    var s' := CompletesFresh(kc, s, a);
    var s'' := CompletesFresh(kc, s', b);
  }

  /** The record is as the oracle announced it, without an attestation. */
  predicate Announced(kc: KeyChain, s: Store, id: EventId) {
    id in s && Valid(s[id].event.id) &&
    s[id].event.id == id && s[id].attestation.None? && s[id].announcement == Announce(kc, s[id].event)
  }

  lemma BothStored(kc: KeyChain, tickId: EventId, predId: EventId, t: Time)
    requires Valid(tickId) && Valid(predId) && Kinded(tickId) && Kinded(predId) && tickId != predId
    ensures var tick, pred := Event(tickId, Some(t)), Event(predId, Some(t));
            TickAndPredicate(kc, tick, pred) ==
              map[tickId := AnnouncedEvent(tick, Announce(kc, tick), None),
                  predId := AnnouncedEvent(pred, Announce(kc, pred), None)] &&
            Keyed(TickAndPredicate(kc, tick, pred)) &&
            Announced(kc, TickAndPredicate(kc, tick, pred), tickId) &&
            Announced(kc, TickAndPredicate(kc, tick, pred), predId)
  {
    hide Valid, Kinded, Announce;
  }

  /** The query for the earliest event may answer with either of two at the same time. */
  lemma PredicateCanBeFirst(c: Config, s: Store, t: Time)
    requires ConfigOk(c) && c.outcomesKind.None? && IsPredicable(c, t, EqKind, 0) && Keyed(s)
    requires var predId := StoredPredicate(c, t, EqKind, 0);
             s.Keys == {OwnId(c, t), predId} &&
             s[predId].attestation.None? && s[predId].event == Event(predId, Some(t)) &&
             s[OwnId(c, t)].event == Event(OwnId(c, t), Some(t))
    ensures IsPrefixedFirst(
              s, c.prefix, EarliestQuery(c), Some(Event(PredicateId(TickId(c, t), EqKind, 0), Some(t))))
  {
    hide ConfigOk, ParseKind, StripEvent, StoredPredicate, TickId, OwnId, PredicateId, KindOf, StartsWith,
         EndsWith, Valid, OwnPath, Predicable, InRange;
    var predId := StoredPredicate(c, t, EqKind, 0);
    PredicateShows(c, t, EqKind, 0);
    OwnIdAsked(c, t);
    OwnIdShows(c, t);
    OwnPathIs(c, t);
    QueryOrders(c);
    assert IsFirst(s, PrefixQuery(c.prefix, EarliestQuery(c)), Some(s[predId].event));
    assert StripEventId(c.prefix, s[predId].event) == Event(PredicateId(TickId(c, t), EqKind, 0), Some(t));
  }

  predicate IsMade(o: Outcome, id: EventId, text: string) {
    Acceptable(o) && o.id == id && OutcomeString(o) == text
  }

  lemma MadeForPredicate(c: Config, t: Time)
    requires ConfigOk(c) && c.creator.Zero? && IsPredicable(c, t, EqKind, 0)
    ensures IsMade(
              MadeFor(c, PredicateId(TickId(c, t), EqKind, 0), t).outcome, StoredPredicate(c, t, EqKind, 0), "false")
  {
    hide ConfigOk, ParseKind, StripEvent, IsPredicable, TickId, PredicateId, FromStr;
    PredicateShows(c, t, EqKind, 0);
  }

  lemma MadeForTick(c: Config, t: Time)
    requires ConfigOk(c) && c.creator.Zero? && c.kind.Price?
    ensures IsMade(MadeFor(c, TickId(c, t), t).outcome, OwnId(c, t), Print(0))
  {
    hide ConfigOk, ParseKind, StripEvent, TickId, FromStr;
    OwnIdShows(c, t);
    OwnIdIs(c, t);
  }

  /** A completion of what the same oracle announced goes ahead. */
  lemma CompletesFresh(kc: KeyChain, s: Store, stamped: StampedOutcome) returns (s': Store)
    requires Acceptable(stamped.outcome) && Announced(kc, s, stamped.outcome.id)
    ensures s' == CompleteSpec(kc, s, stamped).0 && s'.Keys == s.Keys
    ensures forall id | id in s && id != stamped.outcome.id :: s'[id] == s[id]
    ensures IsAttested(s', stamped.outcome.id)
    ensures s'[stamped.outcome.id].attestation.value.outcome == OutcomeString(stamped.outcome)
  {
    hide Acceptable, OutcomeString, DecideComplete, SchemesFor, ScalarsForOutcome, EcdsaSignOutcome, Announce;
    AnnouncedDecides(kc, kc, s, stamped);
    s' := CompleteSpec(kc, s, stamped).0;
  }

  // ---------------------------------------------------------------- there are such tickers

  /** A price every second below the root, with related events completed along. */
  function PriceTicks(outcomesKind: Option<EventKind>): Config {
    Config(ROOT, ROOT, Price(0), SECOND, 0, 0, ROOT, outcomesKind, Zero, true, Seconds)
  }

  lemma PriceTickShows(outcomesKind: Option<EventKind>, t: Time)
    ensures var id := TickId(PriceTicks(outcomesKind), t);
            Valid(id) && Kinded(id) && PathOf(id) == TickPath(PriceTicks(outcomesKind), t) && KindOf(id) == Price(0)
  {
    hide StampOk, Valid, ParseKind, StripEvent, TickPath, Last, FromPathAndKind, Seconds, StampsApart;
    var c := PriceTicks(outcomesKind);
    SecondsAreOk();
    assert IsPath(ROOT);
    TickPathLast(c, t);
    StampIsWord(c, t);
    PriceIsValid(TickPath(c, t));
  }

  /** With the kind configured or without one, they meet every condition, and can be predicated. */
  lemma PriceTicksAreOk(outcomesKind: Option<EventKind>)
    requires outcomesKind == None || outcomesKind == Some(Price(0))
    ensures ConfigOk(PriceTicks(outcomesKind))
    ensures forall t, bound :: IsPredicable(PriceTicks(outcomesKind), t, BoundOf(Gt), bound)
    ensures forall t :: IsPredicable(PriceTicks(outcomesKind), t, EqKind, 0)
  {
    hide StampOk, Valid, ParseKind, StripEvent, TickPath, TickId, Seconds, StampsApart;
    SecondsAreOk();
    assert IsPath(ROOT);
    PriceTickShows(outcomesKind, 0);
    forall t
      ensures HasParties(TickId(PriceTicks(outcomesKind), t)) && KindOf(TickId(PriceTicks(outcomesKind), t)) == Price(0)
    {
      PriceTickShows(outcomesKind, t);
    }
  }
}
