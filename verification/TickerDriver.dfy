/** The streams and the loop put together and run: every step of the objects is a move of the protocol, so the
    store they leave behind holds what the protocol promises. */
module TickerDriver {
  import opened Wrappers
  import opened Decimal
  import opened Paths
  import opened EventKinds
  import opened EventIds
  import opened IdParser
  import opened Outcomes
  import opened Announcements
  import opened Attestations
  import opened KeyChains
  import opened Nodes
  import opened Stores
  import opened Oracles
  import opened OracleRuns
  import opened Related
  import opened Tickers
  import opened Ticks
  import opened RelatedTicks
  import opened TickerRuns
  import opened PredicateRuns

  class Driver {
    const hash: Hash
    const config: Config
    const db: InMemory
    const events: TimeEventStream
    const outcomes: TimeOutcomeStream
    const loop: OracleLoop
    var clock: Time

    /** The state of the protocol that the objects are in, and how far it has come. */
    ghost var sys: Sys
    ghost var n: nat
    ghost var done: nat

    ghost predicate Wired() {
      && events.db.inner == outcomes.db.inner == loop.oracle.db == db
      && events.db.prefix == outcomes.db.prefix == config.prefix
      && events.config == outcomes.config == config
    }

    ghost predicate Holds(o: State)
      reads db
    {
      && o.store == db.inner && o.keys == db.publicKeys
      && o.oracles == [loop.oracle.keychain]
    }

    ghost predicate Mirrors()
      reads this, db, events, outcomes
    {
      && AllOk(sys.ops) && Holds(Run(hash, sys.ops)) && sys.touched == {}
      && sys.events == events.pc && sys.outcomes == outcomes.pc && sys.clock == clock && sys.initial == config.initial
    }

    ghost predicate Valid()
      reads this, db, events, outcomes
    {
      && Wired() && Mirrors() && db.Valid()
      && ConfigOk(config) && Reachable(hash, config, sys) && Inv(hash, config, sys, n, done)
    }

    /** A new oracle on an empty store, with streams and a loop around it; the ticker gives its node a kind. */
    constructor (hash: Hash, config: Config, db: InMemory, oracle: Oracle, master: Seed, interval: nat, now: Time)
      requires ConfigOk(config) && db.inner == map[] && oracle.db == db
      requires oracle.keychain == NewKeyChain(hash, master) && db.publicKeys == Some(PublicKeys(oracle.keychain))
      modifies db`nodeKinds
      ensures Valid() && this.hash == hash && this.config == config && this.db == db && n == 0 && done == 0
      ensures events.pc == AskLatest && outcomes.pc == AskEarliest && fresh(events) && fresh(outcomes)
      ensures sys.relating == Idle && db.nodeKinds == old(db.nodeKinds)[config.prefix := Range(interval)]
    {
      hide Inv, Reachable, ConfigOk, NewKeyChain, PublicKeys, Run;
      var prefixed := new PrefixedDb(db, config.prefix);
      var stream := new TimeEventStream(prefixed, config);
      var outcomeStream := new TimeOutcomeStream(prefixed, config);
      var consumer := new OracleLoop(oracle);
      this.hash, this.config, this.db := hash, config, db;
      events, outcomes, loop, clock := stream, outcomeStream, consumer, now;
      n, done := 0, 0;
      sys := Sys([Open(master)], config.initial, now, AskLatest, AskEarliest, Idle, {}, []);
      new;
      var failed := consumer.TakeNode(config.prefix, Node(ROOT, Range(interval)));
      StartsRight(hash, config, master, sys);
    }

    /** The answer to the latest query makes the stream ready, or delays it. */
    method AskForLatest()
      requires Valid() && events.pc.AskLatest?
      modifies this`sys, events`pc
      ensures Valid() && (events.pc.Ready? || events.pc.Delayed?) && sys.relating == old(sys.relating)
      ensures exists found :: Moves(hash, config, old(sys), QueryLatest(found), sys)
    {
      hide Inv, Reachable, ConfigOk, Run, IsPrefixedFirst;
      var ok := events.Query();
      ghost var found :| IsPrefixedFirst(db.inner, config.prefix, LatestQuery(config), found) &&
        match AfterLatest(config, found)
        case None => !ok && events.pc == AskLatest
        case Some(next) => ok && events.pc == next;
      sys := QuietMove(hash, config, sys, QueryLatest(found), n, done);
    }

    /** Sleeps until a time that may have passed. */
    method Sleep(until: Time)
      requires Valid()
      modifies this`sys, this`clock
      ensures Valid() && clock >= until && Moves(hash, config, old(sys), Advance(clock), sys)
      ensures sys.relating == old(sys.relating)
    {
      hide Inv, Reachable, ConfigOk, Run;
      clock := if clock >= until then clock else until;
      ghost var before := sys;
      KeyedRun(hash, config, before, n, done);
      sys := QuietMove(hash, config, before, Advance(clock), n, done);
    }

    method Wake()
      requires Valid() && events.pc.Delayed? && clock >= events.pc.next - config.lookAhead
      modifies this`sys, events`pc
      ensures Valid() && events.pc.Ready? && Moves(hash, config, old(sys), TickerRuns.Wake, sys)
      ensures sys.relating == old(sys.relating)
    {
      hide Inv, Reachable, ConfigOk, Run;
      events.Delay(clock);
      KeyedRun(hash, config, sys, n, done);
      sys := QuietMove(hash, config, sys, TickerRuns.Wake, n, done);
    }

    method Emit() returns (e: Event)
      requires Valid() && events.pc.Ready?
      modifies this`sys, events`pc
      ensures Valid() && events.pc == Yielded(old(events.pc).time) && e == TickEvent(config, events.pc.time)
      ensures Moves(hash, config, old(sys), YieldEvent, sys) && sys.relating == old(sys.relating)
    {
      hide Inv, Reachable, ConfigOk, Run, TickEvent;
      e := events.Yield();
      KeyedRun(hash, config, sys, n, done);
      sys := QuietMove(hash, config, sys, YieldEvent, n, done);
    }

    /** The loop takes the event that was yielded, and the stream is notified. */
    method Deliver(e: Event) returns (failed: bool)
      requires Valid() && events.pc.Yielded? && e == TickEvent(config, events.pc.time)
      modifies this`sys, this`n, events`pc, db`inner
      ensures Valid() && events.pc.AskLatest? && n == old(n) + 1 && !failed && sys.relating == old(sys.relating)
      ensures Moves(hash, config, old(sys), ProcessEvent(NoFault), sys)
      ensures Announces(old(db.inner), db.inner)
    {
      hide Inv, Reachable, ConfigOk, Run, Step, TickEvent, AddSpec, Moves, IdParser.Valid, Announces, Keyed;
      ghost var before := sys;
      EventReply(hash, config, before, n, done);
      StepOfAdd(hash, Run(hash, sys.ops), PrefixEvent(e, config.prefix));
      AddAnnounces(loop.oracle.keychain, db.inner, PrefixEvent(e, config.prefix));
      failed := loop.TakeEvent(config.prefix, e);
      events.Notified();
      sys := EventDelivered(hash, config, before, n, done);
      n := n + 1;
    }

    method AskForEarliest()
      requires Valid() && outcomes.pc.AskEarliest? && Finished(sys.relating)
      modifies this`sys, outcomes`pc
      ensures Valid() && (if done < n then outcomes.pc.Due? else outcomes.pc.AskEarliest?) && sys.relating == Idle
      ensures exists found :: Moves(hash, config, old(sys), QueryEarliest(found), sys)
    {
      hide Inv, Reachable, ConfigOk, Run, IsPrefixedFirst;
      var ok := outcomes.Query();
      ghost var found :| IsPrefixedFirst(db.inner, config.prefix, EarliestQuery(config), found) &&
        match AfterEarliest(found)
        case None => !ok && outcomes.pc == AskEarliest
        case Some(next) => ok && outcomes.pc == next;
      EarliestLeadsOn(hash, config, sys, n, done, found);
      sys := QuietMove(hash, config, sys, QueryEarliest(found), n, done);
    }

    method Attest() returns (r: Option<StampedOutcome>)
      requires Valid() && outcomes.pc.Due? && clock >= outcomes.pc.at
      modifies this`sys, outcomes`pc
      ensures Valid() && r.Some? && outcomes.pc == Stamped(r.value)
      ensures Moves(hash, config, old(sys), YieldOutcome, sys)
    {
      hide Inv, Reachable, ConfigOk, Run, CreatorPanics, Created;
      r := outcomes.Yield(clock);
      KeyedRun(hash, config, sys, n, done);
      sys := QuietMove(hash, config, sys, YieldOutcome, n, done);
    }

    /** The loop takes the outcome that was yielded, and the stream is notified. */
    method DeliverOutcome(stamped: StampedOutcome) returns (failed: bool)
      requires Valid() && outcomes.pc == Stamped(stamped)
      modifies this`sys, this`done, outcomes`pc, db`inner
      ensures Valid() && outcomes.pc.AskEarliest? && done == old(done) + 1 && !failed
      ensures sys.relating == if config.completes then Held(stamped) else Idle
      ensures var outcome := PrefixStamped(stamped, config.prefix).outcome;
              Acceptable(outcome) && Completes(old(db.inner), db.inner, outcome)
      ensures Moves(hash, config, old(sys), ProcessOutcome(NoFault), sys)
    {
      hide Inv, Reachable, ConfigOk, Run, Acceptable, CompleteSpec, Moves, Completes, Keyed, AllOk;
      ghost var s' := OutcomeDelivered(hash, config, sys, n, done);
      failed := loop.TakeOutcome(config.prefix, stamped);
      outcomes.Notified();
      sys, done := s', done + 1;
    }

    /** The event stream up to what it yields, the next tick. */
    method NextTick() returns (e: Event)
      requires Valid() && events.pc.AskLatest?
      modifies this`sys, this`clock, events`pc
      ensures Valid() && events.pc == Yielded(TimeOf(config, n)) && e == TickEvent(config, TimeOf(config, n))
      ensures sys.relating == old(sys.relating)
    {
      hide Inv, Reachable, ConfigOk, Mirrors, Moves, TimeOf;
      AskForLatest();
      if events.pc.Delayed? {
        Sleep(events.pc.next - config.lookAhead);
        Wake();
      }
      StoreIs();
      YieldsTick(hash, config, sys, n, done);
      e := Emit();
    }

    /** The outcome stream up to what it yields, an outcome of the next tick that is not attested to. */
    method NextStamped() returns (stamped: StampedOutcome)
      requires Valid() && outcomes.pc.AskEarliest? && Finished(sys.relating) && done < n
      modifies this`sys, this`clock, outcomes`pc
      ensures Valid() && outcomes.pc == Stamped(stamped) && StampedFor(config, stamped, done)
      ensures stamped.outcome.id == TickId(config, TimeOf(config, done)) && CanRelate(stamped.outcome)
    {
      hide Inv, Reachable, ConfigOk, Mirrors, Moves, TimeOf, StampedFor, CanRelate, Kinded;
      AskForEarliest();
      Sleep(outcomes.pc.at);
      var r := Attest();
      stamped := r.value;
      StoreIs();
      StampedIs(hash, config, sys, n, done);
    }

    /** Once around the loop of the event stream: the next tick is stored. */
    method NextEvent()
      requires Valid() && events.pc.AskLatest?
      modifies this, events`pc, db`inner
      ensures Valid() && events.pc.AskLatest? && n == old(n) + 1 && done == old(done)
      ensures outcomes.pc == old(outcomes.pc) && sys.relating == old(sys.relating)
    {
      hide Inv, Reachable, ConfigOk, Mirrors, Moves;
      var e := NextTick();
      var failed := Deliver(e);
    }

    /** Once around the loop of the outcome stream, with something left to do: the next tick is attested to. */
    method NextOutcome()
      requires Valid() && outcomes.pc.AskEarliest? && Finished(sys.relating) && done < n && !config.completes
      modifies this, outcomes`pc, db`inner
      ensures Valid() && outcomes.pc.AskEarliest? && Finished(sys.relating) && n == old(n) && done == old(done) + 1
      ensures events.pc == old(events.pc)
    {
      hide Inv, Reachable, ConfigOk, Mirrors, Moves;
      var stamped := NextStamped();
      var failed := DeliverOutcome(stamped);
    }

    /** The same, whether the stream completes related events or not. */
    method NextAttested(related: RelatedStream)
      requires Valid() && outcomes.pc.AskEarliest? && Finished(sys.relating) && n == done + 1
      requires related.db.inner == db && related.db.prefix == config.prefix
      modifies this, outcomes`pc, db`inner
      ensures Valid() && outcomes.pc.AskEarliest? && Finished(sys.relating) && n == done == old(n)
      ensures events.pc == old(events.pc)
    {
      hide Inv, Reachable, ConfigOk, Mirrors, Moves, Extends, SpeaksOfSibling, IsAttested, Kinded;
      if config.completes {
        NextOutcomeWithRelated(related);
        KeyedStore();
      } else {
        NextOutcome();
      }
    }

    /** Going around both loops leaves exactly that many ticks in the store, each right and attested to. */
    method Drive(rounds: nat, related: RelatedStream)
      requires Valid() && events.pc.AskLatest? && outcomes.pc.AskEarliest? && n == done == 0
      requires sys.relating == Idle
      requires related.db.inner == db && related.db.prefix == config.prefix
      modifies this, events`pc, outcomes`pc, db`inner
      ensures Valid() && db.Valid() && events.pc.AskLatest? && outcomes.pc.AskEarliest?
      ensures forall id | id in db.inner && Asked(config, id) :: IsTick(config, id, rounds)
      ensures forall k: nat | k < rounds :: TickAttested(config, db.inner, k)
      ensures AllVerify(db.inner, db.publicKeys)
    {
      hide Inv, Reachable, ConfigOk, Mirrors, TickAttested, Asked, OwnId, TimeOf, AllVerify;
      for i := 0 to rounds
        invariant Valid() && events.pc.AskLatest? && outcomes.pc.AskEarliest? && n == done == i
        invariant Finished(sys.relating)
      {
        NextEvent();
        NextAttested(related);
      }
      StoreIs();
      InvParts(hash, config, sys, n, done);
      AllAttested(config, db.inner, n);
      StoredVerify();
    }

    /** An event of another source, such as a predicate on a tick. */
    method DeliverOther(e: Event) returns (failed: bool, ghost op: Op)
      requires Valid() && FitsEvent(e)
      modifies this`sys, db`inner
      ensures Valid() && Moves(hash, config, old(sys), Other(op), sys)
      ensures sys.events == old(sys.events) && sys.outcomes == old(sys.outcomes) && sys.relating == old(sys.relating)
      ensures PrefixId(e.id, config.prefix) in db.inner && Announces(old(db.inner), db.inner)
    {
      hide Inv, Reachable, ConfigOk, Run, AddSpec, Moves, OtherOk, IdParser.Valid, Announces, Keyed,
           Prefix, AllOk;
      ghost var s';
      s', op := OtherAdded(hash, config, sys, n, done, PrefixEvent(e, config.prefix));
      failed := loop.TakeEvent(config.prefix, e);
      sys := s';
    }

    ghost predicate FitsEvent(e: Event)
      reads this
    {
      AllOk(sys.ops) &&
      var who := Running(Run(hash, sys.ops));
      IdParser.Valid(PrefixId(e.id, config.prefix)) && OtherOk(config, who, Add(who, PrefixEvent(e, config.prefix)))
    }

    /** The stream around the outcome stream asks what follows from the outcome that it passed on. */
    method AskRelated(related: RelatedStream, base: StampedOutcome) returns (out: seq<StampedOutcome>)
      requires Valid() && sys.relating == Held(base) && CanRelate(base.outcome)
      requires related.db.inner == db && related.db.prefix == config.prefix
      modifies this`sys
      ensures Valid() && sys.outcomes == old(sys.outcomes) && sys.events == old(sys.events)
      ensures exists siblings: seq<Outcome> ::
                AreSiblings(db.inner, config.prefix, base.outcome, Some(siblings)) &&
                out == [base] + StampAll(siblings, base.time) &&
                sys.relating == Giving(base, StampAll(siblings, base.time)) &&
                Moves(hash, config, old(sys), QueryRelated(Some(siblings)), sys)
    {
      hide Inv, Reachable, ConfigOk, Run, AreSiblings, CanRelate, Keyed, Moves, Asked, Kinded;
      assert HasParties(base.outcome.id) && InRange(base.outcome.id, base.outcome.value) by {
        CanRelateIs(base.outcome);
      }
      var r := related.Next(base);
      ghost var siblings: Option<seq<Outcome>> :| AreSiblings(db.inner, config.prefix, base.outcome, siblings) &&
        r == if siblings.None? then None else Some([base] + StampAll(siblings.value, base.time));
      KeyedRun(hash, config, sys, n, done);
      sys := RelatedQueried(hash, config, sys, n, done, siblings);
      out := r.value;
    }

    /** The loop takes the next of the outcomes that follow. */
    method DeliverRelated(x: StampedOutcome) returns (failed: bool)
      requires Valid() && sys.relating.Giving? && sys.relating.left != [] && x == sys.relating.left[0]
      modifies this`sys, this`done, db`inner
      ensures Valid() && Moves(hash, config, old(sys), ProcessRelated(NoFault), sys)
      ensures sys.events == old(sys.events) && sys.outcomes == old(sys.outcomes)
      ensures sys.relating == Giving(old(sys.relating).base, old(sys.relating).left[1..]) && done >= old(done)
      ensures var outcome := PrefixStamped(x, config.prefix).outcome;
              Acceptable(outcome) && Completes(old(db.inner), db.inner, outcome)
    {
      hide Inv, Reachable, ConfigOk, Run, Acceptable, CompleteSpec, Moves, Completes, Keyed, Prefix, AllOk;
      ghost var s', done';
      s', done' := RelatedDelivered(hash, config, sys, n, done);
      failed := loop.TakeOutcome(config.prefix, x);
      sys, done := s', done';
    }

    /** Once around the loop of the event stream with predicates: the next tick is stored, and a predicate on it for
        every outcome that the filter picks. */
    method NextEventWithPredicates(predicates: PredicateStream)
      requires Valid() && events.pc.AskLatest? && PredicatesOk(config, predicates.kind, predicates.filter)
      modifies this, events`pc, db`inner
      ensures Valid() && events.pc.AskLatest? && n == old(n) + 1 && done == old(done)
      ensures outcomes.pc == old(outcomes.pc) && sys.relating == old(sys.relating)
      ensures var id := TickId(config, TimeOf(config, old(n)));
              Applies(id, predicates.kind, predicates.filter) &&
              forall pred | pred in ApplyPredicate(id, predicates.kind, predicates.filter) ::
                PrefixId(pred, config.prefix) in db.inner
      ensures Announces(old(db.inner), db.inner)
    {
      hide Inv, Reachable, ConfigOk, Mirrors, Moves, TickId, TimeOf, PredicatesOk, Announces,
           ApplyPredicate, OtherOk, Run, IdParser.Valid, ParseKind, StripEvent, Teams, InRange;
      var e := NextTick();
      ghost var t := TimeOf(config, n);
      PredicatesApply(config, t, predicates.kind, predicates.filter);
      var out := predicates.Next(e);
      var failed := Deliver(out[0]);
      ghost var preds := ApplyPredicate(e.id, predicates.kind, predicates.filter);
      for i := 1 to |out|
        invariant Valid() && events.pc.AskLatest? && n == old(n) + 1 && done == old(done)
        invariant outcomes.pc == old(outcomes.pc) && sys.relating == old(sys.relating)
        invariant forall j | 0 <= j < i - 1 :: PrefixId(preds[j], config.prefix) in db.inner
        invariant Announces(old(db.inner), db.inner)
      {
        StoreIs();
        PredicateFits(config, Running(Run(hash, sys.ops)), t, predicates.kind, predicates.filter, i - 1);
        ghost var before := db.inner;
        ghost var op;
        failed, op := DeliverOther(out[i]);
        AnnouncesMore(old(db.inner), before, db.inner);
        StaysStored(before, db.inner);
      }
    }

    /** The loop takes what follows from the outcome of a tick, one after the other: all of it is attested to. */
    method DeliverAll(out: seq<StampedOutcome>)
      requires Valid() && out != [] && sys.relating == Giving(out[0], out[1..])
      modifies this`sys, this`done, db`inner
      ensures Valid() && sys.events == old(sys.events) && sys.outcomes == old(sys.outcomes) && Finished(sys.relating)
      ensures done >= old(done) && Extends(db.inner, old(db.inner))
      ensures forall j | 1 <= j < |out| ::
                PrefixId(out[j].outcome.id, config.prefix) in old(db.inner) ==>
                  IsAttested(db.inner, PrefixId(out[j].outcome.id, config.prefix))
    {
      hide Inv, Reachable, ConfigOk, Mirrors, Moves, Extends, Completes, Run, PrefixId, Acceptable, IsAttested, Keyed;
      ghost var store := db.inner;
      SameExtends(store);
      for i := 1 to |out|
        invariant Valid() && sys.events == old(sys.events) && sys.outcomes == old(sys.outcomes) && done >= old(done)
        invariant sys.relating == Giving(out[0], out[i..])
        invariant Extends(db.inner, store)
        invariant forall j | 1 <= j < i ::
                    PrefixId(out[j].outcome.id, config.prefix) in store ==>
                      IsAttested(db.inner, PrefixId(out[j].outcome.id, config.prefix))
      {
        ghost var before := db.inner;
        var failed := DeliverRelated(out[i]);
        AttestedStays(store, before, db.inner, PrefixStamped(out[i], config.prefix).outcome);
      }
    }

    /** Once around the loop of the outcome stream that completes related events: the next tick is attested to, and so
        is every stored event that its outcome speaks about. */
    method NextOutcomeWithRelated(related: RelatedStream)
      requires Valid() && outcomes.pc.AskEarliest? && Finished(sys.relating) && done < n && config.completes
      requires related.db.inner == db && related.db.prefix == config.prefix
      modifies this, outcomes`pc, db`inner
      ensures Valid() && outcomes.pc.AskEarliest? && Finished(sys.relating)
      ensures n == old(n) && done > old(done) && events.pc == old(events.pc)
      ensures var source := TickId(config, TimeOf(config, old(done)));
              Kinded(source) &&
              (NOutcomes(KindOf(source)) >= 3 ==>
                 forall id | SpeaksOfSibling(old(db.inner), config.prefix, source, id) :: IsAttested(db.inner, id))
      ensures Extends(db.inner, old(db.inner))
    {
      hide Inv, Reachable, ConfigOk, Moves, TickId, TimeOf, Extends, Completes, Run, ParseKind, IdParser.Valid,
           StripEvent, AreSiblings, SpeaksOfSibling, OutcomeString, IsAttested, Acceptable, StampedFor, InRange, Keyed;
      var base := NextStamped();
      var failed := DeliverOutcome(base);
      ghost var store := db.inner;
      CompletesExtends(old(db.inner), store, PrefixStamped(base, config.prefix).outcome);
      var out := AskRelated(related, base);
      ghost var siblings: seq<Outcome> :| AreSiblings(store, config.prefix, base.outcome, Some(siblings)) &&
        out == [base] + StampAll(siblings, base.time);
      assert out[1..] == StampAll(siblings, base.time);
      DeliverAll(out);
      ExtendsMore(db.inner, store, old(db.inner));
      if NOutcomes(KindOf(base.outcome.id)) >= 3 {
        forall id | SpeaksOfSibling(old(db.inner), config.prefix, base.outcome.id, id)
          ensures IsAttested(db.inner, id)
        {
          SpokenIsGiven(config.prefix, old(db.inner), store, base, siblings, id);
          var j :| 0 <= j < |siblings| && PrefixId(siblings[j].id, config.prefix) == id;
          assert out[j + 1].outcome == siblings[j];
        }
      }
    }

    /** Once around both loops: the predicates of the next tick are attested to along with it. */
    method NextRound(predicates: PredicateStream, related: RelatedStream)
      requires Valid() && events.pc.AskLatest? && outcomes.pc.AskEarliest? && Finished(sys.relating) && n == done
      requires PredicatesOk(config, predicates.kind, predicates.filter) && config.completes
      requires related.db.inner == db && related.db.prefix == config.prefix
      modifies this, events`pc, outcomes`pc, db`inner
      ensures Valid() && events.pc.AskLatest? && outcomes.pc.AskEarliest? && Finished(sys.relating)
      ensures n == done == old(n) + 1 && Extends(db.inner, old(db.inner))
      ensures NOutcomes(config.kind) >= 3 ==>
                PredicatesThere(config, predicates.kind, predicates.filter, db.inner, old(n))
    {
      hide Inv, Reachable, ConfigOk, Mirrors, OwnId, TimeOf, PredicatesOk, StripEvent, ParseKind,
           SpeaksOfSibling, Applies, PredicatesThere, Announces, Extends, IsAttested, TickId, Driver.Valid,
           Keyed, ApplyPredicate, PrefixId, KindOf, Kinded;
      KeyedStore();
      NextEventWithPredicates(predicates);
      KeyedStore();
      ghost var store := db.inner;
      ghost var k := done;
      NextOutcomeWithRelated(related);
      KeyedStore();
      AnnouncesExtends(old(db.inner), store);
      ExtendsMore(db.inner, store, old(db.inner));
      PredicatesCome(config, predicates.kind, predicates.filter, store, db.inner, k);
    }

    /** The same with predicates and related outcomes: they do not get into the way of the ticks, and every predicate
        is attested to for what is true of the outcome made up for its tick. */
    method DriveDerived(rounds: nat, predicates: PredicateStream, related: RelatedStream)
      requires Valid() && events.pc.AskLatest? && outcomes.pc.AskEarliest? && n == done == 0 && sys.relating == Idle
      requires PredicatesOk(config, predicates.kind, predicates.filter) && config.completes
      requires related.db.inner == db && related.db.prefix == config.prefix
      modifies this, events`pc, outcomes`pc, db`inner
      ensures Valid() && db.Valid() && events.pc.AskLatest? && outcomes.pc.AskEarliest?
      ensures forall id | id in db.inner && Asked(config, id) :: IsTick(config, id, rounds)
      ensures forall k: nat | k < rounds :: TickAttested(config, db.inner, k)
      ensures AllVerify(db.inner, db.publicKeys)
      ensures NOutcomes(config.kind) >= 3 ==>
                forall k: nat | k < rounds :: PredicatesRight(config, predicates.kind, predicates.filter, db.inner, k)
    {
      hide Inv, Reachable, ConfigOk, Mirrors, TickAttested, Asked, PredicatesOk, AllVerify,
           PredicatesThere, PredicatesRight, Extends, IsTick;
      for i := 0 to rounds
        invariant Valid() && events.pc.AskLatest? && outcomes.pc.AskEarliest? && n == done == i
        invariant Finished(sys.relating)
        invariant NOutcomes(config.kind) >= 3 ==>
                    forall k: nat | k < i ::
                      PredicatesThere(config, predicates.kind, predicates.filter, db.inner, k)
      {
        ghost var before := db.inner;
        NextRound(predicates, related);
        PredicatesStay(config, predicates.kind, predicates.filter, before, db.inner, i);
      }
      StoreIs();
      InvParts(hash, config, sys, n, done);
      AllAttested(config, db.inner, n);
      StoredVerify();
      if NOutcomes(config.kind) >= 3 {
        StoredPredicatesRight(predicates.kind, predicates.filter, rounds);
      }
    }

    lemma StoreIs()
      requires Mirrors()
      ensures AllOk(sys.ops) && Run(hash, sys.ops).store == db.inner
      ensures sys.events == events.pc && sys.outcomes == outcomes.pc && sys.touched == {}
    {
    }

    lemma KeyedStore()
      requires Valid()
      ensures Keyed(db.inner) && ConfigOk(config) && done <= n
    {
      hide Inv, Reachable, ConfigOk, Run, Keyed;
      InvParts(hash, config, sys, n, done);
    }

    /** With one oracle there is nothing to tell apart. */
    lemma StoredVerify()
      requires Valid()
      ensures AllVerify(db.inner, db.publicKeys)
    {
      hide Reachable, ConfigOk, Run, Good, Verifies, ParseOutcome;
      InvParts(hash, config, sys, n, done);
      OneOracleVerifies(hash, Run(hash, sys.ops));
    }

    /** What holds of predicates in every run holds here. */
    lemma StoredPredicatesRight(kind: PredicateKind, filter: OutcomeFilter, rounds: nat)
      requires Valid() && PredicatesOk(config, kind, filter)
      requires forall k: nat | k < rounds :: PredicatesThere(config, kind, filter, db.inner, k)
      ensures forall k: nat | k < rounds :: PredicatesRight(config, kind, filter, db.inner, k)
    {
      hide Inv, Reachable, ConfigOk, Run, PredicatesOk, TickId, TimeOf, Picked, IsPredicable, StoredPredicate,
           IsAttested, CreatorPanics, CreatedValue, PredicatesThere, Kinded;
      forall k: nat, value: u64 | k < rounds && IsPicked(config, kind, filter, TimeOf(config, k), value)
        ensures PredicateRight(config, kind, db.inner, k, value)
      {
        PickedIsThere(config, kind, filter, db.inner, k, value);
        PredicateIsRight(hash, config, sys, TimeOf(config, k), kind, value);
      }
    }
  }

  /** Every attestation in the store verifies under the keys. */
  ghost predicate AllVerify(s: Store, keys: Option<OracleKeys>) {
    forall id | id in s && s[id].attestation.Some? :: Verifies(State(s, keys, []), id)
  }

  lemma OneOracleVerifies(hash: Hash, o: State)
    requires Good(hash, o) && |o.oracles| == 1
    ensures AllVerify(o.store, o.keys)
  {
    hide Good, VerifyOliviaV1, VerifyAgainstId, ParseOutcome;
    forall id | id in o.store && o.store[id].attestation.Some?
      ensures Verifies(State(o.store, o.keys, []), id)
    {
      OneKeyVerifies(hash, o, id);
    }
  }

  lemma StaysStored(s: Store, s': Store)
    requires Announces(s, s')
    ensures forall id | id in s :: id in s'
  {
  }

  lemma AnnouncesMore(s: Store, s': Store, s'': Store)
    requires Announces(s, s') && Announces(s', s'')
    ensures Announces(s, s'')
  {
  }

  lemma AnnouncesExtends(s: Store, s': Store)
    requires Announces(s, s')
    ensures Extends(s', s)
  {
  }

  lemma CanRelateIs(o: Outcome)
    requires CanRelate(o)
    ensures HasParties(o.id) && InRange(o.id, o.value)
  {
  }

  /** The next attestation is there, and so are the earlier ones. */
  lemma AttestedStays(store: Store, before: Store, s: Store, o: Outcome)
    requires Acceptable(o) && Completes(before, s, o) && Extends(before, store)
    ensures o.id in store ==> IsAttested(s, o.id)
    ensures Extends(s, store) && forall i | IsAttested(before, i) :: IsAttested(s, i)
  {
    hide Acceptable, OutcomeString;
  }

  lemma SpokenIsGiven(
    prefix: Path, earlier: Store, store: Store, base: StampedOutcome, siblings: seq<Outcome>, id: EventId)
    requires Keyed(earlier) && Keyed(store) && Extends(store, earlier)
    requires HasParties(base.outcome.id) && InRange(base.outcome.id, base.outcome.value)
    requires AreSiblings(store, prefix, base.outcome, Some(siblings)) && NOutcomes(KindOf(base.outcome.id)) >= 3
    requires SpeaksOfSibling(earlier, prefix, base.outcome.id, id)
    ensures id in store && exists j | 0 <= j < |siblings| :: PrefixId(siblings[j].id, prefix) == id
  {
    hide Keyed, Extends, AreSiblings, InRange, PrefixId, KindOf, ParseKind;
    StillSpeaks(earlier, store, prefix, base.outcome.id, id);
    RelatedCovers(store, prefix, base.outcome, siblings, id);
    SpokenIsStored(store, prefix, base.outcome.id, id);
  }

  lemma SpokenIsStored(s: Store, prefix: Path, source: EventId, id: EventId)
    requires Keyed(s) && Kinded(source) && SpeaksOfSibling(s, prefix, source, id)
    ensures id in s
  {
  }

  // ---------------------------------------------------------------- predicates

  /** The id can be predicated, and the outcomes picked name outcomes of it. */
  predicate Applies(id: EventId, kind: PredicateKind, filter: OutcomeFilter) {
    HasParties(id) && !KindOf(id).Predicated? && Picks(id, kind, filter)
  }

  predicate Picked(id: EventId, filter: OutcomeFilter, value: u64)
    requires Kinded(id)
  {
    match filter
    case All => value < NOutcomes(KindOf(id))
    case Indexes(chosen) => value in chosen
  }

  predicate IsPicked(c: Config, kind: PredicateKind, filter: OutcomeFilter, t: Time, value: u64) {
    Applies(TickId(c, t), kind, filter) && Picked(TickId(c, t), filter, value)
  }

  /** Every outcome picked of every tick can be predicated, and the outcome ticker has a kind configured. */
  ghost predicate PredicatesOk(c: Config, kind: PredicateKind, filter: OutcomeFilter) {
    && c.outcomesKind.Some?
    && (forall t :: Applies(TickId(c, t), kind, filter))
    && (forall t, value: u64 | IsPicked(c, kind, filter, t, value) :: IsPredicable(c, t, kind, value))
  }

  lemma PredicatesApply(c: Config, t: Time, kind: PredicateKind, filter: OutcomeFilter)
    requires PredicatesOk(c, kind, filter)
    ensures Applies(TickId(c, t), kind, filter)
  {
    hide Applies, Picked, IsPredicable, TickId;
  }

  /** The predicates applied are those of the outcomes picked. */
  lemma PickedOne(c: Config, t: Time, kind: PredicateKind, filter: OutcomeFilter, i: nat) returns (value: u64)
    requires PredicatesOk(c, kind, filter) && Applies(TickId(c, t), kind, filter)
    requires i < |ApplyPredicate(TickId(c, t), kind, filter)|
    ensures IsPicked(c, kind, filter, t, value) && IsPredicable(c, t, kind, value)
    ensures ApplyPredicate(TickId(c, t), kind, filter)[i] == PredicateId(TickId(c, t), kind, value)
  {
    hide ParseKind, StripEvent, PredicateId, TickId, Predicable, InRange;
    value := match filter case All => i case Indexes(chosen) => chosen[i];
    assert IsPicked(c, kind, filter, t, value);
  }

  lemma PredicateFits(c: Config, who: nat, t: Time, kind: PredicateKind, filter: OutcomeFilter, i: nat)
    requires ConfigOk(c) && PredicatesOk(c, kind, filter) && Applies(TickId(c, t), kind, filter)
    requires i < |ApplyPredicate(TickId(c, t), kind, filter)|
    ensures var e := Event(ApplyPredicate(TickId(c, t), kind, filter)[i], Some(t));
            IdParser.Valid(PrefixId(e.id, c.prefix)) && OtherOk(c, who, Add(who, PrefixEvent(e, c.prefix)))
  {
    hide ConfigOk, Predicable, TickId, OtherOk, IdParser.Valid, ParseKind, StripEvent, Teams,
         InRange, PredicateId, PredicatesOk;
    var value := PickedOne(c, t, kind, filter, i);
    HasKind(c, kind, filter);
    KindIsNotPredicated(c, t, kind, value);
    PredicateShows(c, t, kind, value);
    PredicatesFitIff(c, who, t, kind, value);
  }

  lemma HasKind(c: Config, kind: PredicateKind, filter: OutcomeFilter)
    requires PredicatesOk(c, kind, filter)
    ensures c.outcomesKind.Some?
  {
    hide Applies, IsPicked, IsPredicable;
  }

  /** Every predicate picked of tick `k` is stored and attested to. */
  ghost predicate PredicatesThere(c: Config, kind: PredicateKind, filter: OutcomeFilter, s: Store, k: nat) {
    var tick := TickId(c, TimeOf(c, k));
    Applies(tick, kind, filter) &&
    forall pred | pred in ApplyPredicate(tick, kind, filter) :: IsAttested(s, PrefixId(pred, c.prefix))
  }

  /** And attested to as true exactly when it is true of the outcome made up for the tick. */
  ghost predicate PredicatesRight(c: Config, kind: PredicateKind, filter: OutcomeFilter, s: Store, k: nat) {
    forall value: u64 | IsPicked(c, kind, filter, TimeOf(c, k), value) :: PredicateRight(c, kind, s, k, value)
  }

  ghost predicate PredicateRight(c: Config, kind: PredicateKind, s: Store, k: nat, value: u64) {
    var tick := TickId(c, TimeOf(c, k));
    IsPredicable(c, TimeOf(c, k), kind, value) && !CreatorPanics(c.creator, tick) &&
    var id := StoredPredicate(c, TimeOf(c, k), kind, value);
    IsAttested(s, id) &&
    s[id].attestation.value.outcome ==
      if IsTrueOf(kind, CreatedValue(c.creator, tick), value) then "true" else "false"
  }

  lemma PredicatesStay(c: Config, kind: PredicateKind, filter: OutcomeFilter, s: Store, s': Store, n: nat)
    requires Extends(s', s)
    ensures forall k: nat | k < n ::
              PredicatesThere(c, kind, filter, s, k) ==> PredicatesThere(c, kind, filter, s', k)
  {
    hide Applies, ApplyPredicate, TickId, TimeOf;
  }

  /** A predicate on a tick is among the events that the outcome of the tick speaks about. */
  lemma PredicateIsSibling(c: Config, s: Store, t: Time, kind: PredicateKind, value: u64)
    requires ConfigOk(c) && IsPredicable(c, t, kind, value) && Keyed(s) && StoredPredicate(c, t, kind, value) in s
    ensures Kinded(TickId(c, t)) && SpeaksOfSibling(s, c.prefix, TickId(c, t), StoredPredicate(c, t, kind, value))
  {
    hide ConfigOk, ParseKind, StripEvent, TickId, Predicable, IdParser.Valid, InRange, Teams, StoredPredicate;
    PredicateShows(c, t, kind, value);
    TickIsValid(c, t);
    OwnPathIs(c, t);
  }

  lemma PredicatesCome(c: Config, kind: PredicateKind, filter: OutcomeFilter, s: Store, s': Store, k: nat)
    requires ConfigOk(c) && PredicatesOk(c, kind, filter) && Keyed(s)
    requires var tick := TickId(c, TimeOf(c, k));
             Applies(tick, kind, filter) &&
             (forall pred | pred in ApplyPredicate(tick, kind, filter) :: PrefixId(pred, c.prefix) in s) &&
             (NOutcomes(KindOf(tick)) >= 3 ==>
                forall id | SpeaksOfSibling(s, c.prefix, tick, id) :: IsAttested(s', id))
    ensures NOutcomes(c.kind) >= 3 ==> PredicatesThere(c, kind, filter, s', k)
  {
    hide ConfigOk, PredicatesOk, ParseKind, StripEvent, TickId, TimeOf, IdParser.Valid, InRange, Teams, Asked,
         SpeaksOfSibling, IsAttested, Predicable;
    var tick := TickId(c, TimeOf(c, k));
    TickIsValid(c, TimeOf(c, k));
    if NOutcomes(c.kind) >= 3 {
      var preds := ApplyPredicate(tick, kind, filter);
      forall pred | pred in preds
        ensures IsAttested(s', PrefixId(pred, c.prefix))
      {
        var i :| 0 <= i < |preds| && preds[i] == pred;
        var value := PickedOne(c, TimeOf(c, k), kind, filter, i);
        PredicateIsSibling(c, s, TimeOf(c, k), kind, value);
      }
    }
  }

  lemma PickedIsThere(c: Config, kind: PredicateKind, filter: OutcomeFilter, s: Store, k: nat, value: u64)
    requires PredicatesOk(c, kind, filter) && PredicatesThere(c, kind, filter, s, k)
    requires IsPicked(c, kind, filter, TimeOf(c, k), value)
    ensures c.outcomesKind.Some? && IsPredicable(c, TimeOf(c, k), kind, value)
    ensures IsAttested(s, StoredPredicate(c, TimeOf(c, k), kind, value))
  {
    hide ParseKind, StripEvent, PredicateId, TickId, TimeOf, Predicable, IsAttested, InRange;
    var tick := TickId(c, TimeOf(c, k));
    assert IsPredicable(c, TimeOf(c, k), kind, value);
    var preds := ApplyPredicate(tick, kind, filter);
    match filter
    case All => assert preds[value] == PredicateId(tick, kind, value);
    case Indexes(chosen) =>
      var i :| 0 <= i < |chosen| && chosen[i] == value;
      assert preds[i] == PredicateId(tick, kind, value);
  }

  // ---------------------------------------------------------------- the moves

  lemma YieldsTick(hash: Hash, c: Config, s: Sys, n: nat, done: nat)
    requires Inv(hash, c, s, n, done) && s.events.Ready?
    ensures s.events.time == TimeOf(c, n)
  {
    hide Run, Good, Progress, TimeOf, RelatingOk, AllSaid;
  }

  lemma StampedIs(hash: Hash, c: Config, s: Sys, n: nat, done: nat)
    requires ConfigOk(c) && Inv(hash, c, s, n, done) && s.outcomes.Stamped?
    ensures var base := s.outcomes.outcome;
            done < n && StampedFor(c, base, done) && base.outcome.id == TickId(c, TimeOf(c, done)) &&
            CanRelate(base.outcome)
  {
    hide ConfigOk, Inv, StampedFor, TickId, TimeOf, CanRelate;
    StampedOf(hash, c, s, n, done);
    StampedIsTick(c, s.outcomes.outcome, done);
    SelfOfTick(c, s.outcomes.outcome, n, done);
    var k := BaseCanRelate(c, s.outcomes.outcome, n, done);
  }

  lemma SelfOfTick(c: Config, base: StampedOutcome, n: nat, done: nat)
    requires done < n && StampedFor(c, base, done)
    ensures OfTick(c, base, n, done)
  {
    hide StampedFor;
  }

  lemma QuietMove(hash: Hash, c: Config, s: Sys, m: Move, n: nat, done: nat) returns (s': Sys)
    requires ConfigOk(c) && Reachable(hash, c, s) && Inv(hash, c, s, n, done) && Quiet(m)
    requires Enabled(hash, c, s, Run(hash, s.ops), m)
    ensures Reachable(hash, c, s') && Inv(hash, c, s', n, done) && Moves(hash, c, s, m, s') && s'.touched == s.touched
    ensures Defined(c, s, Run(hash, s.ops), m) && s' == After(hash, c, s, Run(hash, s.ops), m)
  {
    hide Inv, Reachable, ConfigOk, Run, Enabled, Defined, After, Moves, GoesOn;
    s' := QuietStep(hash, c, s, m, n, done);
    GoneInv(hash, c, s, s', n, done);
    ReachesOn(hash, c, s, m, s');
  }

  lemma EventDelivered(hash: Hash, c: Config, s: Sys, n: nat, done: nat) returns (s': Sys)
    requires ConfigOk(c) && Reachable(hash, c, s) && Inv(hash, c, s, n, done) && s.events.Yielded?
    ensures Reachable(hash, c, s') && Inv(hash, c, s', n + 1, done) && Moves(hash, c, s, ProcessEvent(NoFault), s')
    ensures var e := PrefixEvent(TickEvent(c, s.events.time), c.prefix);
            IdParser.Valid(e.id) &&
            s' == s.(ops := s.ops + [Add(Running(Run(hash, s.ops)), e)], events := AskLatest) &&
            Run(hash, s'.ops) == Step(hash, Run(hash, s.ops), Add(Running(Run(hash, s.ops)), e)).0
  {
    hide ConfigOk, Inv, Reachable, Run, Step, Moves, IdParser.Valid, TickEvent, LeadsTo;
    KeyedRun(hash, c, s, n, done);
    EventReply(hash, c, s, n, done);
    EventMove(hash, c, s, ProcessEvent(NoFault), n, done);
    s' := After(hash, c, s, Run(hash, s.ops), ProcessEvent(NoFault));
    OneMove(hash, c, s, n, done, ProcessEvent(NoFault), s');
    ReachesOn(hash, c, s, ProcessEvent(NoFault), s');
    RunAppend(hash, s.ops, Add(Running(Run(hash, s.ops)), PrefixEvent(TickEvent(c, s.events.time), c.prefix)));
  }

  lemma OutcomeDelivered(hash: Hash, c: Config, s: Sys, n: nat, done: nat) returns (s': Sys)
    requires ConfigOk(c) && Reachable(hash, c, s) && Inv(hash, c, s, n, done) && s.outcomes.Stamped?
    ensures Reachable(hash, c, s') && Inv(hash, c, s', n, done + 1) && Moves(hash, c, s, ProcessOutcome(NoFault), s')
    ensures var out := PrefixStamped(s.outcomes.outcome, c.prefix);
            AllOk(s.ops) && Acceptable(out.outcome) &&
            var o := Run(hash, s.ops);
            o.oracles != [] && s' == AfterOutcome(c, s).(ops := s.ops + [Complete(Running(o), out)]) && AllOk(s'.ops) &&
            var (store, reply) := CompleteSpec(o.oracles[Running(o)], o.store, out);
            reply.Ok? && Run(hash, s'.ops) == o.(store := store) && Completes(o.store, store, out.outcome)
  {
    hide ConfigOk, Inv, Reachable, Run, Step, Moves, Acceptable, StampedFor, LeadsTo, After, Defined, Keyed, Good,
         Progress, CompleteSpec, Completes, Enabled;
    StampedOf(hash, c, s, n, done);
    InvParts(hash, c, s, n, done);
    var o := Run(hash, s.ops);
    var out := PrefixStamped(s.outcomes.outcome, c.prefix);
    OutcomeReply(hash, c, s, n, done);
    CanDeliver(hash, c, s, o);
    OutcomeMove(hash, c, s, ProcessOutcome(NoFault), n, done);
    OutcomeAfter(hash, c, s, o, ProcessOutcome(NoFault));
    s' := After(hash, c, s, o, ProcessOutcome(NoFault));
    OneMove(hash, c, s, n, done, ProcessOutcome(NoFault), s');
    ReachesOn(hash, c, s, ProcessOutcome(NoFault), s');
    CompleteIsOk(Running(o), out);
    RunAppend(hash, s.ops, Complete(Running(o), out));
    StepOfComplete(hash, o, out);
    CompleteAttests(hash, o, out);
  }

  lemma CanDeliver(hash: Hash, c: Config, s: Sys, o: State)
    requires Keyed(o.store) && s.outcomes.Stamped?
    ensures Enabled(hash, c, s, o, ProcessOutcome(NoFault))
  {
    hide Keyed;
  }

  /** What is asked about the outcome that was passed on. */
  lemma RelatedQueried(hash: Hash, c: Config, s: Sys, n: nat, done: nat, siblings: Option<seq<Outcome>>)
    returns (s': Sys)
    requires ConfigOk(c) && Reachable(hash, c, s) && Inv(hash, c, s, n, done) && AllOk(s.ops)
    requires s.relating.Held? && CanRelate(s.relating.base.outcome) && Keyed(Run(hash, s.ops).store)
    requires AreSiblings(Run(hash, s.ops).store, c.prefix, s.relating.base.outcome, siblings)
    ensures siblings.Some? && Moves(hash, c, s, QueryRelated(siblings), s')
    ensures Reachable(hash, c, s') && Inv(hash, c, s', n, done)
    ensures s' == s.(relating := Giving(s.relating.base, StampAll(siblings.value, s.relating.base.time)))
  {
    hide ConfigOk, Inv, Reachable, Run, Moves, AreSiblings, StampAll, CanRelate, Keyed;
    s' := QuietMove(hash, c, s, QueryRelated(siblings), n, done);
  }

  lemma RelatedDelivered(hash: Hash, c: Config, s: Sys, n: nat, done: nat) returns (s': Sys, done': nat)
    requires ConfigOk(c) && Reachable(hash, c, s) && Inv(hash, c, s, n, done)
    requires s.relating.Giving? && s.relating.left != []
    ensures Reachable(hash, c, s') && Inv(hash, c, s', n, done') && done <= done'
    ensures Moves(hash, c, s, ProcessRelated(NoFault), s')
    ensures var out := PrefixStamped(s.relating.left[0], c.prefix);
            AllOk(s.ops) && Acceptable(out.outcome) &&
            var o := Run(hash, s.ops);
            o.oracles != [] && s' == AfterRelated(s).(ops := s.ops + [Complete(Running(o), out)]) && AllOk(s'.ops) &&
            var store := CompleteSpec(o.oracles[Running(o)], o.store, out).0;
            Run(hash, s'.ops) == o.(store := store) && Completes(o.store, store, out.outcome)
  {
    hide ConfigOk, Inv, Reachable, Run, Step, Moves, Acceptable, StampedFor, LeadsTo, After, Defined, Keyed, Good, Said,
         SaidBefore, OtherOk, Kinded, CanRelate, OutcomeString, Progress, CompleteSpec, Completes, Enabled;
    var k := GivenOf(hash, c, s, n, done);
    var o := Run(hash, s.ops);
    InvParts(hash, c, s, n, done);
    var out := PrefixStamped(s.relating.left[0], c.prefix);
    CanGive(hash, c, s, o);
    done' := RelatedMove(hash, c, s, ProcessRelated(NoFault), n, done);
    RelatedAfter(hash, c, s, o, ProcessRelated(NoFault));
    s' := After(hash, c, s, o, ProcessRelated(NoFault));
    OneMove(hash, c, s, n, done, ProcessRelated(NoFault), s');
    ReachesOn(hash, c, s, ProcessRelated(NoFault), s');
    CompleteIsOk(Running(o), out);
    RunAppend(hash, s.ops, Complete(Running(o), out));
    StepOfComplete(hash, o, out);
    CompleteAttests(hash, o, out);
  }

  /** An event of another source is stored, now or before. */
  lemma OtherAdded(hash: Hash, c: Config, s: Sys, n: nat, done: nat, e: Event) returns (s': Sys, op: Op)
    requires ConfigOk(c) && Reachable(hash, c, s) && Inv(hash, c, s, n, done) && AllOk(s.ops) && IdParser.Valid(e.id)
    requires OtherOk(c, Running(Run(hash, s.ops)), Add(Running(Run(hash, s.ops)), e))
    ensures Reachable(hash, c, s') && Inv(hash, c, s', n, done) && Moves(hash, c, s, Other(op), s')
    ensures s' == s.(ops := s.ops + [op])
    ensures var o := Run(hash, s.ops);
            o.oracles != [] && AllOk(s'.ops) &&
            var store := AddSpec(o.oracles[Running(o)], o.store, e).0;
            Run(hash, s'.ops) == o.(store := store) && e.id in store && Announces(o.store, store)
  {
    hide ConfigOk, Inv, Reachable, Run, Step, Moves, OtherOk, AddSpec, Announces, IdParser.Valid,
         Keyed, Good, Progress, OpOk, LeadsTo;
    InvParts(hash, c, s, n, done);
    var o := Run(hash, s.ops);
    op := Add(Running(o), e);
    AddAnnounces(o.oracles[Running(o)], o.store, e);
    StepOfAdd(hash, o, e);
    OtherMove(hash, c, s, Other(op), n, done);
    s' := After(hash, c, s, o, Other(op));
    OneMove(hash, c, s, n, done, Other(op), s');
    ReachesOn(hash, c, s, Other(op), s');
    RunAppend(hash, s.ops, op);
  }

  lemma EarliestLeadsOn(hash: Hash, c: Config, s: Sys, n: nat, done: nat, found: Option<Event>)
    requires ConfigOk(c) && Inv(hash, c, s, n, done)
    requires Keyed(Run(hash, s.ops).store) && IsPrefixedFirst(Run(hash, s.ops).store, c.prefix, EarliestQuery(c), found)
    ensures done <= n
    ensures AfterEarliest(found) ==
            Some(if done == n then AskEarliest else Due(TickId(c, TimeOf(c, done)), TimeOf(c, done)))
  {
    hide ConfigOk, Inv, Run, IsPrefixedFirst, TickId, TimeOf, Progress, Good;
    InvParts(hash, c, s, n, done);
    EarliestIsNext(c, Run(hash, s.ops).store, n, done, found);
  }

  /** What a fresh driver starts from. */
  lemma StartsRight(hash: Hash, c: Config, master: Seed, s: Sys)
    requires ConfigOk(c) && s.ops == [Open(master)] && s.initial == c.initial
    requires s.events == AskLatest && s.outcomes == AskEarliest && s.relating == Idle
    requires s.touched == {} && s.emitted == []
    ensures Reachable(hash, c, s) && Inv(hash, c, s, 0, 0) && AllOk(s.ops)
    ensures Run(hash, s.ops) == State(map[], Some(PublicKeys(NewKeyChain(hash, master))), [NewKeyChain(hash, master)])
  {
    hide NewKeyChain, PublicKeys, Valid, Reachable, Inv, ConfigOk, Moves;
    assert Starts(s);
    StartIsReachable(hash, c, s);
    StartIsInv(hash, c, s);
    assert StartingAt(c, s.initial) == c;
    assert s.ops[..0] == [];
    assert Run(hash, []) == INITIAL;
  }

  // ---------------------------------------------------------------- whole processes

  /** Tick `k` is stored with its time, and attested to for the outcome made up for it, no earlier than it was due. */
  ghost predicate TickAttested(c: Config, s: Store, k: nat) {
    var t := TimeOf(c, k);
    OwnId(c, t) in s && TickRecord(c, t, s[OwnId(c, t)], true)
  }

  lemma AllAttested(c: Config, s: Store, n: nat)
    requires Keyed(s) && Progress(c, s, n, n)
    ensures forall k: nat | k < n :: TickAttested(c, s, k)
    ensures forall id | id in s && Asked(c, id) :: IsTick(c, id, n)
  {
    hide TickRecord, Asked, OwnId, TimeOf, Keyed;
    forall k: nat | k < n
      ensures TickAttested(c, s, k)
    {
      assert TickStored(c, s, k, n);
    }
  }

  /** A process from its start: a fresh store, an oracle from a seed, a ticker, and so many rounds. */
  method RunTicker(
    hash: Hash, master: Seed, config: Config, interval: nat, parseDate: string -> Option<Date>, now: Time, rounds: nat)
    returns (db: InMemory)
    requires ConfigOk(config)
    ensures fresh(db) && db.Valid() && db.publicKeys == Some(PublicKeys(NewKeyChain(hash, master)))
    ensures forall id | id in db.inner && Asked(config, id) :: IsTick(config, id, rounds)
    ensures forall k: nat | k < rounds :: TickAttested(config, db.inner, k)
    ensures AllVerify(db.inner, db.publicKeys)
  {
    hide ConfigOk, TickAttested, Asked, NewKeyChain, PublicKeys, Reachable, Inv, Driver.Valid,
         Driver.Mirrors, IsTick, Keyed, AllVerify;
    db := new InMemory(parseDate);
    var oracle := OpenOracle(hash, master, db);
    var driver := new Driver(hash, config, db, oracle.value, master, interval, now);
    var prefixed := new PrefixedDb(db, config.prefix);
    var related := new RelatedStream(prefixed);
    driver.Drive(rounds, related);
  }

  /** The same with predicates on the ticks and with related outcomes completed. */
  method RunDerived(
    hash: Hash, master: Seed, config: Config, interval: nat, parseDate: string -> Option<Date>, now: Time, rounds: nat,
    kind: PredicateKind, filter: OutcomeFilter)
    returns (db: InMemory)
    requires ConfigOk(config) && config.completes && PredicatesOk(config, kind, filter)
    ensures fresh(db) && db.Valid() && db.publicKeys == Some(PublicKeys(NewKeyChain(hash, master)))
    ensures forall id | id in db.inner && Asked(config, id) :: IsTick(config, id, rounds)
    ensures forall k: nat | k < rounds :: TickAttested(config, db.inner, k)
    ensures AllVerify(db.inner, db.publicKeys)
    ensures NOutcomes(config.kind) >= 3 ==>
              forall k: nat | k < rounds :: PredicatesRight(config, kind, filter, db.inner, k)
  {
    hide ConfigOk, TickAttested, Asked, NewKeyChain, PublicKeys, Reachable, Inv, PredicatesOk,
         Driver.Valid, Driver.Mirrors, IsTick, Keyed, AllVerify, PredicatesRight;
    db := new InMemory(parseDate);
    var oracle := OpenOracle(hash, master, db);
    var driver := new Driver(hash, config, db, oracle.value, master, interval, now);
    var predicates := new PredicateStream(kind, filter);
    var prefixed := new PrefixedDb(db, config.prefix);
    var related := new RelatedStream(prefixed);
    driver.DriveDerived(rounds, predicates, related);
  }

  /** There are such tickers: a price every second, each with the predicate that it is above five. */
  lemma SomeDerivedRun() returns (c: Config, kind: PredicateKind, filter: OutcomeFilter)
    ensures ConfigOk(c) && c.completes && PredicatesOk(c, kind, filter) && NOutcomes(c.kind) >= 3
  {
    hide ConfigOk, TickId, IsPredicable;
    c, kind, filter := PriceTicks(Some(Price(0))), BoundOf(Gt), Indexes([5]);
    PriceTicksAreOk(Some(Price(0)));
    forall t
      ensures Applies(TickId(c, t), kind, filter)
    {
      AppliesToPrices(t);
    }
  }

  lemma AppliesToPrices(t: Time)
    ensures Applies(TickId(PriceTicks(Some(Price(0))), t), BoundOf(Gt), Indexes([5]))
  {
    hide TickId, ParseKind, StripEvent, IdParser.Valid, PriceTicks;
    PriceTickShows(Some(Price(0)), t);
  }
}
