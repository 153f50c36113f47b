/** Runs of oracles over one store, one call after the other, and what every run keeps. */
module OracleRuns {
  import opened Wrappers
  import opened Decimal
  import opened EventKinds
  import opened EventIds
  import opened IdParser
  import opened Outcomes
  import opened Announcements
  import opened Attestations
  import opened KeyChains
  import opened Stores
  import opened Oracles

  /** Opening an oracle from a seed, and calls on the oracles opened so far. `Publish` is the write of an
      opening alone: it publishes the keys without looking whether others have been published since. */
  datatype Op =
    | Open(master: Seed)
    | Publish(master: Seed)
    | Add(who: nat, event: Event)
    | Complete(who: nat, stamped: StampedOutcome)

  datatype Reply =
    | Opened(ok: bool)
    | Added(added: Result<(), EventError>)
    | CompletedAs(completed: Result<(), OutcomeErrorKind>)
    | NoSuchOracle

  datatype State = State(store: Store, keys: Option<OracleKeys>, oracles: seq<KeyChain>)

  predicate OpOk(op: Op) {
    match op
    case Open(_) => true
    case Publish(_) => true
    case Add(_, e) => Valid(e.id)
    case Complete(_, stamped) => Acceptable(stamped.outcome)
  }

  const INITIAL: State := State(map[], None, [])

  /** One oracle more, whose keys are published now. */
  ghost function WithOracle(hash: Hash, s: State, master: Seed): State {
    var kc := NewKeyChain(hash, master);
    s.(keys := Some(PublicKeys(kc)), oracles := s.oracles + [kc])
  }

  ghost function Step(hash: Hash, s: State, op: Op): (State, Reply)
    requires OpOk(op)
  {
    match op
    case Open(master) =>
      if s.keys.Some? && s.keys.value != PublicKeys(NewKeyChain(hash, master)) then (s, Opened(false))
      else (WithOracle(hash, s, master), Opened(true))
    case Publish(master) => (WithOracle(hash, s, master), Opened(true))
    case Add(who, e) =>
      if who >= |s.oracles| then (s, NoSuchOracle)
      else
        var (store, r) := AddSpec(s.oracles[who], s.store, e);
        (s.(store := store), Added(r))
    case Complete(who, stamped) =>
      if who >= |s.oracles| then (s, NoSuchOracle)
      else
        var (store, r) := CompleteSpec(s.oracles[who], s.store, stamped);
        (s.(store := store), CompletedAs(r))
  }

  ghost predicate AllOk(ops: seq<Op>) {
    forall op | op in ops :: OpOk(op)
  }

  ghost function Run(hash: Hash, ops: seq<Op>): State
    requires AllOk(ops)
  {
    if ops == [] then INITIAL else Step(hash, Run(hash, ops[..|ops| - 1]), ops[|ops| - 1]).0
  }

  /** The reply to the last call. */
  ghost function LastReply(hash: Hash, ops: seq<Op>): Reply
    requires AllOk(ops) && ops != []
  {
    Step(hash, Run(hash, ops[..|ops| - 1]), ops[|ops| - 1]).1
  }

  // ---------------------------------------------------------------- what every run keeps

  /** Some pair of the oracles made the record. */
  ghost predicate Made(s: State, id: EventId)
    requires id in s.store && Valid(s.store[id].event.id)
  {
    exists a, b | 0 <= a < |s.oracles| && 0 <= b < |s.oracles| ::
      MadeUnder(s.oracles[a], s.oracles[b], s.store[id])
  }

  /** The published keys are those of some oracle, and there are none before the first is opened. */
  ghost predicate SoundOracles(hash: Hash, s: State) {
    && (s.keys.None? <==> s.oracles == [])
    && (s.keys.Some? ==> exists k | 0 <= k < |s.oracles| :: s.keys == Some(PublicKeys(s.oracles[k])))
    && (forall k | 0 <= k < |s.oracles| :: FromSeed(hash, s.oracles[k]))
  }

  /** The published keys are those of every oracle. */
  ghost predicate OneKey(s: State) {
    forall k | 0 <= k < |s.oracles| :: s.keys == Some(PublicKeys(s.oracles[k]))
  }

  ghost predicate FromSeed(hash: Hash, kc: KeyChain) {
    exists master :: kc == NewKeyChain(hash, master)
  }

  /** What every run keeps. */
  ghost predicate Sound(hash: Hash, s: State) {
    && SoundOracles(hash, s)
    && Keyed(s.store)
    && forall id | id in s.store :: Valid(s.store[id].event.id) && Made(s, id)
  }

  /** What every run of whole calls keeps. */
  ghost predicate Good(hash: Hash, s: State) {
    Sound(hash, s) && OneKey(s)
  }

  lemma MadeBy(s: State, id: EventId, a: nat, b: nat)
    requires id in s.store && Valid(s.store[id].event.id)
    requires a < |s.oracles| && b < |s.oracles| && MadeUnder(s.oracles[a], s.oracles[b], s.store[id])
    ensures Made(s, id)
  {
  }

  /** More oracles still made every record. */
  lemma MadeWithMore(s: State, s': State, id: EventId)
    requires id in s.store && Valid(s.store[id].event.id) && Made(s, id)
    requires s'.store == s.store && s.oracles <= s'.oracles
    ensures Made(s', id)
  {
    hide Valid, MadeUnder;
    var a, b :| 0 <= a < |s.oracles| && 0 <= b < |s.oracles| && MadeUnder(s.oracles[a], s.oracles[b], s.store[id]);
    assert s'.oracles[a] == s.oracles[a] && s'.oracles[b] == s.oracles[b];
    MadeBy(s', id, a, b);
  }

  lemma WithOracleSound(hash: Hash, s: State, master: Seed)
    requires Sound(hash, s)
    ensures Sound(hash, WithOracle(hash, s, master))
    ensures Extends(WithOracle(hash, s, master).store, s.store)
  {
    hide Valid, Made, NewKeyChain, Kinded, PublicKeys, Extends;
    SoundKeyed(hash, s);
    var s' := WithOracle(hash, s, master);
    assert FromSeed(hash, NewKeyChain(hash, master));
    assert s'.keys == Some(PublicKeys(s'.oracles[|s.oracles|]));
    forall id | id in s'.store
      ensures Made(s', id)
    {
      MadeWithMore(s, s', id);
    }
  }

  /** Opening looks at the keys first, so all oracles keep the same. */
  lemma OpenKeeps(hash: Hash, s: State, master: Seed)
    requires Good(hash, s)
    ensures Good(hash, Step(hash, s, Open(master)).0)
    ensures Extends(Step(hash, s, Open(master)).0.store, s.store)
  {
    hide Sound, NewKeyChain, PublicKeys, Extends;
    KeyedIn(hash, s);
    WithOracleSound(hash, s, master);
    NoKeysNoOracles(hash, s);
  }

  lemma NoKeysNoOracles(hash: Hash, s: State)
    requires Sound(hash, s)
    ensures s.keys.None? ==> s.oracles == []
  {
  }

  lemma SameOracles(hash: Hash, s: State, s': State)
    requires SoundOracles(hash, s) && s'.oracles == s.oracles && s'.keys == s.keys
    ensures SoundOracles(hash, s')
  {
  }

  lemma MadeElsewhere(s: State, s': State, id: EventId)
    requires id in s.store && id in s'.store && s'.store[id] == s.store[id] && s'.oracles == s.oracles
    requires Valid(s.store[id].event.id) && Made(s, id)
    ensures Made(s', id)
  {
    hide Valid, MadeUnder;
  }

  /** Writing one record that some oracles made, over none or over the same event, keeps a state sound. */
  lemma WriteKeeps(hash: Hash, s: State, store: Store, id: EventId, a: nat, b: nat)
    requires Sound(hash, s) && Keyed(store) && id in store && store == s.store[id := store[id]]
    requires Valid(id) && a < |s.oracles| && b < |s.oracles| && MadeUnder(s.oracles[a], s.oracles[b], store[id])
    ensures Sound(hash, s.(store := store))
  {
    hide Valid, Made, SoundOracles, Kinded;
    var s' := s.(store := store);
    SameOracles(hash, s, s');
    MadeBy(s', id, a, b);
    forall i | i in store
      ensures Valid(store[i].event.id) && Made(s', i)
    {
      if i != id {
        MadeElsewhere(s, s', i);
      }
    }
  }

  lemma SoundKeyed(hash: Hash, s: State)
    requires Sound(hash, s)
    ensures Keyed(s.store) && Extends(s.store, s.store)
  {
  }

  lemma KeyedIn(hash: Hash, s: State)
    requires Good(hash, s)
    ensures Keyed(s.store) && Extends(s.store, s.store)
  {
    hide Sound;
    SoundKeyed(hash, s);
  }

  lemma AddKeeps(hash: Hash, s: State, who: nat, e: Event)
    requires Sound(hash, s) && Valid(e.id)
    ensures Sound(hash, Step(hash, s, Add(who, e)).0)
    ensures Extends(Step(hash, s, Add(who, e)).0.store, s.store)
  {
    hide Valid, Announce, Kinded, Sound, Extends;
    ValidIsUsable(e.id);
    SoundKeyed(hash, s);
    if who < |s.oracles| && e.id !in s.store {
      var record := AnnouncedEvent(e, Announce(s.oracles[who], e), None);
      assert MadeUnder(s.oracles[who], s.oracles[who], record);
      hide MadeUnder;
      InsertExtends(s.store, record);
      WriteKeeps(hash, s, Inserted(s.store, record).0, e.id, who, who);
    }
  }

  /** What is decided on a record that was announced by `a` and is not attested to: to go ahead exactly when
      the oracle has the announcement key of `a`. */
  ghost predicate DecidesAs(a: KeyChain, b: KeyChain, s: Store, stamped: StampedOutcome)
    requires Acceptable(stamped.outcome)
  {
    DecideComplete(b, s, stamped) ==
      if a.announcement.point == b.announcement.point
      then GoComplete(stamped.outcome.id, Attest(b, stamped, SchemesFor(a, stamped.outcome.id)))
      else StopComplete(AnnouncementWasBogus)
  }

  lemma AnnouncedDecides(a: KeyChain, b: KeyChain, s: Store, stamped: StampedOutcome)
    requires Acceptable(stamped.outcome) && stamped.outcome.id in s
    requires var r := s[stamped.outcome.id];
             r.event.id == stamped.outcome.id && r.attestation.None? && r.announcement == Announce(a, r.event)
    ensures DecidesAs(a, b, s, stamped)
  {
    hide Valid, InRange, Kinded, Attest, SchemesFor;
    var r := s[stamped.outcome.id];
    ValidIsUsable(r.event.id);
    CreatedAnnouncementVerifiesIff(
      r.event, a.announcement, SchemesFor(a, r.event.id), r.event.id, PublicKeys(b).announcement);
    if a.announcement.point == b.announcement.point {
      AnnouncementDecodes(a, r.event, PublicKeys(b).announcement);
    }
  }

  /** On a record that is not attested to, a completion goes ahead exactly when the oracle has the key that the
      record was announced with. */
  lemma CompleteMeets(hash: Hash, s: State, who: nat, stamped: StampedOutcome)
    requires Sound(hash, s) && who < |s.oracles| && Acceptable(stamped.outcome)
    requires stamped.outcome.id in s.store && s.store[stamped.outcome.id].attestation.None?
    ensures exists a | 0 <= a < |s.oracles| ::
              MadeUnder(s.oracles[a], s.oracles[who], s.store[stamped.outcome.id]) &&
              DecidesAs(s.oracles[a], s.oracles[who], s.store, stamped)
  {
    hide Valid, InRange, Kinded, Announce, SoundOracles, DecidesAs;
    var r := s.store[stamped.outcome.id];
    assert Made(s, stamped.outcome.id);
    var a, b :| 0 <= a < |s.oracles| && 0 <= b < |s.oracles| && MadeUnder(s.oracles[a], s.oracles[b], r);
    AnnouncedDecides(s.oracles[a], s.oracles[who], s.store, stamped);
    assert MadeUnder(s.oracles[a], s.oracles[who], r);
  }

  /** With one key for all oracles it always goes ahead. */
  lemma CompleteDecides(hash: Hash, s: State, who: nat, stamped: StampedOutcome)
    requires Good(hash, s) && who < |s.oracles| && Acceptable(stamped.outcome)
    requires stamped.outcome.id in s.store && s.store[stamped.outcome.id].attestation.None?
    ensures exists a | 0 <= a < |s.oracles| ::
              MadeUnder(s.oracles[a], s.oracles[who], s.store[stamped.outcome.id]) &&
              DecideComplete(s.oracles[who], s.store, stamped) ==
                GoComplete(
                  stamped.outcome.id, Attest(s.oracles[who], stamped, SchemesFor(s.oracles[a], stamped.outcome.id)))
  {
    hide Sound, Valid, InRange, Kinded, Attest, SchemesFor, MadeUnder, DecideComplete;
    KeyedIn(hash, s);
    CompleteMeets(hash, s, who, stamped);
    var a :| 0 <= a < |s.oracles| && MadeUnder(s.oracles[a], s.oracles[who], s.store[stamped.outcome.id]) &&
      DecidesAs(s.oracles[a], s.oracles[who], s.store, stamped);
    SameAnnouncementKey(s, a, who);
  }

  lemma SameAnnouncementKey(s: State, j: nat, k: nat)
    requires OneKey(s) && j < |s.oracles| && k < |s.oracles|
    ensures s.oracles[j].announcement.point == s.oracles[k].announcement.point
  {
    assert s.keys == Some(PublicKeys(s.oracles[j])) == Some(PublicKeys(s.oracles[k]));
  }

  lemma AttestedIsMade(a: KeyChain, b: KeyChain, r: AnnouncedEvent, stamped: StampedOutcome)
    requires Valid(r.event.id) && MadeUnder(a, b, r) && Acceptable(stamped.outcome) && stamped.outcome.id == r.event.id
    ensures MadeUnder(a, b, r.(attestation := Some(Attest(b, stamped, SchemesFor(a, r.event.id)))))
  {
    assert StampedOutcome(Outcome(r.event.id, stamped.outcome.value), stamped.time) == stamped;
    assert Attest(b, stamped, SchemesFor(a, r.event.id)) ==
           AttestedTo(a, b, r.event, stamped.outcome.value, stamped.time);
  }

  /** Without a record to attest to, a completion changes nothing. */
  lemma CompleteStops(hash: Hash, s: State, who: nat, stamped: StampedOutcome)
    requires Acceptable(stamped.outcome)
    requires !(who < |s.oracles| && stamped.outcome.id in s.store && s.store[stamped.outcome.id].attestation.None?)
    ensures Step(hash, s, Complete(who, stamped)).0 == s
  {
    hide Valid, InRange, Kinded, Attest, VerifyAgainstId, OutcomeString;
  }

  /** Otherwise it writes the attestation it decided on, and nothing else. */
  lemma CompleteGoes(hash: Hash, s: State, who: nat, stamped: StampedOutcome, a: Attestation)
    requires Keyed(s.store) && who < |s.oracles| && Acceptable(stamped.outcome)
    requires var id := stamped.outcome.id;
             id in s.store && s.store[id].attestation.None? &&
             DecideComplete(s.oracles[who], s.store, stamped) == GoComplete(id, a)
    ensures var id := stamped.outcome.id;
            var store := Completed(s.store, id, a).0;
            Step(hash, s, Complete(who, stamped)) == (s.(store := store), CompletedAs(Ok(()))) &&
            store == s.store[id := s.store[id].(attestation := Some(a))] && Keyed(store) && Extends(store, s.store)
  {
    hide Valid, InRange, Kinded, DecideComplete;
    CompleteExtends(s.store, stamped.outcome.id, a);
  }

  /** A reply without a bogus announcement, when nothing is left to complete. */
  lemma StopIsNotBogus(hash: Hash, s: State, who: nat, stamped: StampedOutcome)
    requires Acceptable(stamped.outcome)
    requires !(who < |s.oracles| && stamped.outcome.id in s.store && s.store[stamped.outcome.id].attestation.None?)
    ensures Step(hash, s, Complete(who, stamped)).1 != CompletedAs(Err(AnnouncementWasBogus))
  {
    hide Valid, InRange, Kinded, Attest, VerifyAgainstId, OutcomeString;
  }

  lemma BogusChangesNothing(hash: Hash, s: State, who: nat, stamped: StampedOutcome)
    requires who < |s.oracles| && Acceptable(stamped.outcome)
    requires DecideComplete(s.oracles[who], s.store, stamped) == StopComplete(AnnouncementWasBogus)
    ensures Step(hash, s, Complete(who, stamped)) == (s, CompletedAs(Err(AnnouncementWasBogus)))
  {
    hide Acceptable, DecideComplete;
  }

  /** Two oracles announce under different keys. */
  ghost predicate AnnouncersDiffer(s: State) {
    exists j, k | 0 <= j < |s.oracles| && 0 <= k < |s.oracles| ::
      s.oracles[j].announcement.point != s.oracles[k].announcement.point
  }

  lemma DifferAt(s: State, j: nat, k: nat)
    requires j < |s.oracles| && k < |s.oracles|
    requires s.oracles[j].announcement.point != s.oracles[k].announcement.point
    ensures AnnouncersDiffer(s)
  {
  }

  /** A completion keeps a state sound, and finds a bogus announcement only among different announcers. */
  lemma CompleteKeeps(hash: Hash, s: State, who: nat, stamped: StampedOutcome)
    requires Sound(hash, s) && Acceptable(stamped.outcome)
    ensures Sound(hash, Step(hash, s, Complete(who, stamped)).0)
    ensures Extends(Step(hash, s, Complete(who, stamped)).0.store, s.store)
    ensures Step(hash, s, Complete(who, stamped)).1 == CompletedAs(Err(AnnouncementWasBogus)) ==> AnnouncersDiffer(s)
  {
    hide Sound, Extends, Valid, InRange, Kinded, MadeUnder, Attest, DecideComplete, SchemesFor,
         Step, Completed, AnnouncersDiffer;
    SoundKeyed(hash, s);
    var id := stamped.outcome.id;
    if who < |s.oracles| && id in s.store && s.store[id].attestation.None? {
      CompleteMeets(hash, s, who, stamped);
      var a :| 0 <= a < |s.oracles| && MadeUnder(s.oracles[a], s.oracles[who], s.store[id]) &&
        DecidesAs(s.oracles[a], s.oracles[who], s.store, stamped);
      if s.oracles[a].announcement.point == s.oracles[who].announcement.point {
        var attestation := Attest(s.oracles[who], stamped, SchemesFor(s.oracles[a], id));
        CompleteGoes(hash, s, who, stamped, attestation);
        AttestedIsMade(s.oracles[a], s.oracles[who], s.store[id], stamped);
        WriteKeeps(hash, s, Completed(s.store, id, attestation).0, id, a, who);
      } else {
        BogusChangesNothing(hash, s, who, stamped);
        DifferAt(s, a, who);
      }
    } else {
      CompleteStops(hash, s, who, stamped);
      StopIsNotBogus(hash, s, who, stamped);
    }
  }

  lemma StepIsSound(hash: Hash, s: State, op: Op)
    requires Sound(hash, s) && OpOk(op)
    ensures Sound(hash, Step(hash, s, op).0)
    ensures Extends(Step(hash, s, op).0.store, s.store)
    ensures Step(hash, s, op).1 == CompletedAs(Err(AnnouncementWasBogus)) ==> AnnouncersDiffer(s)
  {
    hide Sound, WithOracle, Extends, Valid, InRange, AddSpec, CompleteSpec, AnnouncersDiffer,
         PublicKeys, NewKeyChain;
    SoundKeyed(hash, s);
    match op
    case Open(master) => WithOracleSound(hash, s, master);
    case Publish(master) => WithOracleSound(hash, s, master);
    case Add(who, e) => AddKeeps(hash, s, who, e);
    case Complete(who, stamped) => CompleteKeeps(hash, s, who, stamped);
  }

  lemma CallKeepsOracles(hash: Hash, s: State, op: Op)
    requires OpOk(op) && !op.Open? && !op.Publish?
    ensures Step(hash, s, op).0.oracles == s.oracles && Step(hash, s, op).0.keys == s.keys
  {
    hide Valid, InRange, AddSpec, CompleteSpec;
  }

  lemma StepKeeps(hash: Hash, s: State, op: Op)
    requires Good(hash, s) && OpOk(op) && !op.Publish?
    ensures Good(hash, Step(hash, s, op).0)
    ensures Extends(Step(hash, s, op).0.store, s.store)
  {
    hide Sound, Step, Extends, OpOk, PublicKeys;
    StepIsSound(hash, s, op);
    if op.Open? {
      OpenKeeps(hash, s, op.master);
    } else {
      CallKeepsOracles(hash, s, op);
    }
  }

  lemma {:induction false} RunIsSound(hash: Hash, ops: seq<Op>)
    requires AllOk(ops)
    ensures Sound(hash, Run(hash, ops))
  {
    if ops != [] {
      RunIsSound(hash, ops[..|ops| - 1]);
      StepIsSound(hash, Run(hash, ops[..|ops| - 1]), ops[|ops| - 1]);
    }
  }

  /** Every opening is a whole call. */
  ghost predicate AllWhole(ops: seq<Op>) {
    forall op | op in ops :: !op.Publish?
  }

  lemma {:induction false} RunIsGood(hash: Hash, ops: seq<Op>)
    requires AllOk(ops) && AllWhole(ops)
    ensures Good(hash, Run(hash, ops))
  {
    if ops != [] {
      RunIsGood(hash, ops[..|ops| - 1]);
      StepKeeps(hash, Run(hash, ops[..|ops| - 1]), ops[|ops| - 1]);
    }
  }

  /** No run of whole calls, whatever oracles are opened during it, finds an announcement it cannot use. */
  lemma NeverBogus(hash: Hash, ops: seq<Op>)
    requires AllOk(ops) && AllWhole(ops) && ops != []
    ensures LastReply(hash, ops) != CompletedAs(Err(AnnouncementWasBogus))
  {
    var before := Run(hash, ops[..|ops| - 1]);
    RunIsGood(hash, ops[..|ops| - 1]);
    hide Run, Step, Sound, PublicKeys;
    StepIsSound(hash, before, ops[|ops| - 1]);
    OneAnnouncer(before);
  }

  lemma OneAnnouncer(s: State)
    requires OneKey(s)
    ensures !AnnouncersDiffer(s)
  {
    hide OneKey;
    forall j, k | 0 <= j < |s.oracles| && 0 <= k < |s.oracles|
      ensures s.oracles[j].announcement.point == s.oracles[k].announcement.point
    {
      SameAnnouncementKey(s, j, k);
    }
  }

  // ---------------------------------------------------------------- every attestation verifies

  /** Oracles with the same published keys are the same, seed and all. */
  ghost predicate KeysTellApart(s: State) {
    forall j, k | 0 <= j < |s.oracles| && 0 <= k < |s.oracles| ::
      PublicKeys(s.oracles[j]) == PublicKeys(s.oracles[k]) ==> s.oracles[j] == s.oracles[k]
  }

  ghost predicate OpenedFrom(ops: seq<Op>, master: Seed) {
    forall op | op in ops && (op.Open? || op.Publish?) :: op.master == master
  }

  /** Opening every oracle of a run from one seed is enough for that. */
  lemma {:induction false} OneSeedTellsApart(hash: Hash, ops: seq<Op>, master: Seed)
    requires AllOk(ops) && OpenedFrom(ops, master)
    ensures forall k | 0 <= k < |Run(hash, ops).oracles| :: Run(hash, ops).oracles[k] == NewKeyChain(hash, master)
    ensures KeysTellApart(Run(hash, ops))
  {
    hide NewKeyChain, PublicKeys, OpOk, AddSpec, CompleteSpec;
    if ops != [] {
      var before, op := ops[..|ops| - 1], ops[|ops| - 1];
      assert OpOk(op);
      OneSeedTellsApart(hash, before, master);
    }
  }

  /** The stored attestation of `id` verifies against the event decoded from its stored announcement, under the
      published keys. */
  ghost predicate Verifies(s: State, id: EventId)
    requires id in s.store && s.store[id].attestation.Some?
  {
    var a := s.store[id].attestation.value;
    && s.keys.Some?
    && var decoded := VerifyAgainstId(s.store[id].announcement, id, s.keys.value.announcement);
       decoded.Some? && decoded.value.event == s.store[id].event &&
       HasParties(id) && EnoughNonces(id, decoded.value.schemes) &&
       VerifyOliviaV1(a, decoded.value, s.keys.value) == Ok(())
  }

  /** How the record of `id` was made: by the one oracle there is up to its seed, for some value. */
  lemma AttestedBy(hash: Hash, s: State, id: EventId) returns (kc: KeyChain, value: u64, time: Time)
    requires Good(hash, s) && KeysTellApart(s) && id in s.store && s.store[id].attestation.Some?
    ensures var r := s.store[id];
            s.keys == Some(PublicKeys(kc)) && GoodKeys(kc) && Valid(id) && r.event.id == id && InRange(id, value) &&
            r.announcement == Announce(kc, r.event) && r.attestation.value == AttestedTo(kc, kc, r.event, value, time)
  {
    hide Valid, Kinded, InRange, Announce, Attest, SchemesFor, NewKeyChain, GoodKeys;
    assert Made(s, id);
    var i, j :| 0 <= i < |s.oracles| && 0 <= j < |s.oracles| && MadeUnder(s.oracles[i], s.oracles[j], s.store[id]);
    kc := s.oracles[i];
    assert s.oracles[j] == kc;
    SeedKeysAreGood(hash, kc);
    value, time :| InRange(id, value) &&
                   s.store[id].attestation.value == AttestedTo(kc, kc, s.store[id].event, value, time);
  }

  lemma SeedKeysAreGood(hash: Hash, kc: KeyChain)
    requires FromSeed(hash, kc)
    ensures GoodKeys(kc)
  {
  }

  /** When all oracles have the published keys every stored attestation verifies, and names an outcome. */
  lemma OneKeyVerifies(hash: Hash, s: State, id: EventId)
    requires Good(hash, s) && KeysTellApart(s) && id in s.store && s.store[id].attestation.Some?
    ensures Verifies(s, id) && HasParties(id) && ParseOutcome(id, s.store[id].attestation.value.outcome).Ok?
  {
    hide ParseKind, Good, KeysTellApart;
    var kc, value, time := AttestedBy(hash, s, id);
    AnnouncementDecodes(kc, s.store[id].event, kc.announcement.point);
    AttestationVerifies(kc, s.store[id].event, value, time);
  }

  /** In every run of whole calls from an empty store, every stored attestation passes the olivia-v1 verifier
      against the event decoded from its stored announcement, under the published keys. */
  lemma StoredAttestationsVerify(hash: Hash, ops: seq<Op>, id: EventId)
    requires AllOk(ops) && AllWhole(ops) && KeysTellApart(Run(hash, ops))
    requires id in Run(hash, ops).store && Run(hash, ops).store[id].attestation.Some?
    ensures Verifies(Run(hash, ops), id)
    ensures HasParties(id) && ParseOutcome(id, Run(hash, ops).store[id].attestation.value.outcome).Ok?
  {
    hide *;
    RunIsGood(hash, ops);
    OneKeyVerifies(hash, Run(hash, ops), id);
  }
}
