/** Oracles that are opened at the same time. The first opening on a store looks for published keys and
    publishes its own later without looking again, so two openings can both succeed with different keys. */
module Openings {
  import opened Wrappers
  import opened Paths
  import opened EventKinds
  import opened EventIds
  import opened IdParser
  import opened Outcomes
  import opened Secp256k1
  import opened Announcements
  import opened Attestations
  import opened KeyChains
  import opened Stores
  import opened Oracles
  import opened OracleRuns
  import opened Interleavings

  lemma StateIsSound(hash: Hash, moves: seq<Move>)
    requires AllMovesOk(moves)
    ensures Sound(hash, RunMoves(hash, moves).state)
  {
    hide RunMoves, Sound, Linearized, MoveOk;
    Linearizable(hash, moves);
    RunIsSound(hash, Linearized(hash, moves));
  }

  lemma OneMoveMore(hash: Hash, moves: seq<Move>, m: Move)
    requires AllMovesOk(moves) && MoveOk(m)
    ensures AllMovesOk(moves + [m])
    ensures var (s, reply) := Next(hash, RunMoves(hash, moves), m);
            RunMoves(hash, moves + [m]) == s &&
            Replies(hash, moves + [m]) == Replies(hash, moves) + if reply.Some? then [reply.value] else []
  {
    hide MoveOk, Next;
    assert (moves + [m])[..|moves|] == moves;
  }

  // ---------------------------------------------------------------- whose keys are published

  /** The write of an opening that finds the keys of another oracle published since it looked. */
  ghost predicate Overwrites(hash: Hash, s: Shared, m: Move) {
    && m.Write? && m.caller in s.calls && s.calls[m.caller].Opening?
    && s.state.keys.Some? && s.state.keys.value != PublicKeys(NewKeyChain(hash, s.calls[m.caller].master))
  }

  ghost predicate NoOverwrite(hash: Hash, moves: seq<Move>)
    requires AllMovesOk(moves)
  {
    moves == [] ||
    (NoOverwrite(hash, moves[..|moves| - 1]) &&
     !Overwrites(hash, RunMoves(hash, moves[..|moves| - 1]), moves[|moves| - 1]))
  }

  ghost predicate KeepsOracles(s: State, s': State) {
    s'.oracles == s.oracles && s'.keys == s.keys
  }

  ghost predicate Gains(s: State, s': State, kc: KeyChain) {
    s'.oracles == s.oracles + [kc] && s'.keys == Some(PublicKeys(kc))
  }

  /** A move opens no oracle, or writes an opening, or begins one that finds its own keys published. */
  lemma NextOracles(hash: Hash, s: Shared, m: Move)
    requires MoveOk(m)
    ensures var s' := Next(hash, s, m).0.state;
            if m.Write? && m.caller in s.calls && s.calls[m.caller].Opening?
            then Gains(s.state, s', NewKeyChain(hash, s.calls[m.caller].master))
            else
              KeepsOracles(s.state, s') ||
              (m.Begin? && m.op.Open? && s.state.keys == Some(PublicKeys(NewKeyChain(hash, m.op.master))) &&
               Gains(s.state, s', NewKeyChain(hash, m.op.master)))
  {
    hide Valid, InRange, DecideAdd, DecideComplete, WriteAdd, WriteComplete, NewKeyChain;
  }

  lemma GainKeepsOneKeyIff(hash: Hash, s: State, s': State, kc: KeyChain)
    requires Sound(hash, s) && Gains(s, s', kc)
    ensures OneKey(s') <==> OneKey(s) && (s.keys.None? || s.keys == Some(PublicKeys(kc)))
  {
    hide PublicKeys, FromSeed, Made, Keyed;
    assert s'.oracles[|s.oracles|] == kc;
    assert forall k | 0 <= k < |s.oracles| :: s'.oracles[k] == s.oracles[k];
    if s.keys.Some? {
      var p :| 0 <= p < |s.oracles| && s.keys == Some(PublicKeys(s.oracles[p]));
      assert s'.oracles[p] == s.oracles[p];
    }
  }

  /** The published keys are those of every oracle exactly when no opening has overwritten the keys of another. */
  lemma {:induction false} KeysAgreeIff(hash: Hash, moves: seq<Move>)
    requires AllMovesOk(moves)
    ensures OneKey(RunMoves(hash, moves).state) <==> NoOverwrite(hash, moves)
  {
    hide Next, MoveOk, Sound, OneKey, PublicKeys, NewKeyChain;
    if moves == [] {
      NoOracles();
    } else {
      var before, m := moves[..|moves| - 1], moves[|moves| - 1];
      var s, s' := RunMoves(hash, before), RunMoves(hash, moves);
      assert MoveOk(m);
      KeysAgreeIff(hash, before);
      StateIsSound(hash, before);
      NextOracles(hash, s, m);
      if m.Write? && m.caller in s.calls && s.calls[m.caller].Opening? {
        GainKeepsOneKeyIff(hash, s.state, s'.state, NewKeyChain(hash, s.calls[m.caller].master));
      } else if KeepsOracles(s.state, s'.state) {
        SameOneKey(s.state, s'.state);
      } else {
        GainKeepsOneKeyIff(hash, s.state, s'.state, NewKeyChain(hash, m.op.master));
      }
    }
  }

  lemma NoOracles()
    ensures OneKey(INITIAL)
  {
  }

  lemma SameOneKey(s: State, s': State)
    requires KeepsOracles(s, s')
    ensures OneKey(s') <==> OneKey(s)
  {
  }

  // ---------------------------------------------------------------- opening safely

  /** An opening that begins while others are on their way publishes the same keys as they do. */
  ghost predicate BeginsSafely(hash: Hash, s: Shared, m: Move) {
    m.Begin? && m.op.Open? ==>
      forall c | c in s.calls && s.calls[c].Opening? ::
        PublicKeys(NewKeyChain(hash, s.calls[c].master)) == PublicKeys(NewKeyChain(hash, m.op.master))
  }

  /** What whoever starts oracles has to see to: openings that overlap are from seeds with the same keys. */
  ghost predicate OpensSafely(hash: Hash, moves: seq<Move>)
    requires AllMovesOk(moves)
  {
    moves == [] ||
    (OpensSafely(hash, moves[..|moves| - 1]) &&
     BeginsSafely(hash, RunMoves(hash, moves[..|moves| - 1]), moves[|moves| - 1]))
  }

  ghost predicate PendingKeys(hash: Hash, s: Shared, keys: OracleKeys) {
    forall c | c in s.calls && s.calls[c].Opening? :: PublicKeys(NewKeyChain(hash, s.calls[c].master)) == keys
  }

  /** All openings on their way publish the same keys, and the published ones once there are any. */
  ghost predicate PendingAgree(hash: Hash, s: Shared) {
    (exists keys :: PendingKeys(hash, s, keys)) && (s.state.keys.Some? ==> PendingKeys(hash, s, s.state.keys.value))
  }

  lemma PendingStays(hash: Hash, s: Shared, m: Move, keys: OracleKeys)
    requires MoveOk(m) && PendingKeys(hash, s, keys)
    requires m.Begin? && m.op.Open? && s.state.keys.None? ==> PublicKeys(NewKeyChain(hash, m.op.master)) == keys
    ensures PendingKeys(hash, Next(hash, s, m).0, keys)
  {
    hide Valid, InRange, DecideAdd, DecideComplete, WriteAdd, WriteComplete, PublicKeys, NewKeyChain;
  }

  lemma NextAgrees(hash: Hash, s: Shared, m: Move)
    requires MoveOk(m) && PendingAgree(hash, s) && BeginsSafely(hash, s, m)
    ensures PendingAgree(hash, Next(hash, s, m).0) && !Overwrites(hash, s, m)
  {
    hide Next, MoveOk, PublicKeys, NewKeyChain;
    var keys :| PendingKeys(hash, s, keys);
    NextOracles(hash, s, m);
    if m.Begin? && m.op.Open? && s.state.keys.None? {
      PendingStays(hash, s, m, PublicKeys(NewKeyChain(hash, m.op.master)));
    } else {
      PendingStays(hash, s, m, keys);
      if s.state.keys.Some? {
        PendingStays(hash, s, m, s.state.keys.value);
      }
    }
  }

  lemma {:induction false} SafeOpeningsAgree(hash: Hash, moves: seq<Move>)
    requires AllMovesOk(moves) && OpensSafely(hash, moves)
    ensures NoOverwrite(hash, moves) && PendingAgree(hash, RunMoves(hash, moves))
  {
    hide Next, MoveOk, Overwrites, BeginsSafely;
    if moves == [] {
      assert PendingKeys(hash, RunMoves(hash, moves), OracleKeys(None, None, G));
    } else {
      hide PendingAgree;
      var before, m := moves[..|moves| - 1], moves[|moves| - 1];
      assert MoveOk(m);
      SafeOpeningsAgree(hash, before);
      NextAgrees(hash, RunMoves(hash, before), m);
    }
  }

  /** When overlapping openings are from seeds with the same keys, all oracles have the published keys. */
  lemma SafeOpeningsShareKeys(hash: Hash, moves: seq<Move>)
    requires AllMovesOk(moves) && OpensSafely(hash, moves)
    ensures Good(hash, RunMoves(hash, moves).state)
  {
    hide RunMoves, OneKey, Sound, MoveOk, OpensSafely, NoOverwrite, PendingAgree;
    SafeOpeningsAgree(hash, moves);
    KeysAgreeIff(hash, moves);
    StateIsSound(hash, moves);
  }

  // ---------------------------------------------------------------- whole openings

  /** Every opening as the whole call that reads and publishes at once. */
  function AsCalls(ops: seq<Op>): (calls: seq<Op>)
    ensures AllWhole(calls)
  {
    if ops == [] then []
    else
      var last := ops[|ops| - 1];
      AsCalls(ops[..|ops| - 1]) + [if last.Publish? then Open(last.master) else last]
  }

  /** With one key for all oracles a publication is a whole opening. */
  lemma PublishIsOpen(hash: Hash, s: State, master: Seed)
    requires Sound(hash, s) && OneKey(WithOracle(hash, s, master))
    ensures Step(hash, s, Publish(master)) == Step(hash, s, Open(master))
  {
    hide PublicKeys, NewKeyChain, Made, Keyed, FromSeed;
    GainKeepsOneKeyIff(hash, s, WithOracle(hash, s, master), NewKeyChain(hash, master));
  }

  lemma StepKeepsKeysApart(hash: Hash, s: State, op: Op)
    requires Sound(hash, s) && OpOk(op) && OneKey(Step(hash, s, op).0)
    ensures OneKey(s)
  {
    hide PublicKeys, NewKeyChain, Sound, AddSpec, CompleteSpec, OneKey, Acceptable, Valid;
    var s' := Step(hash, s, op).0;
    if op.Open? || op.Publish? {
      if s'.oracles != s.oracles {
        GainKeepsOneKeyIff(hash, s, s', NewKeyChain(hash, op.master));
      } else {
        assert |(s.oracles + [NewKeyChain(hash, op.master)])| != |s.oracles|;
        SameOneKey(s, s');
      }
    } else {
      SameOneKey(s, s');
    }
  }

  /** A run after which all oracles have the published keys is a run of whole calls, with the same replies. */
  lemma {:induction false} WholeCalls(hash: Hash, ops: seq<Op>)
    requires AllOk(ops) && OneKey(Run(hash, ops))
    ensures AllOk(AsCalls(ops)) && Run(hash, AsCalls(ops)) == Run(hash, ops)
    ensures CallReplies(hash, AsCalls(ops)) == CallReplies(hash, ops)
  {
    hide OneKey, Step, OpOk, Sound;
    if ops != [] {
      var before, op := ops[..|ops| - 1], ops[|ops| - 1];
      assert OpOk(op);
      RunIsSound(hash, before);
      StepKeepsKeysApart(hash, Run(hash, before), op);
      WholeCalls(hash, before);
      var call := if op.Publish? then Open(op.master) else op;
      OpeningsAreOk(op);
      RunSnoc(hash, AsCalls(before), call);
      if op.Publish? {
        assert Step(hash, Run(hash, before), op).0 == WithOracle(hash, Run(hash, before), op.master) by {
          PublishIs(hash, Run(hash, before), op.master);
        }
        PublishIsOpen(hash, Run(hash, before), op.master);
      }
      assert before + [op] == ops;
      RunSnoc(hash, before, op);
    }
  }

  lemma OpeningsAreOk(op: Op)
    ensures op.Publish? ==> OpOk(Open(op.master))
  {
  }

  lemma PublishIs(hash: Hash, s: State, master: Seed)
    ensures OpOk(Publish(master)) && Step(hash, s, Publish(master)).0 == WithOracle(hash, s, master)
  {
  }

  /** When overlapping openings are from seeds with the same keys, every interleaving reaches the state of its
      calls made whole one after the other, openings among them. */
  lemma SafelyLinearizable(hash: Hash, moves: seq<Move>)
    requires AllMovesOk(moves) && OpensSafely(hash, moves)
    ensures var calls := AsCalls(Linearized(hash, moves));
            AllWhole(calls) && AllOk(calls) && Run(hash, calls) == RunMoves(hash, moves).state &&
            AllAgree(Replies(hash, moves), CallReplies(hash, calls))
  {
    hide RunMoves, OneKey, Sound, MoveOk, OpensSafely, Linearized, Run, Replies, CallReplies, OpOk;
    Linearizable(hash, moves);
    SafeOpeningsShareKeys(hash, moves);
    WholeCalls(hash, Linearized(hash, moves));
  }

  // ---------------------------------------------------------------- bogus announcements

  lemma {:induction false} CallsFindBogus(hash: Hash, ops: seq<Op>)
    requires AllOk(ops) && CompletedAs(Err(AnnouncementWasBogus)) in CallReplies(hash, ops)
    ensures AnnouncersDiffer(Run(hash, ops))
  {
    hide Step, OpOk, Sound;
    var before, op := ops[..|ops| - 1], ops[|ops| - 1];
    assert OpOk(op);
    RunIsSound(hash, before);
    if LastReply(hash, ops) == CompletedAs(Err(AnnouncementWasBogus)) {
      StepIsSound(hash, Run(hash, before), op);
    } else {
      CallsFindBogus(hash, before);
    }
    StepGrows(hash, Run(hash, before), op);
    DifferWithMore(Run(hash, before), Run(hash, ops));
  }

  lemma DifferWithMore(s: State, s': State)
    requires AnnouncersDiffer(s) && s.oracles <= s'.oracles
    ensures AnnouncersDiffer(s')
  {
    var j, k :| 0 <= j < |s.oracles| && 0 <= k < |s.oracles| &&
                s.oracles[j].announcement.point != s.oracles[k].announcement.point;
    assert s'.oracles[j] == s.oracles[j] && s'.oracles[k] == s.oracles[k];
  }

  /** An announcement is found bogus only when two oracles announce under different keys. */
  lemma BogusTakesTwo(hash: Hash, moves: seq<Move>)
    requires AllMovesOk(moves) && CompletedAs(Err(AnnouncementWasBogus)) in Replies(hash, moves)
    ensures AnnouncersDiffer(RunMoves(hash, moves).state)
  {
    hide RunMoves, MoveOk, Linearized, Run, Replies, CallReplies, OpOk, AnnouncersDiffer;
    Linearizable(hash, moves);
    var i :| 0 <= i < |Replies(hash, moves)| && Replies(hash, moves)[i] == CompletedAs(Err(AnnouncementWasBogus));
    assert Agree(Replies(hash, moves)[i], CallReplies(hash, Linearized(hash, moves))[i]);
    CallsFindBogus(hash, Linearized(hash, moves));
  }

  // ---------------------------------------------------------------- more calls on what is there

  /** Some number is above all of them. */
  lemma {:induction false} AboveAll(ns: set<nat>) returns (n: nat)
    ensures forall k | k in ns :: k < n
    decreases ns
  {
    n := 0;
    if ns != {} {
      var k :| k in ns;
      n := AboveAll(ns - {k});
      assert forall j | j in ns :: j == k || j in ns - {k};
      if n <= k {
        n := k + 1;
      }
    }
  }

  /** There is an event that is not stored yet: an occurrence under a name that is long enough. */
  lemma FreshEvent(s: Store) returns (id: EventId)
    ensures id !in s && Valid(id) && Kinded(id) && KindOf(id) == SingleOccurrence && HasParties(id) && InRange(id, 0)
  {
    hide StripEvent, ParseKind, IsPath, FromStr, WithEvent;
    var lengths := set i | i in s :: |i.text|;
    var n := AboveAll(lengths);
    var word := seq(n + 1, _ => 'x');
    WordPath(word);
    id := FromPathAndKind("/" + word, SingleOccurrence);
    assert ("/" + word)[0] == '/';
    OccurrenceIsValid("/" + word);
    LongText("/" + word, PrintKind(SingleOccurrence));
    assert |id.text| > n && |id.text| !in lengths;
  }

  lemma LongText(path: Path, kindText: string)
    ensures |WithEvent(path, kindText)| > |path|
  {
  }

  /** The event is announced by oracle `j`, by a caller who is not busy. */
  lemma AddFresh(hash: Hash, moves: seq<Move>, j: nat, e: Event) returns (more: seq<Move>)
    requires AllMovesOk(moves)
    requires var s := RunMoves(hash, moves).state; j < |s.oracles| && Valid(e.id) && e.id !in s.store
    ensures AllMovesOk(moves + more)
    ensures var s := RunMoves(hash, moves);
            var r := AnnouncedEvent(e, Announce(s.state.oracles[j], e), None);
            RunMoves(hash, moves + more) == s.(state := s.state.(store := s.state.store[e.id := r]))
  {
    hide RunMoves, Replies, Valid, Announce;
    ValidIsUsable(e.id);
    var s := RunMoves(hash, moves);
    var c := AboveAll(s.calls.Keys);
    OneMoveMore(hash, moves, Begin(c, Add(j, e)));
    OneMoveMore(hash, moves + [Begin(c, Add(j, e))], Write(c));
    more := [Begin(c, Add(j, e)), Write(c)];
    assert moves + more == (moves + [Begin(c, Add(j, e))]) + [Write(c)];
    assert s.calls[c := Adding(Add(j, e), AnnouncedEvent(e, Announce(s.state.oracles[j], e), None))] - {c} == s.calls;
  }

  /** Oracle `k` is asked to complete an event and finds its announcement bogus. */
  lemma TryComplete(hash: Hash, moves: seq<Move>, k: nat, stamped: StampedOutcome) returns (more: seq<Move>)
    requires AllMovesOk(moves)
    requires var s := RunMoves(hash, moves).state;
             k < |s.oracles| && Acceptable(stamped.outcome) &&
             DecideComplete(s.oracles[k], s.store, stamped) == StopComplete(AnnouncementWasBogus)
    ensures AllMovesOk(moves + more) && RunMoves(hash, moves + more) == RunMoves(hash, moves)
    ensures CompletedAs(Err(AnnouncementWasBogus)) in Replies(hash, moves + more)
  {
    hide RunMoves, Replies, Acceptable, DecideComplete;
    var s := RunMoves(hash, moves);
    var c := AboveAll(s.calls.Keys);
    more := [Begin(c, Complete(k, stamped))];
    OneMoveMore(hash, moves, Begin(c, Complete(k, stamped)));
  }

  /** Or completes it. */
  lemma CompleteIt(hash: Hash, moves: seq<Move>, k: nat, stamped: StampedOutcome, a: Attestation)
    returns (more: seq<Move>)
    requires AllMovesOk(moves)
    requires var s := RunMoves(hash, moves).state;
             var id := stamped.outcome.id;
             k < |s.oracles| && Acceptable(stamped.outcome) && id in s.store && s.store[id].attestation.None? &&
             DecideComplete(s.oracles[k], s.store, stamped) == GoComplete(id, a)
    ensures AllMovesOk(moves + more)
    ensures var s := RunMoves(hash, moves);
            var id := stamped.outcome.id;
            RunMoves(hash, moves + more) ==
              s.(state := s.state.(store := s.state.store[id := s.state.store[id].(attestation := Some(a))]))
  {
    hide RunMoves, Replies, Acceptable, DecideComplete;
    var s := RunMoves(hash, moves);
    var c := AboveAll(s.calls.Keys);
    var m := Begin(c, Complete(k, stamped));
    OneMoveMore(hash, moves, m);
    OneMoveMore(hash, moves + [m], Write(c));
    more := [m, Write(c)];
    assert moves + more == (moves + [m]) + [Write(c)];
    assert s.calls[c := Completing(Complete(k, stamped), stamped.outcome.id, a)] - {c} == s.calls;
  }

  /** Whatever has happened: some calls on the oracles there are find an announcement bogus exactly when two of
      these oracles announce under different keys. */
  lemma BogusIff(hash: Hash, moves: seq<Move>)
    requires AllMovesOk(moves)
    ensures AnnouncersDiffer(RunMoves(hash, moves).state) <==>
            exists more :: AllMovesOk(moves + more) && FindsBogus(hash, moves, moves + more)
  {
    hide RunMoves, Replies, MoveOk, AnnouncersDiffer, Valid, Announce, DecideComplete, InRange, Sound;
    if more :| AllMovesOk(moves + more) && FindsBogus(hash, moves, moves + more) {
      BogusTakesTwo(hash, moves + more);
      DifferWithMore(RunMoves(hash, moves + more).state, RunMoves(hash, moves).state);
    }
    if AnnouncersDiffer(RunMoves(hash, moves).state) {
      var more := DifferentFindBogus(hash, moves);
    }
  }

  /** Later a reply was that an announcement was bogus, though no oracle was opened since. */
  ghost predicate FindsBogus(hash: Hash, moves: seq<Move>, later: seq<Move>)
    requires AllMovesOk(moves) && AllMovesOk(later)
  {
    && RunMoves(hash, later).state.oracles == RunMoves(hash, moves).state.oracles
    && CompletedAs(Err(AnnouncementWasBogus)) in Replies(hash, later)
  }

  lemma DifferentFindBogus(hash: Hash, moves: seq<Move>) returns (more: seq<Move>)
    requires AllMovesOk(moves) && AnnouncersDiffer(RunMoves(hash, moves).state)
    ensures AllMovesOk(moves + more) && FindsBogus(hash, moves, moves + more)
  {
    hide RunMoves, Replies, MoveOk, Valid, Announce, DecideComplete, InRange, HasParties;
    var s := RunMoves(hash, moves).state;
    var j, k :| 0 <= j < |s.oracles| && 0 <= k < |s.oracles| &&
                s.oracles[j].announcement.point != s.oracles[k].announcement.point;
    var id := FreshEvent(s.store);
    var e, stamped := Event(id, None), StampedOutcome(Outcome(id, 0), 0);
    var adds := AddFresh(hash, moves, j, e);
    AnnouncedDecides(s.oracles[j], s.oracles[k], RunMoves(hash, moves + adds).state.store, stamped);
    var tries := TryComplete(hash, moves + adds, k, stamped);
    more := adds + tries;
    assert moves + more == (moves + adds) + tries;
  }

  // ---------------------------------------------------------------- attestations under other keys

  predicate SameVerifyingKeys(a: KeyChain, b: KeyChain) {
    a.oliviaV1.point == b.oliviaV1.point && a.announcement.point == b.announcement.point
  }

  /** Oracles that can be told apart by the two keys that verification uses. */
  ghost predicate VerifyingKeysTellApart(s: State) {
    forall j, k | 0 <= j < |s.oracles| && 0 <= k < |s.oracles| && SameVerifyingKeys(s.oracles[j], s.oracles[k]) ::
      s.oracles[j] == s.oracles[k]
  }

  /** One of the two keys of the oracle is not the published one. */
  predicate Stale(kc: KeyChain, keys: OracleKeys) {
    keys.oliviaV1 != Some(kc.oliviaV1.point) || keys.announcement != kc.announcement.point
  }

  /** An occurrence that such an oracle announces and attests to does not verify under the published keys. */
  lemma StaleDoesNotVerify(hash: Hash, s: State, kc: KeyChain, e: Event)
    requires s.keys.Some? && s.keys.value.oliviaV1.Some? && Stale(kc, s.keys.value) && GoodKeys(kc)
    requires e.id in s.store && Valid(e.id) && Kinded(e.id) && KindOf(e.id) == SingleOccurrence && InRange(e.id, 0)
    requires s.store[e.id] == AnnouncedEvent(e, Announce(kc, e), Some(AttestedTo(kc, kc, e, 0, 0)))
    ensures !Verifies(s, e.id)
  {
    hide FromStr, ParseKind;
    var o := Outcome(e.id, 0);
    var keys := s.keys.value;
    CreatedAnnouncementVerifiesIff(e, kc.announcement, SchemesFor(kc, e.id), e.id, keys.announcement);
    if keys.announcement == kc.announcement.point {
      ValidIsUsable(e.id);
      ParseOfOutcomeString(o);
      IndexesMatchNonces(o);
      assert AttestationIndexes(o) == [0];
      RevealsUnderItsKey(kc.oliviaV1.secret, NonceAt(kc, e.id, 0).secret, 0, keys.oliviaV1.value);
    }
  }

  /** Later a stored attestation does not verify, though no oracle was opened since. */
  ghost predicate StoresUnverified(hash: Hash, moves: seq<Move>, later: seq<Move>)
    requires AllMovesOk(moves) && AllMovesOk(later)
  {
    && KeepsOracles(RunMoves(hash, moves).state, RunMoves(hash, later).state)
    && HasUnverified(RunMoves(hash, later).state)
  }

  ghost predicate HasUnverified(s: State) {
    exists id | id in s.store && s.store[id].attestation.Some? :: !Verifies(s, id)
  }

  lemma UnverifiedAt(s: State, id: EventId)
    requires id in s.store && s.store[id].attestation.Some? && !Verifies(s, id)
    ensures HasUnverified(s)
  {
  }

  lemma StaleStoresUnverified(hash: Hash, moves: seq<Move>, k: nat) returns (more: seq<Move>)
    requires AllMovesOk(moves)
    requires var s := RunMoves(hash, moves).state;
             k < |s.oracles| && s.keys.Some? && s.keys.value.oliviaV1.Some? && Stale(s.oracles[k], s.keys.value)
    ensures AllMovesOk(moves + more) && StoresUnverified(hash, moves, moves + more)
  {
    hide RunMoves, MoveOk, Valid, Announce, DecideComplete, InRange, HasParties, Stale, Attest,
         SchemesFor, Verifies, Sound, GoodKeys, HasUnverified;
    var s := RunMoves(hash, moves).state;
    var kc := s.oracles[k];
    OracleIsGood(hash, moves, k);
    var id := FreshEvent(s.store);
    var e, stamped := Event(id, None), StampedOutcome(Outcome(id, 0), 0);
    var adds := AddFresh(hash, moves, k, e);
    AnnouncedDecides(kc, kc, RunMoves(hash, moves + adds).state.store, stamped);
    var a := Attest(kc, stamped, SchemesFor(kc, id));
    var completes := CompleteIt(hash, moves + adds, k, stamped, a);
    more := adds + completes;
    assert moves + more == (moves + adds) + completes;
    StaleDoesNotVerify(hash, RunMoves(hash, moves + more).state, kc, e);
    UnverifiedAt(RunMoves(hash, moves + more).state, id);
  }

  lemma OracleIsGood(hash: Hash, moves: seq<Move>, k: nat)
    requires AllMovesOk(moves) && k < |RunMoves(hash, moves).state.oracles|
    ensures GoodKeys(RunMoves(hash, moves).state.oracles[k])
  {
    hide RunMoves, GoodKeys;
    StateIsSound(hash, moves);
    SeedKeysAreGood(hash, RunMoves(hash, moves).state.oracles[k]);
  }

  /** An oracle whose keys are not the published ones is stale, when keys tell oracles apart. */
  lemma OtherKeysAreStale(hash: Hash, s: State) returns (k: nat)
    requires Sound(hash, s) && VerifyingKeysTellApart(s) && !OneKey(s)
    ensures k < |s.oracles| && s.keys.Some? && s.keys.value.oliviaV1.Some? && Stale(s.oracles[k], s.keys.value)
  {
    hide FromSeed, Made, Keyed, Valid;
    k :| 0 <= k < |s.oracles| && s.keys != Some(PublicKeys(s.oracles[k]));
    var p :| 0 <= p < |s.oracles| && s.keys == Some(PublicKeys(s.oracles[p]));
  }

  lemma TellsApart(s: State)
    requires VerifyingKeysTellApart(s)
    ensures KeysTellApart(s)
  {
  }

  /** Whatever has happened: some calls on the oracles there are leave an attestation that does not verify under
      the published keys exactly when these are not the keys of every oracle. */
  lemma UnverifiedIff(hash: Hash, moves: seq<Move>)
    requires AllMovesOk(moves) && VerifyingKeysTellApart(RunMoves(hash, moves).state)
    ensures !OneKey(RunMoves(hash, moves).state) <==>
            exists more :: AllMovesOk(moves + more) && StoresUnverified(hash, moves, moves + more)
  {
    hide RunMoves, MoveOk, Sound, OneKey, Stale, Verifies, KeysTellApart;
    var s := RunMoves(hash, moves).state;
    StateIsSound(hash, moves);
    if !OneKey(s) {
      var k := OtherKeysAreStale(hash, s);
      var more := StaleStoresUnverified(hash, moves, k);
    } else {
      forall more | AllMovesOk(moves + more)
        ensures !StoresUnverified(hash, moves, moves + more)
      {
        var later := RunMoves(hash, moves + more).state;
        StateIsSound(hash, moves + more);
        if KeepsOracles(s, later) {
          AllVerify(hash, s, later);
        }
      }
    }
  }

  lemma AllVerify(hash: Hash, s: State, later: State)
    requires OneKey(s) && VerifyingKeysTellApart(s) && Sound(hash, later) && KeepsOracles(s, later)
    ensures !HasUnverified(later)
  {
    hide Sound, OneKey, Verifies;
    SameOneKey(s, later);
    TellsApart(later);
    forall id | id in later.store && later.store[id].attestation.Some?
      ensures Verifies(later, id)
    {
      OneKeyVerifies(hash, later, id);
    }
  }

  // ---------------------------------------------------------------- a race

  /** Two openings that both look before either publishes. */
  function Race(a: Seed, b: Seed): seq<Move> {
    [Begin(0, Open(a)), Begin(1, Open(b)), Write(0), Write(1)]
  }

  /** Both succeed, whatever keys they have, and the keys of the second stay published. */
  lemma RaceOpensBoth(hash: Hash, a: Seed, b: Seed)
    ensures AllMovesOk(Race(a, b))
    ensures Replies(hash, Race(a, b)) == [Opened(true), Opened(true)]
    ensures RunMoves(hash, Race(a, b)).state ==
            State(map[], Some(PublicKeys(NewKeyChain(hash, b))), [NewKeyChain(hash, a), NewKeyChain(hash, b)])
  {
    hide RunMoves, Replies, NewKeyChain, PublicKeys;
    NoMoves(hash);
    var m := [Begin(0, Open(a))];
    OneMoveMore(hash, [], Begin(0, Open(a)));
    assert [] + m == m;
    OneMoveMore(hash, m, Begin(1, Open(b)));
    OneMoveMore(hash, m + [Begin(1, Open(b))], Write(0));
    OneMoveMore(hash, m + [Begin(1, Open(b))] + [Write(0)], Write(1));
    assert Race(a, b) == m + [Begin(1, Open(b))] + [Write(0)] + [Write(1)];
  }

  lemma NoMoves(hash: Hash)
    ensures AllMovesOk([]) && RunMoves(hash, []) == Shared(INITIAL, map[]) && Replies(hash, []) == []
  {
  }

  /** A hash and two seeds with different announcement keys. */
  lemma SomeSeedsDiffer() returns (hash: Hash, a: Seed, b: Seed)
    ensures NewKeyChain(hash, a).announcement.point != NewKeyChain(hash, b).announcement.point
  {
    a, b := Master("a"), Master("b");
    hash := (m: Material) =>
      if m.seed == ChildSeed(ChildSeed(Master("a"), "secp256k1"), "announcement-key") then 1 else 2;
    ReduceSmall(1);
    ReduceSmall(2);
  }

  /** So an announcement can be found bogus: two oracles are opened at once, one announces an event, and the other
      is asked to complete it. */
  lemma SomeRunFindsBogus() returns (hash: Hash, moves: seq<Move>)
    ensures AllMovesOk(moves) && CompletedAs(Err(AnnouncementWasBogus)) in Replies(hash, moves)
  {
    hide RunMoves, Replies, NewKeyChain, AllMovesOk;
    var a, b;
    hash, a, b := SomeSeedsDiffer();
    RaceOpensBoth(hash, a, b);
    var s := RunMoves(hash, Race(a, b)).state;
    DifferAt(s, 0, 1);
    var more := DifferentFindBogus(hash, Race(a, b));
    moves := Race(a, b) + more;
  }
}
