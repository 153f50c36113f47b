/** What holds of every interleaved run of oracles over one store. */
module OracleSafety {
  import opened Wrappers
  import opened Decimal
  import opened EventIds
  import opened EventKinds
  import opened IdParser
  import opened Outcomes
  import opened Secp256k1
  import opened Announcements
  import opened KeyChains
  import opened Stores
  import opened Oracles
  import opened OracleRuns
  import opened Interleavings
  import opened Openings

  // ---------------------------------------------------------------- write once

  lemma ExtendsTransitive(a: Store, b: Store, c: Store)
    requires Extends(b, a) && Extends(c, b)
    ensures Extends(c, a)
  {
  }

  /** Once inserted a record and its announcement never change, and an attestation once written stays. */
  lemma {:induction false} RecordsNeverChange(hash: Hash, moves: seq<Move>, more: seq<Move>)
    requires AllMovesOk(moves) && AllMovesOk(moves + more)
    ensures Extends(RunMoves(hash, moves + more).state.store, RunMoves(hash, moves).state.store)
    ensures RunMoves(hash, moves).state.oracles <= RunMoves(hash, moves + more).state.oracles
  {
    hide Next, OpsOf, Sound, Extends, Step, MoveOk, MoveIsCall, PendingOk;
    if more == [] {
      assert moves + more == moves;
      StateIsSound(hash, moves);
      SoundKeyed(hash, RunMoves(hash, moves).state);
    } else {
      var shorter := moves + more[..|more| - 1];
      assert (moves + more)[..|moves + more| - 1] == shorter;
      var m := more[|more| - 1];
      assert m in moves + more;
      RecordsNeverChange(hash, moves, more[..|more| - 1]);
      Linearizable(hash, shorter);
      StateIsSound(hash, shorter);
      MoveKeeps(hash, RunMoves(hash, shorter), m);
      StateGrows(hash, RunMoves(hash, shorter), m);
      ExtendsTransitive(
        RunMoves(hash, moves).state.store,
        RunMoves(hash, shorter).state.store,
        RunMoves(hash, moves + more).state.store);
    }
  }

  // ---------------------------------------------------------------- conservation

  predicate IsOkAdd(r: Reply) {
    r.Added? && r.added.Ok?
  }

  predicate IsOkCompletion(r: Reply) {
    r.CompletedAs? && r.completed.Ok?
  }

  function OkAdds(replies: seq<Reply>): nat {
    if replies == [] then 0
    else OkAdds(replies[..|replies| - 1]) + if IsOkAdd(replies[|replies| - 1]) then 1 else 0
  }

  function OkCompletions(replies: seq<Reply>): nat {
    if replies == [] then 0
    else OkCompletions(replies[..|replies| - 1]) + if IsOkCompletion(replies[|replies| - 1]) then 1 else 0
  }

  function Attested(s: Store): set<EventId> {
    set id | id in s && s[id].attestation.Some?
  }

  /** One call: a successful add stores one event more, a successful completion attests to one more, and nothing
      else does. */
  lemma StepCounts(hash: Hash, s: State, op: Op)
    requires Sound(hash, s) && OpOk(op)
    ensures var (s', reply) := Step(hash, s, op);
            |s'.store| == |s.store| + (if IsOkAdd(reply) then 1 else 0) &&
            |Attested(s'.store)| == |Attested(s.store)| + (if IsOkCompletion(reply) then 1 else 0)
  {
    hide Sound, Valid, InRange, AddSpec, CompleteSpec, PublicKeys, NewKeyChain, Attested;
    match op {
      case Open(_) =>
      case Publish(_) =>
      case Add(who, e) =>
        if who < |s.oracles| {
          AddCounts(s.oracles[who], s.store, e);
        }
      case Complete(who, stamped) =>
        if who < |s.oracles| {
          CompleteCounts(hash, s, who, stamped);
        }
    }
  }

  lemma AddCounts(kc: KeyChain, s: Store, e: Event)
    requires Valid(e.id)
    ensures var (s', r) := AddSpec(kc, s, e);
            |s'| == |s| + (if r.Ok? then 1 else 0) && Attested(s') == Attested(s)
  {
    hide Valid, Announce;
    if e.id !in s {
      var s' := AddSpec(kc, s, e).0;
      assert s'.Keys == s.Keys + {e.id};
      assert Attested(s') == Attested(s);
    }
  }

  lemma CompleteCounts(hash: Hash, s: State, who: nat, stamped: StampedOutcome)
    requires Sound(hash, s) && who < |s.oracles| && Acceptable(stamped.outcome)
    ensures var (s', r) := CompleteSpec(s.oracles[who], s.store, stamped);
            |s'| == |s.store| && |Attested(s')| == |Attested(s.store)| + (if r.Ok? then 1 else 0)
  {
    hide Sound, Valid, InRange, Attest, VerifyAgainstId, OutcomeString;
    var kc := s.oracles[who];
    var d := DecideComplete(kc, s.store, stamped);
    if d.GoComplete? {
      GoesForItsId(hash, s, who, stamped);
      var s' := CompleteSpec(kc, s.store, stamped).0;
      assert s'.Keys == s.store.Keys;
      assert Attested(s') == Attested(s.store) + {d.id};
    }
  }

  lemma {:induction false} CallsCount(hash: Hash, ops: seq<Op>)
    requires AllOk(ops)
    ensures OkAdds(CallReplies(hash, ops)) == |Run(hash, ops).store|
    ensures OkCompletions(CallReplies(hash, ops)) == |Attested(Run(hash, ops).store)|
  {
    hide Step, OpOk, Sound;
    if ops != [] {
      var before := ops[..|ops| - 1];
      assert ops[|ops| - 1] in ops;
      CallsCount(hash, before);
      RunIsSound(hash, before);
      StepCounts(hash, Run(hash, before), ops[|ops| - 1]);
      var replies := CallReplies(hash, ops);
      assert replies[..|replies| - 1] == CallReplies(hash, before);
    }
  }

  lemma {:induction false} AgreeingRepliesCount(a: seq<Reply>, b: seq<Reply>)
    requires AllAgree(a, b)
    ensures OkAdds(a) == OkAdds(b) && OkCompletions(a) == OkCompletions(b)
  {
    if a != [] {
      AgreeingRepliesCount(a[..|a| - 1], b[..|b| - 1]);
      assert Agree(a[|a| - 1], b[|b| - 1]);
    }
  }

  /** In every interleaving the successful adds are as many as the stored events, and the successful
      completions as many as the attested ones. */
  lemma SuccessesAreStored(hash: Hash, moves: seq<Move>)
    requires AllMovesOk(moves)
    ensures OkAdds(Replies(hash, moves)) == |RunMoves(hash, moves).state.store|
    ensures OkCompletions(Replies(hash, moves)) == |Attested(RunMoves(hash, moves).state.store)|
  {
    hide Sound, Step, OpOk, MoveOk, Run, RunMoves, Replies, CallReplies, Linearized;
    Linearizable(hash, moves);
    CallsCount(hash, Linearized(hash, moves));
    AgreeingRepliesCount(Replies(hash, moves), CallReplies(hash, Linearized(hash, moves)));
  }

  // ---------------------------------------------------------------- attestations

  /** When overlapping openings are from seeds with the same keys, every stored attestation of every interleaving
      verifies against its decoded announcement, and names an outcome. */
  lemma InterleavedAttestationsVerify(hash: Hash, moves: seq<Move>, id: EventId)
    requires AllMovesOk(moves) && OpensSafely(hash, moves) && KeysTellApart(RunMoves(hash, moves).state)
    requires id in RunMoves(hash, moves).state.store && RunMoves(hash, moves).state.store[id].attestation.Some?
    ensures Verifies(RunMoves(hash, moves).state, id)
    ensures HasParties(id) && ParseOutcome(id, RunMoves(hash, moves).state.store[id].attestation.value.outcome).Ok?
  {
    hide *;
    SafeOpeningsShareKeys(hash, moves);
    OneKeyVerifies(hash, RunMoves(hash, moves).state, id);
  }

  /** And no announcement is ever found bogus. */
  lemma InterleavedNeverBogus(hash: Hash, moves: seq<Move>)
    requires AllMovesOk(moves) && OpensSafely(hash, moves)
    ensures CompletedAs(Err(AnnouncementWasBogus)) !in Replies(hash, moves)
  {
    hide RunMoves, Replies, OpensSafely, Sound, OneKey, AnnouncersDiffer, AllMovesOk;
    SafeOpeningsShareKeys(hash, moves);
    OneAnnouncer(RunMoves(hash, moves).state);
    if CompletedAs(Err(AnnouncementWasBogus)) in Replies(hash, moves) {
      BogusTakesTwo(hash, moves);
    }
  }

  // ---------------------------------------------------------------- what the stored scalars reveal

  /** The stored scalar at `i` passes the check for index `k` against the announced nonce, under the published key. */
  ghost predicate Reveals(s: State, id: EventId, i: nat, k: nat) {
    && id in s.store && s.store[id].attestation.Some? && s.keys.Some? && s.keys.value.oliviaV1.Some?
    && var announced := s.store[id].announcement.payload.schemes.oliviaV1;
       var stored := s.store[id].attestation.value.schemes.oliviaV1;
       announced.Some? && stored.Some? && i < |announced.value| && i < |stored.value| &&
       VerifyAttestScalar(s.keys.value.oliviaV1.value, announced.value[i], k, stored.value[i])
  }

  /** The outcome that the record of an attested event names. */
  ghost predicate Names(s: State, id: EventId, value: u64) {
    && id in s.store && s.store[id].attestation.Some? && HasParties(id) && InRange(id, value)
    && s.store[id].attestation.value.outcome == OutcomeString(Outcome(id, value))
  }

  /** Of the indexes that a nonce can have, a stored scalar passes the check for one: the digit of the outcome that
      the record names. */
  lemma StoredScalarRevealsIff(hash: Hash, s: State, id: EventId, i: nat, k: nat) returns (value: u64)
    requires Good(hash, s) && KeysTellApart(s) && id in s.store && s.store[id].attestation.Some? && k < 3
    ensures Names(s, id, value)
    ensures Reveals(s, id, i, k) <==>
            i < |AttestationIndexes(Outcome(id, value))| && k == AttestationIndexes(Outcome(id, value))[i]
  {
    hide Good, KeysTellApart, ParseKind, FromStr, AttestationIndexes, GoodKeys, VerifyAttestScalar,
         NonceAt, PrintFor;
    var kc, v, time := AttestedBy(hash, s, id);
    value := v;
    ValidIsUsable(id);
    ScalarsMatchAnnouncedNonces(kc, Outcome(id, v));
    if i < |AttestationIndexes(Outcome(id, v))| {
      ScalarOpensOnlyItsIndex(kc, Outcome(id, v), i, k);
    }
  }

  lemma {:induction false} SafelyEarlier(hash: Hash, moves: seq<Move>, more: seq<Move>)
    requires AllMovesOk(moves) && AllMovesOk(moves + more) && OpensSafely(hash, moves + more)
    ensures OpensSafely(hash, moves)
  {
    hide RunMoves, MoveOk, BeginsSafely;
    if more == [] {
      assert moves + more == moves;
    } else {
      assert (moves + more)[..|moves + more| - 1] == moves + more[..|more| - 1];
      SafelyEarlier(hash, moves, more[..|more| - 1]);
    }
  }

  lemma ToldApartEarlier(s: State, later: State)
    requires KeysTellApart(later) && s.oracles <= later.oracles
    ensures KeysTellApart(s)
  {
    hide PublicKeys;
    assert forall k | 0 <= k < |s.oracles| :: s.oracles[k] == later.oracles[k];
  }

  /** What a nonce is derived from is revealed with one index only: at any two moments of a run, stored scalars
      whose nonces share it are of one event and one digit and pass the check for the same index. */
  lemma NonceRevealsOneIndex(
    hash: Hash, moves: seq<Move>, more: seq<Move>, kc: KeyChain, a: EventId, i: nat, k: nat, b: EventId, j: nat, l: nat)
    requires AllMovesOk(moves) && AllMovesOk(moves + more)
    requires OpensSafely(hash, moves + more) && KeysTellApart(RunMoves(hash, moves + more).state)
    requires NonceMaterial(kc, a, i) == NonceMaterial(kc, b, j) && i < 64 && j < 64 && k < 3 && l < 3
    requires Reveals(RunMoves(hash, moves).state, a, i, k) && Reveals(RunMoves(hash, moves + more).state, b, j, l)
    ensures a == b && i == j && k == l
  {
    hide RunMoves, OpensSafely, KeysTellApart, AllMovesOk, Good, AttestationIndexes,
         VerifyAttestScalar, NonceMaterial, PrintFor, ParseKind, Valid;
    NonceMaterialInjective(kc, a, i, b, j);
    RecordsNeverChange(hash, moves, more);
    SafelyEarlier(hash, moves, more);
    ToldApartEarlier(RunMoves(hash, moves).state, RunMoves(hash, moves + more).state);
    SafeOpeningsShareKeys(hash, moves);
    SafeOpeningsShareKeys(hash, moves + more);
    var v := StoredScalarRevealsIff(hash, RunMoves(hash, moves).state, a, i, k);
    var w := StoredScalarRevealsIff(hash, RunMoves(hash, moves + more).state, a, i, l);
    ValidInRun(hash, moves, a);
    OutcomeStringInjective(a, v, w);
  }

  lemma ValidInRun(hash: Hash, moves: seq<Move>, id: EventId)
    requires AllMovesOk(moves) && id in RunMoves(hash, moves).state.store
    ensures Valid(id) && Usable(id)
  {
    hide MoveOk, RunMoves, Valid, Kinded, SoundOracles;
    StateIsSound(hash, moves);
    ValidIsUsable(id);
  }

  // ---------------------------------------------------------------- completing again

  /** On an attested event of a run a completion reports a changed outcome exactly when its value differs
      from the one attested to, and otherwise that the event is completed. */
  lemma ChangedIffValueDiffers(hash: Hash, moves: seq<Move>, kc: KeyChain, stamped: StampedOutcome)
    requires AllMovesOk(moves) && Acceptable(stamped.outcome)
    requires var s := RunMoves(hash, moves).state.store;
             stamped.outcome.id in s && s[stamped.outcome.id].attestation.Some?
    ensures var s, id := RunMoves(hash, moves).state.store, stamped.outcome.id;
            var was := s[id].attestation.value.outcome;
            exists value: u64 | InRange(id, value) && was == OutcomeString(Outcome(id, value)) ::
              CompleteSpec(kc, s, stamped) ==
                (s, Err(if value == stamped.outcome.value then OutcomeAlreadyCompleted
                        else OutcomeChanged(was, OutcomeString(stamped.outcome))))
  {
    var s, id := RunMoves(hash, moves).state.store, stamped.outcome.id;
    var value := AttestedValue(hash, moves, id);
    hide MoveOk, RunMoves, Valid, InRange, OutcomeString, VerifyAgainstId, Attest;
    ValidIsUsable(id);
    OutcomeStringInjective(id, value, stamped.outcome.value);
    assert Outcome(id, stamped.outcome.value) == stamped.outcome;
  }

  lemma AttestedValue(hash: Hash, moves: seq<Move>, id: EventId) returns (value: u64)
    requires AllMovesOk(moves)
    requires id in RunMoves(hash, moves).state.store && RunMoves(hash, moves).state.store[id].attestation.Some?
    ensures Valid(id) && InRange(id, value)
    ensures RunMoves(hash, moves).state.store[id].attestation.value.outcome == OutcomeString(Outcome(id, value))
  {
    hide MoveOk, RunMoves, Valid, Kinded, InRange, OutcomeString, Announce, SchemesFor, SoundOracles;
    var s := RunMoves(hash, moves).state;
    StateIsSound(hash, moves);
    assert Made(s, id);
    var a, b :| 0 <= a < |s.oracles| && 0 <= b < |s.oracles| && MadeUnder(s.oracles[a], s.oracles[b], s.store[id]);
    var v: u64, time: Time :| InRange(id, v) &&
      s.store[id].attestation.value == AttestedTo(s.oracles[a], s.oracles[b], s.store[id].event, v, time);
    value := v;
  }
}
