/** Calls of any number of callers on one store, interleaved between the read and the write of each
    call. The writes of events and attestations check their slot again, so every interleaving is some sequence
    of whole calls; the write of an opening checks nothing, and is a call of its own in that sequence. */
module Interleavings {
  import opened Wrappers
  import opened EventIds
  import opened IdParser
  import opened Outcomes
  import opened Announcements
  import opened Attestations
  import opened KeyChains
  import opened Stores
  import opened Oracles
  import opened OracleRuns

  /** A caller between its read and its write. */
  datatype Call =
    | Opening(master: Seed)
    | Adding(op: Op, record: AnnouncedEvent)
    | Completing(op: Op, id: EventId, attestation: Attestation)

  datatype Shared = Shared(state: State, calls: map<nat, Call>)

  /** One move: a caller starts an operation and reads, or a caller that went ahead writes. */
  datatype Move = Begin(caller: nat, op: Op) | Write(caller: nat)

  predicate MoveOk(m: Move) {
    m.Begin? ==> OpOk(m.op) && !m.op.Publish?
  }

  ghost predicate AllMovesOk(moves: seq<Move>) {
    forall m | m in moves :: MoveOk(m)
  }

  /** The reply is there once the call is over. */
  ghost function Next(hash: Hash, s: Shared, m: Move): (Shared, Option<Reply>)
    requires MoveOk(m)
  {
    match m
    case Begin(caller, op) => if caller in s.calls then (s, None) else Start(hash, s, caller, op)
    case Write(caller) => if caller !in s.calls then (s, None) else Finish(hash, s, caller, s.calls[caller])
  }

  ghost function Start(hash: Hash, s: Shared, caller: nat, op: Op): (Shared, Option<Reply>)
    requires OpOk(op) && !op.Publish?
  {
    match op
    case Open(master) =>
      var kc := NewKeyChain(hash, master);
      if s.state.keys.None? then (s.(calls := s.calls[caller := Opening(master)]), None)
      else if s.state.keys.value != PublicKeys(kc) then (s, Some(Opened(false)))
      else (s.(state := s.state.(oracles := s.state.oracles + [kc])), Some(Opened(true)))
    case Add(who, e) =>
      if who >= |s.state.oracles| then (s, Some(NoSuchOracle))
      else (
        match DecideAdd(s.state.oracles[who], s.state.store, e)
        case StopAdd(error) => (s, Some(Added(Err(error))))
        case GoAdd(record) => (s.(calls := s.calls[caller := Adding(op, record)]), None)
      )
    case Complete(who, stamped) =>
      if who >= |s.state.oracles| then (s, Some(NoSuchOracle))
      else
        match DecideComplete(s.state.oracles[who], s.state.store, stamped)
        case StopComplete(error) => (s, Some(CompletedAs(Err(error))))
        case GoComplete(id, a) => (s.(calls := s.calls[caller := Completing(op, id, a)]), None)
  }

  /** The write. An opening publishes its keys whatever has been published since it looked. */
  ghost function Finish(hash: Hash, s: Shared, caller: nat, call: Call): (Shared, Option<Reply>) {
    var calls := s.calls - {caller};
    match call
    case Opening(master) => (Shared(WithOracle(hash, s.state, master), calls), Some(Opened(true)))
    case Adding(_, record) =>
      var (store, r) := WriteAdd(s.state.store, record);
      (Shared(s.state.(store := store), calls), Some(Added(r)))
    case Completing(_, id, a) =>
      var (store, r) := WriteComplete(s.state.store, id, a);
      (Shared(s.state.(store := store), calls), Some(CompletedAs(r)))
  }

  ghost function RunMoves(hash: Hash, moves: seq<Move>): Shared
    requires AllMovesOk(moves)
  {
    if moves == [] then Shared(INITIAL, map[])
    else Next(hash, RunMoves(hash, moves[..|moves| - 1]), moves[|moves| - 1]).0
  }

  /** The replies given so far, in the order they were given. */
  ghost function Replies(hash: Hash, moves: seq<Move>): seq<Reply>
    requires AllMovesOk(moves)
  {
    if moves == [] then []
    else
      var before := moves[..|moves| - 1];
      var reply := Next(hash, RunMoves(hash, before), moves[|moves| - 1]).1;
      Replies(hash, before) + if reply.Some? then [reply.value] else []
  }

  /** The whole calls, each at the move that gives its reply. */
  ghost function Linearized(hash: Hash, moves: seq<Move>): seq<Op>
    requires AllMovesOk(moves)
  {
    if moves == [] then []
    else
      var before := moves[..|moves| - 1];
      Linearized(hash, before) + OpsOf(hash, RunMoves(hash, before), moves[|moves| - 1])
  }

  ghost function OpsOf(hash: Hash, s: Shared, m: Move): seq<Op>
    requires MoveOk(m)
  {
    if Next(hash, s, m).1.None? then []
    else
      match m
      case Begin(_, op) => [op]
      case Write(caller) => if caller in s.calls then [WrittenOp(s.calls[caller])] else []
  }

  /** The whole call that a write is. */
  function WrittenOp(call: Call): Op {
    match call
    case Opening(master) => Publish(master)
    case Adding(op, _) => op
    case Completing(op, _, _) => op
  }

  /** Replies of whole calls. */
  ghost function CallReplies(hash: Hash, ops: seq<Op>): seq<Reply>
    requires AllOk(ops)
  {
    if ops == [] then [] else CallReplies(hash, ops[..|ops| - 1]) + [LastReply(hash, ops)]
  }

  /** What a write replies that finds its slot taken: the store reports it, where the whole call would
      have seen it before. */
  function LateReply(r: Reply): Reply {
    match r
    case Added(Err(EventAlreadyExists)) => Added(Err(EventDbWriteErr(EventExists)))
    case Added(Err(EventAlreadyCompleted)) => Added(Err(EventDbWriteErr(EventExists)))
    case CompletedAs(Err(OutcomeAlreadyCompleted)) => CompletedAs(Err(OutcomeDbWriteErr(AlreadyAttested)))
    case CompletedAs(Err(OutcomeChanged(_, _))) => CompletedAs(Err(OutcomeDbWriteErr(AlreadyAttested)))
    case _ => r
  }

  /** A reply is that of the whole call, or what the store makes of it when the slot is taken. */
  predicate Agree(a: Reply, b: Reply) {
    a == b || a == LateReply(b)
  }

  predicate AllAgree(a: seq<Reply>, b: seq<Reply>) {
    |a| == |b| && forall i | 0 <= i < |a| :: Agree(a[i], b[i])
  }

  // ---------------------------------------------------------------- pending calls

  /** What a caller read still decides what it will write: its announcement is the one of its oracle,
      and its attestation is the one it would decide on now, unless someone else has attested since. */
  ghost predicate PendingOk(s: State, call: Call) {
    match call
    case Opening(_) => true
    case Adding(op, record) =>
      && op.Add? && Valid(op.event.id) && op.who < |s.oracles|
      && record == AnnouncedEvent(op.event, Announce(s.oracles[op.who], op.event), None)
    case Completing(op, id, a) =>
      && op.Complete? && Acceptable(op.stamped.outcome) && op.who < |s.oracles| && op.stamped.outcome.id == id
      && id in s.store
      && (s.store[id].attestation.None? ==>
            DecideComplete(s.oracles[op.who], s.store, op.stamped) == GoComplete(id, a))
  }

  ghost predicate AllPendingOk(s: Shared) {
    forall caller | caller in s.calls :: PendingOk(s.state, s.calls[caller])
  }

  /** The decision to complete depends on the record only. */
  lemma DecisionKept(kc: KeyChain, earlier: Store, later: Store, stamped: StampedOutcome)
    requires Acceptable(stamped.outcome)
    requires var id := stamped.outcome.id;
             id in earlier && id in later && earlier[id].attestation == later[id].attestation == None
    requires var id := stamped.outcome.id;
             earlier[id].event == later[id].event && earlier[id].announcement == later[id].announcement
    ensures DecideComplete(kc, earlier, stamped) == DecideComplete(kc, later, stamped)
  {
    hide Valid, InRange, Attest, VerifyAgainstId, OutcomeString;
  }

  /** A pending call stays good while the state grows. */
  lemma PendingKept(earlier: State, later: State, call: Call)
    requires PendingOk(earlier, call)
    requires earlier.oracles <= later.oracles && Extends(later.store, earlier.store)
    ensures PendingOk(later, call)
  {
    hide Valid, InRange, Announce, DecideComplete;
    match call
    case Opening(_) =>
    case Adding(op, _) => assert later.oracles[op.who] == earlier.oracles[op.who];
    case Completing(op, id, a) =>
      assert later.oracles[op.who] == earlier.oracles[op.who];
      if later.store[id].attestation.None? {
        DecisionKept(later.oracles[op.who], earlier.store, later.store, op.stamped);
      }
  }

  lemma StepGrows(hash: Hash, s: State, op: Op)
    requires OpOk(op)
    ensures s.oracles <= Step(hash, s, op).0.oracles
  {
    hide AddSpec, CompleteSpec, PublicKeys, NewKeyChain;
  }

  // ---------------------------------------------------------------- linearization

  /** A move that gives a reply has the effect of its whole call, and one that gives none has no effect. */
  ghost predicate MoveIsCall(hash: Hash, s: Shared, m: Move)
    requires MoveOk(m)
  {
    var (s', reply) := Next(hash, s, m);
    var ops := OpsOf(hash, s, m);
    if reply.None? then ops == [] && s'.state == s.state
    else
      |ops| == 1 && OpOk(ops[0]) &&
      var (state, r) := Step(hash, s.state, ops[0]);
      s'.state == state && reply.value == if m.Begin? then r else LateReply(r)
  }

  lemma BeginIsCall(hash: Hash, s: Shared, caller: nat, op: Op)
    requires OpOk(op) && !op.Publish?
    ensures MoveIsCall(hash, s, Begin(caller, op))
  {
    hide Valid, InRange, PublicKeys, Announce, DecideComplete, WriteAdd, WriteComplete, NewKeyChain;
  }

  lemma WriteIsCall(hash: Hash, s: Shared, caller: nat)
    requires caller in s.calls ==> PendingOk(s.state, s.calls[caller])
    ensures MoveIsCall(hash, s, Write(caller))
  {
    hide Valid, InRange, Announce, AddSpec, CompleteSpec, WriteAdd, WriteComplete, DecideComplete;
    if caller in s.calls {
      match s.calls[caller]
      case Opening(_) =>
      case Adding(op, record) => AddWriteIsCall(s.state.oracles[op.who], s.state.store, op.event, record);
      case Completing(op, id, a) => CompleteWriteIsCall(s.state.oracles[op.who], s.state.store, op.stamped, a);
    }
  }

  lemma AddWriteIsCall(kc: KeyChain, s: Store, e: Event, record: AnnouncedEvent)
    requires Valid(e.id) && record == AnnouncedEvent(e, Announce(kc, e), None)
    ensures WriteAdd(s, record).0 == AddSpec(kc, s, e).0
    ensures Added(WriteAdd(s, record).1) == LateReply(Added(AddSpec(kc, s, e).1))
  {
    hide Valid, Announce;
  }

  lemma CompleteWriteIsCall(kc: KeyChain, s: Store, stamped: StampedOutcome, a: Attestation)
    requires Acceptable(stamped.outcome)
    requires var id := stamped.outcome.id;
             id in s && (s[id].attestation.None? ==> DecideComplete(kc, s, stamped) == GoComplete(id, a))
    ensures WriteComplete(s, stamped.outcome.id, a).0 == CompleteSpec(kc, s, stamped).0
    ensures CompletedAs(WriteComplete(s, stamped.outcome.id, a).1) ==
            LateReply(CompletedAs(CompleteSpec(kc, s, stamped).1))
  {
    hide Valid, InRange, Attest, VerifyAgainstId, OutcomeString;
  }

  lemma {:induction false} RunSnoc(hash: Hash, ops: seq<Op>, op: Op)
    requires AllOk(ops) && OpOk(op)
    ensures AllOk(ops + [op])
    ensures Run(hash, ops + [op]) == Step(hash, Run(hash, ops), op).0
    ensures CallReplies(hash, ops + [op]) == CallReplies(hash, ops) + [Step(hash, Run(hash, ops), op).1]
  {
    hide Step, OpOk;
    assert (ops + [op])[..|ops|] == ops;
  }

  /** A new pending call is good: it was decided on the present state. */
  lemma NewPendingOk(hash: Hash, s: Shared, caller: nat, op: Op)
    requires Sound(hash, s.state) && OpOk(op) && !op.Publish? && caller !in s.calls
    ensures var s' := Start(hash, s, caller, op).0;
            caller in s'.calls ==> PendingOk(s'.state, s'.calls[caller])
  {
    hide Sound, Valid, InRange, Announce, Attest, VerifyAgainstId, OutcomeString, PublicKeys, NewKeyChain;
    if op.Complete? && op.who < |s.state.oracles| {
      GoesForItsId(hash, s.state, op.who, op.stamped);
    }
  }

  lemma GoesForItsId(hash: Hash, s: State, who: nat, stamped: StampedOutcome)
    requires Sound(hash, s) && Acceptable(stamped.outcome) && who < |s.oracles|
    ensures var d := DecideComplete(s.oracles[who], s.store, stamped);
            d.GoComplete? ==> stamped.outcome.id in s.store && d.id == stamped.outcome.id
  {
    hide Valid, InRange, Attest, VerifyAgainstId, OutcomeString, Kinded, Made, SoundOracles;
  }

  lemma CallsOfNext(hash: Hash, s: Shared, m: Move, caller: nat)
    requires MoveOk(m) && caller in Next(hash, s, m).0.calls
    ensures (caller in s.calls && Next(hash, s, m).0.calls[caller] == s.calls[caller]) ||
            (m.Begin? && m.caller == caller && caller !in s.calls && Next(hash, s, m) == Start(hash, s, caller, m.op))
  {
    hide Valid, InRange, Announce, DecideAdd, DecideComplete, WriteAdd, WriteComplete, PublicKeys,
         NewKeyChain, OpOk;
  }

  lemma StateGrows(hash: Hash, s: Shared, m: Move)
    requires Sound(hash, s.state) && MoveOk(m) && MoveIsCall(hash, s, m)
    ensures var s' := Next(hash, s, m).0.state; s.state.oracles <= s'.oracles && Extends(s'.store, s.state.store)
  {
    hide Next, OpsOf, Step, Sound, OpOk;
    var ops := OpsOf(hash, s, m);
    if Next(hash, s, m).1.Some? {
      StepIsSound(hash, s.state, ops[0]);
      StepGrows(hash, s.state, ops[0]);
    } else {
      SoundKeyed(hash, s.state);
    }
  }

  lemma MoveKeeps(hash: Hash, s: Shared, m: Move)
    requires Sound(hash, s.state) && AllPendingOk(s) && MoveOk(m)
    ensures MoveIsCall(hash, s, m)
    ensures AllPendingOk(Next(hash, s, m).0)
  {
    hide Sound, Next, OpsOf, Start, MoveIsCall, PendingOk, OpOk, Extends;
    match m {
      case Begin(caller, op) => BeginIsCall(hash, s, caller, op);
      case Write(caller) => WriteIsCall(hash, s, caller);
    }
    StateGrows(hash, s, m);
    var s' := Next(hash, s, m).0;
    forall caller | caller in s'.calls
      ensures PendingOk(s'.state, s'.calls[caller])
    {
      CallsOfNext(hash, s, m, caller);
      if caller in s.calls {
        PendingKept(s.state, s'.state, s.calls[caller]);
      } else {
        NewPendingOk(hash, s, caller, m.op);
      }
    }
  }

  /** Every interleaving reaches the state that its calls reach one after the other, each call taken
      whole at the move that gives its reply, and every reply is that of its call or what the store makes of it
      when the slot was taken in between. */
  lemma {:induction false} Linearizable(hash: Hash, moves: seq<Move>)
    requires AllMovesOk(moves)
    ensures AllOk(Linearized(hash, moves))
    ensures RunMoves(hash, moves).state == Run(hash, Linearized(hash, moves))
    ensures AllAgree(Replies(hash, moves), CallReplies(hash, Linearized(hash, moves)))
    ensures AllPendingOk(RunMoves(hash, moves))
  {
    hide Next, OpsOf, PendingOk, Sound, Step, OpOk, Run, CallReplies, MoveOk;
    if moves == [] {
      NoCalls(hash);
    } else {
      var before := moves[..|moves| - 1];
      var m := moves[|moves| - 1];
      assert MoveOk(m) && AllMovesOk(before);
      Linearizable(hash, before);
      var s, ops := RunMoves(hash, before), Linearized(hash, before);
      RunIsSound(hash, ops);
      MoveKeeps(hash, s, m);
      if Next(hash, s, m).1.Some? {
        var op := OpsOf(hash, s, m)[0];
        RunSnoc(hash, ops, op);
        assert OpsOf(hash, s, m) == [op];
      } else {
        assert Linearized(hash, moves) == ops;
        assert Replies(hash, moves) == Replies(hash, before);
      }
    }
  }

  lemma NoCalls(hash: Hash)
    ensures Run(hash, []) == INITIAL && CallReplies(hash, []) == []
  {
  }
}
