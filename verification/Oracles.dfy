/** The oracle: announcing events and attesting to their outcomes against a store. Every call is
    a read that decides, and, when it decides to go ahead, one write that checks its slot again. */
module Oracles {
  import opened Wrappers
  import opened Decimal
  import opened EventKinds
  import opened Digits
  import opened EventIds
  import opened IdParser
  import opened Outcomes
  import opened Secp256k1
  import opened Announcements
  import opened Attestations
  import opened KeyChains
  import opened Stores

  datatype EventError = EventAlreadyExists | EventAlreadyCompleted | EventDbWriteErr(error: DbError)

  datatype OutcomeErrorKind =
    | OutcomeAlreadyCompleted
    | OutcomeChanged(existing: string, new_: string)
    | EventNotExist
    | OutcomeDbWriteErr(error: DbError)
    | AnnouncementWasBogus

  datatype AddDecision = StopAdd(error: EventError) | GoAdd(record: AnnouncedEvent)

  datatype CompleteDecision = StopComplete(error: OutcomeErrorKind) | GoComplete(id: EventId, attestation: Attestation)

  /** An outcome the oracle is given: a valid id and a value that can be printed. */
  predicate Acceptable(o: Outcome) {
    Valid(o.id) && InRange(o.id, o.value)
  }

  // ---------------------------------------------------------------- deciding on what was read

  function DecideAdd(kc: KeyChain, s: Store, e: Event): AddDecision
    requires Valid(e.id)
  {
    if e.id in s then StopAdd(if s[e.id].attestation.Some? then EventAlreadyCompleted else EventAlreadyExists)
    else GoAdd(AnnouncedEvent(e, Announce(kc, e), None))
  }

  /** The schemes attested to are those that were announced. */
  function Attest(kc: KeyChain, stamped: StampedOutcome, announced: AnnouncementSchemes): Attestation
    requires Acceptable(stamped.outcome)
  {
    NewAttestation(
      OutcomeString(stamped.outcome),
      stamped.time,
      AttestationSchemes(
        if announced.oliviaV1.Some? then Some(ScalarsForOutcome(kc, stamped.outcome)) else None,
        if announced.ecdsaV1.Some? then Some(EcdsaSignOutcome(kc, stamped.outcome)) else None))
  }

  function DecideComplete(kc: KeyChain, s: Store, stamped: StampedOutcome): CompleteDecision
    requires Acceptable(stamped.outcome)
  {
    var id := stamped.outcome.id;
    var text := OutcomeString(stamped.outcome);
    if id !in s then StopComplete(EventNotExist)
    else if s[id].attestation.Some? then
      var existing := s[id].attestation.value.outcome;
      StopComplete(if existing == text then OutcomeAlreadyCompleted else OutcomeChanged(existing, text))
    else
      match VerifyAgainstId(s[id].announcement, id, PublicKeys(kc).announcement)
      case None => StopComplete(AnnouncementWasBogus)
      case Some(oracleEvent) => GoComplete(s[id].event.id, Attest(kc, stamped, oracleEvent.schemes))
  }

  // ---------------------------------------------------------------- whole calls

  function AddSpec(kc: KeyChain, s: Store, e: Event): (Store, Result<(), EventError>)
    requires Valid(e.id)
  {
    match DecideAdd(kc, s, e)
    case StopAdd(error) => (s, Err(error))
    case GoAdd(record) => WriteAdd(s, record)
  }

  function WriteAdd(s: Store, record: AnnouncedEvent): (Store, Result<(), EventError>) {
    var (s', written) := Inserted(s, record);
    (s', AddReply(written))
  }

  function AddReply(written: Result<(), DbError>): Result<(), EventError> {
    match written
    case Ok(_) => Ok(())
    case Err(error) => Err(EventDbWriteErr(error))
  }

  function CompleteSpec(kc: KeyChain, s: Store, stamped: StampedOutcome): (Store, Result<(), OutcomeErrorKind>)
    requires Acceptable(stamped.outcome)
  {
    match DecideComplete(kc, s, stamped)
    case StopComplete(error) => (s, Err(error))
    case GoComplete(id, attestation) => WriteComplete(s, id, attestation)
  }

  function WriteComplete(s: Store, id: EventId, a: Attestation): (Store, Result<(), OutcomeErrorKind>) {
    var (s', written) := Completed(s, id, a);
    (s', CompleteReply(written))
  }

  function CompleteReply(written: Result<(), DbError>): Result<(), OutcomeErrorKind> {
    match written
    case Ok(_) => Ok(())
    case Err(error) => Err(OutcomeDbWriteErr(error))
  }

  // ---------------------------------------------------------------- what a store holds

  /** The record was announced under `a`, and its attestation, if any, was made under `b`. */
  ghost predicate MadeUnder(a: KeyChain, b: KeyChain, r: AnnouncedEvent)
    requires Valid(r.event.id)
  {
    && r.announcement == Announce(a, r.event)
    && (r.attestation.Some? ==>
          exists value: u64, time: Time | InRange(r.event.id, value) ::
            r.attestation.value == AttestedTo(a, b, r.event, value, time))
  }

  function AttestedTo(a: KeyChain, b: KeyChain, e: Event, value: u64, time: Time): Attestation
    requires Valid(e.id) && InRange(e.id, value)
  {
    Attest(b, StampedOutcome(Outcome(e.id, value), time), SchemesFor(a, e.id))
  }

  /** An announcement made by a chain decodes, under the announcement key of any chain with the same one. */
  lemma AnnouncementDecodes(kc: KeyChain, e: Event, key: Point)
    requires Valid(e.id) && key == kc.announcement.point
    ensures VerifyAgainstId(Announce(kc, e), e.id, key) == Some(OracleEvent(e, SchemesFor(kc, e.id)))
  {
    CreatedAnnouncementVerifiesIff(e, kc.announcement, SchemesFor(kc, e.id), e.id, key);
  }

  /** An attestation made by the chain that announced passes the verifier, and says which value it is for. */
  lemma AttestationVerifies(kc: KeyChain, e: Event, value: u64, time: Time)
    requires GoodKeys(kc) && Valid(e.id) && InRange(e.id, value)
    ensures var oe := OracleEvent(e, SchemesFor(kc, e.id));
            var a := AttestedTo(kc, kc, e, value, time);
            EnoughNonces(e.id, oe.schemes) &&
            VerifyOliviaV1(a, oe, PublicKeys(kc)) == Ok(()) &&
            ParseOutcome(e.id, a.outcome) == Ok(Outcome(e.id, value))
  {
    ParseOfOutcomeString(Outcome(e.id, value));
    ScalarsMatchAnnouncedNonces(kc, Outcome(e.id, value));
  }

  /** The same value, up to the cap of the width of a price. */
  predicate SameUpToCap(id: EventId, v: u64, w: u64)
    requires Kinded(id)
  {
    if KindOf(id).Price? then
      KindIsCanonical(id);
      Min(v, Pow2(KindOf(id).n_digits) - 1) == Min(w, Pow2(KindOf(id).n_digits) - 1)
    else v == w
  }

  /** Presented with another outcome of its event, an attestation passes the verifier exactly when the outcome is
      the one it was made for, up to the cap of a price. */
  lemma AttestationIsForItsValue(kc: KeyChain, e: Event, value: u64, time: Time, w: u64)
    requires GoodKeys(kc) && Valid(e.id) && InRange(e.id, value) && InRange(e.id, w)
    ensures var oe := OracleEvent(e, SchemesFor(kc, e.id));
            var a := AttestedTo(kc, kc, e, value, time).(outcome := OutcomeString(Outcome(e.id, w)));
            EnoughNonces(e.id, oe.schemes) &&
            (VerifyOliviaV1(a, oe, PublicKeys(kc)) == Ok(()) <==> SameUpToCap(e.id, value, w))
  {
    hide FromStr, ParseKind, CappedBits, Pow2, Min, ScalarsForOutcome, ScalarsVerify, PrintFor, ParseFor;
    var o := Outcome(e.id, value);
    ValidIsUsable(e.id);
    ParseOfOutcomeString(Outcome(e.id, w));
    ScalarsMatchAnnouncedNonces(kc, o);
    IndexesDetermineValue(e.id, value, w);
    IndexesMatchNonces(o);
    IndexesMatchNonces(Outcome(e.id, w));
    if SchemesFor(kc, e.id).oliviaV1.Some? {
      ScalarsOpenOnlyTheirIndexes(kc, o, w);
    }
  }

  // ---------------------------------------------------------------- replies

  /** Adding is refused exactly when there is a record already, attested to or not, and then nothing changes. Otherwise
      the one new record is of the event, without an attestation, and its announcement is signed by the oracle and
      commits to one nonce for every digit. */
  lemma AddRepliesIff(kc: KeyChain, s: Store, e: Event)
    requires Valid(e.id)
    ensures var (s', r) := AddSpec(kc, s, e);
            && (r == Ok(()) <==> e.id !in s)
            && (r == Err(EventAlreadyExists) <==> e.id in s && s[e.id].attestation.None?)
            && (r == Err(EventAlreadyCompleted) <==> e.id in s && s[e.id].attestation.Some?)
            && (r.Err? ==> s' == s)
            && (r.Ok? ==> e.id in s' && s' == s[e.id := s'[e.id]] && IsNewRecord(kc, e, s'[e.id]))
  {
    hide FromStr, VerifyAgainstId, Announce, SchemesFor, NNonces;
    ValidIsUsable(e.id);
    AnnouncementDecodes(kc, e, kc.announcement.point);
    SchemesAreWhole(kc, e.id);
  }

  /** What an oracle stores when it adds an event. */
  ghost predicate IsNewRecord(kc: KeyChain, e: Event, r: AnnouncedEvent)
    requires Kinded(e.id)
  {
    && r.event == e && r.attestation.None?
    && exists schemes ::
         VerifyAgainstId(r.announcement, e.id, PublicKeys(kc).announcement) == Some(OracleEvent(e, schemes)) &&
         Commits(e.id, schemes)
  }

  /** One nonce for every digit, none for a price without digits, and signatures in any case. */
  predicate Commits(id: EventId, schemes: AnnouncementSchemes)
    requires Kinded(id)
  {
    schemes.ecdsaV1.Some? &&
    (if KindOf(id) == Price(0) then schemes.oliviaV1.None?
     else schemes.oliviaV1.Some? && |schemes.oliviaV1.value| == NNonces(KindOf(id)))
  }

  lemma SchemesAreWhole(kc: KeyChain, id: EventId)
    requires Kinded(id)
    ensures Commits(id, SchemesFor(kc, id))
  {
    hide ParseKind, NonceAt;
  }

  /** The record was announced by whoever has the announcement key of the chain, and for this id. */
  ghost predicate OwnAnnouncement(kc: KeyChain, id: EventId, a: RawAnnouncement, e: OracleEvent) {
    e.event.id == id && Valid(id) && EnoughNonces(id, e.schemes) &&
    a == CreateAnnouncement(e.event, kc.announcement, e.schemes)
  }

  /** An attestation by the chain to that outcome, dated to the second, with the schemes that were announced. */
  ghost predicate IsNewAttestation(kc: KeyChain, stamped: StampedOutcome, schemes: AnnouncementSchemes, a: Attestation)
    requires Acceptable(stamped.outcome)
  {
    && a.outcome == OutcomeString(stamped.outcome)
    && a.time % SECOND == 0 && a.time <= stamped.time < a.time + SECOND
    && (a.schemes.oliviaV1.Some? <==> schemes.oliviaV1.Some?)
    && (a.schemes.ecdsaV1.Some? <==> schemes.ecdsaV1.Some?)
    && (a.schemes.oliviaV1.Some? ==> a.schemes.oliviaV1.value == ScalarsForOutcome(kc, stamped.outcome))
    && (a.schemes.ecdsaV1.Some? ==>
          a.schemes.ecdsaV1.value == EcdsaSignature(PublicKeys(kc).announcement, stamped.outcome))
  }

  /** What a completion replies is decided by the record: whether there is one, whether it is attested to, for the same
      outcome or for another, and whether its announcement is the oracle's own. Only in the last case something is
      written, and that is the attestation. */
  lemma CompleteRepliesIff(kc: KeyChain, s: Store, stamped: StampedOutcome)
    requires Acceptable(stamped.outcome)
    requires stamped.outcome.id in s ==> s[stamped.outcome.id].event.id == stamped.outcome.id
    ensures var (s', r) := CompleteSpec(kc, s, stamped);
            var id, text := stamped.outcome.id, OutcomeString(stamped.outcome);
            var attested := id in s && s[id].attestation.Some?;
            var own := id in s && exists e :: OwnAnnouncement(kc, id, s[id].announcement, e);
            && (r == Err(EventNotExist) <==> id !in s)
            && (r == Err(OutcomeAlreadyCompleted) <==> attested && s[id].attestation.value.outcome == text)
            && (attested && s[id].attestation.value.outcome != text <==>
                  r == Err(OutcomeChanged(if attested then s[id].attestation.value.outcome else "", text)))
            && (r == Err(AnnouncementWasBogus) <==> id in s && !attested && !own)
            && (r == Ok(()) <==> id in s && !attested && own)
            && (r.Err? ==> s' == s)
            && (r.Ok? ==>
                  exists e, a | OwnAnnouncement(kc, id, s[id].announcement, e) ::
                    IsNewAttestation(kc, stamped, e.schemes, a) && s' == s[id := s[id].(attestation := Some(a))])
  {
    hide Acceptable, VerifyAgainstId, OwnAnnouncement, IsNewAttestation, OutcomeString;
    var id := stamped.outcome.id;
    if id in s {
      forall e
        ensures VerifyAgainstId(s[id].announcement, id, PublicKeys(kc).announcement) == Some(e) <==>
                OwnAnnouncement(kc, id, s[id].announcement, e)
      {
        OwnIsVerified(kc, id, s[id].announcement, e);
      }
      var verified := VerifyAgainstId(s[id].announcement, id, PublicKeys(kc).announcement);
      if verified.Some? {
        assert OwnAnnouncement(kc, id, s[id].announcement, verified.value);
        AttestIs(kc, stamped, verified.value.schemes);
      }
    }
  }

  lemma OwnIsVerified(kc: KeyChain, id: EventId, a: RawAnnouncement, e: OracleEvent)
    ensures VerifyAgainstId(a, id, PublicKeys(kc).announcement) == Some(e) <==> OwnAnnouncement(kc, id, a, e)
  {
    hide Valid, VerifyAgainstId;
    VerifiedWasCreated(a, id, kc.announcement, e);
  }

  lemma AttestIs(kc: KeyChain, stamped: StampedOutcome, schemes: AnnouncementSchemes)
    requires Acceptable(stamped.outcome)
    ensures IsNewAttestation(kc, stamped, schemes, Attest(kc, stamped, schemes))
  {
    hide OutcomeString, ScalarsForOutcome, FromStr;
    assert stamped.time == SECOND * (stamped.time / SECOND) + stamped.time % SECOND;
  }

  // ---------------------------------------------------------------- the object

  class Oracle {
    const db: InMemory
    const keychain: KeyChain

    constructor (db: InMemory, keychain: KeyChain)
      ensures this.db == db && this.keychain == keychain
    {
      this.db, this.keychain := db, keychain;
    }

    method AddEvent(e: Event) returns (r: Result<(), EventError>)
      requires db.Valid() && Valid(e.id)
      modifies db`inner
      ensures db.Valid() && (db.inner, r) == AddSpec(keychain, old(db.inner), e)
    {
      var existing := db.GetAnnouncedEvent(e.id);
      match existing {
        case Some(record) =>
          r := Err(if record.attestation.Some? then EventAlreadyCompleted else EventAlreadyExists);
        case None =>
          var announcement := Announce(keychain, e);
          var written := db.InsertEvent(AnnouncedEvent(e, announcement, None));
          r := AddReply(written);
      }
    }

    method CompleteEvent(stamped: StampedOutcome) returns (r: Result<(), OutcomeErrorKind>)
      requires db.Valid() && Acceptable(stamped.outcome)
      modifies db`inner
      ensures db.Valid() && (db.inner, r) == CompleteSpec(keychain, old(db.inner), stamped)
    {
      var existing := db.GetAnnouncedEvent(stamped.outcome.id);
      var text := OutcomeString(stamped.outcome);
      if existing.None? {
        return Err(EventNotExist);
      }
      var record := existing.value;
      if record.attestation.Some? {
        var was := record.attestation.value.outcome;
        return Err(if was == text then OutcomeAlreadyCompleted else OutcomeChanged(was, text));
      }
      var oracleEvent := VerifyAgainstId(record.announcement, stamped.outcome.id, PublicKeys(keychain).announcement);
      if oracleEvent.None? {
        return Err(AnnouncementWasBogus);
      }
      var attestation := Attest(keychain, stamped, oracleEvent.value.schemes);
      var written := db.CompleteEvent(record.event.id, attestation);
      r := CompleteReply(written);
    }
  }

  /** `Oracle::new`: the first oracle on a store publishes its keys, a later one has to have the same. */
  method OpenOracle(hash: Hash, master: Seed, db: InMemory) returns (r: Option<Oracle>)
    modifies db`publicKeys
    ensures var keychain := NewKeyChain(hash, master);
            (r.None? <==> old(db.publicKeys).Some? && old(db.publicKeys).value != PublicKeys(keychain)) &&
            (r.None? ==> db.publicKeys == old(db.publicKeys)) &&
            (r.Some? ==>
               r.value.db == db && r.value.keychain == keychain && db.publicKeys == Some(PublicKeys(keychain)))
  {
    var keychain := NewKeyChain(hash, master);
    if db.publicKeys.Some? {
      if db.publicKeys.value != PublicKeys(keychain) {
        return None;
      }
    } else {
      db.SetPublicKeys(PublicKeys(keychain));
    }
    var oracle := new Oracle(db, keychain);
    r := Some(oracle);
  }
}
