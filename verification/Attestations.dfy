/** Attestations and the olivia-v1 verifier. */
module Attestations {
  import opened Wrappers
  import opened Decimal
  import opened EventKinds
  import opened EventIds
  import opened Outcomes
  import opened Secp256k1
  import opened Announcements

  const SECOND: Time := 1_000_000_000

  datatype OracleKeys = OracleKeys(oliviaV1: Option<Point>, ecdsaV1: Option<Point>, announcement: Point)

  /** An ideal signature names its key and the outcome it signs. */
  datatype EcdsaSignature = EcdsaSignature(key: Point, outcome: Outcome)

  datatype AttestationSchemes = AttestationSchemes(oliviaV1: Option<seq<Scalar>>, ecdsaV1: Option<EcdsaSignature>)

  datatype Attestation = Attestation(outcome: string, schemes: AttestationSchemes, time: Time)

  datatype AttestationInvalid = OliviaV1Invalid | OutcomeInvalid | Missing | MissingKey

  /** The whole second a time falls in. */
  function Truncate(t: Time): Time {
    t - t % SECOND
  }

  function NewAttestation(outcome: string, time: Time, schemes: AttestationSchemes): Attestation {
    Attestation(outcome, schemes, Truncate(time))
  }

  /** `verify_olivia_v1_attestation`, on an oracle event that came out of decoding. */
  function VerifyOliviaV1(a: Attestation, e: OracleEvent, keys: OracleKeys): Result<(), AttestationInvalid>
    requires HasParties(e.event.id) && EnoughNonces(e.event.id, e.schemes)
  {
    match ParseOutcome(e.event.id, a.outcome)
    case Err(_) => Err(OutcomeInvalid)
    case Ok(outcome) =>
      match keys.oliviaV1
      case None => Err(MissingKey)
      case Some(key) =>
        match (e.schemes.oliviaV1, a.schemes.oliviaV1)
        case (Some(nonces), Some(scalars)) =>
          OutcomeStringOfParse(e.event.id, a.outcome);
          IndexesMatchNonces(outcome);
          if |nonces| == |scalars| && ScalarsVerify(key, nonces, AttestationIndexes(outcome), scalars) then Ok(())
          else Err(OliviaV1Invalid)
        case (Some(_), None) => Err(Missing)
        case _ => Ok(())
  }

  /** There are nonces enough where every outcome that can be printed finds one for each of its indexes. */
  lemma EnoughNoncesIff(id: EventId, schemes: AnnouncementSchemes)
    requires Kinded(id)
    ensures EnoughNonces(id, schemes) <==>
            (schemes.oliviaV1.Some? ==>
               forall v: u64 | InRange(id, v) :: |AttestationIndexes(Outcome(id, v))| <= |schemes.oliviaV1.value|)
  {
    hide Kinded, KindOf, AttestationIndexes;
    forall v: u64 | InRange(id, v)
      ensures |AttestationIndexes(Outcome(id, v))| == NNonces(KindOf(id))
    {
      IndexesMatchNonces(Outcome(id, v));
    }
    assert InRange(id, 0);
  }

  /** The verifier accepts exactly when the text names an outcome, the key is known, and, where nonces were announced,
      there are as many scalars, and those for the digits of the outcome are the logarithms of the points that a client
      anticipates. */
  lemma VerifiesIff(a: Attestation, e: OracleEvent, keys: OracleKeys)
    requires HasParties(e.event.id) && EnoughNonces(e.event.id, e.schemes)
    ensures VerifyOliviaV1(a, e, keys) == Ok(()) <==>
            && keys.oliviaV1.Some?
            && exists v: u64 | ParseOutcome(e.event.id, a.outcome) == Ok(Outcome(e.event.id, v)) ::
                 (!KindOf(e.event.id).Price? ==> v <= 0xFFFF_FFFF) && Opens(a.schemes, e, keys.oliviaV1.value, v)
  {
    hide ParseOutcome, AttestationIndexes, Reduce;
    if ParseOutcome(e.event.id, a.outcome).Ok? && keys.oliviaV1.Some? {
      OutcomeStringOfParse(e.event.id, a.outcome);
      var o := ParseOutcome(e.event.id, a.outcome).value;
      IndexesMatchNonces(o);
      if e.schemes.oliviaV1.Some? && a.schemes.oliviaV1.Some? {
        var nonces, scalars := e.schemes.oliviaV1.value, a.schemes.oliviaV1.value;
        forall i | 0 <= i < |AttestationIndexes(o)| && i < |scalars|
          ensures VerifyAttestScalar(keys.oliviaV1.value, nonces[i], AttestationIndexes(o)[i], scalars[i]) <==>
                  Mul(scalars[i], G) == Anticipated(keys.oliviaV1.value, nonces[i], AttestationIndexes(o)[i])
        {
          AnticipatedIsVerified(keys.oliviaV1.value, nonces[i], AttestationIndexes(o)[i], scalars[i]);
        }
      }
      assert o == Outcome(e.event.id, o.value);
    }
  }

  /** Where nonces were announced there is one scalar for each, and those of the digits of the value open the points
      that a client anticipates. */
  predicate Opens(schemes: AttestationSchemes, e: OracleEvent, key: Point, v: u64)
    requires Kinded(e.event.id) && (!KindOf(e.event.id).Price? ==> v <= 0xFFFF_FFFF)
  {
    var indexes := AttestationIndexes(Outcome(e.event.id, v));
    match (e.schemes.oliviaV1, schemes.oliviaV1)
    case (None, _) => true
    case (Some(_), None) => false
    case (Some(nonces), Some(scalars)) =>
      |indexes| <= |nonces| == |scalars| &&
      forall i | 0 <= i < |indexes| :: Mul(scalars[i], G) == Anticipated(key, nonces[i], indexes[i])
  }

  lemma AnticipatedIsVerified(key: Point, nonce: Point, index: nat, s: Scalar)
    ensures VerifyAttestScalar(key, nonce, index, s) <==> Mul(s, G) == Anticipated(key, nonce, index)
  {
  }

  /** What the verifier finds wrong: the outcome first, then the missing key, then missing scalars. */
  lemma RefusedIff(a: Attestation, e: OracleEvent, keys: OracleKeys)
    requires HasParties(e.event.id) && EnoughNonces(e.event.id, e.schemes)
    ensures var named := exists v: u64 :: ParseValue(e.event.id, a.outcome) == Ok(v);
            var missing := e.schemes.oliviaV1.Some? && a.schemes.oliviaV1.None?;
            && (VerifyOliviaV1(a, e, keys) == Err(OutcomeInvalid) <==> !named)
            && (VerifyOliviaV1(a, e, keys) == Err(MissingKey) <==> named && keys.oliviaV1.None?)
            && (VerifyOliviaV1(a, e, keys) == Err(Missing) <==> named && keys.oliviaV1.Some? && missing)
  {
    hide ParseValue, AttestationIndexes, ScalarsVerify;
  }

  /** Every index is checked against the nonce and the scalar at its position. */
  predicate ScalarsVerify(key: Point, nonces: seq<Point>, indexes: seq<nat>, scalars: seq<Scalar>)
    requires |indexes| <= |nonces| && |indexes| <= |scalars|
  {
    forall i | 0 <= i < |indexes| :: VerifyAttestScalar(key, nonces[i], indexes[i], scalars[i])
  }

  /** Truncation never moves a time before the second it is in, so it keeps every later whole second;
      a time that is not a whole second can end up after the truncation of a later time. */
  lemma TruncateKeepsOrderIff(due: Time)
    ensures (forall now | now >= due :: Truncate(now) >= due) <==> due % SECOND == 0
  {
    if due % SECOND == 0 {
      forall now | now >= due
        ensures Truncate(now) >= due
      {
        assert now == SECOND * (now / SECOND) + now % SECOND;
      }
    } else {
      assert Truncate(due) < due;
    }
  }
}
