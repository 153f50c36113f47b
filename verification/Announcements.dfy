/** Events, the announcements an oracle signs for them, and their decoding. */
module Announcements {
  import opened Wrappers
  import opened EventKinds
  import opened EventIds
  import opened IdParser
  import opened Secp256k1

  /** Nanoseconds since the epoch. */
  type Time = int

  datatype Event = Event(id: EventId, expectedOutcomeTime: Option<Time>)

  datatype EcdsaV1 = EcdsaV1

  datatype AnnouncementSchemes = AnnouncementSchemes(oliviaV1: Option<seq<Point>>, ecdsaV1: Option<EcdsaV1>)

  datatype OracleEvent = OracleEvent(event: Event, schemes: AnnouncementSchemes)

  /** What is serialized and signed; a payload stands for its JSON text. */
  datatype OracleEventWithDescriptor = OracleEventWithDescriptor(
    id: EventId,
    expectedOutcomeTime: Option<Time>,
    descriptor: Descriptor,
    schemes: AnnouncementSchemes)

  /** An ideal signature names its key and its message. */
  datatype Signature = Signature(key: Point, message: OracleEventWithDescriptor)

  datatype RawAnnouncement = RawAnnouncement(payload: OracleEventWithDescriptor, signature: Signature)

  function WithDescriptor(e: OracleEvent): OracleEventWithDescriptor
    requires HasParties(e.event.id)
  {
    OracleEventWithDescriptor(e.event.id, e.event.expectedOutcomeTime, DescriptorOf(e.event.id), e.schemes)
  }

  predicate EnoughNonces(id: EventId, schemes: AnnouncementSchemes)
    requires Kinded(id)
  {
    schemes.oliviaV1.Some? ==> |schemes.oliviaV1.value| >= NNonces(KindOf(id))
  }

  /** Deserialization: the id is parsed again, then the nonces are counted and the descriptor compared. */
  function Decode(payload: OracleEventWithDescriptor): (r: Option<OracleEvent>)
    ensures r.Some? ==> Valid(r.value.event.id) && EnoughNonces(r.value.event.id, r.value.schemes)
    ensures r.Some? ==> WithDescriptor(r.value) == payload
    ensures forall e: OracleEvent | Valid(e.event.id) && EnoughNonces(e.event.id, e.schemes) ::
              WithDescriptor(e) == payload ==> r == Some(e)
  {
    if FromStr(payload.id.text) != Accepted(payload.id) then None
    else if !EnoughNonces(payload.id, payload.schemes) then None
    else if DescriptorOf(payload.id) != payload.descriptor then None
    else Some(OracleEvent(Event(payload.id, payload.expectedOutcomeTime), payload.schemes))
  }

  function CreateAnnouncement(event: Event, key: KeyPair, schemes: AnnouncementSchemes): RawAnnouncement
    requires HasParties(event.id)
  {
    var payload := WithDescriptor(OracleEvent(event, schemes));
    RawAnnouncement(payload, Signature(key.point, payload))
  }

  function VerifyAgainstId(a: RawAnnouncement, id: EventId, key: Point): (r: Option<OracleEvent>)
    ensures r.Some? ==> r.value.event.id == id
  {
    if a.signature != Signature(key, a.payload) then None
    else
      match Decode(a.payload)
      case None => None
      case Some(e) => if e.event.id != id then None else Some(e)
  }

  /** A created announcement decodes to what was announced, under the announcement key and no other,
      and for the announced id and no other, provided the id is valid and the nonces suffice. */
  lemma CreatedAnnouncementVerifiesIff(
    event: Event, key: KeyPair, schemes: AnnouncementSchemes, id: EventId, signer: Point)
    requires HasParties(event.id)
    ensures var r := VerifyAgainstId(CreateAnnouncement(event, key, schemes), id, signer);
            (r.Some? <==>
               signer == key.point && id == event.id && Valid(event.id) && EnoughNonces(event.id, schemes)) &&
            (r.Some? ==> r.value == OracleEvent(event, schemes))
  {
  }

  /** What verifies under a key is what the holder of that key creates for a valid event with enough nonces, and nothing
      else: the payload cannot be another one than was signed. */
  lemma VerifiedWasCreated(a: RawAnnouncement, id: EventId, key: KeyPair, e: OracleEvent)
    ensures VerifyAgainstId(a, id, key.point) == Some(e) <==>
            e.event.id == id && Valid(id) && EnoughNonces(id, e.schemes) &&
            a == CreateAnnouncement(e.event, key, e.schemes)
  {
    hide FromStr, EnoughNonces, DescriptorOf;
    if Valid(id) {
      ValidIsUsable(id);
    }
  }

  /** The points a client expects the outcomes of one nonce to reveal: below each outcome the running sum. */
  method AnticipateOliviaV1(e: OracleEvent, key: Point, nonceIndex: nat) returns (r: Option<seq<Point>>)
    requires Kinded(e.event.id)
    requires e.schemes.oliviaV1.Some? ==> nonceIndex < |e.schemes.oliviaV1.value|
    ensures r.Some? <==> e.schemes.oliviaV1.Some?
    ensures r.Some? ==>
              |r.value| == NOutcomesForNonce(KindOf(e.event.id)) &&
              forall i | 0 <= i < |r.value| :: r.value[i] == Anticipated(key, e.schemes.oliviaV1.value[nonceIndex], i)
  {
    match e.schemes.oliviaV1
    case None => r := None;
    case Some(nonces) =>
      var points := AnticipateAttestations(key, nonces[nonceIndex], NOutcomesForNonce(KindOf(e.event.id)));
      r := Some(points);
  }
}
