/** The key chain of an oracle: its three key pairs and one nonce per event and digit. */
module KeyChains {
  import opened Wrappers
  import opened Decimal
  import opened Digits
  import opened EventKinds
  import opened EventIds
  import opened Outcomes
  import opened Secp256k1
  import opened Announcements
  import opened Attestations

  /** Derivation by hashing is free: a child seed is its parent and its tag. */
  datatype Seed = Master(bytes: string) | ChildSeed(parent: Seed, tag: string)

  /** Input of the hash that makes key material: the seed it is keyed with and what is hashed. */
  datatype Material = Material(seed: Seed, suffix: seq<u8>)

  /** The hash onto scalars; nothing is assumed of it. */
  type Hash = Material -> NonZeroScalar

  datatype StampedOutcome = StampedOutcome(outcome: Outcome, time: Time)

  datatype KeyChain = KeyChain(
    hash: Hash,
    announcement: KeyPair,
    oliviaV1: KeyPair,
    ecdsaV1: KeyPair,
    eventSeed: Seed)

  /** What the three key pairs of a chain are for. */
  datatype Role = Announcing | AttestingOliviaV1 | AttestingEcdsaV1

  /** What the key pair of a role is hashed from. */
  function KeyMaterial(master: Seed, role: Role): Material {
    var tag :=
      match role
      case Announcing => "announcement-key"
      case AttestingOliviaV1 => "olivia-v1-key"
      case AttestingEcdsaV1 => "ecdsa-v1-key";
    Material(ChildSeed(ChildSeed(master, "secp256k1"), tag), [])
  }

  function NewKeyChain(hash: Hash, master: Seed): KeyChain {
    var seed := ChildSeed(master, "secp256k1");
    KeyChain(
      hash,
      KeyPairFrom(hash(Material(ChildSeed(seed, "announcement-key"), []))),
      KeyPairFrom(hash(Material(ChildSeed(seed, "olivia-v1-key"), []))),
      KeyPairFrom(hash(Material(ChildSeed(seed, "ecdsa-v1-key"), []))),
      ChildSeed(seed, "oracle-events"))
  }

  function PublicKeys(kc: KeyChain): OracleKeys {
    OracleKeys(Some(kc.oliviaV1.point), Some(kc.ecdsaV1.point), kc.announcement.point)
  }

  function NonceMaterial(kc: KeyChain, id: EventId, i: nat): Material {
    Material(ChildSeed(kc.eventSeed, id.text), [i % (U8_MAX + 1)])
  }

  function NonceAt(kc: KeyChain, id: EventId, i: nat): KeyPair {
    KeyPairFrom(kc.hash(NonceMaterial(kc, id, i)))
  }

  function NoncesForEvent(kc: KeyChain, id: EventId): seq<KeyPair>
    requires Kinded(id)
  {
    seq(NNonces(KindOf(id)), i requires 0 <= i => NonceAt(kc, id, i))
  }

  function ScalarsForOutcome(kc: KeyChain, o: Outcome): seq<Scalar>
    requires Kinded(o.id) && InRange(o.id, o.value)
  {
    var indexes := AttestationIndexes(o);
    seq(|indexes|, i requires 0 <= i < |indexes| =>
      RevealAttestScalar(kc.oliviaV1, NonceAt(kc, o.id, i), indexes[i]))
  }

  /** A price without digits has no nonces, and then no olivia-v1 scheme is announced. */
  function SchemesFor(kc: KeyChain, id: EventId): AnnouncementSchemes
    requires Kinded(id)
  {
    var nonces := NoncesForEvent(kc, id);
    var points := seq(|nonces|, i requires 0 <= i < |nonces| => nonces[i].point);
    AnnouncementSchemes(if nonces == [] then None else Some(points), Some(EcdsaV1))
  }

  function Announce(kc: KeyChain, event: Event): RawAnnouncement
    requires HasParties(event.id)
  {
    CreateAnnouncement(event, kc.announcement, SchemesFor(kc, event.id))
  }

  function EcdsaSignOutcome(kc: KeyChain, o: Outcome): EcdsaSignature {
    EcdsaSignature(kc.announcement.point, o)
  }

  /** The key pairs of a chain are key pairs of the group. */
  predicate GoodKeys(kc: KeyChain) {
    kc.oliviaV1 == KeyPairFrom(kc.oliviaV1.secret)
  }

  /** The published key of a role is the multiple of the generator by what its material is hashed to. */
  lemma PublishedKeys(hash: Hash, master: Seed)
    ensures var keys := PublicKeys(NewKeyChain(hash, master));
            && keys.announcement == Mul(hash(KeyMaterial(master, Announcing)), G)
            && keys.oliviaV1 == Some(Mul(hash(KeyMaterial(master, AttestingOliviaV1)), G))
            && keys.ecdsaV1 == Some(Mul(hash(KeyMaterial(master, AttestingEcdsaV1)), G))
  {
  }

  /** No two keys share a material, whether of one seed or of two. */
  lemma KeyMaterialInjective(a: Seed, role: Role, b: Seed, role': Role)
    ensures KeyMaterial(a, role) == KeyMaterial(b, role') <==> a == b && role == role'
  {
    assert |"announcement-key"| == 16 && |"olivia-v1-key"| == 13 && |"ecdsa-v1-key"| == 12;
  }

  /** Nonces come from the seed: they are hashed from the seed of their event and their digit as one byte. Those of two
      chains share a material exactly for one seed, one event and one digit, and none shares one with a key. */
  lemma NonceMaterialsApart(hash: Hash, a: Seed, x: EventId, i: nat, b: Seed, y: EventId, j: nat, role: Role)
    requires i <= U8_MAX && j <= U8_MAX
    ensures var events := ChildSeed(ChildSeed(a, "secp256k1"), "oracle-events");
            NonceMaterial(NewKeyChain(hash, a), x, i) == Material(ChildSeed(events, x.text), [i])
    ensures NonceMaterial(NewKeyChain(hash, a), x, i) == NonceMaterial(NewKeyChain(hash, b), y, j) <==>
            a == b && x == y && i == j
    ensures NonceMaterial(NewKeyChain(hash, a), x, i) != KeyMaterial(b, role)
  {
    if a == b {
      NonceMaterialInjective(NewKeyChain(hash, a), x, i, y, j);
    }
    assert |NonceMaterial(NewKeyChain(hash, a), x, i).suffix| == 1;
  }

  /** Materials of nonces differ between events and between digits, so no two nonces share an input of the hash. */
  lemma NonceMaterialInjective(kc: KeyChain, a: EventId, i: nat, b: EventId, j: nat)
    requires i <= U8_MAX && j <= U8_MAX
    ensures NonceMaterial(kc, a, i) == NonceMaterial(kc, b, j) <==> a == b && i == j
  {
    if NonceMaterial(kc, a, i) == NonceMaterial(kc, b, j) {
      assert NonceMaterial(kc, a, i).suffix[0] == i;
      assert NonceMaterial(kc, b, j).suffix[0] == j;
    }
  }

  /** The announced points are the nonces that reveal the scalars, one for every index. */
  lemma ScalarsMatchAnnouncedNonces(kc: KeyChain, o: Outcome)
    requires GoodKeys(kc) && Kinded(o.id) && InRange(o.id, o.value)
    ensures var schemes := SchemesFor(kc, o.id);
            var indexes := AttestationIndexes(o);
            var scalars := ScalarsForOutcome(kc, o);
            EnoughNonces(o.id, schemes) &&
            |indexes| == |scalars| == NNonces(KindOf(o.id)) &&
            (schemes.oliviaV1.None? <==> scalars == []) &&
            (schemes.oliviaV1.Some? ==>
               |schemes.oliviaV1.value| == |scalars| &&
               ScalarsVerify(kc.oliviaV1.point, schemes.oliviaV1.value, indexes, scalars) &&
               forall i | 0 <= i < |scalars| ::
                 indexes[i] < NOutcomesForNonce(KindOf(o.id)) &&
                 Mul(scalars[i], G) == Anticipated(kc.oliviaV1.point, schemes.oliviaV1.value[i], indexes[i]))
  {
    IndexesMatchNonces(o);
    var indexes := AttestationIndexes(o);
    forall i | 0 <= i < |indexes|
      ensures VerifyAttestScalar(
                kc.oliviaV1.point, NonceAt(kc, o.id, i).point, indexes[i], ScalarsForOutcome(kc, o)[i])
      ensures Mul(ScalarsForOutcome(kc, o)[i], G) ==
              Anticipated(kc.oliviaV1.point, NonceAt(kc, o.id, i).point, indexes[i])
    {
      RevealedVerifies(kc.oliviaV1.secret, NonceAt(kc, o.id, i).secret, indexes[i]);
    }
  }

  /** The scalars of an outcome pass the check for its indexes and for no others. */
  lemma ScalarsOpenOnlyTheirIndexes(kc: KeyChain, o: Outcome, w: u64)
    requires GoodKeys(kc) && Kinded(o.id) && InRange(o.id, o.value) && InRange(o.id, w)
    requires SchemesFor(kc, o.id).oliviaV1.Some?
    ensures var nonces := SchemesFor(kc, o.id).oliviaV1.value;
            var indexes := AttestationIndexes(Outcome(o.id, w));
            var scalars := ScalarsForOutcome(kc, o);
            |nonces| == |indexes| == |scalars| &&
            (ScalarsVerify(kc.oliviaV1.point, nonces, indexes, scalars) <==> indexes == AttestationIndexes(o))
  {
    hide ParseKind, CappedBits;
    IndexesMatchNonces(o);
    IndexesMatchNonces(Outcome(o.id, w));
    var was, indexes := AttestationIndexes(o), AttestationIndexes(Outcome(o.id, w));
    forall i | 0 <= i < |indexes|
      ensures VerifyAttestScalar(kc.oliviaV1.point, NonceAt(kc, o.id, i).point, indexes[i], ScalarsForOutcome(kc, o)[i])
              <==> indexes[i] == was[i]
    {
      ScalarOpensOnlyItsIndex(kc, o, i, indexes[i]);
    }
  }

  lemma ScalarOpensOnlyItsIndex(kc: KeyChain, o: Outcome, i: nat, k: nat)
    requires GoodKeys(kc) && Kinded(o.id) && InRange(o.id, o.value) && i < |AttestationIndexes(o)| && k < 3
    ensures VerifyAttestScalar(kc.oliviaV1.point, NonceAt(kc, o.id, i).point, k, ScalarsForOutcome(kc, o)[i])
            <==> k == AttestationIndexes(o)[i]
  {
    hide ParseKind, CappedBits;
    IndexesMatchNonces(o);
    RevealsOnlyItsIndex(kc.oliviaV1.secret, NonceAt(kc, o.id, i).secret, AttestationIndexes(o)[i], k);
  }
}
