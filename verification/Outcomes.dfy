/** Outcomes of events: their strings, their values and the digits attested to. */
module Outcomes {
  import opened Wrappers
  import opened Strings
  import opened Decimal
  import opened Digits
  import opened Paths
  import opened EventKinds
  import opened EventIds

  datatype Outcome = Outcome(id: EventId, value: u64)

  datatype OutcomeError = Invalid(outcome: string)

  /** The values `write_outcome_string` prints without panicking. */
  predicate InRange(id: EventId, value: u64)
    requires Kinded(id)
  {
    KindOf(id).Price? || value < NOutcomesForNonce(KindOf(id))
  }

  /** `winner.strip_suffix("_win")`. */
  function StripWin(s: string): Option<string> {
    if EndsWith(s, "_win") then Some(s[..|s| - 4]) else None
  }

  function ParseValue(id: EventId, s: string): Result<u64, OutcomeError>
    requires HasParties(id)
  {
    ParseFor(KindOf(id), Parties(id), s)
  }

  function ParseFor(kind: EventKind, parties: Option<(string, string)>, s: string): Result<u64, OutcomeError>
    requires kind.VsMatch? ==> parties.Some?
  {
    match kind
    case SingleOccurrence => if s == "true" then Ok(0) else Err(Invalid(s))
    case VsMatch(WinOrDraw) =>
      if s == "draw" then Ok(2)
      else (
        match StripWin(s)
        case None => Err(Invalid(s))
        case Some(winner) => ParseWinner(parties.value, winner)
      )
    case VsMatch(Win) => ParseWinner(parties.value, s)
    case Predicated(_, _) => if s == "true" then Ok(1) else if s == "false" then Ok(0) else Err(Invalid(s))
    case Price(_) => (
      match Parse(s, U64_MAX)
      case None => Err(Invalid(s))
      case Some(v) => Ok(v)
    )
  }

  function ParseWinner(parties: (string, string), winner: string): Result<u64, OutcomeError> {
    if winner == parties.0 then Ok(0) else if winner == parties.1 then Ok(1) else Err(Invalid(winner))
  }

  /** `Outcome::try_from_id_and_outcome`. */
  function ParseOutcome(id: EventId, s: string): Result<Outcome, OutcomeError>
    requires HasParties(id)
  {
    match ParseValue(id, s)
    case Ok(v) => Ok(Outcome(id, v))
    case Err(e) => Err(e)
  }

  function OutcomeString(o: Outcome): string
    requires HasParties(o.id) && InRange(o.id, o.value)
  {
    PrintFor(KindOf(o.id), Parties(o.id), o.value)
  }

  function PrintFor(kind: EventKind, parties: Option<(string, string)>, value: u64): string
    requires kind.VsMatch? ==> parties.Some?
  {
    match kind
    case SingleOccurrence => "true"
    case VsMatch(WinOrDraw) =>
      if value == 0 then parties.value.0 + "_win"
      else if value == 1 then parties.value.1 + "_win"
      else "draw"
    case VsMatch(Win) => if value == 0 then parties.value.0 else parties.value.1
    case Predicated(_, _) => if value != 0 then "true" else "false"
    case Price(_) => Print(value)
  }

  /** One index per nonce: the binary digits of the capped price, or the value itself. */
  function AttestationIndexes(o: Outcome): seq<nat>
    requires Kinded(o.id)
    requires !KindOf(o.id).Price? ==> o.value <= 0xFFFF_FFFF
  {
    match KindOf(o.id)
    case Price(n) => KindIsCanonical(o.id); CappedBits(o.value, n)
    case _ => [o.value]
  }

  // ---------------------------------------------------------------- round trips

  lemma WinSuffix(s: string)
    ensures StripWin(s + "_win") == Some(s)
    ensures s + "_win" != "draw"
  {
    var w := s + "_win";
    assert w[|w| - 1] == 'n';
    assert w[|w| - 4..] == "_win" && w[..|w| - 4] == s;
  }

  lemma ParseOfPrintWinOrDraw(parties: (string, string), value: u64)
    requires parties.0 != parties.1 && value < 3
    ensures ParseFor(VsMatch(WinOrDraw), Some(parties), PrintFor(VsMatch(WinOrDraw), Some(parties), value)) == Ok(value)
  {
    WinSuffix(parties.0);
    WinSuffix(parties.1);
    hide StripWin;
  }

  lemma ParseOfPrintFor(kind: EventKind, parties: Option<(string, string)>, value: u64)
    requires kind.VsMatch? ==> parties.Some? && parties.value.0 != parties.value.1
    requires kind.Price? || value < NOutcomesForNonce(kind)
    ensures ParseFor(kind, parties, PrintFor(kind, parties, value)) == Ok(value)
  {
    hide StripWin, Parse, Print;
    match kind
    case VsMatch(WinOrDraw) => ParseOfPrintWinOrDraw(parties.value, value);
    case Price(_) => ParseOfPrint(value, U64_MAX);
    case _ =>
  }

  lemma PrintForOfParse(kind: EventKind, parties: Option<(string, string)>, s: string)
    requires kind.VsMatch? ==> parties.Some?
    requires ParseFor(kind, parties, s).Ok?
    ensures var v := ParseFor(kind, parties, s).value;
            (kind.Price? || v < NOutcomesForNonce(kind)) && (!kind.Price? ==> PrintFor(kind, parties, v) == s)
  {
    if kind == VsMatch(WinOrDraw) && s != "draw" {
      assert s == StripWin(s).value + "_win";
    }
  }

  /** Printing an outcome of a usable id and parsing it again gives the outcome back. */
  lemma ParseOfOutcomeString(o: Outcome)
    requires Usable(o.id) && InRange(o.id, o.value)
    ensures ParseOutcome(o.id, OutcomeString(o)) == Ok(o)
  {
    ParseOfPrintFor(KindOf(o.id), Parties(o.id), o.value);
  }

  /** What the parser returns is in range, and for every kind but a price it prints back as it was. */
  lemma OutcomeStringOfParse(id: EventId, s: string)
    requires HasParties(id) && ParseOutcome(id, s).Ok?
    ensures var o := ParseOutcome(id, s).value;
            o.id == id && InRange(id, o.value) &&
            (!KindOf(id).Price? ==> OutcomeString(o) == s)
  {
    PrintForOfParse(KindOf(id), Parties(id), s);
  }

  /** Two outcomes of one id print alike exactly when they are the same outcome. */
  lemma OutcomeStringInjective(id: EventId, v: u64, w: u64)
    requires Usable(id) && InRange(id, v) && InRange(id, w)
    ensures OutcomeString(Outcome(id, v)) == OutcomeString(Outcome(id, w)) <==> v == w
  {
    ParseOfOutcomeString(Outcome(id, v));
    ParseOfOutcomeString(Outcome(id, w));
  }

  /** The descriptor lists the outcomes of an event, each at its value, except that a predicate lists `true` first. */
  lemma DescriptorListsOutcomes(id: EventId, v: u64)
    requires Usable(id) && !KindOf(id).Price? && InRange(id, v)
    ensures var d := DescriptorOf(id);
            d.Enum? && |d.outcomes| == NOutcomes(KindOf(id)) &&
            d.outcomes[if KindOf(id).Predicated? then 1 - v else v] == OutcomeString(Outcome(id, v))
  {
    hide ParseKind, StripEvent, Split;
    ParseOfOutcomeString(Outcome(id, v));
  }

  /** A price is described by as many digits as it has nonces, and not at all without any. */
  lemma DescriptorOfPrice(id: EventId, v: u64)
    requires HasParties(id) && KindOf(id).Price?
    ensures var n := |AttestationIndexes(Outcome(id, v))|;
            DescriptorOf(id) == if n == 0 then MissingDescriptor else DigitDecomposition(n)
  {
    hide ParseKind, StripEvent, CappedBits;
    IndexesMatchNonces(Outcome(id, v));
  }

  /** There is one index for every nonce, and each is below the number of outcomes of its nonce. */
  lemma IndexesMatchNonces(o: Outcome)
    requires Kinded(o.id) && InRange(o.id, o.value)
    ensures |AttestationIndexes(o)| == NNonces(KindOf(o.id))
    ensures forall i | 0 <= i < |AttestationIndexes(o)| ::
              AttestationIndexes(o)[i] < NOutcomesForNonce(KindOf(o.id))
  {
    KindIsCanonical(o.id);
  }

  lemma DigitsDetermineValue(n: u8, v: u64, w: u64)
    requires n <= 64
    ensures CappedBits(v, n) == CappedBits(w, n) <==> Min(v, Pow2(n) - 1) == Min(w, Pow2(n) - 1)
  {
    hide Bits, Pow2, Cap;
    CappedBitsNumeral(v, n);
    CappedBitsNumeral(w, n);
    CapIs(n);
  }

  lemma IndexesAre(id: EventId, v: u64)
    requires Kinded(id) && InRange(id, v)
    ensures KindOf(id).Price? ==> KindOf(id).n_digits <= 64
    ensures AttestationIndexes(Outcome(id, v)) == if KindOf(id).Price? then CappedBits(v, KindOf(id).n_digits) else [v]
  {
    KindIsCanonical(id);
    hide CappedBits, Kinded, KindOf;
  }

  /** The digits of a price say exactly what the price is, up to the cap of its width. */
  lemma IndexesDetermineValue(id: EventId, v: u64, w: u64)
    requires Kinded(id) && InRange(id, v) && InRange(id, w)
    ensures AttestationIndexes(Outcome(id, v)) == AttestationIndexes(Outcome(id, w)) <==>
            if KindOf(id).Price? then
              Min(v, Pow2(KindOf(id).n_digits) - 1) == Min(w, Pow2(KindOf(id).n_digits) - 1)
            else v == w
  {
    hide *;
    IndexesAre(id, v);
    IndexesAre(id, w);
    if KindOf(id).Price? {
      DigitsDetermineValue(KindOf(id).n_digits, v, w);
    } else {
      assert [v][0] == v && [w][0] == w;
    }
  }

  /** Prefixing keeps the meaning of every outcome: the string, the value and the indexes. */
  lemma PrefixKeepsOutcomes(id: EventId, base: Path, value: u64, s: string)
    requires HasParties(id)
    ensures var id' := PrefixId(id, base);
            && HasParties(id')
            && ParseValue(id', s) == ParseValue(id, s)
            && (InRange(id', value) <==> InRange(id, value))
            && (InRange(id, value) ==>
                  OutcomeString(Outcome(id', value)) == OutcomeString(Outcome(id, value)) &&
                  AttestationIndexes(Outcome(id', value)) == AttestationIndexes(Outcome(id, value)))
  {
    PrefixIdKeeps(id, base);
    SameOutcomes(id, PrefixId(id, base), value, s);
  }

  /** The meaning of outcomes depends on the kind and the parties only. */
  lemma SameOutcomes(a: EventId, b: EventId, value: u64, s: string)
    requires HasParties(a) && HasParties(b) && KindOf(a) == KindOf(b) && Parties(a) == Parties(b)
    ensures ParseValue(a, s) == ParseValue(b, s)
    ensures InRange(a, value) <==> InRange(b, value)
    ensures InRange(a, value) ==>
              OutcomeString(Outcome(a, value)) == OutcomeString(Outcome(b, value)) &&
              AttestationIndexes(Outcome(a, value)) == AttestationIndexes(Outcome(b, value))
  {
  }

  /** Every outcome that a nonce can have is the index of some outcome of the event, so no fewer could be announced. */
  lemma EveryIndexIsReached(id: EventId, i: nat, index: nat) returns (value: u64)
    requires Kinded(id) && i < NNonces(KindOf(id)) && index < NOutcomesForNonce(KindOf(id))
    ensures InRange(id, value) && |AttestationIndexes(Outcome(id, value))| == NNonces(KindOf(id))
    ensures AttestationIndexes(Outcome(id, value))[i] == index
  {
    hide ParseKind, StripEvent;
    KindIsCanonical(id);
    if KindOf(id).Price? {
      value := SomeBitIs(KindOf(id).n_digits, i, index);
    } else {
      value := index;
    }
    IndexesMatchNonces(Outcome(id, value));
  }
}
