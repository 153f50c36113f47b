/** Event ids: a path whose last segment carries an event kind after its first dot. */
module EventIds {
  import opened Wrappers
  import opened Strings
  import opened Decimal
  import opened Paths
  import opened EventKinds

  datatype EventId = EventId(text: Path)

  datatype Descriptor =
    | Enum(outcomes: seq<string>)
    | DigitDecomposition(n_digits: u8)
    | MissingDescriptor

  /** The two lookups an id answers without panicking. */
  predicate Kinded(id: EventId) {
    StripEvent(id.text).Some? && ParseKind(StripEvent(id.text).value.1).Ok?
  }

  function PathOf(id: EventId): Path
    requires StripEvent(id.text).Some?
  {
    StripEvent(id.text).value.0
  }

  function KindOf(id: EventId): EventKind
    requires Kinded(id)
  {
    ParseKind(StripEvent(id.text).value.1).value
  }

  function Teams(path: Path): seq<string> {
    Split(Last(path), '_')
  }

  /** `parties` unwraps the first two pieces of the last segment. */
  predicate HasParties(id: EventId) {
    Kinded(id) && (KindOf(id).VsMatch? ==> |Teams(PathOf(id))| >= 2)
  }

  function Parties(id: EventId): Option<(string, string)>
    requires HasParties(id)
  {
    if KindOf(id).VsMatch? then Some((Teams(PathOf(id))[0], Teams(PathOf(id))[1])) else None
  }

  /** Ids of a match also have exactly two parties, and they differ. */
  predicate Usable(id: EventId) {
    HasParties(id) &&
    (KindOf(id).VsMatch? ==> |Teams(PathOf(id))| == 2 && Teams(PathOf(id))[0] != Teams(PathOf(id))[1])
  }

  function FromPathAndKind(path: Path, kind: EventKind): EventId {
    EventId(WithEvent(path, PrintKind(kind)))
  }

  function ReplaceKind(id: EventId, kind: EventKind): EventId
    requires StripEvent(id.text).Some?
  {
    FromPathAndKind(PathOf(id), kind)
  }

  function PrefixId(id: EventId, base: Path): EventId {
    EventId(Prefix(id.text, base))
  }

  function StripId(id: EventId, base: Path): EventId {
    EventId(StripPrefix(id.text, base))
  }

  function DescriptorOf(id: EventId): Descriptor
    requires HasParties(id)
  {
    match KindOf(id)
    case VsMatch(kind) =>
      var (left, right) := Parties(id).value;
      if kind.Win? then Enum([left, right]) else Enum([left + "_win", right + "_win", "draw"])
    case SingleOccurrence => Enum(["true"])
    case Price(n) => if n == 0 then MissingDescriptor else DigitDecomposition(n)
    case Predicated(_, _) => Enum(["true", "false"])
  }

  /** An id put together from an event path and a canonical slash-free kind answers with both. */
  lemma FromPathAndKindAnswers(path: Path, kind: EventKind)
    requires '/' in path && '.' !in Last(path)
    requires Canonical(kind) && '/' !in PrintKind(kind)
    ensures var id := FromPathAndKind(path, kind); Kinded(id) && PathOf(id) == path && KindOf(id) == kind
  {
    StripEventOf(path, PrintKind(kind));
    RoundTripIff(kind);
  }

  lemma KindIsCanonical(id: EventId)
    requires Kinded(id)
    ensures Canonical(KindOf(id))
  {
    ParseIsCanonical(StripEvent(id.text).value.1);
  }

  /** Everything an id answers depends on its kind text and the last segment of its path only. */
  lemma SameEvent(a: EventId, b: EventId)
    requires StripEvent(a.text).Some? && StripEvent(b.text).Some?
    requires StripEvent(a.text).value.1 == StripEvent(b.text).value.1
    requires Last(PathOf(a)) == Last(PathOf(b))
    ensures Kinded(a) <==> Kinded(b)
    ensures Kinded(a) ==> KindOf(a) == KindOf(b)
    ensures (HasParties(a) <==> HasParties(b)) && (Usable(a) <==> Usable(b))
    ensures HasParties(a) ==> Parties(a) == Parties(b)
    ensures HasParties(a) ==> DescriptorOf(a) == DescriptorOf(b)
  {
    assert Teams(PathOf(a)) == Teams(PathOf(b));
  }

  /** Prefixing an event id keeps its kind, its teams and its descriptor. */
  lemma PrefixIdKeeps(id: EventId, base: Path)
    requires StripEvent(id.text).Some?
    ensures var id' := PrefixId(id, base);
            && StripEvent(id'.text).Some?
            && PathOf(id') == (if base == ROOT then PathOf(id) else base + PathOf(id))
            && Teams(PathOf(id')) == Teams(PathOf(id))
            && (Kinded(id') <==> Kinded(id)) && (Kinded(id) ==> KindOf(id') == KindOf(id))
            && (HasParties(id') <==> HasParties(id)) && (Usable(id') <==> Usable(id))
            && (HasParties(id) ==> Parties(id') == Parties(id) && DescriptorOf(id') == DescriptorOf(id))
  {
    PrefixKeepsEvent(id.text, base);
    SameEvent(id, PrefixId(id, base));
  }

  /** Stripping a raw prefix and putting it back gives the id back, wherever the prefix ends. */
  lemma StripThenPrefixId(id: EventId, base: Path)
    requires StripEvent(id.text).Some? && (base == ROOT || StartsWith(id.text, base))
    ensures PrefixId(StripId(id, base), base) == id
  {
    var x := id.text;
    StripEventParts(x);
    var (path, kind) := StripEvent(x).value;
    assert x[|x| - 1] != '/' by {
      assert x[|x| - 1] == if kind == "" then '.' else kind[|kind| - 1];
    }
    if base != ROOT {
      var stripped := x[|base|..];
      assert stripped != [] ==> stripped[|stripped| - 1] == x[|x| - 1];
      assert base + stripped == x;
    }
  }

  /** The stripped id still shows its event exactly when a slash is left in it. */
  lemma StrippedIdShowsEventIff(id: EventId, base: Path)
    requires StripEvent(id.text).Some? && (base == ROOT || StartsWith(id.text, base))
    ensures StripEvent(StripId(id, base).text).Some? <==> '/' in StripId(id, base).text
    ensures '/' in StripId(id, base).text ==>
              (Kinded(StripId(id, base)) <==> Kinded(id)) &&
              (Kinded(id) ==> KindOf(StripId(id, base)) == KindOf(id)) &&
              PathOf(id) == Base(base) + PathOf(StripId(id, base))
  {
    hide ParseKind, StripEvent;
    var stripped := StripId(id, base).text;
    StripThenPrefixId(id, base);
    if base != ROOT {
      assert base + stripped == id.text;
      if '/' in stripped {
        TailHasEvent(base, stripped);
        PrefixKeepsEvent(stripped, base);
      }
    }
    EventHasSlash(id.text);
    EventHasSlash(stripped);
  }

  lemma EventHasSlash(p: Path)
    ensures StripEvent(p).Some? ==> '/' in p
  {
  }

  /** Where the last slash is in the tail, so is the dot behind it. */
  lemma TailHasEvent(base: Path, tail: Path)
    requires '/' in tail && StripEvent(base + tail).Some?
    ensures StripEvent(tail).Some?
  {
    LastOfPrefixed(base, tail);
    var text := base + tail;
    var slash := LastIndexOf(text, '/').value;
    assert Last(text) == text[slash + 1..];
    var at := LastIndexOf(tail, '/').value;
    assert Last(tail) == tail[at + 1..];
  }
}
