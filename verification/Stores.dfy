/** The in-memory event store: writes that re-check their slot, and reads that scan all events. */
module Stores {
  import opened Wrappers
  import opened Strings
  import opened Paths
  import opened EventKinds
  import opened EventIds
  import opened IdParser
  import opened Announcements
  import opened Attestations
  import opened Nodes

  datatype AnnouncedEvent = AnnouncedEvent(
    event: Event,
    announcement: RawAnnouncement,
    attestation: Option<Attestation>)

  type Store = map<EventId, AnnouncedEvent>

  datatype DbError = EventExists | AlreadyAttested | NoSuchEvent

  datatype Order = Earliest | Latest

  /** `endsWith` is the root when anything will do. */
  datatype EventQuery = EventQuery(
    path: Option<Path>,
    attested: Option<bool>,
    order: Order,
    endsWith: Path,
    kind: Option<EventKind>)

  /** Every record sits under its own id, and every id shows its kind. */
  predicate Keyed(s: Store) {
    forall id | id in s :: Kinded(id) && s[id].event.id == id
  }

  // ---------------------------------------------------------------- writes

  function Inserted(s: Store, e: AnnouncedEvent): (Store, Result<(), DbError>) {
    if e.event.id in s then (s, Err(EventExists)) else (s[e.event.id := e], Ok(()))
  }

  function Completed(s: Store, id: EventId, a: Attestation): (Store, Result<(), DbError>) {
    if id !in s then (s, Err(NoSuchEvent))
    else if s[id].attestation.Some? then (s, Err(AlreadyAttested))
    else (s[id := s[id].(attestation := Some(a))], Ok(()))
  }

  /** Records are never removed or replaced, and an attestation once written stays. */
  predicate Extends(later: Store, earlier: Store) {
    forall id | id in earlier ::
      && id in later
      && later[id].event == earlier[id].event
      && later[id].announcement == earlier[id].announcement
      && (earlier[id].attestation.Some? ==> later[id].attestation == earlier[id].attestation)
  }

  /** An insertion fills one slot that was free, and only then reports success. */
  lemma InsertExtends(s: Store, e: AnnouncedEvent)
    requires Keyed(s) && Kinded(e.event.id)
    ensures var (s', r) := Inserted(s, e);
            Keyed(s') && Extends(s', s) && (r.Ok? <==> e.event.id !in s) &&
            s'.Keys == s.Keys + {e.event.id} && (r.Err? ==> s' == s) && (r.Ok? ==> s'[e.event.id] == e)
  {
    hide Kinded;
  }

  /** A completion fills one empty attestation slot, and only then reports success. */
  lemma CompleteExtends(s: Store, id: EventId, a: Attestation)
    requires Keyed(s)
    ensures var (s', r) := Completed(s, id, a);
            Keyed(s') && Extends(s', s) && (r.Ok? <==> id in s && s[id].attestation.None?) &&
            s'.Keys == s.Keys && (r.Err? ==> s' == s) && (r.Ok? ==> s'[id].attestation == Some(a))
  {
    hide Kinded;
  }

  // ---------------------------------------------------------------- queries

  predicate Matches(q: EventQuery, e: AnnouncedEvent)
    requires Kinded(e.event.id)
  {
    MatchesId(q, e.event.id) && (q.attested.Some? ==> q.attested.value == e.attestation.Some?)
  }

  /** The path filter is a raw prefix of the text. */
  predicate MatchesId(q: EventQuery, id: EventId)
    requires Kinded(id)
  {
    var path := PathOf(id);
    && (q.path.Some? ==> StartsWith(path, q.path.value))
    && (q.endsWith == ROOT || EndsWith(path, q.endsWith))
    && (q.kind.Some? ==> KindOf(id) == q.kind.value)
  }

  /** Events without a time come first. */
  predicate NoLater(a: Option<Time>, b: Option<Time>) {
    a.None? || (b.Some? && a.value <= b.value)
  }

  predicate InOrder(order: Order, a: Event, b: Event) {
    if order.Earliest? then NoLater(a.expectedOutcomeTime, b.expectedOutcomeTime)
    else NoLater(b.expectedOutcomeTime, a.expectedOutcomeTime)
  }

  predicate Ordered(order: Order, events: seq<Event>) {
    forall i, j | 0 <= i < j < |events| :: InOrder(order, events[i], events[j])
  }

  /** A list of exactly the matching events, each once, in the order asked for. */
  ghost predicate IsQueryResult(s: Store, q: EventQuery, events: seq<Event>)
    requires Keyed(s)
  {
    && Ordered(q.order, events)
    && (forall i, j | 0 <= i < j < |events| :: events[i].id != events[j].id)
    && (forall e | e in events :: e.id in s && s[e.id].event == e && Matches(q, s[e.id]))
    && (forall id | id in s && Matches(q, s[id]) :: s[id].event in events)
  }

  /** The first match, in the order asked for. */
  ghost predicate IsFirst(s: Store, q: EventQuery, first: Option<Event>)
    requires Keyed(s)
  {
    match first
    case None => forall id | id in s :: !Matches(q, s[id])
    case Some(e) =>
      && e.id in s && s[e.id].event == e && Matches(q, s[e.id])
      && forall id | id in s && Matches(q, s[id]) :: InOrder(q.order, e, s[id].event)
  }

  /** Every query has a first match, or none at all. */
  lemma {:induction false} FirstExists(s: Store, q: EventQuery, ids: set<EventId>) returns (first: Option<Event>)
    requires Keyed(s) && ids <= s.Keys
    ensures match first
            case None => forall id | id in ids :: !Matches(q, s[id])
            case Some(e) =>
              && e.id in ids && s[e.id].event == e && Matches(q, s[e.id])
              && forall id | id in ids && Matches(q, s[id]) :: InOrder(q.order, e, s[id].event)
    decreases ids
  {
    hide Kinded, Matches;
    first := None;
    if ids != {} {
      var id :| id in ids;
      first := FirstExists(s, q, ids - {id});
      if Matches(q, s[id]) && (first.None? || InOrder(q.order, s[id].event, first.value)) {
        first := Some(s[id].event);
      }
    }
  }

  /** A query finds an event by the beginning and the end of its path as text, by its kind, and by whether it is
      attested to. */
  lemma MatchesIff(q: EventQuery, e: AnnouncedEvent)
    requires Kinded(e.event.id)
    ensures Matches(q, e) <==>
            && (q.path.None? || exists rest: string :: PathOf(e.event.id) == q.path.value + rest)
            && (q.endsWith == ROOT || exists front: string :: PathOf(e.event.id) == front + q.endsWith)
            && (q.kind.None? || q.kind == Some(KindOf(e.event.id)))
            && (q.attested.None? || q.attested == Some(e.attestation.Some?))
  {
    hide ParseKind, StripEvent, KindOf;
    var path := PathOf(e.event.id);
    if q.path.Some? && StartsWith(path, q.path.value) {
      assert path == q.path.value + path[|q.path.value|..];
    }
    if EndsWith(path, q.endsWith) {
      assert path == path[..|path| - |q.endsWith|] + q.endsWith;
    }
  }

  predicate TimesGrow(events: seq<Event>) {
    forall i, j | 0 <= i < j < |events| ::
      events[i].expectedOutcomeTime.Some? && events[j].expectedOutcomeTime.Some? &&
      events[i].expectedOutcomeTime.value <= events[j].expectedOutcomeTime.value
  }

  predicate Timeless(events: seq<Event>) {
    forall e | e in events :: e.expectedOutcomeTime.None?
  }

  predicate Timed(events: seq<Event>) {
    forall e | e in events :: e.expectedOutcomeTime.Some?
  }

  function Backwards(events: seq<Event>): (r: seq<Event>)
    ensures |r| == |events| && forall i | 0 <= i < |events| :: r[i] == events[|events| - 1 - i]
  {
    seq(|events|, i requires 0 <= i < |events| => events[|events| - 1 - i])
  }

  /** Events without a time on one side of the cut, and times on the other. */
  predicate IsCut(order: Order, events: seq<Event>, cut: nat) {
    cut <= |events| &&
    if order.Earliest? then Timeless(events[..cut]) && Timed(events[cut..]) && TimesGrow(events[cut..])
    else Timeless(events[cut..]) && Timed(events[..cut]) && TimesGrow(Backwards(events[..cut]))
  }

  /** Forwards the events without a time come first and then the others by growing times; backwards it is the other
      way round. */
  lemma OrderedIff(order: Order, events: seq<Event>)
    ensures Ordered(order, events) <==> exists cut: nat :: IsCut(order, events, cut)
  {
    hide Ordered, IsCut;
    if Ordered(order, events) {
      var cut := CutOf(order, events);
    }
    forall cut: nat | IsCut(order, events, cut)
      ensures Ordered(order, events)
    {
      CutIsOrdered(order, events, cut);
    }
  }

  lemma CutOf(order: Order, events: seq<Event>) returns (cut: nat)
    requires Ordered(order, events)
    ensures IsCut(order, events, cut)
  {
    cut := 0;
    while cut < |events| && events[cut].expectedOutcomeTime.None? == order.Earliest?
      invariant cut <= |events|
      invariant forall i | 0 <= i < cut :: events[i].expectedOutcomeTime.None? == order.Earliest?
    {
      cut := cut + 1;
    }
    assert forall i | cut <= i < |events| :: InOrder(order, events[cut], events[i]) || i == cut;
  }

  lemma CutIsOrdered(order: Order, events: seq<Event>, cut: nat)
    requires IsCut(order, events, cut)
    ensures Ordered(order, events)
  {
    forall i, j | 0 <= i < j < |events|
      ensures InOrder(order, events[i], events[j])
    {
      if order.Earliest? {
        if i < cut {
          assert events[i] in events[..cut];
        } else {
          assert events[cut..][i - cut] == events[i] && events[cut..][j - cut] == events[j];
        }
      } else {
        if j >= cut {
          assert events[j] in events[cut..];
        } else {
          var back := Backwards(events[..cut]);
          assert back[cut - 1 - j] == events[j] && back[cut - 1 - i] == events[i];
        }
      }
    }
  }

  function InsertInOrder(order: Order, e: Event, events: seq<Event>): seq<Event> {
    if events == [] || InOrder(order, e, events[0]) then [e] + events
    else [events[0]] + InsertInOrder(order, e, events[1..])
  }

  lemma {:induction false} InsertInOrderKeeps(order: Order, e: Event, events: seq<Event>)
    requires Ordered(order, events)
    ensures var r := InsertInOrder(order, e, events);
            Ordered(order, r) && |r| == |events| + 1 &&
            (forall x :: x in r <==> x == e || x in events) &&
            (Distinct(events) && (forall x | x in events :: x.id != e.id) ==> Distinct(r))
  {
    hide Distinct;
    if events == [] {
      PutInFront(order, e, []);
    } else if InOrder(order, e, events[0]) {
      assert forall x | x in events :: InOrder(order, events[0], x);
      PutInFront(order, e, events);
    } else {
      DistinctTail(events);
      InsertInOrderKeeps(order, e, events[1..]);
      assert events == [events[0]] + events[1..];
      PutInFront(order, events[0], InsertInOrder(order, e, events[1..]));
    }
  }

  /** Every query has a list of all matches. */
  lemma {:induction false} AllMatches(s: Store, q: EventQuery, ids: set<EventId>) returns (events: seq<Event>)
    requires Keyed(s) && ids <= s.Keys
    ensures Ordered(q.order, events) && Distinct(events)
    ensures forall e | e in events :: e.id in ids && s[e.id].event == e && Matches(q, s[e.id])
    ensures forall id | id in ids && Matches(q, s[id]) :: s[id].event in events
    decreases ids
  {
    hide Kinded, Matches, Ordered, Distinct, InsertInOrder;
    events := [];
    if ids == {} {
      NoEvents(q.order);
    } else {
      var id :| id in ids;
      events := AllMatches(s, q, ids - {id});
      if Matches(q, s[id]) {
        InsertInOrderKeeps(q.order, s[id].event, events);
        events := InsertInOrder(q.order, s[id].event, events);
      }
    }
  }

  lemma NoEvents(order: Order)
    ensures Ordered(order, []) && Distinct([])
  {
  }

  lemma MatchesAreResult(s: Store, q: EventQuery, events: seq<Event>)
    requires Keyed(s) && Ordered(q.order, events) && Distinct(events)
    requires forall e | e in events :: e.id in s && s[e.id].event == e && Matches(q, s[e.id])
    requires forall id | id in s && Matches(q, s[id]) :: s[id].event in events
    ensures IsQueryResult(s, q, events)
  {
    hide Kinded, Matches, Ordered;
  }

  lemma DistinctTail(events: seq<Event>)
    requires events != []
    ensures Distinct(events) ==> Distinct(events[1..]) && forall x | x in events[1..] :: x.id != events[0].id
  {
  }

  lemma PutInFront(order: Order, first: Event, rest: seq<Event>)
    requires Ordered(order, rest) && forall x | x in rest :: InOrder(order, first, x)
    ensures Ordered(order, [first] + rest)
    ensures Distinct(rest) && (forall x | x in rest :: first.id != x.id) ==> Distinct([first] + rest)
  {
    hide InOrder;
  }

  predicate Distinct(events: seq<Event>) {
    forall i, j | 0 <= i < j < |events| :: events[i].id != events[j].id
  }

  // ---------------------------------------------------------------- nodes

  /** The name under which an event below `path` shows in the node at `path`. */
  function ChildName(path: Path, eventPath: Path): Option<string> {
    if IsParentOf(path, eventPath) then First(StripPrefix(eventPath, path)) else None
  }

  function ChildAt(kinds: map<Path, NodeKind>, path: Path, name: string): Child {
    Child(name, KindAt(kinds, Prefix(ChildOf(ROOT, name), path)))
  }

  predicate AllKinded(ids: set<EventId>) {
    forall id {:trigger id in ids} | id in ids :: Kinded(id)
  }

  /** One of the `ids` lies below `path` under the name of `c`. */
  ghost predicate IsChild(ids: set<EventId>, kinds: map<Path, NodeKind>, path: Path, c: Child)
    requires AllKinded(ids)
  {
    c == ChildAt(kinds, path, c.name) && exists id | id in ids :: ChildName(path, PathOf(id)) == Some(c.name)
  }

  /** Strictly increasing names, and exactly the children that the stored events give. */
  ghost predicate IsChildList(ids: set<EventId>, kinds: map<Path, NodeKind>, path: Path, list: seq<Child>)
    requires AllKinded(ids)
  {
    StrictlySorted(list) && forall c :: c in list <==> IsChild(ids, kinds, path, c)
  }

  lemma ChildStep(done: set<EventId>, id: EventId, kinds: map<Path, NodeKind>, path: Path, list: seq<Child>)
    requires AllKinded(done) && Kinded(id)
    requires forall c :: c in list <==> IsChild(done, kinds, path, c)
    ensures var name := ChildName(path, PathOf(id));
            var list' := if name.Some? then list + [ChildAt(kinds, path, name.value)] else list;
            forall c :: c in list' <==> IsChild(done + {id}, kinds, path, c)
  {
    var name := ChildName(path, PathOf(id));
    forall c
      ensures IsChild(done + {id}, kinds, path, c) <==>
              IsChild(done, kinds, path, c) || (name.Some? && c == ChildAt(kinds, path, name.value))
    {
      if IsChild(done, kinds, path, c) {
        var i :| i in done && ChildName(path, PathOf(i)) == Some(c.name);
        assert i in done + {id};
      }
      if name.Some? && c == ChildAt(kinds, path, name.value) {
        assert id in done + {id};
      }
    }
  }

  /** Node events are found by what follows the path in the text of the id. */
  predicate AtNode(path: Path, id: EventId) {
    StartsWith(id.text, path) && StartsWith(id.text[|path|..], ".")
  }

  // ---------------------------------------------------------------- dates

  /** The path of the event continues the text of `path`, and no slash is left of the id once that is stripped. */
  predicate DatePanics(path: Path, id: EventId)
    requires Kinded(id)
  {
    StartsWith(PathOf(id), path) && '/' !in StripId(id, path).text
  }

  /** That is when the stripped id has no event to look at. */
  lemma DateLookupFailsIff(path: Path, id: EventId)
    requires Kinded(id)
    ensures DatePanics(path, id) <==> StartsWith(PathOf(id), path) && StripEvent(StripId(id, path).text).None?
  {
    hide ParseKind, StripEvent, KindOf;
    StripEventParts(id.text);
    if StartsWith(PathOf(id), path) {
      assert id.text[..|path|] == PathOf(id)[..|path|];
      StrippedIdShowsEventIff(id, path);
    }
  }

  /** Every event that sits at the node itself does it, below the root. */
  lemma EventAtNodePanics(path: Path, id: EventId)
    requires Kinded(id) && PathOf(id) == path && path != ROOT
    ensures DatePanics(path, id)
  {
    hide ParseKind, StripEvent;
    StripEventParts(id.text);
    var kindText := StripEvent(id.text).value.1;
    assert StripId(id, path).text == "." + kindText;
  }

  /** What the loop over the events adds to the map. */
  function DateEntry(parse: string -> Option<Date>, path: Path, id: EventId): Option<(Date, string)>
    requires Kinded(id) && !DatePanics(path, id)
  {
    if !StartsWith(PathOf(id), path) then None
    else
      DateLookupFailsIff(path, id);
      var segments := Segments(PathOf(StripId(id, path)));
      if |segments| < 2 then None
      else
        match parse(segments[0])
        case None => None
        case Some(date) => Some((date, segments[1]))
  }

  /** It adds the name of an event under its date, and for all others nothing. */
  lemma DateEntryIff(parse: string -> Option<Date>, path: Path, id: EventId, d: Date, n: string)
    requires Kinded(id) && !DatePanics(path, id)
    ensures DateEntry(parse, path, id) == Some((d, n)) <==> DatedBehind(parse, path, PathOf(id), d, n)
  {
    hide ParseKind, StripEvent, KindOf, GoesOnWith, Behind, Segments, Split;
    if StartsWith(PathOf(id), path) {
      var stripped := StrippedPath(path, id);
      forall rest
        ensures GoesOnWith(path, PathOf(id), rest) <==> Behind(stripped, rest)
      {
        GoesOnIff(path, PathOf(id), rest);
      }
      if DateEntry(parse, path, id) == Some((d, n)) {
        var text := Segments(stripped)[0];
        FirstTwoIff(stripped, text, n);
        var tail :| '/' !in text && '/' !in n && PieceEnds(tail, '/') && Behind(stripped, text + "/" + (n + tail));
        assert parse(text) == Some(d) && GoesOnWith(path, PathOf(id), text + "/" + (n + tail));
      }
      if DatedBehind(parse, path, PathOf(id), d, n) {
        var text, tail :|
          parse(text) == Some(d) && '/' !in text && '/' !in n && PieceEnds(tail, '/') &&
          GoesOnWith(path, PathOf(id), text + "/" + (n + tail));
        FirstTwoIff(stripped, text, n);
      }
    } else {
      forall rest
        ensures !GoesOnWith(path, PathOf(id), rest)
      {
        GoesOnIff(path, PathOf(id), rest);
      }
    }
  }

  lemma StrippedPath(path: Path, id: EventId) returns (stripped: Path)
    requires Kinded(id) && !DatePanics(path, id) && StartsWith(PathOf(id), path)
    ensures StripEvent(StripId(id, path).text).Some?
    ensures stripped == StripPrefix(PathOf(id), path) == PathOf(StripId(id, path))
  {
    hide ParseKind, StripEvent, KindOf;
    DateLookupFailsIff(path, id);
    StripEventParts(id.text);
    assert id.text[..|path|] == PathOf(id)[..|path|];
    StrippedIdShowsEventIff(id, path);
    stripped := PathOf(StripId(id, path));
    assert path != ROOT ==> PathOf(id)[|path|..] == stripped;
    assert path == ROOT ==> PathOf(id) == stripped;
  }

  /** The path of an event goes on with `rest` behind that of a node: behind a slash, or behind the next one where more
      than a slash follows the text of the node. */
  ghost predicate GoesOnWith(path: Path, eventPath: Path, rest: string) {
    exists junk: string ::
      '/' !in junk && (path == ROOT ==> junk == "") && eventPath == Base(path) + (junk + ("/" + rest))
  }

  ghost predicate NamedBehind(path: Path, eventPath: Path, name: string) {
    exists tail :: '/' !in name && PieceEnds(tail, '/') && GoesOnWith(path, eventPath, name + tail)
  }

  /** The first word behind the path of the node is a date, and the second one is the name. */
  ghost predicate DatedBehind(parse: string -> Option<Date>, path: Path, eventPath: Path, date: Date, name: string) {
    exists text, tail ::
      parse(text) == Some(date) && '/' !in text && '/' !in name && PieceEnds(tail, '/') &&
      GoesOnWith(path, eventPath, text + "/" + (name + tail))
  }

  lemma GoesOnIff(path: Path, eventPath: Path, rest: string)
    ensures GoesOnWith(path, eventPath, rest) <==>
            StartsWith(eventPath, path) && Behind(StripPrefix(eventPath, path), rest)
  {
    if GoesOnWith(path, eventPath, rest) {
      var junk: string :|
        '/' !in junk && (path == ROOT ==> junk == "") && eventPath == Base(path) + (junk + ("/" + rest));
      assert StripPrefix(eventPath, path) == junk + ("/" + rest);
    }
    if StartsWith(eventPath, path) && Behind(StripPrefix(eventPath, path), rest) {
      var junk: string :| '/' !in junk && StripPrefix(eventPath, path) == junk + ("/" + rest);
      assert eventPath == Base(path) + (junk + ("/" + rest));
      assert junk != "" ==> (junk + ("/" + rest))[0] == junk[0] != '/';
    }
  }

  ghost predicate SomeDated(parse: string -> Option<Date>, path: Path, ids: set<EventId>, date: Date, name: string)
    requires AllKinded(ids)
  {
    exists id | id in ids :: DatedBehind(parse, path, PathOf(id), date, name)
  }

  /** The relation from dates to names of the events in `ids`, with no date left without a name. */
  ghost predicate IsDateMap(parse: string -> Option<Date>, path: Path, ids: set<EventId>, dates: map<Date, set<string>>)
    requires AllKinded(ids)
  {
    && (forall d, n :: d in dates && n in dates[d] <==> SomeDated(parse, path, ids, d, n))
    && (forall d | d in dates :: dates[d] != {})
  }

  /** The events of a node: each of the stored ones at the path gives its kind, once. */
  ghost predicate AreNodeEvents(s: Store, path: Path, kinds: seq<EventKind>)
    requires Keyed(s)
  {
    exists ids | ListsNode(s.Keys, path, ids) :: GivesKinds(ids, kinds)
  }

  ghost predicate ListsNode(from: set<EventId>, path: Path, ids: seq<EventId>) {
    && (forall i, j | 0 <= i < j < |ids| :: ids[i] != ids[j])
    && (forall id :: id in ids <==> id in from && AtNode(path, id))
  }

  predicate GivesKinds(ids: seq<EventId>, kinds: seq<EventKind>) {
    |kinds| == |ids| && forall i | 0 <= i < |ids| :: Kinded(ids[i]) && kinds[i] == KindOf(ids[i])
  }

  /** Looking at a date map panics when some stored id passes the raw prefix test without a slash after it. */
  ghost predicate PanicsAt(s: Store, kinds: map<Path, NodeKind>, path: Path)
    requires Keyed(s)
  {
    KindAt(kinds, path) == DateMap && exists id | id in s :: DatePanics(path, id)
  }

  /** Such a store: the node of a competition is a date map by its path alone, and an event sits at it. */
  lemma SomeDateMapPanics(r: AnnouncedEvent) returns (s: Store)
    requires r.event.id == EventId("/s/a/match.occur")
    ensures s == map[r.event.id := r] && Valid(r.event.id) && Keyed(s) && PanicsAt(s, map[], "/s/a/match")
  {
    hide ParseKind, StripEvent, FromStr, InferNodeKind, DatePanics, IsPath, WithEvent, Last;
    MatchNode();
    MatchEvent();
    s := map[r.event.id := r];
    EventAtNodePanics("/s/a/match", r.event.id);
  }

  lemma MatchEvent()
    ensures var id := EventId("/s/a/match.occur");
            Valid(id) && Kinded(id) && PathOf(id) == "/s/a/match" && "/s/a/match" != ROOT
  {
    hide ParseKind, StripEvent, FromStr, Last, InferNodeKind;
    MatchNode();
    OccurrenceIsValid("/s/a/match");
    assert WithEvent("/s/a/match", PrintKind(SingleOccurrence)) == "/s/a/match.occur";
  }

  lemma MatchNode()
    ensures var path := "/s/a/match";
            StartsWith(path, "/") && '.' !in Last(path) && '/' in path && InferNodeKind(path) == DateMap
  {
    MatchLast();
    MatchSegments();
    hide Segments, Last, Split, LastIndexOf, Valid;
    assert "/s/a/match"[0] == '/';
  }

  lemma MatchLast()
    ensures Last("/s/a/match") == "match"
  {
    hide Split;
    LastIndexOfIs("/s/a/match", '/', 4);
  }

  lemma MatchSegments()
    ensures Segments("/s/a/match") == ["s", "a", "match"]
  {
    hide SplitFrom, LastIndexOf;
    var path := "/s/a/match";
    SplitFromIs(path, '/', 0, 0);
    SplitFromIs(path, '/', 1, 2);
    SplitFromIs(path, '/', 3, 4);
    SplitFromIs(path, '/', 5, 10);
    assert path[1..2] == [path[1]] && path[3..4] == [path[3]];
    assert path[5..10] == [path[5], path[6], path[7], path[8], path[9]];
  }

  /** The event shows in the node: as an event of it or below one of its children. */
  predicate ShowsAt(path: Path, id: EventId)
    requires Kinded(id)
  {
    AtNode(path, id) || ChildName(path, PathOf(id)).Some?
  }

  function NextUnattested(path: Path): EventQuery {
    EventQuery(Some(path), Some(false), Earliest, ROOT, None)
  }

  function NextName(path: Path, first: Option<Event>): Option<string>
    requires first.Some? ==> Kinded(first.value.id)
  {
    if first.None? then None else First(StripPrefix(PathOf(first.value.id), path))
  }

  /** The query for the next event passes over nothing but what is attested to or does not begin with the path. */
  ghost predicate Waiting(s: Store, path: Path, id: EventId)
    requires Keyed(s)
  {
    id in s && s[id].attestation.None? && StartsWith(PathOf(id), path)
  }

  /** The first word behind the path of a waiting event that is due no later than any other, or nothing when there is
      no such event or no such word. */
  ghost predicate IsNextDue(s: Store, path: Path, next: Option<string>)
    requires Keyed(s)
  {
    if forall id :: !Waiting(s, path, id) then next == None
    else
      exists id | Waiting(s, path, id) ::
        && (forall other | Waiting(s, path, other) ::
              NoLater(s[id].event.expectedOutcomeTime, s[other].event.expectedOutcomeTime))
        && forall name :: next == Some(name) <==> NamedBehind(path, PathOf(id), name)
  }

  lemma NextDueIs(s: Store, path: Path, first: Option<Event>)
    requires Keyed(s) && IsFirst(s, NextUnattested(path), first)
    ensures IsNextDue(s, path, NextName(path, first))
  {
    hide ParseKind, StripEvent, NamedBehind, First, KindOf;
    WaitingMatches(s, path);
    if first.Some? {
      var id := first.value.id;
      assert Waiting(s, path, id);
      forall name
        ensures First(StripPrefix(PathOf(id), path)) == Some(name) <==> NamedBehind(path, PathOf(id), name)
      {
        NamedBehindIff(path, PathOf(id), name);
      }
    }
  }

  lemma WaitingMatches(s: Store, path: Path)
    requires Keyed(s)
    ensures forall id | id in s :: Matches(NextUnattested(path), s[id]) <==> Waiting(s, path, id)
  {
    hide ParseKind, StripEvent;
  }

  lemma NamedBehindIff(path: Path, eventPath: Path, name: string)
    requires StartsWith(eventPath, path)
    ensures First(StripPrefix(eventPath, path)) == Some(name) <==> NamedBehind(path, eventPath, name)
  {
    hide First, GoesOnWith, Behind;
    forall rest
      ensures GoesOnWith(path, eventPath, rest) <==> Behind(StripPrefix(eventPath, path), rest)
    {
      GoesOnIff(path, eventPath, rest);
    }
    FirstIff(StripPrefix(eventPath, path), name);
  }

  /** What is named next is a child of the node exactly when a slash follows the path of the node at once. */
  lemma NextIsChildIff(path: Path, eventPath: Path, name: string)
    requires StartsWith(path, "/") && NamedBehind(path, eventPath, name)
    ensures ChildName(path, eventPath) == Some(name) <==> path == ROOT || eventPath[..|path| + 1] == path + "/"
  {
    hide First, IsParentOf;
    var tail :| '/' !in name && PieceEnds(tail, '/') && GoesOnWith(path, eventPath, name + tail);
    GoesOnIff(path, eventPath, name + tail);
    NamedBehindIff(path, eventPath, name);
    assert eventPath[0] == path[0] == '/';
    RawPrefixOfDescendant(path, eventPath);
    IsParentOfIff(path, eventPath);
    assert path != ROOT ==> |eventPath| > |path|;
  }

  /** So a range can name as next what is none of its children: the path of the event that waits only begins with the
      text of the path. */
  lemma SomeNextIsNoChild(a: AnnouncedEvent, b: AnnouncedEvent) returns (s: Store)
    requires a.event.id == EventId("/x/a.occur") && a.attestation.Some?
    requires b.event.id == EventId("/xy/b.occur") && b.attestation.None?
    ensures s == map[a.event.id := a, b.event.id := b] && Keyed(s) && Valid(a.event.id) && Valid(b.event.id)
    ensures IsNextDue(s, "/x", Some("b"))
    ensures forall c | IsChild(s.Keys, map[], "/x", c) :: c.name == "a"
  {
    hide ParseKind, StripEvent, FromStr, IsNextDue, Waiting, KindOf, ChildName, InferNodeKind;
    TwoEvents();
    NamesBelow();
    s := map[a.event.id := a, b.event.id := b];
    OnlyBesideWaits(s, a.event.id, b.event.id);
    NextIsBeside(s, b.event.id);
  }

  lemma TwoEvents()
    ensures var a, b := EventId("/x/a.occur"), EventId("/xy/b.occur");
            Valid(a) && Valid(b) && Kinded(a) && Kinded(b) && PathOf(a) == "/x/a" && PathOf(b) == "/xy/b" && a != b
  {
    hide ParseKind, StripEvent, FromStr, IsPath, Last;
    WordBehind("/x", "a");
    WordBehind("/xy", "b");
    assert "/x" + ("/" + "a") == "/x/a" && "/xy" + ("/" + "b") == "/xy/b";
    assert "/x/a"[0] == "/xy/b"[0] == '/' && "/x/a.occur"[2] != "/xy/b.occur"[2];
    OccurrenceIsValid("/x/a");
    OccurrenceIsValid("/xy/b");
    assert PrintKind(SingleOccurrence) == "occur";
    assert WithEvent("/x/a", "occur") == "/x/a.occur" && WithEvent("/xy/b", "occur") == "/xy/b.occur";
  }

  lemma OnlyBesideWaits(s: Store, a: EventId, b: EventId)
    requires Keyed(s) && s.Keys == {a, b} && s[a].attestation.Some? && s[b].attestation.None?
    requires Kinded(b) && PathOf(b) == "/xy/b"
    ensures forall id :: Waiting(s, "/x", id) <==> id == b
  {
    hide ParseKind, StripEvent;
    assert "/xy/b"[..2] == "/x";
  }

  lemma NextIsBeside(s: Store, b: EventId)
    requires Keyed(s) && (forall id :: Waiting(s, "/x", id) <==> id == b)
    requires b in s && Kinded(b) && PathOf(b) == "/xy/b"
    ensures IsNextDue(s, "/x", Some("b"))
  {
    hide ParseKind, StripEvent, NamedBehind, Waiting;
    forall name
      ensures Some("b") == Some(name) <==> NamedBehind("/x", PathOf(b), name)
    {
      NextWord(name);
    }
    assert Waiting(s, "/x", b);
  }

  lemma WordBehind(front: string, word: string)
    requires '/' !in word && '.' !in word
    ensures '/' in front + ("/" + word) && Last(front + ("/" + word)) == word
  {
    LastIndexOfAt(front, '/', word);
    assert front + ['/'] + word == front + ("/" + word);
    assert (front + ("/" + word))[|front|] == '/';
  }

  lemma NextWord(name: string)
    ensures NamedBehind("/x", "/xy/b", name) <==> name == "b"
  {
    hide First;
    assert "/xy/b"[..2] == "/x" && "/xy/b"[2..] == "y/b";
    NamedBehindIff("/x", "/xy/b", name);
    FirstIff("y/b", "b");
    assert "y/b" == "y" + ("/" + ("b" + ""));
    assert Behind("y/b", "b" + "");
  }

  lemma NamesBelow()
    ensures ChildName("/x", "/xy/b") == None && ChildName("/x", "/x/a") == Some("a")
  {
    hide First;
    assert "/x"[0] == "/xy/b"[0] == "/x/a"[0] == '/';
    IsParentOfIff("/x", "/xy/b");
    IsParentOfIff("/x", "/x/a");
    assert "/xy/b"[2] == 'y' && ("/x" + "/")[2] == '/';
    assert "/x/a"[..3] == "/x" + "/" && "/x/a"[2..] == "/a";
    FirstIff("/a", "a");
    assert "/a" == "" + ("/" + ("a" + ""));
    assert Behind("/a", "a" + "");
  }

  /** What a node says about its children: all of them, the two ends of them, or dates. */
  ghost predicate IsChildDesc(
    s: Store, kinds: map<Path, NodeKind>, parse: string -> Option<Date>, path: Path, d: ChildDesc)
    requires Keyed(s)
  {
    match KindAt(kinds, path)
    case List => d.ListOf? && IsChildList(s.Keys, kinds, path, d.list)
    case Range(interval) =>
      exists list: seq<Child>, next | IsChildList(s.Keys, kinds, path, list) && IsNextDue(s, path, next) ::
        d == if list == [] then ListOf([])
             else RangeOf(interval, Some(list[0].name), next, Some(list[|list| - 1].name))
    case DateMap =>
      d.DatesOf? && (forall id | id in s :: !DatePanics(path, id)) && IsDateMap(parse, path, s.Keys, d.dates)
  }

  lemma ShowsIff(s: Store, kinds: map<Path, NodeKind>, path: Path, list: seq<Child>, events: seq<EventKind>)
    requires Keyed(s) && IsChildList(s.Keys, kinds, path, list)
    requires AreNodeEvents(s, path, events)
    ensures (events != [] || list != []) <==> exists id | id in s :: ShowsAt(path, id)
  {
    var ids :| ListsNode(s.Keys, path, ids) && GivesKinds(ids, events);
    if events != [] {
      assert ids[0] in ids;
    }
    if list != [] {
      assert list[0] in list;
    }
    forall id | id in s && ShowsAt(path, id)
      ensures events != [] || list != []
    {
      if AtNode(path, id) {
        assert id in ids;
      } else {
        var c := ChildAt(kinds, path, ChildName(path, PathOf(id)).value);
        assert IsChild(s.Keys, kinds, path, c);
        assert c in list;
      }
    }
  }

  function AddDate(dates: map<Date, set<string>>, entry: Option<(Date, string)>): map<Date, set<string>> {
    match entry
    case None => dates
    case Some((date, name)) => dates[date := (if date in dates then dates[date] else {}) + {name}]
  }

  lemma AddDateHas(dates: map<Date, set<string>>, entry: Option<(Date, string)>, d: Date, n: string)
    ensures var after := AddDate(dates, entry);
            d in after && n in after[d] <==> (d in dates && n in dates[d]) || entry == Some((d, n))
  {
  }

  lemma EntriesStep(
    parse: string -> Option<Date>, path: Path, done: set<EventId>, id: EventId, d: Date, n: string)
    requires AllKinded(done) && AllKinded(done + {id}) && forall i | i in done + {id} :: !DatePanics(path, i)
    ensures SomeDated(parse, path, done + {id}, d, n) <==>
            SomeDated(parse, path, done, d, n) || DateEntry(parse, path, id) == Some((d, n))
  {
    hide ParseKind, StripEvent, KindOf, DatePanics, DateEntry, DatedBehind;
    assert id in done + {id};
    DateEntryIff(parse, path, id, d, n);
    if i :| i in done && DatedBehind(parse, path, PathOf(i), d, n) {
      assert i in done + {id};
    }
  }

  lemma DateMapStep(
    parse: string -> Option<Date>, path: Path, done: set<EventId>, id: EventId, dates: map<Date, set<string>>)
    requires AllKinded(done) && AllKinded(done + {id}) && forall i | i in done + {id} :: !DatePanics(path, i)
    requires IsDateMap(parse, path, done, dates)
    ensures IsDateMap(parse, path, done + {id}, AddDate(dates, DateEntry(parse, path, id)))
  {
    hide Kinded, DatePanics, DateEntry, SomeDated, AddDate;
    var after := AddDate(dates, DateEntry(parse, path, id));
    forall d, n
      ensures d in after && n in after[d] <==> SomeDated(parse, path, done + {id}, d, n)
    {
      AddDateHas(dates, DateEntry(parse, path, id), d, n);
      EntriesStep(parse, path, done, id, d, n);
    }
    AddDateNamed(dates, DateEntry(parse, path, id));
  }

  lemma AddDateNamed(dates: map<Date, set<string>>, entry: Option<(Date, string)>)
    requires forall d | d in dates :: dates[d] != {}
    ensures forall d | d in AddDate(dates, entry) :: AddDate(dates, entry)[d] != {}
  {
  }

  datatype NodeResult = Found(node: GetPath) | Absent | NodePanics

  class InMemory {
    var publicKeys: Option<OracleKeys>
    var inner: Store
    var nodeKinds: map<Path, NodeKind>
    const parseDate: string -> Option<Date>

    ghost predicate Valid()
      reads this
    {
      Keyed(inner)
    }

    constructor (parseDate: string -> Option<Date>)
      ensures Valid() && publicKeys == None && inner == map[] && nodeKinds == map[] && this.parseDate == parseDate
    {
      publicKeys, inner, nodeKinds := None, map[], map[];
      this.parseDate := parseDate;
    }

    method GetAnnouncedEvent(id: EventId) returns (r: Option<AnnouncedEvent>)
      ensures r == if id in inner then Some(inner[id]) else None
    {
      if id in inner {
        r := Some(inner[id]);
      } else {
        r := None;
      }
    }

    method InsertEvent(e: AnnouncedEvent) returns (r: Result<(), DbError>)
      requires Valid() && Kinded(e.event.id)
      modifies this`inner
      ensures Valid() && (inner, r) == Inserted(old(inner), e)
    {
      if e.event.id in inner {
        r := Err(EventExists);
      } else {
        inner := inner[e.event.id := e];
        r := Ok(());
      }
    }

    method CompleteEvent(id: EventId, a: Attestation) returns (r: Result<(), DbError>)
      requires Valid()
      modifies this`inner
      ensures Valid() && (inner, r) == Completed(old(inner), id, a)
    {
      if id in inner {
        if inner[id].attestation.Some? {
          r := Err(AlreadyAttested);
        } else {
          inner := inner[id := inner[id].(attestation := Some(a))];
          r := Ok(());
        }
      } else {
        r := Err(NoSuchEvent);
      }
    }

    method SetPublicKeys(keys: OracleKeys)
      modifies this`publicKeys
      ensures publicKeys == Some(keys)
    {
      publicKeys := Some(keys);
    }

    method SetNode(node: Node)
      modifies this`nodeKinds
      ensures nodeKinds == old(nodeKinds)[node.path := node.kind]
    {
      nodeKinds := nodeKinds[node.path := node.kind];
    }

    method QueryEvents(q: EventQuery) returns (events: seq<Event>)
      requires Valid()
      ensures IsQueryResult(inner, q, events)
    {
      hide Kinded, Matches, InOrder;
      events := [];
      var todo := inner.Keys;
      while todo != {}
        invariant todo <= inner.Keys
        invariant Ordered(q.order, events) && Distinct(events)
        invariant forall e | e in events ::
                    e.id in inner.Keys - todo && inner[e.id].event == e && Matches(q, inner[e.id])
        invariant forall id | id in inner.Keys - todo && Matches(q, inner[id]) :: inner[id].event in events
        decreases todo
      {
        var id :| id in todo;
        if Matches(q, inner[id]) {
          InsertInOrderKeeps(q.order, inner[id].event, events);
          events := InsertInOrder(q.order, inner[id].event, events);
        }
        todo := todo - {id};
      }
    }

    method QueryEvent(q: EventQuery) returns (first: Option<Event>)
      requires Valid()
      ensures IsFirst(inner, q, first)
    {
      var events := QueryEvents(q);
      if events == [] {
        first := None;
      } else {
        first := Some(events[0]);
        assert events[0] in events;
        forall id | id in inner && Matches(q, inner[id])
          ensures InOrder(q.order, events[0], inner[id].event)
        {
          assert inner[id].event in events;
        }
      }
    }

    method ChildList(path: Path) returns (list: seq<Child>)
      requires Valid()
      ensures IsChildList(inner.Keys, nodeKinds, path, list)
    {
      list := [];
      var todo := inner.Keys;
      while todo != {}
        invariant todo <= inner.Keys
        invariant forall c :: c in list <==> IsChild(inner.Keys - todo, nodeKinds, path, c)
        decreases todo
      {
        var id :| id in todo;
        ghost var done := inner.Keys - todo;
        ChildStep(done, id, nodeKinds, path, list);
        var name := ChildName(path, PathOf(id));
        if name.Some? {
          list := list + [ChildAt(nodeKinds, path, name.value)];
        }
        todo := todo - {id};
        assert inner.Keys - todo == done + {id};
      }
      assert inner.Keys - {} == inner.Keys;
      SortKeeps(list);
      list := Dedup(SortByName(list));
    }

    method NodeEvents(path: Path) returns (kinds: seq<EventKind>)
      requires Valid()
      ensures AreNodeEvents(inner, path, kinds)
    {
      hide ParseKind, AtNode, StripEvent;
      kinds := [];
      ghost var ids: seq<EventId> := [];
      var todo := inner.Keys;
      while todo != {}
        invariant todo <= inner.Keys
        invariant ListsNode(inner.Keys - todo, path, ids) && GivesKinds(ids, kinds)
        decreases todo
      {
        var id :| id in todo;
        if AtNode(path, id) {
          assert id !in ids;
          kinds := kinds + [KindOf(id)];
          ids := ids + [id];
        }
        todo := todo - {id};
      }
      assert inner.Keys - {} == inner.Keys;
    }

    method Dates(path: Path) returns (dates: Option<map<Date, set<string>>>)
      requires Valid()
      ensures dates.None? <==> exists id | id in inner :: DatePanics(path, id)
      ensures dates.Some? ==> IsDateMap(parseDate, path, inner.Keys, dates.value)
    {
      hide ParseKind, StripEvent, StartsWith, DatePanics, DateEntry, AddDate, DatedBehind;
      var found: map<Date, set<string>> := map[];
      var todo := inner.Keys;
      while todo != {}
        invariant todo <= inner.Keys
        invariant forall id | id in inner.Keys - todo :: !DatePanics(path, id)
        invariant IsDateMap(parseDate, path, inner.Keys - todo, found)
        decreases todo
      {
        var id :| id in todo;
        DateLookupFailsIff(path, id);
        if StartsWith(PathOf(id), path) && StripEvent(StripId(id, path).text).None? {
          return None;
        }
        ghost var done := inner.Keys - todo;
        assert forall i | i in done + {id} :: !DatePanics(path, i);
        DateMapStep(parseDate, path, done, id, found);
        found := AddDate(found, DateEntry(parseDate, path, id));
        todo := todo - {id};
        assert inner.Keys - todo == done + {id};
      }
      assert inner.Keys - {} == inner.Keys;
      dates := Some(found);
    }

    /** The description of the children; nothing when a date map meets an id it cannot look into. */
    method Describe(path: Path, list: seq<Child>, first: Option<Event>) returns (d: Option<ChildDesc>)
      requires Valid() && IsChildList(inner.Keys, nodeKinds, path, list) && IsFirst(inner, NextUnattested(path), first)
      ensures d.None? <==> PanicsAt(inner, nodeKinds, path)
      ensures d.Some? ==> IsChildDesc(inner, nodeKinds, parseDate, path, d.value)
    {
      hide Kinded, DatePanics, IsDateMap, IsChildList, Matches, InferNodeKind, IsNextDue;
      NextDueIs(inner, path, first);
      match KindAt(nodeKinds, path) {
        case List =>
          d := Some(ListOf(list));
        case Range(interval) =>
          if list == [] {
            d := Some(ListOf([]));
          } else {
            d := Some(RangeOf(interval, Some(list[0].name), NextName(path, first), Some(list[|list| - 1].name)));
          }
        case DateMap =>
          var dates := Dates(path);
          d := if dates.None? then None else Some(DatesOf(dates.value));
      }
    }

    method GetNode(path: Path) returns (r: NodeResult)
      requires Valid()
      ensures r.NodePanics? <==> PanicsAt(inner, nodeKinds, path)
      ensures !r.NodePanics? ==> (r.Found? <==> exists id | id in inner :: ShowsAt(path, id))
      ensures r.Found? ==> AreNodeEvents(inner, path, r.node.events)
      ensures r.Found? ==> IsChildDesc(inner, nodeKinds, parseDate, path, r.node.children)
    {
      var first := QueryEvent(NextUnattested(path));
      var list := ChildList(path);
      var events := NodeEvents(path);
      var children := Describe(path, list, first);
      if children.None? {
        return NodePanics;
      }
      ShowsIff(inner, nodeKinds, path, list, events);
      r := if events == [] && list == [] then Absent else Found(GetPath(events, children.value));
    }
  }
}
