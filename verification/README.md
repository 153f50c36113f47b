# Olivia, an attestation oracle

Olivia announces events, commits to one nonce for every digit of an outcome, and later attests to
one outcome of each event by revealing one scalar per nonce. This project models its core in Dafny
and proves what the oracle promises to the people who rely on it. `dafny verify dfyconfig.toml`
checks everything.

Four parts build on each other.

* **The grammar** (`Strings`, `Decimal`, `Paths`, `EventKinds`, `EventIds`, `Outcomes`, `IdParser`,
  `Grammar`, `Digits`): paths and their ancestors, the recursive parser and the printer of event kinds,
  validated event ids, what both parsers accept told from the text alone, outcome strings and values, and
  the digits a price is attested with.
* **Announcing and attesting** (`Secp256k1`, `Announcements`, `Attestations`, `KeyChains`, `Stores`,
  `Oracles`, `OracleRuns`, `Interleavings`, `Openings`, `OracleSafety`): the key chain, the in-memory
  store, the oracle as a state machine over that store, runs of any oracles opened over it, and any
  number of callers interleaving between the read and the write of each call, openings included.
* **The tree of events** (`Nodes`, `Stores`, `PgTrees`, `TreeRefinement`): the scan that answers for
  a node in memory, and the parent-pointer table that Postgres keeps instead.
* **The tickers** (`Related`, `Tickers`, `Ticks`, `RelatedTicks`, `TickerRuns`, `PredicateRuns`,
  `TickerDriver`): the event ticker, the outcome ticker, predicates and related outcomes, and the loop that
  feeds the oracle, as one step protocol with a clock, failed lookups and writes, lost replies, restarts and
  other sources, and as objects that run.

How the model speaks about the program:

* Objects that the program updates are classes (`InMemory`, `PgTables`, `Oracle`, the two tickers, the
  two wrapping streams and `OracleLoop`). Their methods are proved against functions on values, and the
  theorems about runs are about those functions: the transitions of the tickers (`AfterLatest`, `Woken`,
  `TickEvent`, `AfterEarliest`, `Created`) are the ones that `TickerRuns.After` takes. `Driver` owns all of
  these objects, and every step it makes with them is proved to be a move of the protocol.
* A point of the curve is its discrete logarithm modulo the order of the group, and key pairs start with
  a point that is the secret times the generator, which is what the even-Y convention of BIP 340 (Design
  section, implicit Y coordinates) leaves to its users.
* Seeds and signatures are free terms; the hash onto scalars is an arbitrary function. Theorems that need
  two oracles with equal published keys to come from one seed say so, and only of the oracles that the run
  in question opened (`KeysTellApart`); opening every oracle of a run from one seed is enough
  (`OneSeedTellsApart`).
* A serialized oracle event is the value it is serialized from, and reading it parses the id again.
* Times are nanoseconds. How a time is written into a path, and how dates are read from one, are
  parameters; `Ticks.SomeConfig` shows that the conditions put on the former can be met. Where related
  outcomes are completed, the condition is that the text of no time continues that of another
  (`StampsApart`), as none does that is written `%FT%T`: it ends with the second digit of the second.
* A run of the tickers remembers which events other sources have tried to attest to (`touched`). What is
  claimed about predicates and related outcomes is claimed of all the others.
* Panics and `expect`s of the program are results (`IdResult.Panics`, `NodeResult.NodePanics`, `None`
  where a stream stops) or the condition of a theorem that says exactly when they happen.

What the code does at its edges, found and proved on the way:

* `EventId::from_str` panics on `/a.vs=draw`: the outcome of an `=` predicate is looked up among the two
  parties of a match before anyone has checked that there are two (`FromStrPanicsIff`, `FromStrCanPanic`).
* A predicate on a match is accepted where the match itself is not, as `/a_a.winner=a`: its outcome is looked
  up among the first two words of the last segment, however many there are and whether or not they differ
  (`SomePredicateHasNoMatch`, `ValidTextIff`).
* Where an announcement holds more nonces than the event has digits, which decoding lets pass, the verifier
  asks for as many scalars and looks at those of the digits only (`VerifiesIff`).
* Two oracles that are opened on an empty store at the same time both open, whatever their seeds, and the
  second overwrites the keys of the first (`RaceOpensBoth`). From then on an announcement can be found bogus
  exactly when their announcement keys differ (`BogusIff`, `SomeRunFindsBogus`), and an attestation can be
  stored that does not verify under the published keys exactly when these are not the keys of every oracle
  (`UnverifiedIff`, for seeds that differ in one of the two keys that verifiers use). Nothing of the kind
  happens exactly as long as no opening overwrites the keys of another (`KeysAgreeIff`), and whoever starts
  oracles can see to that: openings that overlap have to be from seeds with the same keys (`OpensSafely`,
  `SafeOpeningsShareKeys`). One after the other any seeds will do, as the second is then refused.
* A node with a date map panics exactly when an event whose path continues the text of its path leaves no
  slash once that text is stripped (`DateLookupFailsIff`), as every event at the node itself does
  (`EventAtNodePanics`): `/s/a/match.occur` does so at the node `/s/a/match` (`SomeDateMapPanics`).
* The next event of a range is looked up by the text of the path, so a range can name as next what is none of
  its children: `b` at `/x` for an event `/xy/b.occur` (`SomeNextIsNoChild`). It is a child exactly when a
  slash follows the path at once (`NextIsChildIff`).
* The parser accepts paths with empty segments, and events at the root. A child with an empty name, as below
  `/a` for an event under `/a//b`, takes the kind of its own parent in the scan and that of its row in the table
  (`SomeEmptySegmentDiffers`); an event at the root, as `/.occur`, is a child of the root without a name in the
  scan and in no row under it (`SomeRootEventDiffers`). Those are the only two ways in which events make the
  children differ (`EmptyNamesFit`, `IndexRefinesScanIff`).
* The ends of a range can differ where its children do not: the rows are ordered as paths and the scan orders
  names, so below the root a name that begins with a character before the slash comes before a name that is
  empty in the one and behind it in the other (`SomeRangeEndsDiffer`, `RangeEndsAgreeIff`).
* The scan finds a node at `/a` for the event `/a.b/c.occur`, because a dot follows in its text; the table has no
  such node (`SomeDotDiffers`, `NodeExistsIff`).
* Predicates on `winner` and on occurrences are never completed: only outcomes of events with three
  outcomes or more are followed up (`FewOutcomesIff`, `PredicateOfFewIsNeverCompleted`).
* An outcome ticker without a configured kind comes across the predicates made on its own ticks and makes up
  their outcomes; with one it does not (`PredicatesFitIff`). Without one it can attest to the predicate that a
  price is 0 as false and then to the price as 0 (`WrongWithoutKind`). With one every predicate that is attested
  to is attested to rightly (`PredicateIsRight`).
* What follows from an outcome is looked up once and given once. A lookup or a write that fails, a restart in
  between, or a predicate that is stored after the lookup leave the predicate without an attestation for good
  (`AttestedLaterIff`).
* The outcome of a price tick is also given to every other price tick whose path continues its own as text, and
  to no other tick exactly when there is none (`RelatedFitsIff`); when no time continues another there is none
  (`ApartSuffices`).
* Related outcomes are looked up by a raw prefix of the text, so the outcome of `/x/1.price` also completes
  `/x/10.price` (`NeighbourIsCompleted`); only siblings are completed exactly when no stored event that the
  outcome speaks about continues the text (`OnlySiblingsIff`).
* An `=` predicate on a price compares text, so one written as `price=05`, which the parser accepts on every
  price, is never true (`PriceTargetFaithfulIff`, `PaddedIsValid`, `PaddedTargetIsNeverTrue`).
* An attestation is dated to the whole second. It is never dated before its event was due exactly when the
  event was due on a whole second (`TruncateKeepsOrderIff`).
* Prefixing undoes stripping on event ids always; stripping undoes prefixing except for the root
  (`StripThenPrefixId`, `StripUndoesPrefixIff`).

## Model

| member | source | states |
|---|---|---|
| `Paths.IsParentOfIff` | olivia_core/src/path.rs:42-51 | The recursive ancestor test holds exactly when the first path is the root, is the other path, or is followed by a slash in it. |
| `Paths.IsParentOfPartialOrder` | olivia_core/src/path.rs:42-51 | On paths with a leading slash being an ancestor is reflexive, antisymmetric and transitive, with the root as least element. |
| `Paths.RawPrefixOfDescendant` | olivia/src/db/in_memory.rs:182-183 | A query by path misses no descendant, and a path it finds is a descendant exactly when a slash or the end comes next. |
| `Paths.PrefixIsAction` | olivia_core/src/path.rs:160-169 | Prefixing is an action of paths with the root as identity: prefixing twice is prefixing by the prefixed prefix. |
| `Paths.PrefixKeepsPath` | olivia_core/src/path.rs:117-125 | A path prefixed by a path is accepted as a path. |
| `Paths.StripUndoesPrefixIff` | olivia_core/src/path.rs:171-180 | Stripping gives back what was prefixed, for everything but the root under another prefix, and there never. |
| `Paths.PrefixUndoesStripIff` | olivia_core/src/path.rs:171-180 | Prefixing gives back what was stripped exactly when the path begins with the prefix and is not the prefix with a slash behind it; what does not begin with the prefix is left alone. |
| `Paths.IsPathIff` | olivia_core/src/path.rs:117-125 | The accepted paths are the root, and a last word, not empty, behind a slash with nothing or with another slash in front. |
| `Paths.FirstIff` | olivia_core/src/path.rs:53-61 | The first segment is the text between the first slash and the next one or the end. |
| `Paths.ParentOfChild` | olivia_core/src/path.rs:148-150 | The parent of a child is the path it was made from, and its last segment is the name. |
| `Paths.StripEventOf` | olivia_core/src/path.rs:63-73 | A path with a dot-free last segment and a slash-free kind come apart again after being put together. |
| `Paths.PrefixKeepsEvent` | olivia_core/src/path.rs:63-73 | Prefixing keeps the event kind and the last segment that the text shows. |
| `Decimal.ParseIff` | olivia_core/src/outcome.rs:103-107 | What parses as a number is its printed text, behind any number of zeros and at most one plus sign, and nothing else. |
| `EventKinds.ParseIsCanonical` | olivia_core/src/event.rs:133-207 | Every accepted kind is canonical: a price has at most 64 digits, a predicate sits on a plain kind whose price has none, a bound sits on a price, and an `=` target has no question mark. |
| `EventKinds.RoundTripIff` | olivia_core/src/event.rs:96-208 | A kind is read back from what is printed for it exactly when it is canonical. |
| `EventKinds.AcceptedRoundTrips` | olivia_core/src/event.rs:96-208 | Whatever the parser accepts prints to a text that parses to the same kind. |
| `Grammar.ParseKindIff` | olivia_core/src/event.rs:130-207 | The recursive parser accepts as a kind exactly the texts of that kind: a word, a word and a number of digits, a price and a bound, or one of these without arguments and an `=` with a target. |
| `Grammar.PlainErrorIff` | olivia_core/src/event.rs:180-206 | What a text without arguments is refused for is decided before its first `=`: no number behind a `_`, a bound on something else than a price, or no such word. |
| `Grammar.ArgsErrorIff` | olivia_core/src/event.rs:142-181 | With arguments the unknown word is blamed first, then arguments on anything but a price, then a price with anything but one argument `n`, and then its number. |
| `EventIds.FromPathAndKindAnswers` | olivia_core/src/event.rs:307-309 | An id put together from an event path and a canonical slash-free kind shows both. |
| `EventIds.PrefixIdKeeps` | olivia_core/src/event.rs:581-589 | Prefixing an id keeps its kind, its parties, its descriptor and whether it is usable, and prefixes its path. |
| `EventIds.StripThenPrefixId` | olivia_core/src/event.rs:586-588 | Prefixing undoes stripping on every event id, wherever the prefix ends in its text. |
| `EventIds.StrippedIdShowsEventIff` | olivia_core/src/event.rs:222-248 | A stripped id still shows its event exactly when a slash is left in it, and then shows the same kind. |
| `IdParser.ValidIff` | olivia_core/src/event.rs:400-452 | An id that shows a kind is valid exactly when it is a path and its kind passes the checks on parties and targets; `Grammar.ValidTextIff` says the same of the text. |
| `Grammar.ValidTextIff` | olivia_core/src/event.rs:400-452 | A text is accepted as an id exactly when it is a path that shows a kind, and, for a match, its last segment is two different words with a `_` between them, and, for an `=` predicate, the target is one of the texts that name an outcome of the event. |
| `Grammar.RejectedIff` | olivia_core/src/event.rs:400-452 | A text is rejected for a missing kind exactly when it is a path without a dot in the last segment, and as badly formatted exactly when it is no path or a match without two different sides; otherwise the error of the kind is passed on. |
| `Grammar.MatchIsValidIff` | olivia_core/src/event.rs:423-429 | A match can be put on a path exactly when the last segment of the path is two different words with a `_` between them. |
| `Grammar.PlainIsValid` | olivia_core/src/event.rs:430-447 | An occurrence, a price of up to 64 digits and a bound on a price can be put on every path of events. |
| `Grammar.SomePredicateHasNoMatch` | olivia_core/src/event.rs:434-443 | A predicate on a match that is accepted on a path on which the match is not. |
| `IdParser.ValidIsUsable` | olivia_core/src/event.rs:423-429 | A valid id answers every lookup without a panic, and an id of a match has exactly two different parties. |
| `IdParser.FromStrPanicsIff` | olivia_core/src/event.rs:436-443 | Parsing an id panics exactly on an `=` predicate over a match whose last segment has no underscore. |
| `IdParser.FromStrCanPanic` | olivia_core/src/event.rs:231-238 | A text on which parsing an id panics. |
| `IdParser.ValidTargetIsOutcome` | olivia_core/src/event.rs:435-443 | A valid `=` predicate names a printed outcome, or a price, of the event it is about. |
| `IdParser.PrefixKeepsValid` | olivia_core/src/event.rs:581-584 | An id prefixed by a path stays valid. |
| `IdParser.PredicateIdAnswersIff` | olivia_core/src/event.rs:329-357 | A predicate id shows the intended predicate, over the same path and with no digits on an inner price, exactly when a bound sits on a price and an outcome named has no question mark. |
| `IdParser.PredicateIdValidIff` | olivia_core/src/event.rs:411-452 | A predicate made on a valid plain id is accepted by the parser, with the path and the intended kind, exactly under the same check. |
| `Outcomes.ParseOfOutcomeString` | olivia_core/src/outcome.rs:49-145 | The printed outcome of a usable id parses back to its value. |
| `Grammar.MatchOutcomesIff` | olivia_core/src/outcome.rs:60-95 | Where the last segment is `left_right`, the text of the left side, and nothing else, parses to value 0, that of the right side to 1, and `draw`, on a match with one, to 2. |
| `Grammar.SidesInOrder` | olivia_core/src/event.rs:231-289 | The outcomes with value 0 and 1 are printed as the two sides of the last segment, in the order of the path; they are announced in that order and attested to with that index. |
| `Grammar.BlamedText` | olivia_core/src/outcome.rs:49-112 | The text that an error names is the one that did not parse, or that without the `_win` behind it. |
| `Outcomes.OutcomeStringOfParse` | olivia_core/src/outcome.rs:49-145 | What parses as an outcome can be printed, and for anything but a price prints as the same text. |
| `Outcomes.OutcomeStringInjective` | olivia_core/src/outcome.rs:119-145 | Two outcomes of one id print alike exactly when their values are the same. |
| `Outcomes.DescriptorListsOutcomes` | olivia_core/src/event.rs:273-304 | The descriptor of an event lists its printed outcomes, each at its value, a predicate `true` first. |
| `Outcomes.DescriptorOfPrice` | olivia_core/src/event.rs:293-300 | A price is described by as many digits as it is attested with, and not at all without any. |
| `Outcomes.IndexesMatchNonces` | olivia_core/src/outcome.rs:147-159 | There is one index for every nonce, each below the number of outcomes of its nonce. |
| `Outcomes.EveryIndexIsReached` | olivia_core/src/event.rs:250-267 | Every outcome that a nonce is announced to have is the index of some printable outcome of the event. |
| `Outcomes.IndexesDetermineValue` | olivia_core/src/outcome.rs:147-159 | Two outcomes have the same indexes exactly when they are the same, up to the cap of the width of a price. |
| `Outcomes.PrefixKeepsOutcomes` | olivia_core/src/event.rs:591-595 | Prefixing keeps the text, the value and the indexes of every outcome. |
| `Digits.CapIs` | olivia_core/src/outcome.rs:150 | The checked shift of all ones gives two to the width less one, for every width from 0 to 64. |
| `Digits.CappedBitsNumeral` | olivia_core/src/outcome.rs:151-156 | The digits of a price are binary, as many as its width, and stand for the value capped at the width. |
| `Digits.CappedBitsOrder` | olivia_core/src/outcome.rs:152-156 | Lexicographic order of digits, the most significant first, is order of capped values. |
| `Digits.CappedBitsAtTwoWidths` | olivia_core/src/outcome.rs:149-156 | The digits at two widths stand for the same value up to the smaller cap. |
| `Secp256k1.AnticipateAttestations` | olivia_secp256k1/src/lib.rs:193-206 | The running sum yields the key plus one more nonce for every outcome before and including the one at hand. |
| `Secp256k1.RevealedVerifies` | olivia_secp256k1/src/lib.rs:182-226 | The revealed scalar times the generator is the anticipated point of its index, and passes the check. |
| `Secp256k1.RevealsOnlyItsIndex` | olivia_secp256k1/src/lib.rs:182-226 | A revealed scalar passes the check for another index, whatever the two are, exactly when their difference times the nonce is nothing in the group; the difference then shares a divisor above 1 with the order of the group, and among the first three indexes that is never so. |
| `Secp256k1.RevealsUnderItsKey` | olivia_secp256k1/src/lib.rs:182-226 | A revealed scalar passes the check of its index under the key it was revealed with and under no other. |
| `Announcements.Decode` | olivia_core/src/announcement.rs:121-145 | Decoding is the inverse of serialization: what decodes has a valid id and a nonce for every digit and serializes, descriptor included, to the very payload; and every such event decodes from what it serializes to. |
| `Announcements.AnticipateOliviaV1` | olivia_core/src/announcement.rs:167-179 | A client anticipates one point for every outcome of a nonce, the right one, exactly when the scheme was announced. |
| `Announcements.CreatedAnnouncementVerifiesIff` | olivia_core/src/announcement.rs:182-214 | A created announcement verifies under its key and no other, for its id and no other, exactly when the id is valid and the nonces suffice, and then decodes to what was announced. |
| `Announcements.VerifiedWasCreated` | olivia_core/src/announcement.rs:182-214 | Any announcement verifies for an id under a key exactly when it is the one that the holder of the key creates for a valid event with that id and enough nonces; a signature on another payload never does. |
| `Attestations.TruncateKeepsOrderIff` | olivia_core/src/attestation.rs:47-59 | No later time is truncated to before a given one exactly when that one is a whole second. |
| `Attestations.EnoughNoncesIff` | olivia_core/src/announcement.rs:124-130 | An announcement holds enough nonces exactly when every outcome of the event that can be printed finds one for each of its indexes. |
| `Attestations.VerifiesIff` | olivia_core/src/attestation.rs:61-99 | Any attestation passes the verifier exactly when its text names an outcome, the key is known, and, where nonces were announced, there are as many scalars and those of the digits of the outcome open the points that a client anticipates. |
| `Attestations.RefusedIff` | olivia_core/src/attestation.rs:61-99 | The outcome is blamed exactly when the text names none, then the key when there is none, then missing scalars when nonces were announced. |
| `KeyChains.PublishedKeys` | olivia/src/keychain.rs:16-50 | The published key of each role is the multiple of the generator by the hash of the key material of that role, derived from the seed of the oracle. |
| `KeyChains.KeyMaterialInjective` | olivia/src/keychain.rs:16-33 | Key materials are the same exactly for one seed and one role. |
| `KeyChains.NonceMaterialsApart` | olivia/src/keychain.rs:16-63 | A nonce is hashed from the seed of its event, derived from that of the oracle, and from its digit as one byte; so two nonces share a material exactly for the same seed, event and digit, whatever the chains, and none shares one with a key. |
| `KeyChains.NonceMaterialInjective` | olivia/src/keychain.rs:52-63 | In one chain what two nonces are hashed from is the same exactly for the same event and digit, of the 256 that a byte can tell apart. |
| `KeyChains.ScalarsMatchAnnouncedNonces` | olivia/src/keychain.rs:65-113 | The scalars of an outcome fit the announced nonces one by one: as many, each verifying, each revealing the anticipated point of its index. |
| `KeyChains.ScalarsOpenOnlyTheirIndexes` | olivia/src/keychain.rs:65-113 | The scalars of an outcome fit the indexes of another outcome of the event exactly when these are the same indexes. |
| `Nodes.Dedup` | olivia/src/db/in_memory.rs:103-104 | On a sorted list of children with one kind for each name, dropping repeated neighbours leaves strictly increasing names and loses no child. |
| `Nodes.LessIff` | olivia/src/db/in_memory.rs:103 | Names are ordered by their first difference, a proper prefix coming first. |
| `Nodes.DateMapIff` | olivia_describe/src/lib.rs:494-500 | A node is a date map by its path exactly when its segments are `s`, any word and `match`, and is a list otherwise. |
| `Nodes.StrictlySortedUnique` | olivia/src/db/in_memory.rs:103-104 | A strictly sorted list of children is determined by what is in it, whatever order the map was iterated in. |
| `Stores.InsertExtends` | olivia/src/db/in_memory.rs:211-226 | An insertion fills one free slot and changes nothing else, and succeeds exactly when the slot was free. |
| `Stores.CompleteExtends` | olivia/src/db/in_memory.rs:227-243 | A completion fills one empty attestation slot and changes nothing else, and succeeds exactly when there was one. |
| `Stores.InMemory.GetAnnouncedEvent` | olivia/src/db/in_memory.rs:34-40 | Reading gives the record under the id, if any. |
| `Stores.InMemory.InsertEvent` | olivia/src/db/in_memory.rs:211-226 | The method has the effect and the reply of the insertion. |
| `Stores.InMemory.CompleteEvent` | olivia/src/db/in_memory.rs:227-243 | The method has the effect and the reply of the completion. |
| `Stores.InMemory.SetPublicKeys` | olivia/src/db/in_memory.rs:245-248 | The keys are published. |
| `Stores.InMemory.SetNode` | olivia/src/db/in_memory.rs:250-254 | The kind of one node is replaced. |
| `Stores.InMemory.QueryEvents` | olivia/src/db/in_memory.rs:168-206 | A query lists exactly the matching events, each once, in the order asked for, events without a time first going forwards and last going backwards. |
| `Stores.InMemory.QueryEvent` | olivia/src/db/in_memory.rs:164-166 | The first match is a match that no other precedes, and is missing only when nothing matches. |
| `Stores.MatchesIff` | olivia/src/db/in_memory.rs:168-192 | A query finds an event by the text its path begins with, the text its path ends with, its very kind, and whether it is attested to. |
| `Stores.OrderedIff` | olivia/src/db/in_memory.rs:194-201 | Events in the order asked for are, forwards, those without a time and then the others by growing times, and backwards the other way round. |
| `Stores.InMemory.ChildList` | olivia/src/db/in_memory.rs:82-104 | The children have strictly increasing names and are exactly the next segments of the events below the path, with their kinds. |
| `Stores.InMemory.NodeEvents` | olivia/src/db/in_memory.rs:106-118 | The events of a node are the kinds of the stored events whose text continues the path with a dot, each once. |
| `Stores.InMemory.Dates` | olivia/src/db/in_memory.rs:133-154 | A date has a name in the date map exactly when the path of some event goes on behind that of the node with a word that reads as the date and then the name; building the map panics exactly when the text of some event has no slash left behind the path. |
| `Stores.DateEntryIff` | olivia/src/db/in_memory.rs:137-151 | What one event adds to a date map is the second word behind the path, under the date that the first one reads as. |
| `Stores.InMemory.Describe` | olivia/src/db/in_memory.rs:120-155 | The description of children fits the kind of the node: all of them; the first, the last, and the first word behind the path of an event without an attestation that is due no later than any other; or dates. |
| `Stores.NextDueIs` | olivia/src/db/in_memory.rs:50-74 | The name taken from the first match of the query is that word. |
| `Stores.NextIsChildIff` | olivia/src/db/in_memory.rs:50-74 | It names a child of the node exactly when a slash follows the path of the node at once. |
| `Stores.SomeNextIsNoChild` | olivia/src/db/in_memory.rs:50-74 | A store of two valid events in which the next of a range is none of its children. |
| `Stores.InMemory.GetNode` | olivia/src/db/in_memory.rs:49-162 | A node is found exactly when some event is at it or below it, panics exactly when it is a date map and some event leaves no slash behind its path, and otherwise shows its events and the description of its children. |
| `Stores.DateLookupFailsIff` | olivia/src/db/in_memory.rs:133-154 | No slash is left of a stripped id behind the path exactly when looking at its event fails, which is the `unwrap` that panics. |
| `Stores.EventAtNodePanics` | olivia/src/db/in_memory.rs:133-154 | Every event that sits at a node with a date map, below the root, makes the node panic. |
| `Stores.SomeDateMapPanics` | olivia/src/db/in_memory.rs:133-154 | A store with one event, under a valid id, and a node that is a date map by its path, whose lookup panics. |
| `Oracles.AnnouncementDecodes` | olivia/src/keychain.rs:98-113 | An announcement made for a valid id decodes under the announcement key to the event and its nonces. |
| `Oracles.AttestationVerifies` | olivia_core/src/attestation.rs:61-99 | An attestation made by the chain that announced passes the verifier, and parses to the outcome it was made for. |
| `Oracles.AttestationIsForItsValue` | olivia_core/src/attestation.rs:61-99 | Presented with another outcome of its event an attestation passes the verifier exactly when the outcome is the one attested to, up to the cap of the width of a price. |
| `Oracles.Oracle.AddEvent` | olivia/src/oracle.rs:65-88 | The method has the effect and the reply of deciding on what is stored and then inserting. |
| `Oracles.Oracle.CompleteEvent` | olivia/src/oracle.rs:90-145 | The method has the effect and the reply of deciding on what is stored and then completing. |
| `Oracles.AddRepliesIff` | olivia/src/oracle.rs:65-88 | Adding is refused as existing or as completed exactly when there is a record without or with an attestation, and changes nothing then; otherwise the new record is of the event, unattested, with an announcement that verifies under the key of the oracle and commits to a nonce for every digit. |
| `Oracles.CompleteRepliesIff` | olivia/src/oracle.rs:90-145 | Each reply to a completion is given exactly in its case: no record, the same outcome attested to, another one, an announcement that the oracle did not make for the id, or success; only success writes, an attestation to that outcome, dated to the second, with the schemes that were announced. |
| `Oracles.OpenOracle` | olivia/src/oracle.rs:45-59 | An oracle opened by a whole call opens exactly when no keys or its own are published, and its keys are published then; the call split at its two accesses is in `Interleavings`. |
| `OracleRuns.CompleteDecides` | olivia/src/oracle.rs:108-141 | When all oracles have the published keys, a completion of an unattested event always goes ahead, with the schemes that were announced. |
| `OracleRuns.CompleteMeets` | olivia/src/oracle.rs:108-141 | In every run a completion of an unattested event goes ahead exactly when the oracle has the key that the event was announced with, and otherwise finds the announcement bogus. |
| `OracleRuns.RunIsSound` | olivia/src/oracle.rs:44-146 | In every run, openings that overwrite keys included, every record is under its own valid id, was announced by an oracle of the run, and is attested to, if at all, by one; the published keys are those of some oracle. |
| `OracleRuns.RunIsGood` | olivia/src/oracle.rs:44-146 | In every run of whole calls, moreover, the published keys are those of every oracle. |
| `OracleRuns.NeverBogus` | olivia/src/oracle.rs:113-141 | No run of whole calls, over any oracles opened during it, ever replies that an announcement was bogus. |
| `OracleRuns.StoredAttestationsVerify` | olivia_core/src/attestation.rs:61-99 | In every run of whole calls every stored attestation verifies against the event decoded from its stored announcement, under the published keys, and names an outcome. |
| `OracleRuns.OneSeedTellsApart` | olivia/src/keychain.rs:16-50 | When every oracle of a run is opened from one seed, equal published keys mean equal oracles, so the attestation theorems need no more. |
| `OracleRuns.OneKeyVerifies` | olivia_core/src/attestation.rs:61-99 | When all oracles have the published keys, and equal keys mean equal oracles, every stored attestation verifies and names an outcome. |
| `Interleavings.Linearizable` | olivia/src/oracle.rs:44-145 | Every interleaving of callers between their reads and writes, openings included, reaches the state of its calls made whole one after the other, where a publication is a call of its own; every reply is that of its call, except that a write that finds its slot taken reports the failed write in place of the existing event or the attested outcome. |
| `Openings.KeysAgreeIff` | olivia/src/oracle.rs:44-59 | After any interleaving the published keys are those of every oracle exactly when no opening has overwritten the keys of another. |
| `Openings.SafeOpeningsShareKeys` | olivia/src/oracle.rs:44-59 | When openings that overlap are from seeds with the same keys, the published keys are those of every oracle. |
| `Openings.SafelyLinearizable` | olivia/src/oracle.rs:44-145 | Then every interleaving is a run of whole calls, openings among them, with the same state and the same replies. |
| `Openings.BogusIff` | olivia/src/oracle.rs:113-141 | After any interleaving some calls on the oracles that are open find an announcement bogus exactly when two of these announce under different keys. |
| `Openings.UnverifiedIff` | olivia_core/src/attestation.rs:61-99 | After any interleaving some calls on the oracles that are open leave an attestation that does not verify under the published keys exactly when these are not the keys of every oracle, where different seeds differ in one of the two keys that verifiers use. |
| `Openings.RaceOpensBoth` | olivia/src/oracle.rs:44-59 | Two openings on an empty store that both look before either publishes both succeed, and the keys of the second stay. |
| `Openings.SomeRunFindsBogus` | olivia/src/oracle.rs:44-141 | A hash, two seeds and a run in which an announcement is found bogus. |
| `OracleSafety.RecordsNeverChange` | olivia/src/db/in_memory.rs:211-243 | In every interleaving a record and its announcement never change once stored, and an attestation is written once. |
| `OracleSafety.SuccessesAreStored` | olivia/src/oracle.rs:65-145 | In every interleaving the successful adds are as many as the stored events, and the successful completions as many as the attested ones. |
| `OracleSafety.InterleavedAttestationsVerify` | olivia_core/src/attestation.rs:61-99 | When openings that overlap are from seeds with the same keys, every stored attestation of every interleaving verifies against its decoded announcement under the published keys. |
| `OracleSafety.InterleavedNeverBogus` | olivia/src/oracle.rs:113-141 | Under the same condition no interleaving ever replies that an announcement was bogus. |
| `OracleSafety.StoredScalarRevealsIff` | olivia/src/keychain.rs:65-96 | Of the indexes that a nonce can have, a stored scalar passes the check for one: the digit of the outcome that the attestation names. |
| `OracleSafety.NonceRevealsOneIndex` | olivia/src/keychain.rs:65-96 | What a nonce is derived from is revealed with one index: at any two moments of a run, stored scalars whose nonces share it and that pass the check for some index are of one event and one digit, and pass it for the same index. |
| `OracleSafety.ChangedIffValueDiffers` | olivia/src/oracle.rs:95-107 | Completing an attested event changes nothing, and reports a changed outcome exactly when the value differs from the one attested to. |
| `PgTrees.PgTables.Successors` | olivia/src/db/postgres.rs:481-483 | The walk up from a path is the path and everything above it, nearest first. |
| `PgTrees.PgTables.SetNodeParents` | olivia/src/db/postgres.rs:476-515 | A row with its parent is put in for the path and everything above it that has none. |
| `PgTrees.PgTables.InsertEvent` | olivia/src/db/postgres.rs:520-543 | An event is stored with its rows and with the attestation it comes with, or was stored before and nothing changes. |
| `PgTrees.PgTables.UpdateAttestation` | olivia/src/db/postgres.rs:584-603 | The attestation of a stored event is replaced, whether it had one or not. |
| `PgTrees.PgTables.SetNode` | olivia/src/db/postgres.rs:568-581 | A node gets its rows and its kind. |
| `PgTrees.PgTables.ListChildren` | olivia/src/db/postgres.rs:218-249 | A list node lists the rows with the path as parent, all of them or a hundred. |
| `PgTrees.PgTables.RangeEnds` | olivia/src/db/postgres.rs:275-304 | A range node names the least and the greatest of its rows, or nothing when it has none. |
| `TreeRefinement.Run` | olivia/src/db/postgres.rs:476-581 | After any insertions the table holds exactly the paths at or above what was stored, with their parents, closed upwards, and with the kinds that were set. |
| `TreeRefinement.TreeIsAncestors` | olivia/src/db/postgres.rs:481-514 | With node kinds set above events only, the table holds exactly the ancestors of the events and the events. |
| `TreeRefinement.ChildNameIff` | olivia/src/db/in_memory.rs:84-96 | The scan names the child of a path by the next segment of the event, empty or not, and by nothing else. |
| `TreeRefinement.IndexRefinesScanIff` | olivia/src/db/postgres.rs:219-247 | After any insertions the rows under any path are exactly the children, with their kinds, that the scan of all events finds, exactly when no node gives the path a child that no event gives it, every row there without a name is of the kind of the path itself, and, if the path is the root and an event is at the root, there is such a row. |
| `TreeRefinement.RowNamesIff` | olivia/src/db/postgres.rs:219-247 | In any case the names of the rows under a path, the empty one included, are exactly those that the scan would give the paths of events and nodes, but for the root. |
| `TreeRefinement.IndexIsScanOfBases` | olivia/src/db/postgres.rs:219-247 | And under a name that is not empty the rows are, kind by kind, exactly what the scan would find if it looked at the paths of nodes as well as of events. |
| `TreeRefinement.NodesAboveEventsShow` | olivia/src/db/postgres.rs:568-581 | Giving kinds to paths at or above events only is enough for no node to give a path a child that no event gives it. |
| `TreeRefinement.CleanPathsFit` | olivia/src/db/postgres.rs:219-304 | Having no empty segments in stored paths is enough for the rest, for the children and for the ends of a range. |
| `TreeRefinement.SomeEmptySegmentDiffers` | olivia/src/db/in_memory.rs:84-96 | A run with a valid event that has an empty segment in its path, after which the scan finds a child that is in no row. |
| `TreeRefinement.SomeRootEventDiffers` | olivia/src/db/in_memory.rs:84-96 | A run with a valid event at the root and no node, after which the scan finds a child of the root and no row is under it. |
| `TreeRefinement.RangeEndsAgreeIff` | olivia/src/db/postgres.rs:275-304 | When a range has the same children in both backends, these name the same first and last one exactly when the path is not the root, or no name is empty, or no other name begins with a character before the slash. |
| `TreeRefinement.SomeRangeEndsDiffer` | olivia/src/db/postgres.rs:275-304 | A run with valid events only after which the children of the root are the same and that condition fails. |
| `TreeRefinement.NodeExistsIff` | olivia/src/db/postgres.rs:205-211 | A node that exists in the table is found by the scan or is at or above a node that was given a kind; and the other way round exactly when the path is in the table as soon as the text of some event continues it with a dot. |
| `TreeRefinement.NoDotsFit` | olivia/src/db/in_memory.rs:106-118 | For a path without dots that condition holds when there are no dots in the paths of events. |
| `TreeRefinement.SomeDotDiffers` | olivia/src/db/in_memory.rs:106-118 | A run with a valid event and no node after which the scan finds a node that the table does not have. |
| `Related.PrefixedDb.QueryEvent` | olivia/src/db/prefixed.rs:24-34 | A prefixed query is the query below the prefix, with the prefix stripped from what it finds. |
| `Related.PrefixedDb.QueryEvents` | olivia/src/db/prefixed.rs:36-44 | The same for all matches. |
| `Related.FoundIsNamedAgain` | olivia/src/oracle_loop.rs:42-52 | Prefixing what a prefixed query found names the stored event it came from. |
| `Related.FoundShowsKindIff` | olivia/src/db/prefixed.rs:24-34 | What a prefixed query found shows its kind exactly when a slash is left in it, and then shows the kind that is stored. |
| `Related.BoundMeetsNumber` | olivia_core/src/event.rs:53-60 | A bound that follows from an outcome only ever meets the printed number, so the parse it expects cannot fail. |
| `Related.CompleteRelated` | olivia/src/sources/complete_related.rs:10-51 | What follows from an outcome is exactly what it says about one of the events looked up, and nothing for events with fewer than three outcomes. |
| `Related.CompletedIff` | olivia/src/sources/complete_related.rs:10-51 | An outcome follows exactly when its event was looked up, the source has three outcomes or more, and it is what the source says about the event. |
| `Related.FewOutcomesIff` | olivia/src/sources/complete_related.rs:12-14 | Three outcomes or more are those of prices and of matches with a draw; from all others nothing follows. |
| `Related.PredicateOfFewIsNeverCompleted` | olivia/src/sources/complete_related.rs:12-14 | A predicate on a `winner` or on an occurrence is never completed, whatever outcome is looked at. |
| `Related.EqSiblingTruth` | olivia_core/src/event.rs:50-52 | An `=` predicate made for an outcome is completed as true exactly when it was looked up, the source has three outcomes or more, and the outcome is that one; as false exactly when it is another. |
| `Related.ExactlyOneTrue` | olivia/src/sources/predicate.rs:11-38 | Of the full set of predicates of a match with a draw, stored below any prefix and looked up by the prefixed sibling query, exactly one is completed as true and the other two as false. |
| `Related.BoundSiblingTruth` | olivia_core/src/event.rs:53-60 | A bound predicate that was looked up is completed as true exactly when the price exceeds its bound, and as false exactly when it does not. |
| `Related.PriceSiblingValue` | olivia/src/sources/complete_related.rs:39-47 | A sibling price of any width that was looked up is completed with the same value and no other, and its digits stand for the wider ones capped. |
| `Related.SiblingFoundIff` | olivia/src/sources/complete_related.rs:17-24 | The prefixed sibling query finds, prefix stripped, exactly what is stored under the prefix with a path that continues the path of the source as text. |
| `Related.SiblingsShowKinds` | olivia/src/sources/complete_related.rs:27-50 | Below a path other than the root everything it finds shows its kind once stripped, so looking at it does not panic. |
| `Related.PriceTargetFaithfulIff` | olivia_core/src/event.rs:52 | An `=` predicate on a price is true of the price it names and of no other exactly when it is written as prices are printed. |
| `Related.PaddedIsValid` | olivia_core/src/event.rs:439-443 | A padded number is accepted as the target of an `=` predicate on every valid price. |
| `Related.PaddedTargetIsNeverTrue` | olivia_core/src/event.rs:52 | No outcome of a price completes such a predicate as true, the price it names included. |
| `Related.NeighbourIsCompleted` | olivia/src/sources/complete_related.rs:17-24 | Next to every valid price there is another valid price, on another path, that its outcome completes as well wherever it is stored. |
| `Related.OnlySiblingsIff` | olivia/src/sources/complete_related.rs:17-50 | Only events of the same path are completed exactly when no event stored below the prefix, of a kind that the outcome speaks about, has another path that continues the text of the path. |
| `Tickers.CreatedInRange` | olivia/src/sources/ticker.rs:193-212 | Every value made up for an event can be printed as an outcome of it, is zero where zeros are configured, and is below the configured maximum where numbers are drawn. |
| `Tickers.CreatorPanicsIff` | olivia/src/sources/ticker.rs:200-202 | Making up an outcome panics exactly when the maximum is configured as zero. |
| `Tickers.CreatedIff` | olivia/src/sources/ticker.rs:193-203 | A value is what some draw makes up exactly when it can be printed, is below the maximum, and is not the greatest number as a price. |
| `Tickers.TimeEventStream.Query` | olivia/src/sources/ticker.rs:53-86 | Asking for the latest event makes the stream ready with the first tick, or delays the tick one interval after the latest; an event without a time is the panic of its `expect`. |
| `Tickers.TimeOutcomeStream.Query` | olivia/src/sources/ticker.rs:121-147 | Asking for the earliest event without an attestation makes it due at its time. |
| `Tickers.PredicateStream.Next` | olivia/src/config/config_impls.rs:214-232 | A yielded event is followed by one predicate for every outcome picked, with the same time. |
| `Tickers.RelatedStream.Siblings` | olivia/src/sources/complete_related.rs:10-51 | The related outcomes are those of the events the prefixed query finds, and the program panics when one of them no longer shows its kind. |
| `Tickers.RelatedStream.Next` | olivia/src/config/config_impls.rs:318-340 | A yielded outcome is followed by what follows from it, stamped with the same time. |
| `Tickers.OracleLoop.TakeEvent` | olivia/src/oracle_loop.rs:32-41 | An event is prefixed and added, and the notifier hears whether that failed. |
| `Tickers.OracleLoop.TakeOutcome` | olivia/src/oracle_loop.rs:42-52 | An outcome is prefixed and completed, and the notifier hears whether that failed. |
| `Ticks.SomeConfig` | olivia/src/config/config_impls.rs:168-201 | There are ticker configurations of the kind the theorems are about. |
| `Ticks.TickIsValid` | olivia/src/sources/ticker.rs:37-50 | When the first tick has a valid id that reads back, every tick has. |
| `Ticks.OwnIdInjective` | olivia_core/src/path.rs:144-146 | Different ticks are stored under different ids. |
| `Ticks.LatestAsksIff` | olivia/src/sources/ticker.rs:54-59 | The event ticker comes across exactly the events of its kind whose path begins with the prefix and ends as configured. |
| `Ticks.EarliestAsksIff` | olivia/src/sources/ticker.rs:122-128 | The outcome ticker comes across exactly the events without an attestation whose path begins with the prefix and ends as configured, and of its kind if it has one. |
| `Ticks.LatestIsLast` | olivia/src/sources/ticker.rs:53-76 | While the store holds the first n ticks the latest query leads to tick n. |
| `Ticks.EarliestIsNext` | olivia/src/sources/ticker.rs:121-143 | While the first ones are attested to the earliest query leads to the next one, or to none when all are. |
| `TickerRuns.MoveKeeps` | olivia/src/sources/ticker.rs:52-168 | Every move of the protocol, those of related outcomes included, is defined, keeps its invariant, takes ticks and attestations at most one further, and leaves the first time as it is once a tick is stored. |
| `TickerRuns.FirstTimeIsFixed` | olivia/src/config/config_impls.rs:175-183 | Though every start works out a default first time anew, the progression is fixed by the first tick that is stored: of two states of a run, one later than the other, both stores hold first ticks of one progression, and the later one no fewer. |
| `TickerRuns.NoMovePanics` | olivia/src/oracle_loop.rs:31-60 | At no point of any run does a move that can be tried panic: every `expect` of the tickers holds, and whatever reaches the oracle can be printed and decoded. |
| `TickerRuns.NothingIsRejected` | olivia/src/oracle_loop.rs:32-52 | In every run, with retries and restarts, the next tick is always added and the outcome of a tick always attested to; what follows from it is attested to or is what was attested to before, so a changed outcome comes from no ticker unless another source attested to the event. |
| `TickerRuns.StoredTimesAreTheProgression` | olivia/src/sources/ticker.rs:52-94 | After any run, with failures and restarts, the stored times are exactly the first n of a progression, each on one event. |
| `TickerRuns.NothingTooEarly` | olivia/src/sources/ticker.rs:64-76 | In every run every event that is yielded while a tick is stored, by whichever process, is yielded no earlier than its time less the look-ahead. |
| `TickerRuns.AttestedInOrder` | olivia/src/sources/ticker.rs:120-168 | When a tick is attested to, every tick that is not later is. |
| `TickerRuns.StoredTicksAreRight` | olivia/src/sources/ticker.rs:149-162 | A stored tick has its time, and its attestation names the outcome that the creator makes up for it and, when the tick is on a whole second, is dated no earlier than it was due. |
| `TickerRuns.TickerIsFaithful` | olivia/src/oracle_loop.rs:20-73 | From the ticker to the verifier: at any point of any run a stored tick has its time, and its attestation is dated no earlier, names the outcome made up for it, and verifies against its announcement under the published keys. |
| `TickerRuns.NeverStuck` | olivia/src/sources/ticker.rs:52-168 | After whatever failures, lost replies and restarts, some moves lead from every reachable state to a store that has any given tick, attested to. |
| `RelatedTicks.PredicatesFitIff` | olivia/src/config/config_impls.rs:207-232 | Predicates derived from ticks are valid events, and neither ticker comes across them exactly when the outcome ticker has a kind configured. |
| `RelatedTicks.RelatedFits` | olivia/src/config/config_impls.rs:316-340 | What follows from the outcome of a tick is that outcome again or an outcome of events that neither ticker comes across, when the tick is no price or no other tick continues its path as text. |
| `RelatedTicks.RelatedFitsIff` | olivia/src/sources/complete_related.rs:17-50 | That is so for all that follows exactly under this condition: a price tick that continues the path of another is completed by its outcome. |
| `RelatedTicks.SameWidthSuffices` | olivia/src/config/config_impls.rs:168-201 | Writing the times of ticks equally long, as they are up to the year 9999, is enough for none to continue another. |
| `RelatedTicks.ApartSuffices` | olivia_core/src/path.rs:144-146 | So is that no time continues the text of another, and then without a bound on the times. |
| `PredicateRuns.SaidByItsTick` | olivia/src/sources/complete_related.rs:17-50 | What the outcome of some tick says about a predicate is said by the outcome of its own tick, and is whether the predicate is true of that. |
| `PredicateRuns.PredicateIsRight` | olivia_core/src/event.rs:50-60 | In every run, with whatever failures, restarts and other sources, a predicate of a tick that is attested to, and not by another source, is attested to as true exactly when the outcome made up for its tick is the one it names or exceeds its bound. |
| `PredicateRuns.AttestedLaterIff` | olivia/src/config/config_impls.rs:318-340 | At any point of any run, an event that the outcome of a stored tick speaks about and that is not attested to can still come to be so, without another source, exactly when its tick is not attested to, or its lookup is the next thing to be done, or the outcome for it is among those found and not yet given. |
| `PredicateRuns.WrongWithoutKind` | olivia/src/sources/ticker.rs:120-162 | Every ticker of prices without a configured kind that makes up 0 can come first across the predicate that a price is 0, attest to it as false, and then attest to the price as 0. |
| `PredicateRuns.PriceTicksAreOk` | olivia/src/config/config_impls.rs:168-232 | There are tickers of prices, with a kind or without one, that meet every condition, with predicates on every tick. |
| `TickerDriver.Driver.constructor` | olivia/src/config/config_impls.rs:168-201 | A new oracle, streams and loop on an empty store are a start of the protocol, and the node of the ticker is a range. |
| `TickerDriver.Driver.AskForLatest` | olivia/src/sources/ticker.rs:53-86 | The query of the event stream is a move of the protocol, and does not panic. |
| `TickerDriver.Driver.Emit` | olivia/src/sources/ticker.rs:37-50 | So is yielding a tick. |
| `TickerDriver.Driver.Deliver` | olivia/src/oracle_loop.rs:32-41 | The loop taking the yielded tick and the notification of the stream are one move, the tick is stored, and nothing fails. |
| `TickerDriver.Driver.AskForEarliest` | olivia/src/sources/ticker.rs:121-147 | The query of the outcome stream is a move of the protocol, and leads on exactly when a tick is left to attest to. |
| `TickerDriver.Driver.Attest` | olivia/src/sources/ticker.rs:149-162 | So is yielding an outcome once it is due; making it up does not panic. |
| `TickerDriver.Driver.DeliverOutcome` | olivia/src/oracle_loop.rs:42-52 | The loop taking the yielded outcome and the notification are one move, the tick and nothing else is attested to, and nothing fails. |
| `TickerDriver.Driver.AskRelated` | olivia/src/sources/complete_related.rs:10-51 | Looking for what follows from the outcome that was passed on is a move of the protocol, and does not panic. |
| `TickerDriver.Driver.DeliverRelated` | olivia/src/oracle_loop.rs:42-52 | Giving the next outcome that follows is a move of the protocol, after which its event is attested to if it is stored. |
| `TickerDriver.Driver.Drive` | olivia/src/oracle_loop.rs:20-73 | With related outcomes completed or not, so many rounds leave exactly so many ticks in the store, each attested to for the outcome made up for it and no earlier than it was due, and every attestation verifies under the published keys. |
| `TickerDriver.Driver.NextEventWithPredicates` | olivia/src/config/config_impls.rs:207-232 | A round of the event stream stores the next tick and a predicate on it for every outcome picked, and attests to nothing. |
| `TickerDriver.Driver.DeliverAll` | olivia/src/config/config_impls.rs:318-340 | What follows from an outcome is delivered one by one: all of it is attested to, and for what the outcome says about it. |
| `TickerDriver.Driver.NextOutcomeWithRelated` | olivia/src/config/config_impls.rs:316-340 | A round of the outcome stream attests to the next tick and to every stored event that its outcome speaks about, and to nothing but for what the outcome says. |
| `TickerDriver.Driver.DriveDerived` | olivia/src/config/config_impls.rs:207-340 | Predicates and related outcomes do not get into the way of the ticks; and when the ticks have three outcomes or more, every predicate picked of every tick is attested to, as true exactly when the outcome made up for its own tick is the one it names or exceeds its bound. |
| `TickerDriver.SomeDerivedRun` | olivia/src/config/config_impls.rs:168-232 | There are tickers of prices, with predicates, that meet every condition. |
| `TickerDriver.RunTicker` | olivia/src/oracle_loop.rs:20-73 | A process from its start, with a fresh store, an oracle and a ticker, for any seed: the store it leaves holds its ticks, all attested to, and every attestation verifies under the keys of the seed. |
| `TickerDriver.RunDerived` | olivia/src/config/config_impls.rs:207-340 | The same with predicates and related outcomes: the predicates of every tick are attested to rightly as well. |

## Left out

- OracleRuns.StoredAttestationsVerify: requires that oracles opened during the run with the same published keys came from the same seed, which nothing but the hash can guarantee.
- OracleSafety.InterleavedAttestationsVerify: the same, besides the condition on openings that overlap.
- Openings.UnverifiedIff: requires that oracles that agree on the announcement key and on the attestation key came from the same seed, which nothing but the hash can guarantee.
- OracleSafety.InterleavedNeverBogus: without the condition on openings that overlap it is false (`SomeRunFindsBogus`), and `BogusIff` says exactly when.
- OracleSafety.RecordsNeverChange: for the in-memory store only; the update statement of the Postgres backend does not check that the event is still unattested, so there an attestation can be overwritten (`PgTables.UpdateAttestation`).
- OracleSafety.StoredScalarRevealsIff: about the indexes that digits and outcomes of the events here have, which are below 3; that the scalar fits no index beyond is not stated.
- TreeRefinement.RangeEndsAgreeIff: for a range with children; without any, Postgres answers with a range without ends and the in-memory store with an empty list. The order of ids is taken to be the order of their characters, which is the order of a C collation.
- PgTrees.PgTables.ListChildren: which hundred of more than a hundred rows come is left open, as the statement has no order.
- Tickers.CreatedInRange: how a number is drawn from the seed and the id is a parameter, any function of the id with a value below the limit.
- TickerRuns.MoveKeeps: other sources may do anything with events that the tickers do not come across; when another source adds or completes events that match their queries, nothing is claimed.
- PredicateRuns.PredicateIsRight: nothing is claimed of a predicate that another source has tried to attest to, and a kind has to be configured for the outcome ticker, without which it is false (`WrongWithoutKind`).
- TickerDriver.RunDerived: a kind has to be configured for the outcome ticker, without which it is false (`WrongWithoutKind`).
- TickerDriver.Driver.Drive: the driver sleeps until the very time it asks for, takes turns between the streams, and meets no failure and no restart; `TickerRuns` covers every other order, failures and restarts.
- The remaining Postgres backend: SQL execution and connections, and the `Ltree` and `Lquery` columns, whose encoding maps many characters to one, so event lists and date maps of the two backends are not compared.
- ECDSA attestations: the signer uses the announcement key and the verifier the separate one, so no verification theorem holds.
- The inside of Blake2b, SHA-256, ChaCha20, Schnorr and ECDSA, and scalars that are zero with negligible probability.
- Nonces beyond 255: the digit is hashed as one byte, and a valid price has at most 64 digits.
- Reading and printing of times and dates, which are parameters.
- The REST interface, the command line, configuration files, logging, Redis sources, the text generation for descriptions, wasm, and hex encoding: input and output without a property of their own.
- Sleeps, deadlines and the order in which the runtime polls streams: any order of moves is allowed, and nothing is claimed about how soon one happens.
- The sort of children is a sort that keeps the order of equal names; the program's may swap them, and they are equal.
