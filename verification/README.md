# A verified model of the plugin SDK

This project models the hand-written cores of the plugin SDK in Dafny and proves what they promise, over every input
and every reachable state. `dafny verify dfyconfig.toml` checks all of it.

- **Document paths** (`JsText`, `JsDecoding`, `DocumentPatterns`, `DocumentPaths`, `DocumentRoundTrips`,
  `DocumentUnits`): the pattern grammar of `ui/index.js`, its matcher over percent-escaped paths, and the overlap
  test. The test is exact: it accepts two patterns if and only if some path matches both. Matching and rebuilding undo
  each other.
- **Runtime revisions and snapshots** (`Revisions`, `RuntimeSnapshots`).
- **Components** (`ComponentControllers`, `ComponentClients`, `ComponentClientRuns`, `ComponentClientEndings`,
  `ComponentClientObjects`): the controller with selector subscriptions, and the assigned client as a replication
  protocol. The client converges to the same snapshot however events and the snapshot response are ordered, and gives
  its subscription up exactly once.
- **Broker** (`Subjects`, `Wire`, `BrokerHeaders`, `WireTexts`, `BrokerPeers`, `BrokerServing`, `BrokerStreams`): the
  wire protocol of the in-process NATS peer. Command framing survives arbitrary payload bytes, and routing delivers
  exactly once to each matching subscription.
- **NATS transport** (`TransportHeaders`, `TransportRuns`, `TransportHistory`, `TransportIsolation`,
  `TransportConnections`, `Violations`, `SubscriptionRuns`, `SubscriptionObjects`, `Services`): calls, refusals,
  capabilities and the host-call token as interleaved lock regions over one connection; the life of a subscription;
  all-or-nothing service mounting.
- **Callback host** (`CallbackStreams`, `CallbackRuns`, `CallbackHosts`, `CallbackLines`): Start against Close,
  registration before asking, and the counters.
- **External origins** (`Origins`, `OriginTexts`): the canonicaliser accepts exactly the image of an injective
  printer, and that image is told again in characters alone.
- **Handshake** (`Protocols`, `PluginLifecycles`, `PluginEvents`): the fail-closed gate, and one plugin process from
  admission to the last cleanup.

Code that only computes is a function. Code that changes state is a method of a class with the fields of the original,
or a method over an array, and its contract ties the new state to a step function. Concurrent code is a step function
per lock region; `Run` performs any sequence of steps, so a lemma about `Run` is about every interleaving. The
connection, client, controller and callback classes are proved to perform those steps (for example
`TransportConnections.CallsAreRuns`). The subscription class ends a subscription in one call, as the uninterrupted run
of the ending steps does (`SubscriptionRuns.EndingIsRun`); its other calls are stated on the objects alone. `Texts`
and `Decimals` hold what several grammars share.

What a method computes is stated by a function, and `JsDecoding`, `DocumentUnits`, `ComponentClientEndings`,
`WireTexts`, `BrokerStreams`, `CallbackLines`, `OriginTexts` and `PluginEvents` say what those functions compute without
using them: in characters, in positions, or as conditions on the inputs written out.

What is outside the modelled code comes in as a parameter: `v6` (the IPv6 texts that print as themselves, in
`Origins`), `Refusals` (which subscriptions of one service the broker refuses), `Schema` (the snapshot guard and the
JSON text of a snapshot), `Policy` (the configuration of the broker, its responders and the lower-casing of header
names), `Reserved` and `concrete` (the bus headers that name an identity, and whether a subject parses), `World` (the
answers of environment, host and plugin hooks during one plugin run), `Missing` (which needs a capability set lacks),
and inputs such as `postError` and `sendFails` for network outcomes.

## Where the code and its promises differ

The model follows the code. Each difference is stated by a lemma, with the exact condition under which the promise
holds.

- The inbox of a plugin is said to cover no other plugin's replies (`v2/transport/natsconn/natsconn.go:142-145`). Two
  inboxes share a subject exactly when, at every common position before the first `>` of either id, the tokens of the
  ids are equal or one of them is `*` (`Subjects.InboxesShare`, for all ids; `SingleInboxesShare` and
  `DottedInboxesShare` spell it out for ids of one token and for ids without wildcards).
- A recorded refusal is said to stop the next call on its subject (`v2/transport/natsconn/natsconn.go:234-237`). A
  call that is already past its check is still sent (`TransportHistory.RefusalSilences`,
  `TransportHistory.PastItsCheckStillSends`); one begun after the refusal never is
  (`TransportHistory.BegunAfterRefusalIsNeverSent`).
- `Close` is said to end every live subscription (`v2/transport/natsconn/natsconn.go:347-349`). One that has reached
  the broker but not the record when `Close` begins can outlive it
  (`SubscriptionRuns.CloseReleasesAllExactlyWhenQuiet`, `SubscriptionRuns.OpeningOutlivesClose`).
- A `Start` that finds the host started succeeds even when the stream has ended, with the context of its opener or
  with the response of the host. It has a live stream behind it exactly when neither has happened
  (`CallbackStreams.AlreadyStartedIsLiveUnlessEnded`, `CallbackStreams.AlreadyStartedMayBeDead`), and a `Start` that
  opens a stream exactly when its reader has not ended by then (`CallbackStreams.OpenedIsLiveUnlessReaderEnded`).
- A selector that looks past the JSON text of a snapshot can miss a change
  (`ComponentControllers.RespectingSelectorMissesNothing`, `ComponentControllers.DisrespectfulSelectorMissesAChange`).
- The payload ceiling binds publishes only: a call is sent exactly when `TransportHistory.SentExactlyWhenPasses` says,
  and a request, a reply or a probe of any size is (`TransportHistory.OnlyPublishHasACeiling`).
- The effective capabilities are said to be cut down to the transport (`v2/protocol.go:81-84`). They are exactly when
  the connection was dialled or the bus handed in can do all that the host reports (`PluginLifecycles.EffectiveIsCut`,
  `PluginLifecycles.WiredWithinItsBus`); otherwise a plugin can be started with more than its bus can do
  (`PluginLifecycles.StartsBeyondItsBus`).

## Model

| member | source | states |
|---|---|---|
| `DocumentPatterns.DocumentSegments` | ui/index.js:18-34 | the parsing loop computes the segment list of the pattern grammar, `None` for the `null` results |
| `DocumentPatterns.PatternRoundTrip` | ui/index.js:18-34 | a pattern parses to a segment list if and only if the list is well-formed (legal names, no name twice, star only last, literals of legal characters) and the pattern is its spelling |
| `DocumentPatterns.IsDocumentPath` | ui/index.js:37-39 | true exactly for the spellings of well-formed segment lists |
| `JsText.DecodeOfEscaped` | ui/index.js:49 | decoding starts by undoing the escapes of any one code point, whatever text follows |
| `JsText.DecodeEncode` | ui/index.js:49 | percent decoding undoes percent encoding on every text without unpaired surrogates (RFC 3986 section 2.1 over RFC 3629 section 3) |
| `JsText.EncodeIsEncoded` | ui/index.js:44-45 | encoded text contains no separator, query, fragment or backslash, so it passes the pathname test |
| `JsDecoding.TakeIsExact` | ui/index.js:49 | at a percent sign, one code point is taken exactly when the text starts with the escaped octets that spell it in UTF-8 |
| `JsDecoding.DecodeIsExact` | ui/index.js:49 | so decoding is exact for every text, well-formed or not: a plain unit is kept, and at a percent sign it succeeds exactly when such octets stand there and the rest decodes, giving the code point in UTF-16 |
| `DocumentPaths.DecodeInPlace` | ui/index.js:48-52 | the decoding loop overwrites every part with its once-decoded value, or gives up exactly when some part is undecodable or inadmissible |
| `DocumentPaths.AdmitMeans` | ui/index.js:48-52 | a list of parts is admitted exactly when each part is, position by position |
| `DocumentPaths.BindParts` | ui/index.js:56-62 | the binding loop returns the bindings of all segments, or nothing exactly when a literal disagrees |
| `DocumentPaths.MatchDocumentPath` | ui/index.js:42-63 | the method computes the matching function the lemmas below are about, error results included |
| `DocumentPaths.MatchIsRebuild` | ui/index.js:42-63 | a match yields given parameters if and only if they bind exactly the names of the pattern to admissible values and, substituted into the pattern, rebuild the once-decoded segment list of the path |
| `DocumentPaths.BoundIsUnique` | ui/index.js:56-62 | the parameters of a match are determined by the path |
| `DocumentUnits.AdmittedAreClean` | ui/index.js:48-52 | a part is admitted exactly when it decodes to code units that are not empty, not one or two dots, and hold no slash, backslash, control unit or lone surrogate, spelled in numbers |
| `DocumentUnits.ValuesAreExactly` | ui/index.js:42-52 | a path has decoded parts exactly when it starts with a slash, holds no question mark, hash or backslash, and each part between slashes decodes to such units |
| `DocumentUnits.MatchedAreClean` | ui/index.js:42-63 | every segment of every value a match hands out, star values included, is such a text |
| `DocumentUnits.PatternsAreExactly` | ui/index.js:18-34 | the pattern grammar in code units: which texts are patterns, and which segments they have |
| `DocumentRoundTrips.ValuesOfEscaped` | ui/index.js:45-52 | escaping admissible values and decoding the path once gives the values back |
| `DocumentRoundTrips.EscapedRebuildMatches` | ui/index.js:42-63 | for any admissible parameters, the escaped rebuilt path matches with exactly those parameters |
| `DocumentRoundTrips.ScanMeans` | ui/index.js:71-75 | the overlap scan accepts exactly when no two literals at one position differ |
| `DocumentRoundTrips.OverlapHasWitness` | ui/index.js:66-76 | completeness: when the scan accepts, a concrete path is constructed that both patterns match, stars of different depth included |
| `DocumentRoundTrips.SharedPathIsSeen` | ui/index.js:66-76 | soundness: a path of any length that both patterns match makes the scan accept |
| `DocumentRoundTrips.OverlapIsExact` | ui/index.js:66-76 | the syntactic test accepts if and only if some escaped pathname matches both patterns |
| `DocumentRoundTrips.DocumentPathsOverlap` | ui/index.js:66-76 | the method throws exactly on an invalid pattern and otherwise says whether the two patterns share a path |
| `Revisions.CompareIsNumeric` | ui/index.js:78-84 | length-then-lexicographic comparison is the sign of the numeric difference for canonical decimals of any size, 0 only for equal texts |
| `Revisions.CompareIsTotalOrder` | ui/index.js:78-84 | comparison is refused exactly for text that is neither a lone zero nor digits that start with another, and is antisymmetric and transitive |
| `Revisions.NumeralsCompare` | ui/index.js:78-84 | comparing the decimal numerals of any two numbers compares the numbers |
| `RuntimeSnapshots.IsRuntimeSnapshot` | ui/index.js:86-102 | accepted exactly when the envelope is well shaped, every entry is valid with one of the four desired states spelled out, ids are pairwise distinct, and every available entry is installed, of a generation, and "enabled" |
| `ComponentControllers.Controller.Dispose` | ui/components.js:60 | disposal is recorded and every listener silenced |
| `ComponentControllers.SnapshotIsLatest` | ui/components.js:63-75 | what `getSnapshot` shows after any run without disposal is the last snapshot installed, with the JSON text of the last valid one offered |
| `ComponentControllers.DisposalIsFinal` | ui/components.js:59-63 | after any run the store is disposed exactly if some operation disposed it, and then its snapshot no longer changes |
| `ComponentControllers.Controller.Subscribe` | ui/components.js:64-70 | a subscriber starts with the selected value of the current snapshot as its previous value; refused once disposed |
| `ComponentControllers.Controller.Unsubscribe` | ui/components.js:69 | only the named subscriber is removed |
| `ComponentControllers.Controller.Update` | ui/components.js:75 | an invalid or JSON-equal snapshot changes nothing; any other is installed and every listener compares and is told of its own change |
| `ComponentControllers.SubscriberSeesChanges` | ui/components.js:64-75 | for every run of operations, a selector subscriber receives exactly the consecutive-duplicate-free sequence of its values over the installed snapshots, minus the initial one; no value it receives repeats the one before |
| `ComponentControllers.RespectingSelectorMissesNothing` | ui/components.js:64-75 | the same over the snapshots offered, when the selector depends only on JSON text |
| `ComponentControllers.DisrespectfulSelectorMissesAChange` | ui/components.js:64-75 | the condition is needed: any pair of snapshots with equal JSON text and different selected values is a change the subscriber is never told of |
| `ComponentControllers.UnsubscribedHearsNothing` | ui/components.js:69 | after its unsubscribe function is called, what a listener has received stays as it is on every run |
| `ComponentControllers.DisposedHearNothing` | ui/components.js:60 | after disposal no listener hears anything on any run |
| `ComponentClients.SortSorts` | ui/components.js:115 | sorting the queue by revision permutes it and puts it in ascending order |
| `ComponentClients.SortIsStable` | ui/components.js:115 | sorting keeps queued events of one revision in the order of their arrival |
| `ComponentClientRuns.StepKeeps` | ui/components.js:83-121 | every step of host, network or caller keeps the invariant (applied revisions strictly ascend and end in the current one, unsubscribe has run exactly if closed) and never lowers the applied revision |
| `ComponentClientRuns.RunKeeps` | ui/components.js:83-121 | the same over every run |
| `ComponentClientRuns.ClosedIsFinal` | ui/components.js:85-121 | after closing, no later step creates a controller, applies a revision or unsubscribes again |
| `ComponentClientEndings.UnsubscribesOnce` | ui/components.js:85-121 | on every run the subscription is given up by exactly the ending steps (withdrawal, invalid event, abort, failed request, disposal, and the responses named in the next row), and exactly once |
| `ComponentClientEndings.ResponseEndsExactly` | ui/components.js:102-121 | a response ends the client exactly when it is faulty, names an unsupported capability, has an invalid snapshot, or the queue holds a withdrawal, an invalid revision, or a newer revision whose first event has an invalid snapshot |
| `ComponentClientEndings.ApplyAllThrows` | ui/components.js:86-92 | applying an ascending list of events throws exactly when some revision above the current one has an invalid snapshot in its first event |
| `ComponentClientEndings.SupportedAreOffered` | ui/components.js:5-12 | the capabilities a response may name, family by family, spelled out |
| `ComponentClientEndings.ResponseErrors` | ui/components.js:102-121 | the error a response ends with is that of the first cause in the order of the checks, each cause told from the messages; without a cause the client serves |
| `ComponentClientEndings.AbortIsRemembered` | ui/components.js:98-103 | on every run a client takes its host for aborted exactly when an abort has come |
| `ComponentClientRuns.QueuedWithdrawalWins` | ui/components.js:112-119 | a queued withdrawal beats every queued snapshot: the client is refused, and no queued revision is applied |
| `ComponentClientRuns.ForeignEventsInvisible` | ui/components.js:94 | events of another identity, generation or lease never change the outcome of a run |
| `ComponentClientRuns.SameIdentityIsEquality` | ui/components.js:51 | two identities are the same exactly when all six fields are equal |
| `ComponentClientRuns.SessionConverges` | ui/components.js:83-118 | a session of good events ends live with the host snapshot of the greatest revision seen |
| `ComponentClientRuns.SessionsAgree` | ui/components.js:83-118 | confluence: any two sessions that saw the same events, in any order and multiplicity and split anywhere around the response, end at the same revision with the same snapshot |
| `ComponentClientRuns.QueueLosesNoRevision` | ui/components.js:114-118 | merging the queue installs each queued revision above the response, in ascending order, and nothing else |
| `ComponentClientObjects.ComponentClient.Dispose` | ui/components.js:85 | the method has the effect of the disposal step |
| `ComponentClientObjects.ComponentClient.Fail` | ui/components.js:121 | a caught error disposes and rejects |
| `ComponentClientObjects.ComponentClient.Apply` | ui/components.js:86-92 | one event is applied, skipped as stale, ends the client as withdrawn, or throws |
| `ComponentClientObjects.ComponentClient.OnEvent` | ui/components.js:93-97 | the listener queues before the controller exists and applies after, swallowing errors by disposing |
| `ComponentClientObjects.ComponentClient.OnAbort` | ui/components.js:98 | the abort listener disposes |
| `ComponentClientObjects.ComponentClient.OnSubscribed` | ui/components.js:98-101 | after subscribing, an aborted host is refused and any other is asked for its snapshot |
| `ComponentClientObjects.ComponentClient.MergeQueue` | ui/components.js:115-117 | the sorted queue is applied in order up to the first event that throws |
| `ComponentClientObjects.ComponentClient.OnResponse` | ui/components.js:102-121 | every check on the response in order, the controller, the merge and the final withdrawal check |
| `ComponentClientObjects.ComponentClient.OnRequestError` | ui/components.js:101-121 | a failed snapshot request disposes and rejects |
| `ComponentClientObjects.Connect` | ui/components.js:77-83 | an invalid assignment or an aborted host is refused before anything is subscribed; otherwise a fresh client |
| `Subjects.Matches` | v2/internal/fakebroker/fakebroker.go:365-380 | the token loop computes the recursive wildcard relation |
| `Subjects.MatchMeans` | v2/internal/fakebroker/fakebroker.go:365-380 | the relation without recursion: tokens agree or are `*` up to the first `>`, which wants at least one more token, and lengths are equal when there is none |
| `Subjects.ShareIsCompatible` | v2/internal/fakebroker/fakebroker.go:365-380 | two patterns share a subject exactly when their tokens are compatible up to the first open end |
| `Subjects.InboxesShare` | v2/transport/natsconn/natsconn.go:128-145 | for all ids whatever, two inboxes share a subject exactly when at every common position before the first `>` of either id the tokens are equal or one of them is `*` |
| `Subjects.SingleInboxesShare` | v2/transport/natsconn/natsconn.go:128-145 | for ids of one token: exactly when the ids are equal or one of them is a wildcard |
| `Subjects.DottedInboxesShare` | v2/transport/natsconn/natsconn.go:128-145 | for ids of several plain tokens: exactly when one token list begins the other |
| `Wire.PublishConsumes` | v2/internal/fakebroker/fakebroker.go:255-294 | a publish takes its declared payload and two bytes from the stream; header block and body partition the payload |
| `Wire.FieldsOfWords` | v2/internal/fakebroker/fakebroker.go:234 | words set apart by spaces are the fields of the line; white space is that of Unicode, in UTF-8 |
| `Decimals.AtoiOverruns` | v2/internal/fakebroker/fakebroker.go:394-397 | digits followed by anything else are malformed, and read as 0, exactly as long as they fit 64 bits; longer, they read as the largest integer |
| `Wire.LineOfWords` | v2/internal/fakebroker/fakebroker.go:172-181 | a line of words is read as its verb and the rest of the line, leaving what follows untouched |
| `Wire.SpelledIsTaken` | v2/internal/fakebroker/fakebroker.go:168-213 | framing: the printed form of any well-formed command (CONNECT, PING, SUB, UNSUB, PUB, HPUB), followed by any bytes, is taken as exactly that command |
| `Wire.StreamRoundTrip` | v2/internal/fakebroker/fakebroker.go:168-213 | reading the printed form of any well-formed command sequence gives that sequence back, for payloads of arbitrary bytes |
| `BrokerPeers.ReadFull` | v2/internal/fakebroker/fakebroker.go:399-409 | fills the buffer with exactly the next bytes of the stream and consumes no more, or drains a stream that is too short |
| `BrokerPeers.RouteTo` | v2/internal/fakebroker/fakebroker.go:316-323 | one peer receives one message for each of its matching subscriptions and nothing else, in whatever order they are visited |
| `BrokerPeers.Route` | v2/internal/fakebroker/fakebroker.go:311-325 | every peer receives exactly one message for each of its matching subscriptions and nothing else |
| `BrokerServing.HandledIsParsed` | v2/internal/fakebroker/fakebroker.go:168-213 | when credentials are not refused, what is carried out is what the stream parses to |
| `BrokerServing.SpelledIsHandled` | v2/internal/fakebroker/fakebroker.go:168-213 | well-formed commands are carried out one for one |
| `BrokerServing.TakePublish` | v2/internal/fakebroker/fakebroker.go:255-282 | reading a publish from the buffered stream computes the parsing function, and leaves the stream after it |
| `BrokerServing.ReadCommand` | v2/internal/fakebroker/fakebroker.go:171-212 | one turn of the read loop takes exactly the next command |
| `BrokerServing.Deliver` | v2/internal/fakebroker/fakebroker.go:328-337 | a reply goes to exactly one matching subscription of the connection that asked, or to none when none matches |
| `BrokerHeaders.ParseHeaderBlock` | v2/internal/fakebroker/fakebroker.go:382-392 | the loop over the lines of a header block computes the header parser |
| `BrokerHeaders.HeadersRoundTrip` | v2/internal/fakebroker/fakebroker.go:382-392 | a responder sees the headers a client wrote: each name in lower case with its value, the last of equal names |
| `WireTexts.SpaceLengthMeans` | v2/internal/fakebroker/fakebroker.go:234 | white space is recognised by the UTF-8 bytes of exactly the characters Unicode calls space |
| `WireTexts.FieldsMeans` | v2/internal/fakebroker/fakebroker.go:233-256 | the fields of any line are the runs between its white space |
| `WireTexts.TrimMeans` | v2/internal/fakebroker/fakebroker.go:382-391 | trimming takes all white space off both ends and nothing else |
| `WireTexts.VerbsAreRead` | v2/internal/fakebroker/fakebroker.go:176-211 | the first word of a line decides what is done, each letter of it in any case (the dotless i and the long s included); a line whose first word is none of the six verbs is passed over |
| `WireTexts.PublishCrashes` | v2/internal/fakebroker/fakebroker.go:255-277 | a publish ends in a crash exactly when its declared length plus two is no buffer length, or is below two and the stream holds that much |
| `BrokerServing.HandlePub` | v2/internal/fakebroker/fakebroker.go:283-294 | a violating publish is refused, a request is answered on its own connection, any other publish is routed |
| `BrokerServing.HandleOwn` | v2/internal/fakebroker/fakebroker.go:182-208 | every other command changes and writes to its own connection only |
| `BrokerServing.Handle` | v2/internal/fakebroker/fakebroker.go:181-213 | the effect of one command on its own connection and on every other |
| `BrokerServing.Serve` | v2/internal/fakebroker/fakebroker.go:168-213 | over a whole stream: the final subscriptions, what each command writes to its own connection in turn, and exactly the routed messages on every other connection |
| `BrokerStreams.SubscribedByLast` | v2/internal/fakebroker/fakebroker.go:200-252 | after any stream an id is subscribed exactly when its last SUB or UNSUB, by position and not counting refused SUBs, is a SUB, with that subject and queue; or when it was before and has none |
| `BrokerStreams.WritesAreWritten` | v2/internal/fakebroker/fakebroker.go:168-337 | what a connection is written is one chunk per effect in order: PONG, the refusal text, a violation, at most one answer, or exactly one message for each subscription then live that matches |
| `BrokerStreams.OthersAreReached` | v2/internal/fakebroker/fakebroker.go:308-326 | another connection gets each message exactly as often as there are publishes, neither refused nor answered, that match the subscription it names |
| `BrokerStreams.RefusedStops` | v2/internal/fakebroker/fakebroker.go:182-195 | a refusing broker carries out the commands through the first CONNECT and none after it |
| `BrokerStreams.SilentAfterUnsub` | v2/internal/fakebroker/fakebroker.go:202-206 | from an UNSUB on, and until the next SUB, no message bears the id |
| `TransportHeaders.ToNatsHeader` | v2/transport/natsconn/headers.go:22-28 | each bus header that is not reserved becomes one wire header with one value |
| `TransportHeaders.BindHostCallHeader` | v2/transport/natsconn/workload.go:29-46 | deleting in place every spelling of the token header and then setting it computes the stamped header map |
| `TransportHeaders.StampedIsExact` | v2/transport/natsconn/workload.go:29-46 | whatever headers the caller supplied, the token goes out exactly on gateway subjects and exactly when bound, once, and every other header is kept |
| `TransportHeaders.StampedInText` | v2/transport/natsconn/workload.go:29-46 | the same in literal text: every spelling of the header name goes, in any letter case the folding knows, and the token is set exactly on subjects under cmd.gateway. |
| `TransportHeaders.OwnHeadersAreOthers` | v2/transport/natsconn/natsconn.go:253-290 | the headers the transport sets after stamping do not name the token |
| `TransportRuns.IntersectIsMeet` | v2/transport/natsconn/natsconn.go:207-223 | `intersect` is a greatest lower bound, with non-positive ceilings unbounded: it admits exactly the payloads both sides admit |
| `TransportRuns.WithinIsAtMost` | v2/transport/natsconn/natsconn.go:207-223 | offering no more than another set of capabilities, payload by payload, can be read off the fields |
| `TransportRuns.StepKeeps` | v2/transport/natsconn/natsconn.go:197-297 | every region of every interleaved call keeps the invariant that ties token, capabilities and refusals to the history |
| `TransportRuns.RunKeeps` | v2/transport/natsconn/natsconn.go:197-297 | the same over every run |
| `TransportHistory.TokenIsConfined` | v2/transport/natsconn/natsconn.go:238-297 | on every run, a request to the gateway carries the bound token once, in one spelling, exactly when a token was bound when it was stamped; nothing else sent carries a header of that name |
| `TransportHistory.TokenNeverChanges` | v2/transport/natsconn/workload.go:16-27 | a bound token stays what it is on every continuation |
| `TransportHistory.PublishIsWithinCeilings` | v2/transport/natsconn/natsconn.go:246-249 | every published payload is within the ceiling of the transport, and within that of the host once it had been reported |
| `TransportHistory.SentExactlyWhenPasses` | v2/transport/natsconn/natsconn.go:238-297 | from any state, a fresh call of any kind is sent exactly when a publish or request finds no refusal of its subject and a publish is within the ceiling |
| `TransportHistory.OnlyPublishHasACeiling` | v2/transport/natsconn/natsconn.go:238-297 | a request, a reply or a probe of any size is sent when its subject is not refused |
| `TransportHistory.RequestHasNoCeiling` | v2/transport/natsconn/natsconn.go:264-297 | a whole run that sends a request of any size |
| `TransportHistory.SentWasCheckedFirst` | v2/transport/natsconn/natsconn.go:242-268 | no publish or request is sent whose check came after a refusal of its subject |
| `TransportHistory.BegunAfterRefusalIsNeverSent` | v2/transport/natsconn/natsconn.go:242-268 | a publish or request begun after a refusal of its subject is never sent, whatever else is in flight |
| `TransportHistory.RefusalSilences` | v2/transport/natsconn/natsconn.go:415-442 | a refused subject stays silent on every continuation if no call for it is past its check |
| `TransportHistory.PastItsCheckStillSends` | v2/transport/natsconn/natsconn.go:238-297 | the condition is needed: any call past its check can still be sent |
| `TransportIsolation.RefusalSparesOthers` | v2/transport/natsconn/natsconn.go:415-442 | for any run, taking out every refusal of a subject changes neither capabilities nor token, nor any other call, nor the messages sent elsewhere and their order |
| `TransportIsolation.CheckSparesOthers` | v2/transport/natsconn/natsconn.go:434-442 | in particular one refusal leaves the next check of every other subject as it was |
| `Violations.ViolationRoundTrip` | v2/transport/natsconn/natsconn.go:422-432 | a refusal worded as the server words it, inside any text, gives back its operation in lower case and its subject |
| `Violations.ParsedIsLeftmost` | v2/transport/natsconn/natsconn.go:420-432 | every error text is read as the leftmost refusal in it, or not at all when there is none; what a refusal is, is told as its parts in a row |
| `TransportConnections.Connection.Negotiated` | v2/transport/natsconn/natsconn.go:197-205 | capabilities are installed by the first call only: services if the host has them, nothing else, and at most 65536 bytes |
| `TransportConnections.Connection.BindHostCallToken` | v2/transport/natsconn/workload.go:16-27 | refused as malformed or as bound to another token, else held; nothing but 64 lower-case hexadecimal digits is ever held |
| `TransportConnections.Connection.OnPermissionViolation` | v2/transport/natsconn/natsconn.go:406-419 | a publish violation is recorded against its subject; other texts record nothing |
| `TransportConnections.Connection.CheckDenied` | v2/transport/natsconn/natsconn.go:434-442 | the check region reports a recorded refusal of the subject |
| `TransportConnections.Connection.CheckSize` | v2/transport/natsconn/natsconn.go:246-249 | the ceiling region compares with the negotiated ceiling |
| `TransportConnections.Connection.StampHeader` | v2/transport/natsconn/workload.go:29-46 | the stamping region fills the header map of the call in place |
| `TransportConnections.Connection.Publish` | v2/transport/natsconn/natsconn.go:238-261 | a subject that is not concrete is refused before anything else; otherwise Denied exactly when its subject is on record, else Budget exactly when over the ceiling, else Unavailable exactly when the send fails, else one message is sent with its headers spelled out, and none in the other cases |
| `TransportConnections.Connection.Request` | v2/transport/natsconn/natsconn.go:264-297 | a subject that is not concrete is refused before anything else; otherwise Denied exactly when its subject is on record, else Unavailable exactly when the send fails, else one message is sent with its headers spelled out, the token among them exactly on gateway subjects |
| `TransportConnections.Connection.Respond` | v2/transport/natsconn/headers.go:57-69 | a reply is sent stripped of the token, whatever its subject; it fails exactly when the send does |
| `TransportConnections.CallsAreRuns` | v2/transport/natsconn/natsconn.go:238-297 | each uninterrupted call is the run of its own regions in order, and so one of the runs the history lemmas are about |
| `SubscriptionRuns.FinishesOnceAndForGood` | v2/transport/natsconn/sub.go:63-74 | over every interleaving a subscription finishes at most once, its reason is recorded before `done` closes and never changes, it is out of the record by then and never returns |
| `SubscriptionRuns.FirstReasonWins` | v2/transport/natsconn/sub.go:63-74 | the first actor to finish a live subscription gives the reason every later reader sees |
| `SubscriptionRuns.EndsForACause` | v2/transport/natsconn/sub.go:63-74 | over every interleaving a subscription has ended only if something asked for it by name and with that reason, or Close found it on record |
| `SubscriptionRuns.OpensAndLives` | v2/transport/natsconn/natsconn.go:300-338 | a new subscription goes live with its subject, whatever the state of the connection |
| `SubscriptionRuns.CloseReleasesWhatItFound` | v2/transport/natsconn/natsconn.go:350-366 | once Close has returned, every subscription it found has finished |
| `SubscriptionRuns.QuietCloseReleasesAll` | v2/transport/natsconn/natsconn.go:350-366 | if no Subscribe is between the broker and the record when Close begins and none starts later, Close leaves nothing live |
| `SubscriptionRuns.CloseCanEnd` | v2/transport/natsconn/natsconn.go:350-366 | a close in progress always has a way to its end that leaves every other subscription alone |
| `SubscriptionRuns.OpeningOutlivesClose` | v2/transport/natsconn/natsconn.go:323-336 | the condition is needed: any Subscribe between the broker and the record when Close begins can go live after Close has returned, with no new Subscribe |
| `SubscriptionRuns.CloseReleasesAllExactlyWhenQuiet` | v2/transport/natsconn/natsconn.go:350-366 | Close leaves nothing on record, whatever happens short of new Subscribes, exactly when no Subscribe was half-way as it began |
| `SubscriptionRuns.EndingIsRun` | v2/transport/natsconn/sub.go:63-74 | what the objects do in one call is the run of the four ending steps with nothing in between |
| `SubscriptionObjects.Hub.Finish` | v2/transport/natsconn/sub.go:63-74 | ends a subscription once: reason recorded, forgotten, done closed |
| `SubscriptionObjects.Hub.Cancel` | v2/transport/natsconn/sub.go:30-32 | ends a subscription without a fault, unless it had ended already |
| `SubscriptionObjects.Hub.Drain` | v2/transport/natsconn/sub.go:34-51 | a drain the broker refuses or the deadline overtakes ends the subscription with that fault |
| `SubscriptionObjects.Hub.Subscribe` | v2/transport/natsconn/natsconn.go:300-338 | a refused subscription leaves the record unchanged; any other is added live |
| `SubscriptionObjects.Hub.OnSubscriptionViolation` | v2/transport/natsconn/natsconn.go:411-414 | exactly the subscriptions on the refused subject end, as denied |
| `SubscriptionObjects.Hub.Close` | v2/transport/natsconn/natsconn.go:350-366 | every live subscription ends as withdrawn; a second close does nothing |
| `Services.Service.Add` | v2/transport/natsconn/services.go:173-180 | one mount is appended, or nothing changes when the broker refuses it |
| `Services.Service.MountEndpoints` | v2/transport/natsconn/services.go:47-52 | the endpoints are mounted in order under their queue groups, up to the first that has no handler or is refused |
| `Services.Service.MountDiscovery` | v2/transport/natsconn/services.go:186-219 | the nine discovery subscriptions are mounted in order, up to the first refused |
| `Services.Service.Stop` | v2/transport/natsconn/services.go:221-233 | everything the service mounted is cancelled, once; what others mounted stays live |
| `Services.Serve` | v2/transport/natsconn/services.go:33-58 | all or nothing: it succeeds exactly when nothing stands in the way, the first cause decides the error, on success exactly the endpoints and discovery subjects have become live, and on failure at any point nothing has |
| `Services.MountsInText` | v2/transport/natsconn/services.go:153-219 | the subjects and queue groups mounted, in order and in literal text, the nine discovery subjects included |
| `CallbackStreams.AtMostOneStream` | rpchost.go:125-162 | at most one stream context is uncancelled, however Starts and Closes interleave |
| `CallbackStreams.OpenedWasUndisturbed` | rpchost.go:125-162 | a Start that reports a newly opened stream saw it admitted, with no Close since it installed `stop` |
| `CallbackStreams.CloseFailsTheStart` | rpchost.go:453-465 | a Close while a Start is waiting or settling makes that Start fail: on every continuation its first return is a failure, until then it is pending, and its stream is never reported open |
| `CallbackStreams.DoomedCanReturn` | rpchost.go:143-158 | such a Start can always return |
| `CallbackStreams.OpenedIsLiveUnlessReaderEnded` | rpchost.go:155-161 | a Start that settles reports its stream opened exactly when it is not cancelled, and that stream is live exactly when its reader has not ended |
| `CallbackStreams.AlreadyStartedIsLiveUnlessEnded` | rpchost.go:131-135 | a Start that finds the host started succeeds without opening anything; a live stream stands behind it exactly when neither the context of the opening Start nor its reader has ended |
| `CallbackStreams.AlreadyStartedMayBeDead` | rpchost.go:131-135 | each end by itself is enough, from every started state: the next Start succeeds with no live stream |
| `CallbackStreams.StartingIsReached` | rpchost.go:125-162 | a Start whose stream is admitted leaves the host started with a live stream |
| `CallbackRuns.IdsDiffer` | rpchost.go:310-312 | no two registrations share an id |
| `CallbackRuns.ReceivedIsConserved` | rpchost.go:198-216 | in every reachable state received equals dispatched plus unmatched plus unknown kinds plus those still with a reader |
| `CallbackRuns.NoLostCallback` | rpchost.go:252-307 | a callback for an id the host had been asked to register is unmatched only if that registration failed, was cancelled, is of the other kind or was given no handler |
| `CallbackRuns.DispatchedToItsOwner` | rpchost.go:199-216 | every dispatched callback went to the one registration bearing its id, of its kind |
| `CallbackRuns.CancelRemoves` | rpchost.go:274-278 | cancelling removes the registration; cancelling again changes nothing |
| `CallbackHosts.CallbackTable.Mint` | rpchost.go:310-312 | each registration gets the next id |
| `CallbackHosts.CallbackTable.Register` | rpchost.go:252-307 | the id is minted and the handler entered before the host is asked; a failed post takes it out again and records what failed and why |
| `CallbackHosts.CallbackTable.Unregister` | rpchost.go:274-278 | the returned function removes the handler, and does nothing when called again |
| `CallbackHosts.CallbackTable.LookUp` | rpchost.go:199-202 | both tables are read in one region |
| `CallbackHosts.CallbackTable.Dispatch` | rpchost.go:203-216 | the handler of the kind of the callback is called, or the callback counted as unmatched |
| `CallbackHosts.CallbackTable.OnCallback` | rpchost.go:198-216 | counting, lookup and dispatch of one callback |
| `CallbackHosts.CallbackTable.ReadCallbacks` | rpchost.go:184-217 | the scanner loop handles its lines in order, passes over those that are not callbacks, and keeps the error that ended it |
| `CallbackLines.LinesInText` | rpchost.go:184-217 | reading counts exactly the lines that are callbacks, calls the handlers of those that have one in order, and counts the other events and ticks as unmatched, whatever stands between them |
| `CallbackLines.ToldBeforeActive` | rpchost.go:252-307 | on every run a registration past its post is one the host was told of |
| `CallbackLines.CancelledIsNotCalled` | rpchost.go:274-278 | once a registration has failed or been cancelled, and no reader holds its handler, the handler is never called again on any run |
| `CallbackHosts.CallbackTable.Counters` | rpchost.go:435-440 | the counters report exactly the callbacks received, the callbacks lost and the last stream error |
| `CallbackHosts.StreamControl.Install` | rpchost.go:131-138 | the first locked region of Start |
| `CallbackHosts.StreamControl.Settle` | rpchost.go:155-161 | the last locked region of Start refuses a context cancelled in the meantime |
| `CallbackHosts.StreamControl.Close` | rpchost.go:453-461 | Close cancels the installed stream and forgets it in one region |
| `Origins.ReadIsSpelling` | http_origin.go:39-88 | an accepted value denotes a valid origin and is its canonical spelling |
| `Origins.HostOfText` | http_origin.go:56-74 | names, IPv4 and IPv6 texts do not overlap: each valid host is classified as what it is |
| `Origins.AuthorityParses` | http_origin.go:47 | the authority of a valid origin survives URL parsing unchanged |
| `Origins.AuthoritySplits` | http_origin.go:51-75 | host name and port are read back from the authority |
| `Origins.SpellingIsRead` | http_origin.go:39-88 | the spelling of every valid origin is accepted and read back as that origin |
| `Origins.ReadIsImage` | http_origin.go:39-88 | accepted values are exactly the spellings of valid (scheme, host, port) triples |
| `Origins.SpellingIsInjective` | http_origin.go:39-88 | each origin has one accepted spelling and no spelling is shared (RFC 6454 section 6.2, RFC 1035 section 2.3.4) |
| `OriginTexts.AcceptedIsOriginText` | http_origin.go:39-88 | a value is accepted exactly when it is http:// or https://, a host (labels of 1 to 63 characters, four numbers up to 255, or a bracketed IPv6 text) and nothing or a colon and a port, told in characters alone |
| `OriginTexts.OwnPortIsNotWritten` | http_origin.go:80 | no accepted value starts with http:// and ends in :80, and none starts with https:// and ends in :443 |
| `OriginTexts.OtherPortsAreRead` | http_origin.go:75-82 | for every host text, each port from 1 to 65535 other than that one is accepted, and so are both forms without a port |
| `OriginTexts.SoleValueMeans` | http_origin.go:30-38 | a sole value is what one key that spells the header name holds, when every other such key holds nothing; which keys spell it is told letter by letter |
| `Origins.HeaderValues` | http_origin.go:30-38 | the values collected over header names in any letter case and any order identify a sole value exactly when there is one |
| `Origins.HasLabels` | http_origin.go:70-74 | the label loop accepts exactly names whose labels are all well-formed |
| `Origins.HostAuthority` | http_origin.go:55-74 | the host part of the reprint, bracketed for IPv6, or refusal |
| `Origins.IsPort` | http_origin.go:75-79 | a port is accepted exactly when canonical, in range and not the default of the scheme |
| `Origins.Reprint` | http_origin.go:48-85 | the reprint of a parsed URL is the canonical spelling of the origin it denotes |
| `Origins.ExternalOrigin` | http_origin.go:25-89 | the origin returned is the sole header value and canonical; nothing is returned exactly when there is no such value |
| `Protocols.FirstUnsupported` | v2/protocol.go:96-101 | the required feature reported is the first unsupported one, and none reported means all are supported |
| `Protocols.GateIsExact` | v2/protocol.go:85-116 | the gate opens if and only if everything is agreed: no refusal, the major, every required feature, every need in the effective set, a generation, and a well-formed token exactly when workload authentication is advertised |
| `Protocols.IdentityIsExact` | v2/protocol.go:132-145 | the identity check passes exactly for this plugin id and no conflicting generation, and then the bound identity is this plugin in this generation |
| `PluginLifecycles.InstallOn` | v2/plugin_serve.go:116-120 | the effective capabilities are those of the host cut down to the dialled transport, or of the host when a bus was handed in |
| `PluginLifecycles.EffectiveIsCut` | v2/plugin_serve.go:114-118 | the effective set is that of the host cut down to the connection held, and within that connection, exactly when the connection was dialled or the bus handed in can do all that the host reports |
| `PluginLifecycles.WiredAsAnswered` | v2/plugin_serve.go:114-166 | whatever a plugin is wired with is the effective set of the answer of the host |
| `PluginLifecycles.StartedIsWired` | v2/plugin_serve.go:157-182 | no plugin is started without having been wired with that set |
| `PluginLifecycles.WiredWithinItsBus` | v2/plugin_serve.go:114-166 | a plugin is wired within what its connection can do exactly under that condition |
| `PluginLifecycles.OwnCapabilitiesAreIgnored` | v2/plugin_serve.go:97-118 | a bus handed in is never asked what it can do: no run depends on it |
| `PluginLifecycles.StartsBeyondItsBus` | v2/plugin_serve.go:97-182 | the condition can fail: a plugin that needs durable streams is wired with them, and started, on a bus without them |
| `PluginLifecycles.BindTo` | v2/plugin_serve.go:127-135 | a connection fresh from negotiation binds any token the gate let through |
| `PluginLifecycles.Connect` | v2/plugin_serve.go:99-109 | dialling happens only with a socket, credentials and an arrived credential file, and defers the close of the connection |
| `PluginLifecycles.Process.Unwind` | v2/plugin_serve.go:178-195 | deferred cleanups run latest first |
| `PluginLifecycles.ServePlugin` | v2/plugin_serve.go:76-199 | the deferred-cleanup code performs exactly the nested order of steps and cleanups, and succeeds exactly when it served and stopped cleanly |
| `PluginLifecycles.CleanupIsReversed` | v2/plugin_serve.go:76-199 | every run, wherever it stops, releases all it acquired, each once and in reverse order, and stops the plugin only after cancelling its context |
| `PluginLifecycles.StartsBalanceStops` | v2/plugin_serve.go:178-185 | under that discipline, starts and stops account for the plugins running |
| `PluginLifecycles.StartsExactlyWhenReady` | v2/plugin_serve.go:76-186 | the plugin is started exactly when admission, dial, gate, identity, token binding, wiring and validation have all succeeded, and then once |
| `PluginEvents.EventsAreExact` | v2/plugin_serve.go:76-199 | every event of a run happens exactly when all it waits for has gone well, each condition spelled out; HTTP is served exactly when the plugin has been started, started cleanly, and its hooks mounted if it has any |
| `PluginEvents.RunsInOrder` | v2/plugin_serve.go:76-199 | a run dials, asks, installs, binds, wires, validates, starts, mounts and serves in that order, each at most once |
| `PluginLifecycles.StopsExactlyAsStarted` | v2/plugin_serve.go:178-186 | Stop runs exactly as often as Start, once if at all, even when Start failed |
| `PluginLifecycles.TokenIsBoundFirst` | v2/plugin_serve.go:127-186 | a token the host supplied is bound before the plugin starts |

## Left out

- Aliases, re-exports, and the generated guards and descriptors of `ui/contracts.js` and `ui/v2`: flat field checks; a valid snapshot is an uninterpreted predicate.
- The v1 `plugin_serve.go`: it overlaps the v2 handshake and rests on checks in a module that is not part of this model.
- Sockets, HTTP, timers, file polling, JSON and the internals of the NATS client: each is a success, failure or delivery that may happen at any step.
- `bus.ParsePattern`: it belongs to the bus module, which is not part of this model; a pattern it refuses is a subscription that does not begin.
- Component listeners that throw or re-enter delivery, and plain subscriptions without a selector.
- The argument table of component methods (`validateArguments`), and arguments of the wrong JavaScript type.
- Copying and freezing of snapshots (`immutable`): snapshots are values here, so nothing can alias them.
- BrokerServing.Serve: other connections are still while this one is served, so its lock regions are not interleaved; queue groups are ignored, as in the source.
- BrokerServing.TakePublish: buffers of any declared size can be allocated.
- TransportConnections.Connection.Request: the reply and the reading of inbound headers (`fromNATSHeader`) are not modelled, only the outbound path.
- SubscriptionObjects.Hub.Drain: a drain that completes cleanly is not modelled, since the code shown never closes `done` for it.
- SubscriptionObjects.Hub.OnSubscriptionViolation: slow-consumer errors end one subscription the same way and are only a step of the run model.
- SubscriptionRuns.FirstReasonWins: a refusal that arrives between the broker subscribe and the record is not routed to its subscription, and nothing is claimed of it.
- Services.Serve: refusals and cancellations that arrive while a service is being mounted; the request counters and discovery replies.
- CallbackHosts.CallbackTable.Register: the payload of a post.
- Origins.ExternalOrigin: the text form of IPv6 addresses is left to the address library, and zone-identifier escapes inside brackets are not parsed; the code refuses every zone.
- PluginLifecycles.ServePlugin: panics, the waiting loop of `waitForCreds` (its outcome is a flag), the ten-second limit on Stop, and the choice of logger, profiler and HTTP handler.
- Protocols.GateIsExact: message texts of faults are not modelled.
