# A verified model of PrinterHMI Remote

PrinterHMI Remote connects a printer to a relay: a device enrolls a relay with a one-time pairing
code, then opens sessions in which it proves its identity and sends a privacy-filtered status
snapshot. This project models the parts of it whose guarantees hold over whole runs, and proves those
guarantees in Dafny. `dafny verify dfyconfig.toml` checks everything.

- **Text and bytes** (`Json`, `JsonText`, `JsonParser`, `CanonicalJson`, `Base64`, `Messages`,
  `Frames`). Canonical JSON is printed and parsed back, and two documents have the same canonical text
  exactly when Python calls them equal. The signed bytes (a domain separator ending in NUL, then
  canonical JSON) determine the message, and any sequence of frames crosses a stream intact.
- **Device-side enrollment** (`Enrollment`, `EnrollmentHistory`, `EnrollmentRuns`,
  `EnrollmentTheorems`, `ChallengeReuse`, `ChallengeResponses`, `EnrollmentStores`). The state machine
  of pairings, peers and used challenges, with a history of everything that ever happened to it:
  replay protection across pruning and rotation, attempt budgets, conservation, all-or-nothing
  completion. The class loads the state file, works in place and writes back.
- **Relay-side enrollment** (`RelayConfig`, `RelayRuns`, `RelayManager`). Two files, each replaced
  atomically, with a crash possible before every write.
- **The composed protocol** (`Protocol`, `ProtocolRuns`). One relay and any number of device stores
  over a channel whose owner chooses, replays and alters every document and signs with its own keys.
  `HonestEnrollment` shows the other side, that an exchange succeeds, and `EnrollmentTimes` when.
- **Sessions** (`Sessions`, `SessionTelemetry`, `Privacy`, `Snapshots`, `RelayConnector`, `Registry`,
  `Receiver`, `ReceiverRuns`, `RelayReceivers`, `FrameSizes`, `HonestSession`, `InterleavedSession`,
  `JoinedSession`, `EnrolledSessions`). The receiver's concurrent connection handlers over one registry,
  the JSON-level handshake, the privacy filter as tree pruning, the device's side of the conversation, an
  honest session in every interleaving with other connections, both sides of it together, and sessions
  traced back to the enrollments behind them.
- **Telemetry on the device** (`WriteBehind`, `Telemetry`, `SnapshotQueue`). The write-behind status
  file with its timer, the fold of partial updates, and the drop-oldest queue.

Conventions. Time is in whole microseconds, and clocks do not go back within a run. Ed25519 is the set
of (key, payload) pairs that were signed; the hash that derives a device id is a function parameter
(`did`), and so are `str.upper` and `str.lower`, of which nothing is assumed. UUIDs, nonces and keys
are drawn fresh by the environment. A `World` or `History` value is a state together with what
happened to it; theorems about runs quantify over all sequences of events.

## Where the documentation and the code differ

- `docs/RELAY_ENROLLMENT_PROTOCOL.md:20` says a successful challenge id cannot complete enrollment
  twice. It can, once the first challenge has expired and a later challenge repeats its id
  (`ChallengeReuse.ChallengeIdCompletesTwice`, with concrete requests in
  `ChallengeReuse.SampleRequestsReuse`). What holds in every run: no challenge document is accepted
  twice, an id is accepted again under one identity only after the earlier challenge expired, and the
  store's check answers exactly that question (`EnrollmentRuns.NoChallengeReplayed`,
  `EnrollmentRuns.UsedCheckIsExact`, `EnrollmentTheorems.CompletionIsExact`).
- `README.md:97` says the status file is written at most once per second. A timer that is late, is
  overtaken by an update that writes at once, and then finds a newer update unsaved writes again
  (`WriteBehind.TwiceInTwoMicroseconds`). These are the only schedules that do so
  (`WriteBehind.SpacedIff`); there are none when due timers run before later updates
  (`WriteBehind.OncePerInterval`).
- A challenge says when it expires, but the peer's proof does not cover its times and the relay does
  not look at them again when a receipt arrives. Whoever carries a request can have it completed, and
  its receipt imported, after the relay's challenge has expired, as long as the pairing lasts
  (`EnrollmentTimes.EnrollmentCanBeLate`). With given carried times some run does so if and only if the
  relay's challenge expires before both the carried challenge and the pairing
  (`EnrollmentTimes.LateIff`), and a carrier can arrange it if and only if it expires before the pairing
  (`EnrollmentTimes.LateDeliveryIff`). `EnrollmentTimes.ImportedInTime` is what remains in every run.
- Merging a batch of updates first and applying it once is not the same as applying them one by one
  (`Telemetry.BatchesCanDiffer`); `Telemetry.BatchIffNothingResurrects` says exactly when it is.

## Model

| member | source | states |
|---|---|---|
| CanonicalJson.LoadsCanonical | src/printerhmi_agent/enrollment.py:85-91 | decoding canonical text gives back an equal document, for every document of null, bool, int, string, list and object |
| CanonicalJson.CanonicalIffSame | src/printerhmi_agent/relay_transport.py:45-51 | canonical texts coincide exactly for documents Python calls equal, so key order never shows and nothing else is lost |
| JsonText.CanonicalPrintable | src/printerhmi_agent/enrollment.py:85-91 | canonical text is printable ASCII: it contains neither NUL nor newline |
| Json.SameIffNormal | src/printerhmi_agent/enrollment.py:85-91 | sorting every object's keys is a normal form of Python's dict equality |
| Base64.DecodeEncode | src/printerhmi_agent/enrollment.py:53-68 | decoding undoes unpadded URL-safe encoding for all byte strings |
| Base64.EncodedKeyText | src/printerhmi_agent/relay_receiver.py:33 | the encoding of every 32-byte key has the spelling the receiver's key pattern accepts |
| Base64.EncodeInjective | src/printerhmi_agent/enrollment.py:53-54 | two keys or nonces never share a spelling |
| Messages.DomainsSeparate | src/printerhmi_agent/enrollment.py:35-37 | for any two of the four domains and any two documents, equal signed bytes mean equal domains and equal documents |
| Messages.PayloadInjective | src/printerhmi_agent/enrollment.py:189-205 | the bytes signed for a proof, receipt, challenge response or session authentication determine the message and its kind |
| Frames.ReadWritten | src/printerhmi_agent/relay_transport.py:433-458 | the next frame read is the document written first, whatever follows on the stream |
| Frames.StreamRoundTrip | src/printerhmi_agent/relay_transport.py:433-458 | any sequence of documents within the limit is read back in order, none lost, split or joined |
| Enrollment.CompletionIsAtomic | src/printerhmi_agent/enrollment.py:416-489 | a completion goes in one write from none of its three marks (peer, spent pairing, used challenge) to all of them and touches nothing else but expired uses |
| Enrollment.RefusalEnrollsNobody | src/printerhmi_agent/enrollment.py:371-454 | a refused completion adds no peer, pairing or use, and a replay, bad challenge or bad proof leaves the file alone |
| EnrollmentRuns.StepKeepsInv | src/printerhmi_agent/enrollment.py:257-535 | every operation keeps the budget, success and replay invariants |
| EnrollmentRuns.RunKeepsInv | src/printerhmi_agent/enrollment.py:233-535 | so does every run |
| EnrollmentRuns.NoChallengeReplayed | src/printerhmi_agent/enrollment.py:416-454 | in every run no challenge document completes twice, despite pruning and rotation; the same id completes again under one identity only after the earlier expiry |
| EnrollmentRuns.UsedCheckIsExact | src/printerhmi_agent/enrollment.py:614-621 | after pruning, an id counts as used exactly if the current identity completed with it a challenge that has not expired |
| EnrollmentRuns.FatesAreFinal | src/printerhmi_agent/enrollment.py:623-682 | one step never takes a pairing out of succeeded, exhausted, expired, burned or cleared |
| EnrollmentTheorems.RunFatesAreFinal | src/printerhmi_agent/enrollment.py:623-682 | nor does any run: a pairing that ended never succeeds later |
| EnrollmentTheorems.WrongCodeIsCharged | src/printerhmi_agent/enrollment.py:637-658 | every wrong or malformed code that reaches a live pairing, by either entry point, costs exactly one of five attempts and enrolls nobody |
| EnrollmentTheorems.SuccessIsExact | src/printerhmi_agent/enrollment.py:623-689 | an attempt enrolls its peer if and only if the pairing is live and unexpired, the code is right and the name is free |
| EnrollmentTheorems.CompletionIsExact | src/printerhmi_agent/enrollment.py:371-489 | a relay enrollment completes if and only if the request is well formed, the challenge valid and its id free, the proof signed, and the pairing accepts code and name |
| EnrollmentTheorems.PairingsAreConserved | src/printerhmi_agent/enrollment.py:605-682 | every pairing ever created is in exactly one of six classes; live ones are those on file, successes are as many as peer records written |
| EnrollmentTheorems.ActivePeerKept | src/printerhmi_agent/enrollment.py:500-535 | an active peer keeps its record and key through every run that neither revokes it nor rotates the identity |
| ChallengeReuse.ChallengeIdCompletesTwice | docs/RELAY_ENROLLMENT_PROTOCOL.md:20 | in every store a challenge id completes twice when a later challenge repeats it after expiry |
| ChallengeReuse.SampleRequestsReuse | docs/RELAY_ENROLLMENT_PROTOCOL.md:20 | a concrete run that does so: two peers with their own keys and nonces enroll ten seconds apart under one challenge id |
| ChallengeResponses.SignedResponseVerifiesIff | src/printerhmi_agent/enrollment.py:343-369 | a response a device signed verifies exactly as long as the challenge is valid |
| ChallengeResponses.VerifiedResponseWasSigned | src/printerhmi_agent/enrollment.py:760-806 | what verifies under a device's key is one of the responses that device signed |
| EnrollmentStores.LoadedState.PruneExpired | src/printerhmi_agent/enrollment.py:605-612 | the loop removes exactly the expired pairings |
| EnrollmentStores.LoadedState.PruneUsedChallenges | src/printerhmi_agent/enrollment.py:614-621 | the loop removes exactly the expired uses |
| EnrollmentStores.EnrollmentStore.CreatePairing | src/printerhmi_agent/enrollment.py:257-300 | the method refines the step `Enrollment.Create` that the run theorems are about, writing once or not at all |
| EnrollmentStores.EnrollmentStore.ConsumePairingLocked | src/printerhmi_agent/enrollment.py:623-689 | refusals are written back at once, a success only when asked |
| EnrollmentStores.EnrollmentStore.ConsumeOffer | src/printerhmi_agent/enrollment.py:302-341 | the method refines the step `Enrollment.ConsumePairing`, writing once unless the request is malformed |
| EnrollmentStores.EnrollmentStore.CompleteRelayEnrollment | src/printerhmi_agent/enrollment.py:371-489 | of all contents the file has from the start of the call on, the last before a success shows none of the enrollment's marks and the one after it all of them, and no content after a refusal shows any; so a crash at any point leaves all or nothing |
| EnrollmentStores.EnrollmentStore.Revoke | src/printerhmi_agent/enrollment.py:500-513 | the method refines the step `Enrollment.Revoke`: one write for an active peer, none otherwise |
| EnrollmentStores.EnrollmentStore.RotateIdentity | src/printerhmi_agent/enrollment.py:515-535 | a confirmed rotation leaves the new identity and an empty state, an unconfirmed one changes nothing |
| RelayConfig.LoadDevices | src/printerhmi_agent/relay_receiver.py:112-141 | the loader's loop builds the table of enrolled keys exactly for acceptable lists and refuses all others |
| RelayConfig.TableEntry | src/printerhmi_agent/relay_receiver.py:117-141 | the table holds every listed device's own key |
| RelayRuns.RelayStepKeepsInv | src/printerhmi_agent/relay_configuration.py:363-534 | every relay operation, cut short after any of its writes, keeps the allowlist and pending invariants |
| RelayRuns.AllowlistHolds | src/printerhmi_agent/relay_configuration.py:454-534 | from initialization on, at every disk state of every run, the configuration passes the receiver's loader, is strictly sorted, has key-derived ids, lists only imported devices and is enabled only with devices |
| RelayRuns.ImportIsCrashSafe | src/printerhmi_agent/relay_configuration.py:454-493 | after a crash anywhere in an import, importing again reaches the same files or is refused with them in place; the challenge is never spent without the device enrolled |
| RelayManager.RelayConfigurationManager.SaveConfig | src/printerhmi_agent/relay_configuration.py:620-639 | a configuration that would not load is not put in place |
| RelayManager.RelayConfigurationManager.CreateEnrollmentRequest | src/printerhmi_agent/relay_configuration.py:363-448 | the method refines the step `RelayConfig.CreateRequest`: a refused offer writes nothing, an accepted one records its challenge as pending |
| RelayManager.RelayConfigurationManager.AddReceipt | src/printerhmi_agent/relay_configuration.py:454-499 | the configuration is written before the pending challenge is spent, as the crash argument needs |
| RelayManager.RelayConfigurationManager.SetReceiver | src/printerhmi_agent/relay_configuration.py:505-513 | the method refines the step `RelayConfig.SetEnabled`: never enabled without devices or confirmation |
| RelayManager.RelayConfigurationManager.Remove | src/printerhmi_agent/relay_configuration.py:519-534 | the method refines the step `RelayConfig.RemoveDevice`: an enabled receiver keeps its last device |
| ProtocolRuns.NetStepKeepsInv | src/printerhmi_agent/relay_configuration.py:410-493 | every step of the composed protocol keeps its invariant, whoever signs or sends what |
| ProtocolRuns.ImportAgreement | src/printerhmi_agent/relay_configuration.py:454-493 | every imported receipt answers a request the relay issued and still had pending when it imported it, for exactly that device and key; and if the key is an honest store's, the store earned the receipt: it spent a live pairing, wrote the relay's key, and answered a request with the issued one's challenge id, relay id, nonce, pairing and device (the times may differ, see EnrollmentTimes) |
| ProtocolRuns.EarnedByOne | src/printerhmi_agent/enrollment.py:455-489 | no receipt is earned by two stores or two completions |
| ProtocolRuns.ImportsAreInjective | src/printerhmi_agent/relay_configuration.py:470-493 | uninterrupted imports correspond to distinct completions |
| ProtocolRuns.CompletionAgreement | src/printerhmi_agent/enrollment.py:413-489 | every single completion under the relay's key answers a request the relay issued for this device, with the same pairing, peer name, relay id and nonce |
| ProtocolRuns.CompletionsAreDistinct | src/printerhmi_agent/enrollment.py:416-454 | a store completes each of the relay's requests at most once |
| HonestEnrollment.EnrollmentSucceeds | docs/RELAY_ENROLLMENT_PROTOCOL.md:1-20 | from a pairing code to the allowlist: every document of an exchange is accepted, with the challenge's own times or others the device finds valid; the device ends with the relay's key as active peer and the relay with the device's key in a loadable allowlist |
| HonestEnrollment.UndisturbedEnrollment | docs/RELAY_ENROLLMENT_PROTOCOL.md:1-20 | the same with the request as the relay made it, answered while its challenge lasts |
| EnrollmentTimes.ImportedInTime | src/printerhmi_agent/relay_configuration.py:470-493 | in every run an imported enrollment happened before its pairing and the challenge the device saw expired; and before the relay's own challenge expired if it was carried with no later an expiry |
| EnrollmentTimes.LateIff | src/printerhmi_agent/enrollment.py:175-185 | for every exchange a device could complete, with the times its request is carried with: some run imports it completed at or after the expiry of the relay's own challenge if and only if that expiry comes before the carried expiry and before the pairing's |
| EnrollmentTimes.LateDeliveryIff | src/printerhmi_agent/enrollment.py:189-205 | whoever carries the request can make it so if and only if the relay's challenge expires before the pairing |
| EnrollmentTimes.CarriedRunImports | src/printerhmi_agent/enrollment.py:189-205 | the peer's proof does not cover the times: a request carried with any times valid on the device completes, and the relay imports the receipt |
| EnrollmentTimes.EnrollmentCanBeLate | src/printerhmi_agent/relay_configuration.py:470-493 | a concrete run of the protocol whose import answers a request that had expired five minutes before |
| HonestEnrollment.ShownCodeIsRead | src/printerhmi_agent/enrollment.py:130-138 | typing a code as it is shown, with its hyphen, gives the code |
| ProtocolRuns.InitialNet | src/printerhmi_agent/relay_configuration.py:189-357 | an initialized relay and new stores with distinct keys satisfy the invariant |
| Privacy.PruneIsExact | src/printerhmi_agent/relay_transport.py:419-430 | pruning keeps exactly the paths without a private key, with their pruned values |
| Privacy.FixedIffPublic | src/printerhmi_agent/relay_transport.py:419-430 | pruning changes nothing exactly when no private key occurs at any depth |
| Snapshots.FilteredPaths | src/printerhmi_agent/relay_transport.py:398-408 | a filtered instance holds exactly the clean paths under the five fields, and the constant error marker |
| Snapshots.FilterAll | src/printerhmi_agent/relay_transport.py:397-408 | the loop filters every instance or refuses the first that is not an object |
| Snapshots.SanitizeSnapshot | src/printerhmi_agent/relay_transport.py:391-416 | the method refines the filter that idempotence and path exactness are about |
| Snapshots.SanitizeIdempotent | src/printerhmi_agent/relay_transport.py:391-416 | filtering twice is filtering once, size check included |
| Snapshots.SanitizeRespectsSame | src/printerhmi_agent/relay_transport.py:391-416 | equal documents are filtered alike, so decoding cannot change the verdict |
| Sessions.SignedPartIsPayload | src/printerhmi_agent/relay_transport.py:379-385 | in whatever order its fields arrive, what is verified is the payload of the message a document claims to be |
| Sessions.AcceptedMeansSigned | src/printerhmi_agent/relay_transport.py:337-388 | an accepted authentication means the named key, which hashes to the audience, signed exactly this challenge |
| Sessions.OneChallengePerDocument | src/printerhmi_agent/relay_transport.py:357-358 | no document answers two challenges |
| Sessions.HonestAnswerAccepted | src/printerhmi_agent/relay_transport.py:309-388 | what a device signs after its own check crosses the stream and is accepted while the challenge lasts |
| SessionTelemetry.EnvelopeFits | src/printerhmi_agent/relay_transport.py:414-415 | a snapshot within half the limit fits into a frame with its envelope, whatever the key order |
| SessionTelemetry.HonestTelemetryAccepted | src/printerhmi_agent/relay_receiver.py:323-337 | every snapshot the device's filter lets through is sendable, crosses the stream and is published as an equal one |
| SessionTelemetry.PublishedIsPublic | src/printerhmi_agent/relay_receiver.py:334-337 | every value of a published instance lies on a clean path under one of the five fields or is the error marker |
| RelayConnector.SpellsIffSame | src/printerhmi_agent/relay_transport.py:262-306 | a document is read as a challenge exactly when it equals that challenge's dict |
| RelayConnector.SendSnapshot | src/printerhmi_agent/relay_transport.py:472-545 | the program's order of writes and reads refines the conversation that TelemetryIsGuarded is about |
| RelayConnector.TelemetryIsGuarded | src/printerhmi_agent/relay_transport.py:485-533 | telemetry leaves only filtered, as the third frame, under a valid and confirmed session; success means acknowledged |
| RelayConnector.TelemetryAlwaysFits | src/printerhmi_agent/relay_transport.py:453-456 | a device never refuses its own telemetry frame for its size |
| Registry.RelaySnapshotRegistry.SessionOpened | src/printerhmi_agent/relay_registry.py:38-42 | one more session, nothing else |
| Registry.RelaySnapshotRegistry.SessionClosed | src/printerhmi_agent/relay_registry.py:44-48 | one session less, never below zero |
| Registry.RelaySnapshotRegistry.PublishSnapshot | src/printerhmi_agent/relay_registry.py:50-67 | an enrolled device's record and the file are replaced together, another's call changes nothing |
| Registry.RelaySnapshotRegistry.WriteLocked | src/printerhmi_agent/relay_registry.py:103-114 | the file holds all records without the receipt epoch |
| Registry.RelaySnapshotRegistry.Document | src/printerhmi_agent/relay_registry.py:69-89 | the loop reports every enrolled device once, seen or not |
| ReceiverRuns.QueryGivesLastPublication | src/printerhmi_agent/relay_registry.py:91-101 | a query about a device is answered with its last publication, which is a filtered snapshot and what the file holds, and refused exactly if it never published |
| ReceiverRuns.StepKeepsInv | src/printerhmi_agent/relay_receiver.py:295-351 | every step of every interleaving of handlers keeps the receiver's invariant |
| ReceiverRuns.SessionAgreement | src/printerhmi_agent/relay_receiver.py:299-337 | every record published came through a session whose challenge went to this handler, in answer to a hello it received, and was signed by the enrolled key; the device named by hello, record, audience, signer and key hash is one; an honest device signed it knowingly |
| ReceiverRuns.SinglePublication | src/printerhmi_agent/relay_receiver.py:323-337 | each session publishes at most once and no two publications rest on one challenge or signature |
| ReceiverRuns.ReplayIsRefused | src/printerhmi_agent/relay_receiver.py:304-309 | an authentication accepted in one session is refused in every other |
| ReceiverRuns.SessionCounters | src/printerhmi_agent/relay_registry.py:38-48 | the count of a device is the number of its open sessions, closing never meets a zero, and all counts are zero when all handlers ended |
| ReceiverRuns.RecordsAreLatest | src/printerhmi_agent/relay_registry.py:50-67 | the record of a device is its last publication and the file holds the same after the first |
| ReceiverRuns.RecordsArePublic | src/printerhmi_agent/relay_receiver.py:334-337 | every record ever published is privacy filtered |
| RelayReceivers.RelayReceiver.OnHello | src/printerhmi_agent/relay_receiver.py:299-305 | the handler refines the hello step of the run theorems and writes the challenge it recorded, or nothing |
| RelayReceivers.RelayReceiver.OnAuthentication | src/printerhmi_agent/relay_receiver.py:306-322 | a session is opened, and confirmed to the device, exactly for a verified answer under the enrolled key |
| RelayReceivers.RelayReceiver.OnTelemetry | src/printerhmi_agent/relay_receiver.py:323-346 | a snapshot is published, and then acknowledged, exactly for a correct envelope with an already filtered snapshot |
| RelayReceivers.RelayReceiver.Close | src/printerhmi_agent/relay_receiver.py:347-351 | however a handler ends, an open session is closed once and failures are counted |
| HonestSession.HonestExchangeIsSound | src/printerhmi_agent/relay_receiver.py:299-346 | what an enrolled honest device with a clock inside the window sends passes each of the receiver's checks, and what would be published is its whole filtered snapshot |
| InterleavedSession.OthersLeave | src/printerhmi_agent/relay_receiver.py:295-351 | any run of other handlers' events, new connections and signatures leaves a handler where it is, with nothing written on its connection |
| InterleavedSession.SessionIsNotBlocked | src/printerhmi_agent/relay_receiver.py:295-346 | after any such run a session whose documents pass their checks can take its next step, and takes it without counting an error; only the hello needs a fresh session id |
| InterleavedSession.InterleavedSessionPublishes | src/printerhmi_agent/relay_receiver.py:295-346 | every run that holds the session's events in order, with any events of other handlers between them, ends with its publication, its record in the registry and exactly its three frames on its connection |
| InterleavedSession.HonestSessionPublishes | src/printerhmi_agent/relay_receiver.py:295-346 | an enrolled honest device gets its whole filtered snapshot published, from every state of the receiver and in every interleaving with other connections; the undisturbed run exists, publishes nothing else and counts no error |
| FrameSizes.AnswerFits | src/printerhmi_agent/relay_transport.py:453-456 | the authentication frame is within the limit for all identifiers and times the program can produce |
| JoinedSession.ConversationSucceeds | src/printerhmi_agent/relay_transport.py:472-533 | the device, reading an honest receiver's challenge, confirmation and acknowledgement off the stream, sends its three frames and reports success |
| JoinedSession.SessionSucceedsOnBothSides | src/printerhmi_agent/relay_transport.py:472-545 | both sides together: the device reads the three frames the handler writes, reports success, and its three frames are the documents of a session that every interleaving with other connections publishes |
| EnrolledSessions.PublicationTraced | src/printerhmi_agent/relay_receiver.py:112-141 | everything published by a receiver that loaded the relay's allowlist goes back to a receipt the relay imported for that device and key, in answer to a request it issued and had pending, and to a session that key signed |
| EnrolledSessions.HonestPublication | src/printerhmi_agent/relay_receiver.py:299-337 | and if the key is an honest store's, that store earned the receipt by a completion that spent a live pairing, and signed the session knowingly, as itself and in time |
| WriteBehind.NoUpdateIsLost | src/printerhmi_agent/service.py:33-69 | in every interleaving a clean store has its memory on file, and a dirty one has a pending timer or a flush in progress, which will write |
| WriteBehind.FileLag | src/printerhmi_agent/service.py:33-69 | with timers and flushes at most a given time late, the oldest unsaved update is at most the interval and that lateness old, twice the lateness while a flush has cancelled its timer |
| WriteBehind.WindowHoldsTwoWrites | src/printerhmi_agent/service.py:37-45 | without explicit flushes a window shorter than the interval holds at most two writes, an immediate and then a deferred one |
| WriteBehind.SpacedIff | src/printerhmi_agent/service.py:37-45 | a schedule without explicit flushes breaks the once per interval exactly if an update writes at once while a timer is pending, another update follows, and that timer fires within an interval of the first |
| WriteBehind.ReachesHasTrace | src/printerhmi_agent/service.py:33-69 | every run has the list of states that statement is about |
| WriteBehind.OncePerInterval | README.md:96-97 | once per interval when due timers run before later updates |
| WriteBehind.TwiceInTwoMicroseconds | README.md:96-97 | a concrete run with two writes two microseconds apart |
| WriteBehind.SnapshotStore.Update | src/printerhmi_agent/service.py:33-45 | the method refines the update step of the run theorems and keeps clean memory on file |
| WriteBehind.SnapshotStore.BeginFlush | src/printerhmi_agent/service.py:47-59 | the half of a flush before it waits; without a pending task it is the whole flush |
| WriteBehind.SnapshotStore.EndFlush | src/printerhmi_agent/service.py:57-59 | the half of a flush after it waited leaves memory on file |
| WriteBehind.SnapshotStore.FlushAfter | src/printerhmi_agent/service.py:61-69 | a timer that fires leaves memory on file and no pending task |
| Telemetry.FoldMeaning | src/printerhmi_agent/telemetry.py:51-56 | the folded status gives each object its last value if that is no dict, and otherwise each field's latest value since the last reset |
| Telemetry.MeaningUnique | src/printerhmi_agent/telemetry.py:51-56 | that description determines the status |
| Telemetry.BatchIffNothingResurrects | src/printerhmi_agent/telemetry.py:51-56 | merging a batch first agrees with one by one exactly when no field of the old status hides behind a reset inside the batch |
| Telemetry.ObjectBatches | src/printerhmi_agent/telemetry.py:51-56 | so it does when all updates report dicts |
| Telemetry.BatchesCanDiffer | src/printerhmi_agent/telemetry.py:51-56 | and a concrete batch where it does not |
| Telemetry.SnapshotMeaning | src/printerhmi_agent/monitor.py:86-100 | each snapshot yielded means exactly the updates up to its own |
| Telemetry.StatusTable.MergeStatus | src/printerhmi_agent/telemetry.py:51-56 | the loop merges an update into the dict in place, in any order of its names |
| Telemetry.Monitor.Request | src/printerhmi_agent/monitor.py:32-54 | the request's number is larger than all before it, so the answer, the first message with that number, answers no earlier request; everything before it is dropped |
| Telemetry.Monitor.Follow | src/printerhmi_agent/monitor.py:86-100 | one snapshot for the initial status and one per status update, other messages skipped |
| SnapshotQueue.RunsConserve | src/printerhmi_agent/relay_transport.py:185-203 | over any run, puts are handed out in order and once, dropped, or held; what is held is the latest puts, at most the capacity |
| SnapshotQueue.EveryPutIsAccounted | src/printerhmi_agent/relay_transport.py:193-197 | puts = gets + dropped + size |
| SnapshotQueue.BoundedSnapshotQueue.PutLatest | src/printerhmi_agent/relay_transport.py:193-197 | the loop drops from the front until there is room; the queue refines the log |
| SnapshotQueue.BoundedSnapshotQueue.Get | src/printerhmi_agent/relay_transport.py:199-200 | the oldest held put, or waiting |
| SnapshotQueue.MakeQueue | src/printerhmi_agent/relay_transport.py:186-191 | exactly capacities from 1 to 64 are accepted |

## Left out

- Python's `True == 1 == 1.0`: booleans and integers are kept apart, so a version field spelled `true` or `1.0` counts as wrong here.
- JSON floats, `NaN` and lone surrogates: numbers are integers and strings are Unicode scalar values.
- Frames of raw UTF-8: frame lengths count characters, which are bytes for everything the program writes.
- ISO timestamps: they are whole microseconds, and integers inside documents.
- Ed25519, SHA-256, PBKDF2: ideal signatures, a parameter for the hash, and a pairing digest that is the code itself.
- Base64 decoding is not claimed injective: it accepts more than one spelling of the same bytes.
- Lazy creation of the identity: a store is constructed with one. Crashes inside `rotate_identity` and `initialize` are not modelled, since several files change there without a promise of atomicity.
- The audit log, file modes, locks, `fsync`, temporary files, TLS, sockets and peer credentials: a replaced file is one atomic step, a held lock is mutual exclusion, a connection is a private channel.
- Python's limits on recursion depth and on digits of integers.
- Configuration fields that never change (paths, host, stale interval) other than the relay id, port, enabled flag and devices.
- Failing writes in `SnapshotStore` and in the registry; flush tasks do not fire before they are due.
- `normalized_status`, `subscription_for`, `captured_at` and `eventtime`: a projection of the folded status and values passed through.
- `generated_at` is passed through the privacy filter unfiltered and is outside the privacy claim.
- `retry_delays`, `send_with_retries` and the relay worker: counters and clamps.
- `cli.py`, `api.py`, `diagnostics.py`, `discovery.py`, `catalog.py`, `identity.py`, `moonraker.py`, the simulator and the integration harness.
- JoinedSession.SessionSucceedsOnBothSides: times are those `datetime` can represent, up to the year 9999; the device's later retries after a refused session are not modelled.
- ReceiverRuns.SessionAgreement: the peer may send anything, but a connection delivers what its own peer sent, since TLS is not modelled.
- WriteBehind.OncePerInterval: says nothing about explicit flushes, which write whenever there is something unsaved.
