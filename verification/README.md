# A verified model of GOATRouter's kernels

GOATRouter is a local router between chat clients and language-model providers. Most of it is
plumbing. The parts modelled here are the ones whose correctness is a property of whole runs, of
whole byte streams, or of every spelling of a value:

- **Root-key rotation** (`Envelope`, `KeyRotation`, `SecretStorage`): a commit across two stores, a key
  file and a table of wrapped secrets, as a step machine over files, rows and the key in memory, with a
  crash allowed between any two effects; and, beside it, the store as objects whose methods are runs of
  that machine.
- **Export and import** (`Portable`): moving secrets between stores with different root keys.
- **The outbound semaphore** (`Semaphore`): bounded queue, tombstones, idempotent releases, and the
  captured index of the abort listener exactly as it is.
- **Routing** (`Sorting`, `Selection`, `CircuitBreaker`, `Failover`): candidate order, breaker and the
  failover loop of buffered and streamed chats.
- **Streaming** (`Utf8`, `Sse`, `ChunkQueue`): the incremental event parser against one pass over the
  text, its encoder, and the push-to-pull queue.
- **Proxy handshakes** (`Text`, `Numerals`, `Endpoint`, `TargetEncoding`, `Handshake`, `Socks5`,
  `HttpConnect`): exact byte consumption under any segmentation, and target encoding (RFC 1928,
  RFC 1929, section 9.3.6 of RFC 9110).
- **Loose IPv4 spellings** (`Bits`, `LooseIpv4`, `SelfPivot`): shift-and-mask arithmetic against positional
  value, and the second copy that guards against tunnelling into oneself.
- **Tool calls** (`ToolCalls`, `Dispatch`, `ToolLoop`): validation, dispatch and conversation threading.
- **Migrations** (`Migrations`): the runner stopped at any statement, the ledger checks and the chain.

Each component has a specification in functions, a class or method in the source's own imperative shape
proved against it, and theorems about the specification. `Prelude`, `Text`, `Numerals` and `Bits` hold
what several components share.

## What the proofs found

Where a promise does not hold, the code is modelled as it is, a lemma gives the failing run, and the
exact condition is proved.

- **Semaphore.** The abort listener removes its waiter exactly when no shift of the queue separated
  enqueueing from abort; otherwise it can vacate another waiter's slot, which starves that waiter, and
  hand a permit to the departed one (`AbortRemovesItsOwnWaiterExactly`, `LateAbortLosesAPermitAndAWaiter`).
- **Rotation.** What is allowed is exactly what keeps the store consistent (`NextKeeps`), and three things
  are not: a rotation begun while the live file does not hold the running key, as after a promotion that
  failed; a logger that throws after the commit, when the removal of the staged key takes effect while the
  live file holds another; and a first key file cut short (`BeginIsSafeExactlyWhenPromoted`,
  `ThrowingLoggerLosesTheKey`, `TornFirstFileNeverOpens`).
- **Secrets.** Sealing and opening returns a string unchanged exactly when it has no unpaired surrogate
  (`OpenAfterSeal`).
- **Migration chain.** The chain digests the statements of a migration joined by semicolons, so it tells two
  builds apart exactly when those texts differ: a semicolon inside a statement hides where it ends
  (`ChainsAgree`, `JoiningHidesBoundaries`), and statements without semicolons are told apart
  (`JoinedTellsApart`). A chain recorded by one build is never extended: once a build with a further
  migration has migrated the database, every open is refused (`UpgradeAfterRecordingIsRefused`). A
  recorded version of zero is accepted with any ledger (`VerifyAcceptsExactlyComplete`).
- **Breaker.** A half-open probe leaves its circuit half-open, and its provider locked out until something
  reports on it, exactly when it ends in a way nobody tells the breaker of: a code that is not a failover
  code or, of a stream, an abort, a break after the first chunk or a consumer that leaves
  (`SilentProbeLocksOut`).
- **Streams.** A stream its consumer abandons after the first chunk emits no terminal event
  (`OneTerminalEventAndLast`). What the event parser reads does not depend on segmentation, but whether
  it accepts a long line does (`LineCapSeesSegmentation`).
- **SOCKS5 targets.** A dotted quad inside brackets is read as one word wherever it stands, the digits of
  its first octet in base 16 (`EveryGroupIsOneWord`). At the end of a shortened address, as in
  `[::ffff:192.0.2.1]`, what goes out is what the text means exactly when every group behind the shortening
  and every octet is zero (`DottedQuadIsOneWord`, `DottedQuadIsMisread`, `QuadIsSent`). Written in full, the
  six groups that belong in front of a quad are refused and seven are sent (`QuadInFull`,
  `QuadInFullIsRefused`). An IPv4 host with zeros in front is accepted but sent as a name
  (`LeadingZerosGoOutAsName`), and `::` may stand for no group at all (`TextIsEncoded`, whose texts leave at
  most eight groups, where section 2.2 of RFC 4291 leaves at most seven).
- **Self pivots.** Two hosts share a key exactly when they stand for one thing, except that the text the key
  of this machine is stored under is a host name too, and counts as this machine (`KeysAreIdentities`).

## Assumptions

Ciphers are ideal: a box opens under its own key and associated data only, and a fingerprint determines
its key; in `Portable`, where boxes are bytes, that is asked of the box at hand (`Binds`). The digest of the
migration chain stands for everything folded into it. Renames, commits and
row writes are atomic and durable; the process may die between any two effects, the machine does not
lose power. One process uses a data directory. JSON functions are parameters, with the laws used stated
as predicates (`Ideal`, `Lawful`, `PrintedObject`). Strings outside `Envelope` and `Portable` are sequences
of Unicode scalar values, and lower case is that of ASCII.

## Model

| member | source | states |
|---|---|---|
| Semaphore.EveryRunIsSafe | packages/router/src/concurrency.ts:72-163 | in every reachable state `live` counts the occupied queue slots, `inFlight` counts the permits not yet returned, both are within their limits, grants and queue keep arrival order, captured indexes lag by the shifts since, and nobody waits while a permit is free |
| Semaphore.PumpKeeps | packages/router/src/concurrency.ts:102-119 | pumping restores work conservation, keeps the counters and the order, and neither drops nor reorders anyone |
| Semaphore.DoubleReleaseIsIdle | packages/router/src/concurrency.ts:90-100 | returning a permit twice is returning it once |
| Semaphore.ReturnedPermitsLeaveItIdle | packages/router/src/concurrency.ts:86-119 | once every granted permit was returned, nothing is in flight and nobody waits |
| Semaphore.AbortRemovesItsOwnWaiterExactly | packages/router/src/concurrency.ts:140-148 | an abort removes exactly its own waiter if and only if the queue has not shifted since the waiter was enqueued |
| Semaphore.TimelyRunRefinesIdeal | packages/router/src/concurrency.ts:102-157 | a run without late aborts is an ideal FIFO of waiter identities: same grants, same refusals, same queue |
| Semaphore.LateAbortLosesAPermitAndAWaiter | packages/router/src/concurrency.ts:141-148 | a run in which a late abort hands a permit to a departed caller and leaves a waiter unserved for good |
| Semaphore.Limiter.DrainQueue | packages/router/src/concurrency.ts:102-119 | the pump loop computes `Pump` and keeps the invariant; its termination rests on the count of live slots |
| Semaphore.Limiter.AcquirePermit | packages/router/src/concurrency.ts:126-158 | acquiring is the specified step and keeps the invariant |
| Semaphore.Limiter.ReleasePermit | packages/router/src/concurrency.ts:92-99 | releasing is the specified step and keeps the invariant |
| Semaphore.Limiter.OnAbort | packages/router/src/concurrency.ts:142-148 | the abort listener, with its captured index, is the specified step and keeps the counters |
| Semaphore.CreateSemaphore | packages/router/src/concurrency.ts:72-84 | bounds outside their ranges are refused, never clamped |
| CircuitBreaker.RunIsDeclared | packages/router/src/circuit.ts:80-162 | after any events the circuit of a provider is determined by that provider's own events alone: its streak since the last success, the time of its last failure, and whether it was probed since |
| CircuitBreaker.ProbeHoldsTheDoor | packages/router/src/circuit.ts:89-106 | after a probe is admitted nobody else is until something reports on the provider |
| CircuitBreaker.AdmissionsAreSpaced | packages/router/src/circuit.ts:96-150 | with a clock that does not go back, two admissions without a success between them on a circuit that is not closed are at least a cooldown apart, late failures included |
| CircuitBreaker.AdmittedExactly | packages/router/src/circuit.ts:80-108 | a question is answered with yes if and only if fewer failures than are tolerated followed the last success, or it is the first one a full cooldown after the last failure |
| CircuitBreaker.UnreportedProbeLocksOut | packages/router/src/circuit.ts:89-95 | only a report leaves the half-open state |
| CircuitBreaker.Breaker.Allow | packages/router/src/circuit.ts:80-108 | the question is answered as specified and consumes the probe |
| CircuitBreaker.Breaker.OnSuccess | packages/router/src/circuit.ts:111-124 | a success closes the circuit and touches no other provider |
| CircuitBreaker.Breaker.OnTransientFailure | packages/router/src/circuit.ts:133-162 | a failure counts, opens or restarts the cooldown as specified and touches no other provider |
| Sorting.SortRanks | packages/router/src/selection.ts:27-37 | sorting by a consistent comparator without ties yields the ranking |
| Sorting.SortIsCanonical | packages/router/src/selection.ts:27-37 | permuted inputs sort to the same sequence |
| Selection.CompareIsStrictTotal | packages/router/src/selection.ts:27-37 | the comparator is a strict total order on routes with distinct ids |
| Selection.EqualSpecificityIsOnePattern | packages/router/src/model.ts:61-81 | two patterns that match one model with equal specificity are the same pattern |
| Selection.CandidatesAreRanked | packages/router/src/selection.ts:18-38 | exactly the enabled matching routes, each once, exact patterns before wildcards, longer prefixes before shorter, priority and id deciding only within one pattern |
| Selection.OrderIsCanonical | packages/router/src/selection.ts:9-13 | the order is the same for every permutation of the registry |
| Selection.SelectedIsBest | packages/router/src/selection.ts:47-56 | the selected route precedes every other enabled matching one, and `no_route` means there is none |
| Selection.ModelIdsAre | packages/router/src/model.ts:9-23 | exactly which strings are model ids |
| Selection.StarMatchesAnything | packages/router/src/model.ts:55-60 | a pattern with a star matches what begins with its prefix, and one without only itself |
| Failover.EveryRouteIsCounted | packages/router/src/router.ts:427-470 | attempts and skips together count every route passed |
| Failover.FirstUsableWins | packages/router/src/router.ts:431-536 | the winner is the first route neither skipped nor failing over |
| Failover.AllFailedMeansAllSkipped | packages/router/src/router.ts:586-608 | `all_routes_failed` is thrown exactly when every eligible route was skipped |
| Failover.OneTerminalEventAndLast | packages/router/src/router.ts:499-607 | `provider.attempted` and `provider.failed` events number the attempts, and there is exactly one terminal event and it is last, unless the consumer abandoned a stream |
| Failover.FreeOnlyNeverSpends | packages/router/src/router.ts:432-454 | every attempt or failure a request logs is of an eligible route whose provider is enabled and which is free at its moment or need not be, however the catalogue changes |
| Failover.SilentProbeLocksOut | packages/router/src/router.ts:562-582 | a probe leaves its circuit half-open if and only if its outcome is one that is not reported |
| Failover.VerdictIs | packages/router/src/router.ts:432-583 | a route is attempted if and only if it may be used and its provider is admitted; the attempt wins, fails over, or ends the request as its outcome says |
| Failover.RequestEnds | packages/router/src/router.ts:427-608 | how a request ends, by what it meets: at the first route that is not passed over, or with the last failure, or because no route was attempted |
| Failover.RequestIsWon | packages/router/src/router.ts:431-536 | a route wins if and only if it may be used, is admitted and answers, and every route in front of it had no live provider, was not admitted, or failed transiently |
| Failover.BreakerHears | packages/router/src/router.ts:462-568 | the breaker hears a question of a usable route, a success of an answered attempt and a failure of one that fails over, and nothing else of an attempt |
| Failover.AttemptIsOfAttempted | packages/router/src/router.ts:499-556 | every attempt event is of a route that was attempted, and one of a failure carries its code |
| Failover.LogIsNumbered | packages/router/src/router.ts:474-607 | every event carries its attempt number and mode, and a takeover is announced exactly in front of an attempt that succeeds another |
| Failover.TelemetryTellsTheEnd | packages/router/src/router.ts:508-607 | the last event says who won after how many attempts, or why the request failed |
| Failover.FilterFree | packages/router/src/selection.ts:83-90 | exactly the candidates that are free now or need not be |
| Failover.FilterKeepsRanking | packages/router/src/selection.ts:83-90 | filtering keeps the order of preference |
| Failover.TryRoute | packages/router/src/router.ts:432-583 | one candidate: its verdict, and what the breaker is told of it |
| Failover.TryRoutes | packages/router/src/router.ts:427-608 | the loop ends, logs and leaves the circuits as the verdicts determine |
| Failover.Finish | packages/router/src/router.ts:485-535 | the events of a decided request |
| Failover.Chat | packages/router/src/router.ts:394-608 | a request is refused before any lookup, with the circuits untouched, or runs the loop over its eligible candidates; streaming differs as lines 635-874 do |
| Envelope.StoredExactly | packages/storage/src/crypto.ts:164-218 | a string survives its bytes unchanged exactly when every surrogate is paired |
| Envelope.AadIsInjective | packages/storage/src/crypto.ts:58-60 | associated data determine the name |
| Envelope.OpenAfterSeal | packages/storage/src/crypto.ts:146-225 | a sealed secret, the empty one included, opens under its key and name and no others, to the text exactly when that is well formed |
| Envelope.OpensExactly | packages/storage/src/crypto.ts:119-260 | exactly which envelopes open, and which can be rewrapped |
| Envelope.NamesNeverCross | packages/storage/src/crypto.ts:51-60 | an envelope sealed for one well-formed name opens under no other |
| Envelope.RewrapKeepsMeaning | packages/storage/src/crypto.ts:234-260 | rewrapping leaves the ciphertext alone, opens under the new key to the same text, under no other key, and can be undone |
| KeyRotation.EveryRunIsConsistent | packages/storage/src/secret-repository.ts:231-497 | after every allowed run of opens, puts, deletes, rotations and crashes, every row is wrapped under the recorded key and that key is in one of the two files |
| KeyRotation.ReopenReadsAll | packages/storage/src/secret-repository.ts:231-274 | from any such state the next open succeeds and reads exactly what was last written |
| KeyRotation.ReopenRecoversEverything | packages/storage/src/secret-repository.ts:231-274 | wherever a run from the empty directory is interrupted, reopening succeeds and every name reads the text the steps last put under it, and no other name reads anything |
| KeyRotation.WrittenIsLastText | packages/storage/src/secret-repository.ts:368-462 | the history a state carries is what the steps of the run put last and did not delete since |
| KeyRotation.DecideRefuses | packages/storage/src/secret-repository.ts:255-270 | a key the database does not name is refused, and only a staged file is removed |
| KeyRotation.DecideKeeps | packages/storage/src/secret-repository.ts:234-274 | promoting or discarding by fingerprint keeps the store consistent and never removes the needed key |
| KeyRotation.NextKeeps | packages/storage/src/secret-repository.ts:231-497 | a step keeps the store consistent if and only if it is none of the three excluded ones |
| KeyRotation.BeginIsSafeExactlyWhenPromoted | packages/storage/src/key-provider.ts:213-224 | beginning a rotation is safe if and only if the live file holds the running key |
| KeyRotation.ThrowingLoggerLosesTheKey | packages/storage/src/secret-repository.ts:322-341 | a logger that throws after the commit loses the new key, and every secret, if and only if the removal takes effect while the live file holds another key |
| KeyRotation.TornFirstFileNeverOpens | packages/storage/src/key-provider.ts:178-204 | a key file can be cut short exactly when there was none, and that is fatal to every later open |
| KeyRotation.ExclusionsAreNeeded | packages/storage/src/secret-repository.ts:482-495 | whole runs that break one exclusion each and lose the key |
| KeyRotation.LostStaysLost | packages/storage/src/secret-repository.ts:237-270 | no later open recovers from such a loss |
| SecretStorage.KeyFiles.Load | packages/storage/src/key-provider.ts:178-204 | the live key, minted when the file is missing, refused when its length is wrong |
| SecretStorage.KeyFiles.PromoteStaged | packages/storage/src/key-provider.ts:253-263 | the rename moves the staged key over the live one or changes nothing |
| SecretStorage.Store.WriteSecret | packages/storage/src/secret-repository.ts:368-425 | a write makes its text the last one under its name, whether or not there was one, or changes nothing |
| SecretStorage.Store.ReadSecret | packages/storage/src/secret-repository.ts:427-439 | whatever the rows are, a read is not found exactly when there is no row and corrupt exactly when the row does not open; in a consistent store it returns the text last written |
| SecretStorage.Store.DeleteSecret | packages/storage/src/secret-repository.ts:459-462 | a delete removes exactly its name and says whether there was one |
| SecretStorage.Store.RewrapAll | packages/storage/src/secret-repository.ts:294-343 | either the key, the recorded fingerprint and every row change, or nothing does; it succeeds exactly when every row can be rewrapped and stored and the transaction commits; behind a staging it is a run of the protocol |
| SecretStorage.Store.RotateRootKey | packages/storage/src/secret-repository.ts:464-469 | onto a key of the caller: every secret opens under it or nothing changed, and the store stays recoverable from its files exactly when the key is in them |
| SecretStorage.Store.RotateManagedRootKey | packages/storage/src/secret-repository.ts:471-497 | the call is a run of the protocol and succeeds exactly when nothing fails in it, and then the new key is live; the store stays consistent exactly when the live file held the running key or the new key was committed |
| SecretStorage.DecideKey | packages/storage/src/secret-repository.ts:231-274 | the loaded key is accepted, the staged one recovered, or the open refused, by fingerprint |
| SecretStorage.OpenStore | packages/storage/src/secret-repository.ts:231-276 | opening promotes the staged key exactly when the database names it and not the live one |
| Portable.PayloadReadsBack | packages/storage/src/portable.ts:133-161 | the payload parser reads every exported payload back |
| Portable.PayloadIs | packages/storage/src/portable.ts:133-161 | whatever is read as a payload says version 1 and has the names and texts of its entries, none nameless |
| Portable.BlobOpens | packages/storage/src/portable.ts:171-224 | a blob opens to its entries under the passphrases that derive its key and under no other, and not at all beyond 8 MiB |
| Portable.EditedBlobFails | packages/storage/src/portable.ts:180-224 | with its header, salt or vector edited it is refused, at the test that sees the edit; the magic test drops high bits, and the cipher sees them |
| Portable.ExportImportRoundTrip | packages/storage/src/portable.ts:93-131 | an export imported under any root key adds exactly the source's names with the texts they read as, and leaves every other row untouched |
| Portable.ConflictIsOverlap | packages/storage/src/portable.ts:226-235 | an import without replacement is refused exactly when a name is taken |
| Portable.ConflictIsFirst | packages/storage/src/portable.ts:230-234 | the first taken name decides: taken if its row opens, corrupt if not |
| Portable.Vault.FindConflict | packages/storage/src/portable.ts:230-234 | the first conflict is found before anything is written |
| Portable.Vault.ImportSecrets | packages/storage/src/portable.ts:171-243 | every refusal leaves the table as it was; a failing write leaves exactly the entries in front of it |
| Portable.Vault.ExportSecrets | packages/storage/src/portable.ts:93-131 | every row of the listing is exported, or the export fails |
| Portable.CollectFailsExactly | packages/storage/src/portable.ts:98-106 | an export collects every row if and only if every row opens |
| Portable.BlankExactly | packages/storage/src/portable.ts:61-66 | a passphrase is refused as blank if and only if it is white space throughout |
| Utf8.DecodeConcat | packages/router/src/sse.ts:88-90 | streaming decoding respects concatenation wherever a character is cut |
| Utf8.DecodeEncoded | packages/router/src/sse.ts:63-90 | decoding what was encoded gives the text back |
| Sse.SegmentationDoesNotMatter | packages/router/src/sse.ts:73-113 | payloads, malformed count, termination and unfinished line are those of one pass over the whole text; a segmentation is accepted exactly when nothing follows the end marker and the caps hold at every chunk boundary |
| Sse.PushRepresents | packages/router/src/sse.ts:73-113 | one more chunk is accepted exactly when it fits |
| Sse.AcceptedMeansComplete | packages/router/src/sse.ts:121-131 | a stream finishes normally exactly when the text has the end marker, and then every well-formed payload in front of it was delivered |
| Sse.ClassifyData | packages/router/src/sse.ts:133-166 | whatever white space surrounds it and however the line ends, what stands behind `data:` is a payload, the end marker or malformed; nothing but white space is ignored |
| Sse.OtherLinesAreIgnored | packages/router/src/sse.ts:135-142 | every line that does not start with `data:` is ignored |
| Sse.EveryLine | packages/router/src/sse.ts:133-166 | every line is one or the other |
| Sse.FinishTells | packages/router/src/sse.ts:121-131 | finishing succeeds exactly when the end marker was seen, and otherwise tells a stream cut short from one malformed line too many |
| Sse.EventIsOneFrame | packages/router/src/sse.ts:22-38 | exactly what has no line break of its own is encoded, as one data line and a blank one |
| Sse.EncodedStreamReadsBack | packages/router/src/sse.ts:22-42 | encoded events, cut anywhere and within the caps, are accepted and read back exactly, none malformed |
| Sse.LineCapSeesSegmentation | packages/router/src/sse.ts:109-111 | one text that is accepted in one segmentation and refused in another |
| Sse.SseLineReader.ConsumeLine | packages/router/src/sse.ts:133-166 | one line changes the state and yields as classified |
| Sse.SseLineReader.ConsumeLines | packages/router/src/sse.ts:92-107 | the loop drains exactly the complete lines up to the end marker |
| Sse.SseLineReader.PushChunk | packages/router/src/sse.ts:73-113 | a push is the specified step |
| Sse.SseLineReader.Finished | packages/router/src/sse.ts:121-131 | finishing flushes the decoder and the trailing line and refuses a stream without its end marker |
| ChunkQueue.NoLostWakeup | packages/router/src/transport.ts:292-324 | a suspended consumer has no chunk, no error and no end to be told |
| ChunkQueue.ChunksAreConserved | packages/router/src/transport.ts:279-307 | delivered chunks followed by queued ones are the pushed ones, in order, in every run |
| ChunkQueue.ClosingIsRemembered | packages/router/src/transport.ts:284-295 | the first of failure and end decides |
| ChunkQueue.OrderlyStreamsArriveWhole | packages/router/src/transport.ts:302-324 | when no push follows the first failure or end, the consumer gets every chunk, then one error or the end |
| ChunkQueue.PollPaysWhatIsOwed | packages/router/src/transport.ts:302-324 | the next poll yields the next thing owed and suspends exactly when nothing is |
| ChunkQueue.ChunkQueue.Push | packages/router/src/transport.ts:279-282 | pushing appends and wakes |
| ChunkQueue.ChunkQueue.Fail | packages/router/src/transport.ts:284-289 | only a first failure before the end counts |
| ChunkQueue.ChunkQueue.End | packages/router/src/transport.ts:291-294 | ending wakes |
| ChunkQueue.ChunkQueue.Next | packages/router/src/transport.ts:302-324 | one call of the consumer, up to its result or its suspension |
| Handshake.StreamIs | packages/proxy/src/handshake-reader.ts:23-84 | the bytes of a stream are those of its chunks, and silence is a timeout where a closed or failed socket is an error of the protocol |
| Handshake.HandshakeReader.Deliver | packages/proxy/src/handshake-reader.ts:23-48 | an event changes nothing about the bytes still to be read |
| Handshake.HandshakeReader.ReadExactly | packages/proxy/src/handshake-reader.ts:51-84 | exactly the next bytes, in any segmentation, or, when fewer arrive, the error of the way the stream stops |
| Handshake.HandshakeReader.Release | packages/proxy/src/handshake-reader.ts:87-97 | buffered bytes go back in front of the stream |
| Socks5.SuccessIsAccepted | packages/proxy/src/socks5.ts:145-211 | a proxy's successful dialogue is accepted whatever follows it, and exactly its bytes are used |
| Socks5.AcceptedIsSuccess | packages/proxy/src/socks5.ts:145-211 | nothing else is accepted |
| Socks5.VerdictIsFinal | packages/proxy/src/socks5.ts:145-211 | further bytes change no verdict |
| Socks5.RefusalIsTold | packages/proxy/src/socks5.ts:32-53 | every refusal of a proxy, by section 6 of RFC 1928 and section 2 of RFC 1929, is reported as what it is, and exactly its bytes are used |
| Socks5.RejectedIsRefusal | packages/proxy/src/socks5.ts:145-211 | what is rejected otherwise than as a breach of the protocol is such a refusal |
| Socks5.CutDialogueStarves | packages/proxy/src/socks5.ts:145-211 | a dialogue cut short anywhere gives no verdict yet |
| Socks5.PreflightPasses | packages/proxy/src/socks5.ts:119-140 | exactly which targets and credentials are refused before a byte is written |
| Socks5.LoginNamesTheCaller | packages/proxy/src/socks5.ts:147-175 | the greeting offers user name and password exactly with credentials, and a proxy reads the caller's own ones, by section 2 of RFC 1929 |
| Socks5.SpokenInTurn | packages/proxy/src/socks5.ts:146-190 | the login goes out only behind a reply that asks for it, the request only once the proxy is content |
| Socks5.RequestNamesTheTarget | packages/proxy/src/socks5.ts:184-187 | the request, read by section 4 of RFC 1928, names the caller's destination |
| Socks5.TakeReply | packages/proxy/src/socks5.ts:189-210 | the reply is read as specified, the bound address consumed exactly |
| Socks5.Authenticate | packages/proxy/src/socks5.ts:163-182 | credentials go out and the status of section 2 of RFC 1929 decides |
| Socks5.Dialogue | packages/proxy/src/socks5.ts:146-210 | what is written and what is left unread when the dialogue stops at its verdict |
| Socks5.Socks5Connect | packages/proxy/src/socks5.ts:119-220 | bad targets and credentials are refused before a byte goes out; otherwise the result depends on the bytes and their end alone, and the socket is left at the first unused byte |
| HttpConnect.SuccessUsesTheBlock | packages/proxy/src/http-connect.ts:74-95 | success uses the shortest prefix ending in an empty line, at most 16385 bytes, whose status line is a 2xx |
| HttpConnect.PayloadIsNotRead | packages/proxy/src/http-connect.ts:72-84 | payload coalesced with the response changes nothing and stays unread |
| HttpConnect.RequestIsItsLines | packages/proxy/src/http-connect.ts:46-70 | split at its line breaks the request is the two or three lines that were meant, all printable, and the empty line; the credentials read back from the third |
| HttpConnect.Base64ReadsBack | packages/proxy/src/http-connect.ts:63-64 | encoded credentials decode to themselves, by section 4 of RFC 4648 |
| HttpConnect.PreflightPasses | packages/proxy/src/http-connect.ts:49-65 | exactly which targets and credentials are refused before a byte is written |
| HttpConnect.StatusReads | packages/proxy/src/http-connect.ts:86-90 | every status line of HTTP/1.0 and 1.1, with a reason or without, gives its status |
| HttpConnect.OnlyStatusLines | packages/proxy/src/http-connect.ts:86-90 | and no other line does |
| HttpConnect.StatusIsJudged | packages/proxy/src/http-connect.ts:23-37 | a block comes to what its status means |
| HttpConnect.ReadBlock | packages/proxy/src/http-connect.ts:74-84 | the byte-wise loop stops exactly at the empty line, the cap or the end of the stream |
| HttpConnect.HttpConnect | packages/proxy/src/http-connect.ts:46-105 | the tunnel is established, refused or starved as the bytes determine, and the socket is left at the first unused byte |
| Endpoint.AcceptedHostIsPlain | packages/proxy/src/endpoint.ts:87-110 | an accepted host has at most 253 characters, all letters, digits, hyphens, dots, colons or brackets |
| Endpoint.AcceptedHostIsCanonical | packages/proxy/src/endpoint.ts:87-110 | the form that goes on is canonical: validated a second time it comes back unchanged, and a name or dotted quad is in lower case |
| TargetEncoding.TargetRoundTrip | packages/proxy/src/socks5.ts:79-107 | whatever is encoded is decoded to the same destination and port, the rest untouched |
| TargetEncoding.TextIsEncoded | packages/proxy/src/socks5.ts:55-76 | every hex-only IPv6 text, full or shortened, is encoded as its eight words |
| TargetEncoding.EncodedIsText | packages/proxy/src/socks5.ts:55-76 | and only such texts are |
| TargetEncoding.BracketedIsHexOnly | packages/proxy/src/endpoint.ts:60-76 | an accepted bracketed host without a dot has hexadecimal groups only |
| TargetEncoding.WordsFit | packages/proxy/src/socks5.ts:70-74 | every word fits sixteen bits |
| TargetEncoding.SentAsQuad | packages/proxy/src/socks5.ts:85-91 | a host is sent as IPv4 exactly when it is the canonical dotted quad of the octets sent |
| TargetEncoding.DomainFits | packages/proxy/src/socks5.ts:96-101 | the guard on the domain length never fires |
| TargetEncoding.RefusedExactlyWhen | packages/proxy/src/socks5.ts:79-107 | the only ways to refuse a target |
| TargetEncoding.EveryGroupIsOneWord | packages/proxy/src/socks5.ts:55-72 | any hex groups and dotted quads, in full or around `::`: each is one word, read in base 16 up to its first dot, and eight words are needed |
| TargetEncoding.DottedQuadIsOneWord | packages/proxy/src/socks5.ts:58-68 | a dotted quad at the end of any shortened address goes out as one word |
| TargetEncoding.DottedQuadIsMisread | packages/proxy/src/socks5.ts:58-68 | that is what the text means if and only if every group behind the shortening and every octet is zero |
| TargetEncoding.QuadIsSent | packages/proxy/src/socks5.ts:79-94 | every such text that is not too long is accepted as a target and goes out like that |
| TargetEncoding.QuadInFull | packages/proxy/src/socks5.ts:62-72 | in full, a quad needs seven groups in front of it, where six are meant |
| TargetEncoding.QuadInFullIsRefused | packages/proxy/src/socks5.ts:79-94 | so a target written in full with six groups and a quad is refused, and seven groups and a quad are sent |
| TargetEncoding.LeadingZerosGoOutAsName | packages/proxy/src/endpoint.ts:45-58 | an accepted quad goes out as IPv4 exactly when no octet has a zero in front, and as a name otherwise |
| TargetEncoding.FillWords | packages/proxy/src/socks5.ts:73-75 | the buffer holds the words, high bytes first |
| Bits.OrDisjoint | packages/providers/src/egress.ts:102-103 | or-ing a small number under a shifted one adds them |
| Bits.AndHigh | packages/providers/src/egress.ts:120-121 | masking with high ones drops the low bits |
| LooseIpv4.Ipv4FromIsBigEndian | packages/providers/src/egress.ts:45-52 | shifts and masks take a 32-bit value apart into the octets that make it up |
| LooseIpv4.HexPartReads | packages/providers/src/egress.ts:74-87 | digits behind `0x` are read in base 16, as the sum of their places, up to the greatest safe integer |
| LooseIpv4.OctalPartReads | packages/providers/src/egress.ts:74-87 | digits behind a zero in base 8 |
| LooseIpv4.DecimalPartReads | packages/providers/src/egress.ts:74-87 | and digits alone in base 10 |
| LooseIpv4.OnlyPartsRead | packages/providers/src/egress.ts:74-87 | no other part is a number |
| LooseIpv4.InBoundsExactly | packages/providers/src/egress.ts:90-99 | the bounds hold exactly when some address is denoted |
| LooseIpv4.DenotesIsPositional | packages/providers/src/egress.ts:95-104 | leading parts as octets and a last part filling the rest is the positional value, and the reverse |
| LooseIpv4.Assemble | packages/providers/src/egress.ts:90-109 | the fold and the powers compute the denoted address; the guard above 32 bits never fires |
| LooseIpv4.ParseLooseIpv4 | packages/providers/src/egress.ts:63-109 | a spelling is accepted exactly when its parts are numbers within bounds, and yields the address it denotes |
| LooseIpv4.DenotedIsLoose | packages/providers/src/egress.ts:95-108 | the denoted address is the one with the spelling's value |
| LooseIpv4.WordOfIsBigEndian | packages/providers/src/egress.ts:112-119 | signed shifts and ors assemble the big-endian word |
| LooseIpv4.InRangeIsPrefixEquality | packages/providers/src/egress.ts:111-122 | a range test is equality of prefixes for every length from 0 to 32 |
| LooseIpv4.ClassifyIsByInterval | packages/providers/src/egress.ts:126-159 | every address is classified by the interval of values it lies in |
| LooseIpv4.ClassifyByOctets | packages/providers/src/egress.ts:126-159 | the classes of all addresses, said by their octets |
| SelfPivot.NormalizeIpv4 | packages/proxy/src/self.ts:50-95 | the second parser accepts the same spellings and prints the dotted quad of the same value |
| SelfPivot.QuadReadsBack | packages/proxy/src/self.ts:89-94 | a printed quad reads as its value, so normalizing is idempotent |
| SelfPivot.NormalFormIsCanonical | packages/proxy/src/self.ts:41-49 | two spellings normalize alike exactly when they denote one value |
| SelfPivot.SpellingKey | packages/proxy/src/self.ts:98-133 | a spelling is local exactly in 127.0.0.0/8 or as 0.0.0.0, and its key is canonical |
| SelfPivot.SpellingsShareAKey | packages/proxy/src/self.ts:119-133 | two spellings share a key exactly when they denote one address or both denote this machine |
| SelfPivot.LocalExactly | packages/proxy/src/self.ts:98-117 | a host is local if and only if, bared, it is a loopback name, a local IPv6 spelling, a local IPv4 spelling, or a loopback one mapped into IPv6 |
| SelfPivot.BareSpelled | packages/proxy/src/self.ts:31-38 | brackets, case, zone and white space around a name do not matter |
| SelfPivot.KeysAreIdentities | packages/proxy/src/self.ts:119-133 | two hosts of any kind share a key if and only if they are this machine, one IPv4 address, or one name |
| SelfPivot.KeyIsInjective | packages/proxy/src/self.ts:158-158 | host key and port can be told apart in the stored string |
| SelfPivot.Listeners.Register | packages/proxy/src/self.ts:142-159 | a registration is refused, claims a port, or adds its own key, and nothing else |
| SelfPivot.Listeners.IsSelfPivot | packages/proxy/src/self.ts:178-190 | a target is a pivot exactly when a claimed port meets a local host or an own listener has its host key and port |
| SelfPivot.Listeners.Clear | packages/proxy/src/self.ts:161-164 | afterwards no target is a pivot |
| ToolCalls.ReadToolCalls | packages/router/src/tools.ts:243-298 | the loop with its set of seen ids accepts exactly the specified batches |
| ToolCalls.ReadMessages | packages/router/src/request.ts:140-229 | the loop with its set of known ids accepts exactly the specified conversations |
| ToolCalls.ParsedIsWellFormed | packages/router/src/tools.ts:248-297 | an accepted batch has valid, distinct calls |
| ToolCalls.AcceptedIsJustified | packages/router/src/request.ts:131-139 | an accepted conversation has no result without an earlier call of that id |
| ToolCalls.CallsReadBack | packages/router/src/tools.ts:243-298 | replayed calls are read back as they were |
| ToolCalls.IndexedReads | packages/router/src/tools.ts:243-297 | every well-formed call, with an index or without, is accepted as it is |
| ToolCalls.AcceptedIsIndexed | packages/router/src/tools.ts:243-297 | an accepted entry is the entry of a well-formed call, and nothing else is in it |
| ToolCalls.MessageIsItsEntry | packages/router/src/request.ts:145-227 | an accepted message has the role, text, calls and id of its entry, each within its bounds |
| ToolCalls.PlainTextIsAccepted | packages/router/src/request.ts:206-227 | plain text within the cap is accepted in every role but that of a tool |
| ToolCalls.MessageIsAccepted | packages/router/src/request.ts:140-227 | exactly which entries are accepted as messages |
| ToolCalls.CallIdsAre | packages/router/src/tools.ts:34-34 | exactly which strings are call ids |
| ToolCalls.ToolNamesAre | packages/router/src/tools.ts:33-46 | exactly which strings are tool names |
| ToolCalls.Utf16LengthCounts | packages/router/src/request.ts:168-222 | lengths are those of UTF-16: a supplementary character counts twice |
| ToolCalls.ReplayParses | packages/router/src/request.ts:178-206 | every replayed result is accepted in order behind the message that declared its call |
| ToolCalls.GrownConversation | apps/server/src/tool-loop.ts:179-192 | a grown conversation is rejected exactly for its number of messages or its size, and answers each call once, in order |
| Dispatch.OnlyAuthorizedHandlersSeeInput | packages/capability/src/dispatch.ts:237-336 | no handler parses or runs for a caller without its scope or beyond the depth bound |
| Dispatch.DoneMeansRunInOrder | packages/capability/src/dispatch.ts:352-372 | a batch is served whole if and only if every call may be, behind those in front of it; then each ran once, in order, and is answered under its own id with what its handler returned for its own arguments |
| Dispatch.OneIsServedExactly | packages/capability/src/dispatch.ts:237-336 | one call is served exactly when it is authorized and its handler returns something printable, and otherwise refused for the first reason there is |
| Dispatch.BatchRefusedExactly | packages/capability/src/dispatch.ts:352-366 | exactly which batches are refused whole, and that nothing of them is touched |
| Dispatch.EnvelopeOf | packages/capability/src/dispatch.ts:186-219 | the router's calls are valid envelopes here |
| Dispatch.EnvelopesRead | packages/capability/src/dispatch.ts:186-219 | every envelope, with an index or without, is read |
| Dispatch.OnlyEnvelopesRead | packages/capability/src/dispatch.ts:186-219 | and nothing else is |
| Dispatch.Dispatcher.DispatchOne | packages/capability/src/dispatch.ts:237-336 | the pipeline in its order: outcome and handler activity as specified |
| Dispatch.Dispatcher.DispatchToolCalls | packages/capability/src/dispatch.ts:352-372 | a batch is refused whole or dispatched call by call |
| ToolLoop.MixedBatchTouchesNothing | apps/server/src/tool-loop.ts:128-146 | a batch is refused as split exactly when it mixes ours and the client's, and nothing of it has been touched |
| ToolLoop.DispatchedThreads | apps/server/src/tool-loop.ts:160-192 | a batch of the router is dispatched exactly when every call is served, and then the conversation grows by each call's own printed result |
| ToolLoop.TurnOutcomes | apps/server/src/tool-loop.ts:103-160 | what a turn comes to: handed on, split, exhausted or dispatched, by whose calls were answered |
| ToolLoop.TurnKeeps | apps/server/src/tool-loop.ts:120-193 | a turn that goes on ran each call the provider answered with once, in order, and grew the conversation by their own results |
| ToolLoop.RunIsBounded | apps/server/src/tool-loop.ts:103-199 | at most four requests, and four when given up; only authorized handlers; the client gets what the provider answered last, with no call of ours in it; and an own conversation is refused only for its caps |
| ToolLoop.EveryRequestGrewOut | apps/server/src/tool-loop.ts:169-192 | every request sent is the client's, grown by one batch after the other: the calls the provider answered with, each with its own handler's result |
| ToolLoop.ToolServer.TakeTurn | apps/server/src/tool-loop.ts:120-160 | one turn is the specified step |
| ToolLoop.ToolServer.RunToolLoop | apps/server/src/tool-loop.ts:103-199 | the loop is the specified run |
| Migrations.RunOneIsMigrate | packages/storage/src/migrations.ts:435-467 | a transaction stopped anywhere is the whole migration or nothing |
| Migrations.EveryRunLeavesAPrefix | packages/storage/src/migrations.ts:411-475 | a stopped run leaves exactly the first k migrations applied, recorded and counted |
| Migrations.InterruptionsDoNotMatter | packages/storage/src/migrations.ts:411-475 | after any number of stopped runs, one that completes reaches the state of an uninterrupted run, and another applies nothing |
| Migrations.Pigeonhole | packages/storage/src/integrity.ts:92-118 | distinct positive versions up to u number u only when they are all there |
| Migrations.VerifyAcceptsExactlyComplete | packages/storage/src/integrity.ts:78-119 | greatest version and count accept exactly the complete ledgers, and version zero always |
| Migrations.StoppedRunsAreAccepted | packages/storage/src/integrity.ts:78-142 | nothing a stopped run leaves is refused by the checks in front of the next |
| Migrations.ChainsAgree | packages/storage/src/integrity.ts:33-49 | two chains agree exactly when the versions are the same and the statements of each join to the same text |
| Migrations.JoinedTellsApart | packages/storage/src/integrity.ts:45-45 | statements without semicolons join to the same text only when they are the same |
| Migrations.JoiningHidesBoundaries | packages/storage/src/integrity.ts:45-45 | one statement with a semicolon and the two it joins have the same chain |
| Migrations.UpgradeAfterRecordingIsRefused | packages/storage/src/integrity.ts:151-182 | a recorded chain agrees later exactly when no migration has been added since |
| Migrations.Database.ApplyOne | packages/storage/src/migrations.ts:435-467 | one transaction commits, rolls back or dies as specified |
| Migrations.Database.RunMigrations | packages/storage/src/migrations.ts:411-475 | the loop is the specified run |

## Left out

- Cryptographic algorithms, key derivation and random bytes: ideal boxes and parameters stand for them.
- SQL text, SQLite, files, sockets, timers and abort signals: transactions, slots, event scripts and steps stand for them.
- Loss of power, and several processes on one data directory.
- SecretStorage.Store.RotateRootKey: where the caller's provider keeps its key is not modelled; the key arrives as a parameter.
- Semaphore.ReturnedPermitsLeaveItIdle: that every caller returns its permit, as packages/router/src/transport.ts:231-238 does in a `finally`, is its hypothesis.
- Semaphore.Limiter.AcquirePermit: promise callbacks run within the call that settles them, because no operation depends on their order.
- Failover.Chat: proxy choice, latencies, token counts and the log lines are not modelled; the logger is assumed not to throw, because a throw would turn a success into a failure.
- Handshake.HandshakeReader.ReadExactly: a deadline that passes is an event like the others, because only its place among them matters.
- SelfPivot.Listeners.IsSelfPivot: ports are integers in decimal notation, because exponent notation of huge numbers cannot be registered.
- ToolCalls.ReadMessages: strings with unpaired surrogates are not modelled there.
- ToolLoop.ToolServer.RunToolLoop: the settings of a request are one opaque value with its own validity, because the loop never changes them.
- Migrations.Database.RunMigrations: the foreign-key pragma of the connection, which does not outlive it.
- The rollback witness, the configuration digest, the IPv6 classifier, DNS, and registries, because they would add only easy members.
- HTTP wiring, scopes of routes, rate limits, telemetry storage, discovery, the dashboard and its drawing.
