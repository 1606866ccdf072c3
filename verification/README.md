# Verified model of the Kavach core

This project models the parts of Kavach whose correctness is least obvious from reading one function, and proves what
they guarantee over every run or every input. Everything is Dafny 4.11; `dafny verify dfyconfig.toml` checks it all.

**Anchoring on chain.** Credential operations write job rows; server workers claim rows and call a gateway, which
sends transactions to the TrustAnchor contract. An adapter worker anchors evidence, incidents, consents and
credentials on its own. Answers may be lost, late or repeated; transactions may be mined after everybody gave up on
them; workers may crash between any two awaits. `TrustAnchor` is the contract, `Network` the transactions in flight,
`ServerQueue` and `AdapterQueue` the two systems as step machines with an inductive invariant, `ServerQueueTheorems`
and `AdapterWorker` what follows for all runs, `ServerQueueLimits` where the pipeline falls short and exactly when,
`ServerQueueRecovery` what the gateway answers when a transaction failed, `ServerQueueRaces` what steps outside its
discipline do, `ServerWorker.AnchorQueue` and `AdapterWorker.Worker` the workers as imperative code in which every
await lets any number of foreign steps in. Their methods prove that what they do is a run of the step machine
(`Reaches`), so the theorems about runs apply to the code.

**Canonical JSON and encrypted snapshots.** `Json` holds both hand-written printers and a parser for RFC 8259 sections
4 to 7 over UTF-16 units; `JsonProofs` and `JsonCanonical` prove the round trips; `Utf8` the byte encoding;
`Canonicalize` the versioned envelope and the salted hash input; `Snapshot` base64 (RFC 4648 section 4), hex (section
8), the envelope and decryption; `Vectors` which of the possible encodings is the one in use.

**Geofences.** `Geofence`: the even-odd test, the clamped projection onto an edge, and zone tests, over exact reals.
`GeofenceShapes`: which points are inside.

**Dispatch.** `Dispatch`: the calls of the dispatch service, of the emergency service, and the end of a trip, which
all write the same rows. `DispatchProofs`: units and active dispatches correspond one to one. `DispatchHistory`: event
logs, time stamps, and incidents closed by fleet completion. `DispatchCalls`: when each call succeeds and what it
leaves. `DispatchService.Database`: the calls as row updates in order.

**Integrity sweep.** `Integrity`, `IntegrityPayloads` (what one credential's payload does to the rows),
`IntegrityProofs` (sweeps), and `IntegrityService.Tables` for the code that builds patches field by field.

**Smaller stateful algorithms.** `RequestStructure` (the request body walk), `RefreshQueue` and `RefreshResends` (the
client's 401 interceptor), `Auth`, `AuthProofs`, `AuthCodes`, `AuthEffects`, `AuthService` (refresh tokens and one-time
codes), `Hotels`, `HotelPlanners` (price buckets in two languages).

## What turned out not to hold

Each of these is a lemma with a concrete run, or an equivalence that says exactly when the expectation holds.

- FAILED does not mean "not on chain" (`FailedButAnchored`): whatever a row says, its effect is on chain exactly when
  some transaction sent for a job succeeded that brings it (`EffectIffSucceeded`), and a snapshot exactly when the
  contract's count reached its number (`SnapshotAnchoredIffCounted`).
- CONFIRMED is lost by a step exactly when the step is the write of a `retryFailed`, which reads and writes in two
  steps, on that row, or the failure transaction of a worker that holds it (`UnconfirmedIff`). The first is reachable
  when the row was confirmed in between (`StaleRetryUnconfirms`), the second when a success transaction commits but
  its answer is lost (`LostCommitUnconfirms`). In every state of a disciplined run, where commits are answered, only
  the first can (`OnlyStaleRetryUnconfirms`).
- A recovery does not always answer success when the effect is on chain; exactly when it does not says `MissedIff`. An
  unconfirmed ISSUE whose id was issued and then extended is never confirmed, however often it is retried
  (`OutdatedIsNeverConfirmed`, `NeverRecovers`), and such a FAILED row is reachable (`ExtendedIssueIsStuck`).
- An EXTEND overtakes its ISSUE exactly when it is the first row due and the ISSUE is PROCESSING, FAILED or backing
  off; the contract then refuses it as unknown exactly when no ISSUE transaction of the id has succeeded
  (`OvertakesIffUnsettled`). All three ways are reachable (`ExtendOvertakesIssue`).
- A PROCESSING row can never leave that state exactly when the worker that holds it is dead (`StuckIffOwnerDead`), and
  such a state is reachable (`CrashStrands`).
- Two membership appends that race lose a payload: a run confirms both rows, and the second payload is not on chain
  then or in any continuation (`RacingAppendsLoseAPayload`). An append keeps the numbering exactly when its count is
  still the count (`NumberingNeedsFreshCount`), and the first snapshot, which is not counted, exactly when nothing is
  enqueued for the id (`FirstSnapshotNeedsNone`).
- Overlapping adapter passes can store FAILED over CONFIRMED (`UnconfirmedIffWrittenOver`, `OverlapStoresFailed`).
- Different salts can give the same digest: two salts hash alike exactly when they differ in lone surrogates only,
  which UTF-8 encoding replaces (`DigestsEqualIffScrubbed`), so exactly the salts with a lone surrogate have a
  different well-formed twin (`MalformedSaltHasTwin`).
- The end of a trip cancels dispatches without an event, so for exactly those rows the status is not the replay of the
  log (`StatusIsReplayUnlessTripEnded`).
- The administrator's status override breaks the correspondence of units and dispatches exactly when it moves a unit
  into or out of the dispatched status (`ExclusiveUnlessOverridden`).
- The sweep writes e-mail addresses and phone numbers into unique columns, so one sweep need not restore everything.
  Call a goal clear when everybody else who holds its address or phone has a clear goal of his own earlier in the
  sweep: the write of a goal fails exactly when it is not clear (`FailsIffNotClear`), and one sweep restores
  everything exactly when every protected value is right at the start or asked for by a clear goal
  (`MeetsAllIffRepairable`, `OneSweepRestoresAll`). Two users whose addresses were exchanged are never repaired
  (`SwappedEmailsStay`).
- With shared objects the nesting limit of the request walk depends on key order (`SharingMakesDepthOrderDependent`).
  A graph, whatever its cycles and sharing, is accepted in every order of its keys exactly when no path without
  repeated objects has as many links as the depth limit, the reachable objects hold no more keys than the key limit,
  and none has a forbidden key (`AcceptedInEveryOrderIff`). The JSON and query parsers build trees, where the order
  does not matter (`TreeAcceptedIffWithinLimits`).
- A sign-out does not always last: until the next login or another sign-out it lasts exactly when no refresh begun
  before it, by the interceptor or by other code, is answered with a token (`SignOutLastsIffNoLateToken`); both ways
  to undo it are reachable (`LateRefreshUndoesSignOut`).
- A reset code is not used up by verification (`VerifyingAgainReplacesTheToken`), and a password can be reset almost
  two code lifetimes after the code was issued (`ResetCanOutliveItsCode`); when exactly a reset is accepted is
  `ResetAcceptedIff`.
- A price text that is no number makes the Python planner raise an error, while the JavaScript planner answers one
  hotel (`BothPrograms`).

## Assumptions

Hash functions, the cipher, the distance between two places, the cosine, and the parsing of price texts are
parameters; where a lemma needs a hash to be free of collisions or the cipher to be invertible it says so. Trusted
snapshots are taken to agree where they protect the same value and to give different users different unique values.
Receipts are final and there is one authorised issuer. A database transaction is either done and answered or not done,
except where `ServerQueueRaces` says otherwise; a crash is a step of its own. Random values never repeat. Timeouts,
clock readings and what the database lists first, where the code leaves it open, are arbitrary.

## Model

| member | source | states |
|---|---|---|
| `TrustAnchor.ExecuteMovesForward` | blockchain/contracts/TrustAnchor.sol:180-291 | an accepted transaction never removes an id or anchor, never lowers an expiry, never un-revokes, and only appends snapshots |
| `TrustAnchor.ExecuteKeepsChainInv` | blockchain/contracts/TrustAnchor.sol:180-365 | every transaction keeps the event log free of repetitions and in step with the stored records |
| `TrustAnchor.ExecuteHasEffect` | blockchain/README.md:60-86 | an accepted transaction has its effect: the id exists, the expiry is at least the requested one, the id is revoked, the anchor exists, or the payload sits at its sequence |
| `TrustAnchor.EffectIsForever` | blockchain/README.md:60-86 | no later state of the chain loses an effect |
| `TrustAnchor.AcceptedIffLogAllows` | blockchain/contracts/TrustAnchor.sol:180-291 | what the contract accepts, read off the event log: an id once and within a window, an extension of a live id beyond its expiry, one revocation, snapshots in sequence and never empty, any hash |
| `TrustAnchor.IssuedRecordIsForever` | blockchain/contracts/TrustAnchor.sol:180-235 | an accepted ISSUE stores its trip, time of issue and expiry; the first two never change, and the expiry never falls |
| `TrustAnchor.ExecuteTouchesOne` | blockchain/contracts/TrustAnchor.sol:180-365 | an accepted transaction changes one record, snapshot list or anchor and nothing else |
| `Network.MineKeepsNetInv` | blockchain/gateway/server.ts:166-167 | mining a sent transaction in any order keeps every recorded success true of the chain |
| `Network.TickKeepsNetInv` | blockchain/contracts/TrustAnchor.sol:237-270 | time passing, which turns ids EXPIRED on read, changes nothing stored |
| `ServerQueue.EnqueuedIsCount` | server/src/modules/credential/credential.service.js:155-168 | counting a credential's SNAPSHOT rows counts exactly the payloads enqueued for its id hash |
| `ServerQueue.NumberIsPosition` | server/src/modules/credential/credential.service.js:161 | a SNAPSHOT job numbered count + 1 carries the payload at that position of the enqueued list |
| `ServerQueue.NextSnapshotIsNextEnqueued` | blockchain/contracts/TrustAnchor.sol:272-291 | the one snapshot the contract accepts next is the next enqueued payload |
| `ServerQueue.CountedIsInPlace` | blockchain/gateway/server.ts:202-212 | when the gateway answers success because the count already reached the sequence, that very payload is on chain |
| `ServerQueue.GatewayStep` | blockchain/gateway/server.ts:162-212 | every step of a gateway request, with its recovery branches, keeps the invariant |
| `ServerQueueRecovery.RecoversIffShown` | blockchain/gateway/server.ts:168-200 | a recovery answers success exactly when the chain shows what was asked for: the issued id with the requested expiry, the live id with it, the revoked id, never a snapshot; else it answers a failure |
| `ServerQueueRecovery.MissedIff` | blockchain/gateway/server.ts:168-200 | an effect that is on chain is answered with a failure exactly when the ISSUE failed otherwise or its expiry moved, the EXTEND's id has a later expiry, has expired or is revoked, or it is a snapshot |
| `ServerQueueRecovery.RevokeRecovers` | blockchain/gateway/server.ts:196-200 | once a revocation has succeeded, every later recovery of a REVOKE of the id, in any continuation, answers success |
| `ServerQueueRecovery.NeverRecovers` | blockchain/gateway/server.ts:170-187 | once the expiry lies beyond the requested one, or an EXTEND's id is revoked, no later recovery of the call answers success, though its effect stays on chain |
| `ServerQueueRecovery.RetryConfirmsRevoke` | blockchain/gateway/server.ts:189-200 | a reachable run: a REVOKE is mined after its worker gave up, and a retry confirms it through the recovery |
| `ServerQueueRecovery.OutdatedIsNeverConfirmed` | blockchain/gateway/server.ts:170-174 | an unconfirmed ISSUE whose id is issued and extended since, and of which no worker is about to learn a success, is never confirmed in any continuation, although its effect is on chain |
| `ServerQueueRecovery.ExtendedIssueIsStuck` | server/src/integrations/blockchain/blockchain.queue.js:81-128 | a reachable state with such a FAILED row |
| `ServerQueue.WorkerStep` | server/src/integrations/blockchain/blockchain.queue.js:68-144 | every step of a worker, with failure or crash after each await, keeps the invariant, as long as a commit is answered |
| `ServerQueue.ServiceStep` | server/src/modules/credential/credential.service.js:77-168 | every serial credential operation keeps the invariant, numbering included |
| `ServerQueue.RequeueStep` | server/src/integrations/blockchain/blockchain.queue.js:22-59 | requeueing FAILED rows keeps the invariant when the row is still FAILED |
| `ServerQueue.StepKeepsInv` | server/src/integrations/blockchain/blockchain.queue.js:9-144 | every step of the whole system keeps the invariant |
| `ServerQueueTheorems.SnapshotsArePrefix` | server/src/modules/credential/credential.service.js:155-168 | in every reachable state the snapshots on chain are a prefix, in order, of the enqueued payloads |
| `ServerQueueTheorems.SnapshotAnchoredIffCounted` | blockchain/gateway/server.ts:202-212 | a SNAPSHOT job's own payload is at index sequence - 1 exactly when the count reached its sequence; a CONFIRMED one has |
| `ServerQueueTheorems.ConfirmedIsFinalAndTrue` | server/src/integrations/blockchain/blockchain.queue.js:89-101 | CONFIRMED is final, and the job's effect holds on chain then and at every later time |
| `ServerQueueTheorems.ProcessingHasOneOwner` | server/src/integrations/blockchain/blockchain.queue.js:75-79 | a row is PROCESSING exactly when a worker, alive or dead, holds it, and never two |
| `ServerQueueTheorems.StrandedForever` | server/src/integrations/blockchain/blockchain.queue.js:68-144 | a row whose worker died stays PROCESSING in every continuation |
| `ServerQueueLimits.StuckIffOwnerDead` | server/src/integrations/blockchain/blockchain.queue.js:68-144 | a PROCESSING row can never leave that state exactly when the worker that holds it is dead |
| `ServerQueueLimits.CrashStrands` | server/src/integrations/blockchain/blockchain.queue.js:75-81 | a reachable state with such a row: a worker claims a job and dies |
| `ServerQueueTheorems.EachEffectOnce` | blockchain/gateway/server.ts:162-212 | no effect is recorded twice however often a job is submitted |
| `ServerQueueTheorems.OnlyStaleRetryUnconfirms` | server/src/integrations/blockchain/blockchain.queue.js:22-42 | in states of disciplined runs, CONFIRMED is lost by a step exactly when the step is the write of a retry on that row |
| `ServerQueueRaces.UnconfirmedIff` | server/src/integrations/blockchain/blockchain.queue.js:22-128 | in any state, CONFIRMED is lost by a step exactly when it is the write of a retry on the row or the failure transaction of a worker that holds it |
| `ServerQueueRaces.LostCommitUnconfirms` | server/src/integrations/blockchain/blockchain.queue.js:89-128 | a reachable state in which a success transaction commits, its answer is lost, and the failure transaction then stores FAILED over an anchored row |
| `ServerQueueTheorems.StaleRetryUnconfirms` | server/src/integrations/blockchain/blockchain.queue.js:22-42 | a reachable state in which such a write turns a CONFIRMED row PENDING |
| `ServerQueueTheorems.NumberingNeedsFreshCount` | server/src/modules/credential/credential.service.js:161-162 | an append keeps the numbering exactly when the count it read is still the count |
| `ServerQueueRaces.FirstSnapshotNeedsNone` | server/src/modules/credential/credential.service.js:121-152 | the first snapshot, numbered 1 without a count, keeps the numbering exactly when nothing is enqueued for the id |
| `ServerQueueRaces.EqualNumbersExclude` | blockchain/gateway/server.ts:202-212 | when one of two payloads with equal numbers is on chain, the other is not in any continuation, and requests for it are answered with success |
| `ServerQueueRaces.RacingAppendsLoseAPayload` | server/src/modules/credential/credential.service.js:155-168 | for any two payloads, a run in which two appends with the same count both end CONFIRMED and the second payload is never on chain |
| `ServerQueueTheorems.FailedButAnchored` | server/src/integrations/blockchain/blockchain.queue.js:102-128 | a reachable state with a FAILED job whose effect is on chain |
| `ServerQueueLimits.EffectIffSucceeded` | blockchain/gateway/server.ts:162-212 | in every reachable state a job's effect, whatever its row says, is on chain exactly when some transaction sent for a job succeeded that brings it |
| `Network.MineKeepsOriginInv` | blockchain/gateway/server.ts:166-209 | mining keeps this: exactly the effects that successful transactions bring are on chain |
| `ServerQueueTheorems.OldestIsFirstDue` | server/src/integrations/blockchain/blockchain.queue.js:69-73 | the row found is the first that is PENDING and due; none is found exactly when none is |
| `ServerQueueLimits.BackoffDoubles` | server/src/integrations/blockchain/blockchain.queue.js:105 | the delay starts at a second, doubles, and stays at a minute |
| `ServerQueueLimits.TakesIffFirstDue` | server/src/integrations/blockchain/blockchain.queue.js:69-73 | an idle worker takes a row exactly when it is due and no earlier row is |
| `ServerQueueLimits.OvertakenIffBackingOff` | server/src/integrations/blockchain/blockchain.queue.js:69-73 | the oldest PENDING row, which may not be the oldest unsettled one, is passed over exactly while it is backing off |
| `ServerQueueLimits.OvertakesIffUnsettled` | server/src/integrations/blockchain/blockchain.queue.js:69-105 | an EXTEND is taken before its unconfirmed ISSUE exactly when it is the first row due and the ISSUE is PROCESSING, FAILED or backing off; the contract refuses it as unknown exactly when no ISSUE transaction of the id succeeded |
| `ServerQueueLimits.ExtendOvertakesIssue` | server/src/integrations/blockchain/blockchain.queue.js:69-105 | reachable states in which an EXTEND that the contract would refuse is taken while its ISSUE backs off, has FAILED, or is with another worker |
| `ServerWorker.AnchorQueue.ProcessNext` | server/src/integrations/blockchain/blockchain.queue.js:68-144 | one pass, with anything happening at each await, is a run of the system; false exactly when no row was due, and then nothing changed |
| `ServerWorker.AnchorQueue.Claim` | server/src/integrations/blockchain/blockchain.queue.js:75-79 | the claim succeeds exactly when the row is still PENDING, and then counts the attempt |
| `ServerWorker.AnchorQueue.Call` | server/src/integrations/blockchain/blockchain.queue.js:81-87 | a success answer means the job's effect is on chain |
| `ServerWorker.AnchorQueue.RecordFailure` | server/src/integrations/blockchain/blockchain.queue.js:102-128 | the row becomes FAILED after the last attempt, else PENDING and due after the backoff |
| `ServerWorker.AnchorQueue.Settle` | server/src/integrations/blockchain/blockchain.queue.js:89-128 | the row ends CONFIRMED only after a success answer |
| `ServerWorker.AnchorQueue.AppendGroupMembershipSnapshot` | server/src/modules/credential/credential.service.js:155-168 | with credential operations serial and workers running, the new job's sequence is the number of payloads enqueued before plus one |
| `AdapterQueue.PendingAreRows` | blockchain/adapter/jobQueue.ts:260-262 | a pass lists every row that is PENDING when it starts, once and in order, and no other |
| `AdapterQueue.AlreadyHasEffect` | blockchain/adapter/jobQueue.ts:189-217 | the on-chain check is true only of calls that have their effect, and of the adapter's kinds of calls it is true of all that do |
| `AdapterWorker.ChecksIffEffect` | blockchain/adapter/jobQueue.ts:264-274 | a pass goes on to submit a row exactly when the row's effect is not on chain at the check |
| `AdapterWorker.RowChangesIff` | blockchain/adapter/jobQueue.ts:274-344 | which writes of a pass make a row CONFIRMED, FAILED or give it a transaction, in any state, both directions |
| `AdapterWorker.SettledIsConfirmable` | blockchain/adapter/jobQueue.ts:248-344 | from every reachable state a row whose effect is on chain, or whose transaction succeeded, can be confirmed by one more pass without another transaction |
| `AdapterQueue.StepKeepsInv` | blockchain/adapter/jobQueue.ts:89-344 | every step of any number of overlapping passes keeps the invariant and moves the chain forward |
| `AdapterWorker.ConfirmedHoldsForever` | blockchain/adapter/jobQueue.ts:189-344 | a row stored as CONFIRMED has its effect on chain then and for ever |
| `AdapterWorker.EachEffectOnce` | blockchain/adapter/jobQueue.ts:219-240 | each hash takes effect at most once however often it is submitted |
| `AdapterWorker.UnconfirmedIffWrittenOver` | blockchain/adapter/jobQueue.ts:310-332 | CONFIRMED is lost exactly when another pass records a failure it saw |
| `AdapterWorker.FinalWhenSerial` | blockchain/adapter/jobQueue.ts:248-344 | when passes do not overlap CONFIRMED and FAILED are final |
| `AdapterWorker.OverlapStoresFailed` | blockchain/adapter/jobQueue.ts:318-331 | a reachable state in which a second pass stores FAILED over an anchored, CONFIRMED row |
| `AdapterWorker.Worker.RunWorkerOnce` | blockchain/adapter/jobQueue.ts:248-344 | exactly the rows pending at the start are handled, each once and in order, and each is counted once, whatever happens at the awaits; every error names one of them |
| `AdapterWorker.Worker.SubmitRow` | blockchain/adapter/jobQueue.ts:264-307 | check, submit and record one row; exactly one counter grows |
| `AdapterWorker.Worker.PollRow` | blockchain/adapter/jobQueue.ts:309-332 | poll and record one row; exactly one counter grows |
| `AdapterWorker.Worker.SubmitTx` | blockchain/adapter/jobQueue.ts:219-240 | at most one transaction is broadcast, possibly also when the call throws |
| `JsonProofs.BodyRoundTrip` | blockchain/adapter/canonicalize.ts:74-76 | unescaping an escaped string gives it back and stops at the closing quote |
| `JsonProofs.ValueRoundTrip` | blockchain/adapter/canonicalize.ts:67-91 | parsing a printed value followed by any delimiter returns the value and the rest |
| `JsonProofs.ParseStringify` | server/src/integrations/blockchain/blockchain.snapshot.js:17-25 | JSON.parse undoes JSON.stringify and consumes all input |
| `JsonCanonical.StableIsCanonical` | blockchain/adapter/canonicalize.ts:67-91 | the sorted-key printer prints exactly the value with keys sorted at every depth |
| `JsonCanonical.ParseStable` | blockchain/adapter/canonicalize.ts:67-91 | parsing the canonical text returns the sorted value and consumes all input |
| `JsonCanonical.StableEqualIffSame` | blockchain/adapter/canonicalize.ts:60-91 | two values print alike exactly when they are equal up to key order at every depth |
| `JsonCanonical.ParseStableIsSame` | server/src/integrations/blockchain/blockchain.snapshot.js:5-9 | the parsed text is the value up to key order, and prints to the same text again |
| `JsonCanonical.CanonTwice` | blockchain/adapter/canonicalize.ts:86-90 | sorting keys twice is sorting them once |
| `Utf8.Utf8RoundTrip` | blockchain/adapter/canonicalize.ts:118 | a text without lone surrogates survives UTF-8 encoding |
| `Utf8.LosslessIffWellFormed` | blockchain/adapter/hasher.ts:34 | encoding loses nothing exactly when there is no lone surrogate |
| `Utf8.StringifyWellFormed` | blockchain/adapter/canonicalize.ts:75 | printed JSON never contains a lone surrogate, whatever its strings contain |
| `Canonicalize.AcceptedIffPlain` | blockchain/adapter/canonicalize.ts:20-57 | the check accepts exactly the values built from JSON primitives, plain objects and arrays |
| `Canonicalize.ErrorPathLeadsToFirst` | blockchain/adapter/canonicalize.ts:20-57 | the path in the error leads to the first value, depth first, that is not JSON |
| `Canonicalize.EnvelopeText` | blockchain/adapter/canonicalize.ts:112-118 | the canonical envelope is its data field, then its version field |
| `Canonicalize.CanonicalInjective` | blockchain/adapter/canonicalize.ts:105-119 | equal canonical bytes mean equal version and equal payload up to key order, and conversely |
| `Canonicalize.NoEnvelopeInsideEnvelope` | blockchain/adapter/hasher.ts:31-35 | no proper suffix of a canonical envelope is a canonical envelope |
| `Canonicalize.HashInputUnique` | blockchain/adapter/hasher.ts:26-39 | the hash input determines salt bytes, payload and version |
| `Canonicalize.DigestDeterminesInput` | blockchain/adapter/hasher.ts:26-39 | with a collision-free hash equal digests mean equal salt, payload and version |
| `Utf8.SameBytesIffSameScrubbed` | blockchain/adapter/hasher.ts:34 | two texts encode alike exactly when they differ in lone surrogates only |
| `Canonicalize.DigestsEqualIffScrubbed` | blockchain/adapter/hasher.ts:26-39 | for salts of any kind, equal digests mean equal payload and version and salts that differ in lone surrogates only |
| `Canonicalize.MalformedSaltHasTwin` | blockchain/adapter/hasher.ts:33-35 | exactly the salts with a lone surrogate have a different well-formed salt with the same digest |
| `Canonicalize.LoneSurrogateSaltsCollide` | blockchain/adapter/hasher.ts:33-35 | two different salts with lone surrogates give the same digest |
| `Snapshot.Base64RoundTrip` | server/src/integrations/blockchain/blockchain.snapshot.js:17-25 | base64 decoding undoes encoding |
| `Snapshot.HexRoundTrip` | server/src/integrations/blockchain/blockchain.snapshot.js:18-22 | hex decoding undoes encoding |
| `Vectors.EscapesOfStringify` | blockchain/adapter/canonicalize.ts:74-76 | which units JSON.stringify escapes short, which as four lower-case hex digits of the unit's value, and which not at all |
| `Vectors.PrintedForms` | blockchain/adapter/canonicalize.ts:67-91 | both printers write no whitespace, and only the canonical one reorders keys |
| `Vectors.Base64Vectors` | server/src/integrations/blockchain/blockchain.snapshot.js:13-16 | the examples of RFC 4648 section 10 and the two symbols beyond letters and digits |
| `Vectors.HexVectors` | server/src/integrations/blockchain/blockchain.snapshot.js:18-22 | hex is lower case, high digit first |
| `Vectors.Utf8Vectors` | blockchain/adapter/canonicalize.ts:118 | encodings of one to four bytes from RFC 3629 section 7, and the replacement of a lone surrogate |
| `Snapshot.EnvelopeSurvives` | server/src/integrations/blockchain/blockchain.snapshot.js:13-22 | unwrapping a ciphertext gives back the sealed envelope |
| `Snapshot.DecryptEncrypt` | server/src/integrations/blockchain/blockchain.snapshot.js:5-26 | decrypting an encrypted payload returns it up to key order and re-hashes to the original hash |
| `Snapshot.HashCheckAcceptsOnlyTheOriginal` | server/src/integrations/blockchain/blockchain.integrity.service.js:93-96 | the integrity check accepts a decrypted payload exactly when it is the hashed one up to key order |
| `Geofence.PointInPolygon` | server/src/common/utils/geofence.js:14-27 | true exactly when the point is on an edge or an odd number of edges is crossed; the division never meets a zero denominator |
| `Geofence.CrossesFlip` | server/src/common/utils/geofence.js:21-24 | whether an edge is crossed does not depend on its direction |
| `Geofence.OnSegmentFlip` | server/src/common/utils/geofence.js:3-12 | whether a point is on an edge does not depend on its direction |
| `Geofence.InsideRotated` | server/src/common/utils/geofence.js:14-27 | the answer does not depend on which vertex comes first |
| `Geofence.InsideReversed` | server/src/common/utils/geofence.js:14-27 | the answer does not depend on the orientation |
| `Geofence.CutAlongChord` | server/src/common/utils/geofence.js:14-27 | off the edges and the chord, the answer for a polygon is the exclusive-or of the answers for its two parts |
| `GeofenceShapes.CrossesIffSide` | server/src/common/utils/geofence.js:21-24 | an edge is crossed exactly when it passes the latitude east of the point, said without division |
| `GeofenceShapes.TriangleInside` | server/src/common/utils/geofence.js:14-27 | off its edges, a point is inside a triangle exactly when it is strictly on the same side of all three |
| `GeofenceShapes.InsideIffFanOdd` | server/src/common/utils/geofence.js:14-27 | off its edges and the diagonals from the first vertex, a point is inside any polygon exactly when an odd number of the triangles of that fan have it within |
| `GeofenceShapes.EdgePointsAreInside` | server/src/common/utils/geofence.js:3-20 | every point of every edge is inside |
| `GeofenceShapes.BeyondIsOutside` | server/src/common/utils/geofence.js:14-27 | off the edges, no point beyond the bounding box is inside |
| `Geofence.NearestIsNearest` | server/src/common/utils/geofence.js:47-66 | the clamped parameter minimises the distance over the whole edge |
| `Geofence.IntersectsIffTouches` | server/src/common/utils/geofence.js:68-86 | a polygon meets the circle exactly when the centre is inside or some point of some edge is within the radius |
| `Geofence.IntersectsMonotone` | server/src/common/utils/geofence.js:29-98 | a larger radius meets more, and a zone that contains the centre is met |
| `Dispatch.NearestIsFirstNearest` | server/src/modules/dispatch/dispatch.service.js:54-58 | the chosen unit is nearest, and the first listed among equally near ones |
| `DispatchProofs.TakingKeepsExclusive` | server/src/modules/dispatch/dispatch.service.js:44-64 | handing a free unit to a row that holds none keeps the correspondence |
| `DispatchProofs.ClosingKeepsExclusive` | server/src/modules/dispatch/dispatch.service.js:65 | closing a row and freeing its unit keeps the correspondence |
| `DispatchProofs.ServiceTransitionKeepsExclusive` | server/src/modules/emergency-service/emergency-service.service.js:107-150 | so does the second writer |
| `DispatchProofs.EndTripKeepsExclusive` | server/src/modules/trip/trip.repository.js:163-231 | so does the end of a trip |
| `DispatchProofs.ExclusiveUnlessOverridden` | server/src/modules/dispatch/dispatch.service.js:42-65 | every call keeps the correspondence exactly when it is not an override that changes whether the unit counts as dispatched |
| `DispatchProofs.RunsAreExclusive` | server/src/modules/dispatch/dispatch.service.js:42-65 | over every run without such an override no unit serves two active dispatches, types match, and none is leaked |
| `DispatchProofs.RunsFromEmptyAreExclusive` | server/src/modules/dispatch/dispatch.service.js:42-65 | from the empty tables on, the correspondence holds throughout a run exactly when no such override is in it |
| `DispatchProofs.AutoAssignPicksNearest` | server/src/modules/dispatch/dispatch.service.js:45-63 | when automatic assignment succeeds, and that no fitting unit is nearer than the chosen one |
| `DispatchCalls.CreateIff` | server/src/modules/dispatch/dispatch.service.js:44 | staff may open a dispatch exactly for an open incident of an active trip with a free unit of the type or none; the new row holds the unit, which is busy, and nothing else changed |
| `DispatchCalls.AssignIff` | server/src/modules/dispatch/dispatch.service.js:64 | a free unit of the type goes exactly to a live dispatch of an open incident that holds none |
| `DispatchCalls.AutoAssignIff` | server/src/modules/dispatch/dispatch.service.js:45-63 | automatic assignment succeeds exactly when some free placed unit of the type exists, the incident is open and placed, and staff ask |
| `DispatchCalls.SetUnitStatusIff` | server/src/modules/dispatch/dispatch.service.js:43 | only the system administrator overrides a status, and takes no busy unit out of service |
| `DispatchCalls.TransitionIff` | server/src/modules/dispatch/dispatch.service.js:65 | staff may cancel any live dispatch and move one that holds a unit one stage on, nothing else; the row, the freed unit and the incident afterwards |
| `DispatchCalls.ServiceTransitionIff` | server/src/modules/emergency-service/emergency-service.service.js:107-150 | a service may move its own live dispatch, by account and type, one stage on and never cancel it; the same afterwards, with the unit where the service is |
| `DispatchCalls.TransitionRefusals` | server/src/modules/dispatch/dispatch.service.js:65 | each refusal of either service has its own cause, and a closed dispatch is answered without a change |
| `DispatchCalls.EndTripCloses` | server/src/modules/trip/trip.repository.js:163-231 | the end of a trip leaves no open incident of it and no live dispatch of one, frees exactly their units, and changes no other live row |
| `DispatchCalls.AssignedToCompleted` | server/src/modules/dispatch/dispatch.service.js:10 | asked for in turn by either service in any mix, the stages take an assigned dispatch to COMPLETED and free its unit |
| `DispatchHistory.ReplayIsPath` | server/src/modules/dispatch/dispatch.service.js:9-10 | a log can be replayed exactly when it is a path of the lifecycle, which has at most six events |
| `DispatchCalls.PathIsLifecycle` | server/src/modules/dispatch/dispatch.service.js:10 | the paths are exactly REQUESTED or ASSIGNED on through DISPATCHED, EN_ROUTE, ON_SCENE and COMPLETED, stopped anywhere or cancelled before completion |
| `DispatchCalls.LogsAreLifecycles` | server/src/modules/dispatch/dispatch.service.js:44-65 | in every run from the empty tables every event log is such a lifecycle |
| `DispatchHistory.CallsStep` | server/src/modules/emergency-service/emergency-service.service.js:107-150 | either service moves a row one stage along the lifecycle, logs it, and does nothing else to it |
| `DispatchHistory.ClosedIsFinalForever` | server/src/modules/dispatch/dispatch.service.js:64-65 | a closed dispatch is never written again |
| `DispatchHistory.RunsKeepHistories` | server/src/modules/dispatch/dispatch.service.js:29-65 | over every run logs are paths of at most six events, stamps are present exactly for reached stages and do not decrease |
| `DispatchHistory.StatusIsReplayUnlessTripEnded` | server/src/modules/trip/trip.repository.js:198-210 | a status is the replay of its log exactly when no end of a trip cancelled the row |
| `DispatchHistory.LastCompletionResolves` | server/src/modules/dispatch/dispatch.repository.js:65-91 | a completion resolves the open incident exactly when no other dispatch of it is active |
| `DispatchHistory.FleetClosedForever` | server/src/modules/dispatch/dispatch.repository.js:65-93 | an incident so resolved has no active dispatch then or ever after |
| `DispatchHistory.RunsFromEmpty` | server/src/modules/dispatch/dispatch.repository.js:65-93 | histories, replay and fleet completion together, over every run from the empty tables |
| `DispatchHistory.FleetClosedFromEmpty` | server/src/modules/dispatch/dispatch.service.js:18-28 | after any such run, whatever calls follow, an incident resolved by fleet completion has no active dispatch |
| `DispatchService.Database.Create` | server/src/modules/dispatch/dispatch.service.js:44 | the row updates in order produce the specified state or the specified error and no change |
| `DispatchService.Database.AutoAssign` | server/src/modules/dispatch/dispatch.service.js:45-63 | the same for automatic assignment |
| `DispatchService.Database.Assign` | server/src/modules/dispatch/dispatch.service.js:64 | the same for assignment |
| `DispatchService.Database.Transition` | server/src/modules/dispatch/dispatch.service.js:65 | the same for the dispatch service's transition |
| `DispatchService.Database.ServiceTransition` | server/src/modules/emergency-service/emergency-service.service.js:16-150 | the same for the emergency service's transition |
| `DispatchService.Database.SetUnitStatus` | server/src/modules/dispatch/dispatch.service.js:43 | the same for the administrator's override |
| `DispatchService.Database.ResolveIncidentWhenResponsesComplete` | server/src/modules/dispatch/dispatch.repository.js:65-91 | counting the remaining dispatches decides the specified resolution |
| `RequestStructure.Walk.InspectValue` | server/src/middleware/requestSecurity.middleware.js:11-66 | the recursion with its shared counter and set ends on every graph and computes the specified outcome |
| `RequestStructure.RequestSecurity` | server/src/middleware/requestSecurity.middleware.js:68-94 | a request passes exactly when each of its three parts passes by itself |
| `RequestStructure.InspectCounts` | server/src/middleware/requestSecurity.middleware.js:39-50 | an accepting walk counts the keys of each newly visited object once |
| `RequestStructure.AcceptedVisitsAll` | server/src/middleware/requestSecurity.middleware.js:11-66 | acceptance means every reachable object was visited, total keys are within the limit, no key is forbidden, and every object has a short path |
| `RequestStructure.RefusedForCause` | server/src/middleware/requestSecurity.middleware.js:29-58 | a refusal has its reason: a path without repeated objects of as many links as the depth limit, more keys than the limit, or a reachable forbidden key |
| `RequestStructure.TreeAcceptedIffWithinLimits` | server/src/middleware/requestSecurity.middleware.js:11-66 | on trees acceptance is equivalent to all three limits holding |
| `RequestStructure.AcceptedInEveryOrderIff` | server/src/middleware/requestSecurity.middleware.js:11-66 | a graph is accepted in every order of its keys exactly when no path without repeated objects reaches the depth limit, the keys are within the limit, and no key is forbidden |
| `RequestStructure.SimplePathsAreShort` | server/src/middleware/requestSecurity.middleware.js:22-37 | such a path has fewer links than there are objects, so few objects are never too deep, whatever their cycles |
| `RequestStructure.SharingMakesDepthOrderDependent` | server/src/middleware/requestSecurity.middleware.js:22-37 | with sharing the same objects pass or fail the depth limit depending on key order |
| `Integrity.ShapeFixesGoals` | server/src/integrations/blockchain/blockchain.integrity.service.js:101-104 | what snapshots ask for does not depend on what the sweep writes |
| `IntegrityPayloads.PersonalVerdicts` | server/src/integrations/blockchain/blockchain.integrity.service.js:29-184 | of an individual credential, by its reading and the rows: exactly when it is skipped, fails, or is found intact, and that only a restoring pass changes anything |
| `IntegrityPayloads.PersonalRestored` | server/src/integrations/blockchain/blockchain.integrity.service.js:107-163 | after a clean or restoring pass name, e-mail, phone, date of birth and destination are the payload's, and nothing else changed |
| `IntegrityPayloads.CrewVerdicts` | server/src/integrations/blockchain/blockchain.integrity.service.js:186-342 | the same of a group credential, which is skipped when the member count differs |
| `IntegrityPayloads.CrewRestored` | server/src/integrations/blockchain/blockchain.integrity.service.js:257-311 | after such a pass the group's name, its leader's name, e-mail and phone, and the destination are the payload's, and nothing else changed |
| `IntegrityPayloads.GoalIsPayload` | server/src/integrations/blockchain/blockchain.integrity.service.js:107-111 | a credential has a goal exactly when it has a trusted payload that applies, and meeting it is agreeing with the payload |
| `IntegrityProofs.MetUnlessSquatted` | server/src/integrations/blockchain/blockchain.integrity.service.js:107-163 | a credential's fields equal its snapshot after its turn exactly when no other user holds its e-mail address or phone |
| `IntegrityProofs.FailsNowhereIffCleared` | server/src/integrations/blockchain/blockchain.integrity.service.js:352-384 | a sweep meets no failing write exactly when each holder of another's value is repaired before that other |
| `IntegrityProofs.FailureFreeSweepMeetsAll` | server/src/integrations/blockchain/blockchain.integrity.service.js:352-384 | then every protected field of every credential equals its snapshot |
| `IntegrityProofs.MetSweepIsIdle` | server/src/integrations/blockchain/blockchain.integrity.service.js:113-128 | where everything agrees a sweep writes nothing and returns zero |
| `IntegrityProofs.SweepLeavesUser` | server/src/integrations/blockchain/blockchain.integrity.service.js:107-163 | unnamed users and unprotected fields keep their values |
| `IntegrityProofs.SweepLeavesTrip` | server/src/integrations/blockchain/blockchain.integrity.service.js:112-151 | unnamed trips keep their values |
| `IntegrityProofs.SweepLeavesGroup` | server/src/integrations/blockchain/blockchain.integrity.service.js:257-310 | unnamed groups keep their values |
| `IntegrityProofs.SwappedEmailsStay` | server/src/integrations/blockchain/blockchain.integrity.service.js:149-150 | as e-mail addresses are unique (server/prisma/schema.prisma, model User), exchanged ones are never repaired, in either order |
| `IntegrityProofs.ReconcileAllIsSweep` | server/src/integrations/blockchain/blockchain.integrity.service.js:352-384 | reconciling credential by credential is the sweep of their goals, whatever is written in between |
| `IntegrityProofs.FailsIffNotClear` | server/src/integrations/blockchain/blockchain.integrity.service.js:149-159 | the write of a goal fails at its turn exactly when somebody who holds its address or phone has no clear goal before it |
| `IntegrityProofs.MeetsAllIffRepairable` | server/src/integrations/blockchain/blockchain.integrity.service.js:352-384 | one sweep meets every goal exactly when every protected value is right at the start or asked for by a clear goal |
| `IntegrityProofs.ClearedIsRepairable` | server/src/integrations/blockchain/blockchain.integrity.service.js:352-384 | where each holder of another's value is repaired before that other, every protected value is right or asked for by a clear goal; the next row shows the converse fails |
| `IntegrityProofs.LaterGoalRepairs` | server/src/integrations/blockchain/blockchain.integrity.service.js:307-311 | a leader whose own credential fails can be repaired later in the same sweep by the group credential |
| `IntegrityProofs.OneSweepRestoresAll` | server/src/integrations/blockchain/blockchain.integrity.service.js:352-384 | one sweep in any order makes every protected row of every fetched credential agree with its trusted payload, field by field, exactly under that condition; then the next sweep is idle, and below the limit of a hundred every open credential is fetched |
| `IntegrityService.RepairIsRestore` | server/src/integrations/blockchain/blockchain.integrity.service.js:107-118 | writing only the differing fields is as good as writing all protected fields, and is refused in the same cases |
| `IntegrityService.Tables.ReconcileCredential` | server/src/integrations/blockchain/blockchain.integrity.service.js:29-184 | the individual routine computes the specified reconciliation |
| `IntegrityService.Tables.ReconcileGroupCredential` | server/src/integrations/blockchain/blockchain.integrity.service.js:186-342 | the group routine does too, and leaves a group whose membership drifted alone |
| `IntegrityService.Tables.Transact` | server/src/integrations/blockchain/blockchain.integrity.service.js:149-159 | a transaction writes everything or, when a unique column refuses, nothing |
| `IntegrityService.Tables.ReconcileAllOpen` | server/src/integrations/blockchain/blockchain.integrity.service.js:352-384 | the two loops compute the specified sweep and return the number of restored credentials |
| `RefreshQueue.StepKeepsInv` | client/src/services/apiClient.js:119-177 | every turn of the event loop keeps flag, queue, waiting promises and refresh history in step |
| `RefreshQueue.OneRefreshInFlight` | client/src/services/apiClient.js:140-176 | at most one refresh of the interceptor is open, and one is while anybody waits |
| `RefreshQueue.SettledOnceWithItsRefresh` | client/src/services/apiClient.js:54-60 | every waiter is settled exactly once, with the outcome of the refresh it joined |
| `RefreshQueue.SentAtMostTwice` | client/src/services/apiClient.js:127-151 | no request is sent more than twice |
| `RefreshQueue.LeaderLeavesNobodyWaiting` | client/src/services/apiClient.js:156-176 | when the refresh is over nobody is left waiting |
| `RefreshQueue.LatchStopsRefreshes` | client/src/services/apiClient.js:62-69 | while the failure latch is up no 401 starts or joins a refresh |
| `RefreshResends.FirstUnauthorized` | client/src/services/apiClient.js:127-153 | the first 401 of a request joins the refresh in flight or starts one, unless it is exempt or the latch is up |
| `RefreshResends.LeaderResends` | client/src/services/apiClient.js:155-176 | the leader is sent again exactly when its refresh brought a token, else rejected; only a refused refresh token raises the latch and clears the token |
| `RefreshResends.WaiterResends` | client/src/services/apiClient.js:140-151 | a waiter is sent again exactly when the refresh it joined brought a token, else rejected |
| `RefreshResends.SentAgainIffRefreshed` | client/src/services/apiClient.js:140-160 | in every run a request was sent twice exactly when it went on after a refresh, led or joined, that brought a token |
| `RefreshResends.RejectedForCause` | client/src/services/apiClient.js:119-176 | in every run a request is rejected exactly when some step had a cause: a failure, a 401 that is exempt, repeated or under the latch, or the end of a refresh without a token |
| `RefreshQueue.SignOutLastsIffNoLateToken` | client/src/services/apiClient.js:12-102 | after a sign-out, in every run without a login, the mark lasts exactly when no refresh begun before, by the interceptor or elsewhere, is answered with a token |
| `RefreshQueue.LateRefreshUndoesSignOut` | client/src/services/chatbotClient.js:20-40 | reachable runs in which a late answer, to the interceptor or to other code, signs the user in again |
| `RefreshQueue.Client.ProcessQueue` | client/src/services/apiClient.js:54-60 | the loop settles every waiter and empties the queue |
| `RefreshQueue.Client.OnUnauthorized` | client/src/services/apiClient.js:119-155 | the interceptor's synchronous part computes the specified reaction |
| `RefreshQueue.Client.OnRefreshSettled` | client/src/services/apiClient.js:155-176 | the rest of the leader computes the specified settlement |
| `AuthProofs.RefreshAcceptedIff` | server/src/modules/auth/auth.service.js:427-472 | a refresh token is accepted exactly when it is the last one signed for a live session of a usable account |
| `AuthProofs.DeadForever` | server/src/modules/auth/auth.service.js:427-501 | a token rotated away, or of a revoked session, is never accepted again in any run |
| `AuthProofs.AcceptedOnce` | server/src/modules/auth/auth.service.js:474-490 | no token is accepted twice |
| `AuthProofs.RefreshInRuns` | server/src/modules/auth/auth.service.js:427-490 | the acceptance condition, and that no token is accepted twice, in every run |
| `AuthProofs.ResetEndsSessions` | server/src/modules/auth/auth.service.js:380-388 | after a password reset no earlier token of the account is ever accepted |
| `AuthEffects.LogoutEndsSession` | server/src/modules/auth/auth.service.js:493-501 | after a logout with any valid token of a session no token of the session is ever accepted, whatever follows |
| `AuthEffects.LogoutEndsOnlyIt` | server/src/modules/auth/auth.service.js:493-501 | a logout changes nothing but that session, and with a token that is not valid nothing |
| `AuthEffects.RevokedForever` | server/src/modules/auth/auth.service.js:441-450 | a revoked session stays revoked over every run, and none of its tokens is accepted |
| `AuthEffects.LoginIff` | server/src/modules/auth/auth.service.js:392-425 | a login is accepted exactly with the password of a usable account, and opens one session whose token is accepted |
| `AuthEffects.RefreshHandsOver` | server/src/modules/auth/auth.service.js:474-490 | an accepted refresh hands over to a new accepted token of the same session; the old one is refused, other sessions are untouched |
| `AuthEffects.SessionLife` | server/src/modules/auth/auth.service.js:392-501 | from the empty tables: log in, refresh, log out, and no token of the session is ever accepted again |
| `AuthCodes.CodeAcceptedIff` | server/src/modules/auth/auth.service.js:303-347 | a code is accepted exactly when it is the one last issued, within its lifetime, after fewer wrong guesses than allowed |
| `AuthEffects.CodeSentIff` | server/src/modules/auth/auth.service.js:263-300 | a code is drawn exactly for an account that qualifies and is past its cooldown; mailed, it is the one accepted code, otherwise none is |
| `AuthEffects.VerifyEmailIff` | server/src/modules/auth/auth.service.js:215-261 | when exactly an e-mail address is confirmed; then the account is confirmed, the code used up and a session opened |
| `AuthEffects.VerifyResetIff` | server/src/modules/auth/auth.service.js:303-357 | when exactly a reset code is accepted; then its token, and no earlier one, is valid |
| `AuthEffects.ResetChangesPassword` | server/src/modules/auth/auth.service.js:375-390 | after a reset the account logs in with the new password only and its sessions are revoked; other accounts are untouched |
| `AuthCodes.ResetHasItsCode` | server/src/modules/auth/auth.service.js:303-390 | every reset was preceded by the right code of the latest issue within its lifetime, and its token is used once |
| `AuthCodes.ConfirmationHasItsCode` | server/src/modules/auth/auth.service.js:215-261 | an e-mail address is confirmed only by the latest code within its lifetime |
| `AuthCodes.GuessesAreLimited` | server/src/modules/auth/auth.service.js:323-347 | each issued code meets at most the maximum number of wrong guesses, and then none is accepted |
| `AuthCodes.ResetAcceptedIff` | server/src/modules/auth/auth.service.js:359-378 | a reset is accepted exactly when the active account's code was verified since its latest issue and the token is that of the latest verification, within its lifetime |
| `AuthCodes.ResetInRuns` | server/src/modules/auth/auth.service.js:359-378 | the same in every run |
| `AuthCodes.VerifyingAgainReplacesTheToken` | server/src/modules/auth/auth.service.js:349-354 | a code can be verified again, and only the newer token is then valid |
| `AuthCodes.ResetCanOutliveItsCode` | server/src/modules/auth/auth.service.js:349-373 | a run from the empty tables in which a reset happens almost two code lifetimes after the issue |
| `AuthService.Repository.Refresh` | server/src/modules/auth/auth.service.js:427-490 | the checks and the rotation in order compute the specified outcome, and the returned token is the newly signed one |
| `AuthService.Repository.Logout` | server/src/modules/auth/auth.service.js:493-501 | any genuine token of the session, the last or an older one, revokes it |
| `AuthService.Repository.CheckCode` | server/src/modules/auth/auth.service.js:314-347 | the shared checks compute the specified outcome |
| `AuthService.Repository.VerifyEmail` | server/src/modules/auth/auth.service.js:215-261 | so does e-mail verification |
| `AuthService.Repository.VerifyPasswordResetOtp` | server/src/modules/auth/auth.service.js:303-357 | so does reset-code verification |
| `AuthService.Repository.ResetPassword` | server/src/modules/auth/auth.service.js:359-390 | so does the reset |
| `Hotels.OneEntryPerBucket` | ai-ml/trip-planner/hotels.js:39-57 | a selection has exactly one entry per non-empty bucket |
| `Hotels.EqualPricesSelectOne` | ai-ml/trip-planner/hotels.js:30-37 | with equal prices it is a single hotel of the highest rating |
| `Hotels.SelectionIsUnique` | ai-ml/trip-planner/hotels.js:4-64 | strictly increasing prices, first best of each bucket, every bucket: only one list is that |
| `Hotels.SortedBucketsAreSelection` | ai-ml/trip-planner/hotels.js:59-63 | listing filled buckets in any order and sorting by price gives the selection |
| `HotelPlanners.IndexIsBucket` | ai-ml/trip-planner/trip_core.py:251-264 | flooring and truncating put every price in the same bucket, never beyond the last |
| `HotelPlanners.BucketIsInterval` | ai-ml/trip-planner/hotels.js:39-44 | the buckets are intervals of equal width from the lowest to the highest price, each without its upper end but the last |
| `HotelPlanners.SelectHotelsInJavaScript` | ai-ml/trip-planner/hotels.js:4-64 | the JavaScript program computes the selection; with one price that is NaN it answers the first hotel of the highest rating |
| `HotelPlanners.SelectHotelsInPython` | ai-ml/trip-planner/trip_core.py:212-281 | the Python program computes the selection, and raises exactly when some price text is no number |
| `HotelPlanners.BothPrograms` | ai-ml/trip-planner/trip_core.py:212-281 | on every input whose texts both programs read alike: where Python answers, JavaScript answers the same list; where Python raises, a single hotel |

## Left out

- The chain status columns of credential rows, error texts, summaries of failures and transaction hashes kept beside
  the job rows are not modelled; they decide nothing.
- Chain reorganisations, gas, nonces and issuer administration are not modelled.
- HTTP routing, body parsing, API keys, rate limits and query building are modelled only by the answers they give.
- JSON numbers are integers: the printers' number formatting and the parser's fractions and exponents are not
  modelled, and the parser refuses them. Undefined values and object keys that look like array indices, which
  JavaScript reorders, are not modelled.
- Base64, hex and UTF-8 decoders are modelled as strict; what Node's lenient decoders make of malformed input is not.
- The comment in blockchain/adapter/canonicalize.ts:8-9 equates the text with Python's `json.dumps`, which escapes
  non-ASCII characters by default; the model follows the code.
- Floating point, the haversine formula and the trigonometry of the local map are replaced by reals and parameters;
  square roots are compared through squares.
- Dispatch calls are single steps, as if each ran in one transaction; two concurrent calls that both read a free unit
  are not modelled. E-mails, audit rows, publishing and notes are not modelled.
- Creating units and incidents, moving units and closing incidents by hand are steps of the dispatch runs without
  their own permission checks.
- The end of a trip is modelled as one step on values, since its source is a handful of bulk updates.
- The sweep's published messages and its retries of failed snapshot jobs are not modelled; gateway answers and the
  checks on a decrypted snapshot reach it as a reading per credential, and dates are instants.
- Prototype tampering before parsing and property getters are not modelled in the request walk; an object is its list
  of enumerable fields.
- The development role switch of the client, and what the pages do with the answer to a refresh they started beyond
  the token it stores, are not modelled.
- Authentication calls are serial; account lookup by e-mail address, password hashing and the login role check are not
  modelled. The access token is not modelled.
- Which texts each language reads as which number is a parameter of the hotel planners; infinite prices, thumbnails
  and classes, which are only copied, are not modelled, nor is a bucket count of zero.
