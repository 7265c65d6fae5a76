# Verification models of the logistics control plane

This directory holds Dafny models of the parts of the control plane whose
correctness does not show in any single function: protocols that must survive
crashes and interleavings, transactional stores with invariants over whole runs,
normal forms and encodings, and bounded loops. `dafny verify dfyconfig.toml`
checks all of it.

Every command of a store is a function that the object's method is proved to follow, and
modules named after their answers (`ReferenceAnswers`, `FinanceAnswers`, `DispatchAnswers`,
`ReviewAnswers`, `TickAnswers`, `TelemetryAnswers`) say of that function alone, on all
inputs, when it accepts, what it refuses and as what, and which rows it writes, over the
tables and with every status, bound and message spelled out.

Where the program updates state in place, a class (`StateDirectory`, `Prototype`,
`Repository`, `FakeReviewStore`, `LoopGuardian`, `Executor`, `Adapter`) or a method
with loops follows its statements, and its contract ties the new state to a
function of the old one. Properties of whole runs are lemmas about those functions.

- **Provider latch and grants** (`CircuitDisk`, `ProviderCircuit`, `SyntheticRunner`,
  `RunnerHistories`, `CircuitCalls`). A directory is a durable table of names plus the operations issued
  since its last sync; a crash keeps any subset of those operations, tears any file
  that was not synced, and ends all processes. The latch is a machine of single file
  operations taken by any number of processes, with faults and deaths at every point.
  The registry of approved grants is a parameter. Safety is proved of every history, and
  histories of a process's own steps are given in which claim, permit, clean release and
  failed finish succeed; the calls of one process are given for every set of faults.
- **Reference store** (`ReferenceModel`, `ReferenceRuns`, `ReferenceConservation`,
  `ReferenceAnswers`, `ReferencePrototype`). All tables, every command as one transaction, arbitrary
  caller clocks.
- **Packet filter contract** (`StableSorting`, `NftPolicy`, `NftMeaning`,
  `NftVerdicts`, `NftTuples`, `NftSnapshot`, `NftListings`). Documents, the compiled policy, the normal form, and
  a packet semantics of first match, chain policies, jumps and hooks that is
  parametric in every match the contract does not name.
- **Payload text** (`Numerals`, `PayloadEncoding`, `PayloadDecoding`,
  `PayloadCanonical`, `PayloadFloats`, `FloatNumerals`). The encoder, an independent
  parser, canonicity, and what floats do to it.
- **Finance repository** (`FinanceModel`, `FinanceRuns`, `FinanceConvergence`,
  `FinanceRefunds`, `FinanceAnswers`, `FinanceRepository`) and **dispatch repository**
  (`DispatchModel`, `DispatchLocks`, `DispatchAborts`, `DispatchAnswers`,
  `DispatchProgress`, `DispatchRepository`). Tables keyed as the
  `ON CONFLICT` targets and unique indexes say; dispatch also statement by statement
  under row locks, with writes invisible until the commit and reads of what is
  committed at the time of each statement.
- **Ranking** (`Permutations`, `Recommendations`, `RankDisplacement`) and **reviews**
  (`ReviewModel`, `ReviewRuns`, `ReviewAnswers`, `ReviewStore`). A creation is two steps, with any
  calls between them.
- **Evidence correlation** (`EvidenceModel`, `EvidenceCheck`, `EvidenceCorrelation`,
  `EvidenceOutcomes`, `EvidenceReference`), built on the packet filter modules. Acceptance
  is proved equivalent to a condition without the tables the evaluation keeps.
- **Signed envelopes** (`Base64Url`, `Base64Strict`, `EnvelopeJson`, `Envelopes`). The
  identifiers, the compact JSON and the base64 text are modelled down to characters and
  proved to round-trip; what a library reads of identifiers, numbers and JSON written in
  another form, and the keyed signature, are parameters without assumptions.
- **Kernel tick** (`TickModel`, `TickAnswers`, `TickKernel`) and **telemetry**
  (`TelemetryModel`, `TelemetryAdapter`, `TelemetryAnswers`).

Three places where code and its documentation or obvious reading differ. The model
follows the code, shows a failing input and gives the exact condition:

- A stored result is recognised by being truthy, so a retried `create_order` or `assign`
  is a replay iff the order id is not empty (`ReferenceRuns.CreateRetryCondition`,
  `ReferenceRuns.AssignRetryCondition`, `ReferenceRuns.EmptyOrderIsReal`).
- A comment in `verify_string` speaks of strict padding, but any text is re-padded first,
  and the library's reader skips foreign characters, drops spare bits and stops at the
  first complete padding. An accepted text is the encoding of what was read iff it is
  strict (`Base64Strict.StrictExactly`, `Envelopes.AcceptedIsStrict`; failing texts in
  `Base64Strict.NotStrict` and `Envelopes.LenientText`).
- Payload texts do not tell a float from the integer of its value iff its magnitude is
  at least 10^16 (`FloatNumerals.ValueCollision`). `PayloadFloats.TextDetermines` and
  `PayloadFloats.FloatsCollide` say exactly which payloads share a text, and
  `PayloadFloats.TenToTheSixteenth` gives one.

## Model

| member | source | states |
|---|---|---|
| `ProviderCircuit.LatchIsCrashSafe` | workers/src/zippy_workers/provider_circuit.py:91-179 | from an empty directory, in every interleaving of steps, store faults, process deaths and crashes: once a permit is granted and until its release has removed the last guard, a marker is present in memory and after every crash of the moment, and nobody else is granted a permit |
| `ProviderCircuit.PermitHeld` | workers/src/zippy_workers/provider_circuit.py:91-179 | the same from any state that satisfies the invariant, and no provider run is added meanwhile |
| `ProviderCircuit.LatchedForever` | workers/src/zippy_workers/provider_circuit.py:155-174 | once a finish with a failure has passed its directory sync, `open` is present in memory and after every crash for ever, and no permit and no run is ever added |
| `ProviderCircuit.StepInv` | workers/src/zippy_workers/provider_circuit.py:57-179 | every enabled step, fault, death and crash keeps the protocol invariant over locks, inodes, volatile and durable directory entries, tokens and claims |
| `ProviderCircuit.ReachableInv` | workers/src/zippy_workers/provider_circuit.py:57-179 | the invariant holds in every reachable state |
| `ProviderCircuit.NoNewPermit` | workers/src/zippy_workers/provider_circuit.py:91-114 | while a permit is unreleased, or once the latch is open, no single step grants a permit or starts a run |
| `ProviderCircuit.LivePermitBlocks` | workers/src/zippy_workers/provider_circuit.py:93-98 | the directory can look free to `reserve` only when every granted permit has been released |
| `ProviderCircuit.StalePermitIsHarmless` | workers/src/zippy_workers/provider_circuit.py:116-136 | a step of a finish whose permit was already released changes no directory entry and releases nothing |
| `ProviderCircuit.ActiveTokenIsLive` | workers/src/zippy_workers/provider_circuit.py:125-136 | the token in the `active` file is never one that was released |
| `ProviderCircuit.HeldTokenSurvives` | workers/src/zippy_workers/provider_circuit.py:108-111 | when `active` survives a crash while its permit is held, it survives with the whole token of that permit |
| `SyntheticRunner.GrantsBoundRuns` | workers/scripts/run_oms_recommendation.py:65-105 | over every history of invocations: each grant id is consumed at most once, each invocation runs the provider at most once and only after its own claim, runs never outnumber claims, and at most one invocation holds a permit at a time |
| `RunnerHistories.NoRunAfterLostPermit` | workers/scripts/run_oms_recommendation.py:80-104 | over every history from the empty directory: once an invocation that had been granted a permit holds it no more and has not cleanly released it, no later event starts a provider run and the directory stays blocked |
| `RunnerHistories.RefusedStopsNobody` | workers/scripts/run_oms_recommendation.py:65-79 | an invocation that is refused before it has a permit stops nobody: a history in which the first is refused at its claim and the second starts a run |
| `RunnerHistories.ReserveHistoryOf` | workers/src/zippy_workers/provider_circuit.py:91-114 | a claimed invocation that finds the directory free and unlocked can get a permit and start its run |
| `RunnerHistories.CleanFinishOf` | workers/src/zippy_workers/provider_circuit.py:137-179 | a holder that finds the lock free can, by its own call of finish and its own file operations alone, end closed with its permit released, the directory free of all markers and unlocked |
| `RunnerHistories.FailedFinishOf` | workers/src/zippy_workers/provider_circuit.py:137-179 | with a failure it ends closed with that failure, the permit not released, `active` gone and `open` holding the reason |
| `RunnerHistories.ReleasedForTheNext` | workers/src/zippy_workers/provider_circuit.py:91-179 | after any history: the holder of a permit can release it by its own steps, and then another claimed invocation can get its permit and start its run |
| `RunnerHistories.ReachableHold` | workers/src/zippy_workers/provider_circuit.py:91-179 | in every history whoever holds a permit finds `active` with its own token, and neither guard |
| `SyntheticRunner.NoRunAfterBadEnd` | workers/scripts/run_oms_recommendation.py:80-104 | from any state in which a granted permit is unreleased and held by nobody, no continuation starts a provider run and the directory stays blocked |
| `SyntheticRunner.EndedCleanOrOrphaned` | workers/scripts/run_oms_recommendation.py:80-104 | an invocation that stops holding its permit either released it with no failure or leaves a permit nobody can release |
| `SyntheticRunner.OrphanStays` | workers/scripts/run_oms_recommendation.py:80-104 | an orphaned permit stays orphaned under every step and no run is added |
| `SyntheticRunner.ReachableRunner` | workers/scripts/run_oms_recommendation.py:65-105 | the claim, permit and run bookkeeping is invariant over all histories |
| `SyntheticRunner.FinishFailure` | workers/scripts/run_oms_recommendation.py:92-103 | the outcome handed to `finish` is clean exactly for a recommendation with a received response and one started request |
| `SyntheticRunner.FailureTold` | workers/scripts/run_oms_recommendation.py:93-103 | any other report names its failure: no response, timeout and rate limit their own, everything else the safety failure |
| `CircuitCalls.StateDirectory.Persist` | workers/src/zippy_workers/provider_circuit.py:100-113 | for every set of places where the store raises: exclusive creation succeeds iff the name is absent and none of the four operations raises; then the body is complete and synced and the name durable; an existing name is refused unchanged |
| `CircuitCalls.StateDirectory.Consume` | workers/src/zippy_workers/staging_authorization.py:100-126 | the exact answer for every set of faults: a badly named grant, a store that cannot be opened, a used grant, a store that raises, or the grant; a claim made is durable, a second claim changes nothing, no marker is touched |
| `CircuitCalls.StateDirectory.Reserve` | workers/src/zippy_workers/provider_circuit.py:91-114 | the exact answer for every set of faults: each marker has its own refusal, and a permit is returned iff no marker is there and nothing raises; `active` is then durable with the token; a blocked directory is refused unchanged |
| `CircuitCalls.StateDirectory.RemoveActive` | workers/src/zippy_workers/provider_circuit.py:173-174 | the unlink and its sync: success leaves `active` gone in memory and after every crash |
| `CircuitCalls.StateDirectory.Finish` | workers/src/zippy_workers/provider_circuit.py:116-179 | the exact answer for every set of faults: with the matching token, no guard of its kind and no fault it succeeds, without a failure clearing exactly `active` for good, with one leaving `open` durably holding that failure; without the token nothing changes; every error keeps a blocked directory blocked, also across crashes |
| `CircuitCalls.StateDirectory.RunSynthetic` | workers/scripts/run_oms_recommendation.py:59-105 | the run starts iff the grant is authorized, well named and unclaimed, the directory unblocked, and neither claim nor reservation raises; the report is returned iff finishing does not raise either; a failure of the report is durably told by `open`; every end other than clean success leaves the directory safely blocked, clean success leaves it free |
| `ReferenceConservation.RunWf` | prototypes/xano/reference_model.py:132-317 | in every run: assigned iff assignment iff exactly one outbox row; vehicles injective, eligible and of the order's tenant; one positive payment per order and events that tell it; refunds never approved by their requester; reserved budget is the sum of reservation units within the cap; used grant iff exactly one reservation within its units; audit length is the count of business facts |
| `ReferenceConservation.StepWf` | prototypes/xano/reference_model.py:132-317 | each command keeps all of that, for every argument and clock |
| `ReferenceConservation.ReserveTables` | prototypes/xano/reference_model.py:297-316 | adding a reservation keeps the budget equal to the sum of units and the grants in bijection with reservations |
| `ReferenceRuns.RetryIsStable` | prototypes/xano/reference_model.py:104-182 | after a client command succeeded, repeating it with the same arguments in any later state returns the same result and changes no table |
| `ReferenceRuns.ReserveRetryCondition` | prototypes/xano/reference_model.py:284-308 | an accepted reservation repeated in any later state at any clock is answered again iff its grant has not expired there, is refused otherwise, and changes no table either way |
| `ReferenceRuns.RetryAnywhere` | prototypes/xano/reference_model.py:104-182 | inserting a retry anywhere later in a run leaves the final state unchanged |
| `ReferenceRuns.CreateRetryCondition` | prototypes/xano/reference_model.py:132-140 | in any later state, an accepted `create_order` is answered with its result again if and only if its order id is not empty; for the empty id the retry is a conflict |
| `ReferenceRuns.AssignRetryCondition` | prototypes/xano/reference_model.py:160-182 | in any later state, an accepted `assign` is answered with its result again if and only if its order id is not empty; for the empty id the retry is refused and changes nothing |
| `ReferenceRuns.EmptyOrderIsReal` | prototypes/xano/reference_model.py:132-182 | from empty tables a customer can create the order with the empty id, and a dispatcher can assign it: both failing inputs are reached |
| `ReferenceRuns.RejectedChangesNothing` | prototypes/xano/reference_model.py:77-92 | a rejected command leaves the whole database as it was |
| `ReferenceRuns.RunGrows` | prototypes/xano/reference_model.py:132-317 | no row is ever lost; commands, events, payments, reservations, vehicles and assignments are never rewritten, orders change only their state, refunds only gain their approval, grants only become used |
| `ReferenceRuns.GenerationCountsClaims` | prototypes/xano/reference_model.py:184-197 | for arbitrary clocks, a job's generation is the number of times it was claimed |
| `ReferenceRuns.AcknowledgedOnce` | prototypes/xano/reference_model.py:199-205 | the number of acknowledges that succeeded for a job is one if it is done and zero otherwise |
| `ReferenceRuns.AcknowledgesNewest` | prototypes/xano/reference_model.py:199-205 | an acknowledge succeeds only with the generation of the newest claim, and only as the first |
| `ReferenceRuns.LeaseRespected` | prototypes/xano/reference_model.py:187-196 | two claims of one job are at least the first lease's ttl apart, whatever happens between |
| `ReferenceRuns.QuietClaimTakesLowest` | prototypes/xano/reference_model.py:184-197 | a claim 5 or more after all earlier claims leases the lowest job that is not done, and none only if all are done |
| `ReferenceAnswers.CreatedExactly` | prototypes/xano/reference_model.py:132-140 | for every database: an order is created iff its caller is a customer with a key and either the key remembers this very command or both key and order id are new, and each other refusal has its own condition |
| `ReferenceAnswers.CreatedWrites` | prototypes/xano/reference_model.py:132-140 | it then belongs to its caller, in its caller's tenant, with one command and one audit row; a replay writes nothing |
| `ReferenceAnswers.AssignedExactly` | prototypes/xano/reference_model.py:160-182 | an assignment is accepted iff its caller is a dispatcher with a key and either a replay, or order and eligible vehicle are of its tenant, unplaced and unqueued, and nothing interrupts it |
| `ReferenceAnswers.AssignedWrites` | prototypes/xano/reference_model.py:160-182 | it then writes assignment, state, job, command and audit row, and no others |
| `ReferenceAnswers.ClaimedExactly` | prototypes/xano/reference_model.py:184-197 | a claim leases a job iff it is the lowest one neither done nor under a running lease, under its next generation and until ttl from now |
| `ReferenceAnswers.AcknowledgedExactly` | prototypes/xano/reference_model.py:199-205 | an acknowledgement is accepted iff it brings the job's generation and token before the lease ends and the job is not done |
| `ReferenceAnswers.PaidExactly` | prototypes/xano/reference_model.py:207-246 | a payment event is accepted iff it is signed and positive and either known as it is, or new, of an order of its tenant, and that order's own or only payment; each refusal has its own condition |
| `ReferenceAnswers.RequestedExactly` | prototypes/xano/reference_model.py:248-268 | a refund is requested iff by the customer of the order, in its tenant, under a new id or again as it was |
| `ReferenceAnswers.ApprovedExactly` | prototypes/xano/reference_model.py:270-281 | it is approved iff by a human administrator of its tenant other than its requester, before anybody else |
| `ReferenceAnswers.ReservedExactly` | prototypes/xano/reference_model.py:284-317 | budget is reserved iff by an agent whose grant covers the call and is either reserved so already or unused, and within the cap |
| `ReferenceAnswers.CreatorMayRequestRefund` | prototypes/xano/reference_model.py:132-268 | over every run: after an accepted creation, first or replayed, its principal can request a refund of the order in every later state, under any id that is not taken |
| `ReferenceModel.FirstClaimable` | prototypes/xano/reference_model.py:187-190 | the job a claim takes is the first in id order that is not done and not under an unexpired lease |
| `ReferencePrototype.Prototype.Audit` | prototypes/xano/reference_model.py:98-102 | appends one audit row and changes nothing else |
| `ReferencePrototype.Prototype.CreateOrder` | prototypes/xano/reference_model.py:132-140 | tables and reply are those of the serial command the run theorems are about: replay by key and payload, refusal of a foreign role, an empty key, a reused key or a taken order id, otherwise one order, one audit row and one remembered result |
| `ReferencePrototype.Prototype.Assign` | prototypes/xano/reference_model.py:160-182 | tables and reply are those of the serial command: replay, refusal of a foreign tenant, an ineligible or used vehicle or a placed order, and no effect at all when it fails after its writes and before the commit |
| `ReferencePrototype.Prototype.Claim` | prototypes/xano/reference_model.py:184-197 | the search in id order leases exactly the first claimable job under the next generation, or reports that there is none; other jobs are untouched |
| `ReferencePrototype.Prototype.Acknowledge` | prototypes/xano/reference_model.py:199-205 | a job is done only under its present lease token and generation and before the lease ends; otherwise the lease is stale and nothing changes |
| `ReferencePrototype.Prototype.Payment` | prototypes/xano/reference_model.py:207-246 | tables and reply are those of the serial command: bad signature or amount refused, known event replayed or in conflict, unknown order refused, known payment matched or in conflict, second payment of an order refused |
| `ReferencePrototype.Prototype.RequestRefund` | prototypes/xano/reference_model.py:248-268 | tables and reply are those of the serial command: only the order's own customer, replay of the same request, conflict with another one under the id |
| `ReferencePrototype.Prototype.ApproveRefund` | prototypes/xano/reference_model.py:270-281 | tables and reply are those of the serial command: only a human admin other than the requester, replay by the same approver, conflict with another |
| `ReferencePrototype.Prototype.ReserveAgent` | prototypes/xano/reference_model.py:284-317 | tables and reply are those of the serial command: the grant must cover the call and be unexpired even for a replay, a used grant or an exceeded cap is refused with no effect |
| `NftMeaning.ShapeSound` | workers/scripts/oms_synthetic_contract.py:166-193 | documents with equal shapes give every packet the same verdict at every hook and the same outcome in every chain, at every jump depth and for every meaning of unknown matches |
| `NftMeaning.ExportSound` | workers/scripts/oms_synthetic_contract.py:139-163 | dropping the redundant guards never changes what a rule does to a packet |
| `NftMeaning.SelectorEffect` | workers/scripts/oms_synthetic_contract.py:58-66 | a selector lets a packet pass exactly when the packet has the tuple of the case |
| `NftMeaning.RunAlike` | workers/scripts/oms_synthetic_contract.py:191-192 | rule lists that agree rule by rule in effect, in all chains reached by jumps, give the same outcome |
| `NftMeaning.ChainOfSorted` | workers/scripts/oms_synthetic_contract.py:191-192 | sorting the rules by chain name keeps the rules of each chain in their order |
| `NftVerdicts.PolicyPasses` | workers/scripts/oms_synthetic_contract.py:69-127 | the compiled policy accepts a packet at a hook exactly as the contract allows: on the case chain iff its tuple is granted in the phase, on the reply chain iff it is established or related, never on forward |
| `NftVerdicts.ShapedLikePolicy` | workers/scripts/oms_synthetic_contract.py:69-193 | any document with the shape of the policy accepts exactly the same packets |
| `NftVerdicts.CaseRun` | workers/scripts/oms_synthetic_contract.py:110-126 | running the case rules accepts a packet iff one of the remaining granted cases has its tuple |
| `NftVerdicts.CasesDistinct` | workers/scripts/oms_synthetic_contract.py:17-45 | no two cases have the same tuple |
| `NftTuples.RestrictedExactly` | workers/scripts/oms_synthetic_contract.py:17-127 | with every address and port spelled out: the restricted policy lets out a packet iff it goes from the target to the allowed peer as HTTPS or DNS, lets in replies only, and forwards nothing |
| `NftTuples.ProbedExactly` | workers/scripts/oms_synthetic_contract.py:17-127 | the calibration policy lets out, and the peer lets in, exactly the probed tuples, denied address and port 5432 included; the peer answers only established flows |
| `NftTuples.DeniedNeverLeaves` | workers/scripts/oms_synthetic_contract.py:17-127 | the restricted policy never lets out a packet to a denied address or to port 5432 |
| `NftTuples.CaseAt` | workers/scripts/oms_synthetic_contract.py:17-45 | a case is permitted iff it goes to an allowed address on a port other than 5432 |
| `NftPolicy.Policy` | workers/scripts/oms_synthetic_contract.py:69-127 | the loops build the policy of each known phase and refuse every other name |
| `NftPolicy.Compile` | workers/scripts/oms_synthetic_contract.py:110-126 | the loop over cases appends one counter and one rule per case in order |
| `NftPolicy.PolicyShape` | workers/scripts/oms_synthetic_contract.py:166-193 | the loop and the in-place sorts compute the shape, with the same refusals |
| `NftPolicy.ShapeCanonical` | workers/scripts/oms_synthetic_contract.py:188-193 | two documents have equal shapes iff, for each kind of object and each sort name, they list the same cleaned rows in the same order |
| `NftPolicy.ExportTwice` | workers/scripts/oms_synthetic_contract.py:139-163 | normalising an exported rule again changes nothing |
| `NftListings.GuardsDropped` | workers/scripts/oms_synthetic_contract.py:139-163 | the rule of a case is normalised to its two addresses and its port, and that form is left alone |
| `NftListings.ListingKeepsShape` | workers/scripts/oms_synthetic_contract.py:166-193 | a listing of a document that adds handles and counts and shows rules in their exported form has the document's shape |
| `NftListings.ShapeExactly` | workers/scripts/oms_synthetic_contract.py:171-187 | a document has a shape iff it holds nothing but tables, chains, counters, rules and schema version 1, and is refused as one of its other entries |
| `StableSorting.SortCanonical` | workers/scripts/oms_synthetic_contract.py:188-192 | two lists sort to the same list iff for each key they list the same rows in the same order |
| `StableSorting.SortKeeps` | workers/scripts/oms_synthetic_contract.py:188-192 | sorting keeps the order of the rows that share a key |
| `StableSorting.SortSorted` | workers/scripts/oms_synthetic_contract.py:188-192 | the sorted list is in key order |
| `NftSnapshot.CounterValues` | workers/scripts/oms_synthetic_contract.py:196-209 | the loop computes the counter table or refuses |
| `NftSnapshot.CountersFacts` | workers/scripts/oms_synthetic_contract.py:196-209 | the table exists iff every counter has non-negative integer values and no name is repeated, and then it holds exactly the counters of the document |
| `NftSnapshot.SnapshotIdentity` | workers/scripts/oms_synthetic_contract.py:212-226 | the loop computes the collection of handled objects without packet counts, or refuses |
| `NftSnapshot.SameObjects` | workers/scripts/oms_synthetic_contract.py:212-226 | with equal identities each object of one snapshot is in the other, with the same handle and body |
| `NftListings.IdentityExactly` | workers/scripts/oms_synthetic_contract.py:212-226 | a snapshot has an identity iff every object has a positive handle and every counter its counts |
| `NftListings.CountingKeepsIdentity` | workers/scripts/oms_synthetic_contract.py:212-226 | the same objects under the same handles with other counts have the same identity |
| `PayloadCanonical.CanonicalText` | api/services/paperclip.py:94-110 | for payloads whose floats all print a point: the texts are equal iff the payloads are equal up to key order |
| `PayloadCanonical.SameText` | api/services/paperclip.py:94-110 | payloads equal up to key order, floats included, encode to the same text |
| `PayloadFloats.TextDetermines` | api/services/paperclip.py:94-110 | for all payloads of finite floats: the texts are equal iff the payloads are equal up to key order once every float that prints no point is read as its integer |
| `PayloadFloats.FloatsCollide` | api/services/paperclip.py:102-107 | a payload always shares its text with that integer reading, which is a different payload iff some float in it prints no point |
| `FloatNumerals.ValueCollision` | api/services/paperclip.py:102-107 | a finite float, given by sign, shortest digits and point position, shares its text with an integer iff its magnitude is at least 10^16, and then with the integer of its own value alone |
| `FloatNumerals.PointlessIffLarge` | api/services/paperclip.py:105 | through the switch of `str` to an exponent and the positional printing of the decimal, a float prints no point iff its magnitude is at least 10^16 |
| `FloatNumerals.NumeralPrinted` | api/services/paperclip.py:105 | every finite float prints a well-formed numeral |
| `FloatNumerals.ExactIffSmall` | api/services/paperclip.py:102-107 | a float is one that payload texts tell from integers iff its magnitude is below 10^16 |
| `PayloadFloats.FloatCollision` | api/services/paperclip.py:102-107 | a printed float shares its text with an integer iff it has no point and is not a negative zero |
| `PayloadFloats.SharedText` | api/services/paperclip.py:102-107 | an object with one such float and the object with its integer instead are different and have one text |
| `PayloadFloats.TenToTheSixteenth` | api/services/paperclip.py:105 | the positional numeral of 1e16 is such a float, read as the integer 10000000000000000 |
| `Numerals.NumeralTrip` | api/services/paperclip.py:105-107 | a printed numeral, with or without a point, is read back whole, whatever may follow it |
| `Numerals.PrintedInteger` | api/services/paperclip.py:105-107 | a numeral without a point is the decimal of the integer it is read as, but for a negative zero |
| `PayloadCanonical.RefusalExact` | api/services/paperclip.py:95-108 | the encoder refuses exactly the payloads with a non-string key, a non-finite float or a foreign value anywhere |
| `PayloadDecoding.DecodesNormal` | api/services/paperclip.py:94-107 | decoding the text of a payload whose floats all print a point gives the payload with its keys in encoder order |
| `PayloadDecoding.ReadsBack` | api/services/paperclip.py:94-107 | a parser reads any such value back from its text and stops at its end, whatever may follow a value |
| `PayloadDecoding.StringTrip` | api/services/paperclip.py:107 | an escaped and quoted string is read back exactly, section 7 of RFC 8259 |
| `PayloadDecoding.EscapeTrip` | api/services/paperclip.py:107 | each escape is read back as the character it stands for |
| `PayloadEncoding.SortTextOrder` | api/services/paperclip.py:98 | the sort order is byte length first, then bytes |
| `PayloadEncoding.Utf8Injective` | api/services/paperclip.py:98 | different strings have different UTF-8 bytes, so the key order is total on keys |
| `FinanceRuns.RunWf` | api/repositories_finance.py:58-511 | in every run: references and intents are one-to-one per order; every gateway event is a receipt matched to its expected order and money; projections are exactly those of the gateway events; a financial request stands for its order's captured money; decisions and executions fit their requests |
| `FinanceRuns.StepWf` | api/repositories_finance.py:58-1002 | each command keeps that invariant |
| `FinanceRuns.RunGrows` | api/repositories_finance.py:58-1002 | over any rest of a run no order, receipt, reference, intent, gateway event, refund reference, decision or execution is lost or rewritten, and refund requests keep everything but their status |
| `FinanceRuns.StepGrows` | api/repositories_finance.py:58-1002 | each command only adds, on states whose references and intents cover the same orders |
| `FinanceRuns.OneMoney` | api/repositories_finance.py:165-235 | two captures matched to one order have the same amount and currency |
| `FinanceAnswers.ProjectionsSay` | api/repositories_finance.py:165-236 | over every run, statuses spelled out: an order has an `evidence_verified` projection for an event iff the event was recorded for it as `payment.captured`, `failed` iff `payment.failed`, `pending` iff `payment.authorized`, `reversed` iff `refund.processed`, and each recorded row repeats its receipt and the money of the mapping the receipt names |
| `FinanceAnswers.FinancialExactly` | api/repositories_finance.py:165-236 | over every run: an order has a financial request iff it has an `evidence_verified` projection, and for the money of each |
| `FinanceAnswers.PaymentExactly` | api/gateway.py:53-57 | a payment event is projected as its kind says iff it names a registered reference of a known order and states exactly its amount and currency; it is a mismatch or unmatched otherwise, each under its own condition |
| `FinanceAnswers.OtherExactly` | api/repositories_finance.py:152-160 | a processed refund is reconciled iff it names an execution and states its request's money; any other kind is unsupported |
| `FinanceAnswers.DeliveredExactly` | api/repositories_finance.py:58-141 | a delivery is a duplicate iff its id is known, and then changes nothing |
| `FinanceAnswers.DeliveredIsRecorded` | api/repositories_finance.py:58-236 | a first delivery adds the gateway row of its match, or none |
| `FinanceAnswers.PreparedExactly` | api/repositories_finance.py:238-346 | a reference is bound iff amount and currency are in range, the order is known and has no reference, and the reference is new; it is replayed iff it is bound so already |
| `FinanceAnswers.RequestedExactly` | api/repositories_finance.py:751-813 | a refund is requested iff by an administrator or the order's own customer, for a positive amount under a new key, and replayed iff all its terms are the same |
| `FinanceAnswers.DecidedExactly` | api/repositories_finance.py:815-869 | a request is decided iff it is open and the decider an active administrator other than its requester, and the decision taken is the one recorded |
| `FinanceAnswers.ExecutedExactly` | api/repositories_finance.py:871-1002 | over every run: execution evidence is recorded iff by an administrator, for an approved request, under a provider refund and a key that are both new, and replayed iff the request is executed under that key |
| `FinanceAnswers.ExecutedWrites` | api/repositories_finance.py:871-1002 | it then binds the refund id, repeats the request's money and target, and moves the request; otherwise nothing changes |
| `FinanceConvergence.Convergence` | api/repositories_finance.py:165-511 | any two runs that end with the same evidence and no receipt left behind have the same gateway events, projections and financial requests, in whatever order things arrived |
| `FinanceConvergence.LateBinding` | api/repositories_finance.py:475-511 | for a new payment event and any intent: ingest, register, re-drive ends in the same database as register, ingest |
| `FinanceConvergence.RedriveCatchesUp` | api/repositories_finance.py:475-511 | re-driving whatever receipts are behind, in any order, repeatedly and among any others, leaves none behind and changes no receipt or mapping |
| `FinanceConvergence.RedriveOrderFree` | api/repositories_finance.py:475-511 | the order of re-driving does not show in gateway events, projections and financial requests |
| `FinanceConvergence.ReprocessCatchesUp` | api/repositories_finance.py:475-511 | re-driving the only receipt left behind leaves none behind |
| `FinanceConvergence.IngestKeepsCurrent` | api/repositories_finance.py:58-141 | ingesting never leaves a matchable receipt behind |
| `FinanceConvergence.RepeatsAddNothing` | api/repositories_finance.py:58-141 | a redelivered receipt is answered as a duplicate and changes nothing; re-driving a projected receipt changes at most the refund synchronisation stamp |
| `FinanceRefunds.ReversedIsExecuted` | api/repositories_finance.py:381-472 | a `reversed` projection has the order, amount and currency of an executed request with an approving decision by someone other than the requester and an execution of the same money and target |
| `FinanceRefunds.ByAdministrators` | api/repositories_finance.py:815-1002 | every decision and execution in a run was made by a command of an administrator of this run |
| `FinanceRefunds.StatusOnlyAdvances` | api/repositories_finance.py:815-1002 | a request's status only moves requested to approved or rejected, and approved to executed |
| `FinanceRepository.Repository.ProjectPayment` | api/repositories_finance.py:165-235 | tables and outcome are those of the projection the run theorems are about: an unmatched or conflicting event adds nothing, a matched one adds its gateway event, its projection and, for a capture, the financial request of the order, each once |
| `FinanceRepository.Repository.ReconcileRefund` | api/repositories_finance.py:381-472 | a refund event is projected as reversed only when its provider refund is bound to an executed request of the same payment order, amount and currency; otherwise nothing is added |
| `FinanceRepository.Repository.ProjectEvent` | api/repositories_finance.py:143-163 | payment kinds and processed refunds reach their projection, every other kind adds nothing |
| `FinanceRepository.Repository.IngestGatewayEvent` | api/repositories_finance.py:58-141 | a known event id is answered as a duplicate with no effect; a new one is recorded and projected in one transaction |
| `FinanceRepository.Repository.ReprocessReceipt` | api/repositories_finance.py:475-511 | projects the stored receipt under the present mappings; an unknown receipt is refused with no effect |
| `FinanceRepository.Repository.PreparePaymentIntent` | api/repositories_finance.py:238-346 | registers reference and intent together, replays the same registration, and refuses with no effect a reference, an order or an amount that is already bound otherwise |
| `FinanceRepository.Repository.RequestRefund` | api/repositories_finance.py:751-813 | tables and reply are those of the serial command: one request per idempotency key, replayed when all its terms are the same, in conflict otherwise |
| `FinanceRepository.Repository.DecideRefund` | api/repositories_finance.py:815-869 | tables and reply are those of the serial command: only an administrator, only a requested refund, never by its requester, and decision and status change together |
| `FinanceRepository.Repository.RecordRefundExecution` | api/repositories_finance.py:871-1002 | tables and reply are those of the serial command: only an administrator and an approved request, replay of the same execution, conflict on another reference or key, and execution, reference and status change together |
| `DispatchLocks.Serializable` | api/repositories_dispatch.py:350-620 | every interleaving of statements under row locks leaves the tables a serial run of the committed transactions leaves |
| `DispatchLocks.DispatchSafety` | api/repositories_dispatch.py:350-620 | in every interleaving an order has at most one accepted offer and one unreleased assignment, and accepted offers and assignments correspond one-to-one |
| `DispatchLocks.StepRefines` | api/repositories_dispatch.py:350-620 | each statement changes the tables either not at all or as one serial command |
| `DispatchLocks.CommitIsSerial` | api/repositories_dispatch.py:350-529 | if what a transaction checked still holds, its commit is exactly the serial transaction |
| `DispatchLocks.StepInv` | api/repositories_dispatch.py:350-620 | every step keeps lock ownership and keeps true what each transaction has checked |
| `DispatchAborts.AbortedAsIfNever` | api/repositories_dispatch.py:350-620 | a transaction that aborts, whatever it wrote and locked before, is as if it had never begun: everyone else can take the same steps without it and the machine ends in the same state |
| `DispatchAborts.WorkingStep` | api/repositories_dispatch.py:437-505 | keeping each transaction's rows in a log, statement by statement, publishing the log at the commit and forgetting it at an abort, does exactly what the machine does |
| `DispatchAborts.CommitPublishesLog` | api/repositories_dispatch.py:437-505 | in every interleaving a commit adds to the tables exactly the rows its statements wrote |
| `DispatchAborts.Erased` | api/repositories_dispatch.py:350-620 | hiding one process that has not ended, every legal continuation of the others stays legal and has the same effect |
| `DispatchLocks.DecidedInAnyStep` | api/repositories_dispatch.py:579-620 | no step changes an offer that is no longer pending |
| `DispatchLocks.SomeoneRuns` | api/repositories_dispatch.py:370-383 | row locks never deadlock: while a transaction is in flight, some transaction is not waiting for an order, offer or trip row |
| `DispatchModel.RunWf` | api/repositories_dispatch.py:350-620 | the one-to-one correspondence holds in every serial run |
| `DispatchModel.StepWf` | api/repositories_dispatch.py:350-620 | each serial command keeps it |
| `DispatchModel.AssignWf` | api/repositories_dispatch.py:437-505 | accepting a pending offer of an order without an accepted one keeps it |
| `DispatchModel.OneActive` | api/repositories_dispatch.py:422-435 | an order has at most one unreleased assignment |
| `DispatchModel.DecidedOffersStay` | api/repositories_dispatch.py:579-620 | an offer that is not pending never changes, and accepting an accepted one again answers with its assignment |
| `DispatchAnswers.AcceptedExactly` | api/repositories_dispatch.py:350-505 | for all tables: an acceptance is answered with an assignment iff the offer exists, the actor is authorized, and either it was accepted before and has its assignment, or it is pending, not expired, its order confirmed, without unreleased assignment or accepted offer, and the guards admit it |
| `DispatchAnswers.AcceptanceWrites` | api/repositories_dispatch.py:437-505 | a first acceptance writes offer, order, trip and assignment as stated, any other answer nothing |
| `DispatchAnswers.RefusedActorChangesNothing` | api/repositories_dispatch.py:386-389 | an unauthorized or inadmissible acceptance is refused and changes nothing |
| `DispatchAnswers.ResolvedExactly` | api/repositories_dispatch.py:579-620 | an offer is decided iff it is pending and the actor authorized; cancelling cancels, declining declines, and no other row changes |
| `DispatchAnswers.ExpiredExactly` | api/repositories_dispatch.py:531-551 | an offer expires iff it is pending at or after its deadline |
| `DispatchProgress.AcceptanceCommits` | api/repositories_dispatch.py:350-529 | after any interleaving: a process that finds its locks and its order free and the offer pending and not due commits by its own statements alone, with the tables of the accepted serial command |
| `DispatchProgress.ResolutionCommits` | api/repositories_dispatch.py:579-620 | a decision on an unlocked offer it may decide commits likewise |
| `DispatchRepository.Repository.TransitionOrder` | db/zippy/migrations/0004_controls.up.sql:78-138 | moves the order iff it has the expected status, and changes nothing else |
| `DispatchRepository.Repository.AcceptDispatchOffer` | api/repositories_dispatch.py:350-529 | tables and reply are those of the serial command the interleaving theorems are about: refusals in the order of the code, replay of the offer that won, and otherwise offer, trip, assignment and order change together |
| `DispatchRepository.Repository.ResolveOffer` | api/repositories_dispatch.py:579-620 | only a pending offer is declined or cancelled, by an authorized actor; every refusal changes nothing |
| `DispatchRepository.Repository.Expire` | api/repositories_dispatch.py:531-551 | expires exactly the pending offers that are due |
| `Recommendations.AdvisoryRearranges` | workers/src/zippy_workers/recommendations.py:61-118 | for any agent outcome the advisory ids are a duplicate-free rearrangement of the shortlist |
| `Recommendations.AdoptedIffRearrangement` | workers/src/zippy_workers/recommendations.py:112-118 | for a non-empty shortlist an answered ranking is adopted iff it is a rearrangement of the shortlist |
| `Permutations.Pigeonhole` | workers/src/zippy_workers/recommendations.py:116-117 | equal length and equal set of a duplicate-free list suffice for a rearrangement |
| `RankDisplacement.ComparisonRanks` | workers/src/zippy_workers/shadow_recommendations.py:104-121 | every position lookup succeeds and the ranks are a permutation of 1 to n that tells where each candidate went |
| `RankDisplacement.DisplacementBounds` | workers/src/zippy_workers/shadow_recommendations.py:104-121 | the total displacement is even and at most n*n/2 |
| `RankDisplacement.ReversalReachesBound` | workers/src/zippy_workers/shadow_recommendations.py:104-121 | the bound is reached, by the reversed order |
| `RankDisplacement.ZeroIffSameOrder` | workers/src/zippy_workers/shadow_recommendations.py:104-121 | the displacement is zero iff the order is unchanged |
| `ReviewAnswers.ReasonTold` | workers/src/zippy_workers/recommendations.py:61-118 | the reason tells exactly how the agent ended, the source is the agent iff its answer was a rearrangement, and every other order is the shortlist's |
| `ReviewAnswers.ComparedExactly` | workers/src/zippy_workers/shadow_recommendations.py:93-121 | a comparison is made iff the capability is granted and the timeout usable |
| `ReviewAnswers.ComparisonSays` | workers/src/zippy_workers/shadow_recommendations.py:104-121 | it sets the advice beside the shortlist order and says whether both begin with the same candidate |
| `ReviewAnswers.DifferencesExactly` | workers/src/zippy_workers/shadow_recommendations.py:107-114 | a difference is listed iff an id stands at different ranks in shortlist and advice, with both ranks |
| `ReviewRuns.RunWf` | workers/src/zippy_workers/recommendation_reviews.py:112-229 | in every run, creations split at their await: records descend from their creation, decided records and submission keys correspond one-to-one with the same decision, and decisions lie in [created, expires) |
| `ReviewRuns.StepWf` | workers/src/zippy_workers/recommendation_reviews.py:112-229 | each call, and each resumption, keeps that |
| `ReviewRuns.TerminalForever` | workers/src/zippy_workers/recommendation_reviews.py:158-229 | over any rest of a run a record stays, keeps its creation, and never changes once it is not pending |
| `ReviewRuns.SecondCreationReplays` | workers/src/zippy_workers/recommendation_reviews.py:112-156 | a creation resumed after another one finished overwrites nothing and answers only for the same creation |
| `ReviewRuns.ResubmissionForever` | workers/src/zippy_workers/recommendation_reviews.py:172-229 | over every run: a submission answered at one step is answered with the same review, changing nothing, at every later point iff the clock there is not before the decision |
| `ReviewRuns.RunKeepsSubmissions` | workers/src/zippy_workers/recommendation_reviews.py:172-229 | over any rest of a run no stored submission is lost or rewritten |
| `ReviewRuns.ResubmissionReplays` | workers/src/zippy_workers/recommendation_reviews.py:172-229 | in a store that holds a key, an identical resubmission returns the stored result iff its clock is not before the decision, and changes nothing |
| `ReviewRuns.PreferenceIsCandidate` | workers/src/zippy_workers/recommendation_reviews.py:172-229 | an accepted record prefers one of the advised candidates of its own snapshot |
| `ReviewAnswers.BegunExactly` | workers/src/zippy_workers/recommendation_reviews.py:112-133 | a creation waits iff its id is not blank and new and its expiry after the clock; a known id is answered iff all inputs are the same |
| `ReviewAnswers.CreatedExactly` | workers/src/zippy_workers/recommendation_reviews.py:134-151 | a waiting creation is answered iff its comparison could be made, with a pending review of the snapshot, times and advice asked for, which is the one stored |
| `ReviewAnswers.ExpiryAsked` | workers/src/zippy_workers/recommendation_reviews.py:158-165 | over every run: the expiry a creation asked for is the instant from which an undecided review is answered as expired, as of that instant, and before it as pending |
| `ReviewAnswers.DecidedExactly` | workers/src/zippy_workers/recommendation_reviews.py:172-229 | under a new key a decision is taken iff the submission is in order and the review pending and not expired, and it is recorded as it was made |
| `ReviewAnswers.RefusedExactly` | workers/src/zippy_workers/recommendation_reviews.py:172-215 | why a submission is refused: reviewer, unknown review, stale snapshot, too late, or already decided, each under its own condition |
| `ReviewAnswers.ReplayedExactly` | workers/src/zippy_workers/recommendation_reviews.py:205-210 | under a known key a submission in order is replayed iff it is the same |
| `ReviewAnswers.RefusalRecords` | workers/src/zippy_workers/recommendation_reviews.py:211-216 | a refused submission stores the expiry it found and nothing else |
| `ReviewStore.FakeReviewStore.BeginCreate` | workers/src/zippy_workers/recommendation_reviews.py:112-133 | the part of a creation before the await: refuses an expiry not after the clock, replays a known id, otherwise only notes that the creation is waiting |
| `ReviewStore.FakeReviewStore.ResumeCreate` | workers/src/zippy_workers/recommendation_reviews.py:134-156 | the part after it: replays when another creation of the id has finished meanwhile, otherwise stores record and creation together |
| `ReviewStore.FakeReviewStore.Lookup` | workers/src/zippy_workers/recommendation_reviews.py:158-170 | an unknown id or a clock before the latest change is refused; a pending record past its expiry is stored as expired at its expiry; nothing else changes |
| `ReviewStore.FakeReviewStore.Review` | workers/src/zippy_workers/recommendation_reviews.py:172-229 | the store and the answer after a submission are those of the call the run theorems are about: refusals in the order of the code, replay of the key, expiry, decision |
| `EvidenceCheck.Evaluate` | workers/scripts/collect_oms_synthetic_evidence.py:113-353 | the sequence of checks with its accumulated challenges and answers accepts iff the declarative condition on the evidence holds, from which the correlation theorems follow |
| `EvidenceCheck.CheckResults` | workers/scripts/collect_oms_synthetic_evidence.py:294-334 | the loop accepts iff every result is sound and all challenges are new, and then collects exactly the challenges and answers |
| `EvidenceCheck.CheckResult` | workers/scripts/collect_oms_synthetic_evidence.py:295-334 | one result is accepted iff it fits its case, times, listener event and counters |
| `EvidenceCheck.CheckPhase` | workers/scripts/collect_oms_synthetic_evidence.py:207-293 | a phase is accepted iff its header, windows, policies, identities and counters are as stated |
| `EvidenceCheck.CheckListener` | workers/scripts/collect_oms_synthetic_evidence.py:167-201 | the listener is accepted iff its records and windows are as stated |
| `EvidenceCheck.IndexEvents` | workers/scripts/collect_oms_synthetic_evidence.py:199-201 | the loop builds the table of events by challenge |
| `EvidenceCorrelation.GrantedIsHeard` | workers/scripts/collect_oms_synthetic_evidence.py:294-343 | if accepted, each permitted result of either phase has exactly one listener event with its challenge, its case index and a time inside its window |
| `EvidenceCorrelation.EventIsClaimed` | workers/scripts/collect_oms_synthetic_evidence.py:294-343 | if accepted, each listener event answers a permitted result |
| `EvidenceCorrelation.EventClaimedOnce` | workers/scripts/collect_oms_synthetic_evidence.py:294-343 | and answers only one |
| `EvidenceCorrelation.ChallengesDistinct` | workers/scripts/collect_oms_synthetic_evidence.py:294-334 | no two results of the two phases share a challenge |
| `EvidenceCorrelation.DeniedIsSilent` | workers/scripts/collect_oms_synthetic_evidence.py:207-334 | a denied tuple's peer counter is the same at the end of calibration and at the end of the restricted phase |
| `EvidenceCorrelation.EventsApart` | workers/scripts/collect_oms_synthetic_evidence.py:295-342 | no listener event that answers a calibration result comes more than 0.75 seconds, the sum of the tolerances, after one that answers a restricted result |
| `EvidenceCorrelation.RestrictedEnforced` | workers/scripts/collect_oms_synthetic_evidence.py:113-353 | if accepted, both snapshots of the restricted phase accept an output packet iff its tuple is permitted, accept replies only on input, and forward nothing |
| `EvidenceReference.AcceptedExactly` | workers/scripts/collect_oms_synthetic_evidence.py:113-353 | evidence is accepted iff it is correlated, a condition without tables: every time bound, place and policy spelled out, each probe right by itself, no challenge shared, and each listener event carrying the challenge of a granted probe |
| `EvidenceOutcomes.RestrictedOutcomes` | workers/scripts/collect_oms_synthetic_evidence.py:294-343 | if accepted, a restricted probe reports RESPONSE_MATCHED iff it goes to an allowed address on a port other than 5432, and iff a listener event carries its challenge; every other reports NO_RESPONSE_UNVERIFIED after at least 0.9 seconds |
| `EvidenceOutcomes.CalibrationOutcomes` | workers/scripts/collect_oms_synthetic_evidence.py:294-343 | if accepted, every calibration probe reports RESPONSE_MATCHED and a listener event carries its challenge |
| `EvidenceOutcomes.ProbesCounted` | workers/scripts/collect_oms_synthetic_evidence.py:320-328 | if accepted, the target counted packets and at least a header of bytes each for every probe, and the peer's counter moved iff the probe was to reach it |
| `EvidenceOutcomes.ProbesTimed` | workers/scripts/collect_oms_synthetic_evidence.py:303-312 | if accepted, probes ran one after the other, each at most 1.1 seconds, all within 16 |
| `EvidenceOutcomes.RestrictedTarget` | workers/scripts/collect_oms_synthetic_evidence.py:113-353 | if accepted, the target before and after the restricted phase lets out exactly the permitted tuples |
| `Envelopes.IssuedVerifies` | api/services/paperclip_envelope.py:138-260 | an issued text is accepted iff issued_at <= now < issued_at + lifetime and everything the verifier insists on is what the request asked for, in terms of the request; the lifetime is the requested one within 1 and the signer's maximum |
| `Envelopes.IssuedSays` | api/services/paperclip_envelope.py:138-196 | the issued text, read back, has each field equal to the request's own field, the given nonce and clock, an expiry one lifetime later, the version, and the signature of all that |
| `Envelopes.Lifetime` | api/services/paperclip_envelope.py:156 | the requested lifetime when the signer grants it, 1 when it is below, the signer's maximum when it is above |
| `Envelopes.LongestLifetime` | api/services/paperclip_envelope.py:109 | a signer's maximum is what it was configured with within 1 and 300 |
| `Envelopes.IssueRefused` | api/services/paperclip_envelope.py:154-155 | nothing is issued iff the purpose is neither proposal nor grant |
| `Envelopes.MismatchNamed` | api/services/paperclip_envelope.py:198-231 | a refusal names a property that is indeed not met |
| `Envelopes.IdsRoundTrip` | api/services/paperclip_envelope.py:47-95 | tenant, agent, policy, proposal and grant are read back from under their own keys |
| `Envelopes.TextsRoundTrip` | api/services/paperclip_envelope.py:47-95 | the text fields are read back from under their own keys |
| `Envelopes.TextRoundTrip` | api/services/paperclip_envelope.py:68-95 | verifying the text of any envelope is verifying the envelope |
| `Envelopes.DocumentRoundTrip` | api/services/paperclip_envelope.py:47-95 | reading the document of an envelope gives the envelope back, optional fields included |
| `Envelopes.SignatureBindsContents` | api/services/paperclip_envelope.py:111-136 | with an injective signature, an accepted text carrying an envelope's signature is that envelope in every field |
| `Envelopes.AcceptedIsStrict` | api/services/paperclip_envelope.py:233-260 | an accepted text is the unpadded encoding of what was read of it iff it is strict: URL-safe symbols alone, no lone last symbol, no spare bits |
| `Envelopes.LenientText` | api/services/paperclip_envelope.py:233-260 | the text of any envelope with four foreign characters in front is not strict, is not its text, and is verified just like it |
| `Envelopes.IdTrip` | api/services/paperclip_envelope.py:47-66 | an identifier is read back from its grouped text |
| `Envelopes.KeysSorted` | api/services/paperclip_envelope.py:68-70 | the keys of a document are written in code point order |
| `EnvelopeJson.DocumentTextTrip` | api/services/paperclip_envelope.py:68-95 | a document is read back from its compact JSON text, whatever order its keys are written in |
| `EnvelopeJson.CharsTrip` | api/services/paperclip_envelope.py:68-70 | every string is read back from its ASCII escapes, surrogate pairs included, section 7 of RFC 8259 |
| `Base64Strict.StrictExactly` | api/services/paperclip_envelope.py:244-247 | for every text and every bytes it is read as: the text is the bytes' unpadded encoding iff it is strict |
| `Base64Strict.NotStrict` | api/services/paperclip_envelope.py:244-247 | the text QR is read as the byte 65, whose encoding is QQ |
| `Base64Strict.ForeignIgnored` | api/services/paperclip_envelope.py:244-247 | four foreign characters in front of any text change nothing that is read of it, and the text is not strict |
| `Base64Strict.SpareBitsIgnored` | api/services/paperclip_envelope.py:244-247 | two symbols are read as a byte whatever the spare bits of the second, and are its encoding iff those bits are zero |
| `Base64Url.UnpaddedRoundTrip` | api/services/paperclip_envelope.py:68-95 | encode, drop padding, re-pad, decode is the identity on every byte string, sections 3.2 and 5 of RFC 4648 |
| `Base64Url.RepaddedStripped` | api/services/paperclip_envelope.py:244-247 | re-padding by (-length mod 4) undoes the removal of padding |
| `Base64Url.DecodeEncode` | api/services/paperclip_envelope.py:68-70 | the lenient reader undoes encoding for every byte string, sections 4 and 5 of RFC 4648 |
| `TickModel.TickBounded` | workers/src/zippy_workers/loop_guardian.py:41-78 | over any task list a tick runs at most max_tool_calls tools and each identical call at most max_repeat_threshold times, and never raises |
| `TickModel.TickSettles` | workers/src/zippy_workers/kernel.py:219-237 | each task is settled by exactly one complete or fail, in order, and the spend equals the completions |
| `TickModel.NeverIllegal` | workers/src/zippy_workers/executor.py:47-98 | whatever guardian and tool do, a run ends in a terminal state and never attempts an illegal transition |
| `TickModel.CalledExactly` | workers/src/zippy_workers/loop_guardian.py:41-78 | a task's tool runs iff it has a handler, a type, and both limits have room |
| `TickAnswers.CompletedExactly` | workers/src/zippy_workers/executor.py:47-88 | a task is completed and paid for iff its tool was called, returned, and its output holds neither marker key nor a text that owns up to being made up |
| `TickAnswers.FailedExactly` | workers/src/zippy_workers/kernel.py:219-237 | every other task is failed with the message of its own cause, spelled out |
| `TickAnswers.AdmittedExactly` | workers/src/zippy_workers/loop_guardian.py:41-78 | a call is admitted iff authorized, below the cap, valid, believable, enabled and proposed fewer times than the threshold, and each refusal has its own condition |
| `TickAnswers.CountedExactly` | workers/src/zippy_workers/loop_guardian.py:41-78 | a proposal is counted iff it got as far as the repeat check, a call iff it was admitted |
| `TickAnswers.TrimmedBetween` | workers/src/zippy_workers/executor.py:121 | stripping removes exactly the spaces at both ends |
| `TickAnswers.LowerIgnoresCase` | workers/src/zippy_workers/executor.py:121 | the comparison ignores case |
| `TickKernel.RunOneTick` | workers/src/zippy_workers/kernel.py:204-240 | the loop makes exactly the calls of the tick and one beat, settles every task once in order, spends what it completes, and keeps both bounds |
| `TickKernel.LoopGuardian.Admit` | workers/src/zippy_workers/loop_guardian.py:41-78 | verdict and counters are those of the admission the tick theorems are about: a refusal for budget, authority or payload counts nothing, a repetition beyond the threshold is blocked |
| `TickKernel.LoopGuardian.ResetTick` | workers/src/zippy_workers/loop_guardian.py:32-34 | clears both counters |
| `TickKernel.Executor.Run` | workers/src/zippy_workers/executor.py:47-88 | result, guard and tool call are those of the run the tick theorems are about, and an intervention is recorded exactly for failed and blocked ends |
| `TickKernel.Executor.FinishWith` | workers/src/zippy_workers/executor.py:91-98 | checks the transition and records an intervention for failed and blocked ends |
| `TelemetryAdapter.CountersConserve` | workers/src/zippy_workers/telemetry_adapter.py:128-156 | in every run of an enabled adapter: attempts = emitted + three drop counters + sink failures, and the sink received what was emitted |
| `TelemetryAdapter.DisabledIsSilent` | workers/src/zippy_workers/telemetry_adapter.py:128-130 | a disabled adapter counts nothing and sends nothing |
| `TelemetryAdapter.ReceivedIsSafe` | workers/src/zippy_workers/telemetry_adapter.py:138-154 | every event a sink receives has only permitted keys and no secret-looking string at any depth |
| `TelemetryAnswers.EndsExactly` | workers/src/zippy_workers/telemetry_adapter.py:128-156 | how each attempt ends, by the names and values of its event: unsampled, with a field that does not survive, with a name that is only restricted, at a failing sink, or emitted |
| `TelemetryAnswers.CountersName` | workers/src/zippy_workers/telemetry_adapter.py:128-156 | in every run each counter of an enabled adapter counts the attempts that ended its own way |
| `TelemetryAnswers.ProhibitedStaysHome` | workers/src/zippy_workers/telemetry_contract.py:61-128 | an event with a field of any listed prohibited name, in any case and spacing, is never emitted |
| `TelemetryAdapter.Adapter.TryEmit` | workers/src/zippy_workers/telemetry_adapter.py:128-156 | updates exactly the counter of the attempt's ending and sends exactly the redacted event |
| `TelemetryModel.SentIsSafe` | workers/src/zippy_workers/telemetry_redaction.py:68-120 | an event that may be sent keeps its keys and loses every secret-looking string |
| `TelemetryModel.SendableExactly` | workers/src/zippy_workers/telemetry_redaction.py:68-108 | an event may be sent iff each key is permitted and no top-level value looks like a secret |
| `TelemetryModel.AcceptedWhole` | workers/src/zippy_workers/telemetry_redaction.py:68-108 | an event is accepted iff no field is dropped, and then all fields are kept, redacted, in order |
| `TelemetryAnswers.RedactedExactly` | workers/src/zippy_workers/telemetry_redaction.py:68-108 | an event is accepted iff every name is permitted or restricted, no value of its own looks like a secret, and a restricted text is an identifier; its own texts are then unchanged |
| `TelemetryAnswers.SecretExactly` | workers/src/zippy_workers/telemetry_redaction.py:43-54 | a text looks like a secret iff it has eight characters and begins like a key, has a dot after its last at-sign, or is a long path with a dot |
| `TelemetryModel.RedactHides` | workers/src/zippy_workers/telemetry_redaction.py:111-120 | redaction leaves no secret-looking string at any depth |
| `TelemetryModel.RedactChanges` | workers/src/zippy_workers/telemetry_redaction.py:111-120 | redaction is the identity exactly on values with no such string |
| `TelemetryModel.RedactTwice` | workers/src/zippy_workers/telemetry_redaction.py:111-120 | redaction is idempotent |
| `TelemetryModel.Redacting` | workers/src/zippy_workers/telemetry_redaction.py:68-108 | the loop keeps the permitted fields redacted and in order, and reports the keys it dropped by reason |
| `TelemetryModel.ValidateFields` | workers/src/zippy_workers/telemetry_contract.py:169-175 | the loop reports, in order, exactly the keys that are not permitted, each with its class, and accepts iff every key is permitted |
| `TelemetryModel.NoViolations` | workers/src/zippy_workers/telemetry_contract.py:169-175 | the report is empty iff every key is permitted |

## Left out

- ProviderCircuit.LatchIsCrashSafe: permit tokens are fresh by assumption, as random 128-bit values are in practice; ownership, mode and link-count checks are among the faults that may end any step without effect; the three existence checks of `reserve` are one step here and three in `CircuitCalls`, where the refusal reasons are; a short write is a torn body.
- RunnerHistories.NoRunAfterLostPermit: for invocations that had been granted a permit; one refused before leaves no such trace, as `RefusedStopsNobody` shows.
- RunnerHistories.CleanFinishOf: gives the history in which nobody else interferes with the lock and nothing fails; that it is the one a scheduler picks is not claimed.
- SyntheticRunner.GrantsBoundRuns: the conditions a grant is validated against (bindings, window, limits, evidence references) and the capability check are the parameters `approved` and `authorized`; the shipped registry is empty. The asynchronous provider run is its report.
- CircuitCalls.StateDirectory.Reserve: the token is an argument instead of being drawn inside.
- ReferenceRuns.RetryIsStable: covers orders with a non-empty id, which is exactly when the code replays; a fingerprint is the value it is computed from, so distinct payloads never collide; the seeds and the outbox pair are not retried.
- ReferenceConservation.RunWf: for a non-negative cap; grants are inserted by a seed command, since no method of the program inserts them.
- ReferencePrototype.Prototype.Payment: the body arrives as parsed fields, so malformed JSON and an unexpected key set (`BAD_EVENT`) are not modelled.
- `read_order` of the reference store only reads and is not modelled.
- NftMeaning.ShapeSound: limits or other matches whose answer depends on earlier packets are not expressible, a match is a function of the packet; objects with several keys and rows without a name, chain or expression list are one unexpected kind of item.
- NftSnapshot.SnapshotIdentity: the sorted list of rendered objects is a multiset, which is equal exactly when the list is.
- `policy_bytes` and `digest` only render and hash the policy.
- PayloadFloats.TextDetermines: a float is given by its positional numeral; lone surrogates, on which the program's UTF-8 conversion fails, are not characters here.
- FloatNumerals.ValueCollision: a float is given by its shortest digits, at most 17, and its point; how these are found from its bits is not modelled.
- FinanceRuns.RunWf: one platform and one provider; a receipt is identified by its event id and a refund request by its idempotency key; evidence hashes, logs, outbox and exception rows, processing status, attempt counts, notes and provider payment ids are not kept; amounts are minor units, so amounts with a fraction of a minor unit cannot be stated.
- FinanceConvergence.LateBinding: equality is of the modelled tables, so generated ids, evidence hashes, logs and the outbox are aside.
- FinanceConvergence.RepeatsAddNothing: the outbox is not part of the model; a re-driven receipt may well add outbox rows.
- Proof of delivery, settlement, partner and move references, `lock_financial_request` and `sweep_stale_receipts` of the finance repository: single-row updates and a bounded sweep over `reprocess_receipt`.
- DispatchLocks.DispatchSafety: eligibility is checked when an offer is created and is not modelled, so nothing is said about vehicle or driver exclusivity; the remaining table guards on an assignment are the answer `admissible` of the serial command and a `Quit` of the machine; events and the outbox are not kept; waiting on a unique index is not a step.
- DispatchProgress.AcceptanceCommits: for a process that finds its locks free; fairness among waiting transactions is not modelled.
- DispatchRepository.Repository.TransitionOrder: the database function moves an order only from the expected status; its transition rules, history rows and idempotent replay, which answers with the present status, are not modelled.
- RankDisplacement.DisplacementBounds: for a granted capability and a positive timeout, the only case in which there is a comparison; task scheduling, deadlines and cancellation are the outcome of the agent, and candidate features play no part in the result.
- ReviewRuns.RunWf: the checks in the snapshot constructor and time zones are not modelled; the capability check inside the comparison is a parameter.
- EvidenceCheck.Evaluate: the header checks that compare scalars with constants (units, status words, process identity, limits, manifest hashes, restoration) are the booleans named `sound`; loading, file modes and JSON parsing are left out; times are reals on one clock.
- Envelopes.FromDocument: field values of types other than string, integer and null are malformed at once here; in the program such a field may be refused later and under another code.
- Envelopes.IssuedVerifies: the clock and the nonce are arguments; the length of the signing key, checked by the constructor, is not modelled.
- Envelopes.Verify: a signature text with a character outside ASCII makes the program's comparison raise a type error; the model answers that the signature is invalid.
- Envelopes.SignatureBindsContents: assumes an injective signature; nothing is said about what an attacker can compute.
- TickModel.TickSettles: a task source whose own calls raise is not modelled; elapsed times and intervention details are not kept.
- TickModel.TickBounded: the 96-bit truncated hash that counts repetitions is taken to be injective.
- TelemetryModel.RedactHides: values are JSON-shaped; keys of nested objects are not leaves and are not redacted by the program either.
- TelemetryAdapter.CountersConserve: the random draw is an argument of the attempt; trace and span contexts and `scrub_metadata` are not modelled.
- FinanceRepository.Repository.ProjectPayment: generated ids, evidence hashes, logs, outbox and exception rows are not kept.
- FinanceRepository.Repository.ReconcileRefund: generated ids, logs and exception rows are not kept.
- FinanceRepository.Repository.ProjectEvent: logs, outbox and exception rows of the projections are not kept.
- FinanceRepository.Repository.IngestGatewayEvent: payload hashes, generated ids, logs and outbox rows are not kept.
- FinanceRepository.Repository.ReprocessReceipt: logs, outbox and exception rows are not kept.
- FinanceRepository.Repository.PreparePaymentIntent: hashes, generated ids, logs and outbox rows are not kept.
- FinanceRepository.Repository.RequestRefund: generated ids, logs and outbox rows are not kept.
- FinanceRepository.Repository.DecideRefund: generated ids, logs and outbox rows are not kept.
- FinanceRepository.Repository.RecordRefundExecution: generated ids, logs and outbox rows are not kept.
- DispatchRepository.Repository.AcceptDispatchOffer: authorization and the remaining guards of the assignment table are boolean arguments; events and outbox rows are not kept.
- DispatchRepository.Repository.ResolveOffer: authorization is a boolean argument; the recorded event is not kept.
- ReviewStore.FakeReviewStore.BeginCreate: time zones and the checks that only built-in fixture types are passed are not modelled.
- EvidenceCheck.CheckPhase: the scalar fields of the phase header are the boolean `sound` of the phase.
- EvidenceCheck.CheckListener: the scalar fields of the listener header are the booleans `sound`.
- TickKernel.RunOneTick: elapsed times and the details of interventions are not kept, and the task source does not raise.
- TickKernel.Executor.Run: the elapsed time in the output and the details of an intervention, which are functions of its state and reason, are not kept.
- HTTP routes, authentication, connection handling, deployment scripts, notifications, document recognition, pricing and the governance database: input and output plumbing or functions that are not in the repository.
