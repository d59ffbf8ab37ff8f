# Verification model of the Hivenet router

The Hivenet router accepts OpenAI-style requests, checks the caller's key and quota, admits the request against a
token budget, picks an agent by policy, waits for capacity where that helps, and forwards the request. This project
models the parts of it whose correctness depends on many steps together, and proves what they keep.

`dafny verify dfyconfig.toml` checks everything; each file is one module.

- **Durable key registry** (`KeyEntry`, `RecordKeys`, `KeyStore`, `KeyStoreLaws`, `KeyRegistry`, `KeyDurability`,
  `KeyRules`, `KeyPromises`, `KeyKept`, `KeyFailures`). Two in-memory indexes over a generational store. Every store
  call takes a *fuse*: that many atomic changes reach the disk, then the call fails; a crash inside a call leaves the
  disk some fuse leaves. Runs mix mutations, failures, background rewrites, crashes and warm starts. Results: what is
  accepted and installed, in plain terms and both ways, durability over whole runs, deletes that stay deleted, the exact condition under which an acknowledged key stays, all-or-nothing
  generation switches, provenance of the confirmation time. Two promises have exceptions, each with an exact condition
  and a run that shows it: after a warm start whose cleanup of skipped records failed, a full replace equal to memory
  leaves them live, and a key set under the hash of such a record is displaced by it at the next warm start that admits
  both and lists the record first.
- **Occupancy budget** (`Admission`, `Occupancy`, `OccupancySweep`). The classes are the code's methods; the step
  systems interleave their locked sections. Results: conservation, no lost wake-up, the budget bound, and the exact
  condition under which evicting idle states is safe: no call keeps trying longer than the janitor's time to live.
- **Capacity queue** (`WaitQueue`, `WaitQueueRuns`). Results: conservation of wakes, line order and the bound over every
  interleaving of waits, signals, broadcasts and cancellations.
- **Routing session** (`Evaluator`, `Funnel`, `Session`, `AgentSlots`). The seven-gate funnel, the cursor over
  fallback steps and the dispatch loop around it. What the rest of the router answers (agents as read, wake-ups, the
  strategy's pick, whether the slot was still free, how a forward ended) is a script that every theorem quantifies
  over, so every finite run is covered. An agent's reads during one pass are one view; views are arbitrary, so changes
  made meanwhile by others are covered.
- **Policy documents** (`PolicyIndex`, `PolicyReload`). The derived indexes, the directory load and the merge a reload
  makes of loaded and held documents. Claims stay disjoint over every update sequence exactly when no reload meets a
  clash, and two runs show how one can; the derived maps cannot depend on map order exactly when no model is routed in
  two ways; a claimed model keeps its document exactly when no kept file reuses a stem.
- **JSON model splice** (`Json`, `Splice`, `SpliceLaws`, `ModelBinding`). A concrete syntax tree for the grammar of
  RFC 8259, sections 2 to 7; the byte scanner proved against a token reader, and the token reader against the tree. The
  splice matches the key exactly, the handlers' decoder up to case; `ModelBinding` says exactly when they agree.
- **Daily token quota** (`QuotaKeys`, `Quota`, `QuotaSteps`, `QuotaBound`, `QuotaQuiet`, `QuotaRuns`, `QuotaLimit`).
  The limiter as a class, and one bucket of it as a system of atomic steps in which counters and once-gates live on
  for those who hold them. `QuotaQuiet` lists fourteen failing branches, each a test on the state at one step. The
  limit holds in every interleaving exactly when none of them is taken, save two that are harmless apart; a run for
  each shows why. With all of them, a bound by explicit losses; what a crash costs, with an exact condition.
- **Estimates** (`Quantile`, `RoundTrip`). Over reals.

An acknowledgement is durable only from a process with a store: a memory-only or degraded process acknowledges without
one, as the code does, and a run shows a delete acknowledged that way coming back.

Where a comment in the code promises more than the code keeps, the model follows the code: the controller's comment
that an evicted idle state cannot be told from a kept one (`internal/admission/controller.go:101-111`) holds exactly
under the condition above; an acknowledged full replace may leave skipped records live; a policy file that reuses the
stem of another replaces its document but not its claims; the comment that conflicting documents never reach the index
(`internal/policy/executor.go:102-104`) holds exactly for reloads without a clash; the comments on the quota's sweep
and preload hold exactly for runs without the harmful branches listed in `QuotaQuiet`; the splice's comment on the key
the decoder reads (`internal/api/alias.go:275-283`) holds for bodies without other spellings of the key.

## Model

| member | source | states |
|---|---|---|
| KeyDurability.DurabilityOverRuns | internal/auth/key_store.go:384-468 | In every state of every run of mutations, failed and half-done writes, background rewrites, shutdowns, crashes inside and between calls, and warm starts, what a restart would read is a registry memory held at or after the last acknowledged mutation, or one a warm start was about to install when it died removing skipped records, plus at most skipped records a warm start failed to remove; a clean process equals the disk, a dirty one has a repair pending |
| KeyDurability.CleanedUpRunsAreExact | internal/auth/key_store.go:339-346 | When every installing warm start also got its skipped records removed, that registry is on disk exactly |
| KeyDurability.InvAlongRun | internal/auth/key_store.go:384-468 | The run invariant holds in every reachable state, and no registry in the history gives one hash to two ids |
| KeyDurability.StepKeepsInv | internal/auth/key_store.go:384-468 | Every kind of step keeps the run invariant |
| KeyDurability.MutateKeepsInv | internal/auth/dynamic_key.go:221-394 | A mutation keeps it however its write ends and wherever the process dies in it |
| KeyDurability.RetryKeepsInv | internal/auth/key_store.go:430-468 | A background rewrite keeps it and never moves the confirmation time |
| KeyDurability.RestartKeepsInv | internal/auth/key_store.go:249-363 | A warm start keeps it: restored, discarded or failed, with or without the cleanup of skipped records |
| KeyDurability.WriteLaw | internal/auth/key_store.go:384-409 | An accepted mutation's write leaves the old live registry or the new one up to leftovers; only a full replace moves the confirmation time |
| KeyDurability.RewriteLaw | internal/auth/key_store.go:411-414 | A full rewrite of the registry is live completely or not at all, and must be when it reports success |
| KeyPromises.AcknowledgedDeleteStaysGone | internal/auth/dynamic_key.go:281-312 | A delete acknowledged by a process with a store never comes back in memory or on disk, through any later failures, crashes and warm starts, until a mutation adds the id again |
| KeyPromises.GoneStaysGone | internal/auth/key_store.go:384-468 | No step but one that adds the id brings a gone id back |
| KeyKept.AcknowledgedKeyStays | internal/auth/dynamic_key.go:221-394 | A key whose setting, alone or within a full push, a process with a store acknowledged stays on disk and in the memory of every later process with a store, through any failures, repairs, crashes, leftovers, refused mutations, full pushes that carry it and warm starts, while no accepted mutation replaces or removes it and every warm start admits it and no record with its hash listed before it |
| KeyKept.KeptAlongRunIff | internal/auth/dynamic_key.go:221-394 | An acknowledged key is held all along a run if and only if no step of the run touches it |
| KeyKept.KeptIffUntouched | internal/auth/key_store.go:249-468 | A step keeps a held key if and only if it does not touch it: it is no accepted mutation that leaves it out or changes it, and no warm start that can read the disk and finds the snapshot too old, refuses the key or restores a record with its hash listed before it |
| KeyKept.StepKeepsHeld | internal/auth/key_store.go:384-468 | No step that does not touch the key loses it, whatever leftovers are around |
| KeyKept.WarmStartKeeps | internal/auth/key_store.go:298-355 | A warm start that admits the key, and no record with its hash listed before it, keeps it on disk and puts it into memory |
| KeyFailures.LeftoverDisplacesAcknowledgedKey | internal/auth/key_store.go:328-345 | Counterexample run, for any two keys of one hash where the leftover's id sorts first: an acknowledged key is skipped as a duplicate of the leftover and its record removed |
| KeyFailures.DegradedDeleteComesBack | internal/auth/key_store.go:196-211 | Counterexample run: a delete acknowledged by a process that lost its store comes back after a restart |
| KeyPromises.ReplaceAllIsExactUnlessLeftovers | internal/auth/dynamic_key.go:341-394 | An acknowledged full replace makes the disk equal the pushed registry if and only if it is not the case that the store is clean, the pushed set equals memory and unrestored records are still live |
| KeyFailures.LeftoverSurvivesReplaceAll | internal/auth/dynamic_key.go:375-394 | Counterexample run, for any key: a skipped record whose cleanup failed is still live after an acknowledged empty replace |
| KeyPromises.TouchRefinesRewrite | internal/auth/key_store_badger.go:405-424 | On a clean store equal to memory, rewriting only the meta record leaves the same live registry, version and times as a whole new generation, generation 0 included |
| KeyPromises.OnlyReplacesConfirm | internal/auth/key_store.go:384-401 | Single-key writes and background rewrites, failed or not, never move the stored confirmation time |
| KeyPromises.AcknowledgedIsStamped | internal/auth/key_store.go:384-409 | An acknowledged mutation leaves its version and its time in the meta cell |
| KeyPromises.ReplaceConfirmsNow | internal/auth/dynamic_key.go:384-393 | An acknowledged full replace confirms the snapshot at its own time |
| KeyPromises.InstalledOnlyIfConfirmedAndYoung | internal/auth/key_store.go:269-296 | With a max age, in every run, a snapshot is installed only if its last write and its confirmation are within that age and the confirmation is the time of a real full replace since the last completed reset |
| KeyPromises.WarmStartInstallsIff | internal/auth/key_store.go:276-296 | A warm start that can read a good meta cell installs the snapshot if and only if there is no max age, or it was confirmed and neither its last write nor its confirmation is older than that |
| KeyPromises.WarmStartRestoresIff | internal/auth/key_store.go:298-355 | In every reachable state, leftovers included, an installing warm start restores exactly the stored keys that have no expiry or one after now and that the admission check takes, if and only if no two of those share a hash; the version is always restored |
| KeyPromises.NoLeftoversNoClash | internal/auth/key_store.go:328-346 | Without leftovers no two stored keys share a hash |
| KeyPromises.VersionNeverDecreases | internal/auth/dynamic_key.go:221-394 | Within one process the registry version never decreases, over any run |
| KeyStoreLaws.GenerationSwitchIsAllOrNothing | internal/auth/key_store_badger.go:426-479 | Stopping anywhere in a rewrite leaves what Load sees unchanged or exactly the complete new registry, also when an unusable meta reset the counter while other generations remain |
| KeyStoreLaws.UncommittedIsInvisible | internal/auth/key_store_badger.go:433-468 | A rewrite that stopped before the meta write changes nothing Load sees |
| KeyStoreLaws.CommittedIsComplete | internal/auth/key_store_badger.go:459-479 | Once meta points at the new generation Load sees exactly the new entries, however much of the old one is deleted |
| KeyStoreLaws.UpsertLaw | internal/auth/key_store_badger.go:329-354 | A stored upsert changes that key and the version in the live registry, or nothing |
| KeyStoreLaws.DeleteLaw | internal/auth/key_store_badger.go:358-377 | A stored delete removes that key from the live registry and sets the version, or changes nothing |
| KeyStoreLaws.TouchLaw | internal/auth/key_store_badger.go:405-424 | A touch changes version and times only |
| KeyStoreLaws.ResetLaw | internal/auth/key_store_badger.go:390-400 | A reset leaves the live registry unchanged or empty, and empty and unconfirmed when it succeeds |
| KeyStoreLaws.LoadLaw | internal/auth/key_store_badger.go:224-325 | Load brings the fields in line with the meta record and removing other generations changes nothing live |
| KeyStoreLaws.ReadsBack | internal/auth/key_store_badger.go:207-214 | A generation filled from valid entries reads back as exactly those entries |
| KeyStore.BadgerKeyStore.WriteGeneration | internal/auth/key_store_badger.go:426-479 | Ends uncommitted or committed as the relation says, for any point of failure; succeeds exactly when every atomic change does |
| KeyStore.BadgerKeyStore.FillGeneration | internal/auth/key_store_badger.go:433-457 | Leaves only old or newly sealed records in the target generation, touches no other, and fills it exactly on success |
| KeyStore.BadgerKeyStore.DeletePrefix | internal/auth/key_store_badger.go:496-509 | Removes some, on success all, records of one generation and no other |
| KeyStore.BadgerKeyStore.DeleteKeys | internal/auth/key_store_badger.go:511-523 | A batch delete that may stop anywhere: only the given keys go, all of them exactly when it succeeds |
| KeyStore.BadgerKeyStore.Upsert | internal/auth/key_store_badger.go:329-354 | The whole new store state, first write into generation 1 included |
| KeyStore.BadgerKeyStore.Delete | internal/auth/key_store_badger.go:358-377 | The whole new store state, first write included |
| KeyStore.BadgerKeyStore.Touch | internal/auth/key_store_badger.go:405-424 | The whole new store state, first write included |
| KeyStore.BadgerKeyStore.Reset | internal/auth/key_store_badger.go:390-400 | The whole new store state; a failure puts the in-memory confirmation time back |
| KeyStore.BadgerKeyStore.DeleteRecords | internal/auth/key_store_badger.go:483-494 | Removes only the named live records, and all of them on success |
| KeyStore.BadgerKeyStore.Load | internal/auth/key_store_badger.go:224-325 | Read error, fresh, unusable or a snapshot listing every live record once in the order of the ids; read errors exactly when reading fails; every record of another generation goes when the writes succeed |
| KeyStore.ListRecords | internal/auth/key_store_badger.go:273-310 | Lists every record of the live generation exactly once, in the byte order of the ids |
| RecordKeys.PrefixSelectsGeneration | internal/auth/key_store_badger.go:166-168 | A record key has a generation's prefix exactly when it belongs to it, and no two (generation, id) pairs share a key, whatever the id contains |
| KeyEntry.Normalize | internal/auth/dynamic_key.go:173-214 | What it accepts is valid and differs from the input only in the hash, which is lowercased |
| KeyEntry.ValidIsNormal | internal/auth/dynamic_key.go:173-214 | An entry is accepted unchanged exactly when it is valid |
| KeyRules.EntryAcceptedIff | internal/auth/dynamic_key.go:173-214 | An entry is accepted exactly when id, owner and name are set, the hash is 64 hexadecimal digits in any case, the share is between 0 and 1, no bucket is negative and no per-model block is empty |
| KeyRules.HashesAgreeUpToCase | internal/auth/dynamic_key.go:180-188 | Accepted entries get equal hashes exactly when theirs agree up to case |
| KeyEntry.WireRoundTrip | internal/auth/key_store_badger.go:526-580 | An entry reads back from its stored form unchanged exactly when it has no empty per-model map |
| KeyRegistry.DynamicKeyProvider.UpsertKey | internal/auth/dynamic_key.go:221-274 | Refused with nothing changed, or applied to both indexes (hash rotation included) and then written; the indexes stay one registry |
| KeyRegistry.JudgeUpsert | internal/auth/dynamic_key.go:221-240 | Refuses an upsert exactly when the plain map would, for the same reason, by looking the hash up in one index |
| KeyRules.UpsertAcceptedIff | internal/auth/dynamic_key.go:221-266 | An upsert is accepted exactly when the entry is, the version is the current or a later one and no other id holds the hash; it then sets that id and nothing else |
| KeyRegistry.DynamicKeyProvider.DeleteKey | internal/auth/dynamic_key.go:281-312 | The same for a delete |
| KeyRules.DeleteAcceptedIff | internal/auth/dynamic_key.go:281-312 | A delete is accepted exactly when it names an id and is not older; only that id goes |
| KeyRegistry.DynamicKeyProvider.ReplaceAllKeys | internal/auth/dynamic_key.go:341-394 | The same for a full replace, which takes the meta-only shortcut exactly when the set is unchanged and the store clean |
| KeyRegistry.JudgePush | internal/auth/dynamic_key.go:341-374 | Refuses a full push exactly when the plain map would, for the same reason; otherwise its two indexes are one registry |
| KeyRules.PushAcceptedIff | internal/auth/dynamic_key.go:341-382 | A full push is accepted exactly when every entry is, no two share an id or a hash and it is not older; the registry is then exactly what was pushed |
| KeyRules.ReplayIsAccepted | internal/auth/dynamic_key.go:216-231 | Replaying an accepted mutation, at its own version, is accepted and changes nothing |
| KeyRegistry.DynamicKeyProvider.Persist | internal/auth/key_store.go:384-409 | Writes the mutation, or the whole registry when dirty; a failure leaves the link dirty with a repair pending |
| KeyRegistry.DynamicKeyProvider.Write | internal/auth/key_store.go:384-401 | The store write that fits the mutation and the dirty flag; succeeds when the disk does |
| KeyRegistry.DynamicKeyProvider.Rewrite | internal/auth/key_store.go:411-414 | A full rewrite of exactly the registry in memory |
| KeyRegistry.DynamicKeyProvider.MarkDirty | internal/auth/key_store.go:416-426 | Dirty, and a repair loop runs unless closed |
| KeyRegistry.DynamicKeyProvider.RetryOnce | internal/auth/key_store.go:430-468 | One pass of the repair loop: the registry is rewritten without confirming it, and stays dirty exactly when that fails |
| KeyRegistry.DynamicKeyProvider.LoadKeyStore | internal/auth/key_store.go:249-363 | The warm start as the relation says; a read error exactly when reading fails, nothing stored exactly without a meta cell, and with a good one installed exactly when there is no max age or the snapshot was confirmed and neither its last write nor its confirmation is older than that |
| KeyRegistry.DynamicKeyProvider.UseSnapshot | internal/auth/key_store.go:262-362 | The same for a loaded snapshot: failed, nothing, discarded or installed, the age rule written out |
| KeyRegistry.DynamicKeyProvider.Install | internal/auth/key_store.go:298-363 | Every stored record is restored or skipped for a reason, both indexes agree, the version never goes back |
| KeyRegistry.DynamicKeyProvider.Discard | internal/auth/key_store.go:269-296 | A snapshot not restored is wiped; discarded exactly when the wipe succeeds |
| KeyRegistry.DynamicKeyProvider.Authenticate | internal/auth/dynamic_key.go:123-167 | Succeeds exactly when some current entry carries the hash, is enabled and has no expiry or one after now; returns that entry |
| KeyRegistry.ExpiryIsFinal | internal/auth/dynamic_key.go:156-158 | A key expires at one moment: before it never, from then on always |
| KeyRegistry.DynamicKeyProvider.Close | internal/auth/key_store.go:172-189 | Closes the link, once |
| KeyRegistry.DynamicKeyProvider.Degrade | internal/auth/key_store.go:196-211 | Drops the store and starts empty |
| KeyRegistry.CheckDuplicates | internal/auth/dynamic_key.go:315-329 | Accepts a list exactly when no id and no hash repeats |
| KeyRegistry.EntriesOf | internal/auth/dynamic_key.go:91-108 | Lists every entry of the registry exactly once |
| KeyRegistry.BuildIndexes | internal/auth/dynamic_key.go:350-366 | Builds both indexes from a list |
| KeyRegistry.BuiltIndexesAgree | internal/auth/dynamic_key.go:347-366 | Indexes built from a list without repeats hold the same entries |
| KeyRegistry.Restore | internal/auth/key_store.go:298-335 | The restore loop: first come, first kept among records that share a hash |
| KeyRegistry.RestoreAllRestores | internal/auth/key_store.go:298-335 | The loop restores or skips every record, and skips only an unreadable, invalid, expired or refused one or one whose hash a kept entry listed before it has |
| KeyRegistry.RestoredIndexesAgree | internal/auth/key_store.go:298-335 | After the loop both indexes hold the same entries and nothing is both kept and skipped |
| KeyRegistry.HashLookup | internal/auth/dynamic_key.go:233-241 | A lookup in the hash index answers whether another id already has the hash |
| Occupancy.NoLostWakeUp | internal/admission/controller.go:163-201 | In every interleaving, a call blocked on a channel neither closed nor about to be closed holds the current channel and its request still does not fit; no channel is closed twice |
| Occupancy.OccupancyIsConserved | internal/admission/controller.go:235-300 | At every point of every interleaving the sum and count are those of the reservations not yet handed back, so no clamp to 0 takes effect |
| Occupancy.BudgetHolds | internal/admission/controller.go:235-252 | The sum exceeds the last admitting call's positive budget only by what was charged since; the count never exceeds its positive backstop |
| Occupancy.AttemptIs | internal/admission/controller.go:163-201 | An attempt admits exactly when sum and count leave room; otherwise the call parks on the channel it saw, goes on to look, or is refused when it may not wait or exceeds its own budget |
| Occupancy.GrowthIs | internal/admission/reservation.go:27-38 | Both halves of a growth: a positive amount goes to a reservation that grows and to the sum, or nothing changes |
| Occupancy.CorrectionIs | internal/admission/reservation.go:44-66 | Both halves of a correction: at most what the reservation holds, the same for reservation and sum, a new channel exactly when it falls |
| Occupancy.StepConserves | internal/admission/controller.go:235-300 | Every locked section keeps the conservation law |
| Occupancy.StepKeepsWakeUps | internal/admission/controller.go:185-200 | Every locked section keeps the wake-up invariant |
| Occupancy.StepKeepsBudget | internal/admission/controller.go:235-252 | Every locked section keeps the budget bound |
| Occupancy.ClampsNeverFire | internal/admission/controller.go:256-300 | A release or correction never takes the shared sum or count below 0 |
| OccupancySweep.SweptStateIsUnused | internal/admission/controller.go:113-128 | The janitor's idle check only finds states without a held reservation and without a blocked call |
| OccupancySweep.SweepIsSafeIffCallsArePrompt | internal/admission/controller.go:113-128 | All reservations of a model are always on the state new requests see, if and only if no call keeps trying longer than the janitor's time to live |
| OccupancySweep.PatientCallSplitsTheModel | internal/admission/controller.go:90-128 | Counterexample run: a call that tries for longer leaves two requests in flight under a budget of one |
| Admission.ModelState.TryReserve | internal/admission/controller.go:235-252 | Reserves exactly when there is room, records the limits, and otherwise changes no counter |
| Admission.ModelState.Release | internal/admission/controller.go:256-271 | Hands the weight back, clamped, and closes exactly the replaced channel |
| Admission.ModelState.Adjust | internal/admission/controller.go:284-300 | Corrects the sum, clamped; wakes waiters exactly when it falls |
| Admission.Reservation.Grow | internal/admission/reservation.go:27-38 | Charges reservation and state alike, or neither |
| Admission.Reservation.Adjust | internal/admission/reservation.go:44-66 | Never takes more than the reservation holds, so what others hold stays |
| Admission.Reservation.Release | internal/admission/reservation.go:70-83 | Only the first call has an effect |
| Admission.Controller.StateFor | internal/admission/controller.go:90-100 | The model's one state, created empty if missing, marked active |
| Admission.Controller.SweepIdle | internal/admission/controller.go:113-128 | Drops exactly the empty states last looked up before the cutoff |
| Admission.EffectiveBudget | internal/admission/controller.go:208-217 | 0 stays no limit; otherwise the fraction of the budget rounded down, or 1 where that would be less than 1 |
| Admission.BudgetGrows | internal/admission/controller.go:208-217 | A larger budget or fraction never gives a smaller limit |
| Admission.FitsIffRoomWhenIdle | internal/admission/controller.go:154-157 | Fits answers whether an idle model would have room, and what does not fit never has room |
| WaitQueueRuns.WakesAreConserved | internal/policy/queue.go:103-179 | In every interleaving the wakes asked for are the nil returns plus the wakes in flight plus the Signals that found nobody |
| WaitQueueRuns.EachWaitIsWokenAtMostOnce | internal/policy/queue.go:103-179 | A wait gets at most one send, so no send under the lock can block; a Signal is dropped only on an empty line |
| WaitQueueRuns.LineOrder | internal/policy/queue.go:157-166 | The line is strictly increasing by ticket in every reachable state and Signal wakes the smallest ticket |
| WaitQueueRuns.EarlierRequestStaysAhead | internal/policy/queue.go:103-117 | A request that parks again is ahead of every later arrival, whatever happened in between |
| WaitQueueRuns.LineWithinBound | internal/policy/queue.go:103-117 | In every run the line exceeds its bound at most by the parks of requests that came back or were released from a hold |
| WaitQueueRuns.ParksIff | internal/policy/queue.go:103-117 | A request is turned away exactly when it is new, not released and the line is at its bound; otherwise it is in line under a ticket after all others or under its own |
| WaitQueueRuns.DeliversIff | internal/policy/queue.go:118-153 | A wait can return woken exactly when it is in its select and no longer in line |
| WaitQueueRuns.StepKeepsInv | internal/policy/queue.go:103-179 | Every locked section and channel step keeps the queue invariant |
| WaitQueue.Queue.Enter | internal/policy/queue.go:103-117 | Refused exactly at the bound for a new, unreleased request; otherwise inserted at the ticket's place |
| WaitQueue.Queue.Search | internal/policy/queue.go:115-116 | Binary search: the only place where the ticket keeps the line sorted |
| WaitQueue.Queue.Leave | internal/policy/queue.go:133-153 | Removes this wait and says whether it was still in line |
| WaitQueue.Queue.Signal | internal/policy/queue.go:157-166 | Takes the head of the line |
| WaitQueue.Queue.Broadcast | internal/policy/queue.go:172-179 | Takes everybody, in line order |
| WaitQueue.PlaceIsPlace | internal/policy/queue.go:115-116 | The reference position separates smaller from larger tickets |
| Funnel.FunnelIsAPartition | internal/policy/executor.go:672-705 | The agents that fall at each of the six gates and the candidates account for every listed agent |
| Funnel.OneFate | internal/policy/executor.go:672-705 | Every agent falls at exactly one gate, or survives them all |
| Funnel.FateIs | internal/policy/executor.go:672-705 | An agent falls at the first condition it does not meet: both health flags, capability, the filter fields and tags, earlier failures, load, metric thresholds |
| Funnel.EligibleIff | internal/policy/executor.go:672-705 | An agent is a candidate if and only if it is listed and meets every one of those conditions |
| Funnel.EligibleKeepsOrder | internal/policy/executor.go:672-705 | The candidates are those agents in the order they were listed |
| Funnel.Sift | internal/policy/executor.go:668-705 | The pass over the agents returns the eligible ones in order and counts every other one once, under its gate |
| Funnel.Judge | internal/policy/executor.go:672-705 | One agent is counted under its fate, with a true reason for a match miss and all broken gates for a gate miss |
| Funnel.MatchMisses | internal/policy/executor.go:730-740 | The sum of the misses other than capability does not depend on map order |
| Funnel.Trace | internal/policy/executor.go:748-805 | The trace of an empty result: every gate's pools are the true numbers of survivors, reasons add up to the loss, and the last pool is 0 |
| Evaluator.MatchesFilter | internal/policy/evaluator.go:173-202 | True exactly when every non-empty field and every required tag is met |
| Evaluator.FilterMissReason | internal/policy/evaluator.go:210-239 | Names a real miss, and "unknown" exactly when the agent matches |
| Evaluator.PassesGates | internal/policy/evaluator.go:271-282 | Passes exactly when no present metric breaks its rule, in any map order |
| Evaluator.GateFailReason | internal/policy/evaluator.go:246-267 | Reports exactly the broken gates |
| Session.NoCapacityIff | internal/policy/executor.go:707-726 | After a pass without candidates the reason is "no capacity" exactly when, with that reason already there, some agent is full or gated, or else some agent is full and nobody fell to capability, match or a metric gate |
| Session.ReasonIs | internal/policy/executor.go:707-729 | The reason after a pass without candidates, case by case, from the agents' fates and the reason before |
| Session.ParksOnlyIfWorthWaiting | internal/policy/executor.go:472-510 | A session parks only when some agent is at capacity or excluded by a metric gate, whatever stale reason it carries |
| Session.ParksIff | internal/policy/executor.go:472-510 | Without a candidate a session parks exactly when queueing is on and the reason is "no capacity" by the rule above |
| Session.ChosenIsEligible | internal/policy/executor.go:512-525 | A selected agent was listed, is healthy on both counts, serves the capability, fits the filter, had not failed in the step, has room and breaks no metric rule |
| Session.ChoosesIff | internal/policy/executor.go:512-525 | A turn ends with an agent exactly when some listed one meets every condition and the slot of the one picked is free |
| Session.WaitEnds | internal/policy/executor.go:472-510 | A woken wait tries the step again unchanged, a wait that times out leaves it for want of candidates, a lost slot changes nothing |
| Session.SelectionMoves | internal/policy/executor.go:465-529 | Over a whole selection steps only advance, within a step the failures stay, and an agent it ends with is the candidate its last turn picked among those eligible, with its slot taken |
| Session.FailuresWithinBudget | internal/policy/executor.go:534-574 | Failures charged never exceed the sum over steps of max(1, tries), and reach it only with no step left |
| Session.BudgetIsReached | internal/policy/executor.go:534-574 | A session that left every step for its tries was charged exactly the sum over steps of max(1, tries) |
| Session.FailureKeepsInv | internal/policy/executor.go:534-574 | Charging an agent that had not failed in the step keeps the budget invariant |
| Session.MoveKeepsInv | internal/policy/executor.go:546-574 | Moving on keeps the budget invariant |
| Session.TriesAreAccounted | internal/router/processor.go:417-447 | Every forward that did not end the request is charged or is its agent's one free retry |
| Session.IsFreeIff | internal/router/processor.go:417-447 | A try is free exactly when it lost the connection and no earlier try of the agent did |
| Session.ChargedAre | internal/router/processor.go:417-447 | The failures charged are exactly the tries that are not free, in order |
| Session.Session.constructor | internal/policy/executor.go:361-402 | The primary step and the fallback chain in order, each with its own tries where they are positive and the default otherwise |
| Session.Session.BuildCandidates | internal/policy/executor.go:658-808 | The eligible agents; without any, the reason and the true gate trace |
| Session.Session.TakeTurn | internal/policy/executor.go:469-525 | One pass of the selection loop: select, retry, wait or move on, exactly as the relation says |
| Session.Session.Select | internal/policy/executor.go:465-529 | A sequence of such turns that ends with an agent, with no step left, or still trying |
| Session.Session.RecordFailure | internal/policy/executor.go:534-542 | Leaves the step exactly when the tries reach its maximum; otherwise one more try used and the agent marked failed |
| Session.Dispatch | internal/router/processor.go:271-459 | Over a request's whole dispatch loop every attempt is a try of the agent its own selection picked, each selection starts from the cursor the try before it left; a step left for its tries took exactly max(1, tries) charged failures, one left for want of candidates fewer, the current one as many as the cursor says; no agent is charged twice in a step, none gets a second free retry, forwards are bounded, and on exhaustion there is one diagnosis per step |
| Session.Attempted | internal/router/processor.go:271-459 | One turn of the loop: a selection that ends it, or a try of the agent picked that is charged or is the agent's one free retry |
| AgentSlots.LoadIsSlotsHeld | internal/domain/agent.go:92-109 | In every run with releases matched to slots, an agent's load is the number of its slots held and stays in 0..capacity |
| AgentSlots.Agent.TryAcquireSlot | internal/domain/agent.go:101-109 | Takes a slot exactly when the load is below capacity |
| PolicyIndex.IndexesAreUnique | internal/policy/executor.go:80-117 | With disjoint claims the derived maps are determined by the documents, so map iteration order cannot matter |
| PolicyIndex.RoutingIsUniqueIff | internal/policy/executor.go:106-117 | Every order in which the loop may visit the documents builds the same routing index if and only if no model is routed in two ways |
| PolicyIndex.Executor.EffectivePolicy | internal/policy/executor.go:267-273 | With disjoint claims the one document that routes the model if there is one, else the global policy; with a double claim, one of the claimants |
| PolicyIndex.Executor.SetNamedPoliciesFromSnapshot | internal/policy/executor.go:343-352 | Replaces all documents by any map and rebuilds the indexes |
| PolicyReload.ClaimsStayDisjointIff | internal/router/router.go:1216-1301 | In every run of admin updates and reloads, updates inside a reload included, no model is ever claimed by two documents if and only if no reload meets a clash of a held and a loaded document |
| PolicyReload.ReloadKeepsDisjointIff | internal/router/router.go:1216-1301 | From disjoint claims a reload stores disjoint claims if and only if nothing clashes |
| PolicyReload.EditedFileLosesItsModel | internal/router/router.go:1229-1296 | Counterexample run: an edited file turned away for its provider keeps its old document while a new file takes its model |
| PolicyReload.UnchangedFileIsNotChecked | internal/router/router.go:1254-1296 | Counterexample run: an unchanged file comes back unchecked beside a document set through the admin API |
| PolicyReload.Reload | internal/router/router.go:1216-1301 | The merge of loaded and held documents, as the relation says, in any map order |
| PolicyReload.MergeIsUnique | internal/router/router.go:1216-1301 | The merge leaves no choice: whatever order its passes visit the maps in, the documents stored are the same |
| PolicyReload.StoredIs | internal/router/router.go:1216-1301 | What a reload stores under each stem, written out: the loaded document unless refused or naming an established model, else the held one if its file is there |
| PolicyReload.Validated | internal/router/router.go:1245-1275 | The loaded documents taken: not refused, and unchanged or free of established models |
| PolicyReload.EstablishedOwners | internal/router/router.go:1218-1243 | The models of unchanged files and of held documents whose file is there but did not load |
| PolicyIndex.Executor.SetNamedPolicy | internal/policy/executor.go:280-304 | Refused with a real conflict, and nothing changed, exactly when another document claims one of the models |
| PolicyIndex.Executor.SetPolicy | internal/policy/executor.go:250-255 | Replaces the global policy only |
| PolicyIndex.Executor.DeleteNamedPolicy | internal/policy/executor.go:309-320 | Removes the document only |
| PolicyIndex.NewPolicyState | internal/policy/executor.go:80-99 | Each index holds a model exactly when a document provides it, with that document's value |
| PolicyIndex.IndexedIff | internal/policy/executor.go:80-117 | A model is in an index exactly when some document that sets the attribute lists it, with such a document's value |
| PolicyIndex.BuildModelPolicies | internal/policy/executor.go:106-117 | The routing index some order of visiting the documents builds; it holds exactly the models routed, inheriting documents left out |
| PolicyIndex.LoadDirSnapshot | internal/policy/loader.go:262-323 | The loop equals the reference resolution of the files in order |
| PolicyIndex.LoadIsDisjoint | internal/policy/loader.go:262-321 | Whatever the directory holds, the documents kept claim no model twice |
| PolicyIndex.OldestClaimWins | internal/policy/loader.go:303-320 | A file that names models is left out exactly when an earlier kept file shares one |
| PolicyIndex.ClaimsAreBackedIff | internal/policy/loader.go:301-320 | Every model counted as claimed is in the document of its claimant, if and only if no kept file reuses a stem |
| PolicyIndex.ReusedStemLosesItsModels | internal/policy/loader.go:301-320 | Counterexample: x.yaml then x.yml loses the first file's model and still turns away a later file that names it |
| SpliceLaws.SpliceReplacesLastModelOnly | internal/api/alias.go:284-333 | On every well-formed object the result is the same text with only the last model value replaced; without a model key it is refused |
| SpliceLaws.SecondReplacementOverrides | internal/api/alias.go:284-333 | A second replacement gives what it would have given on the original |
| SpliceLaws.SplicedModelReadsBack | internal/api/alias.go:284-333 | A decoder that matches the key exactly reads back the name written |
| ModelBinding.HandlersReadTheNameIff | internal/api/middleware.go:493-507 | The handlers' decoder, which matches the key up to case, reads the name written if and only if every other variant of the key holds a string or null and the last string under a variant after the last exact key, if any, is that name |
| ModelBinding.SplicedBinds | internal/api/middleware.go:493-507 | What that decoder reads after a splice on every well-formed object: an error, a later variant's string, or the name written |
| ModelBinding.BoundIsLastString | internal/api/middleware.go:493-507 | Binding the members one by one gives the last string under a variant of the key, or an error exactly when a variant holds something else |
| SpliceLaws.SetLastStaysValid | internal/api/alias.go:284-333 | The result is again a well-formed object with a model key |
| SpliceLaws.ScanFindsLastModel | internal/api/alias.go:290-324 | The member scan finds the span of the last model value, for any members |
| SpliceLaws.ValueEndsExactly | internal/api/alias.go:369-398 | The value scanner stops exactly at the end of any JSON value, any nesting and escapes |
| SpliceLaws.ValueIsNeutral | internal/api/alias.go:376-389 | Inside brackets a whole value leaves the bracket count where it was |
| SpliceLaws.StringEndsAtItsQuote | internal/api/alias.go:356-366 | The string scanner stops just past the closing quote, whatever is escaped |
| SpliceLaws.ModelKeyExactly | internal/api/alias.go:337-346 | A key is the model key exactly when it decodes to "model" |
| Splice.ReplaceTopLevelModel | internal/api/alias.go:284-333 | The index-moving code equals reading the body token by token, error cases included |
| Splice.ScanMembers | internal/api/alias.go:290-324 | The member loop equals the reference reader, errors included |
| Splice.NextMember | internal/api/alias.go:291-324 | One turn of the loop equals one turn of the reader: another member, the end of the object, or the error |
| Splice.ReadMember | internal/api/alias.go:296-315 | One member: its key, its value's span, or the error |
| Splice.SkipWS | internal/api/alias.go:348-353 | Stops at the first byte that is not white space |
| Splice.SkipString | internal/api/alias.go:356-366 | Equals the reference string scanner, unterminated strings included |
| Splice.SkipValue | internal/api/alias.go:369-398 | Equals the reference value scanner; negative exactly when there is no value |
| Json.QuoteRoundTrip | internal/api/alias.go:328-332 | The quoted name is a valid JSON string that decodes to the name |
| QuotaLimit.LimitHoldsIffHarmless | internal/auth/quota.go:218-510 | The daily limit holds in every interleaving of calls, flushes, resets, sweeps, crashes and midnights if and only if no step takes a failing branch other than one of two: the janitor deletes a gate under its preload, or a flush writes a counter under its preload. Those two together, and each of the other twelve alone, let a day grant the limit twice |
| QuotaLimit.DailyLimitHolds | internal/auth/quota.go:218-510 | Without those branches every run stays within the limit, however sweeps, resets, flushes and calls overlap, failed reads and saves and crashes included where nothing was ahead of the store |
| QuotaLimit.CrashesCostOnlyTheUnsaved | internal/auth/quota.go:395-510 | When crashes are all that goes wrong, the excess is at most what each crash found unsaved, with the same overlaps allowed |
| QuotaLimit.CrashCostsTheRecentIff | internal/auth/quota.go:395-465 | What a crash finds unsaved is at most what was granted since the last save, if and only if no flush writes a counter a preload has made and not yet raised |
| QuotaLimit.FlushInsideAPreload | internal/auth/quota.go:408-465 | Counterexample: a flush inside a preload overwrites the stored counter with 0 |
| QuotaBound.GrantsWithinLimitAndLoss | internal/auth/quota.go:218-510 | In every interleaving of the atomic steps, faults included, a day grants at most the limit plus the losses the guards of the steps allow |
| QuotaBound.StepKeepsInv | internal/auth/quota.go:218-510 | Every atomic step keeps the accounting invariant |
| QuotaBound.SpendKeepsLevel | internal/auth/quota.go:218-244 | A locked charge is counted, or it is on a removed, late-dated or outdated counter and written off |
| QuotaQuiet.QuietCostsNothing | internal/auth/quota.go:395-510 | In a quiet state no allowed step but a crash loses anything |
| QuotaQuiet.StaysQuiet | internal/auth/quota.go:395-510 | Every allowed step keeps the state quiet |
| QuotaRuns.ResetInsideACallGrantsTwice | internal/auth/quota.go:282-510 | Counterexample: a call that passed its gate before a reset dropped the counter gets a new one after it |
| QuotaRuns.CallInsideAResetGrantsTwice | internal/auth/quota.go:282-510 | Counterexample: a call that begins between the loop that drops the counters and the one that drops the gates |
| QuotaRuns.ChargeInsideAResetGrantsTwice | internal/auth/quota.go:447-510 | Counterexample: a charge between a reset's save, which finds no counter, and its drop |
| QuotaRuns.FlushInsideAResetGrantsTwice | internal/auth/quota.go:405-510 | Counterexample: between a reset's save and its drop a flush writes a counter before its preload raises it |
| QuotaRuns.StaleFlushGrantsTwice | internal/auth/quota.go:447-510 | Counterexample: a flush picks a counter that a reset drops and writes it over what a later reset saves |
| QuotaRuns.LateSaveGrantsTwice | internal/auth/quota.go:447-510 | Counterexample: a reset that began before midnight saves nothing of the new day and drops its counter |
| QuotaRuns.SweepInsideACallGrantsTwice | internal/auth/quota.go:312-323 | Counterexample: the janitor deletes the counter a call has just rolled over to today |
| QuotaRuns.SweepUnderAHolderGrantsTwice | internal/auth/quota.go:312-323 | Counterexample: the janitor deletes yesterday's counter while a call holds it, and the call is granted on it |
| QuotaRuns.SweptGateGrantsTwice | internal/auth/quota.go:447-484 | Counterexample: a gate pass that began before midnight deletes a gate of today under its preload, whose counter a flush has just written |
| QuotaRuns.LateCallGrantsTwice | internal/auth/quota.go:224-230 | Counterexample: a call dated before midnight rolls today's counter back |
| QuotaRuns.FailedReadGrantsTwice | internal/auth/quota.go:405-408 | Counterexample: a failed read uses up the gate and starts from 0 |
| QuotaRuns.FailedSaveGrantsTwice | internal/auth/quota.go:447-510 | Counterexample: a reset whose save fails forgets the day |
| QuotaRuns.CrashGrantsTwice | internal/auth/quota.go:395-419 | Counterexample: a crash before a save forgets the day |
| QuotaRuns.SoloCall | internal/auth/quota.go:374-382 | A call that nothing disturbs is the limiter's preload followed by its charge |
| QuotaRuns.SoloReset | internal/auth/quota.go:505-510 | A reset that nothing disturbs is the limiter's flush followed by forgetting |
| QuotaKeys.StoredKeysAreDistinct | internal/auth/quota.go:435-437 | Without NUL in the names, different (tenant, model, day) triples never share a stored counter |
| QuotaKeys.SuffixPicksTheDay | internal/auth/quota.go:473-484 | The sweep's suffix test picks out exactly the gates of the day |
| Quota.BadgerLimiter.EnsurePreloaded | internal/auth/quota.go:395-419 | Once per bucket and day adopts the stored counter; no other bucket changes |
| Quota.BadgerLimiter.AllowTokens | internal/auth/quota.go:218-244 | Grants exactly when the day's use fits, charges it, fills up to the limit on refusal; no other bucket changes |
| Quota.BadgerLimiter.RemainingTokens | internal/auth/quota.go:199-216 | Reports n exactly when charges up to n and no more would be granted |
| Quota.BadgerLimiter.Flush | internal/auth/quota.go:447-465 | Saves exactly today's counters whose write succeeds, in any order |
| Quota.BadgerLimiter.Reset | internal/auth/quota.go:505-510 | Flushes, then forgets every counter and gate |
| Quota.BadgerLimiter.SweepIdle | internal/auth/quota.go:473-484 | Drops the counters and gates of other days and nothing of today |
| Quota.BadgerLimiter.SweepBuckets | internal/auth/quota.go:312-323 | Drops exactly the counters of other days |
| Quota.Midnight | internal/auth/quota.go:328-330 | At midnight every bucket starts without gate and stored counter |
| Quantile.EstimateLiesInItsBucket | internal/agent/engine_vllm.go:350-367 | The estimate lies in the first bucket reaching the rank, whose count is above the one below: the equal-count branch is unreachable |
| Quantile.EstimateBeyondTheBuckets | internal/agent/engine_vllm.go:368-376 | Beyond all finite buckets it is the last finite bound, or none |
| Quantile.QuantileGrows | internal/agent/engine_vllm.go:341-376 | A higher quantile never has a lower estimate |
| Quantile.QuantileInvertsTheHistogram | internal/agent/engine_vllm.go:357-364 | Exactly the share q of the evenly spread observations lies at or below the estimate |
| Quantile.HistogramQuantile | internal/agent/engine_vllm.go:341-376 | The scanning code equals the reference scan on every input |
| RoundTrip.StaysInRange | internal/metrics/universal.go:522-539 | From a fresh state the smoothed time stays between the least and greatest sample, the variance between 0 and the greatest |
| RoundTrip.AgentCounterState.UpdateRtt | internal/metrics/universal.go:522-539 | The first sample is the estimate and half of it the variance; later ones weigh an eighth going up, a half going down, and a quarter in the variance |
| RoundTrip.RepeatsHalveTheGap | internal/metrics/universal.go:534-535 | k repeats of a lower value halve the distance to it k times |
| RoundTrip.RepeatsCloseTheGap | internal/metrics/universal.go:536-538 | k repeats of a higher value leave seven eighths of the distance to it, k times |
| RoundTrip.SteadySamplesSettle | internal/metrics/universal.go:533-538 | A sample equal to the estimate leaves it and three quarters of the variance |
| RoundTrip.ShrunkByPow2 | internal/metrics/universal.go:534-535 | Halving k times is dividing by 2 to the k |
| RoundTrip.LargerSamplesLargerEstimate | internal/metrics/universal.go:522-539 | Pointwise larger samples never give a smaller smoothed time, despite the branch |

## Left out

- HTTP handlers, middleware, streaming, audit log, tracing, gauges and callbacks: plumbing around the modelled cores.
- Networking, generated protocol code, agent loops, engine clients: outside the router's own decisions.
- Request-rate buckets (requests and tokens per minute): they are a library's.
- MAC, key derivation, JSON and YAML decoding: ideal. A sealed record opens only under its own key; a file is given parsed.
- Cuts inside one transaction: a transaction that returns an error is taken to have written nothing.
- Machine-integer overflow and float rounding: mathematical integers and reals instead. Generation numbers are below 2^64 where key bytes are concerned.
- Blocking itself: AdmitWithin and WaitInLine are step systems over their locked sections and channel operations; their deadlines are events that may happen at any time.
- Liveness: nothing says that a waiter is eventually served. A slot freed between the candidate pass and the wait is not noticed by that wait, so no claim says that nobody is parked while a slot is free.
- The bundle of several reservations per request, the wake-from-zero hold, semantic routing, the provider fallback call: they would add easy members.
- Directory order by modification time: the directory's files are given in load order.
- Labels and rendered texts (step names, log lines, joined reason strings): reasons are values; the trace's counts per reason are modelled.
- The metric snapshot's assembly: a view carries the metrics as read; an absent one passes its gate.
- Early exits of a policy reload (unreadable directory, unchanged hashes, a conflict with key limits): they change no document.
- Strategies: any member of a non-empty candidate list may be picked, which covers the least-loaded one.
- Changes of an agent's capacity or of a tenant's limit during a run.
- Expiry of stored quota counters: their 48 hours outlast the day they belong to.
- The encoder's treatment of U+2028, U+2029 and invalid UTF-8 in the name written by the splice: such characters are written as they are.
- Nil and empty allowed-model lists are one value.
- Quantile.QuantileInvertsTheHistogram: not for a first bucket bounded by 0, which has no width to spread observations over.
- The quota's steps are those of one bucket; the class's contracts say that no operation touches another bucket's cell.
- Whether one particular run that takes a harmful branch of the quota exceeds the limit: that depends on the amounts charged.
- Decoding in the handlers beyond the model field: other fields and the decoder's limits on size and depth.
