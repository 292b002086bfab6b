# A model of QLB's token movements

QLB moves single-use OAuth refresh tokens between a Keychain, a SQLite database, a live
credential store, a config file and a directory of stashes, while processes crash, writes
fail half-way and other programs interfere. This project models the code that must not
lose or replay such a token, and proves what it keeps.

`dafny verify dfyconfig.toml` checks everything.

## How the model is built

* **Claude switch** (`Json`, `Credentials`, `Classify`, `SwitchModel`, `SwitchMachine`,
  `SwitchStale`, `SwitchRecovery`). A class holds the live credential, the config file, the staged copy,
  the write-ahead journal, the active login, the slots and the unclaimed stashes. Every
  access asks an arbitrary fault schedule whether it goes through, throws before or after
  taking effect, or is the last thing the process does. Steps 4 to 9, the rollback, the
  automatic reconciliation and both operator resolutions are methods over it. The
  invariant `StandsFor` says which triple (live, config, active login) a state stands for.
* **Directory lock** (`DirLock`). A transition system of any number of contenders, one
  file-system call a step. A stall is a step not taken, staleness never guards a takeover,
  and inodes may be recycled, so nothing rests on timing.
* **Codex holders** (`CodexHolders`, `CodexHolderSets`, `CodexHolderProofs`,
  `CodexHolderSafety`, `CodexHolderCoverage`). The event scan, the widening, the drift and
  observation eras, the clipping and the sweep, each loop a method that equals a recursive
  function; and an independent account, over the rows and observations alone, of who counts
  as a holder when.
* **Auto-switch** (`Autoswitch`, `AutoswitchDecision`, `AutoswitchProofs`,
  `AutoswitchBreaker`). The decision over real percentages and times, and the breaker over
  whole runs of the loop.
* **Codex gate** (`CodexStash`, `CodexConsume`). A class with a slot, a predecessor copy,
  stashes spread over an index, the Keychain and files, metadata with an open transaction, and the provider's own record of exchanged tokens. Other
  writers edit, replace or remove the slot between calls and while a request is on the wire.
* **Claude slots and gate** (`ClaudeSlots`, `ClaudeConsume`). The slot store's writes over
  two stores with rollback hooks, and the gate that posts outside the switch lock, with the
  same other writers.
* **Active refresh** (`ActiveModel`, `ActiveRefresh`). The refresh of the login that stands both
  in its slot and in the live store, over the same slot store, stashes and provider.
* **Codex re-key** (`CodexRekey`, `CodexRekeyProofs`). The plan and its application to the
  five dependent tables.
* **Drain** (`Drain`). The C-swap drain against an environment that answers as it likes,
  judged by the trace it leaves. Lists and lease checks in a trace carry what was answered.

## Where the code does not do what it is for

Each of these is proved with a concrete failing case and with the exact condition.

* A switch whose database commit lands and then throws is rolled back all the same. The
  triple is then half old, half new (`SwitchMachine.Machine.Transact`): with no journal left
  it is whole if and only if the commit did not land and throw, or switched nothing.
* Outgoing bytes that belong to another slot are left to it when the lock-free snapshot lists
  them there (`src/cc-switch.ts:565-566`). If that slot has moved on by then, an undisturbed,
  successful switch leaves them nowhere (`SwitchStale.StaleSnapshotLosesLogin`). Bytes left
  that way are kept if and only if the stored row still holds what the snapshot lists, and all
  others always are (`SwitchMachine.Machine.Preserve`, `SwitchMachine.Machine.SwitchClaude`).
* Consume-first requested on top of the plain strategy compares nothing, so two unused
  accounts are switched back and forth (`AutoswitchProofs.FlappingIff`). No caller under
  `src` sets that request beside that strategy: the input is reachable only through the
  exported decision function.
* A publication is meant to be ambiguous for a second on either side. A failed attempt that
  opened the target's era within that second hides it
  (`CodexHolderSafety.TargetMayBeMissed`). The target counts for the whole second before if
  and only if it counts at its start and again wherever in it something that counted it
  lapses, both told from the rows and observations (`CodexHolderCoverage.SecondBeforeIff`).
* The re-key guard that should never fire does so for a lease without an end beside an
  existing target lease (`CodexRekeyProofs.GuardFiresIff`, `CodexRekeyProofs.GuardCanFire`);
  an orphan move leaves such a lease behind without a guard, and the next plan finds it again
  (`CodexRekeyProofs.ReplanIff`).
* A slot write whose commit lands and then throws has its Keychain item put back under the
  new row: a first login then leaves a row that names a lineage found nowhere
  (`ClaudeSlots.LandedCommitSplits`). The rows stay right if and only if the operation did not
  change the lineage of the item (`ClaudeSlots.LandedIff`).
* A stashed Claude successor that does not expire later than the slot it was issued for is
  discarded as obsolete, and the next call sends the spent token again
  (`ClaudeConsume.ObsoleteStashIsReplayed`). After a stashed result and an undisturbed next
  call that happens if and only if the grant does not outlive the slot's credential
  (`ClaudeConsume.CallTwice`).
* Both gates send a spent token again when the provider exchanged it and the answer was lost
  on the wire (`CodexConsume.LostReplyIsReplayed`, `ClaudeConsume.LostReplyIsReplayed`). An
  undisturbed call sends a spent token if and only if: for Codex, the slot holds one and nothing
  is stashed under it (`CodexConsume.Backend.Consume`); for Claude, the first stash that waits
  for the slot holds one, or, when none waits, the slot does (`ClaudeConsume.Gate.Consume`).
* The active refresh serves a live credential of the slot's previous lineage that is not
  expired, and writes it into the slot (`src/cc-resync.ts:223-229`): when its token was spent,
  it replaces its own successor, and is sent again
  (`ActiveRefresh.PredecessorIsServedAndReplayed`). With nothing stashed under it, custody
  survives such a write if and only if the live credential's token was never exchanged
  (`ActiveRefresh.Refresher.Refresh`, `ActiveRefresh.ServeThenSend`).
* The drain drops pids it has found gone from every later list (`src/cswap-agent.ts:307`), so
  it reports success over a process that was given such a pid (`Drain.ReusedPidPasses`). On
  success the last list is empty if and only if nobody found gone is on it again
  (`Drain.Site.CooperativeDrain`).

## Model

| member | source | states |
|---|---|---|
| Json.CanonDecides | src/cc-switch.ts:228-248 | comparing canonical forms decides equality up to the order of keys, for every two JSON values |
| Credentials.SharedCredentialFields | src/cc-credentials.ts:78-87 | the loop over the shared keys picks exactly the machine-shared fields, in their fixed order |
| Credentials.MergeSharedCredentialFields | src/cc-credentials.ts:89-98 | the delete-then-assign loops equal the specified merge |
| Credentials.MergeKeepsMachineFields | src/cc-credentials.ts:78-98 | the shared fields read back from a merge are exactly those merged in |
| Credentials.MergeLastWins | src/cc-credentials.ts:89-98 | a later merge overrides an earlier one exactly |
| Credentials.MergeKeepsLineage | src/cc-credentials.ts:89-98 | a merge changes neither the OAuth block nor the refresh fingerprint |
| Credentials.SameAccountMeaning | src/cc-switch.ts:228-248 | two credentials count as the same account if and only if they parse and agree, up to key order, outside the machine-shared fields |
| Credentials.MergeKeepsAccount | src/cc-switch.ts:228-248 | a merged credential is the same account as its target |
| Credentials.MachineFieldsInvariant | src/cc-switch.ts:630-638 | over every run of publications the machine-shared fields never change and the rest is the last target's account |
| Classify.Classification | src/cc-classify.ts:172-223 | which evidence each kind rests on: bytes are adopted by the outgoing slot only on own evidence, and a foreign verdict names a different slot |
| Classify.ResolvedSlot | src/cc-classify.ts:116-143 | the slot a profile resolves to is a listed one, matched by address and not recycled or else by id; there is none only when no slot has the id and the address is nobody's or shared with a recycled slot |
| SwitchModel.MarkersAreMonotone | src/cc-switch-journal.ts:258-283 | over any sequence of updates, refused ones included, no progress marker is cleared and the attempt keeps its identity |
| SwitchModel.RecoveryIsExact | src/cc-switch.ts:314-359 | from every state the invariant allows, recovery gives back exactly the triple the state stands for, and repeating it changes nothing |
| SwitchModel.StandsForOne | src/cc-switch.ts:314-359 | a state stands for at most one triple |
| SwitchModel.RespliceKeepsEdits | src/cc-switch.ts:329-342 | when somebody edited the config since, restoring puts back the old account block and keeps every other field |
| SwitchModel.SpliceOnlyAccount | src/cc-credentials.ts:136-150 | a splice changes no config field but the account block |
| SwitchMachine.ComposedKeepsMachine | src/cc-switch.ts:630-638 | the published credential has the outgoing one's machine-shared fields |
| SwitchMachine.ConfigUndoIsExact | src/cc-switch.ts:314-342 | on a config nobody else wrote, the undo is never a re-splice and ends at the original text |
| SwitchMachine.Machine.CreateJournal | src/cc-switch-journal.ts:202-229 | an existing journal is never replaced |
| SwitchMachine.Machine.UpdateJournal | src/cc-switch-journal.ts:258-283 | an update that throws before writing leaves the journal as it was; a closed marker is never changed |
| SwitchMachine.Machine.CommitSwitch | src/store.ts:2531-2593 | the active login and the committed attempt move together or not at all |
| SwitchMachine.Machine.RestoreConfigFile | src/cc-switch.ts:314-342 | whatever fails, the config is as found or exactly the original |
| SwitchMachine.Machine.PutLiveBack | src/cc-switch.ts:406-415 | the live credential is as found or the outgoing bytes, and done means the latter |
| SwitchMachine.Machine.UndoEffects | src/cc-switch.ts:393-415 | both effects undone, each whatever became of the other, and never past undoing |
| SwitchMachine.Machine.RollBack | src/cc-switch.ts:361-438 | after a rollback cut short anywhere the state is still restorable to the outgoing pair; undisturbed, it is restored and the journal gone |
| SwitchMachine.Machine.CloseAndClear | src/cc-switch.ts:425-435 | the staged copy outlives every journal that is still open |
| SwitchMachine.Machine.PassJournal | src/cc-switch.ts:474-481 | no switch passes an unfinished or unreadable journal, and an unfinished one is not touched |
| SwitchMachine.Machine.SelfTarget | src/cc-switch.ts:498-540 | a self-target goes on only over the exact credential this run's own refresh replaced, undisturbed if and only if; it is refused only for bytes that are positively another's |
| SwitchMachine.Machine.OpenTransaction | src/cc-switch.ts:474-546 | what the transaction relies on was read under the locks: no journal, a managed active account, a live credential; and a self-target that nobody asked to republish passes only over the credential this run's own refresh replaced |
| SwitchMachine.Machine.Preserve | src/cc-switch.ts:549-596 | the kind is the classification against what the outgoing slot was read to hold; each kind goes where it may; bytes left to another slot are kept if and only if its row still holds what the snapshot lists, all others always; the outgoing slot is written for adopted kinds alone, so never for foreign, alien or known-foreign bytes |
| SwitchMachine.Machine.Stage | src/cc-switch.ts:598-622 | the journal precedes the copy it announces, and a failure here leaves nothing to undo |
| SwitchMachine.Machine.PublishLive | src/cc-switch.ts:629-644 | the hash is journalled before the write, so the write can be undone from any point |
| SwitchMachine.Machine.PublishConfig | src/cc-switch.ts:645-668 | the config text and plan are journalled before the write; process memory and disk both suffice to undo |
| SwitchMachine.Machine.Finish | src/cc-switch.ts:679-682 | a committed attempt always reports success, and undisturbed leaves neither journal nor copy |
| SwitchMachine.Machine.Transact | src/cc-switch.ts:598-682 | all or nothing over every fault schedule, with the exact exception: with no journal left the triple is whole if and only if no commit landed and threw, or it switched nothing; and the failing schedule |
| SwitchMachine.Machine.SwitchClaude | src/cc-switch.ts:441-713 | one attempt: the state stands for the old or the fully switched triple; an unfinished journal stops it; an overwritten live credential is kept unless it was left to another slot whose row, when the locks were taken, was no longer what the snapshot lists; slots change at most in the outgoing one, to the outgoing bytes, and only when these were classified under the locks as adopted; a self-target goes past the locks only over the credential this run's own refresh replaced |
| SwitchStale.StaleSnapshotLosesLogin | src/cc-switch.ts:565-566 | a snapshot and a store with which an undisturbed, successful switch leaves the outgoing login in no slot, no stash and no staged copy |
| SwitchRecovery.RestoreLiveFile | src/cc-switch.ts:345-359 | the live credential is as found or the staged one; anything else found there stops the recovery |
| SwitchRecovery.Reconcile | src/journal.ts:186-245 | reconciliation keeps what the state stands for under every fault and crash; undisturbed it is the recovery function and clears the journal |
| SwitchRecovery.ResolveBack | src/journal.ts:93-124 | the operator's resolution backwards keeps the same invariant although it restores in the other order |
| SwitchRecovery.FinishConfig | src/journal.ts:136-159 | the config ends at the text the switch announced, differing from the original in the account block alone |
| SwitchRecovery.ResolveForward | src/journal.ts:126-172 | only a landed credential that is the target's account is completed; the result has the target in both stores and the machine's fields intact |
| SwitchRecovery.Run | src/cc-switch.ts:441-713 | over every history of switches, recoveries, faults and crashes that rolls back no landed commit: always one whole triple, machine-shared credential fields and all config fields but the account block never change |
| DirLock.StepKeepsInv | src/cc-locks.ts:360-482 | every step of every contender, takeover or other program keeps the token and section invariants |
| DirLock.AtMostOneTokenInside | src/cc-locks.ts:403-424 | over every run at most one contender past its check has its token in the directory |
| DirLock.SectionsNeverOverlap | src/cc-locks.ts:467-482 | callbacks that finish uncompromised never overlap in time |
| DirLock.GoneForGood | src/cc-locks.ts:276-281 | a token off the disk never returns, and no callback holding it completes |
| DirLock.OvertakenNeverCompletes | src/cc-locks.ts:435-454 | once a later contender has entered, the earlier one can only fail its check |
| DirLock.PassingCheckFences | src/cc-locks.ts:435-454 | a check that passes fences every other contender inside for good |
| DirLock.CompromiseIsFinal | src/cc-locks.ts:427-437 | a compromise is never forgotten |
| DirLock.OnlyTakeoversRemoveOthers | src/cc-locks.ts:292-340 | a token leaves the disk by its owner, by a takeover that listed it, or by another program, and by nobody else |
| DirLock.AloneSucceeds | src/cc-locks.ts:360-482 | left alone a contender enters, completes and leaves no trace |
| DirLock.TakeoverLetsTwoIn | src/cc-locks.ts:314-340 | mutual exclusion of callbacks is not promised: after a takeover two run at once under the same inode, and only the check tells them apart |
| CodexHolders.ReadLog | src/codex-sessions.ts:380-399 | the first bad row decides the error |
| CodexHolders.LogMembers | src/codex-sessions.ts:348-400 | the log holds exactly the rows not withdrawn as never published |
| CodexHolders.LogSorted | src/codex-sessions.ts:366-368 | and holds them by time, then by row id |
| CodexHolders.HolderEras | src/codex-sessions.ts:380-443 | the scanning loop equals the specified scan, errors included |
| CodexHolders.ErasAreTheRunningSet | src/codex-sessions.ts:400-443 | at every instant the eras say exactly who the scan had live once it passed that instant |
| CodexHolders.LiveMeaning | src/codex-sessions.ts:403-433 | live means: named by some row or before the first, and not definitely replaced since, unless fenced |
| CodexHolders.FencedStaysLive | src/codex-sessions.ts:449-458 | whoever a recovery fence involves stays live to the end of the log |
| CodexHolderSets.WidenEras | src/codex-sessions.ts:494-508 | row by row over eras in place equals era by era over rows |
| CodexHolderSets.FindDrift | src/codex-sessions.ts:510-525 | the drift loop equals the specified eras |
| CodexHolderSets.ObserveEras | src/codex-sessions.ts:566-600 | appending and clipping in place equals the specified passes |
| CodexHolderSets.GroupObservations | src/codex-sessions.ts:527-548 | a bad observation is refused, wherever it stands; otherwise the groups are as specified |
| CodexHolderSets.SweepSets | src/codex-sessions.ts:602-623 | the sweep loop with merging in place equals the specified sweep |
| CodexHolderSets.HolderSets | src/codex-sessions.ts:486-624 | rows and observations to sets, with the error cases in the code's order |
| CodexHolderProofs.SweepIsExact | src/codex-sessions.ts:602-623 | an identity is in a set at an instant if and only if some era covers it then; sets are sorted, disjoint, non-empty and maximal |
| CodexHolderSafety.NeverUnderCounted | src/codex-sessions.ts:566-600 | an identity the log has live is dropped only if unfenced and omitted by an observation at least a second older |
| CodexHolderSafety.FencedStaysOpen | src/codex-sessions.ts:449-458 | every fenced identity keeps an era without end, whatever was observed |
| CodexHolderSafety.GroupsMeaning | src/codex-sessions.ts:527-548 | the groups are the observations: each instant once, in order, with exactly who was seen |
| CodexHolderSafety.ObservationsAreCovered | src/codex-sessions.ts:566-590 | whoever was observed is a holder at that very instant |
| CodexHolderSafety.UnexplainedIsAmbiguous | src/codex-sessions.ts:569-590 | between observations no switch explains, both sides stay possible, a second further at each end |
| CodexHolderSafety.DriftIsCovered | src/codex-sessions.ts:510-525 | a source that is not the last published target counts from that publication until a second after it left |
| CodexHolderSafety.OpenMeansUncontradicted | src/codex-sessions.ts:592-599 | an era stays open only if fenced or contradicted by no observation well after its start |
| CodexHolderSafety.SourceLingers | src/codex-sessions.ts:494-508 | the replaced account counts for a full second after every publication |
| CodexHolderCoverage.SinceIsScan | src/codex-sessions.ts:400-443 | one identity's own machine over the rows has exactly its eras of the whole scan, running and ended |
| CodexHolderCoverage.ErasAreStretches | src/codex-sessions.ts:400-443 | the eras of an identity are the stretches the rows end, and the one they leave running |
| CodexHolderCoverage.CoverageIff | src/codex-sessions.ts:486-600 | an identity counts at an instant if and only if a stretch of its rows reaches there uncut by an observation, it drifted through, or an observation group has it |
| CodexHolderCoverage.SecondBeforeIff | src/codex-sessions.ts:494-508 | the target of a publication counts for the whole second before it if and only if it counts at the start of that second and again wherever in it something that counted it lapses, judged from rows and observations |
| CodexHolderCoverage.NewTargetIsCovered | src/codex-sessions.ts:494-508 | a publication that itself makes its target live covers that second, whatever was observed |
| CodexHolderSafety.TargetMayBeMissed | src/codex-sessions.ts:477-508 | a log on which that second is missed |
| CodexHolderSafety.RenewersAreTheDirectScan | src/codex-sessions.ts:644-662 | the renewers are those a direct scan of the eras returns |
| CodexHolderSafety.RenewerLeftOutOnEvidence | src/codex-sessions.ts:644-662 | from stored rows to answer: a process is left out of an account live at its start only on an observation against it |
| AutoswitchDecision.BindingPercentage | src/autoswitch.ts:186-193 | the accumulating loop is the highest reading |
| AutoswitchDecision.BindingWindow | src/lines.ts:45-77 | the selecting loop is the tightest window, over-line ones first, earlier ones on ties |
| AutoswitchDecision.LastRecovery | src/autoswitch.ts:217-225 | the early-returning loop equals the specification below |
| AutoswitchProofs.ExhaustedRecoveryMeaning | src/autoswitch.ts:217-225 | an exhausted account is back at r if and only if r is the latest reset of its exhausted windows and all of them are known and ahead |
| AutoswitchDecision.RankCandidates | src/autoswitch.ts:298-354 | the two growing lists and the sort equal the specified ranking |
| AutoswitchProofs.KeptIffPasses | src/autoswitch.ts:298-338 | the ranking keeps a measured candidate if and only if it meets the stated conditions |
| AutoswitchProofs.NobodyLeftOut | src/autoswitch.ts:298-354 | a ranking is empty only when no measured candidate meets them |
| AutoswitchProofs.FirstIsBest | src/autoswitch.ts:339-354 | nobody kept precedes the first, by key, then slot, then age, then position |
| AutoswitchDecision.ParkedDecision | src/autoswitch.ts:356-367 | the collecting loop and the sort equal the specified decision |
| AutoswitchProofs.ParksOnSoonest | src/autoswitch.ts:356-367 | an exhausted fleet parks on an account no other recovers before |
| AutoswitchProofs.SwitchesToRoom | src/autoswitch.ts:393-469 | every switch but parking goes to another living account with known room |
| AutoswitchProofs.NoReturnUnrecovered | src/autoswitch.ts:256-289 | no voluntary switch goes back to the account last left while it has not recovered |
| AutoswitchProofs.ProactiveGains | src/autoswitch.ts:298-338 | no proactive switch below the line for less than the hysteresis |
| AutoswitchProofs.VoluntaryProgress | src/autoswitch.ts:250-354 | every voluntary switch climbs one strict order of the fleet, whatever the recorded history |
| AutoswitchProofs.HorizonAbsorbs | src/autoswitch.ts:250-254 | accounts recovering within the horizon absorb, and recovery strictly falls among them |
| AutoswitchProofs.NoFlapping | src/autoswitch.ts:393-469 | with readings, settings and clock still, no run of voluntary switches visits an account twice |
| AutoswitchProofs.RunsAreShort | src/autoswitch.ts:393-469 | such a run is shorter than the fleet |
| AutoswitchProofs.FlappingIff | src/autoswitch.ts:417-424 | some fleet and history flap if and only if consume-first is requested over the plain strategy |
| AutoswitchBreaker.AtMostThreeAnHour | src/autoswitch.ts:378-387 | after the latest reset every half-open hour holds at most three automatic failover or at-limit switches, over every run with a clock that never goes back |
| AutoswitchBreaker.FreshLogIsLimited | src/autoswitch.ts:383-386 | a log without automatic switches is such a start |
| AutoswitchBreaker.SuspensionIsKept | src/autoswitch.ts:378-387 | no automatic switch lands before a suspension that nobody resumes has ended |
| AutoswitchBreaker.HourOfSilence | src/autoswitch.ts:378-387 | from a tick that reaches the limit on, over every run that nobody resumes, no automatic switch lands for a full hour |
| CodexConsume.Backend.WriteSlot | src/codex-slots.ts:147-154 | the slot never changes unless the predecessor copy is already in place |
| CodexConsume.Backend.RepairDrift | src/codex-consume.ts:278-332 | whatever fails, metadata moves only on proof of succession, to the slot's lineage with its edge on record, and nothing else of the row changes; it does move whenever undisturbed and provable |
| CodexConsume.Backend.KeepSuccessor | src/codex-slots.ts:178-229 | reservation, Keychain, file: however they fail, what a search can find is what it was, or that and this successor, and certainly the latter on success |
| CodexConsume.Backend.KeepEmergency | src/codex-slots.ts:283-303 | the same for the body-first copy, whose body is found although its reservation never landed |
| CodexConsume.Backend.FindSuccessor | src/codex-slots.ts:309-344 | orphans are adopted and bare reservations dropped without losing a stash; nothing is answered only if nothing can be found, and what is answered is what the token was exchanged for |
| CodexConsume.Backend.RemoveSuccessor | src/codex-slots.ts:347-356 | however its three removals fail, no other stash is lost |
| CodexConsume.Backend.Compensate | src/codex-consume.ts:383-391 | a spent predecessor is put back only over this attempt's successor and only once that is stashed |
| CodexConsume.Backend.Retain | src/codex-consume.ts:394-400 | the last resort writes the successor only over its own predecessor |
| CodexConsume.Backend.Recover | src/codex-consume.ts:477-497 | after any failed write: stash before touching the slot, and nothing stashed is dropped |
| CodexConsume.Backend.PersistTransition | src/codex-consume.ts:409-500 | committed means slot and metadata both moved from this predecessor; otherwise the successor is stashed or reported |
| CodexConsume.Backend.AdoptSuccessor | src/codex-consume.ts:502-528 | adoption keeps custody under every fault and, undisturbed, ends at what the slot's token was exchanged for |
| CodexConsume.Backend.Consume | src/codex-consume.ts:530-633 | at most one request a call; an issued successor is in slot, stash or an unpersisted report whatever fails and whoever interferes; from custody no exchanged token is sent; undisturbed, a half-done call is healed without a request, and an exchanged token is sent if and only if nothing is stashed under it |
| CodexConsume.RunCalls | src/codex-consume.ts:530-633 | over every sequence of calls, with other writers between them and during their requests, no exchanged token is sent again until one reports unpersisted, an answer is lost on the wire, or a writer puts an exchanged token back, which edits, removals and new logins never do; until then custody holds |
| CodexConsume.LostReplyIsReplayed | src/codex-consume.ts:558-571 | after an answer lost on the wire the next call sends the same token |
| ClaudeSlots.UpdateChains | src/cc-slots.ts:462-485 | a write keeps the lineage chain and clears dead marks with the lineage |
| ClaudeSlots.AddChains | src/cc-slots.ts:549-603 | so does an add or a replacement |
| ClaudeSlots.LandedIff | src/cc-slots.ts:388-419 | after a failed commit that had landed, for every operation: the live rows are right if and only if the item already held the lineage the operation recorded |
| ClaudeSlots.LandedCommitSplits | src/cc-slots.ts:841-869 | a first login whose commit lands and throws leaves a row that names a lineage found nowhere |
| ClaudeSlots.Perform | src/cc-slots.ts:834-997 | one operation under any faults keeps the rows right, unless its compensation was cut short or its failed commit had landed and changed a lineage |
| ClaudeSlots.SlotStore.Conclude | src/cc-slots.ts:388-419 | a failed transaction leaves metadata as before unless its commit landed, and a hook that ran to its end leaves both Keychain items as before |
| ClaudeSlots.SlotStore.CreateSlot | src/cc-slots.ts:841-869 | nothing is created over an existing row, item or lineage, and a failure anywhere is undone |
| ClaudeSlots.SlotStore.WriteSlot | src/cc-slots.ts:896-933 | the item, the saved predecessor, the row and the log all move, or all stay |
| ClaudeSlots.SlotStore.ApplyAdd | src/cc-slots.ts:936-982 | the same for a login added, reactivated or replaced |
| ClaudeSlots.SlotStore.DeleteSlot | src/cc-slots.ts:984-997 | the same for both items and the row of a deleted slot |
| ClaudeSlots.SlotStore.StrikeDead | src/cc-slots.ts:834-839 | a strike lands only on the lineage it was decided for and touches no credential |
| ClaudeSlots.Run | src/cc-slots.ts:834-997 | over every sequence of operations and faults the log is a chain ending at each row; while compensations succeed and no failed commit landed every live row names its item's lineage |
| ClaudeConsume.CallTwice | src/cc-slots.ts:1158-1167 | after a call that stashed its successor beside the spent token, an undisturbed second call sends that token again if and only if the grant does not outlive the slot's credential |
| ClaudeConsume.ObsoleteStashIsReplayed | src/cc-slots.ts:1158-1167 | a slot, a grant and one failing lock with which it does |
| ClaudeConsume.LostReplyIsReplayed | src/cc-consume.ts:148-152 | after an answer lost on the wire the next call sends the same token |
| ClaudeConsume.Gate.FindNewer | src/cc-slots.ts:1139-1167 | only obsolete stashes of this very token are discarded, and whatever is returned waits |
| ClaudeConsume.Gate.AdoptStashed | src/cc-slots.ts:1130-1189 | custody is kept under every fault; undisturbed the slot becomes the first stash of its token that is not obsolete, if there is one, and is unchanged otherwise |
| ClaudeConsume.Gate.Persist | src/cc-consume.ts:205-236 | compare all bytes, then write, merge over a content-only racer, or stash; the issued tokens end somewhere or are reported |
| ClaudeConsume.Gate.Consume | src/cc-consume.ts:97-251 | at most one request a call, every issued token set accounted for under any interference; from custody no exchanged token is sent; undisturbed, an exchanged token is sent if and only if the first stash that waits holds one, or the slot when none waits |
| ClaudeConsume.RunCalls | src/cc-consume.ts:97-251 | over every sequence of calls on a slot with a row, with other writers between them and during their requests, no exchanged token is sent again until one reports unpersisted, an answer is lost, a grant does not outlive what it renews, or a writer puts back an exchanged token or changes the expiry that decides what waits, which edits of other fields, removals and new logins never do; until then custody holds |
| ActiveModel.ChoiceIsLicensed | src/cc-resync.ts:252-285 | only the slot's own lineage is spent, or the live credential itself, attributed, unmoved, and newer than the slot's or the slot's unusable; only a usable, unexpired slot credential is restored, and never over a newer live one |
| ActiveModel.IsSuccessor | src/lineage-log.ts:91-128 | the search succeeds if and only if some chain of recorded transitions leads from one lineage to another that differs from it |
| ActiveRefresh.Refresher.Own | src/cc-resync.ts:643-682 | before the request the slot holds the lineage that is spent, its own or the attributed live one; whatever fails on the way, custody is kept |
| ActiveRefresh.Refresher.Keep | src/cc-resync.ts:724-755 | posted means slot and live store both hold the successor; every other answer says truly where it is, or reports it lost |
| ActiveRefresh.Refresher.Refute | src/cc-resync.ts:699-716 | a refused token is marked dead only on a row that still records its lineage, and not when the place it was read from is seen to hold another |
| ActiveRefresh.Refresher.Refresh | src/cc-resync.ts:562-762 | at most one request; at that moment the slot holds the posted lineage, and its row records it if and only if the call wrote the slot or the row had not drifted; after a success the successor is where the answer says, or reported, and undisturbed it is in both slot and live store; from custody no exchanged token is sent, and custody holds afterwards with the stated exceptions |
| ActiveRefresh.RunRefreshes | src/cc-resync.ts:562-762 | over every sequence of refreshes, with other writers of slot and live store between them, no exchanged token is sent again until one is reported lost, an answer is lost on the wire, a grant does not outlast what it renews, a spent live credential is served into the slot, or a writer leaves what custody may not survive, which edits never do; until then custody holds |
| ActiveRefresh.ServeThenSend | src/cc-resync.ts:223-229 | after the live credential was served into the slot, an undisturbed request sends a spent token if and only if the live one was spent |
| ActiveRefresh.PredecessorIsServedAndReplayed | src/cc-resync.ts:223-229 | a slot, its live predecessor and an older snapshot with which a call serves the predecessor and the next request sends a spent token |
| CodexRekey.Plan | src/codex-rekey.ts:138-310 | the plan moves exactly the ids whose verdict is to move, each once and of the right kind, and gives every skipped id its reason |
| CodexRekey.Database.MoveSnapshots | src/codex-rekey.ts:337-366 | row by row in any order equals the specified table |
| CodexRekey.Database.MoveOverrides | src/codex-rekey.ts:368-379 | rename and de-duplicate equals the specified table |
| CodexRekey.Database.Apply | src/codex-rekey.ts:507-548 | self-moves change nothing, a stranded dependent stops it, and otherwise the result is the specified state |
| CodexRekeyProofs.GuardFiresIff | src/codex-rekey.ts:471-481 | on the state a plan was made from, the guard fires if and only if a merge meets a lease without an end whose target lease exists |
| CodexRekeyProofs.GuardCanFire | src/codex-rekey.ts:458-469 | a database and plan on which it fires |
| CodexRekeyProofs.GuardNeverFires | src/codex-rekey.ts:507-535 | where every lease has an end it never does |
| CodexRekeyProofs.NothingLeftBehind | src/codex-rekey.ts:507-548 | after the plan nothing is left under a moved id but such a lease |
| CodexRekeyProofs.FreshestReadingWins | src/codex-rekey.ts:337-366 | each bucket of a target ends with the freshest reading of all its sources, and with one of theirs |
| CodexRekeyProofs.OverridesAreUnited | src/codex-rekey.ts:368-379 | a target ends with exactly the overrides of all its sources |
| CodexRekeyProofs.OverridesAreDistinct | src/codex-rekey.ts:368-379 | and with none of them twice |
| CodexRekeyProofs.SchedulesNeverRelax | src/codex-rekey.ts:392-456 | a merged schedule is never due, held or backed off for less than any source was |
| CodexRekeyProofs.StatusOfALatestAttempt | src/codex-rekey.ts:410-456 | over a whole plan a target's poll status is that of one of its sources, and none of its sources was attempted later than that one |
| CodexRekeyProofs.PointersFollow | src/codex-rekey.ts:528-547 | the failover pointer follows its account, and every move is on record |
| CodexRekeyProofs.TargetAccount | src/codex-rekey.ts:291-317 | a target has a Codex account once moved to, and none before unless it had one |
| CodexRekeyProofs.ReplanIff | src/codex-rekey.ts:138-310 | planning again over what the plan left finds something to move if and only if a lease was stuck |
| Drain.ReleasedExactlyOnce | src/cswap-agent.ts:102-117 | in a disciplined trace that ends holding nothing every lock acquired is released exactly once |
| Drain.SweptMaySignal | src/cswap-agent.ts:269-299 | a lease check, a strict list that has the process and a sweep of the same inodes, in this order and on a standing preflight, are what a signal needs |
| Drain.Site.ReleaseAll | src/cswap-agent.ts:102-117 | every lock is released, whatever fails on the way |
| Drain.Site.LeasesIntact | src/cswap-agent.ts:132-165 | a lease check passes if and only if every helper confirms an inode, every path shows it, and no lease was lost |
| Drain.Site.FinalSweep | src/cswap-agent.ts:168-186 | the sweep passes if and only if no lease was lost and every path still shows the inode of the last check |
| Drain.Site.AcquireAll | src/cswap-agent.ts:199-226 | all locks or none: a failed round gives back what it took |
| Drain.Site.SignalOne | src/cswap-agent.ts:269-299 | one survivor is signalled only as the discipline allows; gone means the signal found no such process, or neither the strict list nor the list of the living after it had it, both after the preflight |
| Drain.Site.CooperativeDrain | src/cswap-agent.ts:232-330 | against any environment: every lock released by the end, every signal disciplined; on success whoever is on the last list of the living passed the preflight and was found gone after it, so the list is empty if and only if nobody found gone is on it again |
| Drain.ReusedPidPasses | src/cswap-agent.ts:300-310 | an environment in which the drain succeeds with a process on the last list |

## Left out

- Audit rows, relogin history and warnings: an audit row is an access that may fail, with no content.
- Malformed journals, paths and JSON text: a text is either a printed JSON document or opaque bytes; parsing the journal file is not modelled beyond readable, unreadable and absent.
- The journal owner probes before the locks: they only turn an attempt away earlier than the gate that is modelled.
- SwitchMachine.Machine.SwitchClaude: a foreign writer between the steps is not modelled for the all-or-nothing result; the two lemmas on foreign edits say what recovery does then.
- Phase A of a switch (`prepareClaudeSwitch`): its result is an input.
- DirLock: timeouts, retry delays and the takeover sidecar, which only ever delay a takeover that the model allows at any time; the locks' callers.
- CodexHolders.HolderEras: the eras come in the order the scan ends them; the display sort of what the code returns is not modelled (a locale collation).
- CodexHolders: times are whole milliseconds.
- Observations' lineage and author, which only break ties that the grouping undoes.
- Reading the switch history from the database and the process list from the system: both are inputs.
- AutoswitchProofs.NoFlapping: account ids are distinct, as the database makes them.
- Autoswitch: a slot number or creation time that is not a number.
- AutoswitchBreaker.SuspensionIsKept: a tick is one step, so an operator's resume in the middle of a tick, whose effect the tick may overwrite as it persists, is not modelled.
- The rest of the auto-switch tick's persistence (idle holds, unhealthy counts); the fields it feeds back are arbitrary inputs of each tick.
- CodexConsume.RunCalls, ClaudeConsume.RunCalls and ActiveRefresh.RunRefreshes: a crash between the provider's answer and the first write loses the successor in the code as well; the model's process does not crash there.
- CodexConsume.Backend.KeepSuccessor: a file that is written only in part, ids that collide, and stashes of unknown logins.
- CodexConsume: documents without a refresh token, the pure-test seams without a store.
- ClaudeSlots: the C-swap import, the display cache and its epoch, lifecycle admission, account and active-login rows.
- ClaudeConsume.RunCalls: needs the slot's database row, since the gate adopts nothing without one; a consume lock that fails as it is released, which the code reports as unpersisted.
- ClaudeConsume: access tokens, which the gate only compares as part of all bytes; retries of a colliding stash id, other accounts' stashes and legacy stash files.
- CodexRekeyProofs.StatusOfALatestAttempt: which source's status stands when several share the latest attempt; the code breaks the tie by the fetch times merged so far.
- CodexRekeyProofs.GuardFiresIff: slot ids hold a colon and bare account ids do not, as the code that forms them sees to.
- CodexRekey: the order of moves (byte order in the code) is left open, so the results hold for every order; leases that are not refresh leases; other providers' polls; the backup file and the cached observation key.
- Drain: leases whose helper cannot confirm them, launchctl, helper processes and signal handlers; clocks are replaced by a bound on polls.
- ActiveRefresh.Refresher.Refresh: the usage requests around it, deferred signals, the audit line, address and organisation as parts of a verdict's key; whether the live access token is the caller's, whose account the config names and whether C-swap runs are inputs; other writers of the live store while its locks are held.
- The Codex switch, adding Codex accounts, usage views and pruning.
