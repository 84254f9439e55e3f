# Verification of the mulle concurrent containers, mulle-aba and mulle-buffer

This project models the parts of mulle-core that are hardest to get right and proves
what they are for:

- **mulle_concurrent_hashtable**, the lock-free map with remove and cooperative
  migration, is linearizable, for any number of threads and any schedule;
- **mulle_concurrent_hashmap** and **mulle_concurrent_pointerset**, its insert-only
  siblings, are linearizable and never forget what was inserted;
- **mulle_concurrent_pointerarray** is an append-only log, and linearizable as one;
- a call on any of them that runs alone ends, from every state of every run, with one
  exception that is stated exactly; and it answers for what its caller has passed to it;
- **mulle-aba**, the epoch based reclaimer under all of them, frees a pointer only when
  no other thread can have seen it since, frees it once, loses none, and has freed it
  once everybody has checked in or left; its retain counts are decremented once by each
  thread counted, and one decrement sees zero;
- **mulle-buffer** delivers and holds exactly what was appended to it, in all modes, and
  its C escapes compile back to the bytes they were made of.

## How the concurrent parts are modelled

Each container is a step machine: a state is the shared memory and one program counter
with live locals per thread; every read, compare-and-swap, increment or decrement of a
shared word is one step; atomics are sequentially consistent. A run is a sequence of
states with a schedule that says which thread moves. Nothing bounds the number of
threads, the length of a run or the number of storages.

The proofs have the same shape throughout. An invariant describes the shared memory; a
local invariant says what a thread knows at each of its program points; `Stable` shows
that no step of another thread can take that knowledge away; `EveryStep` shows that each
step keeps the invariants and says what it does to the abstract value (a map, a set, a
log, the threads that still owe a decrement). The theorems about runs follow by
induction. For the containers, `Histories` turns "every call has an instant at
which its answer is right" into one sequential order of all completed calls that
respects real time and that a sequential map, set or log answers in the same way. The
`*Requests` modules tie the calls of a history to the arguments that the callers passed.
The `*Alone` modules give every program point a rank that each step of a call running
alone lowers, and so extend every run by steps of one thread until its call ends.

Storages and worlds are numbered by creation and never reused, which is what the
reclaimer guarantees for memory that a thread may still hold.

| files | part |
|---|---|
| `Options`, `Counting`, `MapSpec`, `Histories` | shared helpers, the sequential map and linearizability |
| `Occupancy`, `Ranks` | how full a storage can get, and the ranks of calls that run alone |
| `Probing`, `Sizes`, `Rounding`, `Words` | masked probing, table sizes, the rounding trick, the bits of a word |
| `Retries` | the retry chain that all containers share |
| `Hashtable*` | the hashtable: machine, invariant, actions, local knowledge, steps, runs, linearizability, requests, occupancy, bounded helping, retries, calls that run alone |
| `Hashmap*`, `Pointerset*`, `Pointerarray*` | the insert-only containers |
| `Aba*` | the reclaimer: machine, invariant, steps, safety of runs, conservation, accounting, progress, growth, the reuse loop, the layout of storages, calls that run alone |
| `BufferModel`, `Buffer`, `Escape` | the buffer on values, the buffer as a class, C escapes |

## What turned out worth knowing

- The reuse loop of mulle-aba tests the storage at index i but rotates out the one at
  index 0. This is safe, but it does not reuse all it could: of z unused storages it
  rotates out z if z is odd and z - 1 if z is even (`AbaRotation.RotatesAllButOne`), while
  its counting variant reports all z.
- The header table of the hashmap calls (NO_HASH, non-empty) unreachable
  (src/mulle-concurrent/mulle-concurrent-hashmap.h:58). It is reachable:
  `HashmapFrozen.FrozenVirginIsReachable` is a run that gets to (NO_HASH, REDIRECT), and
  in which a late writer then claims the slot. `HashmapFrozen.FrozenVirgins` and
  `FrozenByCopyOnly` say exactly when a slot is in that state, `LateClaimIsHarmless` that
  nothing is lost by it.
- The copy of the pointerset ignores the answer of its register. The proof shows why it
  may: while the source is still current, the successor has the pointer afterwards
  whatever the answer (`PointersetProof.PutTriedOk`).
- lookup and remove of the hashtable do not bound their probes: in a storage whose slots
  are all claimed by other hashes they go round forever. `HashtableAlone.EndsAlone` shows
  that this is the only way in which a call that runs alone does not end, `SpinsOn` that
  it then never does, and `NobodySpins` that it takes more threads than half of the
  slots. The hashmap, which leaves such a storage, has no exception.
- A thread that registers while a call of free is under way may be counted for the
  timestamp that the call makes. So it is the threads registered when free returns, not
  when it is called, that have to check in before the pointer is freed
  (`AbaProgress.FreedOnceAllCaughtUp`).
- An inflexible buffer takes a block as a whole or not at all, but a string up to the last
  byte that fits.

## Model

| member | source | states |
|---|---|---|
| `HashtableLinearizability.Linearizable` | src/mulle-concurrent/mulle-concurrent-hashtable.c:489-925 | the completed calls of every run have one sequential order, respecting real time, in which an atomic map gives the same answers and ends in the same contents |
| `HashtableLinearizability.EveryCallLinearizes` | src/mulle-concurrent/mulle-concurrent-hashtable.c:808-925 | every completed call performs its operation with its last step or answers as the map would at an instant between call and return, lookups stalled on retired storages included |
| `HashtableLinearizability.OnlyCallsChangeTheMap` | src/mulle-concurrent/mulle-concurrent-hashtable.c:583-717 | no step of a migration, and no lost race, changes the map; a step that does ends a call and does what the call's operation says |
| `HashtableRequests.RecordsTheRequest` | src/mulle-concurrent/mulle-concurrent-hashtable.c:808-925 | the history has every answered call with the operation and arguments that its caller passed, from the request on |
| `HashtableRequests.RefusesExactly` | src/mulle-concurrent/mulle-concurrent-hashtable.c:823-914 | insert, register and remove answer EINVAL if and only if the hash is 0 or has the frozen bit, or the value is "never set", "removed" or has the sealed bit; then at once and without touching the map |
| `HashtableRequests.LooksUpTheRequest` | src/mulle-concurrent/mulle-concurrent-hashtable.c:808-820 | a lookup of an invalid hash finds nothing; any other finds what the map binds the requested hash to at an instant of the call; neither changes the map |
| `HashtableRequests.ChangesAsRequested` | src/mulle-concurrent/mulle-concurrent-hashtable.c:583-717 | a change of the map is the requested pair bound by an insert or register that reports it, to a hash that was free, or the requested pair removed, which was there |
| `HashtableRequests.SuccessChanges` | src/mulle-concurrent/mulle-concurrent-hashtable.c:583-717 | a call that reports success has changed the map with its last step |
| `HashtableRequests.MigrationReplaces` | src/mulle-concurrent/mulle-concurrent-hashtable.c:470-481 | a migration at the same size has replaced the storage that was current when it was asked for |
| `HashtableRuns.RunsAreOk` | src/mulle-concurrent/mulle-concurrent-hashtable.h:47-91 | the slot protocol of the header holds in every state of every run, and every thread knows what it relies on |
| `HashtableRuns.AdvanceIsInvisible` | src/mulle-concurrent/mulle-concurrent-hashtable.c:355-445 | when storage advances, it goes to the immediate successor; every slot left is frozen, every claimed one sealed; the successor binds exactly what the old storage bound |
| `HashtableRuns.RetiredForever` | src/mulle-concurrent/mulle-concurrent-hashtable.c:355-445 | no compare-and-swap ever succeeds again in a storage that has been left |
| `HashtableSteps.Stable` | src/mulle-concurrent/mulle-concurrent-hashtable.c:210-445 | no step of another thread invalidates what a thread knows at any of its program points |
| `HashtableProof.EveryStep` | src/mulle-concurrent/mulle-concurrent-hashtable.c:210-925 | each step keeps the memory invariant and changes the map only as its operation's linearization point |
| `HashtableProof.CarryMeets` | src/mulle-concurrent/mulle-concurrent-hashtable.c:301-352 | carry never meets a frozen virgin before the slot of its hash, and claims only in the successor of the current storage |
| `HashtableProof.CarryFinds` | src/mulle-concurrent/mulle-concurrent-hashtable.c:301-352 | carry never meets a sealed empty word, and installs only in a storage that is not yet current |
| `HashtableProof.StaleIsSettled` | src/mulle-concurrent/mulle-concurrent-hashtable.c:355-394 | no resurrection: what a lagging copier still carries has already arrived in the successor |
| `HashtableProof.NeverStuck` | src/mulle-concurrent/mulle-concurrent-hashtable.c:489-925 | the locals of a thread always name memory that exists |
| `HashtableActions.SuccessorEqual` | src/mulle-concurrent/mulle-concurrent-hashtable.c:355-445 | a retired storage and its completed successor have the same live bindings |
| `HashtableInvariant.OneSlotPerHash` | src/mulle-concurrent/mulle-concurrent-hashtable.c:210-229 | a storage never holds the same hash in two slots |
| `HashtableInvariant.FreeSlotEndsChain` | src/mulle-concurrent/mulle-concurrent-hashtable.c:552-574 | an unclaimed slot after foreign ones means that the hash has no slot |
| `HashtableOccupancy.OccupancyBound` | src/mulle-concurrent/mulle-concurrent-hashtable.c:180-229 | with T threads a storage never has more than size/2 - 1 + T claimed slots, although check, claim and count are separate steps |
| `HashtableOccupancy.ProbesEnd` | src/mulle-concurrent/mulle-concurrent-hashtable.c:507-527 | with T at most size/2 a lookup or remove never probes a whole round |
| `HashtableOccupancy.CarrySettlesAtOnce` | src/mulle-concurrent/mulle-concurrent-hashtable.c:301-352 | for any number of threads a carry stays in the immediate successor and never needs to follow a further one |
| `HashtableOccupancy.CarryWithinSize` | src/mulle-concurrent/mulle-concurrent-hashtable.c:301-352 | a carry makes at most as many probes as the successor has slots |
| `HashtableOccupancy.SuccessorDoubles` | src/mulle-concurrent/mulle-concurrent-hashtable.c:400-481 | a new storage has exactly twice the slots of the current one, or as many if it is made by a migration at the same size |
| `Occupancy.StepCounts` | src/mulle-concurrent/mulle-concurrent-hashtable.c:180-229 | for all containers that probe: with check, claim and count as separate steps, the counter lags behind the claims by the threads that have yet to count, and the claims stay below half of the slots plus the number of threads |
| `HashtableAlone.EndsAlone` | src/mulle-concurrent/mulle-concurrent-hashtable.c:823-925 | from every state of every run, a call that goes on alone ends; only a lookup or remove may instead probe a storage that is full of other hashes |
| `HashtableAlone.SpinsOn` | src/mulle-concurrent/mulle-concurrent-hashtable.c:507-527 | such a lookup or remove never ends |
| `HashtableAlone.NobodySpins` | src/mulle-concurrent/mulle-concurrent-hashtable.c:180-190 | with no more threads than half of the slots there is none |
| `HashtableHelping.FreezeLosesTwice` | src/mulle-concurrent/mulle-concurrent-hashtable.c:240-258 | freezing one slot loses at most two compare-and-swaps, whatever the others do |
| `HashtableHelping.SealLosesToWriters` | src/mulle-concurrent/mulle-concurrent-hashtable.c:260-288 | sealing one slot loses at most one compare-and-swap per writer already past the hash check, plus one to another sealer |
| `HashtableHelping.PendingFalls` | src/mulle-concurrent/mulle-concurrent-hashtable.c:583-717 | nobody gets past the hash check of a frozen slot, and every change of its value word uses up a writer in flight or the seal |
| `HashtableRetries.RetriesAreNewer` | src/mulle-concurrent/mulle-concurrent-hashtable.c:823-925 | every attempt of a call after the first is on a strictly newer storage |
| `HashtableRetries.AttemptsAreBounded` | src/mulle-concurrent/mulle-concurrent-hashtable.c:823-925 | a call makes at most one attempt more than the storage is replaced while it runs |
| `Probing.ProbeCovers` | src/mulle-concurrent/mulle-concurrent-hashtable.c:552-574 | one round of probing visits every slot |
| `Probing.ProbeInjective` | src/mulle-concurrent/mulle-concurrent-hashtable.c:552-574 | one round of probing visits no slot twice |
| `Sizes.ProbeWraps` | src/mulle-concurrent/mulle-concurrent-hashtable.c:552-574 | an index that wraps at the end of the machine word probes the same slots |
| `Sizes.AllocSize` | src/mulle-concurrent/mulle-concurrent-hashtable.c:151-177 | a table size is a power of two, at least 4 and at least the request |
| `Sizes.AllocSizeLeast` | src/mulle-concurrent/mulle-concurrent-hashtable.c:151-177 | it is the least such power of two |
| `Sizes.MaskIsProbe` | src/mulle-concurrent/mulle-concurrent-hashtable.c:552-574 | `index & mask`, also of an index that has wrapped, is the slot that the machines probe |
| `Rounding.RoundedUpIsLeast` | src/mulle-concurrent/mulle-concurrent-math.h:74-88 | on numbers the bit trick gives the least power of two that is not below its argument |
| `Rounding.RoundedUpIsAllocSize` | src/mulle-concurrent/mulle-concurrent-hashtable.c:151-177 | what the code allocates for a request is the size that the machines allocate |
| `Words.RoundUpIsPow2` | src/mulle-concurrent/mulle-concurrent-math.h:74-88 | the bit trick gives a power of two |
| `Words.RoundUpIsEnough` | src/mulle-concurrent/mulle-concurrent-math.h:74-88 | it is not below its argument |
| `Words.RoundUpIsLeast` | src/mulle-concurrent/mulle-concurrent-math.h:74-88 | it is the least power of two that is not |
| `Words.RoundUpWraps` | src/mulle-concurrent/mulle-concurrent-math.h:56-62 | above the largest power of two it wraps to 1 |
| `Words.MaskIsRemainder` | src/mulle-concurrent/mulle-concurrent-hashtable.c:552-574 | on 64-bit words, masking splits an index into a part below the size and a multiple of the size |
| `Words.WordsDiffer` | src/mulle-concurrent/mulle-concurrent-hashtable.c:97-132 | two machine words are equal exactly if they carry the same hash or value and mark, so that a compare-and-swap on words compares what the model compares |
| `Words.MarkKeepsBody` | src/mulle-concurrent/mulle-concurrent-hashtable.h:276-283 | setting FROZEN or SEALED changes nothing else; the legal hashes are the unmarked ones but 0 |
| `Words.ValidIsLive` | src/mulle-concurrent/mulle-concurrent-hashtable.h:291-299 | the legal values are the live unsealed ones |
| `Words.ChecksAgree` | src/mulle-concurrent/mulle-concurrent-hashtable.h:277-299 | the argument checks on machine words accept exactly the requests that the machine serves |
| `Words.TombIsPlain` | src/mulle-concurrent/mulle-concurrent-hashtable.c:738-753 | in both value modes TOMB is unsealed and not EMPTY |
| `HashmapRuns.Linearizable` | src/mulle-concurrent/mulle-concurrent-hashmap.c:627-797 | every run of lookup, insert and register is linearizable |
| `HashmapRuns.EveryCallLinearizes` | src/mulle-concurrent/mulle-concurrent-hashmap.c:222-370 | every call performs its operation with its last step or answers as the map does at an instant of the call |
| `HashmapRequests.RecordsTheRequest` | src/mulle-concurrent/mulle-concurrent-hashmap.c:627-811 | the history has every answered call with the operation and arguments that its caller passed |
| `HashmapRequests.RefusesExactly` | src/mulle-concurrent/mulle-concurrent-hashmap.c:745-811 | insert and register answer EINVAL if and only if the hash is 0 or the value is NULL or INTPTR_MIN, at once and without touching the map |
| `HashmapRequests.LooksUpTheRequest` | src/mulle-concurrent/mulle-concurrent-hashmap.c:222-258 | lookup finds what the map binds the requested hash to at an instant of the call; hash 0 finds nothing, although it is not checked |
| `HashmapRequests.ChangesAsRequested` | src/mulle-concurrent/mulle-concurrent-hashmap.c:113-156 | a change of the map is the requested pair, bound by an insert or register that reports it, to a hash that was free |
| `HashmapRequests.SuccessChanges` | src/mulle-concurrent/mulle-concurrent-hashmap.c:113-156 | a call that reports that it inserted has changed the map with its last step |
| `HashmapRuns.OneWinner` | src/mulle-concurrent/mulle-concurrent-hashmap.c:113-156 | in a whole run at most one insert or register of a hash reports that it inserted |
| `HashmapRuns.BoundForever` | src/mulle-concurrent/mulle-concurrent-hashmap.c:570-644 | once a hash is bound to a value every later state binds it to that value |
| `HashmapRuns.NobodyLeftBehind` | src/mulle-concurrent/mulle-concurrent-hashmap.c:430-506 | every binding is in the storage that is swapped in |
| `HashmapRuns.NeverStuck` | src/mulle-concurrent/mulle-concurrent-hashmap.c:380-420 | put never reports a full storage, and no thread is stuck |
| `HashmapProof.PutIsNotBusy` | src/mulle-concurrent/mulle-concurrent-hashmap.c:380-420 | put finds a slot within one round, for any number of threads |
| `HashmapProof.PendingIsNotFull` | src/mulle-concurrent/mulle-concurrent-hashmap.c:570-610 | a successor that is not yet current has a virgin slot |
| `HashmapProof.NextIsNew` | src/mulle-concurrent/mulle-concurrent-hashmap.c:403-411 | when put follows next_storage it gets a later storage |
| `HashmapProof.EveryStep` | src/mulle-concurrent/mulle-concurrent-hashmap.c:113-797 | each step keeps the invariants; only the filling of a void slot changes the map |
| `HashmapProof.Stable` | src/mulle-concurrent/mulle-concurrent-hashmap.c:113-797 | no step of another thread invalidates what a thread knows |
| `HashmapInvariant.OneSlotPerHash` | src/mulle-concurrent/mulle-concurrent-hashmap.c:101-132 | a hash has one slot per storage |
| `HashmapRetries.RetriesAreNewer` | src/mulle-concurrent/mulle-concurrent-hashmap.c:585-588 | every attempt of a call after the first is on a strictly newer storage |
| `HashmapRetries.AttemptsAreBounded` | src/mulle-concurrent/mulle-concurrent-hashmap.c:627-797 | a call makes at most one attempt more than the storage is replaced while it runs |
| `HashmapOccupancy.OccupancyBound` | src/mulle-concurrent/mulle-concurrent-hashmap.c:205-219 | with T threads a storage never has more than size/2 - 1 + T claimed slots |
| `HashmapOccupancy.SuccessorDoubles` | src/mulle-concurrent/mulle-concurrent-hashmap.c:570-600 | a new storage has exactly twice the slots of the current one, and four after the empty one |
| `HashmapAlone.EndsAlone` | src/mulle-concurrent/mulle-concurrent-hashmap.c:627-797 | from every state of every run, a call that goes on alone ends |
| `HashmapFrozen.FrozenVirginIsReachable` | src/mulle-concurrent/mulle-concurrent-hashmap.c:455-470 | a concrete run that reaches a slot with no hash that is redirected, and in which a late writer then claims it |
| `HashmapFrozen.FrozenVirgins` | src/mulle-concurrent/mulle-concurrent-hashmap.h:55-60 | in every run, a slot with no hash and a value word is redirected and its storage has a successor; unless its storage is just being migrated, a slot with no hash is so exactly if the storage has been left |
| `HashmapFrozen.FrozenByCopyOnly` | src/mulle-concurrent/mulle-concurrent-hashmap.c:455-470 | a slot with no hash is redirected if and only if copy has frozen it as a virgin |
| `HashmapFrozen.LateClaimIsHarmless` | src/mulle-concurrent/mulle-concurrent-hashmap.c:113-156 | a late claim of such a slot leaves the map as it is, and no value is ever stored there |
| `PointersetRuns.Linearizable` | src/mulle-concurrent/mulle-concurrent-pointerset.c:417-523 | every run of member, insert and register is linearizable |
| `PointersetRequests.RecordsTheRequest` | src/mulle-concurrent/mulle-concurrent-pointerset.c:417-520 | the history has every answered call with the operation and pointer that its caller passed |
| `PointersetRequests.RefusesExactly` | src/mulle-concurrent/mulle-concurrent-pointerset.c:448-501 | insert and register answer EINVAL if and only if the pointer is NULL or reserved, at once and without touching the set |
| `PointersetRequests.LooksUpTheRequest` | src/mulle-concurrent/mulle-concurrent-pointerset.c:504-520 | member of NULL is false, of any other pointer whether the set has it at an instant of the call |
| `PointersetRequests.ChangesAsRequested` | src/mulle-concurrent/mulle-concurrent-pointerset.c:417-501 | a change of the set is the requested pointer, added by a call that reports it |
| `PointersetRequests.SuccessChanges` | src/mulle-concurrent/mulle-concurrent-pointerset.c:417-501 | a call that reports that it inserted has changed the set with its last step |
| `PointersetRuns.OneWinner` | src/mulle-concurrent/mulle-concurrent-pointerset.c:174-238 | in a whole run at most one insert or register of a pointer reports that it inserted |
| `PointersetRuns.MemberForever` | src/mulle-concurrent/mulle-concurrent-pointerset.c:363-411 | a pointer never leaves the set, through all migrations |
| `PointersetRuns.NobodyLeftBehind` | src/mulle-concurrent/mulle-concurrent-pointerset.c:363-411 | the storage that is swapped in has every pointer of the set, unredirected |
| `PointersetRuns.NeverStuck` | src/mulle-concurrent/mulle-concurrent-pointerset.c:143-303 | the locals of a thread always name memory that exists |
| `PointersetRetries.RetriesAreNewer` | src/mulle-concurrent/mulle-concurrent-pointerset.c:372-376 | every attempt of a call after the first is on a strictly newer storage |
| `PointersetRetries.AttemptsAreBounded` | src/mulle-concurrent/mulle-concurrent-pointerset.c:417-519 | a call makes at most one attempt more than the storage is replaced while it runs |
| `PointersetOccupancy.OccupancyBound` | src/mulle-concurrent/mulle-concurrent-pointerset.c:462-490 | with T threads a storage never has more than size/2 - 1 + T slots in use |
| `PointersetOccupancy.SuccessorDoubles` | src/mulle-concurrent/mulle-concurrent-pointerset.c:384-405 | a new storage has exactly twice the slots of the current one, and four after the empty one |
| `PointersetAlone.EndsAlone` | src/mulle-concurrent/mulle-concurrent-pointerset.c:417-520 | from every state of every run, a call that goes on alone ends |
| `PointersetProof.PutTriedOk` | src/mulle-concurrent/mulle-concurrent-pointerset.c:240-303 | whatever the register of a copied pointer answers, the successor has the pointer if the source is still current |
| `PointersetProof.EveryStep` | src/mulle-concurrent/mulle-concurrent-pointerset.c:143-445 | each step keeps the invariants; only the winning compare-and-swap of register changes the set |
| `PointersetInvariant.OneSlotPerPointer` | src/mulle-concurrent/mulle-concurrent-pointerset.c:174-222 | no pointer ever occupies two slots of a storage |
| `PointerarrayRuns.AppendOnly` | src/mulle-concurrent/mulle-concurrent-pointerarray.c:183-336 | the published values are never lost, moved or changed, and the count never decreases |
| `PointerarrayRuns.AppendsOneAtATime` | src/mulle-concurrent/mulle-concurrent-pointerarray.c:183-246 | a step that changes the log appends the value of one add that is under way |
| `PointerarrayRuns.AddedOnce` | src/mulle-concurrent/mulle-concurrent-pointerarray.c:212-246 | when add returns its value has been published, exactly once, and not before the call |
| `PointerarrayRuns.GetIsCurrent` | src/mulle-concurrent/mulle-concurrent-pointerarray.c:471-490 | get answers what the log has at its index at some instant of the call |
| `PointerarrayRequests.AnswersGet` | src/mulle-concurrent/mulle-concurrent-pointerarray.c:471-487 | get answers what the array has at the index that it was called with, at an instant of the call |
| `PointerarrayRequests.AppendsAdd` | src/mulle-concurrent/mulle-concurrent-pointerarray.c:514-533 | add appends the value that it was called with by one step during the call, once, and not before |
| `PointerarrayRequests.HoldsWhatWasAdded` | src/mulle-concurrent/mulle-concurrent-pointerarray.c:212-250 | whatever the array has was passed to add by the thread and in the state that its item names |
| `PointerarrayLinearizability.Linearizable` | src/mulle-concurrent/mulle-concurrent-pointerarray.c:471-532 | all adds that have taken effect and all gets that have returned have one order, respecting real time, in which a sequential log gives the same answers |
| `PointerarrayLinearizability.AddIsListed` | src/mulle-concurrent/mulle-concurrent-pointerarray.c:514-532 | an add that has returned is in that order once, with a step of its own call |
| `PointerarrayRetries.RetriesAreNewer` | src/mulle-concurrent/mulle-concurrent-pointerarray.c:418-421 | every attempt of a call after the first is on a strictly newer storage |
| `PointerarrayRetries.AttemptsAreBounded` | src/mulle-concurrent/mulle-concurrent-pointerarray.c:471-532 | a call makes at most one attempt more than the storage is replaced while it runs |
| `PointerarrayRuns.SuccessorDoubles` | src/mulle-concurrent/mulle-concurrent-pointerarray.c:404-440 | a new storage has exactly twice the slots of the current one, and at least eight |
| `PointerarrayAlone.EndsAlone` | src/mulle-concurrent/mulle-concurrent-pointerarray.c:471-533 | from every state of every run, a call that goes on alone ends |
| `PointerarrayRuns.MigratesWhenFull` | src/mulle-concurrent/mulle-concurrent-pointerarray.c:404-468 | a storage is left only when every slot is filled, published and carried, and the swap leaves the log as it is |
| `PointerarrayRuns.NeverStuck` | src/mulle-concurrent/mulle-concurrent-pointerarray.c:281-336 | copy never finds an empty slot to freeze |
| `PointerarrayProof.EveryStep` | src/mulle-concurrent/mulle-concurrent-pointerarray.c:143-532 | each step keeps the invariants |
| `PointerarrayProof.AddIsPublished` | src/mulle-concurrent/mulle-concurrent-pointerarray.c:183-204 | publish returns only when the slot lies below the count of its storage |
| `PointerarrayProof.NextIsNew` | src/mulle-concurrent/mulle-concurrent-pointerarray.c:254-278 | when put follows next_storage it gets a later storage |
| `PointerarrayInvariant.SwapKeeps` | src/mulle-concurrent/mulle-concurrent-pointerarray.c:455-468 | the successor publishes the same values, no more and no fewer |
| `AbaRuns.FreedOnlyWhenUnseen` | src/mulle-aba/mulle-aba.c:848-1071 | when a free callback runs, no thread but the caller has been registered and outside checkin and unregister all the time since free was called; the caller itself only if it was alone |
| `AbaConservation.InOnePlace` | src/mulle-aba/mulle-aba.c:848-1071 | every pointer handed to free is in one hand, on one list or freed, exactly once |
| `AbaConservation.FreedAtMostOnce` | src/mulle-aba/mulle-aba-storage.c:480-519 | no callback runs twice, and none for a pointer that was not handed in |
| `AbaConservation.AllFreedInTheEnd` | src/mulle-aba/mulle-aba.c:432-590 | when every thread has unregistered, everything that was handed in has been freed |
| `AbaProgress.FreedOnceAllCaughtUp` | src/mulle-aba/mulle-aba.c:298-347 | once every thread that was registered when a call of free returned has made a whole checkin or has left, and nobody is in the middle of releasing a list, the pointer that the caller passed has been freed, once |
| `AbaProgress.CheckinSettles` | src/mulle-aba/mulle-aba.c:271-347 | a thread that has checked in owes nothing up to the timestamp that was current when it began to |
| `AbaProgress.UnregisterLeaves` | src/mulle-aba/mulle-aba.c:432-590 | a thread that has unregistered is not registered, and owes nothing |
| `AbaProgress.RegisterRegisters` | src/mulle-aba/mulle-aba.c:190-265 | a thread that has registered is registered, and owes only what comes after the timestamp at which it was counted |
| `AbaProgress.FreshWhenEmpty` | src/mulle-aba/mulle-aba.c:359-429 | whenever nobody is registered, there are no timestamps, storages and entries, as after init |
| `AbaGrowth.GrowsForAReason` | src/mulle-aba/mulle-aba.c:848-1020 | a new world has one more storage, rotated storages or more room only if some world of the run lacked a storage for its next timestamp, and rotates or grows only if one had no room for it; room grows to one more than that one had |
| `AbaAlone.EndsAlone` | src/mulle-aba/mulle-aba.c:231-1071 | from every state of every run, a call that goes on alone, and finds no storage to reuse, gets to its end |
| `AbaAccounting.DecrementedOnceEach` | src/mulle-aba/mulle-aba-storage.c:1501-1523 | in every run, each thread that was registered when a timestamp was made has decremented it exactly once when it does not owe it any more, and not before; no other thread ever does |
| `AbaAccounting.OneSeesZero` | src/mulle-aba/mulle-aba-storage.c:1513-1523 | in every run at most one decrement of a timestamp sees zero, and exactly one has once nobody owes it |
| `AbaAccounting.MadeForMembers` | src/mulle-aba/mulle-aba.c:959-972 | the step that makes a timestamp makes it owed by exactly the registered threads, and the count to be added is their number |
| `AbaLayout.OwedStaysPut` | src/mulle-aba/mulle-aba-storage.c:226-290 | as long as anybody owes a timestamp, every world of the run finds its entry in the same storage |
| `AbaLayout.LayoutExists` | src/mulle-aba/mulle-aba-storage.c:165-223 | the storage pointers of every run's worlds can be had by pushing and rotating alone |
| `AbaProof.EveryStep` | src/mulle-aba/mulle-aba.c:190-1071 | every step keeps the epoch accounting: the retain count of a timestamp is the number of threads that still owe it a decrement |
| `AbaProof.ClearBitMeansAllOwe` | src/mulle-aba/mulle-aba.c:646-715 | while the world bit is clear every registered thread owes the current timestamp |
| `AbaProof.NewTimestamp` | src/mulle-aba/mulle-aba.c:701-715 | a new timestamp is owed by exactly the registered threads, whose number the new world has |
| `AbaProof.LastDecrementSeesZero` | src/mulle-aba/mulle-aba-storage.c:1501-1523 | a decrement sees zero exactly if it is the last one owed, even if some came before the count was added |
| `AbaProof.AddedBeforeTaken` | src/mulle-aba/mulle-aba.c:959-1045 | nothing is added to a list after it is taken |
| `AbaProof.ReleasedIsFresh` | src/mulle-aba/mulle-aba-storage.c:94-116 | the usage bit is clear exactly if nobody owes or releases the timestamp, and then the entry is as new |
| `AbaProof.ReleasedInOrder` | src/mulle-aba/mulle-aba-storage.c:1501-1551 | timestamps are released in increasing order |
| `AbaProof.DecrementFindsEntry` | src/mulle-aba/mulle-aba-storage.c:226-255 | the world that a checkin looks at has an entry for every timestamp it decrements |
| `AbaProof.OwedIsAddressable` | src/mulle-aba/mulle-aba-storage.c:226-255 | every timestamp that somebody owes is in the current world |
| `AbaProof.RotationIsSafe` | src/mulle-aba/mulle-aba-storage.c:1555-1595 | storages are given to new timestamps only when nobody owes their old ones |
| `AbaProof.ResetLosesNothing` | src/mulle-aba/mulle-aba.c:359-429 | when the last thread leaves, no list holds a pointer |
| `AbaReuse.LoopMayRotate` | src/mulle-aba/mulle-aba-storage.c:1555-1595 | the reuse loop, spread over a run in which the others go on releasing, rotates out released storages only |
| `AbaReuse.ReleasedStays` | src/mulle-aba/mulle-aba-storage.c:1450-1478 | a released timestamp is never used again |
| `AbaRotation.RotatesOnlyUnused` | src/mulle-aba/mulle-aba-storage.c:1555-1595 | testing index i while rotating index 0 still rotates out unused storages only, never the current one |
| `AbaRotation.RotatesAllButOne` | src/mulle-aba/mulle-aba-storage.c:1555-1595 | exactly how many: all unused storages if their number is odd, else all but one |
| `AbaRotation.CountsAllUnused` | src/mulle-aba/mulle-aba-storage.c:1604-1607 | the counting variant reports all of them |
| `AbaRotation.CountingAgrees` | src/mulle-aba/mulle-aba-storage.c:1598-1607 | counting finds a storage exactly if rotating does |
| `AbaRotation.WorldStruct.ReuseStorages` | src/mulle-aba/mulle-aba-storage.c:1555-1595 | the loop on the array does that many rotations and nothing else |
| `AbaRotation.WorldStruct.PopStorage` | src/mulle-aba/mulle-aba-storage.c:165-190 | the first storage is taken out, the rest kept in order, the offset moved on |
| `AbaRotation.WorldStruct.PushStorage` | src/mulle-aba/mulle-aba-storage.c:193-210 | a storage is added at the end, or refused if there is no room |
| `AbaRotation.WorldStruct.RotateStorage` | src/mulle-aba/mulle-aba-storage.c:213-223 | the first storage becomes the last |
| `BufferModel.Conservation` | src/mulle-buffer/mulle-flushablebuffer.c:40-62 | over every sequence of operations that does not end in overflow, bytes delivered followed by bytes held are the bytes appended |
| `BufferModel.FlushDelivers` | src/mulle-buffer/mulle--buffer.c:343-355 | a flush of a flushable buffer succeeds exactly if there is nothing to flush or the callback takes the bytes; then the content is empty and the sink has it all, else the buffer is overflown and keeps its bytes; the callback is called exactly if there are bytes |
| `BufferModel.FlushedAtLast` | src/mulle-buffer/mulle-flushablebuffer.c:40-62 | after any operations and a flush that succeeds, the callback has everything that was ever appended |
| `BufferModel.FlushableOverflows` | src/mulle-buffer/mulle-flushablebuffer.c:40-62 | a flushable buffer overflows exactly if its callback fails, and does not call it again |
| `BufferModel.NoOverflow` | src/mulle-buffer/mulle--buffer.c:389-451 | a flushable buffer whose callback never fails never overflows |
| `BufferModel.FlexibleOverflows` | src/mulle-buffer/mulle--buffer.c:343-355 | a flexible buffer overflows exactly if it is flushed |
| `BufferModel.GrowthIsLinear` | src/mulle-buffer/mulle--buffer.c:358-385 | all growths of a flexible buffer together move at most its final capacity |
| `BufferModel.CapacityGrows` | src/mulle-buffer/mulle--buffer.c:358-385 | the first allocation honours the capacity asked for at init, every other one at least doubles, and the content stays |
| `BufferModel.GuaranteeMakesRoom` | src/mulle-buffer/mulle--buffer.c:320-340 | a successful guarantee leaves the room asked for and loses nothing; exactly when it succeeds, mode by mode; with enough room the buffer stays as it is |
| `BufferModel.OverflowIsSticky` | src/mulle-buffer/mulle--buffer.c:308-318 | an overflown buffer takes nothing and loses nothing |
| `BufferModel.InflexibleKeepsPrefix` | src/mulle-buffer/mulle--buffer.h:494-504 | an inflexible buffer keeps the bytes that fit and overflows exactly if there are more |
| `BufferModel.InflexibleBlock` | src/mulle-buffer/mulle--buffer.c:533-561 | an inflexible buffer takes a block as a whole or not at all |
| `BufferModel.BlockAppends` | src/mulle-buffer/mulle--buffer.c:533-561 | a block that does not overflow is appended, in one piece or byte by byte |
| `BufferModel.PutAllAppends` | src/mulle-buffer/mulle--buffer.h:494-504 | bytes that do not overflow are appended in order, through all flushes and growths |
| `Buffer.MulleBuffer.AddString` | src/mulle-buffer/mulle--buffer.c:565-602 | eight bytes at a time is the same as byte by byte, in all modes |
| `Buffer.MulleBuffer.AddBytes` | src/mulle-buffer/mulle--buffer.c:533-561 | the buffer does what the model does with a block |
| `Buffer.MulleBuffer.AddByte` | src/mulle-buffer/mulle--buffer.h:494-504 | the buffer does what the model does with a byte |
| `Buffer.MulleBuffer.Memset` | src/mulle-buffer/mulle--buffer.h:715-733 | a block of equal bytes is appended as a block |
| `Buffer.MulleBuffer.FlushToCallback` | src/mulle-buffer/mulle-flushablebuffer.c:40-62 | the held bytes go to the callback in one call; if it takes them the buffer is empty, if not it is overflown and keeps them |
| `Buffer.MulleBuffer.Flush` | src/mulle-buffer/mulle--buffer.c:343-355 | a flushable buffer is flushed: it is empty and its sink has all, or it is overflown and keeps its bytes; any other is overflown by it |
| `Buffer.MulleBuffer.Grow` | src/mulle-buffer/mulle--buffer.c:389-451 | growing keeps the content; flushable buffers flush, inflexible ones overflow |
| `Buffer.MulleBuffer.Guarantee` | src/mulle-buffer/mulle--buffer.c:320-340 | if the room is missing the buffer grows by exactly what is missing, else it stays as it is |
| `Buffer.MulleBuffer.SetOverflown` | src/mulle-buffer/mulle--buffer.c:308-318 | the length before the overflow is kept |
| `Buffer.MulleBuffer.GetLseek` | src/mulle-buffer/mulle--buffer.c:101-110 | the position is the number of bytes delivered and held |
| `Buffer.MulleBuffer.Perform` | src/mulle-buffer/mulle--buffer.c:533-602 | any sequence of operations conserves the bytes |
| `Buffer.MulleBuffer.AddCChars` | src/mulle-buffer/mulle--buffer.c:669-687 | the escaped bytes are appended, unless the buffer overflows |
| `Buffer.MulleBuffer.AddCString` | src/mulle-buffer/mulle--buffer.c:824-840 | a literal is appended that a compiler makes the string of, unless the buffer overflows |
| `Escape.RoundTrip` | src/mulle-buffer/mulle--buffer.c:766-821 | reading the escaped bytes by section 6.4.4.4 of ISO/IEC 9899:2011 gives back the bytes |
| `Escape.LiteralRoundTrip` | src/mulle-buffer/mulle--buffer.c:824-840 | the literal denotes its argument; no unescaped quote ends it early |
| `Escape.EscapeReadsBack` | src/mulle-buffer/mulle--buffer.c:766-821 | one escaped byte reads back whatever follows it |
| `Escape.CompilesBack` | src/mulle-buffer/mulle--buffer.c:824-840 | trigraph replacement, line splicing (sections 5.1.1.2 and 5.2.1.1 of ISO/IEC 9899:2011) and reading the literal give back the bytes |
| `Escape.EscapedIsPlain` | src/mulle-buffer/mulle--buffer.c:766-821 | what is written holds no two question marks in a row and nothing that does not print |
| `Escape.Spelling` | src/mulle-buffer/mulle--buffer.c:766-821 | a printing byte other than quote, question mark and backslash is written as itself, the ten named bytes as a backslash and their letter |
| `Escape.OctalSpelling` | src/mulle-buffer/mulle--buffer.c:766-821 | every other byte is written as a backslash and the three octal digits of its value |

## Left out

- Weak memory order, fences and the atomics themselves: each atomic operation is one sequentially consistent step.
- Allocators, ENOMEM and abort paths, size and timestamp overflow: integers are unbounded, except in `Words`.
- Real addresses: storages and worlds have fresh numbers; values and pointers are numbers; NULL maps are not modelled.
- The lock bit of the world pointer, the leak list and the recycling of world memory in mulle-aba: the lock and the swap of unregister are one step, worlds are values.
- The machine of mulle-aba names an entry by its timestamp, not by its storage; `AbaProof.ReleasedIsFresh` and `AbaLayout.OwedStaysPut` are what justifies it. A usage bit left over by a lost swap only keeps a storage from being reused, and is not modelled in the storage it was set in.
- The NULL test in the reuse loop of mulle-aba: the first n storage pointers of a world are never NULL.
- Calls that run alone are shown to end, by ranks; the number of their steps is not given as a formula. A call that does not run alone may have to retry as often as the storage is replaced (`AttemptsAreBounded`).
- AbaAlone.EndsAlone: says that the call can end, not that it must, because how many storages a look for reusable ones finds is left open; it is shown with none found.
- member of the pointerset with one of the two reserved pointers, which it does not check: it may report a redirected slot.
- Enumerators, count and lookup_any of the containers, which are documented as snapshots; find and map of the pointerarray.
- Patch and remove of the hashmap, which are for a single thread.
- Buffers whose source bytes lie inside the buffer itself, add_string_with_maxlength, lseek positioning, ranges, size_to_fit, extraction, hexdump and the sprintf mode.
- `Rounding` and `Sizes` have the bit operations on unsigned numbers, `Words` on 64-bit words; that a word stands for its number is not proved.
- MIN_GROW has the value of a release build (64), ENTRIES that of a 64-bit machine without the debug setting.
- mulle-alloca, c11 headers, version checks and dlfcn-win32.
