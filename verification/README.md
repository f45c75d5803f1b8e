# Verified cores of a Bitcoin-derived node

This project models ten parts of the Lynx node (a fork of Bitcoin Core 25, in C++) in Dafny and proves what
each is for. Every part has a model on values, about which the theorems are stated, and, where the program
changes things in place, classes and methods with the program's own loops, each proved to compute what the
value model says. Hashes, clocks, random draws and calls into other subsystems are parameters, so each theorem
holds for every hash function and every sequence of random choices.

| part | files | main results |
|---|---|---|
| address manager | `AddrMan*.dfy` | The redundant structures stay consistent in every run, and the self-check always passes. When exactly an announced address is stored; a tried entry is evicted only if it was found stale; no group of addresses or sources gets more than its share of the tables. Saving and loading gives back the same tables; under another map of the network an entry is lost only to one that gets the same slot. |
| coin caches | `Coins*.dfy` | A stack of write-back caches of any depth shows the same coins as plain maps; FRESH is never misapplied; memory accounting is exact. |
| check queue | `CheckQueue*.dfy` | In every interleaving of a master and any number of workers, `Wait` returns the conjunction of the round's checks; no deadlock; queued checks never wait for a sleeping worker; `Wait` ends under every schedule. |
| headers sync | `HeadersSync*.dfy` | Everything released is a prefix of one hash-linked chain, deep below its tip until enough work is shown; memory is bounded; which messages each phase accepts and what each releases; an honest peer gets through from construction exactly if its messages are full up to the work target. |
| cuckoo cache | `Cuckoo*.dfy` | Insertion stores an element that has an open slot, and drops one only after a full chain of displacements; what is stored is found for an epoch; live elements are always found; a table of 21 slots or more never fills up with live elements. |
| block index | `Chain*.dfy` | Skip-list search, `SetTip` with its early stop, fork and common-ancestor search all equal the plain parent walk; from a height below 2^n the skip list needs at most n(n + 3) steps. |
| 256-bit arithmetic | `Powers.dfy`, `Arith*.dfy` | Limb loops compute modular arithmetic exactly, for any number of limbs; shift-subtract division is exact; a target's proof is floor(2^256 / (target + 1)); writing a compact target rounds down to the nearest one, and reading and writing is the identity exactly on those in lowest terms. |
| Bech32 | `Bech32*.dfy` | Encoding and decoding are inverse; the checksum is the remainder by the generator over GF(32), which has three consecutive roots in GF(1024); so any three changed symbols among 1023 are detected, and any change within six consecutive symbols at every length. |
| Base58 | `Base*.dfy` | A string is the encoding of bytes exactly if it is the same number, with as many ones in front as they have zeros; encoding and decoding are inverse; the buffers suffice at every length. |
| compact blocks | `CompactBlocks*.dfy` | Reconstruction gives back the block; what is not at hand is requested, and nothing else exactly if the count of earlier matches is zero or out of reach. |

Conventions. A `State`, `Stack`, `Shared` or similar datatype is the value of an object; `View()` of a class is
that value. Functions named like the program's operations map a state to the next one. All inductions are
written out (`{:induction false}` on every lemma). `Inv`, `Consistent`,
`StackOk` and `Matching` are invariants. A predicate or function passed in as an `Env` or `Config` is left open.

Where comments and code of the program disagree the model follows the code. In the cuckoo cache the comment on
displacement says that the first element to move is in the first location, while the code moves the one in the
second. In the coin caches one of the five documented combinations of flags (spent, FRESH, not DIRTY) cannot
occur, because parents do not hand out spent coins; `CoinsClass.SanityHolds` states the four that do.

One expected property is false of the code. `PartiallyDownloadedBlock` never sets its count of pool matches back, so
when an object is used for a second block the scans can stop before all matches are found. The block is still
rebuilt correctly, but transactions at hand are requested. `CompactBlocksMatch.LeftOverCount` is the smallest such
case and `CompactBlocksMatch.SteadyExact` the exact condition on the count.

## Model

| member | source | states |
|---|---|---|
| `AddrManInvariant.SwapRandomKeeps` | src/addrman.cpp:437-459 | Swapping two places of the random order keeps it a permutation of the ids that agrees with the recorded positions. |
| `AddrManInvariant.CreateKeeps` | src/addrman.cpp:421-435 | Creating an entry under a new address keeps all invariants, with the new id waiting for a table. |
| `AddrManInvariant.DeleteKeeps` | src/addrman.cpp:461-476 | Deleting an entry that is in no table keeps all invariants. |
| `AddrManInvariant.ClearNewKeeps` | src/addrman.cpp:478-494 | Emptying a new slot keeps all invariants: the reference count follows and the entry dies with its last slot. |
| `AddrManInvariant.StripNewKeeps` | src/addrman.cpp:500-514 | Taking an entry out of all its new slots leaves exactly that entry outside both tables. |
| `AddrManOps.EvictKeeps` | src/addrman.cpp:520-546 | Moving the occupant of a tried slot back to the new table keeps all invariants and empties only that tried slot. |
| `AddrManOps.MakeTriedKeeps` | src/addrman.cpp:496-553 | Promotion keeps all invariants and changes the tried table in exactly the entry's slot, for every previous occupant. |
| `AddrManOps.StoreNewKeeps` | src/addrman.cpp:605-629 | Storing in the new slot of a source, with overwriting and with deletion of an entry left without slots, keeps all invariants. |
| `AddrManRun.AddSingleKeeps` | src/addrman.cpp:555-629 | Adding one address keeps all invariants and does not touch the tried table. |
| `AddrManRun.GoodKeeps` | src/addrman.cpp:631-683 | A good connection keeps all invariants, never frees a tried slot, and keeps recorded times in order if its time is positive. |
| `AddrManRun.ResolveKeeps` | src/addrman.cpp:859-920 | Resolving all waiting collisions, in any order and with any clock, keeps all invariants. |
| `AddrManRun.StepKeeps` | src/addrman.cpp:1115-1205 | Every public operation keeps the whole invariant, never frees a tried slot and never reuses an id. |
| `AddrManRun.RunKeeps` | src/addrman.cpp:1115-1205 | The same over every sequence of operations. |
| `AddrManRun.ReachableConsistent` | src/addrman.cpp:107-123 | In every run from construction the maps are inverse bijections, the random order is a permutation, reference counts are slot counts between 1 and 8, every slot is that of its hash, and the counters match. |
| `AddrManRun.GoodTimesExact` | src/addrman.cpp:637-649 | Recorded success times stay consistent with the tried flag exactly when the time passed in is acceptable; the condition is one on the arguments. |
| `AddrManRun.SelectTriedCollisionSafe` | src/addrman.cpp:922-948 | In every consistent state nothing is reported exactly if no id waits or the picked one is dead; otherwise the report is a real tried entry, so the lookup never uses -1 as an id. |
| `AddrManWaiting.WaitingCollides` | src/addrman.cpp:664-675 | In every run from construction a live waiting id is still in the new table, and its tried slot is held by a different live entry of the tried table, the one reported for a test. |
| `AddrManRun.GetAddrSelects` | src/addrman.cpp:786-822 | The answer consists of distinct entries that are not terrible and of the right network, as many as allowed, or all there are if fewer; the state changes only in its random order. |
| `AddrManEffects.AddSingleEffect` | src/addrman.cpp:555-629 | The flag is true exactly when the address was put into the new slot of its source; that slot is the only change in the tables, and only an entry whose single slot it was can be lost. The next two say when it is true. |
| `AddrManAdd.UnknownAddedExact` | src/addrman.cpp:559-629 | An unknown address is added if and only if it is routable and the new slot of its source is free, or held by an entry that is terrible or has another slot. |
| `AddrManAdd.KnownAddedExact` | src/addrman.cpp:565-629 | A known address gets one more slot if and only if the announcement is newer than what is recorded, the entry is untried with fewer than eight slots, the draw is a multiple of two to the number of slots, and the slot is free or held by another entry that is terrible. |
| `AddrManAdd.UnknownEntry` | src/addrman.cpp:600-626 | An added unknown address is stored with the announced services, the announced time less the penalty, this source, one slot and no history; one that is not added leaves no trace. |
| `AddrManAdd.KnownEntry` | src/addrman.cpp:565-619 | A known address keeps its id and history, gains the announced services, and its time moves only if it is old enough. |
| `AddrManAdd.OthersAfterAdd` | src/addrman.cpp:607-627 | Every other entry is unchanged, but for the occupant of the slot that was given away: it has one slot less, and is gone if that was its last. |
| `AddrManAdd.FirstAddress` | src/addrman.cpp:555-629 | An empty manager takes any routable address from any source. |
| `AddrManLimits.SourceShare` | src/addrman.h:65-69 | Whatever a source announces, in any number of addresses, it changes no new slot outside the 4096 of its group. |
| `AddrManLimits.NewSpread` | src/addrman.cpp:53-59 | A group of sources has at most 64 new buckets, and the group of the address alone decides which of them. |
| `AddrManLimits.TriedSpread` | src/addrman.cpp:46-51 | A group of addresses has at most eight tried buckets, whatever the hash. |
| `AddrManLimits.EverySlotReached` | src/addrman.cpp:46-65 | Every address can get every slot of both tables, depending on the hash. |
| `AddrManLimits.TriedShare` | src/addrman.h:75-77 | In every consistent state no group of addresses has more than 512 entries of the tried table. |
| `AddrManLimits.TerribleExact` | src/addrman.cpp:67-90 | When an entry is worth keeping, in seconds, days and failures. |
| `AddrManEffects.MakeTriedEffect` | src/addrman.cpp:496-553 | Which new slots are freed, where the evicted entry goes, and which single entry this can cost. |
| `AddrManEffects.GoodEffect` | src/addrman.cpp:631-683 | Success is recorded with every known address, and promotion happens exactly for entries of the new table whose tried slot is free or may be taken; otherwise both tables stay as they are, and the entry waits exactly if it is untried and fewer than ten wait. No other entry changes. |
| `AddrManResolve.ResolvedExact` | src/addrman.cpp:873-913 | A live waiting entry takes its tried slot if and only if the occupant is stale, and still waits if and only if nothing is decided; both are conditions on recorded times. In the first case the occupant goes back to the new table, in all others only the waiting list changes. |
| `AddrManResolve.EvictedOnlyIfStale` | src/addrman.cpp:859-920 | Over a whole resolution, in any order and with any clock, a tried entry loses its slot only if some waiting entry found it stale by what was recorded at the start. |
| `AddrManResolve.SoleDecided` | src/addrman.cpp:859-920 | An entry that alone waits for its slot has it in the end exactly if the occupant was stale, and waits on exactly if nothing was decided. |
| `AddrManResolve.ReachableSettled` | src/addrman.cpp:664-675 | In every run from construction the waiting ids satisfy what these three assume. |
| `AddrManLimits.AttemptNoted` | src/addrman.cpp:697-715 | An attempt changes the entry of its address alone, and counts as a failure exactly if it may and is the first since a good connection. |
| `AddrManLimits.CountedOnce` | src/addrman.cpp:697-715 | Any number of attempts without a good connection between them count as one failure. |
| `AddrManLimits.ConnectedNoted` | src/addrman.cpp:824-841 | The recorded time moves forward, to within twenty minutes, and never back; nothing else changes. |
| `AddrManLimits.ServicesNoted` | src/addrman.cpp:843-857 | The services of the address are replaced and nothing else changes. |
| `AddrManLimits.GetAddrAnswers` | src/addrman.cpp:786-822 | The answer consists of distinct entries of the asked network that are worth keeping, within the number and the percentage asked for; a further one is left out only if one of these limits is met. |
| `AddrManLimits.LimitExact` | src/addrman.cpp:790-796 | The limit is the largest number within both the number and the percentage asked for. |
| `AddrManClass.AddrMan.RemoveFromNew` | src/addrman.cpp:500-514 | The scan over buckets that stops early still clears every new slot of the entry. |
| `AddrManClass.AddrMan.ClearNew` | src/addrman.cpp:478-494 | On the arrays: the new state is that of the value model. |
| `AddrManClass.AddrMan.Create` | src/addrman.cpp:421-435 | Likewise, for a new entry. |
| `AddrManClass.AddrMan.SwapRandom` | src/addrman.cpp:437-459 | Likewise, for a swap in the random order. |
| `AddrManClass.AddrMan.Delete` | src/addrman.cpp:461-476 | Likewise, for a deletion; the entry is swapped to the end first. |
| `AddrManClass.AddrMan.MakeTried` | src/addrman.cpp:496-553 | Likewise, for a promotion with eviction. |
| `AddrManClass.AddrMan.AddSingle` | src/addrman.cpp:555-629 | Likewise, for one announced address; the result flag too. What state and flag are is stated by the lemmas of `AddrManAdd`. |
| `AddrManClass.AddrMan.Add` | src/addrman.cpp:685-695 | Likewise, for a list of addresses; the result is true exactly if one of them, after those before it, was put into a new slot. |
| `AddrManClass.AddrMan.Good` | src/addrman.cpp:631-683 | Likewise, for a good connection. |
| `AddrManClass.AddrMan.Attempt` | src/addrman.cpp:697-715 | Likewise, for a connection attempt; failures count once per good connection elsewhere. |
| `AddrManClass.AddrMan.Connected` | src/addrman.cpp:824-841 | Likewise, for the time update after a connection. |
| `AddrManClass.AddrMan.SetServices` | src/addrman.cpp:843-857 | Likewise, for the services of an address. |
| `AddrManClass.AddrMan.ResolveCollisions` | src/addrman.cpp:859-920 | Likewise, for the loop over waiting ids. Who keeps and who takes a slot is stated by the lemmas of `AddrManResolve`. |
| `AddrManClass.AddrMan.SelectTriedCollision` | src/addrman.cpp:922-948 | Likewise, for the choice of a collision to test, also when no id waits. |
| `AddrManClass.AddrMan.GetAddr` | src/addrman.cpp:786-822 | Likewise, for the shuffling loop that collects addresses. |
| `AddrManCheck.CheckAddrman` | src/addrman.cpp:1010-1113 | The self-check with its loops returns zero exactly when the state satisfies the check's conditions. |
| `AddrManCheck.CheckNew` | src/addrman.cpp:1079-1097 | The scan of the new table with its countdown of references returns zero exactly when slots and reference counts agree. |
| `AddrManCheck.CheckTried` | src/addrman.cpp:1062-1095 | The scan of the tried table returns zero exactly when slots and tried flags agree. |
| `AddrManCheck.ConsistentChecked` | src/addrman.cpp:1010-1113 | A consistent state with a key and times in order passes the self-check. |
| `AddrManCheck.ReachableChecked` | src/addrman.cpp:995-1008 | In every run from construction with times in order the self-check passes after every operation. |
| `AddrManCheck.CheckedConsistent` | src/addrman.cpp:1010-1113 | What a passed self-check leaves open: with it times are in order, and the state is consistent exactly if, besides, no address is stale, ids are below the next one, addresses are routable, networks with entries have counters, and waiting ids are dead or collide. |
| `AddrManCheck.CountsCheckedExact` | src/addrman.cpp:1101-1110 | The counter test misses exactly the networks that have entries but no counters. |
| `AddrManDisk.RoundTrip` | src/addrman.cpp:131-404 | Saving any consistent state and loading it with the same asmap succeeds and gives a consistent state with the same address in every slot of both tables, the same reference counts and persisted fields, and no lost entry. |
| `AddrManDisk.LoadNewsMirror` | src/addrman.cpp:287-296 | Loading the records of the new entries gives the same entries under consecutive ids. |
| `AddrManDisk.RebuildRestores` | src/addrman.cpp:321-393 | Placing the stored bucket indexes restores every new slot, so that nothing is pruned. |
| `AddrManRebucket.SaneLoads` | src/addrman.cpp:230-404 | Every readable file of routable addresses without repetition loads, whatever its bucket lists say, into a consistent state: each tried slot goes to the first record that wants it, and each new slot too if the buckets cannot be restored. |
| `AddrManRebucket.OtherMapLoads` | src/addrman.cpp:338-404 | A saved state loads under any other map of the network. Nothing is loaded that was not saved, and an entry is lost only if another one of its table gets the same slot under the new map. |
| `AddrManRebucket.RebucketServes` | src/addrman.cpp:353-381 | Placing entries by their own sources serves each new slot to the first that wants it. |
| `AddrManRebucket.PruneKeeps` | src/addrman.cpp:383-393 | Pruning, in any order, deletes exactly the entries in no table and makes the state consistent. |
| `AddrManFile.Serialize` | src/addrman.cpp:131-227 | The writing loops produce the file of the value model, whatever the order of the map. |
| `AddrManFile.Unserialize` | src/addrman.cpp:230-404 | The reading loops, with all error exits, load exactly what the value model loads; the version error is for exactly the files that ask for a newer format, and every readable sane file is accepted. |
| `CoinsProof.FetchKeeps` | src/coins.cpp:44-59 | Fetching through any number of levels changes no view and keeps all flags right. |
| `CoinsProof.FetchClean` | src/coins.cpp:44-59 | Nothing is added to any level but clean copies of the coin, and no entry that was there changes. |
| `CoinsProof.AddCoinKeeps` | src/coins.cpp:70-108 | Adding within the caller's contract does not throw, changes the top view in that coin only, and keeps flags and usage right. |
| `CoinsProof.SpendCoinKeeps` | src/coins.cpp:130-150 | Spending returns the visible coin, makes it invisible at the top only, and keeps flags and usage right. |
| `CoinsProof.AddSpendForgets` | src/coins.cpp:70-150 | A coin new to the cache, added without overwriting and spent again, leaves no trace in any cache. |
| `CoinsProof.UncacheKeeps` | src/coins.cpp:282-295 | Uncaching changes no view; afterwards the cache has the coin exactly if its entry was dirty, and all other entries as before. |
| `CoinsProof.MergeShows` | src/coins.cpp:183-248 | Writing one entry to the parent never meets the misapplied-FRESH case, makes the parent show what the child shows, and leaves correct flags; a coin new to the level below stays FRESH, and if spent is forgotten. |
| `CoinsProof.WriteTopCatchesUp` | src/coins.cpp:183-253 | Writing a whole cache makes the base show what the child shows and throws for no entry. |
| `CoinsProof.FlushKeeps` | src/coins.cpp:255-263 | Flush brings the base up to the child, leaves the child empty with no usage, and its view unchanged. |
| `CoinsProof.SyncKeeps` | src/coins.cpp:265-280 | Sync brings the base up to the child and leaves in the child exactly its unspent coins, without flags. |
| `CoinsRun.StepRefines` | src/coins.cpp:44-295 | Each operation keeps the invariant and the agreement of every level with plain maps, and never throws. |
| `CoinsRun.RunRefines` | src/coins.cpp:44-295 | In every legal run, with caches pushed and popped at any depth, every level shows what plain maps given the same operations hold. |
| `CoinsRun.BareStack` | src/coins.cpp:35-38 | A stack without caches over a map of unspent coins satisfies the invariant and agrees with that map. |
| `CoinsClass.AddCoinExact` | src/coins.cpp:74-97 | An unannounced, non-throwing add keeps the caches sound exactly when no coin was visible. |
| `CoinsClass.BrokenContractRevives` | src/coins.cpp:84-97 | Breaking that contract has this effect: spending the new coin brings the old one back. |
| `CoinsClass.AddCoinThrows` | src/coins.cpp:70-83 | AddCoin throws if and only if a spendable coin meets an unspent entry of the top cache without an announced overwrite, and then no view changes. |
| `CoinsClass.SanityHolds` | src/coins.h:101-140 | At every level of a sound stack only four of the eight combinations of DIRTY, FRESH and spent occur, and the usage counter is the sum over the entries. |
| `CoinsClass.CoinStack.FetchCoin` | src/coins.cpp:44-59 | The recursive fetch on the object is that of the value model. |
| `CoinsClass.CoinStack.GetCoin` | src/coins.cpp:61-68 | Whether an unspent coin is there, and which one, after fetching it. |
| `CoinsClass.CoinStack.HaveCoin` | src/coins.cpp:163-166 | True exactly when the top level shows the coin. |
| `CoinsClass.CoinStack.AddCoin` | src/coins.cpp:70-108 | State and throw are those of the value model. |
| `CoinsClass.CoinStack.SpendCoin` | src/coins.cpp:130-150 | State and returned coin are those of the value model. |
| `CoinsClass.CoinStack.Uncache` | src/coins.cpp:282-295 | The state is that of the value model. |
| `CoinsClass.CoinStack.BatchWrite` | src/coins.cpp:183-253 | The loop over the child's entries, in any order, throws exactly if some entry is misapplied, and otherwise gives the merged entries with exact usage. |
| `CoinsClass.CoinStack.BatchWriteBottom` | src/txdb.cpp:138-148 | Writing to the bottom erases spent dirty coins, writes unspent dirty ones and ignores the rest, in any order. |
| `CoinsClass.CoinStack.Flush` | src/coins.cpp:255-263 | Write and empty: the state is that of the value model. |
| `CoinsClass.CoinStack.Sync` | src/coins.cpp:265-280 | Write and clean up: the state is that of the value model. |
| `CoinsClass.CoinStack.SanityCheck` | src/coins.cpp:321-336 | The check's loop succeeds exactly when no entry has a forbidden combination and the recomputed usage agrees. |
| `CheckQueue.BatchSize` | src/checkqueue.h:114-114 | A batch is the thread's share: at least one check, never more than are queued or than the maximum (if that is not zero), otherwise no more than its part of the queue and no less. |
| `CheckQueue.ArriveKeeps` | src/checkqueue.h:79-90 | The first half of a critical section, including the fold of a finished batch and the notification, keeps the invariant. |
| `CheckQueue.TakeKeeps` | src/checkqueue.h:109-119 | Taking a batch moves checks from the queue to a thread and loses none. |
| `CheckQueue.NoBatches` | src/checkqueue.h:92-100 | When the result is reset no thread holds a batch, so nothing leaks into the next round. |
| `CheckQueue.DecideKeeps` | src/checkqueue.h:92-119 | The second half keeps the invariant; a return gives exactly the conjunction of the round's checks. |
| `CheckQueue.CheckKeeps` | src/checkqueue.h:121-124 | Executing or skipping one check keeps the running result right. |
| `CheckQueue.StepKeeps` | src/checkqueue.h:70-182 | Every step of every thread keeps the invariant. |
| `CheckQueue.WaitIsExact` | src/checkqueue.h:158-182 | In every interleaving from the start, each Wait returns true exactly when all checks added since the previous one are true. |
| `CheckQueue.ReachableState` | src/checkqueue.h:79-117 | In every reachable state the three counters are exact, queued and batched checks are among those added, and a blocked master has an empty queue and a worker with an unfolded batch. |
| `CheckQueue.WokenByLastFold` | src/checkqueue.h:79-104 | In every reachable state with a blocked master, a step wakes the master exactly if it is a spurious wake-up or folds the batch of the only thread still working. |
| `CheckQueue.NoDeadlock` | src/checkqueue.h:70-127 | During a Wait some thread can always take a step. |
| `CheckQueue.NotifyWakes` | src/checkqueue.h:177-181 | After one added check one blocked worker is woken, if there is one; after several all are; nothing else changes. |
| `CheckQueue.NobodySleeps` | src/checkqueue.h:79-182 | In every reachable state with checks in the queue, unless the notification is still to come, some worker is awake. |
| `CheckQueue.WaitEnds` | src/checkqueue.h:158-162 | A Wait that has not returned can have taken only boundedly many steps, whatever the schedule; spurious wake-ups are counted in. |
| `CheckQueueClass.Queue.Critical` | src/checkqueue.h:79-120 | The critical section on the fields: new state, outcome and notification are those of the transition system. |
| `CheckQueueClass.Queue.Execute` | src/checkqueue.h:121-124 | The loop over a batch returns the start value and all checks together. |
| `CheckQueueClass.Queue.Add` | src/checkqueue.h:165-182 | The checks are queued and counted; one notification for one check, a broadcast for more, nothing for none. |
| `CheckQueueClass.Queue.WaitAlone` | src/checkqueue.h:70-127 | Without workers the master's loop ends, returns whether all queued checks are true, and leaves the queue as new. |
| `HeadersSync.PresyncAllKeeps` | src/headerssync.cpp:139-213 | After accepted first-phase headers the commitments are exactly the bits of the commitment heights, and work, height and last header are those of the chain. |
| `HeadersSync.RedownloadOneKeeps` | src/headerssync.cpp:215-278 | An accepted second-phase header extends the linked, permitted chain; buffer, work and remaining commitments follow. |
| `HeadersSync.ExpandExact` | src/headerssync.h:34-52 | Decompressing a stretch of a linked chain gives it back field for field. |
| `HeadersSync.PopKeeps` | src/headerssync.cpp:280-294 | What leaves the buffer is the next stretch of the accepted chain. |
| `HeadersSync.RunKeeps` | src/headerssync.cpp:68-137 | Every sequence of messages keeps the protocol invariant. |
| `HeadersSync.ReleasedChain` | src/headerssync.cpp:215-294 | Over every run all released headers are a prefix of one accepted chain, linked by hashes from the fork point; all of it once the work is reached, and before that only what lies a full buffer deep. |
| `HeadersSync.DeepEnough` | src/headerssync.cpp:15-19 | A header released before the target is met has at least 13959 accepted headers and 23 matched commitment bits above it. |
| `HeadersSync.BitsCount` | src/headerssync.cpp:200-201 | How many commitments a stretch of heights has. |
| `HeadersSync.RunBounded` | src/headerssync.cpp:35-44 | Commitments and buffer stay within their limits whatever the peer sends. |
| `HeadersSync.NextCommitment` | src/headerssync.cpp:253-270 | The commitment queue holds exactly the bits of the commitment heights still to come. |
| `HeadersSync.ReplayMessage` | src/headerssync.cpp:98-133 | No message of a peer that sends its chain again fails; with the target reached everything is released and the synchronisation ends; before that more is requested after a full message, and one that is not full ends it with headers left over. |
| `HeadersSync.ReplayExact` | src/headerssync.cpp:98-133 | A chain sent again, or a longer one, in any non-empty messages ends the synchronisation: with all accepted headers released and the target reached exactly if every message up to the one that reaches the target is full, and with headers left over otherwise. |
| `HeadersSync.HonestReplay` | src/headerssync.cpp:68-294 | In the first case there is a message after which all headers sent so far are accepted and released; that message and later ones need not be full. |
| `HeadersSyncPresync.PresyncAllExact` | src/headerssync.cpp:177-213 | First-phase headers are accepted if and only if the difficulty rule permits every step and the commitments do not become too many. |
| `HeadersSyncPresync.PresyncMessageExact` | src/headerssync.cpp:68-97 | A first-phase message succeeds if and only if, besides, it connects. Then the second phase starts exactly if the work suffices; otherwise more is requested exactly if the message is full; in all other cases the synchronisation ends. |
| `HeadersSyncPresync.FirstPhaseExact` | src/headerssync.cpp:68-213 | A permitted chain in connecting messages, none before the last bringing enough work, is accepted exactly if all messages but the last are full; then the phase is over exactly if the work suffices. |
| `HeadersSyncPresync.HonestPeer` | src/headerssync.cpp:25-294 | From construction, for a peer that sends a chain with enough work and then the same or a longer one, in any messages: the synchronisation ends, with all accepted headers released and the target reached exactly if the messages of the first phase but the last, and of the second up to the target, are full. |
| `HeadersSyncRedownload.RedownloadAllExact` | src/headerssync.cpp:215-278 | Second-phase headers are accepted if and only if they link, the difficulty rule permits every step, and until the work is reached the commitment bits are those of the first phase. |
| `HeadersSyncRedownload.RedownloadMessageExact` | src/headerssync.cpp:98-133 | A second-phase message succeeds exactly under that condition. Then everything is released that is due, all headers once the work is reached and before that all but the last 13959; more is requested exactly if the work is not reached and the message is full. A message that fails releases nothing. |
| `HeadersSyncRedownload.EndForgets` | src/headerssync.cpp:51-63 | In every run from construction commitments and buffer are given back when the synchronisation ends. |
| `HeadersSyncClass.HeadersSyncState.ProcessNextHeaders` | src/headerssync.cpp:68-137 | State and result of a message are those of the protocol model. |
| `HeadersSyncClass.HeadersSyncState.ValidateAndStoreHeadersCommitments` | src/headerssync.cpp:139-175 | The loop over first-phase headers and the switch of phases, likewise; when it succeeds is stated by `HeadersSyncPresync.PresyncMessageExact`. |
| `HeadersSyncClass.HeadersSyncState.ValidateAndProcessSingleHeader` | src/headerssync.cpp:177-213 | One first-phase header, likewise, with the partly updated state of its failures. |
| `HeadersSyncClass.HeadersSyncState.ValidateAndStoreRedownloadedHeader` | src/headerssync.cpp:215-278 | One second-phase header, likewise. |
| `HeadersSyncClass.HeadersSyncState.PopHeadersReadyForAcceptance` | src/headerssync.cpp:280-294 | The popping loop releases and keeps what the protocol model says. |
| `HeadersSyncClass.HeadersSyncState.Finalize` | src/headerssync.cpp:51-63 | Which fields are cleared at the end. |
| `CuckooInsert.SlotsSpread` | src/cuckoocache.h:241-251 | Every slot of the table is reached by some hash, and a greater hash is mapped no lower. |
| `Cuckoo.DisplaceConserves` | src/cuckoocache.h:413-446 | A chain of displacements leaves the live elements plus the new one minus the one it dropped, and adds at most one entry to the new one's generation. |
| `Cuckoo.DisplaceOwn` | src/cuckoocache.h:413-446 | Every live element stays in one of its own eight slots, and nothing foreign enters the table. |
| `Cuckoo.EpochCheckKeeps` | src/cuckoocache.h:287-319 | The scan and the change of epochs keep the load bound with room for one more entry. |
| `Cuckoo.InsertConserves` | src/cuckoocache.h:399-447 | The live elements after an insertion are those after the epoch check plus the new one minus at most one; when none is lost is stated by the lemmas that follow. |
| `CuckooInsert.InsertStores` | src/cuckoocache.h:399-447 | An element that is in one of its slots, or has one open, is stored there for the current epoch; nothing is dropped and no other slot changes. |
| `CuckooInsert.InsertFound` | src/cuckoocache.h:399-486 | Afterwards it is live and found. |
| `CuckooInsert.FirstInsertion` | src/cuckoocache.h:337-447 | A new table takes any element. |
| `CuckooInsert.DroppedOnlyIfFull` | src/cuckoocache.h:413-446 | An element is dropped only after as many displacements as the depth limit allows, beginning with the new element, none of them having an open slot; it is the last one displaced. |
| `CuckooInsert.EpochCheckExact` | src/cuckoocache.h:287-319 | Older entries are given up and current ones become older exactly if the epoch ends; otherwise no entry changes; how far away the next scan is. |
| `CuckooInsert.Survives` | src/cuckoocache.h:287-447 | Over any run: an entry of the current epoch outlives an epoch's worth of insertions unless it is itself dropped or erased. |
| `CuckooInsert.FoundForAnEpoch` | src/cuckoocache.h:287-486 | In every consistent state an element that finds a place is found after the next insertions, as many as an epoch has, unless dropped or erased. |
| `Cuckoo.InsertKeeps` | src/cuckoocache.h:399-447 | Insertion keeps the invariant, at any depth limit. |
| `Cuckoo.ContainsExact` | src/cuckoocache.h:476-486 | Every live element is found; whatever is found was inserted or is the initial element. |
| `Cuckoo.EraseIsLazy` | src/cuckoocache.h:450-465 | An element that was found and erased is still found. |
| `CuckooInsert.ContainsChanges` | src/cuckoocache.h:476-486 | Found exactly if one of its slots holds it; with erasure one such slot is marked, and nothing else changes. |
| `Cuckoo.EveryRun` | src/cuckoocache.h:287-486 | Over all runs: own slots, live entries of either generation (the current one with the counter) within the epoch size of the table plus a sixteenth, so all live elements within twice that; live elements are found, and finds are of inserted elements. |
| `Cuckoo.NeverFull` | src/cuckoocache.h:287-447 | In every run of a table of at least 21 slots there are fewer live elements than slots, and some slot may be overwritten. |
| `Cuckoo.LoadBelowSize` | src/cuckoocache.h:337-350 | Twice the bound is below the size from 21 slots on, also where 45 times the size wraps around 32 bits. |
| `CuckooInsert.EpochShare` | src/cuckoocache.h:345-346 | An epoch takes forty-five hundredths of the slots, as long as that does not wrap around. |
| `CuckooClass.Cache.Insert` | src/cuckoocache.h:399-447 | On the arrays: state and dropped element are those of the value model, of which `CuckooInsert` states what is stored and when something is dropped. |
| `CuckooClass.Cache.Chain` | src/cuckoocache.h:413-446 | The displacement loop, likewise. |
| `CuckooClass.Cache.EpochCheck` | src/cuckoocache.h:287-319 | The counter, the counting loop and the ageing loop, likewise. |
| `CuckooClass.Cache.Age` | src/cuckoocache.h:303-309 | The ageing loop gives up older entries and demotes current ones. |
| `CuckooClass.Cache.Contains` | src/cuckoocache.h:476-486 | Answer and garbage flag are those of the value model. |
| `CuckooClass.Cache.constructor` | src/cuckoocache.h:337-350 | A table of at least two slots, all garbage, with the epoch size computed in 32 bits. |
| `ChainSkip.InvertClears` | src/chain.cpp:74-74 | n & (n - 1) takes away the largest power of two that divides n. |
| `ChainSkip.SkipHeightPowers` | src/chain.cpp:77-85 | A skip takes from an even height the lowest power of two in its binary form, and from an odd one the two lowest of the height below it, keeping the last bit. |
| `ChainSkip.GetSkipHeight` | src/chain.cpp:77-85 | A skip pointer always leads below. |
| `ChainSkip.StepsLogSquared` | src/chain.cpp:87-112 | From a height below 2^n every ancestor is at most n(n + 3) steps of the search away. |
| `Chain.GetAncestor` | src/chain.cpp:87-112 | The skip-list search ends and returns what the parent walk returns, or null outside the range; in a tree with its skip pointers set, within n(n + 3) steps from a height below 2^n. |
| `Chain.BuildSkip` | src/chain.cpp:119-123 | The skip pointer set is that of the parent walk, and all skip pointers of the tree stay right. |
| `Chain.Append` | src/node/blockstorage.cpp:100-105 | Indexing a new block keeps all skip pointers of the tree right and set, so every tree built this way satisfies what the searches assume. |
| `Chain.LastCommonAncestor` | src/chain.cpp:159-174 | The result is an ancestor of both, and above it the branches differ at every height. |
| `Chain.LocatorEntries` | src/chain.cpp:25-42 | The entries are the ancestors at the locator heights down to the root, logarithmically many. |
| `Chain.LocatorHeights` | src/chain.cpp:32-40 | Locator heights fall by one eleven times and then by powers of two. |
| `Chain.ActiveChain.SetTip` | src/chain.cpp:15-23 | Whatever tip was set before, afterwards the vector holds the ancestors of the new one, each at its height. |
| `Chain.ActiveChain.FindFork` | src/chain.cpp:54-63 | The result is the highest ancestor of the block in the chain, or null if there is none. |
| `Chain.ActiveChain.Contains` | src/chain.h:511-514 | True exactly for the ancestors of the tip. |
| `Chain.ActiveChain.Next` | src/chain.h:517-523 | The child of the block on the chain; null exactly for the tip and blocks outside. |
| `ArithBase.OrIsAdd` | src/arith_uint256.cpp:30-32 | Where bits do not overlap, disjunction is addition. |
| `ArithShift.LeftValue` | src/arith_uint256.cpp:21-35 | What the left-shift loop leaves in the limbs is the number times a power of two, modulo the width. |
| `ArithShift.RightValue` | src/arith_uint256.cpp:38-52 | What the right-shift loop leaves is the number divided by a power of two. |
| `ArithUint.Uint.Add` | src/arith_uint256.h:127-137 | The carry loop adds modulo the width. |
| `ArithUint.Uint.MultiplyWord` | src/arith_uint256.cpp:54-64 | The carry loop multiplies by a 32-bit number modulo the width. |
| `ArithUint.Uint.Multiply` | src/arith_uint256.cpp:66-80 | The two nested loops multiply modulo the width, although no limb above it is computed. |
| `ArithUint.Uint.AddRow` | src/arith_uint256.cpp:71-76 | The inner loop adds a limb times a number, shifted; what it leaves out is a multiple of what the limbs can hold. |
| `ArithProduct.Limb` | src/arith_uint256.cpp:73-75 | The 64-bit sum in it does not overflow, and its carry is a limb. |
| `ArithUint.Uint.Complement` | src/arith_uint256.h:61-67 | The result is the largest number minus this one. |
| `ArithUint.Uint.Increment` | src/arith_uint256.h:165-172 | Adds one modulo the width. |
| `ArithUint.Uint.Negate` | src/arith_uint256.h:69-76 | The additive inverse modulo the width. |
| `ArithUint.Uint.Subtract` | src/arith_uint256.h:139-143 | Subtracts modulo the width. |
| `ArithUint.Uint.CompareTo` | src/arith_uint256.cpp:109-118 | The sign of the difference. |
| `ArithUint.Uint.EqualTo` | src/arith_uint256.cpp:121-132 | Equality with a 64-bit number. |
| `ArithUint.Uint.Bits` | src/arith_uint256.cpp:179-191 | The least number of bits that holds the value. |
| `ArithUint.Uint.ShiftLeft` | src/arith_uint256.cpp:21-35 | Multiplies by a power of two modulo the width. |
| `ArithUint.Uint.ShiftRight` | src/arith_uint256.cpp:38-52 | Divides by a power of two. |
| `ArithWork.Divide` | src/arith_uint256.cpp:83-106 | Shift-subtract division gives the exact quotient for every nonzero divisor and throws exactly for zero. |
| `ArithWork.OverflowExact` | src/arith_uint256.cpp:211-214 | The overflow flag is set exactly when the target does not fit into 256 bits. |
| `ArithWork.SetCompact` | src/arith_uint256.cpp:198-216 | Value modulo 2^256, sign flag and overflow flag of a compact target. |
| `ArithCompact.GetCompact` | src/arith_uint256.cpp:218-240 | The compact form of a number in lowest terms: the mantissa is the number without the bytes the exponent drops, at least 0x8000 and below the sign bit; the asserts hold. |
| `ArithCompact.CompactUnique` | src/arith_uint256.cpp:218-240 | A number and a sign have one such form. |
| `ArithCompact.GreatestBelow` | src/arith_uint256.cpp:198-240 | It stands for the greatest number not above the given one that any compact target stands for. |
| `ArithCompact.LosslessExact` | src/arith_uint256.cpp:198-240 | Writing and reading loses nothing exactly for the numbers that some compact target stands for. |
| `ArithCompact.CompactRoundTrip` | src/arith_uint256.cpp:198-240 | Reading any compact target and writing number and sign again gives the same target exactly if it is in lowest terms and does not overflow. |
| `ArithWork.WorkFormula` | src/chain.cpp:133-137 | The formula used is equal to 2^256 divided by the target plus one. |
| `ArithWork.GetBlockProof` | src/chain.cpp:125-138 | Zero for negative, overflowing and zero targets, otherwise floor(2^256 / (target + 1)). |
| `Bech32.PolyMod` | src/bech32.cpp:130-216 | The loop computes the fold of the reduction step. |
| `Bech32.StepXor` | src/bech32.cpp:193-212 | One step is linear over exclusive or. |
| `Bech32.StepInjective` | src/bech32.cpp:193-212 | Multiplication by x modulo the generator loses nothing. |
| `Bech32Field.FieldLaws` | src/bech32.cpp:144-150 | The symbols form a field: multiplication modulo x^5 + x^3 + 1 is commutative, associative, distributive and without zero divisors. |
| `Bech32Field.StepMultiplies` | src/bech32.cpp:177-212 | One step multiplies the remainder by x, adds the symbol, and reduces by the generator x^6 + {29}x^5 + {22}x^4 + {20}x^3 + {21}x^2 + {29}x + {18}, coefficient by coefficient. |
| `Bech32Extension.NoZeroDivisors` | src/bech32.cpp:165-166 | The extension GF(1024) with e^2 = {9}e + {23} has no zero divisors. |
| `Bech32Extension.OrderOfE` | src/bech32.cpp:167-168 | No power of e below the 1023rd is one. |
| `Bech32Distance.Roots` | src/bech32.cpp:169-175 | The generator vanishes at the 997th, 998th and 999th power of e. |
| `Bech32Distance.ThreeErrorsDetected` | src/bech32.cpp:137-142 | Lists of up to 1023 symbols that differ in at most three places, anywhere, have the same remainder exactly when they are equal. |
| `Bech32.BurstDetected` | src/bech32.cpp:130-216 | Lists of any length that differ at most within six consecutive positions have the same remainder exactly when they are equal. |
| `Bech32.ChecksumExact` | src/bech32.cpp:327-352 | The checksum is the one and only list of six symbols that completes a list to the constant of its encoding. |
| `Bech32.Tables` | src/bech32.cpp:22-35 | Decoding a character and encoding the symbol gives the character in lower case. |
| `Bech32.TableBack` | src/bech32.cpp:22-35 | Encoding a symbol and decoding the character gives the symbol. |
| `Bech32Codec.DecodeEncoded` | src/bech32.cpp:357-397 | Decoding gives back encoding, human-readable part and data exactly if that part is not empty and printable and the string has at most 90 characters. |
| `Bech32Codec.EncodeDecoded` | src/bech32.cpp:357-397 | Every string that decodes is, in lower case, the encoding of what it decodes to. |
| `Bech32Codec.ValidStringsApart` | src/bech32.cpp:327-338 | Two valid data parts that differ only within six consecutive symbols are the same. |
| `Bech32Strings.DataApart` | src/bech32.cpp:327-338 | Two valid strings of one encoding and prefix do not differ in three or fewer characters of the data. |
| `Bech32Strings.PrefixCounts` | src/bech32.cpp:312-338 | Nor do two that differ in one character of the prefix and one of the data, or either alone: the prefix is protected. |
| `Bech32Strings.PrefixBurst` | src/bech32.cpp:312-338 | Nor do two with the same data and prefixes that differ in the low five bits of characters within six consecutive ones. |
| `Bech32Strings.DecodedApart` | src/bech32.cpp:373-397 | Two strings that decode, to the same encoding and with the separator in the same place, and differ in at most three data characters are the same but for case. |
| `Bech32Strings.DecodedPrefixApart` | src/bech32.cpp:373-397 | The same for one character of the prefix and one of the data. |
| `Bech32Known.KnownPlain` | src/test/bech32_tests.cpp:15-33 | The shortest example of BIP 173 is encoded and decoded as published. |
| `Bech32Known.KnownM` | src/test/bech32_tests.cpp:35-53 | The shortest example of BIP 350 likewise. |
| `Bech32Known.Alphabet` | src/bech32.cpp:23-23 | The character of each symbol. |
| `Bech32Codec.CheckCharacters` | src/bech32.cpp:287-309 | No errors are collected exactly if all characters are printable and letters have one case. |
| `Bech32Codec.ExpandHRP` | src/bech32.cpp:312-324 | The filled vector is the high parts, a zero, and the low parts; that every character counts is stated by `Bech32Strings.PrefixCounts`. |
| `Bech32Codec.CreateChecksum` | src/bech32.cpp:341-352 | The loop computes the checksum of the value model. |
| `Bech32Codec.VerifyChecksum` | src/bech32.cpp:327-338 | Which encoding, if any, the remainder stands for. |
| `Bech32Codec.Encode` | src/bech32.cpp:357-370 | The loop computes the string of the value model. |
| `Bech32Codec.Decode` | src/bech32.cpp:373-397 | The loops, with all failures, compute the result of the value model. |
| `BaseDigits.Fits` | src/base58.cpp:97-97 | If p digits of one base fit into q of another, n fit into s whenever s / n is at least q / p. |
| `Base58.EncodeFits` | src/base58.cpp:97-97 | 138 base-58 digits for 100 bytes suffice at every length. |
| `Base58.DecodeFits` | src/base58.cpp:52-52 | 733 bytes for 1000 base-58 digits suffice at every length. |
| `Base58.MulAdd` | src/base58.cpp:101-111 | The in-place carry loop multiplies and adds, leaves no carry, and keeps the digits without leading zeros; both directions use it. |
| `Base58.DigitBack` | src/base58.cpp:18-36 | The two character tables are inverse. |
| `Base58.DecodeEncoded` | src/base58.cpp:38-125 | Decoding the encoding of any byte string gives it back. |
| `Base58.EncodeDecoded` | src/base58.cpp:38-125 | Encoding what any legal string without spaces decodes to gives the string back. |
| `Base58Meaning.EncodedMeans` | src/base58.cpp:87-125 | The encoding is the same number in base 58 as the bytes in base 256, with as many ones in front as the bytes have zeros. |
| `Base58Meaning.EncodedUnique` | src/base58.cpp:87-125 | It is the only string of digits of which that is true. |
| `Base58Meaning.DecodedMeans` | src/base58.cpp:38-84 | A string without spaces decodes if and only if it consists of digits, and then to the bytes of the same number and the same zeros in front. |
| `Base58Meaning.KnownStrings` | src/test/data/base58_encode_decode.json:4-4 | Two published examples. |
| `Base58.EncodeBase58` | src/base58.cpp:87-125 | The loops compute the encoding of the value model. |
| `Base58.DecodeBase58` | src/base58.cpp:127-133 | Success exactly for legal strings without NUL whose result is within the length limit (or empty), and the result. |
| `Base58.DecodeDigits` | src/base58.cpp:51-84 | The loop over characters that gives up as soon as the result is too long still decides exactly this. |
| `CompactBlocks.PlacedEmpty` | src/blockencodings.cpp:61-76 | Each prefilled transaction takes a slot of its own, so as many slots stay empty as there are short ids. |
| `CompactBlocks.MatchedRight` | src/blockencodings.cpp:107-165 | With distinct short ids every filled slot holds the block's own transaction. |
| `CompactBlocks.Rebuilt` | src/blockencodings.cpp:49-204 | With distinct short ids, filling in the block's own transactions for the empty slots rebuilds exactly the block, for every valid choice of prefilled positions. |
| `CompactBlocks.MakeCompact` | src/blockencodings.cpp:19-29 | The compact block made from a block describes it. |
| `CompactBlocksClass.MapShortIds` | src/blockencodings.cpp:83-105 | The scan for empty slots, with its 16-bit indexes, stays within the block; it fails exactly for repeated ids or overfull buckets, and otherwise maps every id to its slot (up to 65536 transactions). |
| `CompactBlocksMatch.ConsiderKeeps` | src/blockencodings.cpp:110-133 | One pool or extra transaction keeps the slots and the count right, also when a second match empties a slot. |
| `CompactBlocksMatch.ConsiderComplete` | src/blockencodings.cpp:136-165 | With distinct ids no transaction at hand is lost again. |
| `CompactBlocksMatch.ScannedKeeps` | src/blockencodings.cpp:107-165 | The scan with its early exit keeps the first, from any count, and the second, from a count with which the exit means that every slot is filled. |
| `CompactBlocksMatch.BothScans` | src/blockencodings.cpp:107-165 | After both scans the slots match, the count has grown by the number of slots filled, and from such a count no transaction at hand is missed. |
| `CompactBlocksMatch.SteadyExact` | src/blockencodings.cpp:117-131 | No pool and extra list lead to a missed transaction if and only if the count at the start is zero or above the number of short ids. |
| `CompactBlocksMatch.UnsteadyMisses` | src/blockencodings.cpp:131-131 | From any other count a pool that holds the block behind one other transaction leaves some of it unmatched. |
| `CompactBlocksMatch.LeftOverCount` | src/blockencodings.h:134-134 | The smallest failure: a count of one from before, two short ids, both transactions in the pool, one slot left empty. |
| `CompactBlocksClass.Scan` | src/blockencodings.cpp:107-165 | The loop computes the scan of the value model. |
| `CompactBlocksMatch.RequestsExact` | src/blockencodings.cpp:107-178 | With distinct ids and nothing missed exactly the slots without a transaction at hand stay empty. |
| `CompactBlocksClass.PartiallyDownloadedBlock.InitData` | src/blockencodings.cpp:49-170 | When a message is invalid, when it fails, and otherwise slots that match, with a count that is the one from before plus the slots filled that were not prefilled; nothing at hand is missed under the condition on that count. |
| `CompactBlocksClass.PartiallyDownloadedBlock.FillBlock` | src/blockencodings.cpp:180-226 | Invalid exactly for a wrong number of transactions or without a header; otherwise the block of the value model. The object is cleared for another block, except after too few transactions, when it has lost those before the gap. |
| `CompactBlocks.RetryNeedsMore` | src/blockencodings.cpp:188-196 | After too few transactions the object needs as many more as were filled before the gap, so the right list is refused then unless there were none. |

## Left out

- Concurrency of the address manager and the coin caches: their operations are atomic here, as the program's locks make them.
- Integer widths: counters, ids, heights and times are unbounded integers, except where a width is written out (32-bit limbs, hashes and epoch size, 256-bit work, 16-bit block indexes).
- Address manager: `Select_` and `GetChance` (floating point, ends only with probability one); `FindAddressEntry_`, `Size_` and logging.
- Address manager: service bits are a set of bit numbers, the file is a structured value instead of bytes, and a failing stream is an error result; the counts read from a file are those of its lists.
- AddrManFile.Serialize: the order of the entries is a parameter, because the program's map has none.
- Coin caches: best-block hashes, `EmplaceCoinInternalDANGER`, database batching and crash recovery; the memory of a script is its size.
- CoinsClass.CoinStack.Flush: says nothing about the state after a throw, which sound stacks never reach.
- CoinsClass.CoinStack.Sync: says nothing about the state after a throw, which sound stacks never reach.
- Check queue: starting and stopping of threads, stop requests and memory ordering; the number of outstanding checks does not wrap.
- CheckQueueClass.Queue.WaitAlone: is about a queue without workers; with workers the loop is that of the transition system.
- Headers sync: the locator sent to the peer and logging; the block hash stored with the fork point is the hash of its header; the largest number of commitments, which the program computes from the clock, is a parameter.
- Cuckoo cache: reading without a lock next to erasure, and `setup_bytes`; the depth limit is a parameter instead of a logarithm.
- Chain: `FindEarliestAtLeast`, validity flags and file positions of blocks.
- ChainSkip.StepsLogSquared: the bound is quadratic in the number of bits, because the growth is: the program's comment counts 110 steps for heights up to 2^18.
- Chain.LocatorEntries: returns the blocks, not their hashes.
- 256-bit arithmetic: hexadecimal and floating-point conversions.
- ArithUint.Uint.Add: the other operand is a value, so that adding a number to itself in place is the case of equal values.
- ArithUint.Uint.Multiply: likewise.
- Bech32: `LocateErrors`, which gives best-effort hints without a guarantee.
- Bech32Distance.ThreeErrorsDetected: up to 1023 symbols three errors are what the roots guarantee; that within 89 symbols a fourth is detected too, which the program's comment takes from an exhaustive search, is not proved.
- Base58: the variant with a four-byte hash appended, which only adds a hash comparison.
- Compact blocks: the serialisation of messages, `extra_count` and logging; a pool entry's hash is that of its transaction.
- CompactBlocksClass.PartiallyDownloadedBlock.InitData: excludes a message that prefills all 65536 indexes and has short ids besides, on which the program's scan for an empty slot goes round for ever; says nothing about the slots above 65536 transactions, where the 16-bit slot numbers wrap, and of a refused message. Messages read from the network have at most 65535 transactions.
- CompactBlocksClass.MapShortIds: says where ids are mapped only up to 65536 transactions, for the same reason.
- CompactBlocksClass.PartiallyDownloadedBlock.FillBlock: the verdict of the block check is a parameter.
