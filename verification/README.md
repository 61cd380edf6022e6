# unixd: a model of its cache and its daemon parts

`unixd-cache` is a disk cache that any number of processes share under one root. `unixd` is the
daemon around it: single flight for concurrent calls, an accept, idle and drain loop, an in-memory
secret store, and a blocking client. This project models both and proves what they promise.

Two forms are used. Where threads or tasks interleave (the lock files, single flight, the serve
loop), a step is one file-system call, one critical section or one atomic access, and the theorems
are about every run of such steps. Where one call runs by itself (a prune, a store, a lookup, a
secret store operation, a frame), it is a method on the object it updates, proved against a
specification function, and the theorems are about that function.

| file | what it holds |
|---|---|
| `LockProtocol.dfy` | lock files, entries and temporary files as a state machine over file-system calls |
| `LockInvariant.dfy` | what every step keeps |
| `LockTheorems.dfy` | mutual exclusion, single writer, atomic stores, over every run |
| `LockLiveness.dfy` | no leaked lock files, bounded retry, deadlock freedom |
| `LockCompletion.dfy` | no leaked temporary files, lookups that never wait, operations carried to their end |
| `KeyEncoding.dfy` | the length-prefixed stream a key hashes, and hex |
| `EntryFormat.dfy` | the printed entry, its full parse, and the chunked header scan |
| `FileNames.dfy` | entry, temporary and lock file names |
| `Lookup.dfy` | what a read answers, and when |
| `PruneSpec.dfy` | what a prune does, said of sets of files |
| `CacheRoot.dfy` | the cache's sequential operations as loops over directory listings |
| `PruneTheorems.dfy` | minimal eviction, conserved counts, agreement with lookups |
| `PlainTerms.dfy`, `PrunePlainly.dfy` | what a prune takes and leaves, in names, headers, use times and totals |
| `PrunePasses.dfy` | the two passes of a prune as a state machine, with others at work between its steps |
| `CacheRuns.dfy` | stores, reads and prunes of one process as steps of a run |
| `EntrySizes.dfy`, `Bound.dfy`, `BoundBreaks.dfy` | the bound over whole runs, and exactly when it holds |
| `SingleFlight.dfy`, `ServeLoop.dfy`, `Secrets.dfy`, `Client.dfy` | the daemon parts |
| `Sorting.dfy`, `Common.dfy` | sorting by a total order; options, byte strings, saturating arithmetic |

The fixed choices of the model:

- An inode handed out by the system differs from every inode that is named or open, and from
  nothing else: numbers are reused. This is what the device and inode comparison relies on.
- A thread holds at most one key and holds none when it clears; a prune it starts, also while it
  holds a key, is an actor of its own beside it.
- A crash releases an actor's locks and open files and leaves the directory as it is. I/O errors
  may strike at every open, lock, comparison, write and removal of the lock machine; a failed write
  may leave its temporary file behind, and a drop's failure to unlink goes unnoticed.
- Bytes are characters of a `string`. Times are milliseconds; clock samples, directory listings,
  read and write sizes, and the keys that others hold are inputs, and the theorems are for all of
  them. A value's own text and its decoding are parameters.
- A use time may move backwards (an unlocked lookup touches without a lock), and no theorem takes it
  to be monotone.

## Model

| member | source | states |
|---|---|---|
| LockInvariant.InvStep | crates/unixd-cache/src/private.rs:77-129 | every step of every actor (open, lock, compare, write, rename, unlink, close, clear, error, crash) and of every reader keeps the invariant: locks are exclusive, a holder's inode is its path's inode, directory names are injective on inodes, entries are complete |
| LockInvariant.ActorsStep | crates/unixd-cache/src/cache.rs:612-633 | the lock hierarchy: maintenance shared or exclusive, one `prune.lock` holder, one lock per inode, and a thread inside a prune stays where it was |
| LockInvariant.GroundedOthers | crates/unixd-cache/src/private.rs:108-129 | no step of another actor invalidates what an actor knows about its open file: an acquiring actor's inode gains no name, a holder's name stays, a writer's temporary bytes stay |
| LockInvariant.OneHolder | crates/unixd-cache/src/private.rs:88-106 | two actors that hold one key are the same actor, although their locks may be on different inodes |
| LockTheorems.MutualExclusion | crates/unixd-cache/src/private.rs:77-129 | in every run, with blocking and non-blocking acquisition mixed and crashes anywhere, at most one actor holds a key |
| LockTheorems.DropUnlinksOwnInode | crates/unixd-cache/src/private.rs:82-86 | a holder's drop finds its own inode at the path, and that inode then has no name |
| LockTheorems.SingleWriter | crates/unixd-cache/src/cache.rs:575-600 | each change to an entry or temporary file, in any run, is by the only holder of that key, or by a clear that excludes everyone past the maintenance lock |
| LockTheorems.HeldFilesAreSpared | crates/unixd-cache/src/cache.rs:646-700 | no step of another actor, a prune included, changes an entry or temporary file of a held key |
| LockTheorems.StoresAreAtomic | crates/unixd-cache/src/cache.rs:582-600 | in every reachable state an entry path is absent or holds the complete bytes of one finished store |
| LockTheorems.FinishedIsWritten | crates/unixd-cache/src/cache.rs:582-600 | a store counts as finished only by the rename of a temporary file that holds all its bytes, which the entry path then shows |
| LockTheorems.ReaderGetsOneStore | crates/unixd-cache/src/private.rs:150-175 | an unlocked reader has at all times a front of one finished store's bytes, and all of them at the end of the file, whatever replaced or removed the entry meanwhile |
| LockTheorems.ClearEmptiesTheRoot | crates/unixd-cache/src/cache.rs:380-400 | a clear that ends leaves no entry, temporary or lock file |
| LockLiveness.NoLeakedLockFiles | crates/unixd-cache/src/private.rs:75-120 | without crashes and I/O errors, a lock path that names an inode has an actor acquiring or holding that inode; when all are idle there is no lock file |
| LockLiveness.SweepRemovesExactlyLeftovers | crates/unixd-cache/src/cache.rs:722-736 | in every state of the invariant a sweep that comes to a lock file removes it if and only if nobody else has it locked, and changes nothing else in the directory |
| LockLiveness.RetriesArePaidFor | crates/unixd-cache/src/private.rs:88-106 | over every run, the retries of one actor are at most the unlinks by others of its lock path that fall between its open and its check |
| LockLiveness.OnlyUnlinkDooms | crates/unixd-cache/src/private.rs:82-86 | the name leaves a file that an actor is acquiring only by another holder's unlink, after that actor's open and before its comparison |
| LockLiveness.PruneHolderNeverWaits | crates/unixd-cache/src/cache.rs:608-633 | whoever has `prune.lock` can always take its next step |
| LockLiveness.DeadlockFree | crates/unixd-cache/src/cache.rs:329-338 | in every reachable state with an operation in progress, some operation in progress can take a step that is no crash, error, abort or new operation |
| LockCompletion.NoLeakedTemporaries | crates/unixd-cache/src/cache.rs:582-600 | without crashes and I/O errors every temporary file is that of a store in progress, failed stores included; when all are idle there is none |
| LockCompletion.LookupsNeverWait | crates/unixd-cache/src/private.rs:150-175 | in every reachable state, whoever holds or clears, an entry in place can be opened and read to its end at once; that gives all its bytes and leaves no trace |
| LockCompletion.WaitsOrHolds | crates/unixd-cache/src/private.rs:88-106 | in every run without crashes and errors a thread that began to lock a key still waits for it or has held it: a lost race never makes it give up |
| LockCompletion.WaiterGetsTheKey | crates/unixd-cache/src/private.rs:88-106 | a thread left waiting, even on a file its path no longer names, gets the key by its own steps once nobody else is at work |
| LockCompletion.StoreCompletes | crates/unixd-cache/src/cache.rs:329-345 | by itself, leftovers of crashes included, a lock and store runs to its end: the entry is the new one, the lock file is gone, nothing else in the directory changes |
| LockCompletion.PruneCompletes | crates/unixd-cache/src/cache.rs:612-701 | by itself a prune, waiting or not, runs to its end; the entry, leftover and lock file it takes are gone, and nothing else is |
| LockCompletion.PruneGivesUpToClear | crates/unixd-cache/src/cache.rs:629-632 | a prune that may not wait gives up, having touched nothing, while a clear is under way |
| LockCompletion.PruneGivesUpToPrune | crates/unixd-cache/src/cache.rs:629-632 | and while another prune is |
| LockCompletion.ClearCompletes | crates/unixd-cache/src/cache.rs:380-400 | by itself a clear runs to its end and leaves an empty directory |
| KeyEncoding.FeedIsPrefixFree | crates/unixd-cache/src/key.rs:89-93 | a field shorter than 2^64 bytes can be cut off the front of a stream in one way only |
| KeyEncoding.EncodingIsInjective | crates/unixd-cache/src/key.rs:72-93 | equal streams come from equal namespaces and equal part maps |
| KeyEncoding.PartOrderDoesNotMatter | crates/unixd-cache/src/key.rs:12-17 | any order of adding the same distinct parts gives the same stream |
| KeyEncoding.StreamReadsBack | crates/unixd-cache/src/key.rs:74-93 | read byte by byte, a stream is the layout version 1, then fields behind eight length bytes, lowest first: the namespace, and each name with its value, in byte order of the names |
| KeyEncoding.KeyBuilder.Part | crates/unixd-cache/src/key.rs:65-70 | adds the part, and refuses exactly the names that are already there |
| KeyEncoding.KeyBuilder.Build | crates/unixd-cache/src/key.rs:74-87 | feeds the layout version, the namespace and the parts in byte order of their names |
| KeyEncoding.Hex | crates/unixd-cache/src/key.rs:95-103 | two lower-case digits a byte, whose values give the byte back |
| EntryFormat.UnescapeEscape | crates/unixd-cache/src/cache.rs:491-503 | a string escaped as the serializer does reads back as itself, whatever follows it |
| EntryFormat.PrintPlainly | crates/unixd-cache/src/cache.rs:491-503 | the text of an entry, member by member and compact, with the value last |
| EntryFormat.ParsePrint | crates/unixd-cache/src/cache.rs:491-517 | an object printed from its fields parses back to them, cut before `value` or whole |
| EntryFormat.ValueKeyIsFirst | crates/unixd-cache/src/cache.rs:746-749 | the first `,"value":` of a printed entry is the real key, whatever the strings contain |
| EntryFormat.ScanEqualsFullParse | crates/unixd-cache/src/cache.rs:746-772 | for every header and value, the header scan and the parse of the whole file both give the printed header |
| EntryFormat.ReadHeader | crates/unixd-cache/src/cache.rs:750-772 | for every file and every division into chunks, searching each chunk and the bytes just before it gives the header of the file's first `limit` bytes |
| EntryFormat.ReadsWhatWasPrinted | crates/unixd-cache/src/cache.rs:746-772 | with `ReadHeader`: a printed entry within the limit reads, in any chunks, as the header it was printed from |
| FileNames.EntryNames | crates/unixd-cache/src/cache.rs:820-833 | a name yields a digest if and only if it is that digest's entry name |
| FileNames.TemporaryNames | crates/unixd-cache/src/cache.rs:835-846 | a writer's temporary file is known as temporary, by its digest, and is never taken for an entry |
| FileNames.TemporaryExactly | crates/unixd-cache/src/cache.rs:842-846 | exactly the names with a leading dot and the suffix `.tmp` are temporary |
| FileNames.TemporaryDigestExactly | crates/unixd-cache/src/cache.rs:836-840 | exactly the names that start with a dot and a digest, up to their end or a dot, give that digest |
| Lookup.HorizonsAreOneWay | crates/unixd-cache/src/cache.rs:532-571 | under a clock that does not go back and no write, the reads of a key, locked or not, run Fresh, Stale, Miss and never back, for any file |
| Lookup.StoredEntryAnswers | crates/unixd-cache/src/cache.rs:447-460 | a stored entry is ordered stored, fresh, stale even when the additions saturate; in times of its store and policy, exactly when it answers Fresh, Stale or Miss, with what value, age and source; an older-schema locked reader leaves it in place |
| Lookup.ServedExactly | crates/unixd-cache/src/cache.rs:532-554 | for any file: exactly which ones are served, by size, layout, schema, horizons, digest, namespace and value |
| Lookup.ServedIsWhatIsStored | crates/unixd-cache/src/cache.rs:558-570 | for any file served: value, time stored, age and source, and exactly when it is Fresh |
| Lookup.ReadLeaves | crates/unixd-cache/src/cache.rs:555-580 | for any file: a hit keeps the bytes and records the use past the touch interval; a locked miss removes the file unless it is of a newer schema; an unlocked read removes nothing |
| Lookup.OlderReadersAreInvisible | crates/unixd-cache/src/cache.rs:541-546 | over every run of reads of one file by readers of any schemas, locked or not: the older ones all miss, the others get the answers they would have got had no older one read, and no newer one gets Fresh |
| CacheRoot.Cache.Get | crates/unixd-cache/src/cache.rs:532-580 | the answer of a read, what it does to its own file, and that it touches no other; an unlocked read removes nothing; it is the read step of `CacheRuns.Run` |
| CacheRoot.Cache.CountUsage | crates/unixd-cache/src/cache.rs:797-818 | in any listing order, the number of entries and their saturated total |
| CacheRoot.Cache.RemoveUnheldLocks | crates/unixd-cache/src/cache.rs:724-736 | exactly the regular files named after a held key with `.lock` stay, unchanged, and the number of the other regular ones is returned |
| CacheRoot.Cache.Sweep | crates/unixd-cache/src/cache.rs:643-681 | the first pass, in any listing order, leaves the set-level directory, counters and candidates |
| CacheRoot.Cache.Evict | crates/unixd-cache/src/cache.rs:682-701 | the second pass removes the specified front of the queue; which entries these are, `PrunePlainly` says in use times and digests, and what the second look is for, `PrunePasses` |
| PrunePasses.InvStep | crates/unixd-cache/src/cache.rs:646-700 | every step of a prune and of everybody else (taking and releasing keys, storing, removing, touching) keeps: each rank on record is of what the first pass saw, and what the prune sees under a key stays, but for touches, while it holds that key |
| PrunePasses.EvictsOnlyUnchanged | crates/unixd-cache/src/cache.rs:690-697 | in every run of the two passes with others between: what is evicted had at the second look the use time of the first, nothing but touches came since, nobody holds its key, and the targets were not met |
| PrunePasses.ChangedSurvives | crates/unixd-cache/src/cache.rs:690-697 | an entry stored or touched after its first look, so that its use time is not the one on record, is in place unchanged however the prune goes on |
| PrunePasses.StoredBetweenSurvives | crates/unixd-cache/src/cache.rs:690-697 | what is stored under a key after that key was looked at survives the prune, unless its use time is the very one the first pass saw |
| PrunePasses.SecondLookDecides | crates/unixd-cache/src/cache.rs:694-697 | at its turn, unheld and with the targets not met, an entry goes if and only if its use time is the one the first pass saw |
| PrunePasses.FirstPassDecides | crates/unixd-cache/src/cache.rs:661-681 | the first pass removes what it saw to be expired, unused or no regular file, whatever touched it since, and records and keeps every other entry |
| PrunePasses.SameTimeIsEvicted | crates/unixd-cache/src/cache.rs:694-697 | a run in which an entry stored between the passes, at the use time on record, is evicted |
| CacheRoot.Cache.Prune | crates/unixd-cache/src/cache.rs:612-709 | the directory, lock files, report and sweep time after a prune are functions of the set of files, the held keys, the clock and the limits: no listing order shows; with no key held every entry left is in date, in use and of a good header; it is the prune step of `CacheRuns.Run` |
| CacheRoot.Cache.Store | crates/unixd-cache/src/cache.rs:447-488 | too large: nothing changes; otherwise the entry is written; maintenance is not needed exactly when neither cap is crossed and the last prune is within the sweep interval; else, with the locks free, it is pruned, the sweep time is set, and with no key held no dead entry is left; it is the store step of `CacheRuns.Run` |
| PruneTheorems.EvictionIsShortestPrefix | crates/unixd-cache/src/cache.rs:682-701 | over a hard cap, the evicted entries are the shortest front of the queue, in order of use time, digest and size, after which the prune's count meets both targets, or all of it; before that a fresh count misses them too; at the end the true total meets them but for its excess over 2^64 - 1, and with no excess a fresh count meets both |
| PruneTheorems.EvictionsAreLeast | crates/unixd-cache/src/cache.rs:684-689 | before the last eviction the targets are not met; after it they are, unless the queue ran out |
| PruneTheorems.EvictedBeforeKept | crates/unixd-cache/src/cache.rs:683-700 | each evicted entry comes before each candidate that stays |
| PrunePlainly.PruneTakesAndLeaves | crates/unixd-cache/src/cache.rs:646-681 | for any directory: what is of a held key or neither entry nor temporary stays; an unheld temporary, special, oversized, unparsable, inconsistent, misnamed, expired or unused file goes; any other entry goes only when a hard cap was crossed; no file is changed |
| PrunePlainly.CountersPlainly | crates/unixd-cache/src/cache.rs:176-197 | each counter of a report is the number of files it is said to count |
| PrunePlainly.LeastRecentlyUsedGoes | crates/unixd-cache/src/cache.rs:683-700 | an evicted entry was used no later than a kept one; on a tie its digest has the smaller byte where they first differ |
| PrunePlainly.NoneTooMany | crates/unixd-cache/src/cache.rs:684-689 | with the most recently used of the evicted put back, the directory misses a target |
| PrunePlainly.NoneTooFew | crates/unixd-cache/src/cache.rs:682-701 | a prune of a cache over a hard cap that keeps any evictable entry meets both targets and both caps, but for the bytes beyond 2^64 - 1 |
| PruneTheorems.CountsAreExact | crates/unixd-cache/src/cache.rs:208-213 | with a total that fits in 64 bits, after any number of evictions the count kept by saturating subtraction is a fresh count |
| PruneTheorems.AccountingIsConserved | crates/unixd-cache/src/cache.rs:640-708 | in entries, always: before equals after plus expired, unused and capacity removals, and after is a fresh count; in bytes the same for a total that fits in 64 bits |
| PruneTheorems.SecondPruneRemovesNothing | crates/unixd-cache/src/cache.rs:640-708 | a prune repeated at the same time with the same keys held sweeps nothing, and evicts if and only if a fresh count is still over a hard cap and a candidate is left; with a total that fits in 64 bits it removes nothing |
| PruneTheorems.ExpiredExactlyWhenOutlived | crates/unixd-cache/src/cache.rs:667-671 | a stored entry in any entry file is expired to a prune if and only if it is too large, misnamed or past its stale horizon |
| PruneTheorems.ExpiredIsServedToNobody | crates/unixd-cache/src/cache.rs:738-744 | an entry that a prune calls expired is a miss at that time and later, for any key, schema, value type and use time |
| PruneTheorems.UnexpiredIsServed | crates/unixd-cache/src/cache.rs:738-744 | conversely, one that it does not call expired would be served to its own key and schema |
| PruneTheorems.HitsCountAsUse | crates/unixd-cache/src/cache.rs:555-557 | an entry that any lookup served, locked or not, keeps its bytes and is not unused to a prune within the unused period less the touch interval |
| PruneTheorems.PruneSpares | crates/unixd-cache/src/cache.rs:648-663 | entries and temporary files of held keys, and files that are neither, are in the directory unchanged after a prune |
| PruneTheorems.PruneMeetsTargets | crates/unixd-cache/src/cache.rs:356-359 | with no key held, a prune of a cache over a hard cap brings its true total to both targets, but for the bytes beyond 2^64 - 1 that the count did not see; with none of these a fresh count meets both |
| EntrySizes.ShortestIsLeast | crates/unixd-cache/src/cache.rs:447-470 | no store writes an entry shorter than the schema's shortest |
| EntrySizes.SizedCallHasSize | crates/unixd-cache/src/cache.rs:447-470 | every length from there on is the length of some entry that a store prints |
| Bound.WrittenBound | crates/unixd-cache/src/cache.rs:465-470 | between its write and its prune a store is over by at most one entry and one entry's bytes |
| Bound.StepWithin | crates/unixd-cache/src/cache.rs:447-488 | with room, each store, read and prune keeps the cache within both hard caps by its true total |
| Bound.BoundHolds | crates/unixd-cache/src/cache.rs:447-488 | with room, at every point of every run of one process, under any clock: the usage is within both hard caps after each operation, and inside a store over by at most one entry and one ceiling |
| BoundBreaks.NoRoomNoBound | crates/unixd-cache/src/cache.rs:812-815 | for all limits without room, a run of stores of printed entries that leaves the cache over its byte cap, because the byte count saturates |
| BoundBreaks.BoundIsExact | crates/unixd-cache/src/cache.rs:447-488 | the bound holds over every run if and only if the limits have room, a condition on the limits and the schema alone |
| BoundBreaks.PlainRoom | crates/unixd-cache/src/cache.rs:66-90 | limits have room when the byte cap plus the ceiling, or, below a cap of 2^64 - 1, the byte target plus the ceiling, is under 2^64 |
| SingleFlight.InvStep | crates/unixd/src/single_flight.rs:98-140 | every step keeps: a key's map entry is its only unlanded flight, each flight's work was spawned at most once, and a delivered result is its flight's |
| SingleFlight.LandingRemovesItself | crates/unixd/src/single_flight.rs:54-63 | landing removes by key, yet removes exactly its own flight's entry |
| SingleFlight.WorkRunsOnce | crates/unixd/src/single_flight.rs:98-114 | the work of a flight runs at most once, and two unlanded flights of one key are one |
| SingleFlight.SameOutcome | crates/unixd/src/single_flight.rs:20-27 | all callers that a flight answers get the same outcome |
| SingleFlight.CallAfterDeliveryIsNew | crates/unixd/src/single_flight.rs:12-15 | once a flight has answered anyone, no later call joins it |
| SingleFlight.CallJoinsOrStarts | crates/unixd/src/single_flight.rs:98-114 | in every reachable state a new call is taken at once, on a flight of its key; it starts one exactly when none of that key is unlanded |
| SingleFlight.DropTouchesOnlyItsCall | crates/unixd/src/single_flight.rs:12-14 | a caller that goes away leaves every flight, the map and every other call as they were |
| SingleFlight.OutcomesComeFromTheWork | crates/unixd/src/single_flight.rs:123-140 | over every run: an outcome that a caller got is one its flight's own task ended with, and the flight is of the key the caller came for |
| SingleFlight.WaiterGetsTheWork | crates/unixd/src/single_flight.rs:116-140 | after every run, dropped starters included, a waiting caller's own poll and its flight's task bring it the outcome that the task ended or ends with |
| SingleFlight.SingleFlightMap.Join | crates/unixd/src/single_flight.rs:98-114 | joins the key's flight, and starts one exactly when no unlanded flight has that key |
| SingleFlight.SingleFlightMap.Forget | crates/unixd/src/single_flight.rs:54-63 | the guarded map after a drop of the guard is the machine's map after the landing |
| ServeLoop.InvStep | crates/unixd/src/serve.rs:113-160 | every step keeps the counter, the wakeup and the phase invariants, and that each accepted connection is being served, was served or was cut |
| ServeLoop.NoLostWakeup | crates/unixd/src/serve.rs:115-143 | a loop that waits with its timer unarmed and nothing open has a notification stored or about to be sent |
| ServeLoop.IdleForTheTimeout | crates/unixd/src/serve.rs:116-144 | at an idle exit no connection was open at any point of the run within the timeout before it |
| ServeLoop.ConnectionRunsThrough | crates/unixd/src/serve.rs:124-139 | from every reachable state of the loop a new connection can be accepted, served and closed; tasks and count are then as before, and a notification is stored |
| ServeLoop.OnlyStopsEndTheLoop | crates/unixd/src/serve.rs:123-148 | the accept loop ends by a stop or the idle timeout, always, and by nothing else |
| ServeLoop.NothingAfterAStop | crates/unixd/src/serve.rs:140-151 | in every run, once a signal, a shutdown request or a failed accept was taken, no connection is ever accepted |
| ServeLoop.StopEnds | crates/unixd/src/serve.rs:140-159 | from every reachable state of the loop a stop leads, with no client's help, to a return that has settled the connections accepted by then and no others |
| ServeLoop.RecordIsTrue | crates/unixd/src/serve.rs:124-138 | over every run, the connections on record as accepted, served and cut are exactly those that were, and the time is the time elapsed |
| ServeLoop.CutsComeAfterTheDrain | crates/unixd/src/serve.rs:150-158 | a connection is cut no earlier than the drain timeout after the last point of the run at which the loop accepted |
| ServeLoop.ReturnIsSettled | crates/unixd/src/serve.rs:150-159 | when the loop returns no task is live, every connection ever accepted was served to its end or cut, not both, and each that was cut had the whole drain timeout |
| ServeLoop.DrainIsBounded | crates/unixd/src/serve.rs:150-159 | in every run from a draining state only time passes and tasks and loop move, each move one less of a bounded number, and no connection joins |
| ServeLoop.DrainEnds | crates/unixd/src/serve.rs:150-159 | from every reachable draining or cutting state, with no client's help, the tasks' own moves, the drain timeout and the cut lead to a settled return of the same connections; no connection was cut early |
| ServeLoop.IdleDaemonExits | crates/unixd/src/serve.rs:113-160 | from every reachable state of the loop with no task, its own steps and one idle timeout end it |
| Secrets.SecretStore.PutWith | crates/unixd/src/secrets.rs:110-128 | the stored secret is readable at once, and no other key changes |
| Secrets.SecretStore.Get | crates/unixd/src/secrets.rs:134-146 | answers the live secret and restarts its idle time, or drops an expired one |
| Secrets.SecretStore.Sweep | crates/unixd/src/secrets.rs:158-161 | removes the expired secrets and changes no answer at that time |
| Secrets.GetMeetsSpecification | crates/unixd/src/secrets.rs:58-63 | after every history with ordered clock samples, a read is given a secret if and only if its put is the latest uncleared one, every gap between its uses is below its idle bound and its age below its maximum |
| Secrets.SweepLeavesSurvivors | crates/unixd/src/secrets.rs:158-161 | after every history that ends in a sweep, a key is in memory if and only if a put of it survives then, and its record is untouched |
| Secrets.GetDropsTheExpired | crates/unixd/src/secrets.rs:134-146 | after every history that ends in a read, its key is in memory if and only if a put of it survived then, and no other key is touched |
| Secrets.SweepsAreUnobservable | crates/unixd/src/secrets.rs:153-176 | every read is answered as if no sweep had run |
| Client.ReadFrame | crates/unixd/src/client.rs:185-218 | for every stream and every division into reads and interruptions, the result of taking the first newline of the whole stream and comparing it with the cap; the buffer stays below the cap plus one read |
| Client.InterruptedReadsGoOn | crates/unixd/src/client.rs:189-203 | interruptions change nothing: the stream is all bytes up to the first end or error, or up to the deadline |
| Client.FramedPlainly | crates/unixd/src/client.rs:197-216 | the frame is the text before a newline below the cap; with none and the cap reached, too large; else the error of how the stream ended |
| Client.WriteFrame | crates/unixd/src/client.rs:163-180 | what reaches the socket is always the front of the frame, and all of it exactly when the socket takes that much before the deadline; otherwise the error says why |
| Client.InterruptedWritesGoOn | crates/unixd/src/client.rs:166-176 | interruptions change nothing: the socket takes all up to the first error or zero write, or up to the deadline, and that is the error given |

## Left out

- BoundIsExact: takes limits and schema in the ranges of their 64- and 32-bit fields, and byte vectors of at most 2^63 - 1 bytes, as on a 64-bit system.
- AccountingIsConserved: for the bytes the total must fit in 64 bits, and nobody else may change the directory; beside writers the reported count is an estimate.
- EvictionIsShortestPrefix: for a total beyond 64 bits it speaks of the prune's own count, and of the true total up to the excess; the same holds of PruneMeetsTargets.
- PrunePasses: knows entries by digest only; temporary files, lock files and the report's counters are in `CacheRoot`. A touch between a look and its removal does not save the entry, as in the source.
- RetriesArePaidFor: bounds retries by unlinks of others, and does not promise that one waiter wins; a path unlinked again and again can keep it waiting.
- DeadlockFree: threads that hold two keys, or clear while they hold one, can deadlock by the cache's own documentation and are not modelled.
- CacheRoot.Cache.Prune: a method over one directory with nobody else at work; its error returns and its blocking and skipping locks are in the lock machine, interference between its passes is in `PrunePasses`.
- CacheRoot.Cache.Store: encoding errors of the value are not modelled, and a prune that fails after the write is `Deferred` without its error.
- EntryFormat.FullHeader: reads the printed shape with its fields in the serializer's order; spaces, reordered or repeated fields, escapes above `\u007f`, leading zeros and the value's own grammar are outside it, so a hand-edited file may read differently here.
- NoLostWakeup: tasks return or are cut; a panicking connection task, which never decrements the counter, is not modelled.
- EncodingIsInjective: is about the hashed stream; SHA-256 itself is not part of this model.
- Temporary files whose name holds no digest, and lock paths that are no regular file, are removed without a lock; the lock machine knows only names with a digest.
- The entry counter is unbounded, as no directory holds 2^64 files.
- File modes, ownership, symlink refusal, `CACHEDIR.TAG`, the default root, directory and file syncing, and what a power loss keeps.
- Connection handling, the wire protocol and the handler's calls (`server.rs`), signals beyond ending the loop, and service installation (`install.rs`, `sys.rs`).
- Zeroing of secrets, core-dump limits, and the sweep task's timer: sweeps may come at any time.
- `Failure::serves_stale`, the default limits, error texts and configuration parsing: tables of one branch each.
