# Redis 5.0.7, modelled and proved in Dafny

The models cover seven parts of the Redis 5.0.7 server under `redis-5.0.7/src`: the incremental
hash table (`dict.c`), the cluster control plane (`cluster.c`), the append only file (`aof.c`), bit
operations (`bitops.c`), blocking operations (`blocked.c`), the slot index of the keyspace (`db.c`)
and the background job threads (`bio.c`).

Each part has a value model (datatypes and functions: `DictModel`, `ClusterNode`, `BlockedModel`, ...)
on which the laws are proved over whole runs, and, where the source updates state in place, a class
or methods with the source's loops that are proved to make the steps of the model (`DictObject`,
`ClusterObject`, `BlockedObject`, `SlotIndexObject`, `AofFlush`, `AofRewriteBuffer`, ...).

- **Hash table.** Hashes and cursors are 64-bit words (`Words`), the hash is any function. `DictMap`
  proves that the two tables refine one finite map over every run, `DictRehash` that a rehash gets
  done, `DictScan` the guarantee of the stateless cursor, `DictIterator` that safe iteration returns
  what stays exactly once.
- **Bit operations.** `PopCount`, `Bitmap` and `BitField` compare the word-parallel code with
  bit-by-bit definitions.
- **Append only file.** `AofFormat` and `AofLoad` treat encoding, loading and truncated logs,
  `AofFeed` the translation of relative times, `AofFlush` the write buffer, `AofRewriteBuffer` and
  `AofRewrite` the rewrite protocol, and `AofReplay` and `AofLog` put them together over whole runs.
- **Cluster.** `ClusterNode` is one node with its packet handlers, failover and commands;
  `ClusterRun` is any number of nodes with every message sent so far. A message may be delivered
  late, repeatedly or never; only an ACK is delivered at most once. A node never receives its own
  packets. Clocks and reachability are parameters of the steps. `ClusterOutcomes` states what packets,
  failovers and commands bring about.
- **Blocking.** Keys carry their database; stored values are lists, sorted sets, streams or other.
  `BlockedOrder` is about the order of waiting clients, `BlockedServed` about nobody being left waiting.
- **Slot index.** The radix tree is a set of byte strings visited in lexicographic order, the slot
  hash any function below 16384.
- **Background jobs.** One job type with its mutex and two conditions; a waiting thread may wake
  without a signal.

Where a property fails of the source, the exact condition is stated, with an example:

- A log that ends inside a command of an open transaction is cut inside the transaction
  (`AofLoad.UncleanCutExample`, `AofLoad.CutIsClean`).
- The flush of a database other than 0 empties the index of database 0 (`SlotIndex.FlushOtherExample`,
  `SlotIndex.EmptyKeeps`). Clients cannot select such a database in cluster mode; a module can
  (`RM_SelectDb`, `module.c`, lines 1617 to 1620) and then call FLUSHDB.
- ADDSLOTS on a replica is not refused (`ClusterInvariants.ReplicaStaysEmpty`), and such a replica can
  abort (`ClusterSplitVote.AddSlotsOnReplica`, `ClusterRun.SetMasterAbortsExactly`).
- The clock is read when a command runs and again when it is fed to the log, so a replayed time to live
  can differ from the live one (`AofFeed.LateClockExample`, `AofFeed.LoggedMeansTheSame`).
- The log reads the options of SET again, position by position, and takes a time that spells an option
  for that option (`AofFeed.CrossedExample`, `AofFeed.ScanAgrees`).
- A list that replaces a value of another kind in place (`dbOverwrite`, as by SORT with STORE, `sort.c`,
  line 566) is not signalled, and clients that wait for it are not served (`BlockedServed.OverwriteExample`,
  `BlockedServed.WriteStaysAlert`).
- Two replicas can win one epoch when an ACK is counted between the reset of the counter and the next
  epoch (`ClusterSplitVote.TwoWinners`). A winner has a majority of real votes exactly if its count
  exceeds the quorum by such ACKs (`ClusterElections.RealVotes`), and then it is the only one
  (`ClusterElections.OneWinnerPerEpoch`).

The comment above the two overflow checks of bit fields promises -1 for an underflow; with WRAP and a
limit to fill in, as in all calls, both functions return 1, and the model follows the code.

`dafny verify dfyconfig.toml` checks the project.

## Model

| member | source | states |
|---|---|---|
| `DictMap.RunRefinesMap` | redis-5.0.7/src/dict.c:147-399 | over every run of add, replace, find, delete, expand, shrink, empty and rehash steps, the two tables are well formed (each entry in bucket hash & sizemask, no key twice, exact `used`, old buckets below `rehashidx` empty) and together stand for the plain map after the same operations; only a table of 2^63 buckets is excluded |
| `DictMap.CreateRepresentsEmpty` | redis-5.0.7/src/dict.c:111-131 | a fresh dict is well formed and stands for the empty map |
| `DictMap.ExpandKeeps` | redis-5.0.7/src/dict.c:147-177 | dictExpand succeeds exactly outside a rehash, for a size that holds the entries and changes the bucket count; the map is the same either way |
| `DictMap.ExpandIfNeededKeeps` | redis-5.0.7/src/dict.c:922-941 | growth keeps the map and fails only at 2^63 buckets, changing nothing |
| `DictMap.ResizeKeeps` | redis-5.0.7/src/dict.c:135-144 | shrinking keeps the map |
| `DictMap.NextPowerIsLeast` | redis-5.0.7/src/dict.c:944-954 | the result is the least power of two from 4 up that holds the size, capped at 2^63 |
| `DictMap.RehashIndexInRange` | redis-5.0.7/src/dict.c:188-206 | the assertion of dictRehash: the old table has entries if and only if some bucket at or after `rehashidx` is not empty |
| `DictMap.RehashKeeps` | redis-5.0.7/src/dict.c:188-231 | rehash steps never change the map, and the flag tells whether a rehash is still going on |
| `DictRehash.RehashMoves` | redis-5.0.7/src/dict.c:188-231 | a call moves every bucket from the rehash index up to the first one at which n buckets were moved, 10 * n empty ones passed, or no entry is left; those buckets are empty afterwards, the counts follow, and if no entry is left the new table has taken the place of the old one |
| `DictRehash.RehashEnds` | redis-5.0.7/src/dict.c:188-262 | without iterators a rehash ends after at most as many steps as there are buckets ahead, and one more |
| `DictRehash.OperationsAdvance` | redis-5.0.7/src/dict.c:260-262 | every find and deletion in a dict that is not empty, and every addition and replacement, gets a rehash ahead by a bucket or ends it |
| `DictRehash.GrowsExactly` | redis-5.0.7/src/dict.c:922-941 | the table grows exactly if it is full and may be resized, or holds six entries to a bucket, and then to hold twice its entries; an empty dict gets four buckets |
| `DictRehash.ShrinksToFit` | redis-5.0.7/src/dict.c:135-144 | dictResize gives the least table that holds the entries, of four buckets at least, and does nothing from 2^31 entries on, which its cast to int misreads |
| `DictMap.LocateComplete` | redis-5.0.7/src/dict.c:476-495 | the two-table search finds a key exactly when the map has it, at the entry that carries its value |
| `DictMap.FindCorrect` | redis-5.0.7/src/dict.c:476-495 | dictFind, with its rehash step, returns the entry with the key's value, or nothing exactly when the key is absent |
| `DictMap.AddCorrect` | redis-5.0.7/src/dict.c:265-318 | dictAdd adds an absent key, leaves a present one alone and reports its place; it lacks room only at 2^63 buckets |
| `DictMap.ReplaceCorrect` | redis-5.0.7/src/dict.c:325-346 | dictReplace sends the key to the value and tells whether it is new; the null `existing` of dictAddRaw is dereferenced only at 2^63 buckets |
| `DictMap.DeleteCorrect` | redis-5.0.7/src/dict.c:364-430 | the key leaves the map, every other key keeps its value, the removed entry is handed back and the total count falls by one exactly if the key was present |
| `DictScan.ScanGuarantee` | redis-5.0.7/src/dict.c:754-917 | every complete scan from cursor 0, with any additions, deletions, growth, shrinking and rehash steps between calls, emits each element present throughout |
| `DictScan.ScanCovers` | redis-5.0.7/src/dict.c:838-917 | one call emits every element whose reversed hash lies between the cursor given and the cursor returned, in one table or two, and the cursor moves forward unless the scan ends |
| `DictScan.ScanSound` | redis-5.0.7/src/dict.c:838-917 | one call emits only elements of the dict, with their values |
| `DictScan.ScanOneBucket` | redis-5.0.7/src/dict.c:838-917 | one call emits only elements of the cursor's bucket in the smaller table, and returns the cursor of the next bucket there |
| `DictScan.CursorAdvances` | redis-5.0.7/src/dict.c:863-870 | the reversed cursor strictly grows until it returns to zero |
| `DictIterator.SafeIteration` | redis-5.0.7/src/dict.c:542-606 | a complete safe iteration, with finds, additions that may start a rehash, replacements and deletions of the entry returned last, returns each key that stays exactly once across both tables |
| `DictIterator.ReleaseRestores` | redis-5.0.7/src/dict.c:562-606 | releasing the iterator, used or not and wherever the iteration stopped, restores the count of safe iterators, and until then no rehash step is made |
| `DictIterator.NextLoopDelivers` | redis-5.0.7/src/dict.c:562-595 | one dictNext: a key is still ahead before the call if and only if it is returned now or is ahead afterwards, never both |
| `DictIterator.DisturbSamePlace` | redis-5.0.7/src/dict.c:260-262 | while a safe iterator is in use no allowed operation moves a key that stays from ahead of the iterator to behind it or back |
| `Words.Rev` | redis-5.0.7/src/dict.c:744-752 | the block-swapping loop computes the full reversal of the 64 bits |
| `Words.ReverseInvolutive` | redis-5.0.7/src/dict.c:744-752 | reversing twice gives the word back |
| `Words.NextCursorPos` | redis-5.0.7/src/dict.c:863-870 | setting the unmasked bits and incrementing the reversal moves to the next bucket in reversed order, or to zero after the last |
| `DictObject.ComputeNextPower` | redis-5.0.7/src/dict.c:944-954 | the doubling loop computes the next power of the specification |
| `DictObject.HashDict.ExpandTo` | redis-5.0.7/src/dict.c:147-177 | in-place dictExpand makes the step of the model |
| `DictObject.HashDict.RehashBuckets` | redis-5.0.7/src/dict.c:188-231 | the nested loops of dictRehash make exactly the rehash step of the model |
| `DictObject.HashDict.MoveOneBucket` | redis-5.0.7/src/dict.c:205-220 | one bucket's chain is relinked entry by entry into the new table, with both `used` counts |
| `DictObject.HashDict.StepRehash` | redis-5.0.7/src/dict.c:260-262 | one bucket is rehashed exactly when no safe iterator is in use |
| `DictObject.HashDict.FindEntry` | redis-5.0.7/src/dict.c:476-495 | the search loops make the step of the model |
| `DictObject.HashDict.FetchValue` | redis-5.0.7/src/dict.c:497-502 | returns the value of the map at the key and keeps the map |
| `DictObject.HashDict.KeyIndex` | redis-5.0.7/src/dict.c:963-986 | grows if needed, then reports where the key is, or that the map lacks it |
| `DictObject.HashDict.AddEntry` | redis-5.0.7/src/dict.c:265-318 | in-place dictAdd makes the step of the model |
| `DictObject.HashDict.ReplaceEntry` | redis-5.0.7/src/dict.c:325-346 | in-place dictReplace makes the step of the model |
| `DictObject.HashDict.DeleteEntry` | redis-5.0.7/src/dict.c:364-399 | in-place dictGenericDelete makes the step of the model |
| `DictObject.HashDict.ScanFrom` | redis-5.0.7/src/dict.c:838-917 | the loops of dictScan over one or two tables emit what the model's scan emits and return its cursor |
| `DictObject.SafeIterator.NextEntry` | redis-5.0.7/src/dict.c:562-595 | the loop of dictNext, with registration of the iterator and the saved successor, makes the step of the model |
| `PopCount.RedisPopcount` | redis-5.0.7/src/bitops.c:40-92 | for every byte string and start alignment, the number of one bits |
| `PopCount.CountBlock` | redis-5.0.7/src/bitops.c:54-87 | seven word-parallel loads count exactly the ones of 28 bytes |
| `PopCount.NumWordCounts` | redis-5.0.7/src/bitops.c:66-79 | the number with which the sums of a word are stated is its value: zero for 0, one more for each successor |
| `PopCount.SwarCounts` | redis-5.0.7/src/bitops.c:66-79 | after the word-parallel sums each byte of the word holds the bit count of its byte |
| `PopCount.SevenWords` | redis-5.0.7/src/bitops.c:80-86 | the byte sums of seven words stay at most 224, so multiplication and shift lose no carry |
| `Bitmap.RedisBitpos` | redis-5.0.7/src/bitops.c:101-186 | the leftmost matching bit under right zero padding; -1 exactly if a one is wanted and there is none; the final panic is unreachable |
| `Bitmap.ScanWord` | redis-5.0.7/src/bitops.c:168-180 | the bit-by-bit scan of the last word finds its first matching bit |
| `BitField.SetUnsignedBitfield` | redis-5.0.7/src/bitops.c:209-227 | the field holds the low bits of the value and no other bit of the buffer changes |
| `BitField.GetUnsignedBitfield` | redis-5.0.7/src/bitops.c:229-241 | the bit-by-bit loop returns the field of the buffer |
| `BitField.GetSignedBitfield` | redis-5.0.7/src/bitops.c:243-263 | the field sign extended, for widths 1 to 63 |
| `BitField.UnsignedRoundTrip` | redis-5.0.7/src/bitops.c:209-241 | a field read back is the value written modulo 2^bits |
| `BitField.SignedRoundTrip` | redis-5.0.7/src/bitops.c:224-263 | a signed field read back is the value wrapped to the width, unchanged if it is in range |
| `BitField.WrapUnique` | redis-5.0.7/src/bitops.c:355-374 | the wrapped value is in range, congruent, and the only such value |
| `BitField.CheckUnsigned` | redis-5.0.7/src/bitops.c:288-323 | zero exactly when value and sum fit; WRAP gives the sum modulo 2^bits, SAT the nearest bound, FAIL only the direction; WRAP reports 1 on underflow too, unlike the comment above the function |
| `BitField.CheckSigned` | redis-5.0.7/src/bitops.c:325-375 | the same for signed fields, with WRAP the unique in-range congruent value and again 1 on underflow |
| `AofFormat.CatCommand` | redis-5.0.7/src/aof.c:518-541 | appends exactly the RESP encoding of the command |
| `AofFormat.CommandParses` | redis-5.0.7/src/aof.c:752-806 | parsing an encoded command, followed by anything, gives back its arguments and its length, whatever bytes they hold, for every count an int holds and every length a long holds; atoi and strtol wrap and saturate as in C |
| `AofFormat.PartialCommand` | redis-5.0.7/src/aof.c:752-806 | a command cut anywhere before its end is a short read, never a format error |
| `AofLoad.LoadAppendOnlyFile` | redis-5.0.7/src/aof.c:752-895 | the loading loop with its offsets and fake client returns the specified outcome: commands run, truncation offset, or error |
| `AofLoad.RoundTrip` | redis-5.0.7/src/aof.c:752-855 | loading the concatenated encodings of any non-empty log that leaves no transaction open, with either setting of aof-load-truncated, runs exactly that log |
| `AofLoad.LoadRunsPlain` | redis-5.0.7/src/aof.c:818-828 | of a log with transactions, none left open, loading runs the commands in order, without MULTI and EXEC |
| `AofLoad.LoadRefuses` | redis-5.0.7/src/aof.c:862-894 | for every file, disabling aof-load-truncated changes exactly the files that would be truncated: they are refused |
| `AofLoad.LoadCutRefused` | redis-5.0.7/src/aof.c:862-894 | with the setting disabled, every byte prefix of a log is refused exactly where LoadCut truncates it |
| `AofLoad.LoadMultiFreeCut` | redis-5.0.7/src/aof.c:752-891 | for every byte prefix of a log without MULTI, exactly the commands wholly present run and the file is cut at the end of the last one |
| `AofLoad.LoadCut` | redis-5.0.7/src/aof.c:752-891 | for every byte prefix of any log, transactions included, what runs and where the file is cut |
| `AofLoad.CutIsClean` | redis-5.0.7/src/aof.c:843-891 | the cut leaves no transaction open if and only if the log did not end inside a command of an open transaction |
| `AofLoad.UncleanCutLosesCommands` | redis-5.0.7/src/aof.c:821-891 | after an unclean cut, commands appended later are queued in the transaction left open and the next load runs none of them |
| `AofLoad.CleanCutKeepsCommands` | redis-5.0.7/src/aof.c:821-891 | after a clean cut all commands appended later are run |
| `AofLoad.UncleanCutExample` | redis-5.0.7/src/aof.c:843-891 | a log of MULTI and a partial command, cut after the MULTI |
| `AofFlush.RunConserves` | redis-5.0.7/src/aof.c:337-489 | over every sequence of feeds and flushes, with complete, failed or short writes and successful or failing truncation, file bytes followed by the buffer are all bytes fed and the recorded size is the file length |
| `AofFlush.FlushConserves` | redis-5.0.7/src/aof.c:337-489 | one flush conserves the bytes, and a successful one leaves them all in the file |
| `AofFlush.WriteExact` | redis-5.0.7/src/aof.c:297-316 | aofWrite stops short exactly if a call fails before all bytes were accepted, after the bytes accepted until then |
| `AofFlush.FlushExact` | redis-5.0.7/src/aof.c:337-489 | without an error the whole buffer reaches the file; an error ends the server with fsync always, else a short write is undone or, if the truncation fails, accounted for |
| `AofFlush.AofFile.AppendBytes` | redis-5.0.7/src/aof.c:630-634 | in-place: the bytes fed go to the end of the buffer, nothing else changes |
| `AofFlush.AofFile.AofWrite` | redis-5.0.7/src/aof.c:297-316 | the write loop appends a prefix of the data, all of it unless an error stops it, and reports -1 only if nothing was written |
| `AofFlush.AofFile.FlushBuffer` | redis-5.0.7/src/aof.c:337-489 | in-place flushAppendOnlyFile makes the step of the model |
| `AofRewriteBuffer.RewriteBuffer.Append` | redis-5.0.7/src/aof.c:125-169 | the buffer's contents grow by exactly the bytes given, in blocks of 10 MB |
| `AofRewriteBuffer.RewriteBuffer.SendDiff` | redis-5.0.7/src/aof.c:95-122 | the loop sends what Drain gives, nothing after the stop; bytes sent followed by the buffer are the old buffer |
| `AofRewriteBuffer.DrainConserves` | redis-5.0.7/src/aof.c:95-122 | for any short writes, what is sent followed by what remains is what there was |
| `AofRewriteBuffer.DrainStops` | redis-5.0.7/src/aof.c:95-122 | sending goes on until nothing is left or a write sends nothing, and every other write sends something |
| `AofRewriteBuffer.RewriteBuffer.WriteTo` | redis-5.0.7/src/aof.c:174-194 | succeeds exactly if no write is short, and then the file gains the whole buffer; else it gains the blocks before the first short write and what that one wrote |
| `AofRewriteBuffer.RewriteBuffer.Size` | redis-5.0.7/src/aof.c:79-90 | the number of bytes buffered |
| `AofFeed.FeedCommand` | redis-5.0.7/src/aof.c:580-644 | the bytes fed for a command: a SELECT exactly if the database changed, then the command or its translation, the EXPIRE and SETEX families and SET with EX or PX becoming PEXPIREAT with an absolute time; or the failed assertion, with nothing fed |
| `AofFeed.LoggedEffect` | redis-5.0.7/src/aof.c:543-626 | whenever the log is replayed, what was logged for a command has exactly the effect the command has at the time it was fed |
| `AofFeed.LoggedMeansTheSame` | redis-5.0.7/src/aof.c:554-570 | it has the effect the command had when it ran if and only if the clock gave the same time twice, or the effect does not depend on the clock: not EXPIRE or PEXPIRE of a present key, SETEX, PSETEX, or SET with EX or PX |
| `AofFeed.LateClockExample` | redis-5.0.7/src/aof.c:564-568 | PSETEX of 100 milliseconds fed a millisecond after it ran: the replayed key expires a millisecond late |
| `AofFeed.ScanAgrees` | redis-5.0.7/src/aof.c:608-616 | for every SET that succeeds, the scan of its options for the log finds what SET itself found if and only if no time spells the other option; otherwise, and only then, the assertion that follows fails |
| `AofFeed.CrossedExample` | redis-5.0.7/src/aof.c:612-615 | options with two times, the first of which spells PX: SET takes the second as seconds, and the log's scan finds a PX as well |
| `AofRewrite.StepKeepsInv` | redis-5.0.7/src/aof.c:580-644 | every step of parent and child keeps: child diff, pipe and buffer are, in this order, exactly the bytes fed since the fork, and an acknowledged child knows that nothing more will be sent |
| `AofRewrite.RunKeepsInv` | redis-5.0.7/src/aof.c:1402-1497 | every interleaving of feeds, partial pipe writes, child reads and the stop and ack handshake keeps that invariant |
| `AofRewrite.RewrittenFile` | redis-5.0.7/src/aof.c:1660-1770 | a successful rewrite leaves the snapshot followed by exactly the bytes fed since the fork |
| `AofRewrite.StartsWithSelect` | redis-5.0.7/src/aof.c:1604-1612 | in every run, a rewrite adopted after something was fed gives the snapshot, then a SELECT of the database of the first command fed, then the rest |
| `AofRewrite.RewriteIsFaithful` | redis-5.0.7/src/aof.c:1660-1770 | loading the rewritten file, transactions included and with either setting of aof-load-truncated, and replaying it gives the live data set, if the snapshot replays to the data set at the fork |
| `AofReplay.RewriteKeepsCalls` | redis-5.0.7/src/aof.c:1660-1770 | in terms of the commands clients ran: loading and replaying the rewritten file gives the data set at the fork with the effect of every command since, each at the time it was fed, and the live data set if no command whose effect depends on the clock saw the clock move before it was fed |
| `AofLog.StepKeepsLog` | redis-5.0.7/src/aof.c:580-644 | a step that adopts no rewrite adds exactly the bytes fed to what file and buffer hold, and a flush moves as many as were written |
| `AofLog.FailedRewrite` | redis-5.0.7/src/aof.c:1661-1800 | a rewrite that fails leaves the file, its buffer and the database selected alone, and the next one can begin |
| `AofLog.LogSinceAdoption` | redis-5.0.7/src/aof.c:580-1800 | in every run, whether rewrites fail or not, file and buffer are what the last rewrite adopted left, followed by all bytes fed since |
| `AofLog.LogIsFaithful` | redis-5.0.7/src/aof.c:580-1800 | in every run, with rewrites that fail or are adopted, file and buffer are a log that replays to the live data set, and loading it gives that data set if no transaction is left open |
| `AofLog.RewriteCompletes` | redis-5.0.7/src/aof.c:1402-1800 | from every idle state a rewrite can be carried through, and its file is the snapshot with what was fed meanwhile |
| `ClusterBitmap.SetSlotBit` | redis-5.0.7/src/cluster.c:3665-3687 | the bit joins the set the bytes stand for, the old value is returned and the count stays the number of bits |
| `ClusterBitmap.ClearSlotBit` | redis-5.0.7/src/cluster.c:3690-3695 | the bit leaves the set the bytes stand for, the old value is returned and the count stays the number of bits |
| `ClusterRun.DelSlotNeverAborts` | redis-5.0.7/src/cluster.c:3716-3723 | the assertion of clusterDelSlot holds on every node, for every slot, in every reachable state of the cluster: the bit of the slot is set in its owner's bitmap |
| `ClusterSlots.RebindFromKeeps` | redis-5.0.7/src/cluster.c:1554-1591 | after the loop a slot belongs to the sender exactly if it did or it was claimed, not importing, and unassigned or owned at a smaller epoch; bitmaps and counts agree with the slots |
| `ClusterSlots.ReleaseFromKeeps` | redis-5.0.7/src/cluster.c:3727-3737 | exactly the slots of the node become unassigned; bitmaps and counts agree |
| `ClusterSlots.TakeOverFromKeeps` | redis-5.0.7/src/cluster.c:2919-2925 | exactly the slots of the previous master move to this node; bitmaps and counts agree |
| `ClusterSlots.DelNodeKeeps` | redis-5.0.7/src/cluster.c:906-933 | the node is gone, exactly its slots become unassigned and the rest of the table stays consistent |
| `ClusterInvariants.ReceiveKeeps` | redis-5.0.7/src/cluster.c:1700-2095 | handling any packet of another node keeps slots and bitmaps in agreement, roles closed and every config epoch at most the current epoch; replies obey the same bound |
| `ClusterInvariants.HandlePingKeeps` | redis-5.0.7/src/cluster.c:1884-1997 | role switch, slot update, the UPDATE reply and collision handling keep the node in order and touch no election field |
| `ClusterOutcomes.PingOutcome` | redis-5.0.7/src/cluster.c:1884-1943 | after a PING the sender has the role it states, and exactly the slots it may claim are its own, or those it had are free if it turned into a replica |
| `ClusterOutcomes.PingReplies` | redis-5.0.7/src/cluster.c:1920-1984 | a PING is answered by an UPDATE exactly if its claims differ from what is known and one of them is owned at a greater epoch; the UPDATE tells the epoch and slots of the owner of the first such slot |
| `ClusterOutcomes.DirtyMeans` | redis-5.0.7/src/cluster.c:1920-1937 | claims differ from what is known exactly if they are not the slots owned by the sender or by its master |
| `ClusterOutcomes.PingEpoch` | redis-5.0.7/src/cluster.c:1989-1997 | a node that stays a master takes a new epoch exactly on a collision with a master of greater name |
| `ClusterOutcomes.UpdateOutcome` | redis-5.0.7/src/cluster.c:2071-2092 | an UPDATE with news of a known node makes it a master with that epoch and gives it exactly the slots it may have; else nothing changes |
| `ClusterOutcomes.FailOutcome` | redis-5.0.7/src/cluster.c:2001-2022 | a FAIL of a known node flags exactly the node it is about, unless it is unknown or the receiver |
| `ClusterOutcomes.DeclareFailTells` | redis-5.0.7/src/cluster.c:1194-1218 | a node that finds another one failed flags it and tells every other node it knows |
| `ClusterInvariants.UpdateSlotsKeeps` | redis-5.0.7/src/cluster.c:1531-1625 | a received configuration, with the possible switch to replica, keeps the node in order |
| `ClusterOutcomes.BecomesReplica` | redis-5.0.7/src/cluster.c:1531-1625 | a node becomes a replica of the sender exactly if it, or the master it has, owns slots that all go to the sender; else its role stays |
| `ClusterInvariants.ClaimTakesExactly` | redis-5.0.7/src/cluster.c:1554-1591 | a received configuration takes a claimed slot exactly if it is not being imported and is unassigned or owned at a smaller epoch; every other slot keeps its owner |
| `ClusterInvariants.ReceiveMovesUp` | redis-5.0.7/src/cluster.c:1700-2095 | whatever packet arrives, a slot passes from one node to another only at a config epoch strictly above the one known of the old owner |
| `ClusterInvariants.SetMasterAssertion` | redis-5.0.7/src/cluster.c:1531-1625 | a received configuration makes the assertion of clusterSetMaster fail if and only if, on the table before, this node is a replica, its master owns slots that all go to the sender, and this node owns one that does not |
| `ClusterInvariants.AbortsExactly` | redis-5.0.7/src/cluster.c:1700-2095 | the same condition, on the table with the epochs of the packet, is exact for every packet: a PING of a master, or an UPDATE that is news; it takes a replica that serves slots |
| `ClusterRun.SetMasterAbortsExactly` | redis-5.0.7/src/cluster.c:3933-3949 | in every reachable state a packet or command makes that assertion fail if and only if the packet meets this condition, or the command is REPLICATE of another known master on a replica that serves slots |
| `ClusterRun.SetMasterNeverAborts` | redis-5.0.7/src/cluster.c:3933-3949 | in every run in which slots are added to masters only, no packet and no command makes that assertion fail |
| `ClusterInvariants.HandleFailoverKeeps` | redis-5.0.7/src/cluster.c:2947-3116 | every outcome of the failover handler keeps the node in order |
| `ClusterOutcomes.WinTakesOver` | redis-5.0.7/src/cluster.c:2909-2943 | a replica that wins becomes a master with the epoch of its election, owns its slots and all those of its old master, which has none left, and no other slot changes hands |
| `ClusterOutcomes.WinnerIsMaster` | redis-5.0.7/src/cluster.c:3095-3116 | in every run the winner of an election has failed over in the next state |
| `ClusterOutcomes.StartAsksAll` | redis-5.0.7/src/cluster.c:3078-3092 | a replica that starts an election moves to a new epoch and asks every other node it knows for its vote |
| `ClusterOutcomes.FailoverStages` | redis-5.0.7/src/cluster.c:2947-3116 | nothing happens unless the node is a replica of a known master with slots that failed or is to be replaced; then the handler resets, waits, starts, or wins with more than half of the masters |
| `ClusterInvariants.ExecuteKeeps` | redis-5.0.7/src/cluster.c:4267-4612 | the slot, epoch, forget and replicate commands keep the node in order |
| `ClusterOutcomes.CommandOutcome` | redis-5.0.7/src/cluster.c:4276-4612 | who owns each slot and what it is imported from after every command, refused ones included |
| `ClusterOutcomes.CommandNodes` | redis-5.0.7/src/cluster.c:4276-4612 | which nodes are known, and this node's role and config epoch, after every command |
| `ClusterInvariants.ReplicaStaysEmpty` | redis-5.0.7/src/cluster.c:4276-4325 | a command leaves a replica that serves slots if and only if it is ADDSLOTS of a free slot on a replica, which the code does not refuse |
| `ClusterInvariants.BumpRaises` | redis-5.0.7/src/cluster.c:1013-1030 | a bump gives an epoch strictly above all the node knows, or the node already had the greatest |
| `ClusterInvariants.CollisionResolved` | redis-5.0.7/src/cluster.c:1078-1093 | of two colliding masters the one with the smaller name moves strictly above all it knows and the other stays |
| `ClusterRun.RunKeepsInv` | redis-5.0.7/src/cluster.c:1636-2106 | in every reachable state of the whole cluster slots and bitmaps agree on every node, each current epoch bounds all config epochs in the node's table and in what it ever sent, and current epochs never fall |
| `ClusterRun.NextKeeps` | redis-5.0.7/src/cluster.c:2248-2320 | each step of any node keeps this |
| `ClusterVotes.VoteActs` | redis-5.0.7/src/cluster.c:2707-2808 | a vote is for the epoch of the request, above every earlier vote, and sends one ACK to the requester |
| `ClusterVotes.VoteIsDeserved` | redis-5.0.7/src/cluster.c:2707-2808 | a request is answered by a vote if and only if, before it arrived, this node was a master that serves slots and had not voted in the request's epoch, an epoch not behind its own, and the sender a replica of a master it knows to have failed (or the request is forced) with no claim on a slot served at a greater epoch |
| `ClusterVotes.AckActs` | redis-5.0.7/src/cluster.c:2046-2058 | an ACK changes only the counter, by one exactly if it is eligible |
| `ClusterVotes.NextKeepsVotes` | redis-5.0.7/src/cluster.c:2707-2808 | every step keeps: at most one ACK per voter and epoch, no ACK above the voter's last vote or the candidate's election epoch, each counted vote backed by a delivered ACK |
| `ClusterElections.OneVotePerEpoch` | redis-5.0.7/src/cluster.c:2707-2808 | unconditionally, in every reachable state, two ACKs with the same sender and current epoch are one ACK |
| `ClusterElections.RealVotes` | redis-5.0.7/src/cluster.c:3095-3109 | unconditionally, a winner's real votes for its epoch are its count less what the counter held at the start; they are a majority if and only if the count exceeds the quorum by that much |
| `ClusterElections.OneWinnerPerEpoch` | redis-5.0.7/src/cluster.c:2947-3116 | with one voting set per epoch seen alike by its candidates, if every winner's count exceeds the quorum by what its counter held at the start (the exact condition of RealVotes for a majority of real votes), no two replicas win the same epoch |
| `ClusterElections.OneCleanWinnerPerEpoch` | redis-5.0.7/src/cluster.c:2947-3116 | the same if winners started with a zero counter |
| `ClusterElections.OneWinnerWithoutStrayAcks` | redis-5.0.7/src/cluster.c:3019-3109 | the same if no ACK is counted between the reset of the counter and the epoch bump |
| `ClusterElections.NoStrayAckMakesCleanWins` | redis-5.0.7/src/cluster.c:3019-3090 | if no ACK is counted between the reset of the counter and the epoch bump, every winner's counter was zero at the start |
| `ClusterSplitVote.TwoWinners` | redis-5.0.7/src/cluster.c:3019-3109 | without that hypothesis the property fails: a run with three voting masters, seen alike, in which two replicas win epoch 2 |
| `ClusterSplitVote.AddSlotsOnReplica` | redis-5.0.7/src/cluster.c:4276-4325 | a run: a replica is given a free slot by ADDSLOTS, another master takes its master's only slot, and the PING of that master makes the replica abort, as would REPLICATE |
| `ClusterConverge.Converges` | redis-5.0.7/src/cluster.c:1531-1591 | for masters with fixed claims and distinct epochs, an observer that has heard each at least once, in any order and repetition, has every claimed slot owned by its claimant of highest epoch and every other slot unassigned |
| `ClusterConverge.HearOne` | redis-5.0.7/src/cluster.c:1929-1944 | one packet, whether or not its claim looks changed, extends this from the masters heard to the sender |
| `ClusterConverge.ObserversAgree` | redis-5.0.7/src/cluster.c:1531-1591 | two observers that heard the same masters in different orders agree on every slot |
| `ClusterObject.ClusterState.AddSlotTo` | redis-5.0.7/src/cluster.c:3706-3711 | in-place clusterAddSlot, refused exactly if the slot is assigned |
| `ClusterObject.ClusterState.RemoveSlot` | redis-5.0.7/src/cluster.c:3716-3723 | in-place clusterDelSlot, with its assertion proved |
| `ClusterObject.ClusterState.RemoveNodeSlots` | redis-5.0.7/src/cluster.c:3727-3737 | the loop by bitmap releases the node's slots and returns how many it had |
| `ClusterObject.ClusterState.ApplyClaims` | redis-5.0.7/src/cluster.c:1554-1591 | the rebinding loop makes the specified table and tells exactly whether the current master lost a slot |
| `ClusterObject.ClusterState.UpdateSlotsConfig` | redis-5.0.7/src/cluster.c:1531-1625 | in-place clusterUpdateSlotsConfigWith makes the step of the model, or reports the failed assertion of clusterSetMaster exactly where the model aborts |
| `ClusterObject.ClusterState.TakeOver` | redis-5.0.7/src/cluster.c:2919-2925 | the takeover loop by bitmap makes the specified table |
| `ClusterObject.ClusterState.ForgetNode` | redis-5.0.7/src/cluster.c:906-933 | the release loop and unlinking make the specified table |
| `ClusterObject.ClusterState.MaxEpoch` | redis-5.0.7/src/cluster.c:969-982 | the greatest of the current epoch and all config epochs |
| `ClusterObject.ClusterState.BumpConfigEpoch` | redis-5.0.7/src/cluster.c:1013-1030 | bumps exactly when the node has not the greatest epoch |
| `ClusterObject.ClusterState.ProcessRequest` | redis-5.0.7/src/cluster.c:2707-2808 | the chain of refusals and the slot loop grant exactly the specified votes |
| `ClusterObject.ClusterState.ProcessPing` | redis-5.0.7/src/cluster.c:1884-1997 | in-place handling of PING and PONG makes the step of the model and sends the same UPDATE, or reports the failed assertion of clusterSetMaster exactly where the model aborts |
| `ClusterObject.ClusterState.ProcessPacket` | redis-5.0.7/src/cluster.c:1700-2095 | in-place clusterProcessPacket makes the step of the model, or reports the failed assertion of clusterSetMaster exactly where the model aborts |
| `ClusterObject.ClusterState.HandleSlaveFailover` | redis-5.0.7/src/cluster.c:2947-3116 | in-place clusterHandleSlaveFailover makes the step of the model and sends the same requests |
| `BlockedRun.IndexConsistent` | redis-5.0.7/src/blocked.c:102-181 | over every run a client is in a key's line exactly once if and only if the key is in its own set, no line is empty, the counters (total and per kind) are the numbers of blocked clients, and the unblocked queue holds each flagged client exactly once |
| `BlockedIndex.BlockForKeysKeeps` | redis-5.0.7/src/blocked.c:508-550 | blocking on keys, repeated ones ignored, keeps the index and the counters exact, and the client waits for exactly the set of keys |
| `BlockedOrder.BlockForKeysLines` | redis-5.0.7/src/blocked.c:508-550 | a client that blocks goes to the end of the line of each of its keys, once, and no other line changes |
| `BlockedOrder.UnblockLines` | redis-5.0.7/src/blocked.c:554-587 | a client that is unblocked leaves the lines of its keys, and no other line changes |
| `BlockedOrder.WithoutKeepsOrder` | redis-5.0.7/src/blocked.c:554-587 | the clients that stay in a line keep their order |
| `BlockedOrder.FirstComeFirst` | redis-5.0.7/src/blocked.c:246-587 | in every run, of two clients in a line that waits for one kind of value at a time the one that blocked first stands first |
| `BlockedIndex.UnblockKeeps` | redis-5.0.7/src/blocked.c:162-181 | unblocking keeps the index exact, one client fewer is blocked and it is queued for reprocessing once |
| `BlockedIndex.SignalKeeps` | redis-5.0.7/src/blocked.c:596-617 | a ready key is queued at most once, in the list and the dictionary alike |
| `BlockedIndex.ReprocessKeeps` | redis-5.0.7/src/blocked.c:112-133 | taking the first unblocked client keeps queue and flags in agreement |
| `BlockedServe.HandleAll` | redis-5.0.7/src/blocked.c:246-479 | serving terminates even when it makes other keys ready: each round queues no new key or unblocks a client; no ready key is left and the index stays exact |
| `BlockedServe.HandleListInOrder` | redis-5.0.7/src/blocked.c:273-325 | for a list key whose waiters all wait for lists without a target, exactly the first min(elements, waiters) clients are served in blocking order, one element each, nobody else changes, and the key goes exactly if the list is used up |
| `BlockedServe.HandleZSetInOrder` | redis-5.0.7/src/blocked.c:337-381 | for a sorted set whose waiters all wait for one, exactly the first min(elements, waiters) clients are served in the order of the line, minimum or maximum as they asked, nobody else changes, and the key goes exactly if it is used up |
| `BlockedServe.HandleStream` | redis-5.0.7/src/blocked.c:384-466 | of a stream key's waiters exactly those with an ID below its last one are unblocked, in order, with the entries after that ID; the others keep their places and order, and nobody else changes |
| `BlockedServe.PopTakesEnd` | redis-5.0.7/src/blocked.c:300-305 | a pop takes the first element at the head and the last one at the tail |
| `BlockedServed.NobodyLeftWaiting` | redis-5.0.7/src/blocked.c:246-479 | with targets and waiters of all kinds: if every key that could serve a waiting client is marked as ready, then after the ready keys are handled no client waits for a key whose value it could be given |
| `BlockedServed.NobodyStarves` | redis-5.0.7/src/blocked.c:246-617 | over every run in which no value is overlooked, in the sense of WriteStaysAlert |
| `BlockedServed.WriteStaysAlert` | redis-5.0.7/src/db.c:173-219 | writing a key keeps every key that could serve somebody marked as ready if and only if it does not replace a value in place, unmarked, by one that fits a waiting client |
| `BlockedServed.OverwriteExample` | redis-5.0.7/src/db.c:190-219 | a client waits for a list, a value of another kind is stored at its key and then a list in its place: the client is not served |
| `BlockedServe.SharesServeFirst` | redis-5.0.7/src/blocked.c:287-315 | popping one element per client from its end of the list serves as many clients as there are elements |
| `BlockedServe.ServeTarget` | redis-5.0.7/src/blocked.c:299-322 | a client with a target: the element moves to the head of the target list, which is created and signalled if absent, also when the target is the key itself; a target of another type leaves all data as they were |
| `BlockedServe.ServeOneKeeps` | redis-5.0.7/src/blocked.c:287-315 | one round keeps the index exact, keeps the line long enough for the rounds that remain, and makes a key ready only by unblocking a client |
| `BlockedObject.BlockedServer.BlockOnKeys` | redis-5.0.7/src/blocked.c:508-550 | the loop over the keys makes the step of the model |
| `BlockedObject.BlockedServer.StopWaiting` | redis-5.0.7/src/blocked.c:554-587 | the loop over the client's keys removes it from each line and drops empty lines; both assertions hold |
| `BlockedObject.BlockedServer.UnblockClient` | redis-5.0.7/src/blocked.c:162-181 | in-place unblockClient makes the step of the model; the counters cannot fall below zero |
| `BlockedObject.BlockedServer.ProcessUnblocked` | redis-5.0.7/src/blocked.c:112-133 | the queue is emptied and every flag cleared, nothing else changes |
| `BlockedObject.BlockedServer.SignalKey` | redis-5.0.7/src/blocked.c:596-617 | in-place signalKeyAsReady makes the step of the model |
| `BlockedObject.BlockedServer.ServeListKey` | redis-5.0.7/src/blocked.c:273-333 | the loop over the waiters makes the step of the model |
| `BlockedObject.BlockedServer.ServeZSetKey` | redis-5.0.7/src/blocked.c:337-381 | the loop over the waiters of a sorted set makes the step of the model |
| `BlockedObject.BlockedServer.ServeStreamKey` | redis-5.0.7/src/blocked.c:384-466 | the loop over the waiters of a stream, from which clients leave while it is walked, makes the step of the model |
| `BlockedObject.BlockedServer.HandleClientsBlockedOnKeys` | redis-5.0.7/src/blocked.c:246-479 | the nested loops end with no ready key, in the state of the model |
| `SlotIndex.RunKeepsIndex` | redis-5.0.7/src/db.c:173-377 | after any sequence of adds, deletes and flushes that meet the condition of EmptyKeeps, the radix index is exactly the slot-prefixed key set of database 0 and each counter the number of keys in its slot, and database 0 is the plain map after the same operations |
| `SlotIndex.AddKeeps` | redis-5.0.7/src/db.c:173-182 | dbAdd of an absent key keeps index and counters exact |
| `SlotIndex.DeleteKeeps` | redis-5.0.7/src/db.c:271-281 | dbSyncDelete keeps index and counters exact, and no counter underflows |
| `SlotIndex.EmptyKeeps` | redis-5.0.7/src/db.c:342-377 | flushing keeps the index exact if and only if database 0 is flushed, database 0 was empty, or the number is out of range |
| `SlotIndex.FlushOtherExample` | redis-5.0.7/src/db.c:342-377 | one key in database 0, then the flush of database 1: the key stays and the index is empty |
| `SlotIndex.Squeeze` | redis-5.0.7/src/db.c:1526-1541 | between a slot prefix and a string that has it, in the order of the tree, there are only strings that have it |
| `SlotIndexObject.Seek` | redis-5.0.7/src/db.c:1533-1535 | the next string of the tree in lexicographic order, or none |
| `SlotIndexObject.Keyspace.UpdateKey` | redis-5.0.7/src/db.c:1489-1506 | inserts or removes the slot-prefixed key and moves the slot's counter by one |
| `SlotIndexObject.Keyspace.AddKey` | redis-5.0.7/src/db.c:173-182 | in-place dbAdd on database 0, index exact afterwards |
| `SlotIndexObject.Keyspace.DeleteKey` | redis-5.0.7/src/db.c:271-281 | in-place dbSyncDelete on database 0, index exact afterwards |
| `SlotIndexObject.Keyspace.EmptyDb` | redis-5.0.7/src/db.c:342-377 | removes all keys of one database or of all, returns how many, or -1 for a number out of range; flushes the index |
| `SlotIndexObject.Keyspace.GetKeysInSlot` | redis-5.0.7/src/db.c:1526-1541 | min(count, keys in the slot) distinct keys, all of the slot |
| `SlotIndexObject.Keyspace.DelKeysInSlot` | redis-5.0.7/src/db.c:1545-1564 | terminates, having removed exactly the slot's keys, and returns how many |
| `SlotIndexObject.Keyspace.CountKeysInSlot` | redis-5.0.7/src/db.c:1566-1568 | the number of keys of the slot |
| `Bio.CompletesInOrder` | redis-5.0.7/src/bio.c:131-216 | in every interleaving jobs complete exactly once in submission order, the pending counter is the queue length whenever the lock is free, and a worker that sleeps unsignalled with the lock free has completed everything; a thread waits unwoken for a step, with the lock free, only while a job is queued |
| `Bio.ZeroMeansDone` | redis-5.0.7/src/bio.c:219-247 | a thread that reads a pending count of zero, at once or after waiting for a step, knows that every job submitted before has completed |
| `Bio.CountIsExact` | redis-5.0.7/src/bio.c:219-247 | both calls return the number of jobs queued, and a thread waits for a step exactly if there are some |
| `Bio.CallsEnd` | redis-5.0.7/src/bio.c:131-247 | every step of a thread brings its call nearer to the end, steps of others do not change that, and only a read of the counter decides what is returned |
| `Bio.WorkerDoes` | redis-5.0.7/src/bio.c:175-216 | from the top of its loop with jobs queued the worker's next six steps, whatever others do between them, complete exactly the first job and unlink it |
| `Bio.WorkerCountsDown` | redis-5.0.7/src/bio.c:206-213 | and the counter falls by one, apart from jobs queued meanwhile |
| `Bio.WorkerReturns` | redis-5.0.7/src/bio.c:175-183 | a worker that was woken is at the top of its loop after one step, and sleeps after the next one if no job is queued |
| `Bio.SubmissionDone` | redis-5.0.7/src/bio.c:131-144 | a submission is done after five steps of the thread: the second queues the job at the end, the fourth signals a sleeping worker |
| `Bio.RunKeeps` | redis-5.0.7/src/bio.c:131-247 | lock, queue, counter and wake-up invariants hold in every state; submissions and completions only grow |

## Left out

- The JavaScript application and all other parts of Redis.
- dict.c: random sampling, fingerprints, statistics, unsafe iterators, `dictGetIterator` misuse checks; memory management is not modelled.
- DictMap.RunRefinesMap: excludes runs that reach 2^63 buckets, where `dictReplace` would follow a null pointer and `dictAdd` fails.
- bitops.c: 64-bit wide fields, where the code shifts by 64; the 256-entry table `bitsinbyte` is taken to hold bit counts; commands and replies.
- BitField.CheckUnsigned: a call without a limit to fill in is not modelled; no caller makes one.
- BitField.CheckSigned: requires that `max - value` and `min - value` do not overflow a 64-bit integer: that is undefined in C. Values in the range of the field never overflow; SET can pass others.
- aof.c: RDB preamble, streams, modules, fsync timing (postponement is a parameter), process control.
- AofFeed.LoggedEffect: times that overflow a long long are excluded; commands without a time are taken to have effects that do not depend on it, and a time in the past, which the server turns into a deletion, is not modelled.
- AofLoad.RoundTrip: a log that ends with a transaction open is treated by AofLoad.LoadCut instead.
- AofRewrite.RewriteIsFaithful: a rewrite is adopted between transactions, not within one.
- cluster.c: sockets, gossip, handshakes except for their result, MIGRATE, DUMP and RESTORE, the configuration file and votes after a crash, RESET, FAILOVER TAKEOVER, replica migration, module flags, the deletion of keys in lost slots, migrating slots, replication offsets and ranks, the stale copy of the cluster size (it is a parameter).
- ClusterObject.ClusterState.ForgetNode: ends imports from the node after the loop rather than slot by slot; failure reports are not modelled.
- ClusterElections.OneWinnerPerEpoch: needs that the candidates of an epoch see the same voting masters; ClusterSplitVote.TwoWinners shows that the condition on the counts cannot be dropped.
- ClusterObject.ClusterState.AddSlotTo: bitmaps are sets of slots here; that the byte operations keep such a set is proved apart, in ClusterBitmap.
- blocked.c: consumer groups of streams, the entries and scores replied, WAIT and module clients beyond their counters, timeouts, replication of the commands served, keyspace notifications.
- BlockedObject.BlockedServer.ProcessUnblocked: the commands that the source runs for each client are not run; any of them may happen between two rounds in BlockedRun.
- BlockedServe.HandleListInOrder: with waiters of other kinds or with targets the order is not stated, as the source itself gives up fairness there; that nobody is left waiting is, in BlockedServed.NobodyLeftWaiting.
- db.c: expires, LRU and LFU clocks, lazy freeing, blocking signals of `dbAdd` (see the blocking model), keys added to other databases; the structure of the radix tree.
- bio.c: what a job does, thread creation and killing; fairness of the scheduler (what steps get done is proved, and the absence of lost wake-ups).
