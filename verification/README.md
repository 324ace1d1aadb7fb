# minflow in Dafny

minflow watches network traffic, keeps per-stream and per-address counters in fixed tables that are
allocated once, and turns the counters into a report every minute. This project models its stateful
core and proves what the parts rely on.

- **Slot pools** (`SlotPool`): the managed array that hands out table slots from a window growing
  around a midpoint. Its asserts hold on *anchored* runs; the invariant is lost by exactly the releases
  that are not anchored.
- **Hash table** (`BucketCount`, `ChainTable`, `HashTables`, `LookupTables`, `AliasedKeys`,
  `AliasedRuns`): linked buckets relinked in place by a rehash, shown to be a finite map on every run for
  any lawful comparison and hash, as long as stored keys do not change.
- **Streams and addresses** (`StreamKeys`, `Lifecycle`, `Capture`, `Tenancy`, `Liveness`,
  `Sweeps`, `Queues`, `Divergences`, `Directions`, `FlowTypes`, `StreamHistory`, `InstanceIds`,
  `AddressTable`, `Tracker`): a state
  machine over parsed packets with reference counts, a two-stage cleanup queue and a release pass.
  `Tracker` is the same machine updating arrays, lists and the two linked hash tables in place.
- **Statistics** (`StatClock`, `Deltas`, `Ports`, `QuickSort`, `Ranking`, `MinuteReport`, `TopLists`,
  `Reporter`, `Minutes`, `Protocols`, `Published`): the simulated clock, counter deltas, port-scan scores and top-N
  lists, up to what a report says of the packets that were captured.
- **Report rows** (`ReportBuilder`, `StringBuf`): referential integrity of the rows of a period and the
  growable buffer that holds them.

Imperative code is modelled by classes and methods with loops over arrays and linked nodes; each method
is tied to a function on values, and the properties are proved about these functions. Verify with
`dafny verify dfyconfig.toml`.

## Where the code falls short of what it is for

Most points are lemmas, with the exact condition where there is one.

- The second shrink loop of a release stops at `idx_lo + 1` and not at the midpoint, so a release can
  leave the window on one side of the midpoint (`SlotPool.FreeOkIffAnchored`, `SlotPool.NonAnchoredRun`).
- An even capacity shifts the window up by one slot; all three production pools are even
  (`SlotPool.InRangeIffOdd`). The midpoint computed at `test/mga_test.c` line 42 agrees with
  the code's only for odd capacity. One slot past the end of the stream and address tables can therefore
  be handed out; writing to it is a fault here, and `Tenancy.FaultIffNoRoom` says when. LAN slot 256 is
  released to the wrong pool and stays taken (`Lifecycle.AddrFreeReleasesIff`).
- `idx_min` 0 with an odd capacity lets `idx_lo` wrap (`SlotPool.ZeroBaseRejectsFrees`); the pool
  theorems ask for `idx_min >= 1` in that case.
- The stream table stores a pointer to a local key of `on_packet`, so every stored key reads as the
  current packet's. A cleanup pass then removes the entry of the current packet's stream only
  (`AliasedKeys.RemovalWorksIff`, `AliasedKeys.PassLeavesEntries`), and different keys in one bucket are
  taken for one another (`AliasedKeys.UdpGetsTcpStream` is a failing family). Over a whole capture the
  answers are those of keys stored by value exactly on runs that are `Orderly`
  (`AliasedRuns.AnswersRightIffOrderly`). The state machine stores keys by value.
- The search for expired streams does not test the cleanup flag (`Lifecycle.ExpiryKeepsOnceIff`), and a
  stream queued twice corrupts counts or queues (`Sweeps.SweepKeepsInvIff`). Two packets are enough
  (`Divergences.TwoFinsQueueADeadStream`).
- `shm_addr_free` leaves the lookup entry behind (`Lifecycle.AddrFreeLeavesEntry`); a new stream to such
  an address breaks the bookkeeping (`Tenancy.NewStreamKeepsInvIff`), two packets being enough
  (`Divergences.ReturningAddressHasNoSlot`). A reused address slot keeps its received bytes
  (`Liveness.NewAddressStartsClean`).
- `u32diff` is one short when the counter wrapped (`StatClock.DiffIsGrowthLessWrap`), and
  `tval_diff_ms` has no borrow and misses some gaps beyond 4290672 seconds (`StatClock.LongGapIsLost`).
- `tv_sec - last_sec > 0` is unsigned: a cleanup pass is started by any different second, also an
  earlier one. The model does the same.
- The comment at the head of `capture/cleanup.c` puts early-second entries on the wait list; the code
  puts them on the main list. The model follows the code.

## Hypotheses of the run theorems

The run theorems of `Tenancy`, `Liveness`, `Directions`, `FlowTypes`, `StreamHistory`, `Queues` and
`Published`, and the
invariant at the end of `Tracker.CaptureProcess.Replay`, have the following hypotheses.

- Stream keys are stored by value; `AliasedRuns` says exactly on which captures the table as written
  answers like that.
- Packets are later than second zero, because the program takes a slot whose record shows second zero for
  free (`Liveness.CreateTimedIff`). Where a theorem does not ask for it, it is about the pools of the
  model, which are those of the program only then.
- Each counted packet is admissible: a new stream brings back no address that was released, from a slot
  other than 256; the packet counter of a known stream has not wrapped to zero; and its FIN or RST does
  not queue it a second time. This is exact (`Tenancy.RecordKeepsInvIff`), and the last part holds by
  itself on runs fed by FIN and RST alone (`Queues.QuietRunFits`).
- Each cleanup pass queues no expired stream that is queued already and makes anchored releases only. The
  first is exact (`Sweeps.SweepKeepsInvIff`); the second is exact for each release
  (`SlotPool.FreeOkIffAnchored`).

The two-packet captures of `Divergences` are runs of the same state machine, with keys by value. A fault
(failed assert, use of NULL, index outside a table) ends a run. `StatClock` asks for ordered times with
microseconds below one million and gaps within the bound.

## Model
| member | source | states |
|---|---|---|
| SlotPool.AllocOk | utils/mgarray.c:59-110 | From a pool that meets the window invariant no assert of the allocator can fail; NULL comes back exactly when `total_entries` slots are taken; otherwise a slot of the fixed window that was not taken is handed out and the invariant holds again |
| SlotPool.AllocPlan | utils/mgarray.c:59-110 | Which slot it is: the lowest hole if there is one, otherwise the end on the shorter side, the lower one on a tie; no 32-bit subtraction wraps |
| SlotPool.FreeOkIffAnchored | utils/mgarray.c:115-132 | A release keeps the invariant (all taken slots strictly inside the window, exact count, both ends tight) if and only if it is anchored: it leaves a taken slot at or above the midpoint, or none below it |
| SlotPool.FreeTaken | utils/mgarray.c:115-132 | Whatever the shrink loops do, a release takes exactly the named slot out of the taken set |
| SlotPool.BoundedSize | utils/mgarray.c:64-78 | The counting argument behind the hole search: a set inside an interval fills it exactly when it has as many members as the interval |
| SlotPool.LastSlotComesLast | utils/mgarray.c:59-110 | An even pool that has not handed out the last slot of its window does so exactly when every other slot is taken, and is never full before |
| SlotPool.RunOk | utils/mgarray.c:28-132 | Every anchored run from `mga_init` keeps the invariant |
| SlotPool.AnchoredRunSafe | utils/mgarray.c:28-132 | On every anchored run: taken slots lie in one window of exactly `total_entries` slots, no assert of the next call fails, no taken slot is handed out again, NULL exactly when full |
| SlotPool.FillRun | utils/mgarray.c:19-23 | Filling a fresh pool alternates between both ends: after n calls exactly the slots from mid-(n+1)/2+1 to mid+n/2 are taken |
| SlotPool.InRangeIffOdd | utils/mgarray.c:34-41 | All anchored runs stay inside the requested range `[idx_min, idx_max]` if and only if the capacity is odd; a filled even pool holds `idx_max + 1` |
| SlotPool.ZeroBaseRejectsFrees | utils/mgarray.c:103-121 | With `idx_min` 0 and odd capacity the full pool has `idx_lo` wrapped, and then every release is ignored |
| SlotPool.NonAnchoredRun | utils/mgarray.c:128-131 | A concrete run with one release that is not anchored: later allocations go below `idx_min`, and after everything is released the next allocation fails its assert |
| SlotPool.ManagedArray.constructor | utils/mgarray.c:28-42 | An empty pool with the window closed around the midpoint |
| SlotPool.ManagedArray.AllocEntry | utils/mgarray.c:59-110 | In place on the flag array: refines the allocation function, sets one flag, or changes nothing when full |
| SlotPool.ManagedArray.FirstFreeSlot | utils/mgarray.c:70-77 | The interior scan stops at the lowest free slot of the window |
| SlotPool.ManagedArray.FreeEntry | utils/mgarray.c:115-132 | In place: refines the release function; the invariant survives exactly an anchored release |
| SlotPool.ManagedArray.Shrink | utils/mgarray.c:130-131 | Both shrink loops terminate where the specification says: at the first taken slot or at their bound |
| BucketCount.IsProbablePrime | utils/hashtable.c:674-684 | True exactly when no odd number in 3..49 other than the argument divides it |
| BucketCount.DividesIffRemainder | utils/hashtable.c:680-681 | Divisibility defined by repeated subtraction agrees with the remainder the code tests |
| BucketCount.Beacon | utils/hashtable.c:692-693 | Above every starting point there is an odd number that passes the test, so the search terminates |
| BucketCount.IdealExists | utils/hashtable.c:686-696 | For every number of elements a least passing odd candidate exists |
| BucketCount.CalculateIdealNumOfBuckets | utils/hashtable.c:686-696 | Terminates at the least odd candidate from max(5, n/3) on that passes the test; below 53*53 that number is prime |
| BucketCount.TestIsExactBelow2809 | utils/hashtable.c:674-684 | For odd numbers below 53*53 the test decides primality, both ways |
| ChainTable.PutIsUpdate | utils/hashtable.c:194-229 | Adding or overwriting a pair updates the finite map at the equal keys only, keeps the chains well formed and counts new keys |
| ChainTable.RemoveIsDelete | utils/hashtable.c:286-306 | Unlinking a pair deletes the equal keys from the map and nothing else, and the count follows |
| ChainTable.FlattenFind | utils/hashtable.c:536-545 | Walking all chains meets every stored pair once and finds what a lookup finds |
| ChainTable.FlattenDistinct | utils/hashtable.c:536-545 | No two pairs of a table have equal keys, across buckets too |
| ChainTable.RelinkIsUnion | utils/hashtable.c:536-545 | Pushing distinct pairs one by one in front of their new chains adds exactly these pairs to the map |
| ChainTable.RehashKeepsMap | utils/hashtable.c:514-550 | A rehash leaves every lookup and the size unchanged and has the requested, or the ideal, number of buckets |
| ChainTable.AfterPutIsUpdate | utils/hashtable.c:194-241 | Put with its load-factor rule is still the map update, and keeps at most 15 elements a bucket |
| ChainTable.RunIsFiniteMap | utils/hashtable.c:194-350 | After any sequence of Put, Remove, RemoveAll and Rehash a lookup returns what the last call concerning that key left, for any equivalence and any hash that respects it |
| ChainTable.RunKeepsLoad | utils/hashtable.c:229-236 | On every run in which rehashes choose the number themselves there are at most 15 elements a bucket |
| ChainTable.PutRehashesWhen | utils/hashtable.c:229-236 | A put rehashes exactly when it adds a key and leaves more than 15 elements a bucket, and then to the ideal number of buckets |
| ChainTable.SizeCountsKeys | utils/hashtable.c:229-306 | `numOfElements` is the number of classes of equal keys that are present |
| AliasedKeys.LookupFindsHead | capture/main.c:106-124 | While every stored key reads as the current packet's key, a lookup returns the head of its bucket, whoever was put there |
| AliasedKeys.RemovalWorksIff | common/shmdata.c:177-180 | While every stored key reads as the current packet's key, a removal changes the table if and only if it is for that very key and the bucket is not empty |
| AliasedKeys.PassLeavesEntries | capture/cleanup.c:100-106 | A cleanup pass leaves the lookup entry of every stream it releases, the current packet's own stream apart |
| AliasedKeys.ForgottenIff | capture/cleanup.c:100-106 | After a release the next packet of that stream finds no entry if and only if there was none, or the stream was released by its own packet and was alone in its bucket |
| AliasedKeys.AnswerIsFirst | common/shmdata.c:184-191 | On every run of lookups that make an entry on a miss, a packet is answered with the slot made by the first packet of its bucket |
| AliasedKeys.AnswersRightIff | common/shmdata.c:184-191 | On such a run every packet is answered with a slot made for its own key if and only if any two keys of the run in one bucket are equal |
| AliasedKeys.UdpGetsTcpStream | net/streamkey.c:96-109 | A failing family: a UDP conversation between two endpoints that already have a TCP one is answered with the TCP stream, whatever the endpoints and the number of buckets |
| AliasedRuns.AnswerIsHolder | capture/cleanup.c:97-106 | Over a whole capture, cleanup releases included, a packet is answered with the slot made by the first packet of its bucket since a packet's pass last released that packet's own stream there |
| AliasedRuns.ValueTableHolds | common/shmdata.c:177-191 | The same table with keys stored by value answers as the finite map in which the first packet of a conversation since its last release owns the key, rehashes included |
| AliasedRuns.AnswersRightIffOrderly | capture/cleanup.c:97-106 | Over a whole capture every packet is answered as with keys stored by value if and only if any two packets that meet in a bucket not emptied between them have equal keys and their stream was not released between them |
| LookupTables.KeyOpsArePlain | common/shmdata.c:410-425 | Stream keys and address keys are compared by their bytes |
| LookupTables.PutRepresents | utils/hashtable.c:194-241 | A put on chains that hold a map makes them hold the updated map, rehash included |
| LookupTables.RemoveRepresents | utils/hashtable.c:286-315 | A removal on chains that hold a map makes them hold the map without the key |
| LookupTables.SizeRepresents | utils/hashtable.c:229-306 | The element count is the size of the map |
| HashTables.HashTable.constructor | utils/hashtable.c:49-83 | An empty table of the requested number of buckets |
| HashTables.HashTable.NodesApart | utils/hashtable.c:194-350 | Chains share no node and no chain meets a node twice: the buckets are disjoint acyclic lists |
| HashTables.HashTable.Walk | utils/hashtable.c:201-205 | The chain walk stops at the node with an equal key, or at the end, and knows the node before |
| HashTables.HashTable.Get | utils/hashtable.c:260-268 | Returns what the finite map holds |
| HashTables.HashTable.Put | utils/hashtable.c:194-241 | Refines the put on chains, including the load-factor rehash; a failed pair allocation returns -1 and leaves the table unchanged; a failed array allocation only skips the rehash |
| HashTables.HashTable.Remove | utils/hashtable.c:286-315 | Refines the removal on chains with the count following |
| HashTables.HashTable.Bypass | utils/hashtable.c:301-304 | Redirecting one pointer leaves the chain without that node and every other chain untouched |
| HashTables.HashTable.RemoveAll | utils/hashtable.c:331-350 | Leaves an empty table of five buckets, or of the old number when the new array cannot be allocated |
| HashTables.HashTable.Rehash | utils/hashtable.c:514-550 | The pointer relinking refines the rehash on values; without memory nothing changes |
| HashTables.HashTable.RelinkInto | utils/hashtable.c:536-545 | The two nested loops move every node, in order, to the front of its new chain |
| HashTables.HashTable.RelinkBucket | utils/hashtable.c:537-544 | One old chain is relinked while the chains after it stay intact |
| HashTables.RelinkAppend | utils/hashtable.c:536-545 | Relinking two lists one after the other is relinking their concatenation |
| QuickSort.PartitionLoop | utils/sort.c:20-30 | The partition loop terminates, stays in range, permutes `[m, n]` only and always exits with j = i - 1, everything up to j not above the pivot and everything after it above |
| QuickSort.Partition | utils/sort.c:17-32 | The pivot ends between the elements not above it and those above it |
| QuickSort.Quicksort | utils/sort.c:10-38 | For every array, range and total preorder: terminates, permutes only `list[m..n]` and leaves it sorted |
| Ranking.DescendingIsPreorder | statproc/statproc_handlers.c:579-673 | The reversed comparators are total preorders, so the sort applies to them |
| Ranking.Rank | statproc/statproc_handlers.c:414-427 | Sorting the pointer list ranks exactly the collected candidates, largest key first, and touches no other entry |
| Ranking.TopIsTop | statproc/statproc_handlers.c:416-436 | The first n of a ranking are candidates, in descending order, as many as possible, and no candidate left out exceeds one that is shown |
| StreamKeys.SameKeyIffSameConversation | net/streamkey.c:46-69 | Two packets get the same key if and only if protocol and unordered endpoint pair agree |
| StreamKeys.LeftHasTheLargerPort | net/streamkey.c:46-69 | The left side of a key has the larger port, with equal ports the smaller or equal address; the key carries the packet's protocol and its two endpoints, source on the right exactly when flipped |
| StreamKeys.ReplyIsFlipped | net/streamkey.c:46-118 | The reply has the same key and hash, and the opposite flipped flag exactly when the endpoints differ |
| StreamKeys.RebuiltKey | common/shmdata.c:138-152 | The key rebuilt from the fields of a stored key is that key |
| StreamKeys.StreamKeyOpsLawful | net/streamkey.c:75-118 | Comparison and hash of stream keys meet what the hash table needs |
| Ports.SetPortBitSets | statproc/statproc_handlers.c:516-557 | Marking a port sets the bit of that port and no other, and nothing for an unwatched port |
| Ports.WatchedPorts | net/ports.h:4-20 | The sixteen watched ports |
| Ports.CountBits16 | statproc/statproc_handlers.c:180-188 | The number of bits is the number of distinct watched ports they stand for |
| Ports.ScoreReadsBack | statproc/statproc_handlers.c:211-212 | The count fits in the 16-bit field that held the mask and reads back unchanged |
| StatClock.ElapsedIffSecondAdvanced | common/tval.c:4-14 | For ordered normalised times up to 4290672 s apart, at least 1000 ms count as elapsed exactly when the seconds field advanced |
| StatClock.LongGapIsLost | common/tval.c:4-14 | One second more and a gap can be missed: the bound is the best possible |
| StatClock.DiffIsGrowthLessWrap | statproc/statproc_utils.c:3-12 | For a growth below 2^32 the difference is exact, and one short exactly when the counter wrapped |
| StatClock.StepKeepsClocked | statproc/statproc_sim.c:9-23 | One packet: the clock fires exactly when the second advanced, the assert on `sec_i` holds, and the clock stands inside the current minute again |
| StatClock.RunClocked | statproc/statproc_sim.c:9-28 | After every packet of every steady run the clock stands at the packet's second and `sec_i` is at most the seconds since the minute began |
| StatClock.TicksAreSeconds | statproc/statproc_handlers.c:494-505 | On every steady run the clock fires exactly at the packets that start a new second, and `sec_i <= 60` never fails |
| StatClock.StepFollowsDial | statproc/statproc_handlers.c:494-505 | One packet moves the clock as its dial, which is computed from the seconds of the packets alone |
| StatClock.RunFollowsDial | statproc/statproc_handlers.c:157-162 | On every steady run a minute begins at a multiple of 60 seconds, a report is made exactly at the first packet of a new minute once the clock has started, and `sec_i` is the second in the minute right after the start or a report and one more at each other new second |
| StatClock.AfterPacketIsIdle | statproc/statproc_sim.c:25-28 | The second call with the same packet time never fires |
| StatClock.ReportsAreGrowthLessWraps | statproc/statproc_handlers.c:477-499 | Every minute report prints the true growth of packets and bytes since the previous one, less the number of ticks at which that counter wrapped |
| StatClock.StatProcess.SimBeforePacket | statproc/statproc_sim.c:9-23 | In place, for all six flow types at once: refines one step of the clock, and stops exactly when the assert on `sec_i` fails |
| StatClock.StatProcess.Tick | statproc/statproc_handlers.c:468-506 | In place, for all six flow types at once: refines one second, with the rows of seconds and the minute boundary |
| StatClock.StatProcess.TakeDiffs | statproc/statproc_handlers.c:483-493 | The loop writes each type's growth to this second's place of its row and adds that of the total to the minute |
| StatClock.PrintedRowsAddUp | statproc/statproc_handlers.c:93-97 | On every steady run the places of a printed row written since the previous report add up to the growth due at that report, for each flow type |
| Deltas.DeltasSumToCounter | statproc/statproc_handlers.c:373-392 | Over any sequence of reports the deltas shown for one tenant of a slot add up to its latest cumulative counter |
| Deltas.ProtoDeltasSum | statproc/statproc_handlers.c:310-332 | The same for each protocol from zero, although unchanged entries are skipped |
| MinuteReport.StreamDeltasSum | statproc/statproc_handlers.c:373-392 | For packets and for bytes of stream records: the shown values of a tenant add up to its latest counter |
| MinuteReport.AddrDeltasSum | statproc/statproc_handlers.c:227-252 | For each of the four counters of address records: the shown values of a tenant add up to its latest counter |
| Minutes.StreamReportsAddUp | statproc/statproc_handlers.c:362-392 | Over any sequence of minute reports, minutes in which the slot is not taken skipped, what they show for one tenant of a stream slot adds up to its latest counter |
| Minutes.AddrReportsAddUp | statproc/statproc_handlers.c:225-252 | The same for each of the four counters of an address slot |
| Minutes.StreamsFollowHistory | statproc/statproc_handlers.c:373-392 | After any sequence of reports the snapshot of a slot is that of its history of taken minutes |
| MinuteReport.SlotsMeaning | statproc/statproc_handlers.c:366-406 | A pointer list built by the loop holds each flagged slot of the window exactly once, in order, and no other |
| MinuteReport.StreamsPassSlots | statproc/statproc_handlers.c:366-392 | After the stream loop each taken slot of the window shows its delta and its snapshot holds the counters; all other slots are untouched |
| MinuteReport.StreamsPassPtrs | statproc/statproc_handlers.c:402-405 | The candidates are exactly the taken slots of the window |
| MinuteReport.StreamsPassMarks | statproc/statproc_handlers.c:394-400 | A bit of an internal address is set exactly when it was set before or a live stream of the window has the address on that side with that watched port; nothing else in the record changes |
| MinuteReport.AddrsPassSlots | statproc/statproc_handlers.c:203-252 | After the address loop each live slot shows its deltas, in the LAN pass with the marks replaced by their number; all other slots are untouched |
| MinuteReport.AddrsPassLists | statproc/statproc_handlers.c:214-258 | The three pointer lists hold exactly the live addresses and those scoring above the threshold on either side |
| MinuteReport.ScoreCountsPorts | statproc/statproc_handlers.c:196-223 | After both passes an address holds, on the left in `resvd` and on the right in `resvd2`, the number of distinct ports it was marked with or, if internal, its live streams use on that side; it is suspicious exactly above ten |
| Reporter.Process.StreamSlotAt | statproc/statproc_handlers.c:368-405 | In place: one round of the stream loop |
| Reporter.Process.GatherStreams | statproc/statproc_handlers.c:365-406 | In place: the whole stream loop, with the pointer list equal to the taken slots |
| Reporter.Process.ProcessStreams | statproc/statproc_handlers.c:362-427 | Deltas, marks and the two rankings of exactly the taken slots by packets and by bytes |
| Reporter.Process.AddrSlotAt | statproc/statproc_handlers.c:204-258 | In place: one round of the address loop; outside the LAN pass nothing is suspicious |
| Reporter.Process.GatherAddrs | statproc/statproc_handlers.c:198-258 | In place: the whole address loop with its three pointer lists |
| Reporter.Process.ProcessAddrs | statproc/statproc_handlers.c:196-290 | The three rankings of one address pool |
| Reporter.Process.EmitStreams | statproc/statproc_handlers.c:416-424 | The rows of one stream ranking are the calls for its first 20 slots, and the seen tables cannot fill up |
| Reporter.Process.EmitAddrs | statproc/statproc_handlers.c:265-270 | The rows of one address ranking are the calls for its first 10 slots |
| Reporter.Process.ReportAddrs | statproc/statproc_handlers.c:196-300 | One pool: the pass, the three rankings and their rows in order; at most 10 rows for the WAN, 30 for the LAN |
| Reporter.Process.CheckMinute | statproc/statproc_handlers.c:102-167 | The tables after the report are the three passes over the copied windows, the rankings are those of exactly the candidates, the rows are the top of these rankings in order, at most 80, the report is referentially consistent, and for pools that do not overlap the emitted rows carry labels, places, flow flags and deltas in the order of `Reporter.MinuteRowsInOrder` |
| Reporter.SuspectsContactManyPorts | statproc/statproc_handlers.c:206-223 | In the minute report a LAN slot is listed as scanner (target) if and only if it is live and has seen more than ten distinct watched ports on the left (right) |
| Reporter.StreamRowShowsDelta | statproc/statproc_handlers.c:416-436 | Row k of either stream list carries place k, the sort kind, the deltas of a taken stream and the iids of its addresses |
| Reporter.TopRowsAreTop | statproc/statproc_handlers.c:412-436 | The stream rows are the top twenty of the live streams by growth in packets, and in bytes: each once, descending, and a live stream is left out only if there are 20 rows, none of which grew less |
| Reporter.TopSendersAreTop | statproc/statproc_handlers.c:263-270 | The sender rows of either pool are the top ten of its live addresses by packets sent since the snapshot, in the same sense |
| Reporter.TopSuspectsAreTop | statproc/statproc_handlers.c:272-297 | The LAN scanner (target) rows are the top ten of the live addresses that met more than ten watched ports on the left (right), by the number of such ports; the WAN has none |
| Reporter.MinuteRowsInOrder | statproc/statproc_handlers.c:144-177 | The emitted rows of a minute report, all of them and in order: streams by packets and by bytes, then senders, scanners and targets of the LAN with flow flags 4, then senders of the WAN with flow flags 0, each row with its place, deltas and iid |
| TopLists.RankedIsTop | statproc/statproc_handlers.c:263-297 | The first n of a ranking of flagged slots are the top n of them by any number the sort keys agree with |
| Reporter.AddrRowShowsDelta | statproc/statproc_handlers.c:265-297 | Whatever list a taken address is on, its row carries the place, the sort kind, the pool and the address's deltas |
| Published.EveryRunIsNeat | common/shmdata.c:234-264 | On every run that fits, no address slot is marked and LAN slots are internal, WAN slots are not |
| Published.EveryRunIsReady | statproc/statproc_handlers.c:133-142 | On every run that fits, what `check_minute` needs holds of the published tables: windows inside the tables, taken streams referring to existing slots, room in the suspect lists |
| Published.SuspectsAreScanners | statproc/statproc_handlers.c:196-223 | From packets to report: after every run that fits a LAN slot is listed as scanner (target) if and only if its pool holds it and its live streams use more than ten distinct watched ports with it on the left (right) |
| Reporter.MinuteShowsStreamDeltas | statproc/statproc_handlers.c:366-406 | In the minute report a slot is ranked by packets and by bytes if and only if it is taken, and then shows its deltas |
| Reporter.MinuteShowsAddrDeltas | statproc/statproc_handlers.c:225-258 | Every live address of either pool ends the minute showing its deltas, with the snapshot holding its counters |
| Protocols.ProtocolTable.Gather | statproc/statproc_handlers.c:309-332 | In place: exactly the protocols whose packet counter moved are collected and show their deltas |
| Protocols.ProtocolTable.ProcessProtocols | statproc/statproc_handlers.c:305-339 | The moved protocols are ranked by packets since the last report |
| Protocols.RankedIffMoved | statproc/statproc_handlers.c:312-332 | A protocol is ranked if and only if it moved, and what is shown is what the telescoping sum adds up |
| Protocols.TopProtocols | statproc/statproc_handlers.c:337-342 | The protocol rows are the top twenty of the protocols that moved, by packets since the last report |
| ReportBuilder.PeriodConsistent | export/export.c:57-128 | After any sequence of calls the rows are consistent, and the seen tables hold at most one stream and two addresses a call |
| ReportBuilder.EveryReferenceHasOneRow | export/export.c:83-163 | Each iid that a top row or a stream row refers to is described by exactly one row of the period |
| ReportBuilder.StatRowsAreCalls | export/export.c:116-163 | The top rows are the calls with their numbers, in order, none lost or added |
| ReportBuilder.StreamRowsAreFirstCalls | export/export.c:99-128 | Every stream row is the stream with the left and right iid of the first call for it |
| ReportBuilder.AddrRowsAreMentioned | export/export.c:83-163 | No address row is there without a call that mentions the address |
| ReportBuilder.Builder.PeriodOpen | export/export.c:20-34 | A period starts with empty seen lists and new buffers |
| ReportBuilder.Builder.SeenAddr | export/export.c:57-64 | True exactly when the iid was seen in this period; otherwise it is appended |
| ReportBuilder.Builder.SeenStream | export/export.c:71-78 | The same for streams |
| ReportBuilder.Builder.DescribeAddr | export/export.c:83-102 | One address row unless the address was seen |
| ReportBuilder.Builder.TopStreamRow | export/export.c:99-128 | In place: refines the response to a top-stream call |
| ReportBuilder.Builder.TopAddressRow | export/export.c:148-163 | In place: refines the response to a top-address call |
| StringBuf.AppendKeepsBounds | utils/stringbuf.c:47-59 | An append stays inside the buffer, with all size bounds, if and only if one doubling is enough for it |
| StringBuf.LinesAlwaysFit | utils/stringbuf.c:27-59 | For any sequence of lines shorter than the initial capacity one doubling always suffices, the capacity stays within twice the length, and all resizes together copy less than the final capacity |
| StringBuf.Buffer.constructor | utils/stringbuf.c:12-25 | An empty buffer of the given capacity, not yet terminated |
| StringBuf.Buffer.Append | utils/stringbuf.c:47-59 | The contents become the zero-terminated concatenation; without memory the call returns 1 and nothing changes; it writes past the block exactly when one doubling is not enough |
| StringBuf.Buffer.Write | utils/stringbuf.c:55-56 | Characters and terminator after the old contents |
| StringBuf.Buffer.Resize | utils/stringbuf.c:33-45 | The contents move to a larger block |
| Lifecycle.CleanOneReleases | capture/cleanup.c:90-123 | Releasing one live stream frees exactly it, keeps every reference count equal to the live endpoints, and calls `shm_addr_free` for exactly the addresses whose count reached zero |
| Lifecycle.CleanAllReleases | capture/cleanup.c:90-123 | The same for a whole list of distinct live streams |
| Lifecycle.PassReleasesMainList | capture/cleanup.c:81-141 | A whole cleanup pass frees exactly the streams on the main list, moves the whole wait list to the main list, keeps the count equation and unique queue entries, and frees exactly the emptied addresses |
| Lifecycle.EnqueueKeepsOnceIff | capture/cleanup.c:48-75 | Queueing a live stream keeps the entries unique if and only if it is not queued yet or the list is full |
| StreamHistory.TrackStream | capture/cleanup.c:48-75 | Counting a packet: packets, bytes and last time of its stream, the cleanup bit, and which list a first FIN or RST is queued on in each second of the minute, with the room of both lists |
| StreamHistory.ExpiredAreExactly | common/shmdata.c:329-341 | The search finds each live stream that was silent for more than 30 seconds, once, in slot order |
| StreamHistory.SweepWhen | capture/cleanup.c:81-84 | A pass does something if and only if the second differs from that of the last counted packet, is at least 15 into its minute, and the main list is not empty |
| Lifecycle.ExpiryKeepsOnceIff | common/shmdata.c:329-341 | The expiry search keeps the entries unique if and only if no expired stream that finds room is queued already |
| Lifecycle.DoubleReleaseBreaksCounts | capture/cleanup.c:108-115 | A stream released twice leaves a wrong count: why unique entries matter |
| Lifecycle.PoolsAreDisjoint | common/shmdata.c:131-132 | Although both windows are shifted by one, LAN slots lie in 1..256 and WAN slots in 257..16384 |
| Lifecycle.AddrFreeReleasesIff | common/shmdata.c:219-228 | `shm_addr_free` takes the slot out of the pools if and only if it is not slot 256, which it sends to the wrong pool; no other slot is affected |
| Lifecycle.AddrFreeLeavesEntry | common/shmdata.c:219-228 | The lookup entry stays behind: a released address is still found in the same slot, and that slot is still taken if and only if it was and is slot 256 |
| Capture.EveryRunBalances | common/shmdata.c:68-77 | After every packet of every run, modulo 2^32, the total flow counter equals the sum of the five types plus the refused packets, for packets and bytes, and every masked flow index is in 0..4 |
| Capture.TrackBalances | common/shmdata.c:494-501 | The counted type makes up for the counted total, whatever the cleanup bit |
| StreamHistory.RecordCountsStream | capture/main.c:42-61 | A counted packet adds one packet and its length, modulo 2^32, to the record of its key's stream, from zero if it created it, sets the last time, and leaves every other stream record alone |
| StreamHistory.EveryStreamIsTallied | capture/main.c:92-212 | On every run that fits, the record of a live stream holds, modulo 2^32, the number and the total length of the packets of its key since it was created, and the times of the first and the last of them |
| InstanceIds.RecordIds | common/shmdata.c:184-199 | A new stream takes the next instance id, which no stream had before; a known one keeps its own |
| InstanceIds.EveryRunHasIds | common/shmdata.c:195-258 | On every run, whatever its packets, live streams have different instance ids, and so have live addresses |
| Tenancy.CleanOneLinked | capture/cleanup.c:90-123 | A release keeps lookup map, references, counts and address entries in agreement |
| Tenancy.CleanAllKeepsPools | capture/cleanup.c:90-123 | A loop of anchored releases leaves all three pools with their invariant |
| Tenancy.PassKeepsLinked | capture/cleanup.c:81-141 | A whole pass keeps that agreement and the queue invariant |
| Tenancy.TrackKnownStream | capture/main.c:174-201 | A packet of a known stream keeps the whole invariant if and only if the stream's packet counter has not wrapped to zero and the packet does not queue the stream a second time |
| Tenancy.CreateOk | capture/main.c:122-168 | Creating a stream takes a free slot, leads to two taken address slots that hold its addresses, and disturbs no live stream |
| Tenancy.TrackNewStream | capture/main.c:42-61 | The first packet of a new stream counts both endpoints and restores the whole invariant |
| Tenancy.NewStreamKeepsInvIff | capture/main.c:141-168 | The first packet of a new stream keeps the invariant if and only if neither address was released before, or only from slot 256 |
| Tenancy.EveryRunFindsIffUsable | common/shmdata.c:157-172 | On every run that fits, an address entry leads to a taken slot holding the address if and only if `shm_addr_free` was never called for the address, or for slot 256 |
| Tenancy.RoomForTwo | capture/main.c:52-58 | The stream table is too small for a reference count to overflow: a created stream always finds room for two more endpoints in 16 bits |
| Tenancy.TrackQueue | capture/main.c:176-185 | Counting a packet keeps the queue entries unique if and only if its FIN or RST does not queue a queued stream again, or the list is full |
| Tenancy.RecordKeepsInvIff | capture/main.c:92-201 | A counted packet keeps the invariant if and only if it is admissible: both addresses of a new stream usable, or the counter of a known one not zero and its FIN or RST not a second entry |
| Sweeps.SweepKeepsInvIff | capture/cleanup.c:81-141 | A cleanup pass with anchored releases keeps the invariant if and only if no expired stream that it puts on a list is queued already |
| Sweeps.CleanAllSubtracts | capture/cleanup.c:108-115 | Releasing any list, repetitions included, subtracts the endpoints of all its entries from the counts, modulo 2^16 |
| Sweeps.RepetitionBreaksCounts | capture/cleanup.c:90-123 | Releasing a list with a repeated entry always leaves a wrong count behind |
| Queues.QuietRunFits | capture/main.c:180-184 | On every run fed by FIN and RST alone, passes putting no expired stream on the wait list, queued streams carry their cleanup flag, so no packet queues one twice |
| Divergences.TwoFinsQueueADeadStream | common/shmdata.c:329-341 | Any two FIN packets of different conversations, the second more than 30 seconds later, in seconds 15..54 and 55..59: the capture ends with no live stream and a dead one on the main list |
| Divergences.ReturningAddressHasNoSlot | common/shmdata.c:219-228 | Any FIN in seconds 55..59 followed by any packet of its conversation that is no FIN or RST: the capture ends with a live stream whose left address slot is not taken |
| Tenancy.StepKeepsInv | capture/main.c:92-212 | Each packet keeps the invariant: live streams, lookup map, counts, queues and pools agree |
| Tenancy.FaultIffNoRoom | capture/main.c:121-209 | Under the invariant a packet stops the program if and only if both addresses are non-zero, its key is unknown, and 32767 streams are live, or its left address is unknown with 256 LAN or 16127 WAN slots taken, or its right one likewise after the left was placed; no packet is ever refused |
| Tenancy.EveryRunKeepsInv | capture/main.c:92-212 | On every run that fits: every queued stream is live, flagged and queued once, counts equal live endpoints, and the lookup map holds exactly the keys of the live streams |
| Tenancy.CountsSurviveIff | capture/main.c:52-58 | The reference counts survive a packet of a live stream if and only if its packet counter is not zero: why the wrap is excluded |
| Liveness.EveryRunKeepsFlags | common/shmdata.c:346-404 | On those runs the slots the pools hold are exactly those whose record shows a start time, for streams and addresses |
| Liveness.CreateTimedIff | common/shmdata.c:346-404 | Creating a stream keeps pools and records in step if and only if the packet is later than second zero |
| Liveness.CleanAllTimed | common/shmdata.c:319-324 | Releasing any list of slots, live or not, keeps records and pools in step |
| Liveness.NewAddressStartsClean | common/shmdata.c:256-266 | A reused address slot starts from zero counters if and only if its previous tenant had received no bytes |
| Directions.TrackCounts | capture/main.c:66-84 | Counting a packet moves the sender's sent and the receiver's received counters and no other address counter |
| Directions.EndsOfPacket | capture/main.c:104-109 | For a stream that kept its key's left and right, the flipped flag of a packet points to the slots holding its source and destination address |
| Directions.EveryRunIsOriented | capture/main.c:158-165 | On every run that fits, each live stream refers to its key's left endpoint on the left and to the right one on the right |
| Directions.EveryPacketCountsAtItsEnds | capture/main.c:92-201 | On every run that fits, each counted packet is counted as sent by the slot holding its source address, as received by the slot holding its destination address, and nowhere else, whichever direction opened the stream |
| FlowTypes.EveryRunIsTyped | capture/main.c:356-371 | On every run that fits, the internal flag of a taken address agrees with its address, and the masked flags of each live stream are 4 within the LAN, otherwise 2 for inbound plus 1 if the remote port is 80, 443 or 8080 |
| FlowTypes.EveryPacketCountsUnderItsType | common/shmdata.c:494-501 | On every run that fits, each counted packet adds one packet and its length to the total and to the one flow type its own key calls for, and to no other |
| FlowTypes.EveryPacketMovesItsCounters | common/shmdata.c:494-501 | On every run that fits, each counted packet moves the total and the counter that its key's addresses and right port call for, by one packet and its length modulo 2^32, and no other counter |
| AddressTable.RunKeepsTable | common/shmdata.c:234-274 | On every run of lookups with allocation on a miss, table, pools and lookup map agree |
| AddressTable.FoundIffServed | common/shmdata.c:157-172 | A lookup finds an address if and only if it was asked for while its pool had room |
| AddressTable.LookupLeadsToItsSlot | capture/main.c:141-157 | A found address leads to a taken slot that holds it, in the pool its internal flag tells; distinct addresses lead to distinct slots |
| Tracker.CaptureProcess.constructor | common/shmdata.c:120-135 | Zeroed tables, empty pools, lists and maps |
| Tracker.CaptureProcess.AddStreamToCleanupList | capture/cleanup.c:59-75 | In place: the entry goes to the list its second selects, or is dropped when that list is full |
| Tracker.CaptureProcess.FindExpiredStreams | common/shmdata.c:329-341 | In place: exactly the live streams of the window that were silent for more than 30 seconds are queued, in slot order |
| Tracker.CaptureProcess.AddrRelease | common/shmdata.c:219-228 | In place: refines the release of an address slot |
| Tracker.CaptureProcess.ReleaseStream | capture/cleanup.c:97-122 | In place: refines the release of one stream |
| Tracker.CaptureProcess.ReleaseAll | capture/cleanup.c:90-123 | In place: the release loop over the main list |
| Tracker.CaptureProcess.MoveWaitToMain | capture/cleanup.c:125-140 | In place: the wait list becomes the main list, nothing is lost |
| Tracker.CaptureProcess.CleanupExpiredStreams | capture/cleanup.c:81-141 | In place: refines a whole pass; it stops exactly when the search would leave the table |
| Tracker.CaptureProcess.AddrLookupOrAlloc | capture/main.c:141-157 | In place: refines lookup and allocation on a miss |
| Tracker.CaptureProcess.NewStreamSlot | capture/main.c:122-168 | In place: refines the creation of a stream; without a free slot nothing changes |
| Tracker.CaptureProcess.NoteStream | capture/main.c:174-185 | In place: last time, and on the first FIN or RST the cleanup flag and queue entry |
| Tracker.CaptureProcess.CountOnStream | capture/main.c:42-84 | In place: stream and address counters in the direction of the packet, and the active count on the first packet |
| Tracker.CaptureProcess.TrackPacket | capture/main.c:174-201 | In place: the common path of a counted packet |
| Tracker.CaptureProcess.FindStream | common/shmdata.c:208-212 | The linked table answers with the entry of the map |
| Tracker.CaptureProcess.KeepStream | common/shmdata.c:191-191 | A put on the linked table is the update of the map |
| Tracker.CaptureProcess.ForgetStream | common/shmdata.c:177-180 | A removal from the linked table is the deletion from the map |
| Tracker.CaptureProcess.SlotFor | capture/main.c:121-172 | In place: the stream of the packet, looked up in the linked table or created |
| Tracker.CaptureProcess.FinishPacket | capture/main.c:174-209 | In place: counting and the cleanup pass |
| Tracker.CaptureProcess.Replay | capture/main.c:92-212 | A whole capture: the process stops exactly when the state machine does, otherwise ends in its state, and with the invariant if the run fits |
| Tracker.CaptureProcess.HandlePacket | capture/main.c:92-212 | In place: refines one packet, and stops exactly where the state machine does |

## Left out

- Packet parsing, libpcap, shared memory, signals, command line and the live (two-process) mode: a packet event carries the parsed fields, and races on the shared tables are not modelled.
- IPv6, VLAN classification, TCP flag history, broadcast counters, the total `nstreams` count, MAC addresses, `lan_info_t` and `housekeeping_t`: they influence nothing that is proved here.
- `ipaddr_is_lan` is a parameter: any predicate on addresses.
- The text of the rows and the header row before each list: rows are values with their numbers. The buffer model is about the lines appended, whatever they say.
- Tracker.CaptureProcess.HandlePacket: the pools inside the capture process are values with the functions that `SlotPool.ManagedArray` is proved to compute in place, not instances of that class. After a release that is not anchored a window can reach slots of the other pool, which the values do not see; on anchored runs `Liveness.EveryRunKeepsFlags` ties them to the records.
- Tracker.CaptureProcess.ForgetStream: the deletion is by value, as for `Tracker.CaptureProcess.ReleaseStream`; `AliasedRuns` is about the table as written.
- Tracker.CaptureProcess.ReleaseStream: keys are stored by value; the removal of the program as written is that of `AliasedKeys.RemovalWorksIff`.
- HashTables.HashTable.Put: element-to-bucket ratios are compared exactly and not in floating point, and the thresholds are the defaults; setters, iteration, deallocators and `HashTableDestroy` are not modelled.
- HashTables.HashTable.RemoveAll: nodes are unlinked; freeing their memory is not modelled.
- InstanceIds.EveryRunHasIds: ids are unbounded; the program's 32-bit counters start over after 2^32 streams or addresses.
- BucketCount.CalculateIdealNumOfBuckets: the candidate is an unbounded integer; with a 32-bit element count the code's search starts below 1.5 thousand million.
- StringBuf.Buffer.Append: 32-bit overflow of the capacity is not modelled, and what a write past the block destroys is not said.
- `inc_protocol_counters`, the labels and rows of the protocol list, `sim_finish` with its last partial minute, and the profiling counters: straight-line code.
- Reporter.Process.CheckMinute: the protocol list between streams and addresses is in `Protocols`; what it asks of the tables is provided by `Published.EveryRunIsReady`.
- Ports.CountBits16: a 16-bit word is given by its bits.
- An export period without rows prints a buffer that was never terminated; `StringBuf.Buffer` says so by promising termination only after an append.
