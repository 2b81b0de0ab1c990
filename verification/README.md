# Verified models for the DNS load tools and the worker simulator

This project models the parts of the repository in which state and arithmetic are easiest to get wrong, and proves what
each of them keeps over every run. `dafny verify dfyconfig.toml` checks all of it.

| file | what it models |
|---|---|
| `IscList.dfy` | the intrusive doubly linked lists of `dnsperf/isc/list.h`, as updates of link fields that refine operations on sequences |
| `QueryPool.dfy`, `PoolPasses.dfy` | the two lists of query ids that both load generators keep, and the passes over them: reserve, claim, time out, cancel |
| `Dnsperf.dfy` | the sender/receiver protocol of one dnsperf client, as a state machine over the atomic steps of the two threads |
| `DnsperfSupply.dfy` | what it takes to exhaust that client's ids |
| `DnsperfRaces.dfy` | runs of that protocol in which the two threads get in each other's way |
| `QueryTable.dfy` | the same pool as the C code has it, two lists threaded through one table, with the loops of dnsperf over it |
| `Resperf.dfy`, `ResperfEngine.dfy` | resperf's main loop, its phases, schedule and buckets, first on values and then as an object that refines them |
| `Statistics.dfy`, `Sums.dfy` | the per-client statistics, their sum over the clients, the shares of the limits, and the rate limit |
| `Bytes.dfy`, `DataFile.dfy` | bytes and big-endian integers, and the buffered line reader of `dnsperf/datafile.c` in query mode |
| `GarbledLines.dfy` | the inputs whose last line that reader can garble |
| `Wire.dfy`, `UpdateLines.dfy`, `UpdateMessage.dfy`, `UpdatePacket.dfy` | dynamic update messages: records on the wire, command lines, the message with a decoder for it, and the builder on its buffer |
| `TwoLockQueue.dfy` | the two-lock queue of `dnsperf/isc/queue.h`, as a step machine for any number of threads and as code for one |
| `RadixWalk.dfy` | the tree walk with an explicit stack of `dnsperf/isc/radix.h` |
| `CnameChase.dfy` | the bounded CNAME chase of BIND's `host` |
| `Simulator.dfy` | the worker simulator: jobs, ticks, the running totals and the dump clamp |

Clocks are nondecreasing integers, latencies are integers in microseconds where the source has them so, doubles are
reals, and counters are unbounded, except that `num_outstanding` is computed modulo 2^32 as in the source.
What `read`, `send`, `recv`, the clock and the library conversions return are parameters of the operations.

Five properties that one would like to hold are false of the code as it stands. For each the project gives inputs or
runs on which it fails, and proves exactly when it holds.

* **dnsperf's counters.** A send that fails is counted, its id is given back under the lock, and only then is it
  uncounted; and a reserved id carries its last send time until that is cleared, while the timeout scan looks without the
  lock. If the receiver settles such an id, one more query is settled than sent. `DnsperfRaces.LostSendSkews` and
  `DnsperfRaces.LostReserveSkews` give such runs for every configuration. `Dnsperf.BalancedIff` says that the counters
  balance all through a run exactly when none of the races of `StepSkew` occurs in it, and `Dnsperf.Conservation` gives
  the exact difference in every run.
* **The sender's supply of ids.** The sender takes the head of the unused list once its counters are below the limit, and
  does not look whether there is one. What exhausts the list are responses that name an id whose send has just failed, and
  are claimed before the sender takes it back. `DnsperfSupply.SupplyOfIds` says for every run that the list exceeds its
  limit by at most the number of such claims, and that the sender runs out only after more of them than the ids exceed the
  limit; `DnsperfRaces.StarvingRun` gives, for every configuration, a run with exactly one more. If a failed send draws
  no response, `DnsperfSupply.NoStrays` says that the limit holds and the supply never ends, whatever the timeout scan
  does: the counters are then out by at most one, and only with nothing outstanding.
* **The line reader's pointer.** `read_one_line` takes a pointer into the buffer before the buffer is compacted.
  `GarbledLines.GarbleIff` gives the condition on the input under which some way of cutting it up into reads makes the
  pointer show something else than the last line; for short lines it is that the input does not end in a newline and the
  line before the last is shorter than the last (`GarbledLines.GarblesShortLines`). `DataFile.Reader.NextQuery`
  says that a call that is not misled is right, and that one that is misled is wrong if there is room for the last line.
* **The two-lock queue.** A push is lost if it links behind an element already taken off, or overtakes a pop that has read
  that nothing is behind its element. `TwoLockQueue.LostElement` gives both schedules, and `TwoLockQueue.FifoIff`
  says that the queue is first in, first out exactly in the runs without such a step.
* **Section counts of updates.** One byte is written for each. `UpdateMessage.RoundTrip` says that the message decodes to
  what was asked for exactly when there are fewer than 256 prerequisites and fewer than 256 updates.
  `UpdateMessage.TooManyUpdates` gives requests with more that are accepted with EDNS, and
  `UpdateMessage.SmallPacketsRoundTrip` says that there are none in the packets used without it.

Some details of the code that the models follow: `strcspn` makes a NUL in the data file end a line like a newline; a line of
`BUFFER_SIZE` or more bytes is delivered in pieces; above 255 only the simulator's cpu total is reset, although the code
reads as if all three were meant; an update without a `send` line is returned as built, with zero counts; an `add` line
without a type is accepted and goes out with type ANY.

## Model

| member | source | states |
|---|---|---|
| `IscList.SpellsDistinct` | dnsperf/isc/list.h:31-40 | a well-formed list holds no element twice |
| `IscList.SpellsFrame` | dnsperf/isc/list.h:31-40 | a list is untouched by changes to the links of elements that are not on it |
| `IscList.Links.Prepend` | dnsperf/isc/list.h:49-64 | the element is put before all others, and every list that does not hold it is unchanged |
| `IscList.Links.Append` | dnsperf/isc/list.h:69-84 | the element is put behind all others, and other lists are unchanged |
| `IscList.Links.Unlink` | dnsperf/isc/list.h:89-116 | the element is taken out wherever it is, its links are marked, and neither INSIST can fail |
| `IscList.Links.InsertBefore` | dnsperf/isc/list.h:121-138 | the element is put at the place of `before`, which moves one on |
| `IscList.Links.InsertAfter` | dnsperf/isc/list.h:140-157 | the element is put right behind `after` |
| `IscList.Links.AppendList` | dnsperf/isc/list.h:159-170 | the first list becomes the concatenation, and the second is empty |
| `IscList.Links.PrependList` | dnsperf/isc/list.h:172-183 | the first list becomes the second followed by the first, and the second is empty |
| `IscList.UnlinkedSpells` | dnsperf/isc/list.h:89-116 | on links: unlinking a member gives the list of the other members in order |
| `IscList.JoinedSpells` | dnsperf/isc/list.h:159-170 | on links: joining two disjoint lists gives their concatenation |
| `QueryPool.QueryMovePartition` | dnsperf/dnsperf.c:507-525 | a move keeps the two lists a partition of all ids and puts the id at the named end of the named list |
| `QueryPool.InitialPartition` | dnsperf/dnsperf.c:928-935 | at the start every id is unused, in order |
| `PoolPasses.ReserveSound` | dnsperf/dnsperf.c:597-612 | reserving keeps the outstanding list newest first, with the unsent id at its head |
| `PoolPasses.StampSound` | dnsperf/dnsperf.c:641-651 | stamping the reserved id with the current time keeps the list newest first and counts one more sent query |
| `PoolPasses.RetireTailIsFullScan` | dnsperf/dnsperf.c:688-702 | retiring from the tail until a young query is met retires what a scan of the whole list would, in the same number |
| `PoolPasses.RetireTailLeavesNoneOld` | dnsperf/dnsperf.c:688-702 | afterwards the list holds exactly the queries that were not too old |
| `PoolPasses.ClaimAllExact` | dnsperf/dnsperf.c:777-796 | a batch takes off exactly the outstanding sent ids that its full-length responses name, each once however often it is named; short responses and unknown ids take nothing |
| `PoolPasses.CancelAllSound` | dnsperf/dnsperf.c:895-916 | the cancel pass empties the list and counts every sent query on it |
| `Dnsperf.EveryStep` | dnsperf/dnsperf.c:585-831 | every step of either thread keeps the invariant and changes the balance of the counters only by the races named, with the unlocked look of the timeout scan possible between the move of an id and the clearing of its time, and at any age where its two loads can differ |
| `Dnsperf.Conservation` | dnsperf/dnsperf.c:608-831 | in every interleaving: sent plus the skew of the races is completed plus timed out plus cancelled plus outstanding plus claimed but uncounted plus about to be uncounted; the skew is never negative; the lists stay a partition, newest first |
| `Dnsperf.BalancedIff` | dnsperf/dnsperf.c:608-702 | the counters balance all through a run if and only if none of the races occurs in it |
| `DnsperfRaces.LostSendSkews` | dnsperf/dnsperf.c:647-664 | for every configuration a run in which a failed send is timed out and then uncounted: nothing sent, one timed out |
| `DnsperfRaces.LostReserveSkews` | dnsperf/dnsperf.c:608-636 | for every configuration a run without a failed send in which an id is seen between its move and the clearing of its time, and retired unsent: nothing sent, one timed out, and 2^32 - 1 computed as outstanding |
| `DnsperfRaces.StarvingRun` | dnsperf/dnsperf.c:597-612 | for every configuration that can send a run that ends with the test passed and no id left, with exactly nqids - max_outstanding + 1 stray claims |
| `Dnsperf.SkewedReceiverWaits` | dnsperf/dnsperf.c:746-751 | once all is sent and more than that is settled, no run without an interrupt ends the receiver |
| `Dnsperf.UndisturbedRun` | dnsperf/dnsperf.c:608-702 | if the receiver never lays hold of an id whose send has failed, nor looks at one that is being taken, none of the races occurs |
| `DnsperfSupply.SupplyOfIds` | dnsperf/dnsperf.c:597-612 | in every run at most max_outstanding ids plus one for each stray claim are outstanding, and the sender finds no id only after at least nqids - max_outstanding + 1 of them |
| `DnsperfSupply.NoStrays` | dnsperf/dnsperf.c:597-612 | in every run in which no failed send draws a response at most max_outstanding ids are outstanding and the sender always finds one; the counters are out by at most one, and then a sender at the top of its loop computes 2^32 - 1 with nothing outstanding |
| `Dnsperf.OutstandingBound` | dnsperf/dnsperf.c:597-612 | in every run the outstanding list exceeds its limit by no more than the counters were ever out, and the sender runs out of ids only if they were out by more than the ids exceed the limit |
| `Dnsperf.NumOutstandingIs` | dnsperf/dnsperf.c:527-531 | in every reachable state the sender at the top of its loop computes the list plus the uncounted claims less the skew, modulo 2^32 |
| `Dnsperf.FinalAccounting` | dnsperf/dnsperf.c:746-751 | after the joins of every run: if interrupted, sent plus the skew is completed plus timed out plus cancelled; if not, sent is completed plus timed out, and as many queries are abandoned as the skew says |
| `Dnsperf.TimeoutScanIs` | dnsperf/dnsperf.c:672-705 | a scan takes the entry seen before the lock and exactly the old sent queries; it is the scan of the whole list if and only if the entry seen is still outstanding and old |
| `QueryTables.QueryTable.constructor` | dnsperf/dnsperf.c:918-944 | the table starts with all ids on the unused list |
| `QueryTables.QueryTable.Move` | dnsperf/dnsperf.c:507-525 | unlinking and relinking in the table is the move on the pool, with the list field of the entry set |
| `QueryTables.QueryTable.Reserve` | dnsperf/dnsperf.c:597-612 | takes the head of the unused list to the head of the outstanding list, unstamped |
| `QueryTables.QueryTable.RetireFrom` | dnsperf/dnsperf.c:688-702 | the locked loop, which is the retirement of the protocol |
| `QueryTables.QueryTable.ClaimBatch` | dnsperf/dnsperf.c:777-796 | the locked loop over a batch, which is the claim of the protocol, with the matched responses marked |
| `QueryTables.QueryTable.CancelQueries` | dnsperf/dnsperf.c:895-916 | the cancel loop, which is the cancel pass of the protocol |
| `Resperf.Buckets` | dnsperf/resperf.c:399-536 | for every run and bucket: queries are responses plus retired plus outstanding, failures <= responses <= queries; the buckets add up to the queries sent; the outstanding counter is the length of the list |
| `Resperf.RetireIsExact` | dnsperf/resperf.c:519-536 | a round retires exactly the queries that have reached the timeout |
| `Resperf.TargetContinuous` | dnsperf/resperf.c:538-550 | the two halves of the schedule meet at the end of the ramp |
| `Resperf.TargetGrows` | dnsperf/resperf.c:538-550 | the schedule never goes down |
| `Resperf.RunOnSchedule` | dnsperf/resperf.c:588-630 | the phases only move forward, and every run stays on the schedule |
| `Resperf.Schedule` | dnsperf/resperf.c:588-630 | no run sends more than is scheduled by then, nor more than one query at or after the traffic time |
| `Resperf.ExitsSoon` | dnsperf/resperf.c:588-630 | once the clock has passed the end time the loop ends in the third round at the latest |
| `ResperfEngine.Engine.DoOneLine` | dnsperf/resperf.c:399-446 | sending one query on lists, counters and buckets is the send of the model |
| `ResperfEngine.Engine.TryProcessResponse` | dnsperf/resperf.c:470-517 | handling a reply is the reply of the model, including short responses and unknown ids |
| `ResperfEngine.Engine.RetireOldQueries` | dnsperf/resperf.c:519-536 | the loop from the tail is the retirement of the model |
| `ResperfEngine.Engine.RunRound` | dnsperf/resperf.c:588-630 | one round of the main loop is one step of the model, and it exits when the model does |
| `Statistics.ClientStats` | dnsperf/dnsperf.c:821-830 | after any completions the rcode counts add up to num_completed, sum^2 <= n * sum of squares, and n * min <= sum <= n * max |
| `Statistics.SumStats` | dnsperf/dnsperf.c:335-361 | the loop over the threads gives their total, field by field |
| `Statistics.TotalSensible` | dnsperf/dnsperf.c:335-361 | the total of any number of clients keeps the rcode law and sum^2 <= n * sum of squares |
| `Statistics.TwoSamples` | dnsperf/dnsperf.c:352-357 | two samples that each satisfy sum^2 <= n * sum of squares satisfy it together |
| `Statistics.MergedIsConcat` | dnsperf/dnsperf.c:335-357 | merging two clients gives the totals of one client that saw all their completions |
| `Statistics.VarianceNotNegative` | dnsperf/dnsperf.c:252-259 | the radicand of the standard deviation is never negative |
| `Statistics.SharesAddUp` | dnsperf/dnsperf.c:946-959 | the shares of a limit add up to it, and after the clamp of the clients none of them is zero |
| `Statistics.RateLimit` | dnsperf/dnsperf.c:585-595 | at any time of any run all clients together are less than one query each ahead of the configured rate |
| `DataFile.LinesOfJoin` | dnsperf/datafile.c:170-218 | a file of short lines delivers exactly its non-empty, non-comment lines, in order |
| `DataFile.RunsInOrder` | dnsperf/datafile.c:220-249 | call n gives line n modulo the number of lines for exactly maxruns runs, and then the end of file for ever; without a limit it never ends |
| `DataFile.NothingToRead` | dnsperf/datafile.c:234-239 | a file with nothing to deliver is reported as invalid |
| `DataFile.RereadSound` | dnsperf/datafile.c:137-168 | however many bytes a read returns, nothing is lost or repeated, and a cached file is wholly in the buffer |
| `DataFile.ReopenedSound` | dnsperf/datafile.c:124-135 | rewinding the cache and seeking to the start both leave the whole file to be read |
| `DataFile.StalePointer` | dnsperf/datafile.c:179-207 | after a compacting read that brings nothing, the old pointer shows the unfinished line if and only if the move was void or did not reach the old place |
| `GarbledLines.GarbleIff` | dnsperf/datafile.c:137-214 | some way of cutting the input up garbles its last line if and only if the input is unterminated, the piece before the last is with its separator not longer than the last, both fit into the buffer, and they are not the whole of a regular file |
| `GarbledLines.GarblesShortLines` | dnsperf/datafile.c:137-214 | for short lines the condition is that the line before the last is shorter than the last, and for a regular file that it is not the first |
| `GarbledLines.MisledShows` | dnsperf/datafile.c:179-207 | where the condition arises, what is taken for the line is not the line |
| `GarbledLines.GarbledLastLine` | dnsperf/datafile.c:179-214 | for a short first line and a longer last one without a newline, read whole from what is not a file, the pointer shows something else than the last line |
| `GarbledLines.GarbledExample` | dnsperf/datafile.c:179-214 | of a, newline, b, c, d the second line comes out as d, NUL, d |
| `DataFile.Reader.Refill` | dnsperf/datafile.c:152-161 | compacting, reading and terminating leave each byte of the buffer as specified |
| `DataFile.Reader.ReadMore` | dnsperf/datafile.c:137-168 | reads on, or is cancelled without a change; a file that is wholly in the buffer is marked cached |
| `DataFile.Reader.ReadOneLine` | dnsperf/datafile.c:170-218 | delivers the next wanted line, cut to the room there is, or the end of file, if it is not misled by the pointer; if it is, and there is room for the last line, what it delivers is wrong; and the input is unterminated, uncached and stays uncached |
| `DataFile.Reader.Reopen` | dnsperf/datafile.c:124-135 | goes back to the start, or fails if the input is neither cached nor seekable |
| `DataFile.Reader.NextQuery` | dnsperf/datafile.c:220-249 | does on the buffer what the line tour does on the rest of the file, for every way of chopping the reads, if it is not misled; if it is, and there is room for the last line, its outcome or its place is wrong; a cached file stays cached |
| `DataFile.Reader.NthQuery` | dnsperf/datafile.c:220-249 | on an input that ends in a newline, or is cached, or is cached by the first call, the call after k others gives outcome k and leads on to call k + 1 |
| `Bytes.U16RoundTrip` | dnsperf/isc/buffer.h:818-826 | a 16-bit number reads back from where it was put |
| `Bytes.U32RoundTrip` | dnsperf/isc/buffer.h:839-849 | a 32-bit number reads back from where it was put |
| `Wire.RecordReads` | dnsperf/dns.c:762-790 | a record reads back, with its length field patched after the fact, from every message that grows out of this one and every header patch |
| `Wire.RecordsRead` | dnsperf/dns.c:762-790 | records written one after the other read back in the same order |
| `Wire.PlainIsLawful` | dnsperf/dns.c:762-790 | writing names and data without compression meets the demand on the library |
| `Wire.PointingIsLawful` | dnsperf/dns.c:762-790 | so does writing a name that is already in the message as a pointer to it |
| `Wire.PointingCompresses` | dnsperf/dns.c:762-790 | and then a name within reach takes two bytes |
| `UpdateLines.AddReads` | dnsperf/dns.c:537-632 | an add line is read into its four parts, for any case of the keyword and any width of the gaps |
| `UpdateLines.OtherReads` | dnsperf/dns.c:537-632 | delete, require and prohibit lines are read with their optional type and data |
| `UpdateMessage.BuildIs` | dnsperf/dns.c:689-798 | the lines up to a send are built exactly when no prerequisite follows an update and every record fits |
| `UpdateMessage.InOrderMeans` | dnsperf/dns.c:756-760 | the running test of the order says that no prerequisite stands behind an update |
| `UpdateMessage.RequestIs` | dnsperf/dns.c:806-849 | a request succeeds exactly when it is in order, its records fit, and the OPT record fits if asked for |
| `UpdateMessage.RoundTrip` | dnsperf/dns.c:637-849 | decoding a request gives back id, opcode, zone, prerequisites, updates and OPT if and only if there are fewer than 256 of each kind |
| `UpdateMessage.TooManyUpdates` | dnsperf/dns.c:791-798 | requests with EDNS and 256 updates or more that are accepted and decode to something else |
| `UpdateMessage.SmallPacketsRoundTrip` | dnsperf/dnsperf.c:567-568 | in a packet with room for fewer than 256 records, such as the 512 bytes without EDNS, every accepted request decodes to what was asked for |
| `UpdateMessage.OptReads` | dnsperf/dns.c:303-328 | the OPT record reads back with its size and DO bit, and the additional count goes up by one |
| `UpdateMessage.CommandComesBack` | dnsperf/dns.c:704-751 | class, type, TTL and data of a record determine the command it came from |
| `UpdateMessage.SaysWhatIsAsked` | dnsperf/dns.c:704-751 | a command goes out in its form of sections 2.4 and 2.5 of RFC 2136 if and only if data and additions come with a real type |
| `UpdatePacket.ReadUpdateLine` | dnsperf/dns.c:537-632 | the steps along the line read the fields as specified |
| `UpdatePacket.Buffer.AddRecord` | dnsperf/dns.c:762-790 | appending to the array with a zero length and writing the length over it in place gives the record, or it fails when it does not fit |
| `UpdatePacket.Buffer.AddLines` | dnsperf/dns.c:689-798 | the loop over the lines, with its two counters written into the header in place, builds the message, with the same error |
| `UpdatePacket.Buffer.AddOpt` | dnsperf/dns.c:303-328 | appends the OPT record and increments the count in place, or leaves the message alone when there is no room |
| `UpdatePacket.Buffer.AddZone` | dnsperf/dns.c:679-687 | the zone section always fits, and is appended without a test for room |
| `UpdatePacket.Buffer.Build` | dnsperf/dns.c:806-849 | on a cleared buffer, the used bytes of the array are the whole request, and no write is out of its bounds |
| `TwoLockQueue.EveryStep` | dnsperf/isc/queue.h:69-98 | every single access of a lock holder keeps the chain the elements pushed and not popped, in order, and the tail at its end or, in a push, one before it, unless it is a losing push or a losing store; then the queue is broken |
| `TwoLockQueue.FifoIff` | dnsperf/isc/queue.h:69-98 | over every interleaving the queue is first in, first out if and only if no push links behind a removed element and no pop stores a link that has changed since it was read |
| `TwoLockQueue.OvertakenLoses` | dnsperf/isc/queue.h:88 | a push behind the element of a pop that has read the end there dooms the pop: every other step leaves it so, and its store is the losing one |
| `TwoLockQueue.PopReadsOldest` | dnsperf/isc/queue.h:80-86 | a pop answers with the oldest element, and with nothing exactly when there is none |
| `TwoLockQueue.TailIsLast` | dnsperf/isc/queue.h:60 | between operations the tail is the last node, and head equals tail exactly when the queue is empty |
| `TwoLockQueue.LostElement` | dnsperf/isc/queue.h:69-98 | whenever one element is queued and another is ready, two schedules that lose the second: the push after the store of the pop, and between its load and its store |
| `TwoLockQueue.Queue.Push` | dnsperf/isc/queue.h:69-78 | under one thread, appends the element |
| `TwoLockQueue.Queue.Pop` | dnsperf/isc/queue.h:80-98 | under one thread, takes off and returns the first element, or nothing if there is none |
| `RadixWalk.Walk` | dnsperf/isc/radix.h:193-238 | visits the nodes in preorder, all of them or those with a prefix, with at most RADIX_MAXBITS entries on its stack |
| `RadixWalk.PreorderVisits` | dnsperf/isc/radix.h:193-238 | preorder lists every node as often as the tree holds it |
| `CnameChase.Chase` | bind-9.9.0/bin/dig/host.c:392-416 | follows at most count records, stops early only at the end of the chain, and reaches the end if the chain has one and there are no more owners than records |
| `CnameChase.ChaseIff` | bind-9.9.0/bin/dig/host.c:392-416 | the name found is the end of the chain if and only if the chain ends within count hops |
| `CnameChase.EndsInTime` | bind-9.9.0/bin/dig/host.c:392-416 | a chain ends at all if and only if it ends within as many hops as there are owners |
| `CnameChase.AcyclicEnds` | bind-9.9.0/bin/dig/host.c:392-416 | in an acyclic answer every chain ends within that many hops |
| `Simulator.TickFromJobs` | worker/simulator.rb:44-64 | deleting from the array during the iteration removes the finished jobs and passes over the one behind each |
| `Simulator.FollowMeans` | worker/simulator.rb:44-64 | one tick of one job: it goes only at its last period, loses one period, or is passed over and moves forward |
| `Simulator.Lifetime` | worker/simulator.rb:41-66 | a job of period p with n jobs ahead of it is removed after at least p and at most p + n ticks, whatever arrives, and never lives with a period below 1 |
| `Simulator.NoPeriodNoEnd` | worker/simulator.rb:46-47 | a job that arrives with no period is never removed |
| `Simulator.LifeIsRun` | worker/simulator.rb:41-105 | the array a life ends in is the one the run leaves |
| `Simulator.Apply` | worker/simulator.rb:41-105 | after every event the count is the length of the array, and the jobs are as told without indices |
| `Simulator.AdmitExact` | worker/simulator.rb:91-103 | admitting a job keeps the totals the sums if and only if no total passes 255 or the cpu total is zero anyway |
| `Simulator.DumpExact` | worker/simulator.rb:128-132 | the clamp keeps them if and only if all totals are positive or all are zero |
| `Simulator.ExactIffHarmless` | worker/simulator.rb:41-132 | the totals are the sums over the live jobs all through a run if and only if neither the limit nor the clamp bites in it |
| `Simulator.TotalsExact` | worker/simulator.rb:41-132 | if every job uses some of everything, or nothing, and no arrival trips the limit, the totals are the sums and no dump changes them |
| `Simulator.Worker.constructor` | worker/simulator.rb:21-29 | a known worker starts with one idle job and exact totals |
| `Simulator.Worker.WithJob` | worker/simulator.rb:82-87 | an unknown worker starts with its first job and exact totals |
| `Simulator.Worker.DoTick` | worker/simulator.rb:43-65 | the loop with its deletions is the tick of the model, within the bounds of the array |
| `Simulator.Worker.AddJob` | worker/simulator.rb:91-105 | storing at the index that the count gives appends the job; exact totals stay exact if and only if the limit does not bite |
| `Simulator.Worker.DumpTotals` | worker/simulator.rb:127-146 | the load that is written is the weighted sum of the clamped totals and not negative; exact totals stay exact if and only if the clamp does not bite |

## Left out

- Grouping of lines in update mode (dnsperf/datafile.c:251-263): the reader is modelled in query mode only.
- Plain queries (dnsperf/dns.c:484-524) and TSIG signatures (dnsperf/dns.c:203-285, 330-482).
- The library's own conversions of names, TTLs, types and data, and its compression: they are parameters, with the law of `Wire.Lawful`.
- Sockets, pipes, signals, the pthread wrappers, options, logging and the printing of reports.
- Merged latency_min and latency_max (dnsperf/dnsperf.c:358-359): the code adds them up over the clients, and nothing is claimed of them.
- The `linked` flag of the queue under several threads: it is written outside the locks, and only `TwoLockQueue.Queue` keeps it.
- RADIX_WALK_BREAK, and the search, insertion and removal of radix trees, whose bodies are not part of this model.
- The simulator's table of workers by address, its sockets, its MD5 checks and its files: one worker is modelled, under its lock.
- Rounding of doubles: rates, latencies of buckets and usages are reals.
- The profiler, the benchmark and the name server itself: they would only add members without state.
- Dnsperf.EveryStep: folds the reading of the clock, the stamp, the counting and the send of a query (dnsperf/dnsperf.c:641-653) into one step, because what the receiver does to the id between them it does as well behind them, and only the sender reads num_sent before it is done.
- TwoLockQueue.EveryStep: does not model weak memory orders, because the locks order what they guard; the accesses of all threads are taken in one order.
- Resperf.Buckets: the numbers of retired queries per bucket (`lost`) and of queries sent late (`late`) are kept by the model for the statement and are not in the source.
- Statistics.RateLimit: does not model the wrap-around of the 32-bit num_sent, because the limit is stated for the number of queries really sent.
- Statistics.TotalSensible: does not model the wrap-around of the 32-bit and 64-bit counters, because the laws are stated for the true counts and sums.
