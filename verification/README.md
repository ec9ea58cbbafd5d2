# A verified model of the storage stack

Three processes make up the system. PFS is a FAT32-like file system, PRAID1 mirrors the
sectors it reads and writes on any number of disks, and PPD is one disk, which serves its
requests in seek order. The model follows the branches of the C sources and proves, for every
input and every run, what the three promise each other; what it does not follow is listed at
the end.

| files | what they model |
|---|---|
| `Mirror*.dfy`, `Petitions.dfy` | PRAID1 as a state and its steps: clients submit, the consumer dispatches reads and gives the disks their copies of a write one by one, disk threads send and receive, disks serve, join and die, what dead disks leave is put back, and a new disk is synchronised, all interleaved in any order |
| `Controller.dfy`, `DiskThread.dfy`, `DiskGeometry.dfy` | the PRAID1 loops that carry out these steps, on linked queues and lists, and the geometry that a disk announces |
| `Links.dfy`, `LinkedQueue.dfy`, `LinkedList.dfy` | the linked queue and list of Commons |
| `Seek.dfy`, `SeekQueue.dfy`, `Ppd.dfy` | SSTF and SSTF in N steps over whole runs, the pointer walks that carry them out, and the disk process |
| `FatChains.dfy`, `Fat.dfy`, `Files.dfy` | the allocation table, its chains and counters, and truncation |
| `CacheViews.dfy`, `Cache.dfy` | the write-back cluster caches |
| `Blocks.dfy`, `FileBytes.dfy`, `FileSystem.dfy` | clusters as blocks of sectors, files as bytes, and reading, writing and truncating through table and cache together |
| `Packets.dfy` | packets on a connection that delivers them in pieces |
| `Options.dfy`, `Arithmetic.dfy` | shared helpers |

Methods that work on linked nodes, arrays or fields are each proved equal to a function or
step of the state before; what the sources promise is then proved of that function over all
runs. Where a law holds only under a condition, the condition is proved to be exact.

How PRAID1 is cut into steps: a step is what one thread does between two points where another
may come in between. Giving a write to the disks is a round of steps, one for each disk: the
consumer holds the lock of the list meanwhile, but the thread of a dying disk takes its node out
without it (PRAID1/HILO_PPD.c:325), and other threads push to the general queue. A new disk
waits for the lock. What a dead disk leaves goes back to the general queue petition by petition,
as the consumer pops without the lock that is held for it. A petition's
`sync_PPD` is represented by the number of the disk it is for (`owner`) and by
whether its queue pointer is still set (`toSync`). Fields called history in the comments
(petition numbers, contents as the clients see them, completed and skipped sectors, the log
of what was sent, reads since the ring last changed, the petition a response came from, the
sectors whose last round left a disk out) are read by no step.

Where the code and its comments or the FAT32 specification differ, the code is followed:
freed entries get 0xE5 and are never allocated again; the first cluster of a file is split by
256 and read back as a sum, which works up to entry 65792 (`Files.FirstClusterRoundTrip`);
an entry whose link is 229 is counted as free already, so the counter of free clusters falls one
short, once, when entry 229 is linked to (`FatChains.GivenSuffix`, `Files.Volume.Truncate`);
the clusters added to a file are cleaned only if it had bytes, and its last cluster is not
(`FileSystem.GrownBytesAreZeros`); a skipped sync write neither frees its slot nor counts as
done, so its disk is never promoted, and this comes about when a client writes to a sector
before its sync write is sent (`MirrorWitnesses.SkipHappens`, `MirrorCatchUp.SkipsExactly`,
`MirrorCatchUp.SureExactlyWhenSpared`) and, through a flag left over from that, to sectors that no
client wrote (`MirrorStaleFlag.StaleFlagSkips`); a disk that dies with its copy of a write, while
another one waits for its own, makes the loop end too early, and two up-to-date disks may differ
from then on (`MirrorWitnesses.DivideHappens`, `MirrorRounds.RoundEnds`); `collection_list_remove` decrements
the count even for a position that is not there (`LinkedList.List.Remove`); the step counter
of the scheduler's walk has 8 bits (`Seek.Window`); `FUSE_write` reports as written what does
not fit in the first cluster (`FileSystem.Mount.Write`).

## Model

| member | source | states |
|---|---|---|
| `MirrorTheorems.MirrorsAgree` | PRAID1/PRAID1.c:531-552 | in every reachable state, two disks that are up to date agree, once each has done all that was sent or queued to it, in every sector of which both were told the same: the last round to write it left no disk out, and one going on has given both their copy or neither |
| `MirrorRounds.CleanMirrorsAgree` | PRAID1/PRAID1.c:531-552 | in a run where no disk dies with its copy of a write while another one waits for its own, two up-to-date disks agree in every sector, but the one being copied to just one of them |
| `MirrorRounds.RoundEnds` | PRAID1/PRAID1.c:531-552 | when a round ends, two up-to-date disks agree in its sector if and only if both have their copy, or neither, or the write changed nothing |
| `MirrorRounds.LeavesOut` | PRAID1/PRAID1.c:531-552 | left alone, a round ends having left a disk out if and only if a disk died with its copy while another one waited |
| `MirrorRounds.LostCopyLeavesOut` | PRAID1/HILO_PPD.c:319-342 | such a death makes the round leave a disk out |
| `MirrorRounds.UninterruptedRound` | PRAID1/PRAID1.c:531-552 | a round that nothing interrupts gives each disk one copy, only the first with REPLY, and ends with the ring as it was |
| `MirrorWitnesses.DivideHappens` | PRAID1/PRAID1.c:531-552 | a run after which two up-to-date disks will hold different data, with nothing left to dispatch |
| `MirrorTheorems.PromotedDiskMirrors` | PRAID1/HILO_PPD.c:425-447 | the agreement at the very moment a disk turns from SYNC to OK |
| `MirrorTheorems.ExactlyOneReply` | PRAID1/PRAID1.c:514-557 | for each client petition, replies sent, REPLY copies held by disk threads, and presence in the general queue, with the consumer or among what a dead disk left, add up to one |
| `MirrorRequests.SubmittedAsAsked` | PRAID1/PRAID1.c:615-689 | the client petitions of a run are what its steps ask for, number by number: connection, type, sector and data |
| `MirrorReplies.RepliesAreRight` | PRAID1/HILO_PPD.c:468-490 | every reply ever sent goes to the connection that asked for what it answers and names the sector and type that were asked for; the disks got the data the client gave, and a reply to a write carries none |
| `MirrorClients.SectorsHoldLastWritten` | PRAID1/PRAID1.c:487-557 | for the clients a sector holds the data given with the last of the writes to it in the order of dispatch, or what the first disk had there; nothing else changes it |
| `MirrorClients.DisksHoldLastWritten` | PRAID1/PRAID1.c:531-557 | and between two rounds every up-to-date disk holds it too, once it has done what was sent or queued to it, unless the last round to write the sector left a disk out |
| `MirrorClients.RepliesLinearize` | PRAID1/PRAID1.c:487-557 | every petition answered was dispatched at a step between its submission and its reply; a read is answered with what the last write dispatched before that step brought to its sector, unless the round of that write left a disk out |
| `MirrorClients.ReadsLinearize` | PRAID1/PRAID1.c:514-526 | while no disk dies with its copy of a write while another one waits, that holds of every read |
| `MirrorClients.DispatchedWhileWaitedFor` | PRAID1/HILO_PPD.c:346-380 | a petition dispatched, even again after a disk died with it, has had no reply: no write takes effect but while its client waits |
| `MirrorClients.FirstComeFirstServed` | PRAID1/PRAID1.c:487-493 | as long as no dead disk's petitions are put back, the client petitions dispatched and those waiting are all there are, in the order they came |
| `MirrorClients.ReadsSeeWritesBefore` | PRAID1/PRAID1.c:514-526 | and a read is answered with the last write to its sector that was asked for before it |
| `MirrorTheorems.ResponsesMatch` | PRAID1/HILO_PPD.c:414-423 | the first sent petition with the sector and type of the next response exists and is the one the response was made for |
| `MirrorTheorems.ReadsWantLogical` | PRAID1/PRAID1.c:514-526 | a read dispatched is to return what was last written to its sector, unless the round that wrote it left a disk out |
| `MirrorTheorems.ReadsReturnWanted` | PRAID1/HILO_PPD.c:468-490 | and the response says so, whichever disk answers it and whatever happened in between |
| `MirrorTheorems.SyncAccounts` | PRAID1/HILO_PPD.c:502-542 | semaphore, sync petitions under way and sectors skipped make 32, and the next sector can be asked for if and only if the last two make fewer; done, under way and skipped make those issued; each issued sector is in exactly one of the three conditions |
| `MirrorTheorems.SkippedNeverPromoted` | PRAID1/HILO_PPD.c:211-233 | a disk that skipped a sector is still SYNC and no response can promote it |
| `MirrorTheorems.OkDiskForgets` | PRAID1/HILO_PPD.c:434-447 | a disk that is up to date remembers no client writes, and gave up no sector |
| `MirrorTheorems.NoSyncWriteAfterClientWrite` | PRAID1/HILO_PPD.c:186-255 | among all that was ever sent to a SYNC disk, no sync write follows a client write to its sector |
| `MirrorTheorems.AlwaysAnOkDisk` | PRAID1/HILO_PPD.c:325-342 | once a disk has joined, a running RAID has an up-to-date one |
| `MirrorTheorems.ReadsBalanced` | PRAID1/PRAID1.c:514-526 | since the ring last changed, two up-to-date disks were given the same number of reads, give or take one, counted from the steps of the run |
| `MirrorHistory.ReadsExactly` | PRAID1/PRAID1.c:514-526 | what is counted for a disk is how many reads were put into its queue since the ring last changed |
| `MirrorQueues.FirstGivenFirstTaken` | PRAID1/HILO_PPD.c:164-171 | a disk thread takes, in order, all that its disk was given: reads, copies of writes, and what was read for its synchronisation |
| `MirrorQueues.FirstQueuedFirstConsumed` | PRAID1/PRAID1.c:487-493 | as long as no dead disk's petitions are put back, the consumer takes, in order, all that clients and synchronisations asked for |
| `MirrorTheorems.RestAnswersAll` | PRAID1/HILO_PPD.c:471-496 | with nothing left to do, every client petition has had exactly one reply |
| `MirrorTheorems.QuietMeansDone` | PRAID1/HILO_PPD.c:407-500 | and the up-to-date disks then hold the same data in every sector whose last round left no disk out |
| `MirrorProgress.InternalStepsWork` | PRAID1/PRAID1.c:478-565 | putting back, dispatching, copying, sending, serving and receiving each use up a measure of the work in hand |
| `MirrorProgress.NeverStuck` | PRAID1/HILO_PPD.c:30-317 | while anything is in hand, one of these steps can be taken |
| `MirrorProgress.ComesToRest` | PRAID1/HILO_PPD.c:30-317 | so every good state comes to rest by no more of them than the measure says |
| `MirrorProgress.AnswersWhenLeftAlone` | PRAID1/HILO_PPD.c:471-496 | every reachable running state has such a continuation, after which every client petition ever submitted has had exactly one reply |
| `MirrorCatchUp.SkipsExactly` | PRAID1/HILO_PPD.c:186-223 | a sync write is given up if and only if a client write to its sector was sent to the disk before or is queued behind it, or nothing is queued behind it and the last sync write that had something behind it had a write to its sector there |
| `MirrorHistory.FlagExactly` | PRAID1/HILO_PPD.c:195-201 | the flag left over is set if and only if the last sync write taken with something queued behind it had a write to its sector behind it |
| `MirrorStaleFlag.StaleFlagSkips` | PRAID1/HILO_PPD.c:195-223 | a run in which a disk gives up a sector that no client ever wrote, because of the flag left over from the sector before |
| `MirrorCatchUp.SureExactlyWhenSpared` | PRAID1/HILO_PPD.c:502-520 | while no one submits and no disk joins or dies, a disk can be brought up to date whatever the threads do first, if and only if no client write was sent to it, is queued for it or will be copied to it, but to sectors whose sync write was sent |
| `MirrorCatchUp.CatchesUp` | PRAID1/HILO_PPD.c:502-520 | from every reachable state further steps of the threads bring a disk in the ring up to date in that case; in any case they do unless it skips a sector |
| `MirrorCatchUp.LostForever` | PRAID1/HILO_PPD.c:425-447 | a disk that a client write reached before the sync write of the same sector never becomes up to date, whatever happens afterwards |
| `MirrorWitnesses.SkipHappens` | PRAID1/HILO_PPD.c:186-233 | a run after which a disk has skipped its one sector |
| `MirrorCatchUp.NextSectorAtRest` | PRAID1/HILO_PPD.c:425-447 | at rest, a SYNC disk without a skip has sectors left to issue and a free slot |
| `MirrorInvariant.InvStep` | PRAID1/HILO_PPD.c:30-500 | every step keeps the invariant all of these results rest on |
| `MirrorInvariant.InvAlways` | PRAID1/HILO_PPD.c:30-500 | it holds in every state of every run |
| `MirrorInvariant.RoundRobinRead` | PRAID1/PRAID1.c:516-523 | taking the first OK disk and putting it last keeps the reads in turn |
| `MirrorInvariant.DispatchWriteRing` | PRAID1/PRAID1.c:531-533 | beginning a round keeps what each disk is known to hold: nobody has been told of the write |
| `MirrorInvariant.CopyRing` | PRAID1/PRAID1.c:533-552 | a copy keeps it: its disk has been told of the write and is right about its sector, even if it was left out before |
| `MirrorInvariant.EndRing` | PRAID1/PRAID1.c:533-557 | the end of a round keeps it: its sector is right on every disk, or no longer claimed of any |
| `MirrorAccounts.OwedReceive` | PRAID1/HILO_PPD.c:449-496 | a response uses up exactly the petition it answers, unless that goes on as a sync write |
| `MirrorAccounts.OwedDie` | PRAID1/HILO_PPD.c:346-380 | a disk's death loses no petition that must be answered and adds none; those of its own synchronisation go with it |
| `MirrorAccounts.OwedRequeue` | PRAID1/HILO_PPD.c:346-380 | putting a petition back loses none and adds none |
| `MirrorAccounts.OwedCopy` | PRAID1/PRAID1.c:531-557 | of the copies of a write exactly one is still owed |
| `MirrorAccounts.SkipLaws` | PRAID1/HILO_PPD.c:206-233 | a skipped sync write moves its sector from under way to given up, and nothing else |
| `MirrorAccounts.FinishLaws` | PRAID1/HILO_PPD.c:425-447 | a finished sync write moves its sector from under way to done and frees a slot; the last one promotes the disk with nothing under way |
| `MirrorContents.SendCatching` | PRAID1/HILO_PPD.c:186-255 | sending, skipping included, keeps what a disk being synchronised will hold |
| `MirrorContents.ServeMirrored` | PPD/PPD.c:656-705 | serving out of order, but in order within a sector, does not change what a disk will hold |
| `MirrorContents.ServedReadIsRight` | PPD/PPD.c:656-682 | a read served carries the data its client is owed |
| `MirrorContents.SentIsUntainted` | PRAID1/HILO_PPD.c:195-223 | a sync write passes both tests only when no client write to its sector was sent or is queued |
| `MirrorContents.PromotedMirrored` | PRAID1/HILO_PPD.c:434-447 | when every sector of a disk is done, the disk mirrors the array |
| `MirrorShape.MatchIsExact` | PRAID1/PRAID1.c:740-748 | matching by sector and type finds the petition that was answered |
| `Petitions.SettleServe` | PPD/algoritmos.c:39-52 | doing writes in another order, not among those of one sector, leaves the same data |
| `Controller.Raid.constructor` | PRAID1/PRAID1.c:47-50 | a RAID starts without disks or petitions |
| `Controller.Raid.Resolve` | PRAID1/PRAID1.c:615-689 | a client petition, with its connection, type, sector and data, is pushed to the end of the linked general queue: the Submit step |
| `Controller.Raid.Consume` | PRAID1/PRAID1.c:487-531 | the consumer pops a petition and gives a read to a disk, or begins the round of a write: the Dispatch step |
| `Controller.Raid.Read` | PRAID1/PRAID1.c:514-523 | the first up-to-date disk leaves the linked list, takes the read and is put at the end; the others keep their order |
| `Controller.Raid.CopyNext` | PRAID1/PRAID1.c:533-546 | one turn of the copying loop is the Copy step: the disk at the head gets its copy, the first one with REPLY, and is put at the end |
| `Controller.Raid.GoRound` | PRAID1/PRAID1.c:533-557 | the whole loop, when nothing comes in between, is as many Copy steps as the list is longer than the position, and the EndRound step |
| `DiskThread.Thread.AddSyncPetition` | PRAID1/HILO_PPD.c:513-542 | the next sector is asked for at the cost of one slot, by a push to the general queue: what the IssueSync step does |
| `Controller.Raid.Connect` | PRAID1/PRAID1.c:175-333 | the first disk joins as OK and sets the geometry, the RAID then having as many sectors as the geometry has places; a later one joins as SYNC, or is refused if and only if its identifier is known or its geometry differs |
| `DiskGeometry.SectorsAreItsPlaces` | PRAID1/HILO_PPD.c:507-509 | the number of sectors of a geometry is the number of its places, one for each sector of each head of each cylinder |
| `DiskThread.DiskFault` | PRAID1/HILO_PPD.c:346-380 | afterwards the general queue is the REPLY petitions of the sent list, of the one being sent and of the disk's queue, in that order, followed by what it held |
| `DiskThread.FaultIsRun` | PRAID1/HILO_PPD.c:346-380 | which is a run of Requeue steps with nothing in between |
| `DiskThread.DeathIsRun` | PRAID1/HILO_PPD.c:346-380 | the death of a disk with nothing in between leaves the petitions with REPLY that it was sent, then those queued for it, at the head of the general queue |
| `DiskThread.RequeueQueue` | PRAID1/HILO_PPD.c:348-358 | inverting the queue and pushing each to the head keeps the order |
| `DiskThread.RequeueList` | PRAID1/HILO_PPD.c:370-380 | taking from the end of the sent list and pushing each to the head keeps the order |
| `DiskThread.Clear` | PRAID1/HILO_PPD.c:384-392 | the historic list is emptied |
| `DiskThread.Thread.SendNext` | PRAID1/HILO_PPD.c:186-255 | one petition popped and sent or skipped is the Send step on the linked queue, sent list and historic list |
| `DiskThread.Thread.SendSync` | PRAID1/HILO_PPD.c:190-223 | a sync write is sent exactly when neither test finds a write to its sector, with `info_ppd_aux` kept from one petition to the next |
| `DiskThread.Thread.Remember` | PRAID1/HILO_PPD.c:241-254 | the sector of a client write enters the historic list once |
| `DiskThread.Thread.Drain` | PRAID1/HILO_PPD.c:150-258 | the loop sends the whole queue |
| `DiskThread.DrainIsRun` | PRAID1/HILO_PPD.c:150-258 | which is a run of Send steps with nothing in between |
| `DiskThread.Thread.TakeMatch` | PRAID1/HILO_PPD.c:412-423 | the first matching petition leaves the sent list |
| `DiskThread.Thread.Finish` | PRAID1/HILO_PPD.c:425-447 | a done sync write counts, frees a slot, and the last one clears the historic list and makes the disk OK |
| `DiskThread.Thread.Resolve` | PRAID1/HILO_PPD.c:407-500 | a response is settled as in the Receive step and forwarded as a sync write, answered or dropped |
| `LinkedQueue.Queue.Push` | Commons/queue.c:93-111 | appends, on head, tail and count |
| `LinkedQueue.Queue.PushHead` | Commons/queue.c:117-135 | prepends |
| `LinkedQueue.Queue.Pop` | Commons/queue.c:141-158 | takes the first; nothing of an empty queue |
| `LinkedQueue.Queue.Invert` | Commons/queue.c:164-178 | the contents are reversed |
| `LinkedQueue.ReversedTwice` | Commons/queue.c:164-178 | inverting twice restores a queue |
| `LinkedQueue.Queue.Find` | Commons/queue.c:215-231 | returns the first element that satisfies the closure, if any does |
| `LinkedList.List.Add` | Commons/list.c:68-89 | appends and returns the position |
| `LinkedList.List.Get` | Commons/list.c:95-110 | returns the element at a position, nothing past the end |
| `LinkedList.List.Find` | Commons/list.c:176-192 | returns the first element that satisfies the closure |
| `LinkedList.List.Remove` | Commons/list.c:214-242 | takes out one element; the list is left consistent exactly when the position exists, because the count goes down regardless |
| `LinkedList.List.RemoveByClosure` | Commons/list.c:248-284 | takes out the first element that satisfies the closure, or nothing |
| `Seek.DistanceIsExact` | PPD/algoritmos.c:184-186 | the distance computed through 32-bit arithmetic is the true one for cylinders below 2^31 |
| `Seek.Nearest` | PPD/algoritmos.c:33-56 | the position found is the first of those with the least distance |
| `Seek.Pick` | PPD/algoritmos.c:118-144 | no earlier request is for the same cylinder, and under N steps one of the first `steps` is taken |
| `Seek.ServedNearest` | PPD/algoritmos.c:14-182 | in every run, of the requests that the policy looks at among those waiting when the t-th is taken (all of them, or the first max - t % max up to 256 of them), it is the first that is nearest to the cylinder of the one served before it, 0 at the start |
| `Seek.ArmAlways` | PPD/PPD.c:666-691 | the arm is where the last request served was |
| `Seek.SameCylinderFifo` | PPD/algoritmos.c:39-52 | in every run of either policy, requests for one cylinder are served in order of arrival |
| `Seek.OrderlyAlways` | PPD/algoritmos.c:14-182 | in every run each arrival waits or was served, once, and those waiting are in order |
| `Seek.AsArrived` | PPD/PPD.c:542-587 | what waits and what was served is what arrived |
| `Seek.ServedInItsEpoch` | PPD/algoritmos.c:99-182 | with MAX_STEPS = max, the request served t-th is the k-th arrival for some k with k / max = t / max |
| `Seek.EpochServesAll` | PPD/algoritmos.c:99-182 | once an epoch is over all its arrivals have been served, within it |
| `Seek.OvertakenWithinEpoch` | PPD/algoritmos.c:99-182 | a younger request is served first only within an epoch, fewer than max services apart |
| `Seek.WaitsBehindFewerThanMax` | PPD/algoritmos.c:99-182 | fewer than max younger requests are ever served before a waiting one |
| `SeekQueue.Waiting.Push` | PPD/PPD.c:542-587 | a request is appended to the global list, head and tail included |
| `SeekQueue.Waiting.Sstf` | PPD/algoritmos.c:14-97 | removes the earliest request of least distance, keeps the rest in order and the list fit for the next push |
| `SeekQueue.Waiting.SstfNSteps` | PPD/algoritmos.c:99-182 | the same among the first `steps`, which go down by one or start again |
| `SeekQueue.Waiting.Walk` | PPD/algoritmos.c:33-56 | the pointer walk ends at that request and its predecessor |
| `SeekQueue.Waiting.WalkSteps` | PPD/algoritmos.c:118-144 | and so does the walk bounded by the counter |
| `Ppd.SectorsRoundTrip` | PPD/PPD.c:866-884 | sector numbers and places correspond one to one, a cylinder having as many sectors as a track |
| `Ppd.PicksWhatRaidAllows` | PPD/algoritmos.c:39-52 | whichever policy a disk uses, what it serves next is preceded by no request for the same sector, which is what the RAID relies on |
| `Ppd.ProcessRunIsServeRun` | PPD/PPD.c:428-491 | every run of the disk process over the petitions on its wire, arriving and served in whatever order it chooses, is a run of Serve steps of the RAID, with the same contents, and the same responses sent back on its connection |
| `Ppd.WorkIsServe` | PPD/PPD.c:428-491 | serving one request is a Serve step that the RAID allows for and gives the response it expects |
| `Ppd.OtherStepsMatch` | PPD/PPD.c:542-587 | no other step of the RAID changes what the process holds of its disk: its queue stays the front of the wire |
| `Ppd.Process.Enqueue` | PPD/PPD.c:542-587 | an arrival, as the scheduler model has it |
| `Ppd.Process.ServeNext` | PPD/PPD.c:428-491 | one request chosen, carried out on the contents and answered to whom it came from, the arm staying at its cylinder, as the scheduler model has it |
| `Ppd.WriteThenRead` | PPD/PPD.c:656-705 | a sector written is read back, to the connection that asked, whatever is written to another one in between |
| `FatChains.ChainAppend` | PFS/FAT.c:77-120 | writing the last entry of a file followed by new entries makes its chain the old one followed by these |
| `FatChains.ChainCut` | PFS/FUSE.c:494-513 | freeing a suffix and rewriting the last entry kept makes the chain the kept prefix |
| `FatChains.ChainFrame` | PFS/FAT.c:77-120 | a chain that shares no entry with those written is unchanged |
| `FatChains.ChainUnique` | PFS/FAT.c:24-38 | an entry starts at most one chain |
| `FatChains.TakenIsExact` | PFS/FAT.c:86-116 | the counter goes down by as many entries as stop being free, re-used look-alikes of 229 aside |
| `FatChains.GivenIsExact` | PFS/FAT.c:162-170 | and up by as many as become free |
| `FatChains.GivenSuffix` | PFS/FAT.c:162-170 | freeing the end of a chain gives back all its entries, except one exactly when an entry after its first is number 229 |
| `FatChains.FreedAndNotCounted` | PFS/FAT.c:164-166 | an example: entries 2 and 229 are freed and one is counted |
| `FatChains.ZerosAfterTaking` | PFS/FAT.c:126-130 | using up the first entry never used leaves the next one ahead |
| `Fat.Table.GetFileClusters` | PFS/FAT.c:24-38 | the walk ends and lists the chain of the file in order |
| `Fat.Table.XthCluster` | PFS/FAT.c:203-212 | gives element min(x, length - 1) of that list on chains ended by 0xFFFFFFF, and element x of any chain that has it |
| `Fat.Table.GetFreeClusters` | PFS/FAT.c:40-59 | refused exactly when the counter is too low; otherwise the n least entries never used, in order |
| `Fat.Table.WriteEntry` | PFS/FAT.c:77-130 | links the entries, adjusts the counter, and leaves `most_recently_alloc_cluster` just before the least entry never used |
| `Fat.Table.WriteFreeEntry` | PFS/FAT.c:154-180 | marks the entries, adjusts the counter, and keeps that position right |
| `Files.FirstClusterRoundTrip` | PFS/PFS.c:987-994 | a first cluster is read back as written if and only if its entry number is at most 65792 |
| `Files.CapacityAlways` | PFS/FUSE.c:390-515 | over every sequence of truncations a file's clusters cover its size |
| `Files.Missing` | PFS/FUSE.c:424-433 | the clusters added bring a file to the n it has if s bytes fit in them, otherwise to just as many as s bytes need |
| `Files.Kept` | PFS/FUSE.c:494-500 | cutting to s keeps the clusters up to the one that byte s is in, or all n, and none for s = 0 |
| `Files.CutUnused` | PFS/FAT.c:154-180 | cutting a file changes what the table counts as unused by as much as the counter |
| `Files.ExtendUnused` | PFS/FAT.c:77-120 | extending a file changes it by one less than the counter if and only if a new entry is number 229 |
| `Files.Grow` | PFS/FUSE.c:434-472 | the chain gets as many new entries as s bytes need and it lacks, the counter goes down by as many, other chains are untouched |
| `Files.Open` | PFS/FUSE.c:398-453 | a file without clusters gets a first one and then the rest; it fails without a trace when none is free |
| `Files.Shrink` | PFS/FUSE.c:477-513 | the chain keeps the prefix up to the cluster that byte s is in, and the counter goes up by the entries freed, short by one in the case of entry 229 |
| `Files.TruncateFile` | PFS/FUSE.c:350-519 | all cases of a truncation on one file: chain, size, counter, entries of others |
| `Files.NeverUnusedAgain` | PFS/FAT.c:169 | an entry once used is never allocated again |
| `Files.OthersKept` | PFS/FUSE.c:350-519 | a truncation leaves every other file's chain and keeps it apart |
| `Files.Volume.Truncate` | PFS/FUSE.c:350-519 | every file stays a chain of its own with room for its size, whichever is truncated; the status returned; the length of the chain, neither more nor fewer clusters than the new size asks for; the exact change of the counter, which over every sequence of truncations keeps step with the table but for one cluster once entry 229 was linked to |
| `Cache.Store.AddNew` | PFS/Cache.c:71-91 | adding a cluster, whatever falls out of the list, adds it to the plain map of clusters and to nothing else; what was listed stays, but for the first when the list no longer fits, which alone may be written to the disk |
| `Cache.Store.Read` | PFS/Cache.c:26-53 | returns the last write, changes no cluster, touches neither list nor disk for a cluster in the list, and otherwise keeps it in memory when its file is open and one cluster fits |
| `Cache.Store.Write` | PFS/Cache.c:55-68 | changes exactly one cluster of the plain map, and not the disk while the cluster stays in memory |
| `Cache.Store.WriteThrough` | PFS/AddressPFS.c:184-196 | a cluster in no cache written past the caches changes in the plain map, and nothing else does |
| `Cache.Store.FlushList` | PFS/Cache.c:98-115 | the loop bounded by the configured size reaches every marked cluster; afterwards the disk is what a reader sees |
| `CacheViews.FitsInFlush` | PFS/Cache.c:81-103 | a list that fits is no longer than that loop |
| `Cache.Store.Flush` | PFS/FUSE.c:278-299 | what was written under a file's name is on the disk, where no other file's cluster changes |
| `Cache.Store.Open` | PFS/FUSE.c:61-87 | a file is open once more, with an empty cache if it was not open |
| `Cache.Store.Release` | PFS/FUSE.c:301-346 | it is open once less; the last close flushes and drops its cache; no cluster of the plain map changes |
| `Cache.Store.Serve` | PFS/Cache.c:26-115 | over every sequence of opens, reads, writes, flushes and closes the caches answer like a plain map from clusters to contents |
| `Cache.AsLastWritten` | PFS/Cache.c:55-68 | and in that map a cluster is as last written |
| `Blocks.EachAnswered` | PFS/AddressPFS.c:50-65 | as many answers as requests, none twice, leave no request unanswered |
| `Blocks.Addressing.ReadBlock` | PFS/AddressPFS.c:23-75 | whatever the order of the answers, the block equals the disk |
| `Blocks.Addressing.WriteBlock` | PFS/AddressPFS.c:78-132 | whatever the order of the writes, the disk has the block where it belongs and is unchanged elsewhere |
| `Blocks.Addressing.ReadCluster` | PFS/AddressPFS.c:169-181 | returns the bytes of the cluster |
| `Blocks.Addressing.WriteCluster` | PFS/AddressPFS.c:184-196 | changes that cluster to the bytes given and no other sector |
| `Blocks.ClustersSpliced` | PFS/AddressPFS.c:184-196 | writing one cluster leaves all others as they were |
| `Blocks.ApartIff` | PFS/AddressPFS.c:169-196 | the blocks of two clusters never overlap, wherever the data region begins, if and only if sectors_per_cluster is at least blocks_per_cluster * sectors_per_block |
| `Blocks.StartsAtItsSector` | PFS/PFS.c:1115-1117 | a cluster is read from its own first sector if and only if that begins a block |
| `FileBytes.BytesEdit` | PFS/FUSE.c:208-224 | writing one cluster of a file changes only its place in the file's bytes |
| `FileBytes.Locate` | PFS/PFS.c:1098-1113 | the loop ends with the block, sector and byte of the offset within its cluster |
| `FileSystem.ReadsExactly` | PFS/PFS.c:885-924 | a read copies exactly what it was asked for, not more, if and only if it stays in one cluster or its last cluster leaves over no more than its first one skips; otherwise it copies twice that difference more |
| `FileSystem.StaysInFile` | PFS/PFS.c:900-924 | such a read within a file's clusters touches no others |
| `FileSystem.CopyWhole` | PFS/PFS.c:866-915 | the first piece and the whole clusters after it |
| `FileSystem.CopyOut` | PFS/PFS.c:866-924 | what is copied is what the clusters hold from the offset on, and how much it is |
| `FileSystem.ReadContent` | PFS/PFS.c:823-943 | the same for the chain of a file, found through the table |
| `FileSystem.LastPartIsName` | PFS/PFS.c:1066-1075 | a file is cached under what follows the last separator of its path, trailing ones aside |
| `FileSystem.Mount.Read` | PFS/FUSE.c:92-123 | the file's bytes from the offset on; -1 without the file; nothing of one without clusters |
| `FileSystem.Mount.Truncate` | PFS/FUSE.c:350-519 | a file keeps the bytes of the clusters it keeps; those it gains read as zeros if its size was above 0 and otherwise as what they held; no other cluster changes, so every other file keeps all its own bytes |
| `FileSystem.GrownBytesAreZeros` | PFS/FUSE.c:456-469 | the bytes that a file with some bytes gains all read as zeros if and only if those of its last cluster past its old end did |
| `FileSystem.CleanAll` | PFS/FUSE.c:462-469 | zeros are written past the caches to exactly the clusters gained |
| `FileSystem.Adopt` | PFS/FAT.c:40-59 | the clusters a file gains were in no cache and no file, so each cluster is still used under one name |
| `FileSystem.Patch` | PFS/FUSE.c:194-224 | one cluster changes where the data goes, through the cache |
| `FileSystem.PatchedFiles` | PFS/FUSE.c:194-224 | in bytes: the file changes exactly in the range written, other files not at all |
| `FileSystem.Mount.MakeRoom` | PFS/FUSE.c:158-190 | the file has a cluster for every byte to be written, the clusters and bytes it had, and in those it gained zeros or what they held, as truncating leaves them |
| `FileSystem.Mount.Write` | PFS/FUSE.c:127-275 | a write of up to a cluster's length puts what fits in its first cluster at its offset, over what the file then holds, and changes no other byte of any file; the size grows to cover it |
| `FileSystem.Written` | PFS/FUSE.c:200-215 | all of the data is written if and only if it fits in the first cluster |
| `Packets.RoundTrip` | Commons/Pack.c:27-49 | a serialised packet is deserialised to itself, whatever follows it; the bytes are the type, the length with its low byte first, and the payload |
| `Packets.RoundTripBack` | Commons/Pack.c:27-49 | and bytes as long as they say are serialised to themselves |
| `Packets.SentWhole` | Commons/Pack.c:27-36 | all of a packet is sent if and only if its payload has at most 65532 bytes |
| `Packets.PackSend` | Commons/Pack.c:52-70 | partial sends add up to the bytes in order, or to a prefix when the connection fails |
| `Packets.SendPacket` | Commons/Pack.c:122-134 | on a connection that does not fail, exactly the packet goes out if and only if its payload has at most 65532 bytes |
| `Packets.ReceiveHead` | Commons/Pack.c:73-83 | the head phase takes the bytes that its calls of up to three each bring |
| `Packets.PackRecv` | Commons/Pack.c:86-119 | takes the bytes of the packet, or those of the head phase when they are more |
| `Packets.TakesItsOwn` | Commons/Pack.c:99-114 | no byte of the next packet is taken if and only if the head phase brought no more than the packet has |
| `Packets.SafeWhen` | Commons/Pack.c:73-83 | the head phase takes no byte of the next packet however the bytes come in pieces, if and only if the payload has two bytes or nothing follows the packet |
| `Packets.TakesTooMuch` | Commons/Pack.c:73-83 | an example where it brings two bytes too many |
| `Packets.ReceiveAll` | Commons/Pack.c:86-119 | packets with two bytes of payload, or pieces no shorter than a head, arrive as sent, in order, and exactly their bytes are consumed |

## Left out

- Sockets, epoll, signals, threads, FUSE registration, memory mapping, configuration files, consoles and logs: messages are sequences, interleaving is atomic steps.
- Mutexes and semaphores, except the 32 slots of a synchronisation and what the steps are cut by.
- The moment between taking a disk out of the list and putting it back (PRAID1/PRAID1.c:516-523 and 541-546): a read dispatched and a copy given are one step each; a disk that dies in between finds no node of its own (PRAID1/HILO_PPD.c:325).
- MirrorTheorems.MirrorsAgree: of a sector whose last round left a disk out nothing is claimed, for the reason that MirrorWitnesses.DivideHappens shows.
- Allocation and freeing of memory, buffer sizes, and use after free: the petition read after it was skipped (PRAID1/HILO_PPD.c:230-241), the thread that goes on after its own fault, the historic entries freed with the wrong type.
- NULL elements in queues and lists; NULL stands for absence.
- Error responses of a disk, which PPD never produces; sectors outside the disk.
- MirrorClients.FirstComeFirstServed: a petition that a dead disk had is dispatched again and may overtake later ones; a write may then take effect twice before it is answered.
- MirrorClients.RepliesLinearize: reads of a sector while its last round left a disk out, which may return older data.
- Exit of the RAID process when its last up-to-date disk dies is `running := false`.
- Latencies, and the next request that the schedulers peek at.
- Seek.Pick: the counter of the walk wraps at 256, so a MAX_STEPS above 255 is modelled but not promised to look at more than 256 requests.
- The blocks of the table written to disk, and the FSInfo sector.
- Fat.Table.GetFreeClusters: the branch that starts again from the beginning of the table repeats and skips entries; enough entries never used are required ahead.
- Fat.Table.XthCluster: past the end of a chain ended by the other end mark the walk leaves the table; it is required not to go there.
- Files.Grow: growth that the allocator refuses; the code goes on with clusters it was not given (PFS/FUSE.c:436), so enough entries never used are required ahead, and a counter that allows for them.
- Files.Open: the same for the clusters after the first one.
- Files.TruncateFile: the same.
- Files.Volume.Truncate: the same.
- FileSystem.Mount.Write: growth refused, for the file or for its first cluster, whose failure the code ignores before it writes (PFS/FUSE.c:165); and writes of more than a cluster's length, whose loop is never entered (PFS/FUSE.c:240) and the size of whose last piece mixes a cluster number with bytes (PFS/FUSE.c:260).
- FileSystem.Mount.Read: the clusters touched must belong to the file; beyond them the code reads past its vector.
- FileSystem.ReadContent: the same.
- FileSystem.Mount.Truncate: the zeros are written after the new entries are linked, not before.
- Offsets and sizes of 2^31 and more.
- Cache.Store.Read: a cluster used under two file names, which the caches keep apart; each cluster is required to be used under the name of its file.
- Cache.Store.Write: the same.
- Cache.Store.Serve: the same.
- The disk under the caches is a map of clusters; that AddressPFS reads and writes such a map is proved apart (Blocks.Addressing.ReadCluster, Blocks.Addressing.WriteCluster), and the two are not joined in one object.
- Controller.Raid.CopyNext: the list of disks is linked, the queue of each disk in it a value; DiskThread.Thread has that queue linked.
- Ppd.Process.ServeNext: the contents of the answer to a trace request.
- Packets.PackRecv: a connection that ends inside a packet, where the second loop never ends, or that carries bytes which are no packet.
- Directories: scanning, names, creation, removal, renaming.
