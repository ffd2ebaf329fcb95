# Spindle, modelled in Dafny

Spindle speeds up the start of large parallel programs by loading shared libraries
once and spreading them over a tree of servers.  This project models the parts of it
that are hardest to get right and proves what they are for:

- **COBO**, the collective operations over a binomial tree (`CoboTree`,
  `CoboCollectives`, `CoboCompletion`, `CoboCalls`, `CoboScatter`, `CoboRank`).  The tree is computed by
  every rank on its own; the collectives run as a machine of ranks and FIFO channels,
  over any sequence of calls and any interleaving.
- **The client transport** (`Demultiplex`, `DemultiplexSafety`, `DemultiplexAbort`,
  `DemultiplexRuns`, `DemultiplexSchedules`, `DemultiplexProgress`): many processes share one pipe, take each other's messages off it and hand them over
  through queues in a shared heap.  Every shared access is one step, bytes arrive in
  pieces of any size, and the heap may be full.
- **The lock** under it (`SpinLock`), access by access, and **the daemon's bookkeeping**
  of queued bytes (`Daemon`).
- **sheep**, the shared heap allocator (`SheepLayout`, `SheepCanonical`, `Sheep`), with
  its headers packed into 32-bit words that are rewritten in place, and any sequence of
  uses of it (`SheepUse`).
- **realpath** (`Pathname`, `Realpath`), which expands symbolic links in text buffers,
  against resolution component by component (section 4.13 of POSIX.1-2017 Base
  Definitions).
- **Host lists** (`HostList`, `HostWidth`, `HostGroups`, `HostFaults`, `HostParser`), **the
  static TLS record** (`StaticTls`), **the GOT range table** (`WritableGot`), **the binding hash** (`BindingHash`) and
  **the choice of a cache path** (`CachePaths`), which ends in a COBO reduction.

`Bits`, `Bytes`, `Numerals` and `Collections` hold what these share.  `dafny verify
dfyconfig.toml` checks the project.

## What is taken as given

- The channels between ranks and the pipe between processes are reliable and in order.
- Single reads and writes of shared words are atomic and sequentially consistent;
  `__sync_lock_test_and_set` is one such access.
- `readlink`, `stat` and `getcwd` answer for one unchanging file tree; which candidate
  path a node can use, and which GOT range a library has, are parameters.
- Allocation of local memory succeeds.

## Where the code does not do what it says

- `cobo_scatter` is described as MPI-like, where rank r gets the r-th chunk.  It deals the
  chunks out in pre-order of the tree, which is rank order exactly for up to three ranks
  (`CoboScatter.ScatterInRankOrder`).
- The assert in `get_polled_data` can fail.  `check_heap_blocked` tests a mark that can
  outlive the stashed header.  A reader fails the assert only after a state in which nobody
  holds the pipe, the mark is set and there is no stash (`DemultiplexAbort.AbortNeedsStale`),
  and from every such state another reader can fail it (`DemultiplexSchedules.StaleThenAbort`).
  The target of a stashed frame leaves such a state behind if and only if that frame and its
  own next frames fill its request exactly, before a frame for somebody else or one too large
  for what it still wants (`DemultiplexAbort.SwallowEndsStale`).  Hence no run fails the
  assert in which nobody takes a stashed frame at a moment when the frames in transit leave
  that open (`DemultiplexAbort.NeverAborts`), and at every such moment it can be made to fail
  (`DemultiplexSchedules.SwallowThenAbort`, `DemultiplexSchedules.AbortHappens`).
- `add_wgot_library` refuses a start address it already knows only after it has shifted
  the entries above it.  The table survives exactly when there is at most one such entry
  (`WritableGot.RefusalKeepsTable`, `WritableGot.RefusalCanLose`).
- `malloc_sheep` computes the block size in 32 bits.  The block has room for the request
  exactly for requests of at most 2^32 - 24 bytes (`Sheep.AllocSizeFits`,
  `Sheep.Region.Malloc`); the size is smaller than any block exactly for the requests that
  leave 0 or more than 2^32 - 24 modulo 2^32 (`Sheep.TooSmall`).
- `charLengthOfNumber` is 0 for 0.  The host buffer is still large enough, because the
  suffix is counted with one character too many (`HostParser.FormatHost`).
- `expandOneShortHost` ignores how the expansion of a later bracket group ends.  A group
  that does not read is reported if and only if it is the first of its host; behind a group
  that reads, it drops hosts without an error (`HostFaults.WhatIsLost`): `c,a[1]b[x]` gives
  `c` alone (`HostFaults.LaterGroupDropsHosts`).
- `getHostsParse` does not look at a last piece with an open bracket: `a,b[1` gives `a` alone
  (`HostFaults.UnclosedDropsLast`).  The last piece is looked at if and only if the brackets
  of the list balance (`HostFaults.LastPiece`).  Together: nothing of a list is dropped if
  and only if its brackets balance and every group reads (`HostFaults.SilentLoss`).
- `expandNumberRange` does not look at the character behind a range with a dash: `n[1-2x3]`
  is read like `n[1-2,3]` (`HostGroups.AnySeparator`).  Which groups read is said by their text
  in `HostGroups.ReadsIff`.
- Numbers in a host list lose their zero padding: `n[01-02]`, which stands for `n01` and
  `n02`, is parsed to `n1` and `n2` (`HostWidth.PaddingLost`).  A well-formed list parses to
  the hosts it stands for if and only if no range in it starts with a superfluous zero
  (`HostWidth.ListParsesIffUnpadded`).
- The candidate masks of the cache paths are shifted as C ints.  With up to 31 candidates the
  mask is always right; with any larger number it can be wrong (`CachePaths.RightIffFew`).

## Model

| member | source | states |
|---|---|---|
| `CoboTree.MaxChildren` | src/cobo/cobo.c:678-684 | the doubling loop ends with the smallest exponent whose power of two reaches the number of ranks |
| `CoboTree.ComputeChildren` | src/cobo/cobo.c:676-711 | the bisection a rank runs on its own finds the parent and exactly the children, in order and with subtree sizes, of the tree below, and never runs past the child arrays |
| `CoboTree.EachChildTakesHalf` | src/cobo/cobo.c:697-708 | without the split point: the children are taken from the top, and each gets half of the ranks that are left, rounded up |
| `CoboTree.KidsTile` | src/cobo/cobo.c:697-708 | the children's intervals partition the parent's interval without the parent, the last child first |
| `CoboTree.ParentChildAgree` | src/cobo/cobo.c:676-711 | for every number of ranks, r lists c as a child if and only if c computed r as its parent |
| `CoboTree.IndexUnique` | src/cobo/cobo.c:697-708 | a rank is listed by its parent at exactly one place |
| `CoboTree.SubtreeIsInterval` | src/cobo/cobo.c:697-708 | the subtree of r is the interval from r to r plus its number of descendants: another rank is in it if and only if its parent is |
| `CoboTree.TreeIsShallow` | src/cobo/cobo.c:676-711 | children and depth are at most k as soon as n is at most 2^k |
| `CoboCollectives.FoldJoin` | src/cobo/cobo.c:1437-1477 | folding two adjacent intervals of ranks and combining gives the fold of both |
| `CoboCollectives.StepInv` | src/cobo/cobo.c:1027-1186 | every step of every rank keeps the tree edges consistent: what is in a channel is what the two ends still owe each other |
| `CoboCollectives.ResultsAreScheduleIndependent` | src/cobo/cobo.c:1027-1186 | in every interleaving, every rank leaves every call with the value the call specifies for the inputs |
| `CoboCollectives.BarrierSafety` | src/cobo/cobo.c:1226-1240 | no rank leaves a barrier, or any call that goes up and down, before every rank has entered it, in every round |
| `CoboCollectives.NeverStuck` | src/cobo/cobo.c:1027-1108 | as long as some rank has calls left, some rank that has calls left can take a step: no deadlock |
| `CoboCompletion.StepIsProgress` | src/cobo/cobo.c:1027-1186 | every step of a rank with calls left brings it closer to completing them, so each call takes a bounded number of steps |
| `CoboCompletion.EveryRunCompletes` | src/cobo/cobo.c:1027-1186 | whatever has happened so far, a run can be carried on until every rank has completed any given number of calls |
| `CoboCompletion.CompleteRunExists` | src/cobo/cobo.c:1027-1186 | in particular such a run exists for every job |
| `CoboCalls.CombineAssociative` | src/cobo/cobo.c:1437-1477 | every reduction operator is associative on 64-bit values, sums modulo 2^64 included |
| `CoboCalls.FoldReduces` | src/cobo/cobo.c:1437-1477 | folding an operator over ranks gives the minimum, maximum, common bits, joined bits, conjunction, disjunction or sum modulo 2^64 |
| `CoboCalls.BcastNumEverywhere` | src/cobo/cobo.c:1027-1050 | every rank leaves a broadcast of a number with what rank 0 passed in |
| `CoboCalls.BcastBufEverywhere` | src/cobo/cobo.c:1027-1050 | every rank leaves a broadcast of a buffer with rank 0's buffer |
| `CoboCalls.AllreduceEverywhere` | src/cobo/cobo.c:1437-1477 | every rank gets the reduction of all ranks' values |
| `CoboCalls.GatherIsRankOrdered` | src/cobo/cobo.c:1111-1147 | rank 0 ends up with the block of rank x at offset x times the block size, for every number of ranks |
| `CoboCalls.AllgatherEverywhere` | src/cobo/cobo.c:1324-1339 | every rank ends up with that same rank-ordered buffer |
| `CoboScatter.WalkPosition` | src/cobo/cobo.c:1150-1186 | the b-th rank of the pre-order walk is the one whose block is b places on |
| `CoboScatter.ScatterIsBijective` | src/cobo/cobo.c:1150-1186 | blocks and ranks correspond one to one |
| `CoboScatter.ScatterDeliversPreorder` | src/cobo/cobo.c:1150-1186 | in every interleaving, rank r receives the block at its place in the pre-order walk |
| `CoboScatter.ScatterInRankOrder` | src/cobo/cobo.c:1294-1298 | that is the r-th block for every rank if and only if there are at most three ranks |
| `CoboRank.GatherAtRank` | src/cobo/cobo.c:1111-1135 | the offset loop fills the whole buffer with the own block and the children's messages, last child first |
| `CoboRank.GatherBuffer` | src/cobo/cobo.c:1111-1135 | if the children sent the blocks of their subtrees, that buffer is the blocks of this subtree in rank order |
| `CoboRank.ReduceAtRank` | src/cobo/cobo.c:1437-1463 | the loop over the children computes the reduction of the whole subtree |
| `CoboRank.ScatterAtRank` | src/cobo/cobo.c:1165-1180 | every child is sent its own stretch of the buffer, and the stretches use it up |
| `CoboRank.ShareIsPortion` | src/cobo/cobo.c:1165-1180 | in the tree, that stretch is the part meant for the child's subtree |
| `SpinLock.StepInv` | src/biter/shmutil.c:41-107 | every single access by any thread keeps the ownership invariant |
| `SpinLock.MutualExclusion` | src/biter/shmutil.c:41-107 | in every interleaving at most one thread holds the lock, the lock word is set exactly while one owns it, and held_by names only its owner |
| `SpinLock.CountIsDepth` | src/biter/shmutil.c:41-107 | between calls, ref_count is the holder's nesting depth |
| `SpinLock.ReleaseByNonOwner` | src/biter/shmutil.c:90-107 | release fails exactly for a thread that does not hold the lock, and then changes nothing shared |
| `SpinLock.HolderNeverSpins` | src/biter/shmutil.c:41-66 | a holder that takes the lock again never waits |
| `SpinLock.LastReleaseFrees` | src/biter/shmutil.c:90-107 | after the last release nobody owns the lock |
| `SpinLock.ResultIsOutcome` | src/biter/shmutil.c:41-107 | in every interleaving, over the whole of a call: take_lock returns 0 and the caller is one level deeper; test_lock returns 1 in that case and 0 if nothing changed; release_lock returns 0 and the caller is one level up, or -1 if it held nothing |
| `SpinLock.TestFailsOnlyIfOwned` | src/biter/shmutil.c:68-88 | test_lock returns 0 only at a moment at which another thread owns the lock |
| `SpinLock.OnlyTakeWaits` | src/biter/shmutil.c:41-107 | every access of test_lock and release_lock brings the call closer to its end, whatever others do; take_lock waits only while another thread owns the lock |
| `SpinLock.FreeLockIsTaken` | src/biter/shmutil.c:41-88 | from every reachable state in which no other thread owns the lock, a caller that runs alone gets it within six accesses |
| `Demultiplex.HeaderRoundTrip` | src/biter/demultiplex.c:344-389 | a message header is read back as it was written |
| `Demultiplex.CopyConserves` | src/biter/demultiplex.c:32-83 | one turn of the copy loop moves bytes from the queue to the caller without loss, partial messages included |
| `DemultiplexSafety.StepInv` | src/biter/demultiplex.c:200-389 | every step of any process, of the writer or of the pipe keeps the transport invariant |
| `DemultiplexSafety.StreamConservation` | src/biter/demultiplex.c:200-342 | for every target and in every interleaving, what was sent is what was delivered, then what is unread in its queue, in message space, in the frame in hand and in the frames behind it, in that order |
| `DemultiplexSafety.ReadReturnsNextBytes` | src/biter/demultiplex.c:200-342 | a read returns exactly the number of bytes asked for, and they are the next bytes sent to the caller |
| `DemultiplexSafety.SectionsAreExclusive` | src/biter/demultiplex.c:226-322 | at most one process is in the pipe section and one in the queue section, and a header is stashed only where none is |
| `DemultiplexAbort.AbortNeedsStale` | src/biter/demultiplex.c:191-198 | in every interleaving, a failed assert comes after a state in which nobody holds the pipe, the heap is marked blocked and no header is stashed |
| `DemultiplexAbort.NeverAborts` | src/biter/biterc.c:445-460 | no mark goes stale in that way and no process fails an assert as long as no reader takes a stashed frame, with the heap marked blocked, while neither that frame nor those in transit keep its request from being filled exactly |
| `DemultiplexAbort.SwallowEndsStale` | src/biter/demultiplex.c:254-317 | a reading that takes a stashed frame with the heap marked blocked leaves a stale mark if and only if that frame and the reader's own frames behind it, those written meanwhile included, fill the request exactly before any frame for somebody else or too large; the mark is not cleared by others meanwhile |
| `DemultiplexAbort.GivesUpOnlyForStash` | src/biter/demultiplex.c:245-317 | in every interleaving, a reader lets go of the pipe only with all its bytes or with a header stashed |
| `DemultiplexSchedules.StaleThenAbort` | src/biter/demultiplex.c:226-252 | from every state with a stale mark, a polling reader can go on to fail the assert, with nobody else taking a step |
| `DemultiplexSchedules.SwallowToStale` | src/biter/demultiplex.c:254-317 | whenever such a frame is about to be taken, a schedule exists that leaves a stale mark, in which pending bytes are written and, if nothing is in transit, further frames |
| `DemultiplexSchedules.SwallowThenAbort` | src/biter/demultiplex.c:191-198 | from every reachable state that NeverAborts excludes, another polling reader can fail the assert |
| `DemultiplexSchedules.AbortHappens` | src/biter/demultiplex.c:267-305 | such a state is reached: a run with two readers and one byte |
| `DemultiplexProgress.BlockedHeapUnblocks` | src/biter/client_queue.c:110-133 | from every reachable state with the heap marked blocked and a frame stashed for another reader, a reader with a whole message in its queue that fits its request can clear the mark; the stash stays, and its target takes no step unless it holds the queue lock |
| `DemultiplexProgress.BlockedHeapDrains` | src/biter/demultiplex.c:285-317 | if the pipe is free too and another reader polls for bytes that stand anywhere behind the stashed frame, that reader's call can return exactly those bytes, again without a step of the stashed frame's target |
| `DemultiplexProgress.NextBytesAreRead` | src/biter/demultiplex.c:211-322 | in every reachable state with the heap not marked blocked and the pipe and the queues free, a polling reader can return exactly the next bytes sent to it on its own, wherever they stand in the pipe |
| `DemultiplexProgress.AnyFramesCanBeSent` | src/biter/demultiplex.c:344-389 | any messages can be written one after the other, whether anybody reads or not |
| `DemultiplexProgress.QueuedBytesAreRead` | src/biter/demultiplex.c:211-252 | in every reachable state with the queue lock free, a reader whose queue holds enough can return the first of those bytes on its own, whoever holds the pipe |
| `Daemon.BytesMeanMessage` | src/biter/server_queue.c:98-130 | a session's byte count is positive if and only if some client has a message |
| `Daemon.Biterd.constructor` | src/biter/server_queue.c:37-44 | empty queues satisfy the accounting invariant |
| `Daemon.Biterd.MarkBytesCached` | src/biter/biterd.c:456-471 | both counters grow by the amount, and the auxiliary pipe holds a byte if and only if something is cached |
| `Daemon.Biterd.ClearBytesCached` | src/biter/biterd.c:473-490 | both counters shrink by the amount, and the pipe is emptied exactly when nothing is left |
| `Daemon.Biterd.EnqueueMessage` | src/biter/server_queue.c:114-130 | the message goes to the end of the one queue; session and daemon counts stay the sums of message sizes |
| `Daemon.Biterd.RmMessage` | src/biter/server_queue.c:103-112 | the first message of the one queue goes, used up or not; the asserts on the counters hold and the sums stay exact |
| `Daemon.Biterd.UpdateBytesRead` | src/biter/server_queue.c:140-143 | a message read in part or to its end still counts with its whole size; only in the second case it has to be removed next |
| `Daemon.Biterd.DequeueMessage` | src/biter/demultiplex.c:32-83 | what is handed out and what stays unread make up what was unread; it stops short only at an empty queue |
| `Daemon.Biterd.ScanClients` | src/biter/biterd.c:390-412 | the rotating scan ends at the first client from the cursor on that has a message, and its assert never fails |
| `Daemon.Biterd.FindSessionProc` | src/biter/biterd.c:423-454 | a client is found if and only if something is cached: the first busy session from the cursor on, and its lowest client with a message |
| `SheepLayout.UnlinkedKeeps` | src/biter/sheep.c:190-204 | taking a block off the free list keeps blocks and links exact and adds it to the live ones |
| `SheepLayout.SplitKeeps` | src/biter/sheep.c:219-244 | cutting off a free tail keeps blocks and links exact |
| `SheepLayout.LinkedInKeeps` | src/biter/sheep.c:301-310 | putting a block back in address order keeps blocks and links exact |
| `SheepLayout.MergedKeeps` | src/biter/sheep.c:255-280 | joining two free neighbours keeps blocks and links exact and the live blocks as they are |
| `SheepCanonical.Covered` | src/biter/sheep.c:412-457 | every unit of the heap lies in exactly one block |
| `SheepCanonical.WalkMeetsAll` | src/biter/sheep.c:412-457 | following NEXT_BLOCK meets every block once, in address order, and the sizes add up to the heap |
| `SheepCanonical.SameLiveSameHeap` | src/biter/sheep.c:142-342 | the live blocks determine every header: two well-formed heaps with the same live blocks are equal, whatever their history |
| `SheepCanonical.AllFreedIsInitial` | src/biter/sheep.c:282-342 | once every block is freed the heap is the single free block it started as |
| `SheepCanonical.LiveBlocksDisjoint` | src/biter/sheep.c:142-252 | live blocks do not overlap and lie inside the heap after its header |
| `Sheep.AllocSizeFits` | src/biter/sheep.c:155-163 | the 32-bit block size has room for the request, with under eight bytes to spare beyond the header, if and only if the request is at most 2^32 - 24 |
| `Sheep.TooSmall` | src/biter/sheep.c:155-163 | the 32-bit size is below the smallest block if and only if the request leaves 0 or more than 2^32 - 24 modulo 2^32 |
| `Sheep.SheepPtrRoundTrip` | src/biter/sheep.h:47-50 | a pointer is stored as its offset in units of eight bytes and names the same place under any two mapping bases; null and only null or the base reads back as null |
| `Sheep.Region.constructor` | src/biter/sheep.c:93-140 | the first process lays out one free block, 32 bytes into the region and up to its end; a later one changes no word |
| `Sheep.Region.FindBlock` | src/biter/sheep.c:166-185 | nothing is found if and only if no free block is large enough; first fit takes the lowest that fits, best fit the lowest that wastes under 24 bytes, or else the lowest of those that waste least |
| `Sheep.Region.Malloc` | src/biter/sheep.c:142-252 | null if and only if no free block is large enough, and then nothing changes; otherwise exactly the chosen block becomes live, cut to exactly the computed size if it had 24 bytes or more beyond that and whole if not, and has room for the request if and only if that is at most 2^32 - 24; the heap stays well formed and no payload word of a live block is written |
| `Sheep.Region.FindPrevFree` | src/biter/sheep.c:295-299 | the walk back over allocated blocks ends at the free block before |
| `Sheep.Region.MergeFreeBlocks` | src/biter/sheep.c:255-280 | the two blocks become one; only neighbours of the result may still both be free |
| `Sheep.Region.Free` | src/biter/sheep.c:282-332 | exactly the block leaves the live ones, no two neighbours stay free, the heap stays well formed and no payload word of any live block is written; the joining loop ends |
| `SheepUse.TestHeap` | src/biter/sheep.c:582-700 | for every sequence of requests and releases, each owner finds its pattern intact, the heap is well formed throughout, and releasing the rest gives back the initial heap |
| `SheepUse.Fill` | src/biter/sheep.c:646 | writing within a live payload touches no header and no other block |
| `Pathname.ResolvedTextIsFixed` | src/client/client/realpath.c:486-495 | resolving the text of a canonical path gives it back |
| `Pathname.NoPrefixIsLink` | src/client/client/realpath.c:486-495 | no prefix of a canonical path is a symbolic link |
| `Pathname.WalkIsCanonical` | src/client/client/realpath.c:486-495 | resolution component by component ends at simple names only, none of them a link |
| `Realpath.Spliced` | src/client/client/realpath.c:404-423 | a target spliced as text in front of the remaining text resolves like the components of both |
| `Realpath.SuffixRequiresDirCheck` | src/client/client/realpath.c:229-251 | the scan asks for a check exactly when nothing later would notice that the last component is not a directory |
| `Realpath.BackUp` | src/client/client/realpath.c:359-362 | the scan back ends just after the slash before the last component |
| `Realpath.BackUpIsParent` | src/client/client/realpath.c:357-363 | that is the text of the parent, for the root too |
| `Realpath.Extra.Splice` | src/client/client/realpath.c:406-423 | the buffer holds target and remaining text, also when that text lay in the same buffer and overlaps its new place |
| `Realpath.LinkStep` | src/client/client/realpath.c:396-441 | following a link keeps the outcome, and the link budget is spent exactly when resolution says so |
| `Realpath.UncheckedStep` | src/client/client/realpath.c:443-446 | entering a component without a check keeps the outcome, or fails with the right error |
| `Realpath.CheckedStep` | src/client/client/realpath.c:443-446 | entering a component with dir_check keeps the outcome, or fails with the right error |
| `Realpath.Resolve` | src/client/client/realpath.c:339-450 | the loop ends, for cyclic links too, at the path or the error that resolution component by component yields |
| `Realpath.SpindleRealpath` | src/client/client/realpath.c:281-484 | the caller sees the text of that path, ENAMETOOLONG from 4096 characters on, the first missing component with ENOENT, or the error; null and empty names as specified |
| `Realpath.ResolvedIsCanonical` | src/client/client/realpath.c:486-495 | a resolved name is absolute and canonical, and resolving it again gives it back |
| `Realpath.SelfLinkLoops` | src/client/client/realpath.c:396-402 | a link to itself is reported as ELOOP |
| `Realpath.FortyLinksAtMost` | src/client/client/realpath.c:396-402 | a chain of k links in one directory resolves to its file if and only if k is at most 40, by absolute name and from the current directory; a longer one is reported as ELOOP |
| `Realpath.BufferLimit` | src/client/client/realpath.c:452-484 | a caller's buffer takes a resolved name, or the name of what is missing, if and only if it has fewer than 4096 characters |
| `HostList.CharLengthOfNumber` | src/slurm_plugin/plugin_utils.c:1144-1152 | the printed length, 0 for 0 |
| `HostList.PrintedHostExpands` | src/slurm_plugin/plugin_utils.c:1154-1210 | any well-formed bracketed host expands, in order, to the cross product of its groups, the leftmost varying slowest and every number printed afresh |
| `HostList.ListExpands` | src/slurm_plugin/plugin_utils.c:1212-1244 | a well-formed list parses to those expansions of its hosts one after the other |
| `HostWidth.ListParsesIffUnpadded` | src/slurm_plugin/plugin_utils.c:1137-1192 | a well-formed list parses to the hosts it stands for, with numbers at the written width, if and only if no range starts with a superfluous zero; otherwise to as many names, none longer and some shorter |
| `HostWidth.PaddingLost` | src/slurm_plugin/plugin_utils.c:1137-1192 | n[01-02] is parsed to n1 and n2 |
| `HostGroups.ReadsIff` | src/slurm_plugin/plugin_utils.c:1107-1142 | a closed group reads if and only if its text is spelt by rising ranges, each single number followed by a comma or the bracket and each range with a dash by any character but a digit; a comma before the bracket is let through |
| `HostGroups.SpeltIs` | src/slurm_plugin/plugin_utils.c:1183-1200 | then its numbers are those of the ranges, in order |
| `HostGroups.FallIsRefused` | src/slurm_plugin/plugin_utils.c:1139-1140 | a falling range is refused, whatever stands around it; the numbers of the ranges before it are taken all the same |
| `HostGroups.AnySeparator` | src/slurm_plugin/plugin_utils.c:1124-1132 | 1-2x3 reads as 1, 2 and 3 |
| `HostFaults.ExpandsToProduct` | src/slurm_plugin/plugin_utils.c:1154-1210 | for every text, well formed or not, expanding group by group through the text gives the direct cross product of what each group reads |
| `HostFaults.WhatIsLost` | src/slurm_plugin/plugin_utils.c:1180-1210 | for every text, hosts are given up if and only if some group does not read, and that is reported if and only if it is the first group |
| `HostFaults.PrintedReads` | src/slurm_plugin/plugin_utils.c:1107-1142 | every group of a well-formed host reads |
| `HostFaults.PiecesAreTheList` | src/slurm_plugin/plugin_utils.c:1226-1240 | the pieces of a list, joined by commas, are the list |
| `HostFaults.PiecesByCounting` | src/slurm_plugin/plugin_utils.c:1226-1240 | they are the one way to cut the list at commas such that every piece but the last has as many closing as opening brackets and no piece has a comma behind as many of both |
| `HostFaults.LastPiece` | src/slurm_plugin/plugin_utils.c:1226-1240 | all pieces are looked at if and only if the brackets balance, otherwise all but the last |
| `HostFaults.SilentLoss` | src/slurm_plugin/plugin_utils.c:1212-1244 | for every list: when nothing is returned, when nothing is dropped (and then every host is returned), and when hosts are dropped without an error, each as an if-and-only-if |
| `HostFaults.LaterGroupDropsHosts` | src/slurm_plugin/plugin_utils.c:1193-1196 | c,a[1]b[x] is parsed to c alone |
| `HostFaults.UnclosedDropsLast` | src/slurm_plugin/plugin_utils.c:1226-1240 | a,b[1 is parsed to a alone |
| `HostList.CutShrinks` | src/slurm_plugin/plugin_utils.c:1162-1199 | every host made from the first group has fewer opening brackets, so the recursion ends |
| `HostParser.HostArray.AddHost` | src/slurm_plugin/plugin_utils.c:1078-1094 | the host is appended, and there is always room for the null after it |
| `HostParser.ExpandNumberRange` | src/slurm_plugin/plugin_utils.c:1107-1142 | the cursor code reads the range that the grammar reads, or refuses it |
| `HostParser.FormatHost` | src/slurm_plugin/plugin_utils.c:1190-1192 | the buffer is never too small for the host |
| `HostParser.ExpandOneShortHost` | src/slurm_plugin/plugin_utils.c:1154-1210 | for every text, exactly the expansion is appended |
| `HostParser.GetHostsParse` | src/slurm_plugin/plugin_utils.c:1212-1244 | for every list, the null-terminated array of its hosts, or null |
| `StaticTls.EncodeDecode` | src/utils/static_tls.c:37-157 | encoding then decoding is the identity on five optional strings; a null pointer and "" stay apart |
| `StaticTls.LengthLayout` | src/utils/static_tls.c:67-80 | the encoding starts with the five lengths, four bytes each, in the order of the record |
| `StaticTls.StringLayout` | src/utils/static_tls.c:82-103 | the strings follow in the same order, each read where the lengths before it end, and one zero more |
| `StaticTls.Encode` | src/utils/static_tls.c:52-105 | the cursor writes exactly the wire form, and one byte less than the computed size suffices |
| `StaticTls.Decode` | src/utils/static_tls.c:112-157 | the cursor reads what the wire form says, with the stored lengths as C ints, or refuses a short buffer; where the C code would overflow an int or leave the buffer, it says so |
| `StaticTls.DecodesInside` | src/utils/static_tls.c:132-149 | a buffer that ends in a terminator and whose lengths are not negative and add up within an int is decoded inside its bounds, and refused exactly when the lengths need more than there is |
| `StaticTls.NothingCut` | src/utils/static_tls.c:191-194 | the buffer for the identifying string is large enough |
| `StaticTls.IdStrInjective` | src/utils/static_tls.c:173-195 | equal identifying strings mean equal records, whatever bars, digits or "NONE" the strings contain |
| `StaticTls.IdStrExample` | src/utils/static_tls.c:173-195 | the string of a record with one path, one empty string and three null pointers |
| `WritableGot.InsertKeepsSorted` | src/client/auditclient/writablegot.c:149-176 | an insertion keeps the table sorted and loses no entry |
| `WritableGot.InsertKeepsApart` | src/client/auditclient/writablegot.c:149-176 | a range that overlaps none keeps the ranges apart |
| `WritableGot.RefusalKeepsTable` | src/client/auditclient/writablegot.c:150-161 | refusing a known start leaves the table as it was if and only if at most one entry lies above it |
| `WritableGot.RefusalCanLose` | src/client/auditclient/writablegot.c:150-161 | a table of three in which an entry is lost |
| `WritableGot.RemoveKeepsSorted` | src/client/auditclient/writablegot.c:178-199 | a removal keeps the table sorted and takes out one entry |
| `WritableGot.RemoveKeepsApart` | src/client/auditclient/writablegot.c:178-199 | a removal keeps the ranges apart |
| `WritableGot.BisectIsScan` | src/client/auditclient/writablegot.c:225-252 | on disjoint ranges in order, the bisection finds what a linear scan finds, and the same one |
| `WritableGot.BisectCanMiss` | src/client/auditclient/writablegot.c:225-252 | on overlapping ranges it can miss one |
| `WritableGot.GotTable.MakeRoom` | src/client/auditclient/writablegot.c:77-91 | growing keeps the entries and leaves room for one more |
| `WritableGot.GotTable.Add` | src/client/auditclient/writablegot.c:149-176 | the in-place shift inserts at the sorted place, or refuses a known start and leaves the shifted table |
| `WritableGot.GotTable.Remove` | src/client/auditclient/writablegot.c:178-199 | the first entry of the library goes and the rest closes up; nothing changes for an unknown library |
| `WritableGot.GotTable.Find` | src/client/auditclient/writablegot.c:225-252 | the search ends, with the entry a linear scan finds if the ranges are disjoint |
| `BindingHash.HashFunc` | src/client/client/intercept.c:78-87 | the 32-bit hash modulo 128, and none for a name over 20 characters |
| `BindingHash.HashOfOpen` | src/client/client/intercept.c:78-87 | the hash of one name and of one char above 127, in numbers |
| `BindingHash.InitBindingsHash` | src/client/client/intercept.c:89-109 | probing always ends, and every named binding can be reached from its home without crossing a free slot |
| `BindingHash.Lookup` | src/client/client/intercept.c:111-129 | for every string, the probe ends with the binding a linear scan of the named bindings finds |
| `CachePaths.DetermineValidCachePaths` | src/utils/parseloc.c:401-422 | the mask has the bits of the int shifts of the usable candidates; if none from the 32nd candidate on is usable, bit i is set if and only if candidate i is usable |
| `CachePaths.RightIffFew` | src/utils/parseloc.c:411-417 | the mask marks exactly the usable candidates, whichever they are, if and only if there are at most 31 |
| `CachePaths.GetValidCachePathByIndex` | src/utils/parseloc.c:442-453 | the lowest set bit, 31 for every higher one, or nothing for an empty mask |
| `CachePaths.AllPickTheSame` | src/server/auditserver/ldcs_audit_server_md_cobo.c:405-407 | in every run of numeric collectives, every node picks the first candidate that is usable on every node, if no node can use a candidate from the 32nd on |

## Left out

- `src/cobo/handshake.c`, `src/utils/keyfile.c`, socket set-up and time-outs: input and output and foreign cryptography.
- Error, end-of-file and sleep branches of `reliable_read` and `reliable_write`: the pipe is reliable.
- The daemon's own call of `demultiplex_read`, whose locks do nothing: the concurrent model covers the function.
- `demultiplex_poll`: only the daemon calls it, and it stashes a header as the readers do.
- Fairness: progress is proved as the existence of schedules, not for every schedule.
- `src/client/client/lookup.c`, the interception wrappers, the audit hooks and the launcher plugins: thin layers over libc, ld.so and process plumbing.
- Permissions (EACCES) and the kernel's own name-length limit in path resolution, and the growth of the `rname` and `link` buffers.
- `sheep_check` and the stamps of the CHECK build of sheep.
- Page rounding and `mprotect` in `markw`, and how a library's GOT range is found in its dynamic section.
- Sheep.Region.Malloc: requires a request whose 32-bit block size is that of a block; what the C code does with the others (see `Sheep.TooSmall`) is not modelled.
- HostParser.GetHostsParse: numbers are unbounded, so what `atoi` does beyond an int is not modelled.
- StaticTls.IdStrInjective: requires strings of fewer than 10^16 characters, for which the buffer is large enough.
- CachePaths.DetermineValidCachePaths: a shift by 31 or more, which C leaves open, takes the count modulo 32, as on x86.
- DemultiplexSchedules.SwallowThenAbort: requires at most 2^32 processes, since a message header names its target in 32 bits.
- BindingHash.HashFunc: a char is widened with its sign, as on x86.
