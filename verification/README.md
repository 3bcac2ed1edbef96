# Mach default pager and ext2 reader: a verified model

This project models two parts of the repository and proves what they are for: the default pager, which
keeps the pages of memory objects on paging devices, and the ext2 reader of the boot file systems. Two
loops of the bootstrap loader are modelled beside them.

## What is modelled

* `VsProtocol` is the request protocol of one memory object as a state machine: sequence-number turns,
  reader, writer and asynchronous-write counters, one wait set for each condition variable, the message
  handlers and the device replies. One step is what one thread does between two points where another
  can run. Sequence numbers wrap at 32 bits. Proved over every run: no stale reads, no lost wakeups, no
  deadlock, quiet termination, that all work drains, and that every byte of a data return is sent, or
  given back after an error.
* `Bitmap`, `Segment` and `SegmentTable` are the cluster allocator: the bitmap, the reservation that is
  taken first and searched for later, the hint, and the choice of a segment by priority.
* `ClusterMap` is the direct or two-level map of an object, in memory and growing in place, against the
  flat sequence of entries that it represents.
* `Ownership` puts all segments and all maps together. Any number of objects and threads reserve,
  install, complete, fail, unmap and free in any order; every cluster in use has exactly one owner, and
  the one step that can break this is characterised exactly.
* `Device` and `Transfers` are the addresses of pages on a device, and the loops around `device_read` and
  `device_write`, in bytes: any number of bytes may move each time.
* `PageStore`, `Writing`, `Reading` and `Paging` are the paging paths. The history of a pager is the list
  of the transfers that have finished; the class invariant of `Paging.Pager` says that for every object
  and every page the store holds exactly what that history says. Writes, reads, device replies in any
  order, failures after part of a transfer, creations and removals of objects, and new segments keep
  it, but for the writes described below, whose exact condition is given.
* `PageRuns` takes the same store apart into single moves, which interleave in any order: a step of a
  map, the start and the end of a device write, a failure, and the three parts of reading a run of
  pages, namely finding it, the device read, and the supply. Reads keep the bytes they have received, so
  that writes of the same object, their failures and other reads may come between the parts. Proved
  are the exact condition under which a move keeps the store true to its history, the exact condition
  under which it leaves a read in progress right, and both over whole runs.
* `Witnesses` builds runs from an empty pager to the five kinds of damage that the code can do: a
  cluster that is lost, an error code that is freed as a cluster number, a page of one object that a
  write of another overwrites, a page that holds bytes never written to it, and a cluster that is freed
  under a page.
* `Kalloc` is the power-of-two allocator below, with its free lists threaded through memory and the
  growing space behind them; again one step is one critical section of one thread.
* `Ext2Map`, `Ext2Read` and `Ext2Path` are the block map with its kept index blocks, the reading of
  file ranges, and path lookup with symbolic links in the name buffer. The references are the list of
  all blocks of a file, the bytes of those blocks, and a recursive resolver on strings.
* `Queue`, `Partition` and `Elf` are the intrusive queue, the split of servers from data requests, and
  the packing of the symbol table. `Arithmetic`, `Totals` and `Wrappers` hold shared lemmas and types.

## Assumptions and where the code departs from its comments

* Messages reach the handlers' threads in sequence order of their numbers, as the message server
  guarantees, and the kernel sends init before the first request of an external object and no-senders
  after a terminate.
* `vs_object_name` is never set, so the wait for name references never sleeps.
* After an object is freed a thread may still owe a broadcast on one of its condition variables:
  `vs_unlock` and the finish calls broadcast after they release the mutex.
* `BS_FULLPRI` (-2) is not skipped by the scan, which then reads `paging_segments[-1]`. The model makes
  this an outcome of its own, `Fault`, and `SegmentTable.FaultsExactly` says when it happens.
* The compiled-out assertion that `ps_clcount` is not zero after a reservation is not an invariant and
  is not used.
* A failed write gives its cluster back unless the cluster is number 0, which is lost
  (`Ownership.LeaksExactly`).
* The rest of a failed request is answered by one call of `vs_cl_write_complete`
  (`dp_backing_store.c:2339-2346`), which also puts an entry in error that no write has reached, and
  `ps_clunmap` (`dp_backing_store.c:1582-1649`) has no test for an entry in error. When a read that has
  found pages in such an entry unmaps the last of them, `ps_deallocate_cluster` gets the error code as
  a cluster number. `Ownership.StepExactly` says when this does harm, and `Witnesses.ErrorCodeIsFreed`
  is a run in which it frees a cluster of another object. A code that is no cluster number of the
  segment makes `ps_deallocate_cluster` panic, and the run ends there.
* A failed write frees its cluster although another write to the same cluster may be outstanding; so
  may the supply of a page that is being written. `PageStore.RefusedCurrent` and
  `PageStore.ForgottenCurrent` say exactly when a write loses its cluster like this. What its end does
  then is in `PageStore.ArriveContents`. It may overwrite pages of other objects, also when it fails,
  since a device write that fails may have written some pages; and if its entry has been given another
  cluster, its success makes pages valid there, allocated or not, whose bytes are not the data. The
  history stays true exactly if the end is harmless (`PageStore.ArriveExactly`), and
  `Witnesses.PageIsOverwritten` and `Witnesses.PageIsAstray` are runs in which it is not.
* `ps_clunmap` frees the cluster of an entry when no allocated page is left in it. A page that has become
  valid without being allocated is then lost (`PageStore.ForgottenExactly`,
  `Witnesses.PageIsStranded`).
* A device reply that fails, and a write that finds no space, put only the cluster of the first page
  in error; the data of all the pages goes back to the kernel.
* The retry of a short synchronous `device_write` passes the full size again. If it moves more than what
  is left, the count of what is left wraps and the loop writes on behind the chunk until the device
  fails (`Transfers.WriteDevice`, `Transfers.Overrun`). A failed synchronous write may therefore have
  changed pages behind its chunk, which `PageStore.Outcome` allows; `Paging.Pager.Send` and `PageRuns`
  say exactly when that does harm.
* `ps_read_device` reports device errors as a short count, and after a short answer goes on at a record
  boundary, so that an answer that ends inside a record is followed by bytes already read
  (`Transfers.RecordAgain`). A short read is zero-filled with the wrong mask: one page is answered with
  an error if the number of whole pages that are missing is odd, and otherwise all are supplied.
  `Transfers.ShortReadExactly` says when zeros are supplied for bytes that were not read, and
  `Reading.RunGenuineExactly` when that matters. A round ends `vs_cluster_read` when its read brings
  nothing or leaves out an odd number of whole pages, and the rest of the range then gets no reply;
  `Reading.CoverageExactly` says when the whole range is answered.
* A read in progress can be overtaken by a later write of the same object, which `vs_unlock` lets
  start before the read has ended. What it supplies is then still what was last written unless an
  event of the kind in `PageRuns.StaysFreshExactly` falls on its pages.
* An object is destroyed with no transfer of it in progress, which `VsProtocol` proves of the
  handlers.
* Every segment and every object uses the one global cluster size, and the record size belongs to the
  device.
* `kalloc_next_space + size` does not wrap, a word is 4 bytes, and `vm_map` and `vm_allocate` return
  whole pages that are used for nothing.
* A failed read of a data block of an ext2 file leaves a block number without a buffer, so that a later
  read that comes to that block through the buffer goes wrong; `Ext2Read.Reader.ReadFile` says exactly
  which reads do.
* A hole that is wanted whole at an aligned place is delivered whole, before the cut at the end of the
  file (`ext2fs.c:564-568`). So zeros behind the end of a file can be delivered, and a read that reaches
  behind the end can succeed; `Ext2Read.BeyondExactly` and `Ext2Read.AllExactly` say when.
* Disk block numbers are not negative; the index view and the data view of the ext2 device are given
  separately. The little-endian build is meant.
* Component names of 256 characters pass the length test of path lookup, one more than `MAXNAMLEN`.
* The shift of the partition loop reads one element past the array when nothing has been moved yet; the
  model leaves that copy out, since its target is overwritten at once.

## Model

| member | source | states |
|---|---|---|
| `VsProtocol.StepKeepsInv` | app/src/main/cpp/src/kernel/src/default_pager/dp_memory_object.c:89-259 | Every step of every thread, and every message the kernel may send, keeps the invariant of one memory object: one mutex owner, counters equal to the threads they count, one handler per message, no lost wakeup, no stale read |
| `VsProtocol.ReadsSeeEarlierWrites` | app/src/main/cpp/src/kernel/src/default_pager/dp_memory_object.c:89-97 | No stale reads, in any interleaving: while a data request is reading, every data return sent before it has finished and none of its asynchronous device writes is outstanding |
| `VsProtocol.ReadStartsQuiet` | app/src/main/cpp/src/kernel/src/default_pager/dp_memory_object.c:657-689 | At the instant a data request starts reading no write of any number is in progress, and the request has the turn |
| `VsProtocol.CountersOnlyFall` | app/src/main/cpp/src/kernel/src/default_pager/dp_memory_object.c:163-235 | While the thread that has the turn waits, no step of another adds a reader or a writer, and once there is no writer none adds an asynchronous write |
| `VsProtocol.TerminateAndFreeAreQuiet` | app/src/main/cpp/src/kernel/src/default_pager/dp_memory_object.c:533-595 | The control port is cleared with no reader, no writer and no asynchronous write left, it stays that way while the port is null, and neither fatal branch is taken |
| `VsProtocol.FreedObjectIsQuiet` | app/src/main/cpp/src/kernel/src/default_pager/dp_memory_object.c:600-655 | Once an object is freed no thread works on it: what a thread may still owe is a broadcast on one of its condition variables |
| `VsProtocol.RefsAreBounded` | app/src/main/cpp/src/kernel/src/default_pager/dp_memory_object.c:308-334 | In every reachable state the references to the control port number between 1 and default_pager_max_urefs while there is a port, and none is left when it is cleared |
| `VsProtocol.SomeoneIsAwake` | app/src/main/cpp/src/kernel/src/default_pager/dp_memory_object.c:107-235 | No lost wakeup: unless every thread is done, some thread is neither done nor asleep, since a sleeper whose condition holds has a broadcast still to come |
| `VsProtocol.Progress` | app/src/main/cpp/src/kernel/src/default_pager/dp_memory_object.c:107-259 | No deadlock: as long as a thread has work left some thread can take a step that does not give anything up, without another message, when messages come in order and device writes complete |
| `VsProtocol.Drain` | app/src/main/cpp/src/kernel/src/default_pager/dp_memory_object.c:152-235 | Under every scheduler the threads finish, and the state they finish in satisfies the invariant; `VsProtocol.DrainedHasSent` says that all data has then been sent |
| `VsProtocol.DrainedIsQuiet` | app/src/main/cpp/src/kernel/src/default_pager/dp_memory_object.c:107-235 | When all threads are done all counters are zero, nobody owns the mutex, and every message has had its turn |
| `VsProtocol.NextDescends` | app/src/main/cpp/src/kernel/src/default_pager/dp_backing_store.c:1740-1750 | Every step of a thread, device replies included, brings the object nearer to being done: total work falls, or stays while the number of retests falls |
| `VsProtocol.BytesAreTiled` | app/src/main/cpp/src/kernel/src/default_pager/dp_backing_store.c:2284-2347 | In every reachable state, for every data return that has given up its turn: bytes sent asynchronously, sent synchronously, given back after an error and still left add up to the bytes it was delivered with |
| `VsProtocol.AnyPieceCanBeSent` | app/src/main/cpp/src/kernel/src/default_pager/dp_backing_store.c:2302-2325 | As soon as a data return has given up its turn it can send a first piece of any size up to all its bytes: vs_async_pending grows by just that size, one device reply is outstanding for it, and the rest is left to be sent |
| `VsProtocol.DrainedHasSent` | app/src/main/cpp/src/kernel/src/default_pager/dp_backing_store.c:2284-2347 | Over every run to the end, the asynchronous pieces, the synchronous ones and what was given back after an error add up to the bytes of the data return |
| `VsProtocol.DrainSends` | app/src/main/cpp/src/kernel/src/default_pager/dp_memory_object.c:866-882 | From any reachable state, however threads are scheduled, a data return that no error makes give up sends every byte it was delivered with |
| `VsProtocol.AllBytesAreSent` | app/src/main/cpp/src/kernel/src/default_pager/dp_memory_object.c:866-882 | A run of a new object in which a data return of any length sends a first piece of any size asynchronously and the rest synchronously, and everything ends with no asynchronous write outstanding |
| `Bitmap.BitsOfByte` | app/src/main/cpp/src/kernel/src/default_pager/default_pager_internal.h:234-239 | setbit and clrbit change exactly the named bit of a byte |
| `Segment.SearchSucceeds` | app/src/main/cpp/src/kernel/src/default_pager/dp_backing_store.c:1129-1156 | A reservation is always honoured: with ps_ncls = ps_clcount + reservations + set bits and full bytes below the hint, the search finds the lowest free cluster, below ps_ncls though the last byte ends in arbitrary bits, and keeps both facts |
| `Segment.FreeKeepsInv` | app/src/main/cpp/src/kernel/src/default_pager/dp_backing_store.c:1170-1186 | Freeing a cluster in use clears its bit and no other, and keeps the count and the hint right |
| `Segment.FreshSegment` | app/src/main/cpp/src/kernel/src/default_pager/dp_backing_store.c:713-740 | A new segment satisfies the invariant whatever its bitmap held after the last cluster |
| `Segment.FirstClearIs` | app/src/main/cpp/src/kernel/src/default_pager/dp_backing_store.c:1134-1147 | Skipping full bytes from the hint and then set bits stops at the first clear bit of the segment |
| `Segment.PagingSegment.constructor` | app/src/main/cpp/src/kernel/src/default_pager/dp_backing_store.c:713-740 | Clearing one bit per cluster leaves the bits after the last cluster as they were |
| `Segment.PagingSegment.FindFree` | app/src/main/cpp/src/kernel/src/default_pager/dp_backing_store.c:1129-1156 | The in-place search and set: the new segment is the old one with its lowest free cluster taken and the hint at its byte |
| `Segment.PagingSegment.Deallocate` | app/src/main/cpp/src/kernel/src/default_pager/dp_backing_store.c:1170-1186 | The in-place release: one bit clear, one more free cluster, the hint lowered if need be |
| `SegmentTable.SelectionIsBest` | app/src/main/cpp/src/kernel/src/default_pager/dp_backing_store.c:1001-1089 | Unless the scan faults: a null answer means no segment of any priority was open, a chosen one is open with none open at a higher priority, and the table stays well formed |
| `SegmentTable.FaultsExactly` | app/src/main/cpp/src/kernel/src/default_pager/dp_backing_store.c:1043-1055 | The scan reads paging_segments[-1] exactly when two or more segments exist and some priority is marked BS_FULLPRI with nothing open above it |
| `SegmentTable.FaultIsReached` | app/src/main/cpp/src/kernel/src/default_pager/dp_backing_store.c:1043-1085 | A run of an empty table that ends in the read of paging_segments[-1]: two segments of one cluster are entered, both clusters are taken, the next request finds no space and the one after it faults |
| `SegmentTable.FastPathAgrees` | app/src/main/cpp/src/kernel/src/default_pager/dp_backing_store.c:1011-1036 | The one-segment path gives the answer and the free count that the general scan would give |
| `SegmentTable.SecondFailureFaults` | app/src/main/cpp/src/kernel/src/default_pager/dp_backing_store.c:1043-1085 | After a scan of several segments that finds nothing, the next call faults |
| `SegmentTable.FreedIsServed` | app/src/main/cpp/src/kernel/src/default_pager/dp_backing_store.c:1188-1194 | Freeing a cluster opens its own priority only: the next scan serves that priority or a higher one, or else faults, and it faults exactly when two or more segments exist and a higher priority is marked full with nothing open above it |
| `SegmentTable.SelectionKeepsInv` | app/src/main/cpp/src/kernel/src/default_pager/dp_backing_store.c:1001-1089 | Whatever a selection answers, a fault included, the table it leaves is well formed, with the same maximum and count |
| `SegmentTable.EnterKeepsInv` | app/src/main/cpp/src/kernel/src/default_pager/dp_backing_store.c:643-671 | Entering a segment keeps paging_segment_max and paging_segment_count right |
| `SegmentTable.NewSpaceBehindFull` | app/src/main/cpp/src/kernel/src/default_pager/dp_backing_store.c:657-663 | A segment entered at a priority marked full does not reopen it: the next scan that reaches it faults |
| `SegmentTable.PagingSegments.Select` | app/src/main/cpp/src/kernel/src/default_pager/dp_backing_store.c:1001-1089 | The imperative selection: its answer and the table after it are those specified, the table is ready for the next call, and exactly the chosen segment has one more reservation |
| `SegmentTable.PagingSegments.ScanPriority` | app/src/main/cpp/src/kernel/src/default_pager/dp_backing_store.c:1049-1085 | The round-robin inner loop ends having visited indices 0 to paging_segment_max in order from start + 1, and stops at the first eligible segment |
| `SegmentTable.TurnIsRoundRobin` | app/src/main/cpp/src/kernel/src/default_pager/dp_backing_store.c:1049-1085 | The order of the scan: the successor of the last choice comes first, each index is followed by its successor and the last one by index 0, and the last choice itself comes last |
| `SegmentTable.PagingSegments.Enter` | app/src/main/cpp/src/kernel/src/default_pager/dp_backing_store.c:643-671 | Fails exactly when all slots are taken, and otherwise uses the first free one |
| `SegmentTable.PagingSegments.Deallocate` | app/src/main/cpp/src/kernel/src/default_pager/dp_backing_store.c:1158-1197 | Both effects of freeing a cluster, in the segment and in the table: the bit, the count and the hint, and the priority opened again, so that FreedIsServed applies; everything stays valid |
| `SegmentTable.PagingSegments.Reopen` | app/src/main/cpp/src/kernel/src/default_pager/dp_backing_store.c:1188-1194 | BS_FULLPRI of that priority is replaced by 0 and no other element of the array changes |
| `ClusterMap.ClusterNumberFits` | app/src/main/cpp/src/kernel/src/default_pager/default_pager_internal.h:377-394 | A cluster number survives its 23-bit field as a mapping exactly when it is below the null value |
| `ClusterMap.Map.constructor` | app/src/main/cpp/src/kernel/src/default_pager/dp_backing_store.c:953-994 | A new map of either shape represents n clear entries |
| `ClusterMap.Map.Extend` | app/src/main/cpp/src/kernel/src/default_pager/dp_backing_store.c:1261-1368 | Growing succeeds exactly when the allocations that its branch makes succeed; it keeps every entry, makes every new one clear, changes nothing when an allocation fails, commits the difference, and frees the old map with the size it was allocated with, also after the same-size shortcut |
| `ClusterMap.Map.Locate` | app/src/main/cpp/src/kernel/src/default_pager/dp_backing_store.c:1410-1450 | The two-level lookup finds the entry of the flat map, and allocating a block changes no entry |
| `ClusterMap.Map.Store` | app/src/main/cpp/src/kernel/src/default_pager/dp_backing_store.c:1448-1488 | Writing through the located entry changes that entry of the flat map and no other |
| `ClusterMap.Map.Release` | app/src/main/cpp/src/kernel/src/default_pager/dp_backing_store.c:1200-1248 | Deallocation gives back, in order, exactly the clusters that the mapped entries of the flat map hold |
| `ClusterMap.HeldExactly` | app/src/main/cpp/src/kernel/src/default_pager/dp_backing_store.c:1202-1211 | The clusters that a map holds are the segments and cluster numbers of its mapped entries and no others: neither those of clear entries nor error codes |
| `ClusterMap.HeldConcat` | app/src/main/cpp/src/kernel/src/default_pager/dp_backing_store.c:1200-1210 | The clusters held by a map are those held by its blocks, one after another |
| `Ownership.ClustersAreOwned` | app/src/main/cpp/src/kernel/src/default_pager/dp_backing_store.c:1093-1257 | After every sound run no two entries of any objects share a cluster, the bit of every mapped cluster is set, every set bit is that of a mapped entry or of a lost cluster 0, and clusters_committed is the total of all sizes |
| `Ownership.StepExactly` | app/src/main/cpp/src/kernel/src/default_pager/dp_backing_store.c:1093-1257 | A critical section, of any object and any thread, keeps the ownership of clusters exactly if it is sound: it does not take the last pages from an entry in error whose error code is then freed as a cluster number, unless that number is a lost cluster. A completion may set the valid bit of any page of the cluster, allocated or not |
| `Ownership.RunKeepsWorld` | app/src/main/cpp/src/kernel/src/default_pager/dp_backing_store.c:1093-1257 | Over a whole run, from any state that satisfies the invariant: it holds at the end exactly if every step was sound |
| `Ownership.UnsoundStep` | app/src/main/cpp/src/kernel/src/default_pager/dp_backing_store.c:1628-1643 | What an unsound step does: the cluster whose number is the error code was that of another entry, which is still mapped to it with the bit now clear, or it was free and is counted twice |
| `Ownership.StepKeepsWorld` | app/src/main/cpp/src/kernel/src/default_pager/dp_backing_store.c:1093-1257 | Every sound critical section of any object and any thread keeps the ownership of clusters |
| `Ownership.InstallFindsFreeCluster` | app/src/main/cpp/src/kernel/src/default_pager/dp_backing_store.c:1103-1156 | A thread that has reserved a cluster finds one that nobody owns, whatever all other threads did since |
| `Ownership.LeaksExactly` | app/src/main/cpp/src/kernel/src/default_pager/dp_backing_store.c:1551-1563 | A cluster is lost exactly by a failed write whose cluster is number 0 |
| `Ownership.FailRecords` | app/src/main/cpp/src/kernel/src/default_pager/dp_backing_store.c:1457-1563 | A failed write leaves its error, in 23 bits, in a mapped entry or in a clear one whose block is there, and changes nothing else of it; an entry in error keeps the error it has |
| `Ownership.ErrorStaysOverRun` | app/src/main/cpp/src/kernel/src/default_pager/dp_backing_store.c:1457-1460 | An error stays in its entry over any run that does not unmap, release or remove it, whatever other steps are taken, installations and failures in the same entry included |
| `Witnesses.ClusterIsLost` | app/src/main/cpp/src/kernel/src/default_pager/dp_backing_store.c:1551-1563 | A run from an empty pager after which cluster 0 is marked in use and no entry of any object is mapped to it |
| `Witnesses.ErrorCodeIsFreed` | app/src/main/cpp/src/kernel/src/default_pager/dp_backing_store.c:2339-2346 | A run from an empty pager in which a page has been written, found and read, the rest of a failed request then puts PAGER_ERROR into its entry, and the supply frees cluster 2, which another object still has |
| `Ownership.MappedClusterInUse` | app/src/main/cpp/src/kernel/src/default_pager/dp_backing_store.c:1457-1490 | The cluster of a mapped entry is in range, in use, and owned by that entry |
| `Device.CarvedSegmentFits` | app/src/main/cpp/src/kernel/src/default_pager/dp_backing_store.c:713-725 | The clusters computed for a new segment fit in its records, whatever the record count |
| `Device.PagesAreContiguous` | app/src/main/cpp/src/kernel/src/default_pager/dp_backing_store.c:1871-1874 | Shifting a page offset into records loses nothing, so the pages of a transfer follow one another on the device |
| `Device.ShiftIsQuotient` | app/src/main/cpp/src/kernel/src/default_pager/dp_backing_store.c:1871-1872 | The shift of an offset that is no multiple is its quotient |
| `Device.PagesApart` | app/src/main/cpp/src/kernel/src/default_pager/dp_backing_store.c:691-708 | Different pages of a segment, and pages of segments that passed the overlap test, share no byte of a device |
| `Device.OverlapIsShared` | app/src/main/cpp/src/kernel/src/default_pager/dp_backing_store.c:697-702 | The overlap test is true of two segments that are not empty exactly if they share a record of a device |
| `Device.WriteSeen` | app/src/main/cpp/src/kernel/src/default_pager/dp_backing_store.c:1941-1944 | A write of several pages is seen by exactly the pages it names |
| `PageStore.ArriveContents` | app/src/main/cpp/src/kernel/src/default_pager/dp_backing_store.c:1755-1785 | What the end of a device write does to every page of every object, whether it succeeds or fails part of the way or runs past its chunk, and whatever has become of its cluster and its entry: pages that lie where it wrote hold what it wrote, and all others what is in their place |
| `PageStore.CurrentArrival` | app/src/main/cpp/src/kernel/src/default_pager/dp_backing_store.c:1530-1565 | While the cluster of the request is still its own, a success replaces the bytes of its pages and of no other page, and a failure takes the pages of its first cluster away and no other page, whatever a failed transfer left in the chunk |
| `PageStore.CurrentIsHarmless` | app/src/main/cpp/src/kernel/src/default_pager/dp_backing_store.c:1530-1565 | Such an end harms no page and makes no page valid that is not allocated |
| `PageStore.RefusedContents` | app/src/main/cpp/src/kernel/src/default_pager/dp_backing_store.c:1530-1565 | A failed write takes all pages of its first cluster with it, and no page besides |
| `PageStore.ForgottenContents` | app/src/main/cpp/src/kernel/src/default_pager/dp_backing_store.c:1582-1649 | Unmapping supplied pages removes exactly those pages, though their cluster may be freed, with any writes of the object outstanding; only when the cluster is freed under a page that was valid without being allocated does that page go too |
| `PageStore.ForgottenExactly` | app/src/main/cpp/src/kernel/src/default_pager/dp_backing_store.c:1628-1643 | Unmapping keeps the history true exactly if no valid page is left in an entry whose last allocated pages are unmapped |
| `PageStore.QuietlyKeepsStore` | app/src/main/cpp/src/kernel/src/default_pager/dp_backing_store.c:1387-1492 | Growing a map, allocating a cluster and marking pages change the contents of no page |
| `PageStore.QuietlyKeepsCurrent` | app/src/main/cpp/src/kernel/src/default_pager/dp_backing_store.c:1387-1492 | These steps take no cluster away from an outstanding write |
| `PageStore.RefusedCurrent` | app/src/main/cpp/src/kernel/src/default_pager/dp_backing_store.c:1551-1563 | A failed write takes the cluster of an outstanding write away exactly when it is to the same cluster |
| `PageStore.ForgottenCurrent` | app/src/main/cpp/src/kernel/src/default_pager/dp_backing_store.c:1582-1649 | Unmapping supplied pages makes an outstanding write lose its cluster exactly when one of its own pages is among them |
| `PageStore.ArriveExactly` | app/src/main/cpp/src/kernel/src/default_pager/dp_backing_store.c:1753-1785 | The end of any write, success or failure, keeps the history true exactly if it is harmless: every page it makes valid lies in the cluster that was written or where the same bytes are already, and every other page that lies where the device wrote holds just those bytes |
| `PageStore.MisplacedArrival` | app/src/main/cpp/src/kernel/src/default_pager/dp_backing_store.c:1530-1550 | When the success of a write finds a new cluster in its entry, its pages become valid with whatever bytes that cluster holds; and every valid page is allocated afterwards exactly if these were |
| `Witnesses.PageIsOverwritten` | app/src/main/cpp/src/kernel/src/default_pager/dp_backing_store.c:1755-1785 | A run from an empty pager in which a write that has lost its cluster reaches the device and replaces the page of another object |
| `Witnesses.PageIsAstray` | app/src/main/cpp/src/kernel/src/default_pager/dp_backing_store.c:1530-1550 | A run from an empty pager in which a write succeeds after its entry has been given another cluster, and the page then holds a byte that was never written to it |
| `Witnesses.PageIsStranded` | app/src/main/cpp/src/kernel/src/default_pager/dp_backing_store.c:1628-1643 | A run in which such a success is harmless but its page is not allocated, and the supply of another page of the entry frees the cluster under it |
| `PageStore.NothingPending` | app/src/main/cpp/src/kernel/src/default_pager/dp_backing_store.c:1740-1750 | vs_async_pending is the sum of the outstanding asynchronous requests: at zero there is none, and otherwise there is one |
| `PageStore.LastWritten` | app/src/main/cpp/src/kernel/src/default_pager/dp_memory_object.c:89-97 | The abstract store holds some bytes for a page exactly when the last event that concerned the page is that these bytes landed |
| `Transfers.ReadDevice` | app/src/main/cpp/src/kernel/src/default_pager/dp_backing_store.c:1852-1922 | The loop ends, whatever the device gives each time: the buffer is the pieces one after another, each from the record boundary at or below the end of the one before, and the residual is what is missing |
| `Transfers.RecordsInOrder` | app/src/main/cpp/src/kernel/src/default_pager/dp_backing_store.c:1877-1917 | The buffer holds what lies on the device from the first byte on, if every piece that is followed by another is a number of whole records |
| `Transfers.RecordsExactly` | app/src/main/cpp/src/kernel/src/default_pager/dp_backing_store.c:1877-1917 | The buffer holds what lies on the device, on every disk, exactly if every piece that is followed by another is a number of whole records |
| `Transfers.RecordAgain` | app/src/main/cpp/src/kernel/src/default_pager/dp_backing_store.c:1905-1911 | A piece that ends inside a record is followed by the bytes of that record from its beginning again |
| `Transfers.WriteDevice` | app/src/main/cpp/src/kernel/src/default_pager/dp_backing_store.c:1977-2011 | The synchronous loop succeeds only when the bytes reported are the size, or at least 2^32 more; it goes on for any other count, ends with an error of the device, and panics on part of a record |
| `Transfers.Overrun` | app/src/main/cpp/src/kernel/src/default_pager/dp_backing_store.c:1977-2009 | Once more bytes than the size have been written the loop does not succeed before another 2^32 bytes: it goes on behind the chunk |
| `Transfers.ShortReadExactly` | app/src/main/cpp/src/kernel/src/default_pager/dp_backing_store.c:2190-2216 | For any residual, what is supplied of a short read is whole pages, and the mask is right exactly when nothing or just one page is missing; otherwise zeros are supplied for bytes that were not read |
| `Transfers.RightExactly` | app/src/main/cpp/src/kernel/src/default_pager/dp_backing_store.c:2140-2237 | What a read supplies is right whatever the device holds exactly if its pieces are whole records and it is complete, brings nothing, or leaves out just one page |
| `Paging.Pager.Write` | app/src/main/cpp/src/kernel/src/default_pager/dp_backing_store.c:2260-2347 | Every page of the request is handled by exactly one event, in order; exactly the queued ones have a request outstanding, and every request that the call has queued goes to a cluster that its entry of the map still has at the end of the call; each failure is explained; and the contents of all pages are what the history of transfers says, if no retry has run past its chunk |
| `Paging.Pager.Claim` | app/src/main/cpp/src/kernel/src/default_pager/dp_backing_store.c:1370-1517 | Exactly when ps_clmap gives a cluster for writing: the entry then has the pages of the chunk allocated besides those it had, in the cluster it had or else in the first free one of the chosen segment; no other entry changes, those that the map gains are clear, and no page of any object changes |
| `Paging.Pager.Send` | app/src/main/cpp/src/kernel/src/default_pager/dp_backing_store.c:2292-2337 | A chunk is written, queued or failed as the device allows, with one event for it; a queued request carries the data to the cluster that the entry of its pages has; a failed write puts its error in the entry and may have changed any pages from the first on, and a synchronous one also pages behind the chunk; the history stays true exactly if that harms no page |
| `Paging.Pager.Reply` | app/src/main/cpp/src/kernel/src/default_pager/dp_backing_store.c:1753-1785 | Any outstanding request may finish next, with any part of it written if it fails: the class invariant is kept exactly if the write is harmless and the pages it makes valid are allocated, as they are while its cluster is still its own |
| `Paging.Pager.Read` | app/src/main/cpp/src/kernel/src/default_pager/dp_backing_store.c:2050-2256 | With any writes outstanding and any bytes from the device: the replies tile the pages reached in order, and how many are reached is exact; the whole range is reached exactly if no round but the last stops; a page without data is answered with an error exactly if its entry records one, and unavailable otherwise; each reply is right about what the store held if every device read is complete, brings nothing or leaves out just one page; no page outside the range changes, and writes to other pages keep their clusters; the loop ends |
| `Paging.Pager.CountRun` | app/src/main/cpp/src/kernel/src/default_pager/dp_backing_store.c:2116-2138 | The run that is counted is all present or all absent and cannot be longer |
| `Paging.Pager.ReadRound` | app/src/main/cpp/src/kernel/src/default_pager/dp_backing_store.c:2078-2254 | One round answers for the longest run of pages of one cluster that are all present or all absent, with an error exactly if the cluster records one, and ends the read exactly when the pages are present and the device brings nothing or leaves out an odd number of whole pages |
| `Reading.FailedIsAnswered` | app/src/main/cpp/src/kernel/src/default_pager/dp_backing_store.c:2098-2109 | After a failed write whose error is recorded, every page of that cluster is answered with an error, unless the code is 0 in 23 bits, and then unavailable |
| `Reading.CleanIsAnswered` | app/src/main/cpp/src/kernel/src/default_pager/dp_backing_store.c:2098-2114 | A page whose entry is mapped or clear, or missing, is answered unavailable exactly if it is not there, and never with an error but after a short read |
| `Paging.Pager.Destroy` | app/src/main/cpp/src/kernel/src/default_pager/dp_backing_store.c:1213-1257 | Every cluster the object owned is given back and no page of another object changes |
| `Paging.Pager.AddSegment` | app/src/main/cpp/src/kernel/src/default_pager/dp_backing_store.c:674-746 | A segment is refused exactly when it overlaps one of the same device; adding one changes no page |
| `Paging.Pager.Create` | app/src/main/cpp/src/kernel/src/default_pager/dp_backing_store.c:918-994 | A new object holds no page and changes none |
| `Reading.CoverageExactly` | app/src/main/cpp/src/kernel/src/default_pager/dp_backing_store.c:2142-2254 | A read answers for its whole range exactly if no round but the last stops it |
| `Reading.SuppliedIsLastWritten` | app/src/main/cpp/src/kernel/src/default_pager/dp_backing_store.c:2016-2048 | What is supplied for a page is what was last written to it since it was last supplied |
| `Reading.GoodData` | app/src/main/cpp/src/kernel/src/default_pager/dp_backing_store.c:1877-1919 | Every page that is supplied is what the device holds, if the read is complete, brings nothing, or leaves out just one page |
| `Reading.RunGenuineExactly` | app/src/main/cpp/src/kernel/src/default_pager/dp_backing_store.c:2190-2216 | Of any other read in whole records, the data that is supplied is right exactly if the store holds zeros wherever the read did not reach |
| `PageRuns.PagesHoldLastWritten` | app/src/main/cpp/src/kernel/src/default_pager/dp_backing_store.c:1678-1751 | The pager is a page store over every interleaving of chunks of any requests, reads and writes of one object included, as long as every move is careful: a page holds some bytes exactly when the last event that concerned it is that these bytes landed |
| `PageRuns.RunExactly` | app/src/main/cpp/src/kernel/src/default_pager/dp_backing_store.c:1370-1647 | Over any run, the store is in order and true to its history at the end exactly if every move was careful |
| `PageRuns.MoveExactly` | app/src/main/cpp/src/kernel/src/default_pager/dp_backing_store.c:1370-1647 | A map operation, start or end of a device write, failure, part of a read, creation or removal of an object, or new segment keeps the store and its agreement with the history exactly if it is careful: the end of a write harms no page, and a supply frees neither an error code nor a cluster under a page |
| `PageRuns.FoundIsFresh` | app/src/main/cpp/src/kernel/src/default_pager/dp_backing_store.c:2100-2138 | The run of pages that a read finds lies where the read will look for it |
| `PageRuns.ReadIsFresh` | app/src/main/cpp/src/kernel/src/default_pager/dp_backing_store.c:1877-1919 | If the pages still lie there, the device read brings what the store holds, when it is complete, brings nothing, or leaves out just one page |
| `PageRuns.PageReadExactly` | app/src/main/cpp/src/kernel/src/default_pager/dp_backing_store.c:2190-2216 | Any other read in whole records brings a page right exactly if the page has zeros wherever the read did not reach |
| `PageRuns.StaysFreshExactly` | app/src/main/cpp/src/kernel/src/default_pager/dp_backing_store.c:2100-2216 | Between the finding, the device read and the supply, a move of any request leaves the read right exactly if it does not concern its pages, or writes them before the device read or with the same bytes |
| `PageRuns.UndisturbedStaysFresh` | app/src/main/cpp/src/kernel/src/default_pager/dp_backing_store.c:2100-2216 | So a read that nothing disturbs in this sense is right at its end, after any number of moves of other requests |
| `PageRuns.SuppliesLastWritten` | app/src/main/cpp/src/kernel/src/default_pager/dp_memory_object.c:89-97 | And what it then supplies is what was last written |
| `PageRuns.Misread` | app/src/main/cpp/src/kernel/src/default_pager/dp_backing_store.c:1877-1919 | If its cluster has meanwhile been given to another page, what the device read brings is that page |
| `Kalloc.StepKeepsHeap` | app/src/main/cpp/src/kernel/src/default_pager/kalloc.c:195-332 | Every critical section of any thread, and every store into a live block, keeps the heap: blocks apart, lists intact |
| `Kalloc.BlocksDisjoint` | app/src/main/cpp/src/kernel/src/default_pager/kalloc.c:195-332 | In every reachable heap live blocks, free blocks and the uncut space share no byte, and every block is at a nonzero multiple of 4 |
| `Kalloc.FreeBlocksDisjoint` | app/src/main/cpp/src/kernel/src/default_pager/kalloc.c:195-332 | Blocks on the free lists are apart, on the same list or on different ones |
| `Kalloc.WalkVisits` | app/src/main/cpp/src/kernel/src/default_pager/kalloc.c:288-292 | Following the links in memory visits the blocks of a list once each and ends |
| `Kalloc.FreeThenAlloc` | app/src/main/cpp/src/kernel/src/default_pager/kalloc.c:288-328 | A freed block is the next of its class to be handed out, and the lists are then as before |
| `Kalloc.BlocksMakePorts` | app/src/main/cpp/src/kernel/src/default_pager/default_pager_internal.h:567-576 | port_to_vs(vs_to_port(p)) is p for every block ever handed out |
| `Kalloc.PortsExactly` | app/src/main/cpp/src/kernel/src/default_pager/default_pager_internal.h:574-576 | The port alias gives an address back exactly when the address is a multiple of 4 |
| `Kalloc.Allocator.SizeClass` | app/src/main/cpp/src/kernel/src/default_pager/kalloc.c:273-281 | The size loop finds the smallest class that is large enough, and its list is inside the array |
| `Kalloc.Allocator.GetSpace` | app/src/main/cpp/src/kernel/src/default_pager/kalloc.c:195-257 | The growing loop ends; it returns the next block of the uncut space, skipping the rest of the old one if that is used up, whatever other threads did while the lock was dropped, and gives back a mapping it did not need |
| `Kalloc.Allocator.Alloc` | app/src/main/cpp/src/kernel/src/default_pager/kalloc.c:259-305 | A small request takes the first block of the free list of its class whenever there is one, and then changes nothing else; otherwise it cuts a block from the uncut space and leaves the lists as they are. A nonzero result is a multiple of 4, was not live, and has at least the bytes asked for; zero means that the list was empty and no space could be had, and nothing changed; the thread holds no mapping afterwards |
| `Kalloc.Allocator.Release` | app/src/main/cpp/src/kernel/src/default_pager/kalloc.c:307-332 | Freeing with the size of the allocation puts the block at the front of its list, or returns it to the kernel |
| `Ext2Map.File.BlockMap` | app/src/main/cpp/src/kernel/src/file_systems/ext2fs/ext2fs.c:310-477 | With any kept index blocks, any failing reads and any interference of other threads, the block found is that of the list of all blocks of the file, FS_NOT_IN_FILE is returned exactly past the end of that list, and a read error exactly when the walk comes to an index block that is not kept by then and cannot be read |
| `Ext2Map.NotBlocked` | app/src/main/cpp/src/kernel/src/file_systems/ext2fs/ext2fs.c:392-424 | Whatever is kept and whatever other threads leave kept, the walk fails only if the read of an index block at one of its levels fails |
| `Ext2Map.File.constructor` | app/src/main/cpp/src/kernel/src/file_systems/ext2fs/ext2fs.c:766-778 | The level table holds the powers of NINDIR |
| `Ext2Map.File.FindLevel` | app/src/main/cpp/src/kernel/src/file_systems/ext2fs/ext2fs.c:364-382 | The level and the number within it add up to the block number, and the number is below what the level maps |
| `Ext2Map.File.ReadInode` | app/src/main/cpp/src/kernel/src/file_systems/ext2fs/ext2fs.c:201-230 | A new inode leaves nothing of the old one kept |
| `Ext2Map.WalkFindsLeaf` | app/src/main/cpp/src/kernel/src/file_systems/ext2fs/ext2fs.c:342-364 | Walking down an index tree by quotients and remainders finds the leaf of that number, holes giving 0 |
| `Ext2Map.FileBlocksAt` | app/src/main/cpp/src/kernel/src/file_systems/ext2fs/ext2fs.c:342-364 | The levels cover the block numbers from 12 to 12+N+N^2+N^3 without gap or overlap |
| `Ext2Map.LevelsFit` | app/src/main/cpp/src/kernel/src/file_systems/ext2fs/ext2fs.c:766-778 | The largest entry of the level table fits in an int exactly for block sizes up to 4096 |
| `Ext2Read.Reader.ReadFile` | app/src/main/cpp/src/kernel/src/file_systems/ext2fs/ext2fs.c:1049-1091 | What is delivered is the content of the file by any mix of the two paths: every byte that is in the file is the one at its place in the disk block that the file has there, or 0 in a hole, and how much is delivered is exact; memory outside the range asked for is not touched; the loop ends; a failure comes from a failed read; and the missing buffer is met exactly when an earlier failed read left the number of the first block that goes through the buffer |
| `Ext2Read.Reader.BufRead` | app/src/main/cpp/src/kernel/src/file_systems/ext2fs/ext2fs.c:483-589 | One piece, from the internal buffer or read in place, is content of the file and has the exact length: cut at the end of the file, but not when it is a hole read in place; it is absent exactly outside the file; it fails exactly when its block is not in the internal buffer and an index block on the way or the block itself, if there is one, cannot be read; and it meets the missing buffer exactly when it is not read in place and the number matches |
| `Ext2Read.Reader.ReadDirect` | app/src/main/cpp/src/kernel/src/file_systems/ext2fs/ext2fs.c:556-586 | A whole block is read into the caller's memory; a hole is delivered whole |
| `Ext2Read.Reader.Load` | app/src/main/cpp/src/kernel/src/file_systems/ext2fs/ext2fs.c:513-554 | The internal buffer is used when its number matches; it is missing then exactly when a failed read left its number behind |
| `Ext2Read.Reader.Fill` | app/src/main/cpp/src/kernel/src/file_systems/ext2fs/ext2fs.c:513-546 | Reading a data block fails exactly when the block map succeeds with a block and the device fails; then the buffer is dropped and its number kept; when no block is found nothing changes |
| `Ext2Read.ByteIsOnDisk` | app/src/main/cpp/src/kernel/src/file_systems/ext2fs/ext2fs.c:531-539 | The content of a file at a byte within its size is the byte at its place in the disk block of its number, and 0 where that number is 0 |
| `Ext2Read.BeyondExactly` | app/src/main/cpp/src/kernel/src/file_systems/ext2fs/ext2fs.c:564-568 | Bytes behind the end of the file are delivered exactly when the last block is a hole, the file does not fill it, and it is wanted whole at an aligned place |
| `Ext2Read.AllExactly` | app/src/main/cpp/src/kernel/src/file_systems/ext2fs/ext2fs.c:502-503 | Without failures the whole range is delivered exactly when its last byte is in the file, or when it ends with such a hole |
| `Ext2Read.BlockArithmetic` | app/src/main/cpp/src/kernel/src/file_systems/ext2fs/ext2_ffs_compat.c:87-99 | Block number and offset in the block are the only pair that makes up the number of the byte |
| `Ext2Path.OpenFile` | app/src/main/cpp/src/kernel/src/file_systems/ext2fs/ext2fs.c:800-1003 | The lookup in the buffer equals the recursive resolver, with at most MAXSYMLINKS links |
| `Ext2Path.Lookup.Splice` | app/src/main/cpp/src/kernel/src/file_systems/ext2fs/ext2fs.c:899-942 | Putting a link text in front of the rest of the path fits in the buffer and is exact, although the rest is moved over itself |
| `Ext2Path.Lookup.Follow` | app/src/main/cpp/src/kernel/src/file_systems/ext2fs/ext2fs.c:894-985 | A link restarts at the root if the new path is absolute and at the parent otherwise, and is refused when the path would be too long or the link is one too many |
| `Ext2Path.Lookup.Component` | app/src/main/cpp/src/kernel/src/file_systems/ext2fs/ext2fs.c:859-886 | The component and the rest are those of the scan of the path, and the buffer is as before |
| `Ext2Path.ScanAccepts` | app/src/main/cpp/src/kernel/src/file_systems/ext2fs/ext2fs.c:866-872 | A component is accepted exactly when it has at most MAXNAMLEN + 1 characters, all of seven bits |
| `Ext2Path.NameLeadsOn` | app/src/main/cpp/src/kernel/src/file_systems/ext2fs/ext2fs.c:859-890 | A name that is no link leads on from its inode with the rest of the path |
| `Ext2Path.LinkStandsForText` | app/src/main/cpp/src/kernel/src/file_systems/ext2fs/ext2fs.c:894-985 | A link stands for its text: a path that begins with its name leads where the path leads that has the text in place of the name, from the same directory, or from the root if the text is absolute |
| `Ext2Path.LinksOnlyLimit` | app/src/main/cpp/src/kernel/src/file_systems/ext2fs/ext2fs.c:907-908 | The limit on links only ever turns an answer into a loop error |
| `Ext2Path.Ovbcopy` | app/src/main/cpp/src/kernel/src/file_systems/file_system.c:287-302 | The bytes arrive as they were, whichever way the ranges overlap, and no other byte changes |
| `Queue.Queue.IsEmpty` | app/src/main/cpp/src/kernel/src/default_pager/queue.h:193-204 | The test on the head is true exactly for the empty sequence |
| `Queue.Queue.Enter` | app/src/main/cpp/src/kernel/src/default_pager/queue.h:225-239 | Entering appends to the sequence that the ring represents |
| `Queue.Queue.EnterFirst` | app/src/main/cpp/src/kernel/src/default_pager/queue.h:252-266 | Entering first prepends |
| `Queue.Queue.Remove` | app/src/main/cpp/src/kernel/src/default_pager/queue.h:285-301 | Removing takes out that element, wherever it is |
| `Queue.Queue.RemoveFirst` | app/src/main/cpp/src/kernel/src/default_pager/queue.h:312-324 | Removing the first gives the first and leaves the rest |
| `Queue.Queue.RemoveLast` | app/src/main/cpp/src/kernel/src/default_pager/queue.h:335-347 | Removing the last gives the last and leaves the rest |
| `Queue.Queue.Iterate` | app/src/main/cpp/src/kernel/src/default_pager/queue.h:372-375 | Iteration visits the elements in order, each once, and ends |
| `Queue.Queue.IterateBack` | app/src/main/cpp/src/kernel/src/default_pager/queue.h:172-182 | The walk by the previous links is the reverse of the walk by the next links |
| `Queue.VstructList.Insert` | app/src/main/cpp/src/kernel/src/default_pager/dp_memory_object.c:69-75 | The count stays the length of the list, and the new element is the last |
| `Queue.VstructList.Delete` | app/src/main/cpp/src/kernel/src/default_pager/dp_memory_object.c:77-87 | The count stays the length of the list |
| `Partition.Isolate` | app/src/main/cpp/src/kernel/src/bootstrap/bootstrap.c:913-927 | The array holds the servers in their order and then the data requests in theirs, and the two counts add up |
| `Partition.SelectAt` | app/src/main/cpp/src/kernel/src/bootstrap/bootstrap.c:913-927 | Each record keeps its place among those of its kind |
| `Partition.SelectCount` | app/src/main/cpp/src/kernel/src/bootstrap/bootstrap.c:913-927 | Splitting by the flag is a permutation |
| `Elf.Symload` | app/src/main/cpp/src/kernel/src/bootstrap/elf.c:186-287 | The entries are those of the kept symbols in input order, the header is their size, the strings start right behind the size word, and the table size is the bytes laid out |
| `Elf.PackedAt` | app/src/main/cpp/src/kernel/src/bootstrap/elf.c:214-277 | A kept symbol is the entry of its rank among the kept ones |
| `Elf.PackedFrom` | app/src/main/cpp/src/kernel/src/bootstrap/elf.c:214-277 | And every entry is that of a kept symbol of the same rank |
| `Elf.KindIs` | app/src/main/cpp/src/kernel/src/bootstrap/elf.c:217-270 | n_type of every symbol: the lowest bit says that it is global, and the rest that it names a file or which section its address is in, text before data and data before bss |
| `Elf.NamesAgree` | app/src/main/cpp/src/kernel/src/bootstrap/elf.c:216-287 | n_strx names in the table the string that st_name names in the file |

## Left out

- Paging.Pager.Read: replies are promised to be right when every device read is complete, brings nothing, or leaves out just one page; what is right about the replies to other reads is in `Reading.RunGenuineExactly`, for reads in whole records.
- Paging.Pager.Write: one request runs without another thread of the same pager between its rounds; `PageRuns` covers the interleaving of rounds, `Ownership` that of the critical sections inside one, and `VsProtocol` that of the handlers.
- Paging.Pager.Send: a synchronous write that never ends, because its retries have run past the chunk and the device does not fail, is not modelled; nor is an overrun behind the last cluster of a segment.
- Transfers.WriteDevice: the device is taken to write what it reports.
- Kalloc.Allocator.Alloc: when the free list of the class is empty, allocations are related to the heap in which the other threads left it, not to the one before the call.
- The page bitmaps of a map entry are sets of page numbers, and the counters of an object are unbounded integers; the cluster number field and the sequence number keep their widths.
- The cluster map in memory and the flat map of `Ownership` are two models of the same entries: `ClusterMap.Map` is the refinement, and the paging paths run on the flat map.
- `ps_allocate_cluster` with a given segment, segments that are going away, and deletion of backing stores, which always fails.
- `seqnos_memory_object_data_initialize`, whose loops assume that the data ends on a cluster boundary.
- The race between the overlap test of `default_pager_add_segment` and `ps_enter`: the two are one step here.
- Objects of size 0, and the failure of `kalloc` in `ps_vstruct_create`.
- Mach ports and rights, message dispatch, statistics, warnings and the monitoring walks.
- The allocation of the superblock and group descriptors of ext2, directory blocks, inode decoding and `/dev/` links; a directory is a function from names to inodes.
- Files of the other boot file systems, and the rest of the bootstrap loader: ELF sections, a.out and other formats, and the reading of the configuration file.
- The early return of `elf_symload` for an empty symbol or string table, and the bytes of the strings themselves.
