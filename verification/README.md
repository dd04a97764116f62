# BDTun: a verified model

BDTun is a Linux driver that turns a block device into a tunnel: each request
(bio) the block layer submits is handed to a process in user space, which moves
its data and says when it is done.  This project models the driver, the client
library, the serve loop over them and the control utility, and proves what they
are for.  `dafny verify dfyconfig.toml` checks all of it.

## How it is laid out

The tunnel protocol is modelled three times, each form proved against the next.

* **The queue** (`BioQueue`).  Bios are serial numbers that wait, are handed out,
  go back to waiting on a close, and end once, from whichever list they are on.
  Exactly-once completion and the order of delivery are proved here, for every run.
* **The threads** (`TunnelThreads` and the modules named after it).  Any number of
  threads, one program counter each, two list mutexes, the wait queue and the
  in-flight counters; one step is one access to shared state, and `kmalloc` may
  return any address that is not live.  Lock order, wake-ups, accounting, the
  meaning of an id and freedom from use after free are proved over every
  interleaving, and every disciplined run refines a run of the queue, so that the
  order of delivery holds of the threads as well (`TunnelOrder`).  `TunnelAlone` says
  what each call does when no other runs, `TunnelRead` how a header read ends,
  `TunnelGuards` what each mutex protects, and `TunnelLapse` and `TunnelForce` what
  becomes of the ids a client keeps across a close.
* **The device** (`DeviceSpec`, `TunnelDevice`).  The system calls as atomic
  operations of a class on real pages and buffers, dispatched on the byte count as
  the driver does.  Submissions, header reads, completions and closes each refine
  operations of the queue, a completion after a close included, and exactly-once
  completion follows for every sequence of calls (`DeviceSpec.CallsConserve`), with
  exact in-flight counters, cursor and endings.

The data path (`Segments`, `CopyLoops`, `PageMap`, `Words`) is the copying between a
flat buffer and the segments of a bio, on arrays, with faults at any byte, and the
mapped alternative.

`DiskService` and `DiskServiceProof` put these together: in every interleaving of
submissions, page writes and server steps the service is a flat disk that serves the
bios in the order they were queued, which is to say that every byte a READ is given is
that of the last WRITE before it that covers the byte.  `DiskServer` is the library and
the serve loop in place, over an array as the backing store; it records the history of
steps that leads to its ghost `world`, a world of `DiskService`, and each method
performs steps of that system.

The control plane is `NameList` (the LIST command from the driver's buffer to the
utility's paging), `Registry` with its specification `RegistrySpec` (create, resize,
remove, init, exit, with the rollback of every failed step) and `RegistryLedger` (what
the commands of a run make of the registry and answer, told from the commands alone),
`UseCount` (removal against open handles), `ControlLock` (exclusive open), `Geometry`
(sizes) and `Arguments` (the utility's option parser).  `Names` has the device names
they share.

## What the client must do

The driver does not check the id it is given.  `lib/libbdtun.c:12-16` puts the burden
on the client.  The threads' model states it in three places.

* `TunnelThreads.CallEnabled`: set-current and complete are serialised per tunnel, and
  an id is used only between its delivery and its completion.
* `TunnelThreads.OneFile`: one tunnel file is open at a time.
* `TunnelThreads.InForce`: an id is used only until the tunnel is next closed, and after
  that not before its bio has been delivered again.

Runs that keep the last two are called disciplined.  The ids a client was given, its
session and the driver's cursor all survive a close in the model; it is only their use
that the third rule restricts.  The library's text does not ask for it, and it cannot be
done without:

* With two files open a reader can be stranded beside a waiting bio
  (`TunnelExamples.SecondFileStrandsReader`).
* A client that closes, reopens and completes a bio it was handed before can make a
  header read touch freed memory (`TunnelForce.LapsedUseFrees`), give an address out as
  the id of a bio that has ended (`LapsedUseMisnames`), and put one bio on both lists
  (`LapsedUseDoubles`).
* Given a tunnel at rest after any disciplined run, and an id the client holds, letting
  the client use that id is safe in every close-free continuation exactly when the id is
  in force (`NothingFreedIff`, `IdsAreTrueIff`, `BiosAreOnceIff`), which is to say when
  its bio is pending (`TunnelLapse.InForceIffPending`).

## Where the code and its intent part

The model follows the code.

* `lib/libbdtun.c:137` writes the first byte of `"\0x01"`, which is NUL, so
  `bdtun_fail_request` reports success (`DeviceSpec.FailureSignalsSuccess`).
* `lib/libbdtun.c:21` says a request read becomes the data-current one.  The driver
  changes the cursor only on an id write (`kernel/bdtun.c:482-488`), so the serve loop
  here makes the request current itself.
* Closing a tunnel wakes no reader and leaves the cursor
  (`kernel/bdtun.c:283-287`), and no call checks the id it works on
  (`kernel/bdtun.c:482-509`).  `TunnelWake.WakeStep` says exactly when a close loses a
  wake-up, and `TunnelForce` exactly when an id kept across one does harm: a completion
  holds the pending lock alone, and the bio may be back on the incoming list.
* The list bound is `>` (`kernel/bdtun.c:1027`): one name more than asked for, and up to
  33 in a response whose reader has 32 pointers (`NameList.OverflowIff`,
  `NameList.UtilityIsSafeIff`).
* The utility's print loop counts `i` twice (`util/bdtun.c:242-245`): it lists every
  device exactly when there are at most two (`NameList.ListIsCompleteIff`).
* A create whose `alloc_disk` fails leaves its device node behind
  (`kernel/bdtun.c:831-835`); nothing else a failed create does is left behind
  (`RegistrySpec.FailedCreateRestoresIff`), and the node outlives the module
  (`RegistrySpec.NodeOutlivesModule`).
* A resize sets the capacity before the revalidation that may fail, asks for no block
  multiple and does not update the block count (`kernel/bdtun.c:896-904`):
  `Geometry.ResizeCoversIff`, `Geometry.FailedResizeOverpromises`,
  `Geometry.ResizeExactIff`, `Geometry.ResizeForgetsBlocks`.
* The drain that `kernel/bdtun.c:962-970` leaves commented out is not needed, given that
  the block layer holds a handle until its bios end (`UseCount.NothingToDrain`), and
  would be needed otherwise (`UseCount.ImpatientLeavesBio`).  But that is not the whole of
  a safe removal: after queueing its bio a submitter still wakes readers and counts
  (`kernel/bdtun.c:169-181`), and it may be there when the device is freed
  (`UseCount.PatientLeavesCall`), exactly if its handle was closed over it
  (`UseCount.CallsAtCommit`).
* `bdtunch_mmap` tests an offset it has itself shifted by a page (`kernel/bdtun.c:571-583`),
  so its ENXIO cannot happen, and a mapping from any page offset is accepted as one from 0
  (`PageMap.OffsetIsAligned`, `TunnelDevice.Tunnel.Mmap`).
* A mapping can be accepted and show the wrong bytes (`PageMap.AcceptedButUnfaithful`,
  `PageMap.HalfPagesUnfaithful`): `PageMap.MappingIsFaithfulIff` says when it does not.
* `bdtun_init` reports every failure as `-ENOMEM` (`kernel/bdtun.c:1278`).

## Model

| member | source | states |
|---|---|---|
| BioQueue.ApplyConserves | kernel/bdtun.c:158-171 | each queue operation keeps every submitted bio in exactly one of hand, incoming, pending and ended, and ended only grows |
| BioQueue.ExactlyOnce | kernel/bdtun.c:283-287 | over every run, with any number of closes and with completions of bios a close has put back, no bio is dropped, duplicated or ended twice |
| BioQueue.DeliveryOrder | kernel/bdtun.c:393-406 | between closes, what was waiting and was queued since, less the bios completed while they waited, is what was handed out followed by what still waits |
| BioQueue.PositionIsTurn | kernel/bdtun.c:169-171 | between closes the (p+1)-th header read delivers entry p of those waiting at first and queued since, less the bios completed while they waited, of which a disciplined run has none |
| BioQueue.PendingOrder | kernel/bdtun.c:404-406 | the pending list is the delivered bios, in delivery order, without the completed ones |
| BioQueue.CloseOrder | kernel/bdtun.c:285 | a close leaves the unread bios in queue order, then the un-ended delivered ones in delivery order, and pending empty |
| TunnelLocks.LocksAlways | kernel/bdtun.c:67-71 | in every interleaving each mutex is owned by exactly the thread whose program point says so |
| TunnelLocks.NoWaitCycle | kernel/bdtun.c:370-408 | chains of threads waiting for each other's mutexes have at most three members and never close |
| TunnelLocks.SomeoneCanStep | kernel/bdtun.c:283-287 | if a thread is inside a call and not asleep, some thread inside a call can take its next step |
| TunnelWake.WakeStep | kernel/bdtun.c:364-391 | for any number of readers, submitters and files, a step loses a wake-up if and only if it is a close that splices back pending bios while a reader is committed to sleep and no submitter is about to wake it |
| TunnelWake.AwakeIffNoneStranded | kernel/bdtun.c:169-173 | over whole runs with any number of readers, submitters and files, no wake-up is ever lost if and only if no close strands a sleeper |
| TunnelFiles.FilesAlways | kernel/bdtun.c:277-296 | with one tunnel file open at a time, calls run only on it and at most one release is in progress |
| TunnelFiles.ReleaseIsAlone | kernel/bdtun.c:277-287 | while a release runs no other call runs on the tunnel file |
| TunnelFiles.NoWakeupIsLost | kernel/bdtun.c:169-173 | in every run with one file open at a time, a reader sleeps or is about to beside a non-empty list only while some submitter has queued its entry and not yet called wake_up |
| TunnelRead.ReadEnds | kernel/bdtun.c:361-391 | in every run, with any number of readers and files, a header read leaves its waiting loop only by choosing the head of the incoming list as it then is, or when it has been woken with a signal pending, which changes no list |
| TunnelRead.DeliveryEnds | kernel/bdtun.c:393-412 | in every run, a header read that has chosen an entry ends only by returning with the client holding the entry's id, in force |
| TunnelRead.SleepEnds | kernel/bdtun.c:377-381 | in every run a sleeping reader sleeps until it is signalled or some submitter calls wake_up, whatever else is called |
| TunnelRead.WokenReads | kernel/bdtun.c:378-408 | after every disciplined run, a reader that has been woken with no signal pending, beside a list that is not empty, moves the old head of the list to the tail of pending and gives its id to the client, if it is left to run |
| TunnelRead.ContendedLooksAgain | kernel/bdtun.c:366-378 | a reader that had to wait for the mutex and then finds the list empty does not sleep but looks once more |
| TunnelGuards.ListsAreGuarded | kernel/bdtun.c:67-71 | in every disciplined run each list changes only in the hands of the thread that holds its mutex, completions included |
| TunnelGuards.PollIsTrue | kernel/bdtun.c:552-557 | in every disciplined run a poll that has looked is right about the list as long as it holds the mutex |
| TunnelAlone.SubmitAlone | kernel/bdtun.c:149-184 | a submission run alone queues, wakes every reader and counts its bio, and changes nothing else |
| TunnelAlone.HeaderAlone | kernel/bdtun.c:361-412 | a header read run alone moves the head of the list to the tail of pending, gives its id to the client, and changes nothing else |
| TunnelAlone.SetAlone | kernel/bdtun.c:482-488 | an id write run alone moves the cursor and changes nothing else of the device |
| TunnelAlone.DataAlone | kernel/bdtun.c:417-422 | a payload transfer run alone works on the entry the cursor names |
| TunnelAlone.CompleteAlone | kernel/bdtun.c:491-513 | a completion run alone ends, uncounts, unlinks and frees the entry the cursor names, and changes nothing else of the device |
| TunnelAlone.PollAlone | kernel/bdtun.c:542-562 | a poll run alone answers under the lock whether the list is not empty, and changes nothing |
| TunnelAlone.ReleaseAlone | kernel/bdtun.c:277-296 | a close run alone puts pending behind incoming and changes nothing else of the device |
| TunnelIdentitySteps.IdentityAlways | kernel/bdtun.c:482-509 | in every disciplined run the lists hold exactly the linked entries, off-list entries have one owner, every id ever given out and not completed carries the bio it was given out for, closes included, and the cursor and the fetched entries of a session in force stand for its bio |
| TunnelRefinement.StepRefines | kernel/bdtun.c:149-184 | every step of every thread is invisible or is one operation of the queue of serials |
| TunnelRefinement.RunsRefine | kernel/bdtun.c:348-540 | every disciplined run of the threads is a run of the queue in which no bio is completed while it waits, so the queue's theorems hold of it |
| TunnelOrder.WindowRefines | kernel/bdtun.c:348-540 | any window of a disciplined run of the threads is a run of the queue |
| TunnelOrder.HandedOutInOrder | kernel/bdtun.c:393-406 | in any close-free window of a disciplined run, bios are handed out in queue order, and entry p by the (p+1)-th header read |
| TunnelOrder.HandedBackInOrder | kernel/bdtun.c:283-287 | the splice of a close in a disciplined run leaves the unread bios in queue order, then the delivered and un-ended ones in delivery order |
| TunnelAccounting.InflightIsExact | kernel/bdtun.c:169-180 | each in-flight counter is the un-ended bios of its direction on the lists, less submitters yet to count, plus completers yet to uncount; exact when no thread is in between |
| TunnelAccounting.BalanceAlways | kernel/bdtun.c:455-466 | the same balance holds for both directions in every reachable state |
| TunnelSafety.NoUseAfterFree | kernel/bdtun.c:496-509 | no thread of a disciplined run, whose client may keep ids across closes, is ever about to dereference, relink or free an entry that is not live |
| TunnelSafety.IdNamesItsBio | kernel/bdtun.c:399 | an id denotes the bio whose header carried it, however often its address was used or the tunnel closed since; one in force denotes a pending bio; and the same holds of the entry a transfer or completion has fetched |
| TunnelSafety.CompletionUnlinksPending | kernel/bdtun.c:496-508 | a completion that unlinks its entry holds the pending lock and the entry is on the pending list, which that lock guards |
| TunnelSafety.EveryBioOnce | kernel/bdtun.c:404-408 | exactly-once completion in every disciplined interleaving, with ids and cursor kept across closes and reopens |
| TunnelSafety.EndedOnlyGrows | kernel/bdtun.c:498-504 | in every run from every state, whatever the client does, what has ended at one point is a prefix of what has ended later |
| TunnelSafety.Progress | kernel/bdtun.c:364-408 | while a thread is in a call, some thread in a call that is not asleep can step, unless all of them sleep on an empty list |
| TunnelLapse.InForceIffPending | kernel/bdtun.c:283-287 | outside closes and header reads, an id the client holds is in force exactly when its bio is pending, and has lapsed exactly when its bio waits to be delivered again |
| TunnelForce.NothingFreedIff | kernel/bdtun.c:482-509 | with two threads or more at rest after a disciplined run, no close-free run in which the client may use a given id touches freed memory if and only if the id is in force |
| TunnelForce.IdsAreTrueIff | kernel/bdtun.c:482-509 | with three or more, every id keeps naming its bio in all those runs if and only if the id is in force |
| TunnelForce.BiosAreOnceIff | kernel/bdtun.c:482-509 | with three or more, every bio stays in one place in all those runs if and only if the id is in force |
| TunnelForce.LapsedUseFrees | kernel/bdtun.c:404-408 | a close, a reopen and a completion under the old id, after which a header read is about to relink freed memory |
| TunnelForce.LapsedUseMisnames | kernel/bdtun.c:399 | the same with the address given to bio 1 first: the client is told that it is ended bio 0's |
| TunnelForce.LapsedUseDoubles | kernel/bdtun.c:169-171 | one submitter's step later bio 1 is on both lists |
| TunnelWaits.LongestWait | kernel/bdtun.c:370-408 | chains of three are reached: a submitter waits for a header read, which waits for a completion |
| TunnelExamples.SecondFileStrandsReader | kernel/bdtun.c:283-287 | two clients on two files reach a state with a bio waiting, its reader asleep and nobody to wake it |
| TunnelExamples.AddressIsReused | kernel/bdtun.c:158-167 | a disciplined run in which the client holds one address as the id of bio 0 and later as the id of bio 1, both completed under it |
| Segments.GatherAtCell | kernel/bdtun.c:429-444 | byte p of the buffer a payload read fills comes from the page byte that an independent walk over the segments assigns to p |
| Segments.ScatterAtCell | kernel/bdtun.c:519-532 | with disjoint segments, byte p of the buffer ends in that page byte |
| Segments.ScatterFrame | kernel/bdtun.c:519-532 | no page byte outside the segments changes |
| Segments.RoundTrip | kernel/bdtun.c:425-447 | filling a bio from a buffer and reading it back returns the buffer |
| Segments.WriteBack | kernel/bdtun.c:516-534 | reading a bio and filling it with what was read changes nothing |
| Segments.ScatterForgets | kernel/bdtun.c:526-528 | a full copy makes the same memory of any two that agree outside the segments |
| CopyLoops.CopyToUser | kernel/bdtun.c:432-433 | copies everything if all is accessible and otherwise stops at or before the first inaccessible byte; reports what is left and changes nothing else |
| CopyLoops.CopyFromUser | kernel/bdtun.c:521-522 | the same inwards, where a fault leaves the rest of the destination unspecified |
| CopyLoops.TransferOut | kernel/bdtun.c:429-446 | the read loop succeeds exactly when the buffer is accessible throughout, delivering the gather; otherwise a prefix no longer than what is accessible and no shorter than the segments that are accessible throughout |
| CopyLoops.TransferIn | kernel/bdtun.c:519-533 | the write loop makes the scatter, or stops at the segment of the fault with all before it filled and none after it touched |
| CopyLoops.RetryAfterFault | kernel/bdtun.c:526-528 | after a fault at any byte of any segment, a later full copy leaves the same memory as one successful copy |
| PageMap.MapBio | kernel/bdtun.c:579-613 | the mapping's error cases in order, and one page frame per remaining segment |
| PageMap.OffsetIsAligned | kernel/bdtun.c:571-583 | the offset of a mapping passes the alignment test whatever page it starts at, wrap-around included, so the ENXIO refusal cannot happen |
| PageMap.AcceptedIsWhole | kernel/bdtun.c:597-601 | for sizes in whole pages, an accepted mapping forces index 0 and whole-page segments, and byte p of it is byte p of the flat buffer |
| PageMap.FillByMapping | lib/libbdtun.c:61-64 | filling an accepted mapping leaves the memory a payload write of the same bytes leaves |
| PageMap.MappingIsFaithfulIff | kernel/bdtun.c:597-613 | every mapping the driver accepts, with any bio_vecs consumed before, shows the remaining bytes in every memory if and only if each remaining segment that holds data lies in the page mapped at its start, at its start's offset |
| PageMap.RoundedMappingIsFaithfulIff | lib/libbdtun.c:61-64 | at the length the library asks for, that is if and only if all segments start their page and all but the last fill it |
| PageMap.AcceptedButUnfaithful | kernel/bdtun.c:597-601 | a sector in the middle of a page: accepted, and the mapping shows other bytes |
| PageMap.HalfPagesUnfaithful | kernel/bdtun.c:597-601 | two half pages: a mapping of both pages is accepted and shows other bytes |
| Words.WordRoundTrip | kernel/bdtun.c:482-486 | an id survives the write that makes it current |
| Words.HeaderRoundTrip | include/bdtun.h:80-85 | the request header read from the driver is parsed back unchanged |
| Words.HeaderLayout | include/bdtun.h:80-85 | the header is id, flags, offset and size in that order, eight bytes each, low byte first |
| DeviceSpec.MakeRequestRefines | kernel/bdtun.c:149-184 | a submission is the queue's arrival and enqueueing, or its refusal when the allocation fails |
| DeviceSpec.DeliverRefines | kernel/bdtun.c:393-406 | a header read is the queue's delivery |
| DeviceSpec.CompleteRefines | kernel/bdtun.c:496-509 | a completion byte for a live entry, on whichever list it is, is the queue's completion of its bio |
| DeviceSpec.ReleaseRefines | kernel/bdtun.c:277-287 | closing is the queue's close |
| DeviceSpec.CallsConserve | kernel/bdtun.c:471-513 | over every sequence of calls on a new device, with any number of closes and with completions of bios a close has put back, each bio is on one list or has ended, once |
| DeviceSpec.InFlightIsExact | kernel/bdtun.c:178 | over every sequence of calls the in-flight counters are the numbers of live READs and live WRITEs |
| DeviceSpec.CursorIsLastId | kernel/bdtun.c:482-488 | over every sequence of calls the cursor is the last id written, through submissions, reads, completions and closes |
| DeviceSpec.EntriesAreSubmitted | kernel/bdtun.c:158-167 | over every sequence of calls a live entry carries the bio last submitted at its address |
| DeviceSpec.UseEnds | kernel/bdtun.c:160-162 | which call ends which bio, and how: a submission without memory with an error, a one-byte write the current bio as its byte says, and no other call any |
| DeviceSpec.MakeRequestSound | kernel/bdtun.c:158-171 | a submission keeps the lists linked, the in-flight counters exact and every live bio well formed |
| DeviceSpec.ReadSound | kernel/bdtun.c:348-453 | so does every read, whatever its count |
| DeviceSpec.WriteSound | kernel/bdtun.c:471-540 | so does every write, and it never changes the shape of memory |
| DeviceSpec.FailureSignalsSuccess | lib/libbdtun.c:135-142 | a bio ends with success exactly when the byte is zero, and the library's failure call writes zero |
| TunnelDevice.Tunnel.constructor | kernel/bdtun.c:735-740 | a new tunnel is empty and sound |
| TunnelDevice.Tunnel.MakeRequest | kernel/bdtun.c:149-184 | the fields after a submission, allocated or refused, are the specification's, and only an allocated one is counted, in its own direction |
| TunnelDevice.Tunnel.Read | kernel/bdtun.c:348-453 | a read by count: header, payload, error or sleep; a count that is not a header's succeeds exactly for a current WRITE of that size with the whole buffer accessible, delivers the gather, and otherwise is -EIO |
| TunnelDevice.Tunnel.ReadHeader | kernel/bdtun.c:361-412 | the head of incoming is described and moved to the tail of pending; an empty list blocks |
| TunnelDevice.Tunnel.ReadPayload | kernel/bdtun.c:424-452 | the gather of the current bio, exactly for a WRITE, its size and an accessible buffer; otherwise -EIO, with the buffer untouched unless the copy faulted in it |
| TunnelDevice.Tunnel.Write | kernel/bdtun.c:471-540 | a write by count: cursor, completion, payload or error; a fault leaves the device state alone, so the bio can be tried again |
| TunnelDevice.WriteAgain | kernel/bdtun.c:526-528 | after any write that faulted, writing again in full gives the pages, the state and the reply of one successful write |
| TunnelDevice.Tunnel.WritePayload | kernel/bdtun.c:515-539 | a READ bio is filled for exactly its size, -EIO otherwise, and a fault stops where it happened |
| TunnelDevice.Tunnel.EndCurrent | kernel/bdtun.c:496-509 | ending, uncounting in the bio's own direction, unlinking and freeing make the completion of the specification |
| TunnelDevice.Tunnel.Release | kernel/bdtun.c:277-296 | pending is spliced onto the tail of incoming, the cursor is left |
| TunnelDevice.Tunnel.Poll | kernel/bdtun.c:542-562 | readable exactly when incoming is not empty |
| TunnelDevice.Tunnel.Mmap | kernel/bdtun.c:568-619 | refused for an unshared mapping, a size or a failed page, in that order, and otherwise the current bio's pages, whatever page offset was asked for |
| DiskServiceProof.ServiceIsADisk | python/bdtunloop.py:25-32 | in every run without a close the server never fails; each byte of a completed READ is the data of the last WRITE queued before it that covers the byte, or what the store began with; between requests each byte of the store is that of the last completed WRITE covering it, and when nothing waits, of the last WRITE queued |
| DiskServiceProof.DiskIsLastWritten | python/bdtunloop.py:27-29 | each byte of the flat disk is the data of the last WRITE of the log that covers it, or as it was at the start |
| DiskServiceProof.SpliceAt | python/bdtunloop.py:27-29 | a write to the store puts the data at its offset and leaves every other byte |
| DiskServiceProof.BiosAreAccounted | kernel/bdtun.c:158-167 | in every run each bio submitted has been refused, completed, or queued and not yet completed, and only the first two have ended |
| DiskServiceProof.ServeAdvances | python/bdtunloop.py:25-32 | at most five server steps complete a waiting bio, and no other step does |
| DiskServiceProof.InvAlways | kernel/bdtun.c:348-540 | every interleaving keeps memory, queue, cursor, server and store in step |
| DiskServiceProof.HeaderIsTrue | kernel/bdtun.c:399-402 | the header of an in-bounds bio survives its encoding and is its id, 2 for a WRITE and 0 for a READ, 512 times its sector, and its size |
| DiskServiceProof.ScatterElsewhere | kernel/bdtun.c:519-532 | filling one bio leaves the data of every bio apart from it unchanged |
| DiskServer.ReadRequest | lib/libbdtun.c:26-32 | the next header parsed, its bio moved to pending; -EINTR when there is none |
| DiskServer.SetRequest | lib/libbdtun.c:42-49 | the cursor becomes the request's id and nothing else changes |
| DiskServer.GetRequestData | lib/libbdtun.c:86-93 | for every size but a header's: 0 with the gather exactly for a current WRITE of that size, otherwise -EIO and an untouched buffer; a header read should the size be a header's |
| DiskServer.SendRequestData | lib/libbdtun.c:103-110 | what the driver makes of a write of that size: 0 with the bio filled exactly for a READ of that size, -EIO otherwise, and a completion or an id should the size be 1 or 8 |
| DiskServer.CompleteRequest | lib/libbdtun.c:118-125 | the current bio ends with success and leaves its list |
| DiskServer.Server.Submit | kernel/bdtun.c:149-184 | a submission in place is the service's submission step |
| DiskServer.Server.TakeHeader | python/bdtunloop.py:26 | reading a header in place is the service's first step, from the queue's head |
| DiskServer.Server.Choose | lib/libbdtun.c:42-49 | making it current in place is the second, and changes only the cursor |
| DiskServer.Server.Fetch | lib/libbdtun.c:86-93 | fetching a WRITE's data in place is the service's step: it is the data the bio was queued with |
| DiskServer.Server.Keep | python/bdtunloop.py:27-29 | storing it in place is the service's step: the store has the data from the request's offset on, and every other byte as before |
| DiskServer.Server.Supply | python/bdtunloop.py:30-31 | answering a READ in place is the service's step, and changes no page byte outside the bio's segments |
| DiskServer.Server.Finish | python/bdtunloop.py:32 | completing in place is the service's step: the bio is ended, and what its segments hold in the pages goes on record |
| DiskServer.Server.Move | python/bdtunloop.py:27-31 | the data's move in either direction: each byte in a READ's pages is that of the last WRITE before it covering the byte, and no other page byte changes |
| DiskServer.ReachedIsRun | python/bdtunloop.py:25-32 | the server's recorded history is a run of the service that leads to its world, so every result about runs holds of the server |
| DiskServer.Server.StoreIsDisk | python/bdtunloop.py:25-32 | between turns each byte of the array is that of the last completed WRITE covering it, and so was each byte on record for a completed READ, of the WRITEs before it |
| DiskServer.Server.ServeOne | python/bdtunloop.py:25-32 | one turn is four or five steps of the service, completes exactly one bio, leaves the array with the last completed WRITE in each byte, a READ's pages with the flat disk's answer and every other page byte alone |
| DiskServer.Server.ServeAll | python/bdtunloop.py:25-32 | the loop completes every queued bio; each byte of the array is that of the last WRITE covering it, each byte in the pages of every READ served that of the last WRITE before it, and no other page byte has changed |
| NameList.EmittedIsLongest | kernel/bdtun.c:1020-1042 | a response holds the longest run of names from the offset that the count as written and 1024 bytes admit |
| NameList.ListDevices | kernel/bdtun.c:1010-1043 | the buffer holds exactly the encoding of that page |
| NameList.RoundTrip | lib/libbdtun.c:268-284 | the parser recovers exactly the names that were packed |
| NameList.ParseNames | lib/libbdtun.c:262-284 | the pointers and their number are the positions of the names, and the rest of the array is NULL |
| NameList.ListNames | lib/libbdtun.c:239-285 | driver and library together return the page, when its names fit the pointers |
| NameList.OverflowIff | kernel/bdtun.c:1027 | the pointer array overflows exactly when 32 or more are asked for, 33 are left and all 33 fit the response |
| NameList.SafePageIff | lib/libbdtun.c:244 | asking for m names is safe for all lists and offsets if and only if m is at most 31 |
| NameList.UtilityIsSafeIff | util/bdtun.c:227-246 | the utility, which asks for 32 and advances by half a page, stays within its pointers if and only if at none of the offsets it visits 33 names fit a response |
| NameList.UnvisitedOverflow | util/bdtun.c:227-246 | 34 names of which 33 from offset 1 on fit a response, where the utility is safe because it never asks there |
| NameList.PageNotEmpty | kernel/bdtun.c:1022-1038 | a page before the end of the list is never empty, so paging terminates |
| NameList.PagesAreAll | util/bdtun.c:229-246 | advancing by the page size would list every device once in creation order |
| NameList.PrintPage | util/bdtun.c:242-245 | the loop over a page prints every second name and advances by as many as it printed |
| NameList.ListCommand | util/bdtun.c:226-248 | the do-while loop terminates and prints the devices at the specified positions, for every list on which it stays within its pointers |
| NameList.PrintNext | util/bdtun.c:229-246 | one round adds exactly one page's every second name, from where the last round stopped, and ends the loop when the page is empty |
| NameList.SecondIsSkipped | util/bdtun.c:242-245 | with three devices or more the second is never printed |
| NameList.ListIsCompleteIff | util/bdtun.c:229-246 | every device is listed, once and in order, if and only if there are at most two |
| RegistrySpec.Conservation | kernel/bdtun.c:654-977 | in every run names are distinct, n devices hold n of each resource and n module references beside the module's own five and the leaked nodes, and nothing is held twice |
| RegistrySpec.LookupIsUnique | kernel/bdtun.c:637-649 | a lookup returns the device of that name, and it is the only one |
| RegistryLedger.RemoveSucceedsIff | kernel/bdtun.c:943-960 | in every run a remove succeeds if and only if a device of that name is listed and its name has been closed as often as it was opened, counted from the commands |
| RegistryLedger.RegistryIsLedger | kernel/bdtun.c:654-977 | after every run the registry lists, in the order of their creation, the devices that the commands made and did not take away, with the sizes the commands gave them and the handles open on them, all told from the commands alone |
| RegistryLedger.RepliesAreAnswers | kernel/bdtun.c:654-977 | in every run each command succeeds or fails, and with the error, that the commands before it entail: EEXIST, EINVAL, the first kernel call that failed, ENOENT, EBUSY or the revalidation's |
| RegistryLedger.UseCountIsExact | kernel/bdtun.c:192-213 | in every run the use count of a listed device is the opens of its name less the closes |
| RegistryLedger.HandlesAreCounted | kernel/bdtun.c:200-212 | a name that is not listed has been closed as often as opened, so a device starts with none of an earlier one's handles |
| RegistrySpec.FailedCreateRestoresIff | kernel/bdtun.c:831-879 | a failed create changes nothing if and only if it is not the disk alone that failed |
| RegistrySpec.DeviceComesAndGoes | kernel/bdtun.c:654-977 | a run of init and create that ends with one device, which a remove would take away |
| RegistrySpec.LeaksAreFailedDisks | kernel/bdtun.c:831-835 | over a run the nodes left behind are as many as the creates that failed at the disk |
| RegistrySpec.NodeOutlivesModule | kernel/bdtun.c:831-835 | a run in which a create fails at the disk and the node is still held after the module is unloaded |
| RegistrySpec.RemoveUndoesCreate | kernel/bdtun.c:910-982 | a remove gives back exactly what its create acquired |
| RegistrySpec.ExitKeeps | kernel/bdtun.c:1284-1301 | a module nothing refers to has no device left, and unloading leaves only the leaked nodes |
| RegistrySpec.CreateKeeps | kernel/bdtun.c:654-880 | a create with any failures keeps conservation, exclusive ownership and distinct names |
| RegistrySpec.RemoveKeeps | kernel/bdtun.c:934-982 | so does a remove |
| RegistrySpec.OpenKeeps | kernel/bdtun.c:192-199 | so does opening the block device or the tunnel |
| RegistrySpec.ResizeKeeps | kernel/bdtun.c:882-908 | so does a resize |
| RegistrySpec.InitKeeps | kernel/bdtun.c:1211-1279 | so does an initialisation that may fail at any step |
| RegistrySpec.CapacityWithinSize | kernel/bdtun.c:896-904 | as long as no revalidation fails, no device in any run promises more sectors than its size holds |
| Registry.Driver.Find | kernel/bdtun.c:637-649 | the first device of that name, or none |
| Registry.Driver.Create | kernel/bdtun.c:654-880 | the checks in order, and the registry after any outcome is the specification's |
| Registry.Driver.Build | kernel/bdtun.c:700-879 | the step-by-step rollback leaves what was held before, except the node when only the disk failed |
| Registry.Driver.BuildTunnel | kernel/bdtun.c:792-870 | the same for the char device, node and disk |
| Registry.Driver.BuildDisk | kernel/bdtun.c:819-862 | node and disk: a failure of the disk leaves the node |
| Registry.Driver.Resize | kernel/bdtun.c:882-908 | the capacity is set, then the size only if the revalidation succeeds |
| Registry.Driver.Destroy | kernel/bdtun.c:910-932 | everything the device owns but its structure is given back |
| Registry.Driver.Open | kernel/bdtun.c:192-199 | refused for a device being removed, with the error of the side that asks, and otherwise counted on that device |
| Registry.Driver.Close | kernel/bdtun.c:211-213 | one use of that device is given up |
| Registry.Driver.Remove | kernel/bdtun.c:934-982 | refused when unknown, being removed or in use, otherwise the specification's removal; what is held stays accounted for |
| Registry.Driver.Init | kernel/bdtun.c:1211-1279 | all five resources or, after any failure, none |
| Registry.Driver.Exit | kernel/bdtun.c:1284-1301 | everything the module holds is given back |
| UseCount.CountIsExact | kernel/bdtun.c:192-213 | in every interleaving the use count is the number of open handles, and zero once removal has committed |
| UseCount.RemovingIsFinal | kernel/bdtun.c:259-265 | from a committed removal on, nothing is open and nothing is opened |
| UseCount.RemoveCommitsIff | kernel/bdtun.c:948-960 | a remove commits exactly when no handle is open |
| UseCount.BiosAreQueue | kernel/bdtun.c:149-184 | whatever is opened, closed and removed, the bios go through a run of the queue |
| UseCount.BiosAreConserved | kernel/bdtun.c:277-287 | so each bio is in one place and ends once in every such run |
| UseCount.NothingToDrain | kernel/bdtun.c:962-970 | if block handles outlive their bios, both lists are empty when removal commits and ever after, nobody is about to queue, and every bio has ended |
| UseCount.CallsAtCommit | kernel/bdtun.c:169-181 | when a removal commits, the submitters still waking readers or counting are exactly those whose block handle was closed over them |
| UseCount.NoCallAtCommit | kernel/bdtun.c:948-977 | if block handles outlive the calls made through them as well, no call is on the device when a removal commits |
| UseCount.PatientLeavesCall | kernel/bdtun.c:948-977 | a run with patient handles in which removal commits over a submitter that has yet to wake a reader |
| UseCount.ImpatientLeavesBio | kernel/bdtun.c:948-960 | without that, a run in which removal commits over a waiting bio |
| ControlLock.OneHolder | kernel/bdtun.c:1052-1067 | in every interleaving the lock is 1 less holders less openers still to restore, and no two hold it |
| ControlLock.OpenWinsIff | kernel/bdtun.c:1052-1056 | an open succeeds exactly when nobody holds the device and nobody has still to restore |
| ControlLock.WinnerHolds | kernel/bdtun.c:1052-1062 | in every interleaving an opener that found the lock free holds the device from then until its own close |
| ControlLock.LoserRestores | kernel/bdtun.c:1052-1056 | in every interleaving one that found it taken does not get the device before it opens again, and is out once it has put its decrement back |
| ControlLock.CloseFrees | kernel/bdtun.c:1066-1070 | after a close nobody holds the device, and the next open wins exactly if no loser has still to put its decrement back |
| Geometry.PowerOfTwoIff | kernel/bdtun.c:679-683 | x & (x - 1) is zero exactly for the powers of two |
| Geometry.BlockIsSectors | kernel/bdtun.c:673-683 | a block size that passes both tests is a multiple of 512 |
| Geometry.CreatedIsExact | kernel/bdtun.c:844 | after a create the size and block size are those asked for, and capacity times 512 and blocks times block size are the size |
| Geometry.ResizeCoversIff | kernel/bdtun.c:896-904 | a resize keeps the capacity within the size if and only if it revalidates or asks for no more sectors than the old size holds |
| Geometry.FailedResizeOverpromises | kernel/bdtun.c:896-902 | a failed resize of a 512-byte device that leaves two sectors on offer |
| Geometry.ResizeForgetsBlocks | kernel/bdtun.c:904 | the block count fits the new size only if the size did not change |
| Geometry.ResizeExactIff | kernel/bdtun.c:896 | the capacity is the whole size if and only if the size is whole sectors |
| Geometry.InCapacity | kernel/bdtun.c:401-402 | a bio within the capacity ends within the device, and its header is exact: nothing wraps in 64 bits |
| Arguments.Args.Option | util/bdtun.c:67-136 | which options and arguments are errors, and what the others store |
| Arguments.Args.Success | util/bdtun.c:137-170 | which commands are complete |
| Arguments.ParseAll | util/bdtun.c:67-173 | a command line is let through exactly when each option is acceptable and the command has what it needs, is read as the last option of each kind says, and as a create passes the driver's own size checks |

## Left out

- Kernel internals: page tables, kmap, device nodes, the gendisk and `linux/list.h`; the list calls are sequence operations and resources are acquire and release steps.
- The delayed add_disk work item (`kernel/bdtun.c:125-136`): its completion flag is never read, so its order against remove is not enforced; disk registration is part of create, and the unchecked allocation of the work item (`kernel/bdtun.c:854-858`) is not modelled.
- Linearizability across client restarts: a close puts older delivered bios behind newer ones, so a WRITE can be replayed late; there only exactly-once completion and the order of redelivery are claimed.
- Reading the bio after bio_endio or, for its sector count, after queueing (`kernel/bdtun.c:178`, `kernel/bdtun.c:503-505`): direction and size are immutable fields of the entry.
- Request flags other than the write bit (`kernel/bdtun.c:306-342`), and `bdtun_getgeo`: a flat table and a constant.
- Time and sector statistics (`kernel/bdtun.c:177-178`, `kernel/bdtun.c:463-464`): only the in-flight counters are modelled.
- Clients that write ids they were never given or have already completed: that they do not is an assumption.
- TunnelForce.NothingFreedIff: is about states at rest (so are IdsAreTrueIff and BiosAreOnceIff), and lets one held id off the rule at a time.
- A bio end callback that submits to the same tunnel: `bio_endio` runs under the pending lock, and the lock-order results assume the callback takes neither list mutex.
- The VFS rule that a file is released only when no call on it is running is an assumption of `TunnelThreads.CallEnabled`.
- The registration of a poller on the wait queue (`kernel/bdtun.c:548`); poll's answer and its locking are modelled.
- Several cores' caches: each step of a thread is atomic and steps are totally ordered.
- `TunnelDevice` makes each system call atomic; the interleavings inside them are the subject of `TunnelThreads`, where payload transfers appear as uses of the entry rather than byte by byte.
- `python/bdtunloop.py` is followed for the order of its calls; its request structure and its flag bit are those of an older interface, so the loop here uses the driver's header and write bit. Its endless loop is cut where it would block.
- Failures of the backing file: the store is an array that can always be read and written.
- `ctrl_read`, `ctrl_write` and `bdtun_info_k`: unpacking of commands and of the one-shot response buffer; the commands themselves are modelled.
- Two control commands at once from threads sharing one open control file: the driver does not serialise them, and the registry is modelled one command at a time.
- Registry.Driver.Remove: is one command, so its removing flag is never seen by another; UseCount has the interleavings of removes with opens and closes.
- Registry.Driver.Exit: the loop over remaining devices is left out of the body, because with no reference to the module there are none.
- NameList.ListCommand: covers the lists on which the utility stays within the library's 32 pointers; past them the library writes outside its array, which has no meaning to model, and UtilityIsSafeIff says exactly when that happens.
- DiskService: bios in flight may share memory only if both are WRITEs, as the block layer arranges.
- Option texts, printing, debug output, `python/bdtun.py`, and the build files.
