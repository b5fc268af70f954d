# Verified models of the foundation layer

This project models three parts of the repository in Dafny and proves what they promise. The
three parts share no state.

**Paged messages** (`include/internal_msg.h`). A message is a byte stream in 4096-byte pages:
K = 4 page pointers in the object, the rest in a chain of index pages with N = 510 entries each,
and a reserved prefix in the first page for an image of the object and an application area.
`PageMemory.dfy` is the heap, a map from addresses to pages in which freed pages are gone.
`MsgLayout.dfy`, `MsgImage.dfy` and `MsgCursor.dfy` say what the structure must look like and
which bytes it denotes; `InternalMsg.dfy` has the two classes with their loops and in-place
updates; `MsgRuns.dfy` has whole runs over any number of messages, and of pointers made from
messages and held for later, on one heap. A byte of memory is either plain data or the k-th
byte of a machine word, so that an object image can lie in a page.

**Asynchronous logger** (`src/log.cpp`, `include/log.h`). Any number of loggers insert into a
ring under one mutex; one writer takes a snapshot, writes without the lock and then advances
`start`. `LogText.dfy` is the report printer, `LogRing.dfy` the ring, `LogProtocol.dfy` the
state machine with one step per critical section and with the unlocked write cut into pieces
of any size. The invariants are proved separately, each on the part of the state it needs:
`LogBaton.dfy` (queue and baton), `LogStream.dfy` (bytes and order), `LogSkips.dfy` (dropped
messages), `LogPace.dfy` (timing, termination), `LogTickets.dfy` (guaranteed writes), with
the rules for callers in `LogRules.dfy`. `LogRuns.dfy` puts them together over runs,
`LogBranches.dfy` says when each critical section takes which branch, `LogTheorems.dfy` and
`LogShutdown.dfy` state the results,
`LogDepartures.dfy` gives runs in which the code does not do what it should, and
`LogBuffer.dfy` has the critical sections as statements on shared fields and an array, proved
to be the steps of the state machine. A state carries a history (`stream`, `records`, `queue`
and so on) that no step reads.

**Tagged pointers** (`include/tagged_ptr_impl.h`). `TaggedWords.dfy` has the bit fields on
64-bit words, for 2 to 16 unused low bits and 0 or 1 flags; `TaggedPointers.dfy` the two-word
form and its plain twin as programs over any number of objects; `TaggedAnswers.dfy` what the
getters of both say after each setter; `TaggedObjects.dfy` the same objects updated in place;
`TaggedOneWord.dfy` the one-word forms.

## Where code and intention part

The code is modelled as it is. Where a promise of the repository fails, the exact condition
is proved.

- `clear` keeps `usedCnt` and the page pointers (`include/internal_msg.h:381-389`). The object
  can be appended to, moved, folded and destroyed as before, but its header goes on counting
  the old entries: it can be read through if and only if it had none or the new message stays
  within four pages (`ReadsBackExactly`, `ReuseAfterClear`). The assertion at 458 fails for it
  while it is empty (`EmptyHasNoFirstPage`). Move assignment and a non-null restore overwrite
  these fields.
- `skip` counts only its last fragment (`include/internal_msg.h:341-345`): `offset()` is right
  if and only if the skip stays within the current block (one that takes exactly the rest of
  the block does, although it moves to the next page); the position is always right.
- `appWriteData` on an empty message takes a page that the size does not account for
  (`include/internal_msg.h:428-433`).
- `justWrite` cannot tell an empty range from a full ring (`src/log.cpp:76-87`): the log is the
  stream if and only if no empty range was written. The writer does write one whenever it
  wakes for a parked logger alone.
- The retry check looks at the shared counters (`src/log.cpp:395`) but the insertion reports
  the logger's own (`src/log.cpp:406`): `OverrunExactly` says when the space assertion fails.
  The model stops there; what the memory would look like afterwards is not modelled.
- The assertions at `src/log.cpp:134`, `src/log.cpp:301` and `src/log.cpp:334` are not invariant:
  each has its exact condition and a run in which it fails. They are treated as comments.
- A critical message that had to queue does not wait for its write and leaves its node behind
  (`src/log.cpp:406`), and in the terminating phase every message queues a node: a later
  critical message on that transport can return too early.
- The writer sets `canRun` (`src/log.cpp:149`) and reads `next` only after giving up the lock
  (`src/log.cpp:151`). In between the logger can return, and queue or destroy the node:
  `StraysExactly` says when the writer then reads a wrong link, `StrayReturnsEarly` and
  `StrayLosesRest` what follows.
  Guaranteed writes hold under five rules for callers (`LogRules.dfy`), one of which the callers
  can keep by leaving critical messages to one transport; `EveryClauseIsNeeded` has a run for
  each rule that is broken alone.
- The check that ends the writer comes after the wait for work (`src/log.cpp:94-97`, 178): if
  the ring is drained, the last transport gone and termination allowed while the writer is in
  that wait, the thread never ends (`StopsExactly`, `TerminationCanHang`).
- `set_zombie` wipes data bits and `set_ptr` revives a zombie in the two-word form; a self-move
  and a null pointer with data are seen differently by the one-word form; `set_ptr` of the
  mask-and-flags form drops the flags. Each has its condition in the table.
- The report head is copied with length 9 (`src/log.cpp:220`), so the blank behind the colon
  in the source text never appears.

## Model

| member | source | states |
|---|---|---|
| PageMemory.Memory.Acquire | include/internal_msg.h:67 | a page is a non-null address that is not live, with arbitrary contents; nothing else changes |
| PageMemory.Memory.Release | include/internal_msg.h:68 | only a live page can be freed, and it is gone afterwards: a second free or a later use has no valid call |
| MsgLayout.PageAddedStruct | include/internal_msg.h:175-215 | each of the four branches keeps the structure: distinct live pages, every non-last index page full, the last one with 1 to N entries, `lip` at the end of the chain, `usedCnt >= min(pageCnt, K)` |
| MsgLayout.PageAddedStream | include/internal_msg.h:175-215 | adding a page moves and changes none of the stored bytes |
| MsgLayout.PageAddedOwnership | include/internal_msg.h:175-215 | exactly the pages taken from the heap are gained, and no page of anybody else is touched |
| MsgLayout.LipShape | include/internal_msg.h:187-206 | from K pages on, which branch is taken follows from the page count: `lip` is null exactly while there is no index page, and full exactly at K plus a multiple of N pages |
| MsgLayout.FilledStream | include/internal_msg.h:503-519 | a memcpy at the write position appends to the stored bytes |
| MsgLayout.FilledValid | include/internal_msg.h:500-521 | afterwards `currentPage` is null exactly when the total is a multiple of the page size, and otherwise the last payload page |
| MsgLayout.Frame | include/internal_msg.h:71-150 | a message only depends on the pages it owns: any change elsewhere on the heap leaves it well formed with the same bytes |
| PageMemory.IndexPageFits | include/internal_msg.h:113 | a header and N entries fit a page of 4096 bytes, and N + 1 would not |
| MsgLayout.PageCount | include/internal_msg.h:152-215 | a message owns exactly `pageCnt + ceil(max(pageCnt - 4, 0) / 510)` pages, and its index chain has that second number of nodes |
| MsgImage.ImageRoundTrip | include/internal_msg.h:452 | the 80 bytes of an object image read back as the object's ten words |
| MsgImage.PrefixRewrite | include/internal_msg.h:218-219 | overwriting bytes below the reserved boundary leaves the payload bytes alone |
| MsgImage.FoldStep | include/internal_msg.h:446-461 | writing the image into the first page disturbs neither the application area nor the payload |
| MsgImage.FoldedImage | include/internal_msg.h:462-468 | the image found at a folded message reads back as the fields that were folded |
| MsgImage.AppWriteStep | include/internal_msg.h:425-437 | application bytes land between image and payload; a message with data stays well formed, an empty one does not, and exactly so |
| MsgImage.SettledStays | include/internal_msg.h:471-522 | bytes that an append is still to copy from a page are not changed by what the append itself stores, even in that very page |
| MsgCursor.CursorStable | include/internal_msg.h:251-259 | growing a message changes none of the bytes that an existing iterator still has to deliver, although `usedCnt` is read live |
| MsgCursor.NextPageFound | include/internal_msg.h:251-258 | stepping past a page through the header or an index page reaches the next payload page |
| MsgCursor.StepSafe | include/internal_msg.h:249-258 | that step never leaves the local slots, the entries or the chain |
| MsgCursor.CursorRun | include/internal_msg.h:268-291 | the bytes up to the end of the current page are the next bytes of the message |
| MsgCursor.ReadsBackExactly | include/internal_msg.h:251-258 | from every page but the last the step finds the next page if and only if the header counts no stale entries or the message has at most K pages |
| MsgCursor.ClearedWellFormed | include/internal_msg.h:381-389 | a cleared message is a well-formed empty one, fit for another use, whose surplus of counted entries is the old count |
| MsgCursor.EmptyHasNoFirstPage | include/internal_msg.h:458 | the assertion that an empty message has no first page holds if and only if it was never cleared while it held pages |
| InternalMsgModule.InternalMsg.constructor | include/internal_msg.h:392-395 | a new message is empty and owns nothing |
| InternalMsgModule.InternalMsg.AddPage | include/internal_msg.h:175-215 | the four-branch extension, as one change of the two-level structure |
| InternalMsgModule.InternalMsg.ReserveSpaceForConvertionToTag | include/internal_msg.h:371-379 | the first page is taken and its reserved prefix counted; no stored byte changes |
| InternalMsgModule.InternalMsg.EnsureCurrentPage | include/internal_msg.h:489-499 | afterwards a page is open for writing and no stored byte has changed |
| InternalMsgModule.InternalMsg.CopyIn | include/internal_msg.h:500-519 | the copied bytes are appended; the page is closed exactly when it is full |
| InternalMsgModule.InternalMsg.AppendFrom | include/internal_msg.h:484-522 | the loop appends exactly the source bytes as they were on entry, also when they lie in the page being filled |
| InternalMsgModule.InternalMsg.Append | include/internal_msg.h:484-522 | the bytes of the message become the old bytes followed by the buffer; existing iterators keep what they had left |
| InternalMsgModule.InternalMsg.AppendUint8 | include/internal_msg.h:523-545 | the same for one byte |
| InternalMsgModule.InternalMsg.Size | include/internal_msg.h:552-555 | size() is the number of bytes a reader gets |
| InternalMsgModule.InternalMsg.GetReadIter | include/internal_msg.h:361-369 | a fresh iterator on a message that reads back has exactly its bytes left, none when it is empty |
| InternalMsgModule.InternalMsg.AppendIter | include/internal_msg.h:471-482 | append( it, n ) appends exactly the next min(n, left) bytes, also of the message itself, and leaves the source and the iterator alone |
| InternalMsgModule.InternalMsg.ReleaseIndexPage | include/internal_msg.h:161-171 | one round frees the payload pages of one index page and that page, each once, and meets the assertions at 163-164 |
| InternalMsgModule.InternalMsg.ReleaseLocalPages | include/internal_msg.h:154-157 | the local pages are freed, each once |
| InternalMsgModule.InternalMsg.ReleaseAllPages | include/internal_msg.h:152-173 | exactly the owned pages leave the heap, each once, and `pageCnt` ends at 0 |
| InternalMsgModule.InternalMsg.Clear | include/internal_msg.h:381-389 | from any state that can be destroyed: all owned pages are freed and an empty usable message is left, whose header counts the old entries in excess |
| InternalMsgModule.InternalMsg.TakeFrom | include/internal_msg.h:412-423 | everything moves over; the source is as a new object |
| InternalMsgModule.InternalMsg.MoveFrom | include/internal_msg.h:398-409 | move construction: same bytes, same pages; the source is as a new object |
| InternalMsgModule.InternalMsg.MoveAssign | include/internal_msg.h:410-424 | move assignment frees the old pages and takes over the others; onto itself it changes nothing |
| InternalMsgModule.InternalMsg.AppWriteData | include/internal_msg.h:425-437 | the bytes can be read back by appReadData, the payload is untouched, and the empty case is the only one that leaves a malformed object |
| InternalMsgModule.InternalMsg.AppReadData | include/internal_msg.h:438-445 | reads the application area at the given offset |
| InternalMsgModule.InternalMsg.ConvertToPointer | include/internal_msg.h:446-461 | the object becomes as new, the first page holds its image, payload and application bytes are as before; for an empty message, and only then, the result is null and nothing changes |
| InternalMsgModule.InternalMsg.RestoreFromPointer | include/internal_msg.h:462-469 | the folded message is back: fields, bytes, application area, and the ability to go on appending; what the object held before is freed; from null it is the same as clear |
| InternalMsgModule.ReadIter.constructor | include/internal_msg.h:236-242 | the iterator has all bytes of the message left |
| InternalMsgModule.ReadIter.ImplSkip | include/internal_msg.h:243-263 | exactly the first sz bytes are consumed, across a page boundary too |
| InternalMsgModule.ReadIter.StepToNextPage | include/internal_msg.h:251-259 | the cursor moves to the next entry, or to the first entry of the next index page |
| InternalMsgModule.ReadIter.DirectRead | include/internal_msg.h:268-291 | the returned place holds exactly the next sz bytes; they are consumed |
| InternalMsgModule.ReadIter.Read | include/internal_msg.h:302-324 | returns exactly the next min(size, left) bytes |
| InternalMsgModule.ReadIter.Skip | include/internal_msg.h:325-347 | consumes min(size, left) bytes; offset() is right afterwards if and only if the skip stays within the current block, and otherwise it has grown only by what was skipped on the last page |
| InternalMsgModule.ReadIter.Deref | include/internal_msg.h:292-296 | the next byte |
| InternalMsgModule.ReadIter.Increment | include/internal_msg.h:297-301 | consumes one byte |
| InternalMsgModule.ReadIter.ReadChar | include/internal_msg.h:349-356 | delivers and consumes one byte |
| MsgRuns.PoolChangesOne | include/internal_msg.h:71-557 | a step on one message leaves every other message on the same heap as it was, shares no page and loses none |
| MsgRuns.PoolMoves | include/internal_msg.h:398-424 | a move hands ownership over: still no page shared, none lost |
| MsgRuns.DoAppendRead | include/internal_msg.h:471-482 | append through a skipped iterator between any two messages, or one and the same |
| MsgRuns.DoFold | include/internal_msg.h:446-461 | the pages of a message go over to the pointer; every other message and every pointer held already keeps its bytes |
| MsgRuns.DoRestore | include/internal_msg.h:462-469 | any message takes back the bytes of any pointer held; what it had is freed, and nobody else notices |
| MsgRuns.PoolInsert | include/internal_msg.h:392-395 | a new message, or the pointer of an empty one, adds no page |
| MsgRuns.Step | include/internal_msg.h:392-556 | one operation on real objects and pointers does what it does to plain byte sequences |
| MsgRuns.Run | include/internal_msg.h:392-556 | any run of appends, iterator appends, moves, clears, application writes, convertToPointer, restoreFromPointer, constructions, move constructions and destructions, over any number of messages and of pointers held at once, keeps each equal to its byte sequence, with no page shared and none lost |
| MsgRuns.PoolPageCount | include/internal_msg.h:152-215 | in every such state the live pages are exactly the payload pages and the index pages they need, summed over all messages and all pointers held |
| MsgRuns.Start | include/internal_msg.h:392-395 | an empty heap without messages is a valid start |
| MsgRuns.DestroyAll | include/internal_msg.h:556 | destroying every message that is left leaves exactly the pages of the pointers still held, and an empty heap when there are none |
| MsgRuns.ReuseAfterClear | include/internal_msg.h:381-389 | cleared and filled again, a message holds the new bytes, and they can be read through if and only if its header had counted no entries or they and the reserved prefix fit into four pages |
| MsgRuns.Take | include/internal_msg.h:222-357 | each kind of read delivers the next bytes and keeps the rest |
| MsgRuns.Drain | include/internal_msg.h:222-369 | any mix of directRead, read, ++ and readChar delivers the message from its first byte, without gap or repetition, and to its end |
| LogText.Incremented | include/log.h:86-89 | both counters wrap at 32 bits and stay consistent modulo 2^32 |
| LogText.FullDetectsSkips | src/log.cpp:289-296 | a non-zero total always has a non-zero level counter behind it, whatever wrapped |
| LogText.ReportFits | src/log.cpp:218-241 | a report takes at most 98 bytes, and none exactly when all counters are zero |
| LogText.ReportRoundTrip | src/log.cpp:218-241 | a reader with a table of level names, a head and a grammar of its own gets every counter back from a printed report |
| LogText.FormatToN | src/log.cpp:226 | format_to_n copies what fits and returns the full size |
| LogText.ToStr | src/log.cpp:218-241 | the printing loop leaves exactly the report in the buffer, from which that reader gets the counters back; nothing is truncated and nothing behind it touched |
| LogRing.PutAt | src/log.cpp:271-285 | the two-memcpy insertion writes the offsets behind `end` and no other offset of the ring |
| LogRing.PutHolds | src/log.cpp:271-285 | an insertion extends the stream and disturbs none of its unread bytes |
| LogRing.WrittenIsSlice | src/log.cpp:76-87 | one fwrite or two, the bytes put out are those of consecutive offsets from `start`; a whole ring when start equals end |
| LogRing.WrittenExact | src/log.cpp:76-87 | justWrite puts out exactly stream[start..end) if and only if start < end |
| LogRing.SliceExact | src/log.cpp:76-87 | the same for any piece of an unlocked write |
| LogProtocol.PassesFits | src/log.cpp:287-297 | the one check at 347 covers report and message: both space assertions of the immediate branch hold |
| LogBranches.AddInsertsExactly | src/log.cpp:328-352 | in every reachable state a message is inserted at once if and only if nobody is queued and it fits, with 128 bytes for a report when one is due; what it enters, queues and waits for then |
| LogBranches.AddRefusesExactly | src/log.cpp:332-369 | otherwise it is dropped if and only if its level may be, and queued if and only if it may not; no byte moves |
| LogBranches.RetryExactly | src/log.cpp:393-417 | a woken logger parks again if and only if there is no such room; otherwise it enters its report and message and leaves the head of the queue, unless the space assertion stops it |
| LogBranches.SnapshotExactly | src/log.cpp:110-127 | the snapshot covers all that is accepted, takes the whole queue of guaranteed writes, and the parked logger if and only if 4096 bytes are free |
| LogBranches.SleepsExactly | src/log.cpp:94-97 | outside a write the waiting condition of the writer comes down to: everything written and nobody parked |
| LogBaton.BatonStart | src/log.cpp:362-367 | the first logger without room parks itself as the whole queue |
| LogBaton.BatonJoin | src/log.cpp:340-345 | a later one is linked behind nextToAdd |
| LogBaton.BatonWake | src/log.cpp:386-390 | only the head of the queue can be woken |
| LogBaton.BatonPark | src/log.cpp:395-404 | only the head can park again |
| LogBaton.BatonLeave | src/log.cpp:406-417 | the head leaves, and keeps the baton if there is a successor |
| LogBaton.BatonPass | src/log.cpp:419-427 | the successor read after unlocking is the present head, it is not yet signalled, and it gets the baton |
| LogBaton.BatonTake | src/log.cpp:123-127 | the writer can only take a parked baton |
| LogBaton.BatonSignal | src/log.cpp:166-173 | the logger the writer wakes is the head, and not yet signalled |
| LogBaton.BatonStep | src/log.cpp:89-430 | every step of every thread keeps links, queue and baton consistent |
| LogBaton.OneBaton | src/log.cpp:332-428 | nextToAdd is set if and only if exactly one of parked, with the writer, woken, retrying, handing on holds |
| LogBaton.ParkedWaiterAssertion | src/log.cpp:334 | the assertion holds exactly while the baton is parked |
| LogStream.InsertHolds | src/log.cpp:287-297 | report and message together extend the stream in the ring |
| LogStream.FlowEmit | src/log.cpp:76-87 | what the writer copies without the lock is the next piece of the stream |
| LogStream.FlowStep | src/log.cpp:76-164 | every step keeps ring, stream and output in agreement |
| LogStream.LogIsStreamPrefix | src/log.cpp:137-162 | outside a write the log is the stream up to `start` if and only if no empty range was ever written |
| LogStream.TaleStep | src/log.cpp:287-428 | every step keeps: stream = text of the records, arrivals = inserted messages followed by the queued ones |
| LogStream.SpotStep | src/log.cpp:349-352 | a logger waiting for its write knows where in the stream its message ends |
| LogSkips.BooksLeave | src/log.cpp:406 | a logger leaving the queue reports its own counters, or loses them only if their total had wrapped to zero |
| LogSkips.BooksStep | src/log.cpp:287-297 | every step keeps the books of dropped messages |
| LogSkips.SkipConservation | src/log.cpp:335-358 | dropped = reported + shared + queued, per level, below 2^32 drops; levels below levelCouldBeSkipped never drop |
| LogPace.WriterWokenFits | src/log.cpp:392-406 | a logger woken by the writer passes its first check and fits with its report |
| LogPace.PaceStep | src/log.cpp:94-175 | every step keeps the timing facts: who holds the baton decides how far the writer has caught up |
| LogPace.DetachedBySecondSnapshot | src/log.cpp:94-127 | while a logger is parked the writer does not sleep, and detaches it at the second snapshot at the latest |
| LogPace.EmptyWriteOnlyForWaiter | src/log.cpp:110-158 | an empty range is only written on behalf of a logger detached by that snapshot |
| LogPace.LifeStep | include/log.h:162-190 | every step keeps the reference count and the conditions of termination |
| LogPace.LifeStops | include/log.h:181-190 | the writer stops only with start = end, termination allowed and no transport left |
| LogTickets.TicketIssued | src/log.cpp:298-314 | a node not in use joins the queue; both lists stay disjoint and null-terminated |
| LogTickets.TicketRedeemed | src/log.cpp:372-381 | a logger that sees canRun has its message behind `start`, and the node is free again |
| LogTickets.TicketsDetached | src/log.cpp:115-121 | the writer takes the whole queue, all of it accepted before the snapshot |
| LogTickets.TicketReleased | src/log.cpp:145-150 | the head of the detached list is released, once; until its link is read it belongs to its logger again |
| LogTickets.LinkRead | src/log.cpp:151-153 | the link read from a released node leads on along the detached list if and only if the node is not in the queue again, or is last there with the list at its end |
| LogTickets.StillReleased | src/log.cpp:301 | a node has canRun set if and only if it was released and its logger, if it has one, has not looked yet |
| LogTickets.TicketsStep | src/log.cpp:89-430 | every step keeps the tickets in order, as long as no node is queued or destroyed while in use and no wrong link is read |
| LogRules.BusyIsAwaited | src/log.cpp:297-316 | under the rules a node in use always has its logger waiting on it |
| LogRules.OrderlyStep | src/log.cpp:144-154 | callers that keep to the rules never queue or destroy a node in use, and the writer reads the right links |
| LogBuffer.LogBufferBaseData.constructor | src/log.cpp:243-269 | the state after init |
| LogBuffer.LogBufferBaseData.InsertSingleMsg | src/log.cpp:271-285 | the memcpy calls on the array do what the ring model says |
| LogBuffer.LogBufferBaseData.InsertMessage | src/log.cpp:287-321 | the method is the state machine insertion |
| LogBuffer.LogBufferBaseData.EnqueueGuaranteed | src/log.cpp:300-314 | the statements are the state machine enqueue |
| LogBuffer.LogBufferBaseData.AddMsg | src/log.cpp:328-370 | the first critical section of addMsg is the state machine step; inserted if and only if nobody is queued and there is room, dropped if and only if not and the level may be |
| LogBuffer.LogBufferBaseData.Retry | src/log.cpp:393-417 | the second critical section of addMsg is the state machine step; it inserts if and only if there is room |
| LogBuffer.LogBufferBaseData.TakeSnapshot | src/log.cpp:104-129 | the snapshot is the state machine step; the parked logger is taken if and only if 4096 bytes are free |
| LogBuffer.LogBufferBaseData.JustWrite | src/log.cpp:76-87 | what reaches the file if no logger interferes |
| LogBuffer.LogBufferBaseData.SetCanRun | src/log.cpp:145-150 | canRun is set, every link stays |
| LogBuffer.LogBufferBaseData.ReleaseAll | src/log.cpp:144-154 | if no logger acts between 150 and 151, the loop sets canRun on every node of the list, on none besides, and terminates |
| LogBuffer.LogBufferBaseData.TerminateIfAlone | include/log.h:181-190 | with one reference per transport and one of the writer: stops if and only if termination is allowed, no transport is left and everything is written; nothing else changes |
| LogRuns.InitialInv | src/log.cpp:243-269 | the initial state meets all invariants |
| LogRuns.InvStep | src/log.cpp:89-430 | every enabled step keeps all of them |
| LogRuns.RunInv | src/log.cpp:89-430 | hence every run does |
| LogTheorems.RingRefinesStream | src/log.cpp:271-285 | in every reachable state start <= end <= start + B and each unwritten offset k sits at k mod B |
| LogTheorems.LogIsPrefix | src/log.cpp:76-164 | the log is the stream up to `start` if and only if no empty range was ever written |
| LogTheorems.UnlockedWriteExact | src/log.cpp:76-87 | bytes written without the lock are those of the stream, whatever is inserted meanwhile |
| LogTheorems.StoppedMeansComplete | src/log.cpp:178-179 | when the writer has stopped, every accepted message is written, in order, and nobody waits |
| LogTheorems.NothingOvertakes | src/log.cpp:332-428 | accepted messages enter the stream in the order in which they were accepted |
| LogTheorems.OnlyHeadInserts | src/log.cpp:332-428 | while loggers are queued only the head can insert |
| LogTheorems.BatonUnique | src/log.cpp:332-428 | nextToAdd is set if and only if there is a baton, and there is at most one |
| LogTheorems.OverrunExactly | src/log.cpp:395-406 | the space assertion of a retry fails if and only if the shared counters are empty, the own ones are not, and the report no longer fits; never for a logger the writer woke |
| LogTheorems.ParkedIsServed | src/log.cpp:94-127 | in every reachable state a parked logger is served by the second snapshot |
| LogTheorems.ParkedAcrossOneSnapshot | src/log.cpp:110-127 | no legal run takes a logger through two snapshots while it stays parked |
| LogTheorems.DumpOnlyForWaiter | src/log.cpp:158 | an empty write happens only for a parked logger |
| LogTheorems.GuaranteedWrite | src/log.cpp:372-381 | no node misused and no wrong link read, a critical message is in the log when its logger returns |
| LogTheorems.StraysExactly | src/log.cpp:150-153 | the writer reads a wrong link if and only if the node it has just released is in the queue again, unless it is last there and the list at its end |
| LogTheorems.StrayReturnsEarly | src/log.cpp:150-153 | whenever it walks into the queue, the node behind is released next, and the logger waiting on it can return with its message unwritten |
| LogTheorems.StrayLosesRest | src/log.cpp:150-153 | and the rest of its own list is lost: the nodes left behind are in no list, unreleased, with their loggers waiting |
| LogTheorems.OrderlyRunsAreSafe | src/log.cpp:144-154 | over whole runs, callers that keep to the rules misuse no node and cause no wrong link to be read |
| LogTheorems.OrderlyCallersAreSafe | src/log.cpp:372-381 | from the start of the program, under those rules every critical message is in the log before its logger returns |
| LogTheorems.SkipsAccounted | src/log.cpp:287-358 | skip conservation in every reachable state |
| LogTheorems.AssertionsHold | src/log.cpp:117-423 | the assertions at 117, 135, 136, 170, 273 (immediate branch), 305, 311, 362, 363, 398, 400, 410, 415 and 423 hold in every run; the one at 148 as long as no node was misused and no wrong link read |
| LogTheorems.Assertion134 | src/log.cpp:134 | this one fails if and only if the snapshot finds a guaranteed write, a parked logger and room for any message; only at the first snapshot since the logger parked |
| LogTheorems.Assertion301 | src/log.cpp:301 | this one fails if and only if the node was released and either nobody waits on it or its logger has not looked yet |
| LogTheorems.Assertion334 | src/log.cpp:334 | this one holds exactly while the baton is parked |
| LogTheorems.LoggersAreFree | src/log.cpp:323-430 | the model blocks no logger: a step is enabled whenever its thread has got to it |
| LogTheorems.WriterIsFree | src/log.cpp:89-181 | the model does not block the writer either |
| LogTheorems.SleepIsSafe | src/log.cpp:94-97 | no lost wake-up: when the writer sleeps everything is written, every queued logger can go on without it, and, no node misused and no wrong link read, every waiting one |
| LogShutdown.StuckForGood | src/log.cpp:93-99 | drained, termination under way and without transports, the writer never leaves its waiting loop, in no run without a new transport |
| LogShutdown.StopsFromReleasing | src/log.cpp:144-154 | the list of detached nodes comes to its end and the writer can go on to its check |
| LogShutdown.StopsExactly | src/log.cpp:93-179 | termination allowed and the last transport gone, a writer at the top of its loop can end if and only if there are bytes left to write |
| LogDepartures.LogCanRepeat | src/log.cpp:158 | a run in which the whole ring is written a second time, and in which 334 would fail |
| LogDepartures.ReleasedForNobody | src/log.cpp:301 | a run after which a critical message is about to be inserted and the assertion at 301 fails |
| LogDepartures.GuaranteeCanFail | src/log.cpp:372-381 | a run that breaks only the rule that a critical message is inserted at once: one returns before it is written |
| LogDepartures.EveryClauseIsNeeded | src/log.cpp:144-381 | for each of the five rules a run that keeps the four others: a critical message returns unwritten, or the writer reads the link of a destroyed node |
| LogDepartures.ListCutShort | src/log.cpp:150-153 | a run with one early requeue in which the writer loses the rest of its list and sleeps while a logger waits for good |
| LogDepartures.TerminationCanHang | src/log.cpp:93-99 | a run after which the writer can never end, although termination is allowed, all is written and no transport is left |
| LogDepartures.SnapshotCanTakeBoth | src/log.cpp:134 | a run in which a snapshot finds a guaranteed write and takes a parked logger as well, so that 134 fails |
| LogDepartures.RetryCanOverrun | src/log.cpp:406 | a run in which the space assertion of a retry fails |
| TaggedWords.GatherScatter | include/tagged_ptr_impl.h:787-812 | every 32-bit value survives set_data and get_data, for 2 to 16 low bits and 0 or 1 flags |
| TaggedWords.PartsPlaced | include/tagged_ptr_impl.h:805-812 | set_data puts its parts where get_data looks, and leaves allocated pointer and flags alone |
| TaggedWords.ReplacePtrKeeps | include/tagged_ptr_impl.h:744-747 | set_ptr leaves the data alone |
| TaggedWords.ReplaceAllocKeeps | include/tagged_ptr_impl.h:760-763 | set_allocated_ptr leaves data and flags alone |
| TaggedWords.PutFlagKeeps | include/tagged_ptr_impl.h:780-785 | set_flag and unset_flag leave data and allocated pointer alone |
| TaggedWords.ZombieWipes | include/tagged_ptr_impl.h:777 | set_zombie wipes the 16 data bits of the pointer word, and no others |
| TaggedPointers.DataSet | include/tagged_ptr_impl.h:805-812 | all four fields after set_data |
| TaggedPointers.PtrSet | include/tagged_ptr_impl.h:744-747 | pointer and data after set_ptr; the object is no zombie |
| TaggedPointers.AllocSet | include/tagged_ptr_impl.h:760-763 | all fields of the second word after set_allocated_ptr |
| TaggedPointers.FlagSet | include/tagged_ptr_impl.h:780-785 | all fields of the second word after set_flag and unset_flag |
| TaggedPointers.SetterAgrees | include/tagged_ptr_impl.h:733-812 | every setter keeps the two forms related |
| TaggedPointers.GetterAgrees | include/tagged_ptr_impl.h:748-804 | every getter gives the same value or raises the same error in both forms; TaggedAnswers says which |
| TaggedPointers.StepAgrees | include/tagged_ptr_impl.h:538-731 | one operation over any number of objects, self-copy, self-move and self-swap included |
| TaggedPointers.RunsAgree | include/tagged_ptr_impl.h:513-826 | every legal program gets the same answers and errors from both forms |
| TaggedPointers.ProgramsAgree | include/tagged_ptr_impl.h:533 | the same from the constructors' state on |
| TaggedPointers.SetPtrOnZombie | include/tagged_ptr_impl.h:744-747 | set_ptr keeps the two forms together if and only if the object is no zombie |
| TaggedPointers.GetDataOnZombie | include/tagged_ptr_impl.h:777 | after set_zombie, get_data agrees if and only if the low 16 data bits were zero |
| TaggedPointers.PointersBelowTheMark | include/tagged_ptr_impl.h:748-759 | is_zombie and get_dereferencable_ptr agree on a stored pointer if and only if it is null or above 1 << low |
| TaggedAnswers.FlagAnswers | include/tagged_ptr_impl.h:779-785 | has_flag is true after set_flag and false after unset_flag and init, in both forms and for any object |
| TaggedAnswers.FlagAnswersInit | include/tagged_ptr_impl.h:733-742 | has_flag is false after the two other init calls |
| TaggedAnswers.FlagAnswersKept | include/tagged_ptr_impl.h:744-785 | set_data, set_ptr, set_allocated_ptr and set_zombie leave the answer of has_flag as it was |
| TaggedAnswers.ZombieAnswers | include/tagged_ptr_impl.h:748-778 | a zombie says so, raises the zero-pointer error at get_ptr and get_allocated_ptr, and the late-zombie error at the two dereferencing getters |
| TaggedAnswers.PtrAnswers | include/tagged_ptr_impl.h:744-759 | the pointer last set is the one got back; null raises the zero-pointer error when dereferenced |
| TaggedAnswers.AllocAnswers | include/tagged_ptr_impl.h:760-775 | likewise the allocated pointer; the other getters answer as before |
| TaggedAnswers.DataAnswers | include/tagged_ptr_impl.h:787-812 | the data last set is the data got back; the other getters answer as before |
| TaggedAnswers.InitAnswers | include/tagged_ptr_impl.h:735-742 | a freshly initialised object answers with what it was given |
| TaggedAnswers.EmptyAnswers | include/tagged_ptr_impl.h:733-734 | one initialised with data or nothing has null pointers, which raise the zero-pointer error when dereferenced |
| TaggedAnswers.PairAnswers | include/tagged_ptr_impl.h:700-731 | after copy, move and swap each object answers as the other did, a moved-from one as a new one; with a zombie there is only the error |
| TaggedObjects.OptimizedPtr.SetData | include/tagged_ptr_impl.h:805-812 | the masking and or-ing of both words is the setter of the model |
| TaggedObjects.OptimizedPtr.InitAll | include/tagged_ptr_impl.h:735-742 | likewise init with all arguments |
| TaggedObjects.OptimizedPtr.CopyFrom | include/tagged_ptr_impl.h:700-708 | copy between two objects, or onto itself |
| TaggedObjects.OptimizedPtr.MoveFrom | include/tagged_ptr_impl.h:709-718 | move between two objects, or onto itself |
| TaggedObjects.OptimizedPtr.Swap | include/tagged_ptr_impl.h:719-731 | swap of two objects, or with itself |
| TaggedObjects.GenericPtr.CopyFrom | include/tagged_ptr_impl.h:538-548 | field by field copy |
| TaggedObjects.GenericPtr.MoveFrom | include/tagged_ptr_impl.h:549-560 | field by field move, which empties the source |
| TaggedObjects.GenericPtr.Swap | include/tagged_ptr_impl.h:561-579 | field by field swap |
| TaggedObjects.OptimizedPtr.SetPtr | include/tagged_ptr_impl.h:744-747 | an allowed pointer is stored, the object is no zombie and its data stays |
| TaggedObjects.OptimizedPtr.SetAllocatedPtr | include/tagged_ptr_impl.h:760-763 | an aligned allocated pointer is stored, flags and data stay |
| TaggedOneWord.DataStepTogether | include/tagged_ptr_impl.h:204-381 | the one-word form with 16 data bits follows the plain one at every harmless step |
| TaggedOneWord.DataStepExact | include/tagged_ptr_impl.h:204-381 | and at no other: they part exactly at a self-move of a non-empty object and at dereferencing null with non-zero data |
| TaggedOneWord.DataRunExact | include/tagged_ptr_impl.h:204-381 | over whole programs the two forms give the same answers and errors and stay related at every step if and only if no step is one of these departures |
| TaggedOneWord.DataProgramsAgree | include/tagged_ptr_impl.h:204-381 | from the constructors' state on, a program without departures gets the same answers and errors from both forms |
| TaggedOneWord.PutAnswers | include/tagged_ptr_impl.h:254-381 | after init both forms give pointer and data back, and dereferencing null with data 0 raises the zero-pointer error |
| TaggedOneWord.KillAnswers | include/tagged_ptr_impl.h:254-381 | a zombie raises the late-zombie error at every getter and at set_data, in both forms |
| TaggedOneWord.PutDataAnswers | include/tagged_ptr_impl.h:353-361 | set_data: the new data and the old pointer |
| TaggedOneWord.ResetAnswers | include/tagged_ptr_impl.h:350 | after reset an object is null, without data and no zombie |
| TaggedOneWord.OneWordPairs | include/tagged_ptr_impl.h:316-344 | copy, move and swap between two objects hand over word and answers; with a zombie there is only the late-zombie error |
| TaggedOneWord.SetPtrDropsFlags | include/tagged_ptr_impl.h:494 | set_ptr of the mask-and-flags form agrees with the plain one if and only if no flag was set |

## Left out

- MsgRuns.Run: tracks the payload bytes of each message; the application area is stated call by call (AppWriteData, AppReadData, ConvertToPointer, RestoreFromPointer), and after a write to an empty message that message is only cleared, overwritten or destroyed, because the code then has a page its size does not account for.
- LogDepartures.EveryClauseIsNeeded: for a transport destroyed too early the run ends where the writer is about to read its link; what such a read returns is not modelled, and nothing is promised after it.
- LogRules.OrderlyStep: that the writer has not read a link yet cannot be seen by a caller; the rule for a single critical transport can, but for destroying that transport.
- LogBaton.BatonPass: sets `canRun` and wakes in one step; that the woken thread may destroy its node before `notify_one` returns is not modelled.
- LogPace.LifeStep: counts transports from a state in which the writer has registered; start-up and the decrement after the loop (`src/log.cpp:189-196`) are not modelled.
- LogSkips.SkipConservation: below 2^32 drops in all, because the counters of the code wrap.
- LogBuffer.LogBufferBaseData.JustWrite: the bytes handed to fwrite; errors of fwrite, fflush and the file are not modelled.
- LogRing.PutHolds: offsets are reduced by `mod B` where the code masks with `B - 1`; the two agree for its power-of-two sizes.
- Sizes and offsets are unbounded naturals: wrap-around of size_t and of the 64-bit offsets is not modelled. The 32-bit skip counters do wrap.
- malloc failure, and everything about a page but that it is fresh and 4096 bytes long.
- Condition variables: a wait ends only when its flag is set or, for the writer, when its loop condition fails; spurious wake-ups and the 200 ms timeout only make a thread look at its condition again.
- Formatting, time stamps and truncation of user messages: a message is any text of 1 to 4095 characters.
- Change of the two level thresholds while loggers run; they are fixed for a run.
- Moves of LogTransport objects.
- Liveness beyond LogTheorems.SleepIsSafe and LogTheorems.ParkedAcrossOneSnapshot: no fairness of the scheduler is assumed or stated.
- optimized_ptr_with_zombie_property_: the form without data; its self-move departs like that of the form with data.
- optimized_allocated_ptr_with_flags_: a subset of the fields of the two-word form.
- 32-bit and WASM variants, where the optimized types are the plain ones or absent.
- Error domains, string references, stack information, symbol resolution, CPU exceptions, the page allocator and the allocator templates: calls into the system, or thin wrappers with only easy claims.
