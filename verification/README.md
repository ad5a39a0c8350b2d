# Verified models of the Cloud Connector API layer

The Cloud Connector API is a threaded C layer over a polled state machine, CCFSM. CCFSM calls back into the
layer, repeats a call that was answered "busy", and never waits; worker threads run the application's callbacks.
The two sides meet in semaphores, status fields and shared records. This project models those meetings, and the
data structures and small algorithms around them, and proves what they are for.

The parts that change state are modelled twice. A *machine* module has a value for the whole state, one function
per atomic step of a thread, an invariant that every step keeps, and theorems about whole runs in which the steps
of the threads interleave in any order. A *service* module has the program's own records as classes with mutable
fields. Each record carries the machine's state as a ghost field `model`; `Valid()` says that the fields and heap
objects hold it and that it satisfies the invariant. Every method is one atomic piece of the C code: it moves the
model by the machine's step, and its contract says what the invariant makes true at that point. A method `Drive`
takes the record through any schedule of the threads' steps, so that the theorems about runs are theorems about the
record. The two list modules have such a method for their operations.

| part | modules | what is proved of it |
|---|---|---|
| Firmware download | `FirmwareChunks`, `FirmwareMachine`, `FirmwareProofs`, `FirmwareRuns`, `FirmwareDownloads`, `FirmwareService` | packets are re-cut into the one canonical sequence of chunks for every packetisation, chunk size, pool size and interleaving, download after download; the ring is exact; delivery makes progress; abort is final; exactly when a start, also one during a download, is harmless |
| Receive service | `ReceiveMachine`, `ReceiveRuns`, `TargetList`, `ReceiveService` | one handoff at a time through the shared slot, one callback per request on the whole request, every request can be answered; what the user is told and given back; exactly when closing a session is harmless |
| Replies and sends | `Streaming` | piecewise delivery is lossless for all buffer sizes |
| Remote configuration | `RciHandshake` | each answered request ran the function due to it exactly once, told what the request says; exactly when the worker's assertion on a missing function can fail, and what follows; exactly when a cancel is harmless |
| Worker threads | `ThreadLifecycle` | stopping ends with the worker gone and its semaphore unused; exactly when it does not end |
| Data points | `DpFormat`, `DpPoints`, `DpCollection`, `DpLists` | format parser and printer undo each other; a point holds exactly the values given for it; count, ids and the connector's chain stay right |
| Virtual directories | `VirtualDirs`, `VirtualDirList`, `CStrings` | the list is a finite map; path translation follows it |
| CRC-32 | `Crc32` | the table-driven loop is polynomial division over GF(2) |
| Hex decoder | `HexDecoder` | decoding is the number the digits spell; it undoes printing |

`Arithmetic`, `Bytes` and `Options` hold what several modules share.

## What is assumed of the surroundings

* A lock is a counting semaphore: release adds one, acquire waits for one and takes it. Memory allocation and lock
  operations succeed.
* CCFSM makes one call at a time. A packet or request answered "busy" is offered again unchanged before any other of
  the same download, session or remote-configuration request.
* Firmware packets are non-empty, carry the image's bytes and end within `code_size`.
* Data arrives only for a receive session whose target call was answered "continue". The reply to a session is asked
  for only when its target was refused, or when its data call has been answered for good
  (`CCAPI_RECEIVE_THREAD_FREE`).
* In the runs of the receive service no session is closed, and in those of the handshake none cancelled, while its
  request is queued for the worker; what happens otherwise is among the findings.
* The application's callbacks are arbitrary: their verdicts, errors and responses are parameters of the steps.
* The variable arguments of `ccapi_dp_add` are those the format of the named stream asks for.
* Names and paths are C strings: they hold no NUL. The maximum path length, a build-time setting, is a parameter of at
  least five, the length the source takes off it.
* The connector thread, which posts to the workers' semaphores, has been stopped before a worker is
  (`source/ccapi_init.c:983-987`).

## Findings

* *Remote configuration.* The handler looks for `set_element` but, when transformed values are embedded, selects
  `set_and_transform_element` (`source/ccapi_rci_handler.c:793-821`). `RciHandshake.WorkerDiesExactly` says in which
  applications the worker's assertion on the function can fail: those that supply the first and not the second, and
  that supply `start_action` or begin with such an action in force. The worker then leaves its loop, and
  `RciHandshake.DeadMeansBusyForEver` proves that the request is answered "busy" for ever.
* *Stopping a worker.* Stop tests the status and then overwrites it (`source/ccapi_init.c:316-318`). A worker that leaves
  its loop by a failed assertion, such as the one above, and exits in between has its last status overwritten, and stop
  waits for ever. `ThreadLifecycle.StopEndsExactly` proves that this is the only way in which a stop does not come to
  its end, and `ThreadLifecycle.StopCanHang` gives a run.
* *A start too early.* The worker gives the last slot back before it advances the tail
  (`source/ccapi_firmware_update_handler.c:78-83`), and a completion looks at the slots only, so that a download can be
  completed in between (`FirmwareDownloads.CompletionMayComeEarly`). If the next download is also started in between, the
  worker advances the new tail past the first slot. `FirmwareDownloads.StartIsSoundExactly` gives the exact condition under
  which a start is sound, and `FirmwareDownloads.StartMisleadsExactly` proves that without it, and only then, the worker
  can take up a slot that is not in use; its callback is then given an empty chunk
  (`FirmwareDownloads.EmptyChunkIsDelivered`).
* *A start during a download.* It is refused, but first all chunk buffers are freed, without the look at the slots that
  complete and abort take (`source/ccapi_firmware_update_handler.c:112-118`). `FirmwareDownloads.RejectionHarmsExactly`
  proves that the worker can come to hand the callback a freed buffer, or the callback lose the one it has, exactly if a
  chunk is queued, acquired or with the callback, and `FirmwareDownloads.ChunkIsQueuedBetweenCalls` that every image
  leads to such a moment. Otherwise the theorems go on to hold.
* *A session closed too early.* The worker looks whether its session was closed while the callback ran by reading the
  record that closing has freed (`source/ccapi_data_handler.c:53`). `ReceiveRuns.ClosingHarmsExactly` proves that the worker
  can use the freed record exactly if the request was queued when its session was closed.
* *A cancel too early.* The handshake provides for a cancel while the function runs
  (`source/ccapi_rci_handler.c:382-386`). `RciHandshake.CancelHarmsExactly` proves that such a cancel does no harm if no
  request is made before the worker is through, but that one before the function is called trips the worker's assertion
  at line 252. `RciHandshake.EarlyRequestIsSpoiledExactly` says which requests made too soon can be answered with the old
  function's outcome, or leave the worker to wake for nothing.
* *Removing a data stream.* Where the first of the list is removed the list's head is set to null
  (`source/ccapi_datapoints.c:781-784`). `DpCollection.RemovalIsExact` gives the exact condition under which the other
  streams and the count survive, and `DpCollection.RemovalUndoesAddition` proves that they do not where the stream added
  last is removed again.
* *Removing older points.* Points are added and removed at the same end, so that the removal takes the point added last
  (`source/ccapi_datapoints.c:1029-1030`, `1064-1068`): `DpCollection.RemovalTakesLastAdded`. It takes the oldest exactly
  where all points of the stream are the same: `DpCollection.OldestIsRemovedExactly`.
* *Streams without a data type.* The check of a format does not ask for a data type (`source/ccapi_datapoints.c:284-366`), and
  the assertion that one was found (`source/ccapi_datapoints.c:550`) then fails. `DpCollection.TypelessStreamIsAccepted` gives
  the exact condition; a format that names only a location is an example (`DpCollection.LocationHasNoType`).
* *Reply length.* The length callback announces what is waiting to be sent (`source/ccapi_data_handler.c:661`). Before the
  first piece of an internal error's text has been asked for, that is nothing, because the text is made by the
  first request for data. `Streaming.AnnouncedLengthIsExact` says when the announced length is right, and
  `ReceiveRuns.WrongLengthIsReached` that it is wrong in states the service reaches.
* *Empty response.* A user that sets an empty response and reports an error loses its buffer: the text of the internal
  error is put in its place (`source/ccapi_data_handler.c:565-571`), and the status callback is not given the buffer back.
  `ReceiveRuns.BufferComesBackExactly` is the exact condition, `ReceiveRuns.EmptyResponseIsLost` a run.

## Model

| member | source | states |
|---|---|---|
| FirmwareChunks.CutWell | source/ccapi_firmware_update_handler.c:233-260 | Canonical chunks start at multiples of the chunk size, are full except perhaps the final one, follow each other without gaps, and only the final one is marked last. |
| FirmwareChunks.CutConcat | source/ccapi_firmware_update_handler.c:246-279 | The canonical chunks hold every byte of the image once and in order. |
| FirmwareRuns.StepKeepsInv | source/ccapi_firmware_update_handler.c:53-396 | Every atomic step of poller and worker keeps the invariant that ties ring, offsets, chunk contents, semaphore and callback log together. |
| FirmwareProofs.InvDefines | source/ccapi_firmware_update_handler.c:60-251 | Where the invariant holds, no step a thread may take reads outside a packet, a slot or the pool. |
| FirmwareRuns.CallbacksFollowThePlan | source/ccapi_firmware_update_handler.c:53-87 | For every run, what the user's data callback has been given is an initial part of the canonical chunks of the image. |
| FirmwareRuns.CompletionIsExact | source/ccapi_firmware_update_handler.c:290-332 | A completion says success exactly when all canonical chunks were delivered, and then they concatenate to the image; it continues exactly when no callback reported invalid data. |
| FirmwareRuns.RingIsExact | source/ccapi_firmware_update_handler.c:56-83 | In every reachable state the in-use slots are the cyclic interval from tail to head, their number is the semaphore count plus the chunks in the two threads' hands, the worker's assertion holds, and the offsets stay within the image. |
| FirmwareRuns.PollerSparesSlotsInUse | source/ccapi_firmware_update_handler.c:231-267 | No step of a data, complete or abort call changes a slot that is in use. |
| FirmwareRuns.CopyStaysInBuffer | source/ccapi_firmware_update_handler.c:235-251 | Once a packet is past the rejections and the head slot is free, a copy takes at least one byte, stays inside packet and chunk buffer, and stops only at the end of one of them. |
| FirmwareRuns.RejectionChangesNothing | source/ccapi_firmware_update_handler.c:215-229 | Helper beside the run theorems: a packet after invalid data, or at the wrong offset, changes nothing but the answer, and says which it was. |
| FirmwareRuns.StrayCallChangesNothing | source/ccapi_firmware_update_handler.c:206-210 | Helper beside the run theorems: a call for another target, or outside a download, is answered with an error and changes nothing but that CCFSM does not offer the packet again. |
| FirmwareRuns.DataAnswersExactly | source/ccapi_firmware_update_handler.c:204-287 | The answer of every data call, in every reachable state: busy if and only if the head slot was in use or part of the packet is left, and exactly then CCFSM offers the packet again and something of it is unprocessed; each error and each code if and only if the source has its reason for it. |
| FirmwareRuns.NoCallbackAfterCancel | source/ccapi_firmware_update_handler.c:334-396 | Once the cancel callback has run, no continuation of the run calls the data callback. |
| FirmwareRuns.AbortEndsTheDownload | source/ccapi_firmware_update_handler.c:347-392 | The cancel callback runs at most once, with the abort's status, when no slot is in use, and ends the download. |
| FirmwareRuns.DeliveryProgress | source/ccapi_firmware_update_handler.c:231-284 | Every step during the delivery of a packet lowers a measure, except offering the packet again and finding the head slot in use; these change nothing but where the poller stands, and in the second case the worker has work to do. |
| FirmwareRuns.DeliveryIsBounded | source/ccapi_firmware_update_handler.c:269-284 | Under any schedule the steps that do more than poll while a packet is delivered are bounded by that measure. |
| FirmwareRuns.PacketCanBeAnswered | source/ccapi_firmware_update_handler.c:231-284 | From every reachable state a packet being delivered can be brought to an answer other than busy, in at most twice that measure of steps and one. |
| FirmwareRuns.CompleteCallMeans | source/ccapi_firmware_update_handler.c:290-332 | In any state between calls: what an uninterrupted call of complete does, in terms of the slots in use, the delivered chunks and the verdicts. |
| FirmwareRuns.AbortCallMeans | source/ccapi_firmware_update_handler.c:334-396 | The same for abort: exactly when it is busy, when it is refused, and when the cancel callback runs, with which status. |
| FirmwareRuns.ScanAllIs | source/ccapi_firmware_update_handler.c:301-308 | The loop over the pool answers busy exactly if some slot from its index on is in use, and otherwise ends the download. |
| FirmwareDownloads.StartIsSoundExactly | source/ccapi_firmware_update_handler.c:168-196 | A start that is not refused gives a state from which the theorems hold if and only if nothing is queued, the worker has nothing in hand, and it is not still to advance the tail of a pool of more than one slot. |
| FirmwareDownloads.EveryDownloadFollowsItsPlan | source/ccapi_firmware_update_handler.c:53-332 | Over any number of downloads of any images in any chunk sizes, and starts refused in between, each coming when the two exact conditions say that it does no harm, the callbacks of the current download are an initial part of its own canonical chunks, and a completed one was answered exactly. |
| FirmwareDownloads.StartMisleadsExactly | source/ccapi_firmware_update_handler.c:56-83 | After a start, some run wakes the worker to a slot that is not in use if and only if the start came before everything was settled in that sense. |
| FirmwareDownloads.EarlyStartMisleads | source/ccapi_firmware_update_handler.c:56-83 | The run that shows it, from every unsettled state. |
| FirmwareDownloads.EmptyChunkIsDelivered | source/ccapi_firmware_update_handler.c:62-68 | One step more, since the assertion does not leave the loop, and the callback is given an empty chunk, which begins no plan. |
| FirmwareDownloads.RejectionHarmsExactly | source/ccapi_firmware_update_handler.c:112-118 | A start that comes during a download is refused and frees the buffers: some run then has the worker or the callback with a chunk whose buffer is gone if and only if a chunk is queued, acquired or with the callback. |
| FirmwareDownloads.BufferIsLost | source/ccapi_firmware_update_handler.c:112-118 | At most three steps of the worker lead there. |
| FirmwareDownloads.RejectionKeepsSound | source/ccapi_firmware_update_handler.c:112-118 | Otherwise the theorems go on to hold, the worker having at most its last slot to give back. |
| FirmwareDownloads.ChunkIsQueuedBetweenCalls | source/ccapi_firmware_update_handler.c:253-279 | Every download of a non-empty image has a run to a moment between two calls at which such a start does harm. |
| FirmwareDownloads.CompletionMayComeEarly | source/ccapi_firmware_update_handler.c:78-83 | With a pool of two slots, every image that fits one chunk has a run that completes it with success while the worker has yet to advance the tail, so that such a start can come. |
| FirmwareService.Service.ProcessStart | source/ccapi_firmware_update_handler.c:95-202 | Each status is returned exactly for its reason; a start that succeeds leaves target, size, chunk size and cancel callback as asked for, and the download it begins keeps the invariant exactly when everything was settled. During a download it is refused and all buffers are gone, while the slots in use stay so, which leaves the worker without a buffer exactly if a chunk is queued, acquired or with the callback. |
| FirmwareService.Service.ProcessData | source/ccapi_firmware_update_handler.c:204-229 | The rejections of a data call: each answer exactly for its reason, the copy otherwise, and the invariant is kept. |
| FirmwareService.Service.CopyPacket | source/ccapi_firmware_update_handler.c:231-284 | The rest of the call up to the release of the semaphore, over slot objects and buffers that share nothing: busy exactly if the head slot is in use, otherwise a copy as above, and the invariant is kept. |
| FirmwareService.Service.Queue | source/ccapi_firmware_update_handler.c:253-260 | Filling in the head slot is the machine's queueing step. |
| FirmwareService.Service.ReleaseChunk | source/ccapi_firmware_update_handler.c:261 | When the semaphore is released, what it counts and the chunk the worker has in hand are all the slots in use, never more than the pool holds. |
| FirmwareService.Service.AdvanceHead | source/ccapi_firmware_update_handler.c:262-279 | The head advances round the pool and the call is answered: busy if and only if part of the packet is left, continue otherwise, and exactly then CCFSM has nothing to offer again. |
| FirmwareService.Service.ProcessComplete | source/ccapi_firmware_update_handler.c:290-332 | A call of complete that the worker does not interrupt: a stray one is an error and changes nothing; it is busy, and changes nothing, exactly while a slot is in use; otherwise the download is over and the answer says whether every planned chunk was delivered and whether the callback objected to any. |
| FirmwareService.Service.ProcessAbort | source/ccapi_firmware_update_handler.c:334-396 | The same for abort: busy exactly while a slot is in use; otherwise the download is over, no callback was added, the cancel callback, if there is one, has had exactly this status, and the answer is an error exactly if that was given a status outside the five; a status its assertion refuses changes nothing. |
| FirmwareService.Service.Scan | source/ccapi_firmware_update_handler.c:301-308 | One turn of the scan, or what follows it, is the machine's scan step. |
| FirmwareService.Service.EndComplete | source/ccapi_firmware_update_handler.c:312-331 | The end of a completion sets code and answer and frees the buffers. |
| FirmwareService.Service.EndAbort | source/ccapi_firmware_update_handler.c:356-395 | The end of an abort calls the cancel callback, where there is one and the status allows it, and frees the buffers. |
| FirmwareService.Service.FreeService | source/ccapi_firmware_update_handler.c:26-40 | All chunk buffers are given up, the slots' other fields stay, and the download is over. |
| FirmwareService.Service.WorkerAcquire | source/ccapi_firmware_update_handler.c:56-62 | Whenever the worker gets the semaphore, its assertion holds and the tail slot holds the chunk of the plan that follows those already delivered. |
| FirmwareService.Service.WorkerCall | source/ccapi_firmware_update_handler.c:60-68 | What the callback is given, read from the tail slot, is the next chunk of the canonical plan: its offset, its bytes and its last mark. |
| FirmwareService.Service.WorkerJudge | source/ccapi_firmware_update_handler.c:69-76 | The error flag of the record is set exactly if some callback so far reported invalid data. |
| FirmwareService.Service.WorkerClear | source/ccapi_firmware_update_handler.c:78 | The slot the worker took is given back, through the pointer it kept: the slots in use are again those the semaphore counts, and one more if the poller is about to release. |
| FirmwareService.Service.WorkerAdvanceTail | source/ccapi_firmware_update_handler.c:79-83 | If a chunk is queued, the tail now stands at the chunk of the plan that comes next, round the end of the pool too. |
| FirmwareService.Service.Drive | source/ccapi_firmware_update_handler.c:53-396 | The record itself, driven through any schedule of the steps of both threads from the start of a download, goes through the run of the machine, and what its data callback has been given is an initial part of the canonical chunks. |
| ReceiveRuns.StepKeepsInv | source/ccapi_data_handler.c:28-667 | Every step of CCFSM, worker and application keeps the receive service's invariant; no step touches a freed record. |
| ReceiveRuns.SlotIsExact | source/ccapi_data_handler.c:419-460 | The shared slot is set exactly while one handoff is outstanding, at most one session is queued and it is the one in the slot, and the semaphore never exceeds one. |
| ReceiveRuns.WorkerAssertionsHold | source/ccapi_data_handler.c:36-59 | The worker's three assertions hold whenever it wakes, and the record it works on is still queued when the callback returns. |
| ReceiveRuns.UserCalledAtMostOnce | source/ccapi_data_handler.c:364-417 | For every session, open or closed, the data callback of the user has run at most once, on the concatenation of all packets in order, never longer than the limit the target of that name had when the session was opened. |
| ReceiveRuns.ReportsAreExact | source/ccapi_data_handler.c:592-652 | For every closed session the status callback is called exactly if there is one; it is told the error the session had, which is what the data callback reported if that was called, and otherwise what the verdict of the cloud says; it is given back the buffer the data callback set, unless an internal error text took its place, which it does to an empty one only. |
| ReceiveRuns.OpeningIsExact | source/ccapi_data_handler.c:241-349 | A session gets the callbacks and the limit of the entry the target list has for its name, and is accepted; without an entry it gets the default callbacks and no limit, and is accepted if and only if there is a default data callback and the user accepts; each error exactly for its reason; continue exactly if accepted. |
| ReceiveRuns.DataIsAnswered | source/ccapi_data_handler.c:351-501 | A packet is answered busy if and only if the request is complete, fits the limit and has yet to be handled, wherever it is on its way; it is refused if and only if it is too big, the user reported an error, or the request had been answered before. |
| ReceiveRuns.ReplyIsAnswered | source/ccapi_data_handler.c:551-590 | A request for a reply is refused exactly if none is required, and then changes nothing. |
| ReceiveRuns.TooBigIsExact | source/ccapi_data_handler.c:373-382 | A packet is refused exactly when the request with it exceeds the target's limit. |
| ReceiveRuns.ContinueMeansHandled | source/ccapi_data_handler.c:478-494 | The last packet is answered continue exactly when the callback has run and reported no error; the reply is then the response it set. |
| ReceiveRuns.RepliesFollowTheirSource | source/ccapi_data_handler.c:551-590 | In every reachable state, what has been sent of a reply and what remains make up its source. |
| ReceiveRuns.TargetsAreDistinct | source/ccapi_receive.c:90-167 | Target names stay distinct and every target has a data callback. |
| ReceiveRuns.AddExtendsTheMap | source/ccapi_receive.c:119-131 | Adding a target maps its name and leaves the others, or reports that it is mapped and changes nothing. |
| ReceiveRuns.RemoveShrinksTheMap | source/ccapi_receive.c:196-222 | Removing a target unmaps its name and leaves the others, or reports that it is not there. |
| ReceiveRuns.ChangesAreAnswered | source/ccapi_receive.c:90-203 | Each error of adding and of removing a target is reported if and only if its reason holds and none that the source looks at earlier; an error changes nothing. |
| ReceiveRuns.SlotIsReleased | source/ccapi_data_handler.c:33-61 | While the slot is taken, poller or worker has a step that brings its release nearer. |
| ReceiveRuns.OthersDoNotDelay | source/ccapi_data_handler.c:351-501 | No other step takes the release of the slot further away. |
| ReceiveRuns.BusyMeansWaiting | source/ccapi_data_handler.c:404-476 | A busy answer means that the request has just become complete, waits for a taken slot, or has the slot. |
| ReceiveRuns.ClosingHarmsExactly | source/ccapi_data_handler.c:592-652 | A session may be closed in any reachable state between calls: some run then has the worker use the freed record if and only if its request was queued, and otherwise the invariant is kept. |
| ReceiveRuns.RequestCanBeAnswered | source/ccapi_data_handler.c:404-494 | From every reachable state each complete request has a run of at most twelve steps that ends with an answer other than busy, and in which, beside the steps of poller and worker that release the slot, CCFSM only offers the last packet of that request again. |
| ReceiveRuns.SlotCanBeReleased | source/ccapi_data_handler.c:33-61 | The slot can be released in at most five steps of poller and worker; a complete request is then processed if it was the one held, and waits as before if not. |
| ReceiveRuns.WrongLengthIsReached | source/ccapi_data_handler.c:654-667 | Where the service has no receive support, every request that wants a reply brings it to a state in which the announced length is wrong. |
| ReceiveRuns.BufferComesBackExactly | source/ccapi_data_handler.c:565-640 | Once the reply has been asked for, the user gets its response buffer back exactly if it reported no error or its response is not empty. |
| ReceiveRuns.EmptyResponseIsLost | source/ccapi_data_handler.c:565-640 | For every error there is a run in which the user sets an empty response and reports the error, and is not given the buffer back. |
| ReceiveService.SvcReceive.Append | source/ccapi_data_handler.c:366-417 | A packet is appended by reallocation, or refused as too big; the last one makes the session ready. |
| ReceiveService.Grown | source/ccapi_data_handler.c:384-401 | The reallocated buffer is the old contents followed by the packet's bytes. |
| ReceiveService.SvcReceive.SendReply | source/ccapi_data_handler.c:551-590 | One piece of the reply is the machine's reply step and the stream's next piece. |
| ReceiveService.Service.ProcessTarget | source/ccapi_data_handler.c:241-349 | Opening a session looks the target up in the linked list, and the session, the answer and the other sessions are exactly as above; the new record is known under its address. |
| ReceiveService.Service.ProcessData | source/ccapi_data_handler.c:351-501 | A data call up to the release of the lock of the worker keeps the invariant, and its answer is exact in the sense above. |
| ReceiveService.Service.Queue | source/ccapi_data_handler.c:419-460 | A ready record takes the free slot: the record itself, not a copy, is what the worker will find there. |
| ReceiveService.Service.ReleaseWorker | source/ccapi_data_handler.c:453 | The worker is woken for exactly one record, which is in the slot, queued, and still known to CCFSM. |
| ReceiveService.Service.ProcessReply | source/ccapi_data_handler.c:551-590 | The piece that is copied out is the next piece of the stream of the reply, and the record keeps the rest; it is refused exactly if no reply is required. |
| ReceiveService.Service.ProcessStatus | source/ccapi_data_handler.c:592-652 | In whatever state the session is: what the status callback is told and given follows as above from the error before the call, the verdict of the cloud and the buffer the user set, and the record is gone. The service stays sound if and only if the request was not queued, and only then the worker cannot come to use the freed record. |
| ReceiveService.Service.AddTarget | source/ccapi_receive.c:90-138 | Adding a target keeps the invariant of the service, its sessions and its slot; the list is that on values, and each error is reported exactly for its reason. |
| ReceiveService.Service.RemoveTarget | source/ccapi_receive.c:169-234 | Removing one likewise. |
| TargetList.List.FindPointer | source/ccapi_receive.c:140-167 | The loop over the linked nodes finds the first of that name, and the pointer that leads to it. |
| TargetList.WholeCompareIsEquality | source/ccapi_receive.c:150-151 | Comparing two C strings over the longer of their lengths finds exactly the equal one. |
| TargetList.List.Add | source/ccapi_receive.c:90-138 | Adding makes the checks in order and pushes a node in front; the nodes then hold the list on values. |
| TargetList.List.Remove | source/ccapi_receive.c:169-234 | Removing makes the checks in order and takes the first match out. |
| TargetList.List.Unlink | source/ccapi_receive.c:212-220 | Setting the pointer that leads to a node takes that node out of the list and leaves the rest, in order. |
| ReceiveService.Service.WorkerAcquire | source/ccapi_data_handler.c:36-45 | When the worker wakes there is a record in the slot that CCFSM still knows, it is queued, and it has a data callback: the three assertions hold. |
| ReceiveService.Service.WorkerCall | source/ccapi_data_handler.c:42-51 | The callback is called, never for the second time for a request, on the bytes of all its packets, the last of which has arrived; the assertions before it do not fail. |
| ReceiveService.Service.WorkerMark | source/ccapi_data_handler.c:53-56 | The record the worker has kept a pointer to has not been freed, and becomes processed. |
| ReceiveService.Service.WorkerClear | source/ccapi_data_handler.c:57 | When the slot is emptied no record is queued and nobody is about to wake the worker: the next request finds the service at rest. |
| ReceiveService.Service.Drive | source/ccapi_data_handler.c:28-667 | The service itself, driven through any schedule of the calls of CCFSM, the steps of the worker and changes of the target list, goes through the run of the machine, and every request, open or closed, has had at most one callback, on the whole of it. |
| Streaming.StreamIsSource | source/ccapi_data_handler.c:77-104 | For every sequence of buffer sizes the pieces concatenate to the source, as far as the sizes reach. |
| Streaming.MoreIsExact | source/ccapi_data_handler.c:102-104 | The more-data flag of each piece is true exactly while bytes remain. |
| Streaming.StreamEnds | source/ccapi_data_handler.c:77-104 | With positive sizes the stream ends after at most one call per byte. |
| Streaming.SendState.constructor | source/ccapi_send.c:268-273 | A send starts with all of its data still to be sent. |
| Streaming.SendState.ProcessRequest | source/ccapi_data_handler.c:67-113 | One call copies the next piece into the caller's buffer, leaves the rest of that buffer alone and advances the cursor. |
| Streaming.SendState.Length | source/ccapi_data_handler.c:208-223 | The announced length of a send is what remains of it. |
| Streaming.InternalErrorFits | source/ccapi_data_handler.c:503-549 | For every error and target the text and its terminator fit the memory allocated for them. |
| Streaming.InternalErrorFillsTemplate | source/ccapi_data_handler.c:505-544 | The text is the template of the source with number, name and target put in for its three conversions, in that order. |
| Streaming.DecimalSpells | source/ccapi_data_handler.c:543 | The number is written in decimal digits that spell it, without leading zeros. |
| Streaming.InternalErrorTells | source/ccapi_data_handler.c:503-549 | The text tells the error and the target: two equal texts are of the same ones. |
| Streaming.ReplyIsStream | source/ccapi_data_handler.c:565-586 | For every sequence of buffer sizes the reply is the stream of the user's response if that is not empty, otherwise of the internal error's text. |
| Streaming.TextMadeOnce | source/ccapi_data_handler.c:565-571 | The text is made by the first call, only where one is needed, and never again. |
| Streaming.AnnouncedLengthIsExact | source/ccapi_data_handler.c:654-667 | Before the first piece the announced reply length is that of the stream exactly when no text has yet to be made. |
| RciHandshake.StepKeepsInv | source/ccapi_rci_handler.c:236-1052 | Every step of poller and worker keeps the handshake's invariant. |
| RciHandshake.AnswersAreExact | source/ccapi_rci_handler.c:464-1047 | Every answered request was handed to the function due to it, exactly once, or to none where none is due, went idle, queued, processed, idle, and is answered with what that call left; the function was told the context and hint of the request and the action and transform flag in force with it; answers belong to different requests and come in order. What is due to an element request follows from the requests accepted before it: to a query get_element if supplied; to a set nothing without set_element, otherwise set_element, or set_and_transform_element when the last start of setting settings said so; to any other action nothing. |
| RciHandshake.HandshakeAssertionsHold | source/ccapi_rci_handler.c:252-458 | The worker wakes to a queued request with a callback, a new request finds none left over, and the semaphore never exceeds one. |
| RciHandshake.WorkerOnlyWhileQueued | source/ccapi_rci_handler.c:243-389 | The worker is at work only on a request that is still queued and polled. |
| RciHandshake.WorkerDiesExactly | source/ccapi_rci_handler.c:791-822 | The assertion of the worker on its function can fail if and only if the application supplies set_element without set_and_transform_element and either supplies start_action or begins with such an action in force. |
| RciHandshake.DeadMeansBusyForEver | source/ccapi_rci_handler.c:948-953 | From then on every poll is answered busy, the request stays queued and nothing is answered any more, whatever happens. |
| RciHandshake.BusyMeansProgress | source/ccapi_rci_handler.c:948-953 | While a request is queued a poll changes nothing but the answer, and every other step brings the end of the wait nearer; the wait ends with the request processed, or with the worker gone, exactly if it begins a call of a function that is not supplied. |
| RciHandshake.WaitIsBounded | source/ccapi_rci_handler.c:236-389 | However often it is polled, a request stays queued for at most five steps that are not polls. |
| RciHandshake.RequestCanBeAnswered | source/ccapi_rci_handler.c:243-1047 | From every reachable state a request in flight whose function is supplied has a run of at most six steps that answers it. |
| RciHandshake.CancelHarmsExactly | source/ccapi_rci_handler.c:443-452 | A session may be cancelled in any reachable state between polls. As long as CCFSM makes no new request before the worker is through, some run then wakes the worker to no queued request, or gives an inexact answer, if and only if a request is queued whose function has not been called yet. |
| RciHandshake.EarlyRequestIsSpoiledExactly | source/ccapi_rci_handler.c:382-386 | A request that is accepted while the worker is still at work for a cancelled one can be spoiled in that way if and only if it has a function of its own, or the old function has yet to return. |
| RciHandshake.Service.constructor | source/ccapi_init.c:635-638 | The handshake starts idle without a callback. |
| RciHandshake.Service.Handle | source/ccapi_rci_handler.c:454-1048 | A poll up to the release of the lock: a new request finds no callback left over (the assertion at line 458), a processed one is answered exactly, and any other poll is busy and answers nothing. |
| RciHandshake.Service.SelectEntry | source/ccapi_rci_handler.c:464-933 | The request switch selects the function, and updates action and transform flag, as the machine's selection says. |
| RciHandshake.Service.ReleaseLock | source/ccapi_rci_handler.c:942 | The worker is woken once, for a request that is queued and has a callback, while it waits. |
| RciHandshake.Service.CancelSession | source/ccapi_rci_handler.c:443-452 | In whatever state the request is: the callback is gone and the status idle. If none was queued, nothing is left in the semaphore or with the worker, and the invariant is kept; if one was, its harm is exactly as above, and a function that is running is let finish. |
| RciHandshake.Service.WorkerBegin | source/ccapi_rci_handler.c:252-349 | The assertions on status and callback always hold; the one on the function fails exactly if the application does not supply it; no call has been made for this request before. |
| RciHandshake.Service.WorkerFinish | source/ccapi_rci_handler.c:263-380 | The function that has run is one the application supplies, it was told what the request says, and this is the only call made for the request. |
| RciHandshake.Service.WorkerMark | source/ccapi_rci_handler.c:383-386 | The request is still queued and becomes processed, with the results of its one call, told what the request says, in the record. |
| RciHandshake.Service.Drive | source/ccapi_rci_handler.c:236-1052 | The record itself, driven through any schedule of both threads, goes through the run of the machine, and every request it answers is answered exactly. |
| ThreadLifecycle.StepKeepsInv | source/ccapi_init.c:271-331 | Every step of controlling thread and worker, failing assertions among them, keeps the invariant between status, semaphore, counts and the positions of the two threads. |
| ThreadLifecycle.StoppedMeansQuiet | source/ccapi_init.c:310-331 | When stop has returned the worker has left, nothing more can happen, and no operation ever touched the destroyed semaphore. |
| ThreadLifecycle.NoCallbackOnceRequested | source/ccapi_init.c:316-322 | From the moment the stop is requested no callback starts but the one to which a worker past its second look at the status is already committed. |
| ThreadLifecycle.CallbacksWerePosted | source/ccapi_init.c:271-331 | Over every run the worker starts no more callbacks than it was posted, and the semaphore holds what was posted and released and not yet taken. |
| ThreadLifecycle.StopProgress | source/ccapi_init.c:322-326 | After the release every step of the worker brings it nearer to its exit, and nothing else moves it; the loop that waits ends only once it has exited. |
| ThreadLifecycle.WorkerNotBlocked | source/ccapi_data_handler.c:38-62 | After the release the worker is never blocked. |
| ThreadLifecycle.WorkerStepsAreBounded | source/ccapi_init.c:324-326 | Wherever the worker was, it takes at most six more steps while stop waits for it. |
| ThreadLifecycle.StopEndsExactly | source/ccapi_init.c:316-326 | Over every run: a stop that waits can come to its end if and only if the worker did not exit between the test and the request, and only a worker whose assertion failed does that. |
| ThreadLifecycle.StopCanEnd | source/ccapi_init.c:324-328 | Otherwise eight steps suffice to end it. |
| ThreadLifecycle.LostIsForEver | source/ccapi_init.c:324-326 | A stop whose worker exited in between waits for ever. |
| ThreadLifecycle.StopCanHang | source/ccapi_init.c:316-326 | There is such a run. |
| ThreadLifecycle.StartedMeansRunning | source/ccapi_init.c:302-305 | Start returns only with the worker running or gone by a failed assertion, so that a stop request cannot be overwritten by a worker that is only entering. |
| ThreadLifecycle.LoopEndsWhenAsked | source/ccapi_data_handler.c:60 | The closing assertion of the worker holds over every run: its loop ends only when it is asked to stop. |
| ThreadLifecycle.ThreadInfo.CheckStarted | source/ccapi_init.c:302-305 | When the loop that waits for the start ends, the worker is past its entry, or has failed an assertion and is gone. |
| ThreadLifecycle.ThreadInfo.TestStatus | source/ccapi_init.c:316 | The request is skipped only if the worker is already gone. |
| ThreadLifecycle.ThreadInfo.RequestStop | source/ccapi_init.c:318 | The request hangs the stop exactly if the worker has exited since the test. |
| ThreadLifecycle.ThreadInfo.Release | source/ccapi_init.c:321-322 | The semaphore is there, and a worker that has yet to acquire it finds it released. |
| ThreadLifecycle.ThreadInfo.CheckExited | source/ccapi_init.c:324-326 | The loop that waits for the exit ends exactly when the worker has exited, unless that exit was lost. |
| ThreadLifecycle.ThreadInfo.DestroyLock | source/ccapi_init.c:328 | When the semaphore is destroyed the worker is gone, and no operation has ever met a destroyed semaphore. |
| ThreadLifecycle.ThreadInfo.Enter | source/ccapi_data_handler.c:35 | When the worker sets the status start is still waiting, so that no stop request is overwritten. |
| ThreadLifecycle.ThreadInfo.Test | source/ccapi_data_handler.c:36-60 | The loop ends exactly if a stop was requested, which is the closing assertion of the worker. |
| ThreadLifecycle.ThreadInfo.Acquire | source/ccapi_data_handler.c:38 | The semaphore the worker takes has not been destroyed, and stop has not returned. |
| ThreadLifecycle.ThreadInfo.TestAgain | source/ccapi_data_handler.c:40 | Once a stop is requested the worker returns to its loop without a callback. |
| ThreadLifecycle.ThreadInfo.Leave | source/ccapi_data_handler.c:62-64 | The exit is lost exactly if stop stands between its test and its request, and only a worker whose assertion failed can be that late. |
| ThreadLifecycle.ThreadInfo.Drive | source/ccapi_init.c:271-331 | The record itself, driven through any schedule of both threads, goes through the run of the machine; when stop has returned the worker is gone and the semaphore was never used after it was destroyed; and no callback has started that was not posted. |
| DpFormat.ParseInvertsPrint | source/ccapi_datapoints.c:432-501 | Every valid list of arguments is what its printed form parses to, also with one space after it. |
| DpFormat.PrintInvertsParse | source/ccapi_datapoints.c:432-501 | A string that parses is the printed form of its arguments, with at most one space after it. |
| DpFormat.ParsesExactly | source/ccapi_datapoints.c:432-501 | A format is accepted, with these arguments, exactly when it is one to four known keywords joined by single spaces, no category twice, with at most one space after them. |
| DpFormat.KeyRoundTrip | source/ccapi_datapoints.c:412-430 | Looking a keyword up in the table and naming an argument undo each other. |
| DpFormat.ValidArgumentList | source/ccapi_datapoints.c:284-366 | The flags accept exactly one to four known arguments of different categories. |
| DpFormat.GetType | source/ccapi_datapoints.c:503-553 | The loop finds the first data type of the list. |
| DpFormat.TypeIsExact | source/ccapi_datapoints.c:503-553 | Of an accepted format that is the one data type it names, and there is none exactly if it names none. |
| DpFormat.GetNextKeyword | source/ccapi_datapoints.c:387-410 | The token at the cursor is cut off in place, and what follows is untouched. |
| DpFormat.LookUp | source/ccapi_datapoints.c:462-475 | The comparison loop finds the argument of the keyword. |
| DpFormat.GetArgumentList | source/ccapi_datapoints.c:432-501 | The parser over a cut-up copy, which never writes past its four entries, computes the parse. |
| DpPoints.CreatePoint | source/ccapi_datapoints.c:830-961 | The loop over the arguments of the stream builds the point of the variable arguments. |
| DpPoints.PointIsExact | source/ccapi_datapoints.c:830-961 | For every accepted format that point is the only one from which each value can be read back under its argument, and which is as initialised in every category the format does not name. |
| DpCollection.CountIsExact | source/ccapi_datapoints.c:593-1118 | Over every run of additions, removals and sends the stream ids are distinct and the count is the number of points held, in 32 bits. |
| DpCollection.OperationKeepsInv | source/ccapi_datapoints.c:593-1307 | Every operation keeps that, and that the format of every stream is a valid one. |
| DpCollection.AdditionIsExact | source/ccapi_datapoints.c:593-734 | Each error of adding a stream is reported if and only if its reason holds and none that the source looks at earlier, where a format is in order exactly if it passes the first check and is the printed form of some valid arguments; a stream that is added comes in front of the others with its id, units and forwarding, exactly those arguments, the data type among them, and no points. |
| DpCollection.PointsAreOfTheFormat | source/ccapi_datapoints.c:593-1047 | For every valid list of arguments the stream that is added with its printed form accepts the values for them, and the point then holds every value under its argument. |
| DpCollection.TypelessStreamIsAccepted | source/ccapi_datapoints.c:284-366 | Every valid list of arguments is accepted as a format, and the stream has no data type if and only if the list names none. |
| DpCollection.SendIsAllOrNothing | source/ccapi_datapoints.c:1120-1307 | Helper beside the count theorem: a send fails and changes nothing, or succeeds, exactly when nothing was in its way, and leaves every stream in place and empty. |
| DpCollection.SendAnswersExactly | source/ccapi_datapoints.c:1120-1307 | Helper beside it: which error a send reports. |
| DpCollection.PointGoesToItsStream | source/ccapi_datapoints.c:979-1047 | A point is added in front of the one stream with its id and to no other, and it holds exactly the values supplied, each under the argument the format of the stream names for it. |
| DpCollection.PointIsRefusedExactly | source/ccapi_datapoints.c:1000-1015 | A point is refused if and only if the id is not valid or no stream has it, and then nothing changes. |
| DpCollection.RemovalTakesLastAdded | source/ccapi_datapoints.c:1049-1079 | Removing the older points undoes the addition that came last: the stream is as it was before it, and every other one loses the point at its front. |
| DpCollection.OldestIsRemovedExactly | source/ccapi_datapoints.c:1049-1079 | It leaves a stream without its oldest point if and only if all of its points are the same. |
| DpCollection.RemovalIsExact | source/ccapi_datapoints.c:736-801 | A removal takes out the named stream alone if and only if it is not the first of several; the count is right afterwards if and only if that is so, or the streams lost with it hold no points in 32 bits. |
| DpCollection.RemovalUndoesAddition | source/ccapi_datapoints.c:593-801 | Removing the stream just added gives back the collection if and only if that was empty; otherwise all streams are lost and the count stays. |
| DpLists.FollowChain | source/ccapi_datapoints.c:1195-1202 | Following the chain of the connector reads the ids, units, forwarding, data types and points of exactly the streams of the collection, in order. |
| DpLists.Collection.constructor | source/ccapi_datapoints.c:53-54 | A collection starts empty. |
| DpLists.Collection.FindStream | source/ccapi_datapoints.c:574-591 | The loop finds the node of that id. |
| DpLists.Collection.AddStream | source/ccapi_datapoints.c:593-734 | Adding a stream keeps both chains in agreement, and its errors and the stream that is added are exact in the sense above. |
| DpLists.Collection.PushFront | source/ccapi_datapoints.c:705-710 | The new node goes in front, its chain pointer null. |
| DpLists.Collection.AddPoint | source/ccapi_datapoints.c:979-1047 | Adding a point makes the checks in order, decodes the variable arguments by the format of the node that was found and puts the point in front of that node; nodes and chain then hold the collection on values. |
| DpLists.Collection.RemoveOlder | source/ccapi_datapoints.c:1049-1079 | One point goes from the front of every stream that has one, and the count follows. |
| DpLists.Collection.Chain | source/ccapi_datapoints.c:1081-1097 | Afterwards the connector's chain visits exactly the collection's streams, in order, and ends in null. |
| DpLists.Collection.FreePoints | source/ccapi_datapoints.c:1099-1118 | Every stream is emptied, the chain stays right and the count is zero. |
| DpLists.Collection.Send | source/ccapi_datapoints.c:1120-1307 | A send hands the connector exactly the collection's streams and points, and ends as the value operation says. |
| DpLists.Collection.Drive | source/ccapi_datapoints.c:593-1307 | The nodes and records themselves, driven through any operations from an empty collection, hold the collection these make: its ids are distinct, its formats valid, and its count is that of its points. |
| DpLists.CheckId | source/ccapi_datapoints.c:219-243 | An id is accepted exactly when it is non-empty and made of the allowed characters. |
| DpLists.CheckFormat | source/ccapi_datapoints.c:245-267 | A format passes the first check exactly when it is non-empty, does not start with a space and is made of the allowed characters. |
| CStrings.LongestCompareIsEquality | source/ccapi_filesystem.c:183-185 | Comparing a slash-free name with an unterminated slice over the longer of the two lengths finds exactly the equal name. |
| VirtualDirs.OperationRefinesMap | source/ccapi_filesystem.c:123-274 | Adding and removing a directory, with all their errors, are the same operations on a finite map, for every maximum path length. |
| VirtualDirs.RunRefinesMap | source/ccapi_filesystem.c:123-274 | Over every run the list is that map, with distinct slash-free names. |
| VirtualDirs.AdditionIsExact | source/ccapi_filesystem.c:123-170 | Each error of an addition is reported if and only if its reason holds and none that the source looks at earlier; a name is in order exactly if it is not empty, holds neither slash nor backslash and leaves room for "/" + name + "/.." and a terminator. |
| VirtualDirs.RemovalIsExact | source/ccapi_filesystem.c:201-274 | The same for a removal. |
| VirtualDirs.TranslateIsMapped | source/ccapi_filesystem_handler.c:234-275 | "/" + v + rest becomes local(v) + rest if v is mapped, nothing if it is not, and stays itself if the list is empty. |
| VirtualDirs.TranslationFollowsTheMap | source/ccapi_filesystem_handler.c:234-275 | The same over every run of additions and removals. |
| VirtualDirs.PathsHaveComponents | source/ccapi_filesystem_handler.c:224-232 | Every path that starts with a separator is of that form. |
| VirtualDirList.FileSystem.FindPointer | source/ccapi_filesystem.c:172-199 | The loop finds the first matching entry and the pointer that leads to it. |
| VirtualDirList.FileSystem.AddVirtualDir | source/ccapi_filesystem.c:123-170 | Adding makes the source's checks in their order and pushes in front. |
| VirtualDirList.FileSystem.RemoveVirtualDir | source/ccapi_filesystem.c:201-274 | Removing makes the source's checks in their order and unlinks the match. |
| VirtualDirList.FileSystem.Unlink | source/ccapi_filesystem.c:238-245 | The node is unlinked through the pointer that leads to it, and the rest of the list stays. |
| VirtualDirList.FileSystem.ComponentEnd | source/ccapi_filesystem_handler.c:224-232 | The loop stops at the end of the first component. |
| VirtualDirList.FileSystem.LocalPath | source/ccapi_filesystem_handler.c:234-275 | The translated path is the value translation, and must be freed exactly when it was built. |
| VirtualDirList.FileSystem.Drive | source/ccapi_filesystem.c:123-274 | The nodes themselves, driven through any operations from an empty list, hold the finite map these make, and every path of a component and a rest is translated by it. |
| Crc32.Crc | tests/ccimp/crc_32.c:121-145 | For every byte sequence the result is the complement of the remainder of the message, times x^32 and with its first 32 bits complemented, divided by the generator: the FCS of section 8.1.1.6.2 of ITU-T V.42. |
| Crc32.EntryIsShift8 | tests/ccimp/crc_32.c:46-112 | Every table entry is eight shift-and-xor steps applied to its index. |
| Crc32.UpdateIsSerial | tests/ccimp/crc_32.c:21-22 | One table look-up does what feeding the octet's eight bits, lowest first, to the shift register does. |
| Crc32.StepsXor | tests/ccimp/crc_32.c:46-66 | The shift register is linear over xor. |
| Crc32.RegisterDivides | tests/ccimp/crc_32.c:26-45 | The shift register computes the remainder of long division by the generator. |
| HexDecoder.DigitToNibble | tests/samples/demo/device_id_utils.c:32-53 | The backward loop yields the last hex digit at or before the index and leaves the index before it, or zero when there is none. |
| HexDecoder.StringToByteArray | tests/samples/demo/device_id_utils.c:56-71 | The array is filled with the decoded digits. |
| HexDecoder.DecodesTheNumber | tests/samples/demo/device_id_utils.c:56-71 | The bytes, read big-endian, are the number the string's hex digits spell, modulo what fits. |
| HexDecoder.DecodeInvertsPrint | tests/samples/demo/device_id_utils.c:54-71 | Bytes printed as hex digits in either case, with any other characters before, between and after them, decode to the same bytes. |
| HexDecoder.EveryStringIsPrinted | tests/samples/demo/device_id_utils.c:32-53 | Every string is such a printing of its own digits. |

## Left out

* Network, file, hardware, DNS and logging code, transports, and the dispatch of CCFSM's requests to the handlers.
* Memory-allocation failures, failing lock calls and heap accounting; file-backed sends with short reads.
* Firmware offsets are unbounded numbers; they are proved to stay within the image, so the 32-bit fields do not wrap
  for images that fit them. Pools have at most 255 slots, because the loops over them count in eight bits.
* The numeric values of the firmware status enumeration, on which the assertion at line 386 of the firmware handler depends,
  are not part of this model: whether it holds is a parameter of the abort step.
- FirmwareService.Service.ProcessStart: the request callback's individual refusals are one parameter, because each is passed through unchanged.
- FirmwareService.Service.ProcessComplete: is about calls the worker does not interrupt; interrupted ones are the runs of BeginComplete and Scan, which Drive covers.
- FirmwareRuns.DeliveryIsBounded: counts only steps that do something, because a scheduler may poll a starved worker's download for ever.
* Error values outside the receive-error enumeration, which an application's callback could return.
* The remote-configuration worker's assertions that CCFSM supplied the pointers to values and items; enumerations passed as strings, group, list and element bookkeeping in rci_info, and the attributes of queries.
- RciHandshake.AnswersAreExact: says nothing of requests abandoned by a session cancel, because those are not answered.
- ThreadLifecycle.StopEndsExactly: is about one start and one stop; a worker that failed an assertion is not restarted.
* The command-line machine of `source/ccapi_sm_handler.c`, which has the shape of the receive service.
* Clearing a collection, after which the source's list consists of freed nodes and nothing can be said of it; null collection
  pointers.
- DpCollection.RemovalIsExact: is about values and not part of the runs, because the source goes on to read the node it has freed, and does not touch the connector's chain.
- DpPoints.PointIsExact: numbers are reals, because the narrowing of a promoted argument to `float` is not modelled; the fields of the native union are told apart.
* Concurrent changes of the lists of virtual directories and of receive targets; each change is one step here.
* The listing of the root directory.
- VirtualDirs.TranslateIsMapped: assumes a non-empty path whose first character is the separator, because the source skips that character unseen.
- HexDecoder.StringToByteArray: covers ASCII characters, because the C character classes depend on the locale beyond them.
- Crc32.Crc: the bytes are given as a sequence, because reading the file is input and output.
