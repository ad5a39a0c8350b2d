// The firmware service as the source keeps it: one record updated in place by
// the poller's calls and by the worker thread. Each method is one atomic piece
// of a thread. `model` is the state of the machine, history included: the record
// holds it, every method moves it by the step of the same name, and the contracts
// say what the machine's invariant buys at that point.
module FirmwareService {
  import opened Bytes
  import opened FirmwareChunks
  import opened FirmwareMachine
  import opened FirmwareProofs
  import opened FirmwareRuns
  import opened FirmwareDownloads

  class ChunkInfo {
    var inUse: bool
    var offset: nat
    var data: array?<Byte>
    var size: nat
    var last: bool

    ghost function View(): Slot
      reads this, data
    {
      Slot(inUse, offset, if data == null then [] else data[..], size, last)
    }
  }

  ghost function Buffers(pool: seq<ChunkInfo>): set<object>
    reads pool
  {
    set c | c in pool && c.data != null :: c.data
  }

  // The entries and their buffers do not alias.
  ghost predicate Distinct(pool: seq<ChunkInfo>)
    reads pool
  {
    && (forall i, j :: 0 <= i < j < |pool| ==> pool[i] != pool[j])
    && (forall i, j :: 0 <= i < j < |pool| && pool[i].data != null ==> pool[i].data != pool[j].data)
  }

  // The pool holds these slots.
  ghost predicate Mirrors(pool: seq<ChunkInfo>, slots: seq<Slot>)
    reads pool, Buffers(pool)
  {
    && |slots| == |pool|
    && forall i :: 0 <= i < |pool| ==> pool[i].View() == slots[i]
  }

  // A buffer of some length is there.
  lemma BufferIsThere(slot: ChunkInfo, length: nat)
    requires |slot.View().data| == length && 0 < length
    ensures slot.data != null && slot.data.Length == length
  {
  }

  datatype StartStatus = StartSuccess | StartError | StartInvalidSize | StartDenied

  class Service {
    const pool: seq<ChunkInfo>

    var chunkSize: nat
    var target: nat
    var hasCancel: bool
    var totalSize: nat
    var started: bool
    var head: nat
    var tail: nat
    var headOffset: nat
    var tailOffset: nat
    var processed: nat
    var dataError: bool
    var semaphore: nat
    // where each thread is, with the locals of a call that has not returned
    var poller: Poller
    var worker: Worker
    var answer: Answer

    ghost var model: State

    ghost predicate Fields()
      reads this
    {
      && chunkSize == model.chunkSize && target == model.target && hasCancel == model.hasCancel
      && totalSize == |model.image| && started == model.started
      && head == model.head && tail == model.tail
      && headOffset == model.headOffset && tailOffset == model.tailOffset && processed == model.processed
      && dataError == model.dataError && semaphore == model.semaphore
      && poller == model.poller && worker == model.worker && answer == model.answer
    }

    // The record holds the model.
    ghost predicate Linked()
      reads this, pool, Buffers(pool)
    {
      Fields() && Distinct(pool) && Mirrors(pool, model.slots)
    }

    ghost predicate Valid()
      reads this, pool, Buffers(pool)
    {
      Linked() && Inv(model)
    }

    constructor (size: nat)
      requires 0 < size <= MAX_SLOTS
      ensures fresh(this) && fresh(pool) && |pool| == size && Linked() && AtRest(model) && Settled(model)
    {
      var entries: seq<ChunkInfo> := [];
      while |entries| < size
        invariant |entries| <= size
        invariant fresh(entries)
        invariant forall i, j :: 0 <= i < j < |entries| ==> entries[i] != entries[j]
        invariant forall i :: 0 <= i < |entries| ==>
                                entries[i].data == null && entries[i].View() == Slot(false, 0, [], 0, false)
        decreases size - |entries|
      {
        var entry := new ChunkInfo;
        entry.inUse, entry.offset, entry.data, entry.size, entry.last := false, 0, null, 0, false;
        entries := entries + [entry];
      }
      pool := entries;
      chunkSize, target, hasCancel, totalSize, started := 1, 0, false, 0, false;
      head, tail, headOffset, tailOffset, processed, dataError := 0, 0, 0, 0, 0, false;
      semaphore, poller, worker, answer := 0, Idle, Waiting, Answer(Continue, Unset);
      new;
      model := State([], 1, [], 0, false, false, seq(size, _ => Slot(false, 0, [], 0, false)), 0, 0, 0, 0, 0, false,
                     0, Idle, Waiting, [], [], [], Answer(Continue, Unset), Aborted);
      assert |model.slots| == size;
    }

    // ------------------------------------------------------------ the pool

    // free_and_stop_service
    method FreeService()
      requires Linked()
      modifies this`started, this`model, pool
      ensures Linked() && model == FreeAndStop(old(model)) && Buffers(pool) == {}
    {
      FreePool(model.slots);
      started := false;
      model := FreeAndStop(model);
    }

    method FreePool(ghost slots: seq<Slot>)
      requires Distinct(pool) && Mirrors(pool, slots)
      modifies pool
      ensures Distinct(pool) && Buffers(pool) == {} && |slots| == |pool|
      ensures forall j :: 0 <= j < |pool| ==> pool[j].View() == slots[j].(data := [])
    {
      var i := 0;
      while i < |pool|
        modifies pool
        invariant i <= |pool|
        invariant Distinct(pool)
        invariant forall j :: 0 <= j < |pool| ==>
                                pool[j].inUse == old(pool[j].inUse) && pool[j].offset == old(pool[j].offset) &&
                                pool[j].size == old(pool[j].size) && pool[j].last == old(pool[j].last)
        invariant forall j :: 0 <= j < i ==> pool[j].data == null
        invariant forall j :: i <= j < |pool| ==> pool[j].data == old(pool[j].data)
      {
        if pool[i].data != null {
          pool[i].data := null;
        }
        i := i + 1;
      }
      forall j | 0 <= j < |pool|
        ensures pool[j].View() == slots[j].(data := [])
      {
        assert old(pool[j].View()) == slots[j];
      }
    }

    // memcpy into the head slot's buffer
    method CopyInto(buffer: array<Byte>, at: nat, bytes: seq<Byte>)
      requires at + |bytes| <= buffer.Length
      modifies buffer
      ensures buffer[..] == Blit(old(buffer[..]), at, bytes)
    {
      var i := 0;
      while i < |bytes|
        invariant i <= |bytes|
        invariant forall j :: 0 <= j < buffer.Length ==>
                                buffer[j] == if at <= j < at + i then bytes[j - at] else old(buffer[j])
      {
        buffer[at + i] := bytes[i];
        i := i + 1;
      }
    }

    method CopyToHead(bytes: seq<Byte>)
      requires Linked() && Shape(model) && started
      requires tailOffset % chunkSize + |bytes| <= chunkSize
      modifies this`model, pool[head].data
      ensures Linked() && model == CopyBytes(old(model), bytes)
      ensures Buffers(pool) == old(Buffers(pool))
    {
      assert pool[head].View() == model.slots[head];
      BufferIsThere(pool[head], chunkSize);
      CopyInto(pool[head].data, tailOffset % chunkSize, bytes);
      model := CopyBytes(model, bytes);
    }

    method FillSlot(i: nat, offset: nat, size: nat, last: bool, ghost slots: seq<Slot>)
      requires Distinct(pool) && Mirrors(pool, slots) && i < |pool|
      modifies pool[i]
      ensures |slots| == |pool| && Distinct(pool)
      ensures Mirrors(pool, slots[i := Slot(true, offset, slots[i].data, size, last)])
      ensures Buffers(pool) == old(Buffers(pool))
    {
      var slot := pool[i];
      assert slot.View() == slots[i];
      slot.offset := offset;
      slot.size := size;
      slot.last := last;
      slot.inUse := true;
    }

    // ------------------------------------------------------------ a data call

    // ccapi_process_firmware_update_data, up to the look at the head slot
    method ProcessData(target: nat, packet: Packet)
      requires Valid() && Enabled(model, Data(target, packet))
      modifies this`answer, this`poller, this`model
      ensures Valid() && model == DataCall(old(model), target, packet)
      ensures AnswersExactly(old(model), Data(target, packet), model)
    {
      DataKeepsInv(model, target, packet);
      DataAnswersExactly(model, Data(target, packet));
      hide Inv, AnswersExactly;
      if Accepts(target, packet) {
        Check(packet);
      } else if target != this.target || !started {
        Respond(packet, Answer(Error, Unset));
      } else if dataError {
        Respond(packet, Answer(Continue, InvalidData));
      } else {
        Respond(packet, Answer(Continue, InvalidOffset));
      }
    }

    method Check(packet: Packet)
      requires Linked()
      modifies this`poller, this`model
      ensures Linked() && model == old(model).(poller := Checked(packet), pending := [])
    {
      poller := Checked(packet);
      model := model.(poller := Checked(packet), pending := []);
    }

    // The rest of the call, up to the release of the semaphore: busy, or a copy of what
    // the packet and the chunk allow, which stays inside the head slot's buffer.
    method CopyPacket()
      requires Valid() && poller.Checked?
      modifies this, pool, Buffers(pool)
      ensures Valid() && Defined(old(model), FirmwareMachine.Copy) && model == CopyStep(old(model))
      ensures Buffers(pool) <= old(Buffers(pool))
      ensures AnswersExactly(old(model), FirmwareMachine.Copy, model)
      ensures !old(model).slots[old(model).head].inUse ==> CopyIsExact(old(model))
    {
      StepKeepsInv(model, FirmwareMachine.Copy);
      if !model.slots[model.head].inUse {
        CopyStaysInBuffer(model);
      }
      DataAnswersExactly(model, FirmwareMachine.Copy);
      hide Inv, AnswersExactly, CopyIsExact;
      assert pool[head].View() == model.slots[head];
      if pool[head].inUse {
        Respond(poller.packet, Answer(Busy, Success));
      } else {
        Copy();
      }
    }

    // The rejections.
    predicate Accepts(target: nat, packet: Packet)
      reads this
    {
      target == this.target && started && !dataError && packet.offset == tailOffset - processed
    }

    method Respond(packet: Packet, reply: Answer)
      requires Linked()
      modifies this`answer, this`poller, this`model
      ensures Linked() && model == Return(old(model), packet, reply)
    {
      answer := reply;
      poller := Idle;
      model := Return(model, packet, reply);
    }

    // The copy for a packet that passed the rejections, the head slot being free.
    method Copy()
      requires Linked() && Defined(model, FirmwareMachine.Copy) && !model.slots[head].inUse
      modifies this`headOffset, this`tailOffset, this`processed, this`answer, this`poller, this`model,
               pool, Buffers(pool)
      ensures Linked() && model == CopyStep(old(model))
      ensures Buffers(pool) == old(Buffers(pool))
    {
      hide CopyIntoHead;
      var packet := poller.packet;
      var at := tailOffset % chunkSize;
      var copied := Min(|packet.bytes| - processed, chunkSize - at);
      var next := tailOffset + copied;
      if tailOffset < headOffset {
        SkipTo(next);
        Respond(packet, Answer(Continue, Success));
      } else {
        FillHead(packet, copied, next);
      }
    }

    method SkipTo(next: nat)
      requires Linked()
      modifies this`tailOffset, this`model
      ensures Linked() && model == old(model).(tailOffset := next)
    {
      tailOffset := next;
      model := model.(tailOffset := next);
    }

    // The copy into the head slot, and queueing it if that completes a chunk.
    method FillHead(packet: Packet, copied: nat, next: nat)
      requires Linked() && Shape(model) && started
      requires processed + copied <= |packet.bytes|
      requires tailOffset % chunkSize + copied <= chunkSize
      requires next == tailOffset + copied && headOffset <= next
      modifies this`headOffset, this`tailOffset, this`processed, this`answer, this`poller, this`model,
               pool, Buffers(pool)
      ensures Linked() && model == CopyIntoHead(old(model), packet, copied, next)
      ensures Buffers(pool) == old(Buffers(pool))
    {
      hide QueueHead, Settle;
      CopyToHead(packet.bytes[processed..processed + copied]);
      var last := next == totalSize;
      if last || next % chunkSize == 0 {
        Queue(packet, copied, next, last);
      } else {
        Finish(packet, copied);
      }
    }

    method Queue(packet: Packet, copied: nat, next: nat, last: bool)
      requires Linked() && head < |pool| && headOffset <= next
      modifies this`headOffset, this`poller, this`model,
               pool[head]
      ensures Linked() && model == QueueHead(old(model), packet, copied, next, last)
      ensures Buffers(pool) == old(Buffers(pool))
    {
      FillSlot(head, headOffset, next - headOffset, last, model.slots);
      NoteQueued(packet, copied, next, last);
    }

    method NoteQueued(packet: Packet, copied: nat, next: nat, last: bool)
      requires Fields() && Distinct(pool) && head < |model.slots| && headOffset <= next
      requires Mirrors(pool, QueueHead(model, packet, copied, next, last).slots)
      modifies this`headOffset, this`poller, this`model
      ensures Linked() && model == QueueHead(old(model), packet, copied, next, last)
    {
      headOffset := next;
      poller := Filled(packet, copied);
      model := QueueHead(model, packet, copied, next, last);
    }

    // The tail of a data call, after the chunk is queued or left unfinished.
    method Finish(packet: Packet, copied: nat)
      requires Linked()
      modifies this`processed, this`tailOffset, this`answer, this`poller, this`model
      ensures Linked() && model == Settle(old(model), packet, copied)
    {
      processed := processed + copied;
      tailOffset := tailOffset + copied;
      answer := Answer(Continue, Success);
      if processed == |packet.bytes| {
        processed := 0;
      } else {
        answer := Answer(Busy, Success);
      }
      poller := Idle;
      model := Settle(model, packet, copied);
    }

    // The semaphore counts the new chunk: what it counts and what the worker has
    // in hand are all the slots in use.
    method ReleaseChunk()
      requires Valid() && poller.Filled?
      modifies this
      ensures Valid() && model == ReleaseStep(old(model))
      ensures |SlotsInUse(model)| == semaphore + Holding(model) <= |pool|
    {
      ReleaseKeepsInv(model);
      RingCount(ReleaseStep(model));
      hide Inv;
      semaphore := semaphore + 1;
      poller := Released(poller.packet, poller.copied);
      model := ReleaseStep(model);
    }

    // The call is answered, busy exactly if part of the packet is left.
    method AdvanceHead()
      requires Valid() && poller.Released?
      modifies this
      ensures Valid() && model == AdvanceStep(old(model)) && poller.Idle?
      ensures answer.status == Busy <==> old(processed) + old(poller).copied < |old(poller).packet.bytes|
      ensures answer.status == Busy || answer.status == Continue
      ensures answer.code == Success && (model.pending != [] <==> answer.status == Busy)
    {
      AdvanceKeepsInv(model);
      DataAnswersExactly(model, Advance);
      AdvanceAnswers(model);
      hide Inv, AnswersExactly, AdvanceStep;
      FinishQueued();
    }

    method FinishQueued()
      requires Linked() && poller.Released?
      modifies this`head, this`processed, this`tailOffset, this`answer, this`poller, this`model
      ensures Linked() && model == AdvanceStep(old(model))
    {
      StepHead();
      Finish(poller.packet, poller.copied);
    }

    method StepHead()
      requires Linked()
      modifies this`head, this`model
      ensures Linked() && model == old(model).(head := Wrap(old(head) + 1, |pool|))
    {
      head := head + 1;
      if head == |pool| {
        head := 0;
      }
      model := model.(head := head);
    }

    // ------------------------------------------------------------ completion and abort

    // A call of complete or abort either is stray, and over, or begins to look at
    // the pool, and has decided nothing yet.
    method BeginScan(target: nat, scanning: Poller)
      requires Linked()
      modifies this`answer, this`poller, this`model
      ensures Linked()
      ensures model == if target == this.target && started then old(model).(poller := scanning)
                       else old(model).(answer := Answer(Error, Unset))
    {
      if target != this.target || !started {
        answer := Answer(Error, Unset);
        model := model.(answer := Answer(Error, Unset));
      } else {
        poller := scanning;
        model := model.(poller := scanning);
      }
    }

    // ccapi_process_firmware_update_complete, not interrupted by the worker: what
    // CompleteCallMeans says of it.
    method ProcessComplete(target: nat)
      requires Valid() && poller.Idle?
      modifies this, pool
      ensures Valid()
      ensures if target != old(model).target || !old(started) then
                model == old(model).(answer := Answer(Error, Unset))
              else if SlotsInUse(old(model)) != {} then
                model == old(model).(answer := Answer(Busy, Success))
              else
                && !started && model.log == old(model).log && model.outcome == Completed(answer)
                && answer == Answer(if AnyInvalid(model.log) then Error else Continue,
                                    if |model.log| == |old(model).plan| then Success else NotComplete)
    {
      CompleteCallMeans(model, target);
      hide Inv, ScanAll, CompleteCall;
      BeginComplete(target);
      if poller.ScanningComplete? {
        ScanPool();
      }
    }

    // ccapi_process_firmware_update_abort, not interrupted by the worker: what
    // AbortCallMeans says of it.
    method ProcessAbort(target: nat, status: AbortStatus)
      requires Valid() && poller.Idle?
      modifies this, pool
      ensures Valid()
      ensures if target != old(model).target || !old(started) then
                model == old(model).(answer := Answer(Error, Unset))
              else if SlotsInUse(old(model)) != {} then
                model == old(model).(answer := Answer(Busy, Unset))
              else if old(hasCancel) && status == Unexpected(false) then
                model == old(model).(answer := Answer(Error, Unset))
              else
                && !started && model.log == old(model).log && model.outcome.Aborted?
                && model.cancels == (if old(hasCancel) then [status] else [])
                && answer == Answer(if old(hasCancel) && status.Unexpected? then Error else Continue, Unset)
    {
      AbortCallMeans(model, target, status);
      hide Inv, ScanAll, AbortCall;
      BeginAbort(target, status);
      if poller.ScanningAbort? {
        ScanPool();
      }
    }

    method BeginComplete(target: nat)
      requires Valid() && poller.Idle?
      modifies this
      ensures Valid() && model == CompleteCall(old(model), target)
      ensures poller.ScanningComplete? <==> target == old(model).target && old(started)
    {
      CompleteKeepsInv(model, target);
      hide Inv;
      BeginScan(target, ScanningComplete(0));
    }

    method BeginAbort(target: nat, status: AbortStatus)
      requires Valid() && poller.Idle?
      modifies this
      ensures Valid() && model == AbortCall(old(model), target, status)
      ensures poller.ScanningAbort? <==> target == old(model).target && old(started)
    {
      AbortKeepsInv(model, target, status);
      hide Inv;
      BeginScan(target, ScanningAbort(0, status));
    }

    // The loop over the pool, up to its end or to a slot in use.
    method ScanPool()
      requires Valid() && Scanning(model)
      modifies this, pool
      ensures Valid() && model == ScanAll(old(model))
    {
      while poller.ScanningComplete? || poller.ScanningAbort?
        invariant Valid()
        invariant if Scanning(model) then ScanAll(model) == ScanAll(old(model)) else model == ScanAll(old(model))
        decreases if Scanning(model) then 1 + |pool| - poller.scanned else 0
      {
        ScanAllUnrolls(model);
        hide Inv, ScanAll, ScanStep;
        Scan();
      }
    }

    // One iteration of the loops over the pool in complete and abort, or what
    // follows the loop.
    method Scan()
      requires Valid() && (poller.ScanningComplete? || poller.ScanningAbort?)
      modifies this, pool
      ensures Valid() && Defined(old(model), FirmwareMachine.Scan) && model == ScanStep(old(model))
      ensures Buffers(pool) <= old(Buffers(pool))
    {
      StepKeepsInv(model, FirmwareMachine.Scan);
      hide Inv;
      var i := poller.scanned;
      if i < |pool| {
        Look(i);
      } else if poller.ScanningComplete? {
        EndComplete();
      } else {
        EndAbort(poller.status);
      }
    }

    method Look(i: nat)
      requires Linked() && (poller.ScanningComplete? || poller.ScanningAbort?) && i == poller.scanned < |pool|
      modifies this`answer, this`poller, this`model
      ensures Linked() && model == ScanStep(old(model))
    {
      assert pool[i].View() == model.slots[i];
      if pool[i].inUse {
        answer := Answer(Busy, if poller.ScanningComplete? then Success else Unset);
        poller := Idle;
      } else {
        poller := poller.(scanned := i + 1);
      }
      model := ScanStep(model);
    }

    method EndComplete()
      requires Linked()
      modifies this`answer, this`poller, this`started, this`model, pool
      ensures Linked() && model == FinishComplete(old(model))
      ensures Buffers(pool) == {}
    {
      var code := Success;
      if headOffset != totalSize {
        code := NotComplete;
      }
      FreeService();
      End(Answer(if dataError then Error else Continue, code), model.cancels,
          Completed(Answer(if dataError then Error else Continue, code)));
    }

    method EndAbort(status: AbortStatus)
      requires Linked()
      modifies this`answer, this`poller, this`started, this`model, pool
      ensures Linked() && model == FinishAbort(old(model), status)
      ensures Buffers(pool) <= old(Buffers(pool))
    {
      var result := Continue;
      if hasCancel && status.Unexpected? {
        result := Error;
        if !status.assertionHolds {
          End(Answer(result, Unset), model.cancels, model.outcome);
          return;
        }
      }
      FreeService();
      End(Answer(result, Unset), if hasCancel then model.cancels + [status] else model.cancels, Aborted);
    }

    method End(reply: Answer, ghost cancels: seq<AbortStatus>, ghost outcome: FirmwareMachine.Outcome)
      requires Linked()
      modifies this`answer, this`poller, this`model
      ensures Linked() && model == old(model).(poller := Idle, answer := reply, cancels := cancels, outcome := outcome)
    {
      poller, answer := Idle, reply;
      model := model.(poller := Idle, answer := reply, cancels := cancels, outcome := outcome);
    }

    // ------------------------------------------------------------ ccapi_firmware_thread, piece by piece

    // The worker's assertion holds, and the tail slot is the next planned chunk.
    method WorkerAcquire()
      requires Valid() && worker.Waiting? && 0 < semaphore
      modifies this`semaphore, this`worker, this`model
      ensures Valid() && model == AcquireStep(old(model)) && TailIsNext(model)
    {
      AcquireKeepsInv(model);
      TailHoldsNext(AcquireStep(model));
      hide Inv, TailIsNext;
      TakeSemaphore();
    }

    method TakeSemaphore()
      requires Linked() && 0 < semaphore
      modifies this`semaphore, this`worker, this`model
      ensures Linked() && model == AcquireStep(old(model))
    {
      semaphore := semaphore - 1;
      worker := Acquired;
      model := AcquireStep(model);
    }

    // The user's callback is given the next chunk of the plan, and gives a verdict.
    method WorkerCall(verdict: bool) returns (offset: nat, data: seq<Byte>, last: bool)
      requires Valid() && worker.Acquired?
      modifies this`worker, this`model
      ensures Valid() && Defined(old(model), Call(verdict)) && model == CallStep(old(model), verdict)
      ensures old(|model.log|) < |model.plan| && Chunk(offset, data, last) == model.plan[old(|model.log|)]
    {
      StepKeepsInv(model, Call(verdict));
      TailHoldsNext(model);
      hide Inv;
      offset, data, last := ReadTail();
      NoteCall(verdict);
    }

    method NoteCall(verdict: bool)
      requires Linked() && Defined(model, Call(verdict))
      modifies this`worker, this`model
      ensures Linked() && model == CallStep(old(model), verdict)
    {
      worker := Called(tail, verdict);
      model := CallStep(model, verdict);
    }

    method ReadTail() returns (offset: nat, data: seq<Byte>, last: bool)
      requires Linked() && tail < |pool| && model.slots[tail].size <= |model.slots[tail].data|
      ensures Chunk(offset, data, last) == ChunkIn(model.slots[tail])
    {
      var chunk := pool[tail];
      assert chunk.View() == model.slots[tail];
      offset, last := chunk.offset, chunk.last;
      data := if chunk.data == null then [] else chunk.data[..chunk.size];
    }

    // The record remembers whether the callback has ever objected.
    method WorkerJudge()
      requires Valid() && worker.Called?
      modifies this`dataError, this`worker, this`model
      ensures Valid() && model == JudgeStep(old(model))
      ensures dataError <==> AnyInvalid(model.log)
    {
      JudgeKeepsInv(model);
      JudgedIsExact(model);
      hide Inv, AnyInvalid;
      if worker.invalid {
        dataError := true;
      }
      worker := Judged(worker.slot);
      model := JudgeStep(model);
    }

    // One slot fewer is in use.
    method WorkerClear()
      requires Valid() && worker.Judged? && worker.slot < |pool|
      modifies this`worker, this`model, pool[worker.slot]
      ensures Valid() && model == ClearStep(old(model))
      ensures |SlotsInUse(model)| == semaphore + Posting(model)
      ensures Buffers(pool) == old(Buffers(pool))
    {
      ClearKeepsInv(model);
      RingCount(ClearStep(model));
      hide Inv;
      ClearSlot();
    }

    // Through the pointer the worker has kept since it took the slot.
    method ClearSlot()
      requires Linked() && Shape(model) && worker.Judged?
      modifies this`worker, this`model, pool[worker.slot]
      ensures Linked() && model == ClearStep(old(model))
      ensures Buffers(pool) == old(Buffers(pool))
    {
      var i := worker.slot;
      assert pool[i].View() == model.slots[i];
      pool[i].inUse := false;
      worker := Cleared;
      model := ClearStep(model);
    }

    // If a chunk is queued, the tail is now at the next planned one.
    method WorkerAdvanceTail()
      requires Valid() && worker.Cleared?
      modifies this`tail, this`worker, this`model
      ensures Valid() && model == AdvanceTailStep(old(model))
      ensures 0 < semaphore ==> TailIsNext(model)
    {
      AdvanceTailKeepsInv(model);
      if 0 < semaphore {
        TailHoldsNext(AdvanceTailStep(model));
      }
      hide Inv, TailIsNext;
      StepTail();
    }

    method StepTail()
      requires Linked()
      modifies this`tail, this`worker, this`model
      ensures Linked() && model == AdvanceTailStep(old(model))
    {
      tail := tail + 1;
      if tail == |pool| {
        tail := 0;
      }
      worker := Waiting;
      model := AdvanceTailStep(model);
    }

    // ------------------------------------------------------------ schedules

    // Whichever step comes next.
    method Perform(step: FirmwareMachine.Step)
      requires Valid() && Enabled(model, step)
      modifies this, pool, Buffers(pool)
      ensures Valid() && Defined(old(model), step) && model == Apply(old(model), step)
      ensures Buffers(pool) <= old(Buffers(pool))
    {
      InvDefines(model, step);
      hide Inv, Linked;
      if OfWorker(step) {
        PerformWorker(step);
      } else {
        PerformPoller(step);
      }
    }

    method PerformPoller(step: FirmwareMachine.Step)
      requires Valid() && Defined(model, step) && !OfWorker(step)
      modifies this, pool, Buffers(pool)
      ensures Valid() && model == Apply(old(model), step)
      ensures Buffers(pool) <= old(Buffers(pool))
    {
      hide Inv;
      match step {
        case Data(target, packet) => ProcessData(target, packet);
        case Copy => CopyPacket();
        case Release => ReleaseChunk();
        case Advance => AdvanceHead();
        case Complete(target) => BeginComplete(target);
        case Abort(target, status) => BeginAbort(target, status);
        case Scan => Scan();
      }
    }

    method PerformWorker(step: FirmwareMachine.Step)
      requires Valid() && Defined(model, step) && OfWorker(step)
      modifies this, pool
      ensures Valid() && model == Apply(old(model), step)
      ensures Buffers(pool) == old(Buffers(pool))
    {
      hide Inv;
      match step {
        case Acquire => WorkerAcquire();
        case Call(verdict) => var _, _, _ := WorkerCall(verdict);
        case Judge => WorkerJudge();
        case Clear => WorkerClear();
        case AdvanceTail => WorkerAdvanceTail();
      }
    }

    // Any schedule of a download's steps, from its start: the record goes through
    // the run of that schedule, and the user's callback has been given an initial
    // part of the canonical chunks of the image.
    method Drive(steps: seq<FirmwareMachine.Step>)
      requires Valid() && Started(model) && Follows(model, steps)
      modifies this, pool, Buffers(pool)
      ensures Valid() && model == Run(old(model), steps)
      ensures ChunksOf(model.log) <= Canonical(old(model).image, old(model).chunkSize)
    {
      CallbacksFollowThePlan(model, steps);
      hide Inv;
      var i := 0;
      while i < |steps|
        invariant i <= |steps| && Valid() && Buffers(pool) <= old(Buffers(pool))
        invariant Follows(model, steps[i..]) && Run(model, steps[i..]) == Run(old(model), steps)
      {
        assert steps[i..][0] == steps[i] && steps[i..][1..] == steps[i + 1..];
        Perform(steps[i]);
        i := i + 1;
      }
    }

    // ------------------------------------------------------------ a start

    // ccapi_process_firmware_update_request. `image` stands for the bytes CCFSM
    // is about to send; `verdict` is the answer of the user's request callback.
    // A new download is sound exactly when everything is settled.
    method ProcessStart(number: nat, ghost image: seq<Byte>, codeSize: nat, maximumSize: nat,
                        configuredChunk: nat, defaultChunk: nat, cancelGiven: bool, verdict: StartStatus)
      returns (status: StartStatus, ghost contents: seq<seq<Byte>>)
      requires Linked() && Shape(model) && poller.Idle?
      requires |image| == codeSize && 0 < defaultChunk
      modifies this, pool
      ensures Linked()
      ensures status == StartSuccess <==>
              !old(started) && (maximumSize == 0 || codeSize <= maximumSize) && verdict == StartSuccess
      ensures old(started) ==> status == StartError
      ensures !old(started) ==>
                status == if maximumSize != 0 && maximumSize < codeSize then StartInvalidSize else verdict
      ensures status == StartSuccess ==>
                && started && target == number && totalSize == codeSize && hasCancel == cancelGiven
                && chunkSize == if configuredChunk == 0 then defaultChunk else configuredChunk
      ensures status == StartSuccess ==>
                var size := if configuredChunk == 0 then defaultChunk else configuredChunk;
                var d := Download(image, size, number, cancelGiven);
                && StartEnabled(old(model), d, contents) && model == StartStep(old(model), d, contents)
                && (Inv(model) <==> Settled(old(model))) && (Settled(old(model)) ==> Started(model))
      ensures status != StartSuccess && !old(started) ==> model == old(model)
      // during a download
      ensures old(started) ==> model == RejectStep(old(model)) && Buffers(pool) == {}
      ensures old(started) ==> !started && SlotsInUse(model) == SlotsInUse(old(model))
      ensures old(started) && Inv(old(model)) ==>
                && (LosesBuffer(model) <==> !Harmless(old(model)))
                && (Harmless(old(model)) ==> Inv(model) || Parting(model))
    {
      contents := [];
      if started {
        Refuse();
        return StartError, contents;
      }
      if maximumSize != 0 && maximumSize < codeSize {
        return StartInvalidSize, contents;
      }
      if verdict != StartSuccess {
        return verdict, contents;
      }
      var size := if configuredChunk == 0 then defaultChunk else configuredChunk;
      ghost var d := Download(image, size, number, cancelGiven);
      contents := AllocatePool(size);
      StartIsSoundExactly(model, d, contents);
      Reset(d, codeSize, size, number, cancelGiven, contents);
      status := StartSuccess;
    }

    // The buffers go, whatever is in use.
    method Refuse()
      requires Linked() && Shape(model) && poller.Idle? && started
      modifies this`started, this`model, pool
      ensures Linked() && model == RejectStep(old(model)) && Buffers(pool) == {}
      ensures Inv(old(model)) ==>
                && (LosesBuffer(model) <==> !Harmless(old(model)))
                && (Harmless(old(model)) ==> Inv(model) || Parting(model))
    {
      if Inv(model) {
        RejectionHarmsExactly(model);
        if Harmless(model) {
          RejectionKeepsSound(model);
        }
      }
      hide Inv, Parting, LosesBuffer, Harmless;
      FreeService();
      model := model.(outcome := Stopped);
    }

    method Reset(ghost d: Download, codeSize: nat, size: nat, number: nat, cancelGiven: bool,
                 ghost contents: seq<seq<Byte>>)
      requires Fields() && Distinct(pool) && |contents| == |pool| == |model.slots|
      requires d == Download(d.image, size, number, cancelGiven) && |d.image| == codeSize && 0 < size
      requires forall i :: 0 <= i < |pool| ==> pool[i].View() == Slot(false, 0, contents[i], 0, false)
      modifies this
      ensures Linked() && model == StartStep(old(model), d, contents)
    {
      ResetOffsets();
      chunkSize, target, totalSize, hasCancel := size, number, codeSize, cancelGiven;
      started := true;
      model := StartStep(model, d, contents);
    }

    method ResetOffsets()
      modifies this`head, this`tail, this`tailOffset, this`headOffset, this`processed, this`dataError
      ensures head == tail == tailOffset == headOffset == processed == 0 && !dataError
    {
      head, tail := 0, 0;
      tailOffset, headOffset, processed := 0, 0, 0;
      dataError := false;
    }

    method AllocateSlot(slot: ChunkInfo, size: nat) returns (ghost content: seq<Byte>)
      modifies slot
      ensures slot.data != null && fresh(slot.data) && |content| == size
      ensures slot.View() == Slot(false, 0, content, 0, false)
    {
      var buffer := new Byte[size];
      slot.inUse, slot.offset, slot.data, slot.size, slot.last := false, 0, buffer, 0, false;
      content := buffer[..];
    }

    method AllocatePool(size: nat) returns (ghost contents: seq<seq<Byte>>)
      requires Distinct(pool)
      modifies pool
      ensures Distinct(pool) && |contents| == |pool|
      ensures forall i :: 0 <= i < |pool| ==>
                            |contents[i]| == size && pool[i].View() == Slot(false, 0, contents[i], 0, false)
    {
      contents := [];
      var i := 0;
      while i < |pool|
        modifies pool
        invariant i == |contents| <= |pool| && Distinct(pool)
        invariant forall j :: 0 <= j < i ==>
                                pool[j].data != null && fresh(pool[j].data) && |contents[j]| == size &&
                                pool[j].View() == Slot(false, 0, contents[j], 0, false)
        invariant forall j :: i <= j < |pool| ==> pool[j].data == old(pool[j].data)
      {
        ghost var content := AllocateSlot(pool[i], size);
        contents := contents + [content];
        i := i + 1;
      }
    }
  }

  predicate OfWorker(step: FirmwareMachine.Step) {
    step.Acquire? || step.Call? || step.Judge? || step.Clear? || step.AdvanceTail?
  }

  // The chunk the callback is to be given next.
  ghost predicate TailIsNext(s: State) {
    && s.tail < |s.slots| && s.slots[s.tail].inUse && |s.log| < |s.plan|
    && Holds(s.slots[s.tail], s.plan[|s.log|])
  }

  // Whatever the worker may acquire, the tail slot holds the next planned chunk.
  lemma TailHoldsNext(s: State)
    requires Inv(s) && (s.worker.Acquired? || (s.worker.Waiting? && 0 < s.semaphore))
    ensures TailIsNext(s)
  {
    assert Distance(s.tail, s.tail, |s.slots|) == 0;
  }

  lemma JudgedIsExact(s: State)
    requires Inv(s) && s.worker.Called?
    ensures JudgeStep(s).dataError <==> AnyInvalid(s.log)
  {
    JudgeKeepsInv(s);
  }
}
