// Every step of the firmware download keeps the invariant, hence every
// interleaving does.
module FirmwareProofs {
  import opened Arithmetic
  import opened Bytes
  import opened FirmwareChunks
  import opened FirmwareMachine

  lemma StartedInv(s: State)
    requires Started(s)
    ensures Inv(s)
  {
    CanonicalWell(s.image, s.chunkSize);
    if s.plan != [] { assert WellCut(s.image, s.chunkSize, s.plan, 0); }
  }

  lemma InvDefines(s: State, step: Step)
    requires Inv(s) && Enabled(s, step)
    ensures Defined(s, step)
  {
    if step.Call? {
      assert s.slots[s.tail].inUse;
    }
  }

  // Before a copy: the poller is inside chunk number Pushed(s), the head slot is
  // the one being filled, and the copy stays inside the chunk.
  lemma OpenChunk(s: State, packet: Packet)
    requires Inv(s) && s.poller == Checked(packet) && !s.slots[s.head].inUse
    ensures 0 <= Pushed(s) < |s.plan| && Live(s) < |s.slots|
    ensures s.processed < |packet.bytes| && packet.offset + s.processed == s.tailOffset
    ensures s.headOffset <= s.tailOffset && s.tailOffset % s.chunkSize == s.tailOffset - s.headOffset
    ensures s.headOffset % s.chunkSize == 0
    ensures var end := OffsetAt(s.image, s.plan, Pushed(s) + 1);
            var next := s.tailOffset + CopySize(s, packet);
            && s.tailOffset < next <= end <= s.headOffset + s.chunkSize
            && end <= |s.image|
            && (next == |s.image| || next % s.chunkSize == 0 <==> next == end)
  {
    var c, n, k := s.plan, Pushed(s), s.chunkSize;
    assert s.processed < |packet.bytes|;
    assert s.tailOffset < |s.image|;
    assert n < |c| && WellCut(s.image, k, c, n);
    MultiplePlus(s.headOffset, k, s.tailOffset - s.headOffset);
    var end, next := OffsetAt(s.image, c, n + 1), s.tailOffset + CopySize(s, packet);
    assert end == |s.image| || end == s.headOffset + k;
    if next < s.headOffset + k {
      MultiplePlus(s.headOffset, k, next - s.headOffset);
    } else {
      MultipleStep(s.headOffset, k);
    }
  }

  // Steps that leave the slots, the queue and what was called as they were.
  lemma SameQueue(s: State, t: State)
    requires Ring(s) && Contents(s)
    requires t.slots == s.slots && t.plan == s.plan
    requires Live(t) == Live(s) && Retired(t) == Retired(s) && Front(t) == Front(s) && Back(t) == Back(s)
    ensures Ring(t) && Contents(t)
  {
  }

  predicate Copying(s: State) {
    s.poller.Filled? || s.poller.Released?
  }

  // Steps that leave the offsets and the chunk being filled as they were.
  lemma SameFilling(s: State, t: State)
    requires Shape(s) && Filling(s) && s.head < |t.slots| == |s.slots| && Shape(t)
    requires t.slots[s.head].data == s.slots[s.head].data
    requires t.image == s.image && t.plan == s.plan && t.chunkSize == s.chunkSize && t.started == s.started
    requires t.head == s.head && t.headOffset == s.headOffset
    requires t.tailOffset == s.tailOffset && t.processed == s.processed
    requires Pushed(t) == Pushed(s) && Live(t) <= Live(s)
    requires if Copying(s) then t.poller == s.poller && t.pending == s.pending else !Copying(t)
    ensures Filling(t)
  {
  }

  // What is left of a packet is offered again.
  lemma SettledOffered(s: State, packet: Packet, copied: nat)
    requires FromImage(s, packet) && s.processed + copied <= |packet.bytes|
    requires packet.offset + s.processed == s.tailOffset
    ensures Offered(Settle(s, packet, copied))
  {
  }

  // Steps inside a download that log nothing.
  lemma SameHistory(s: State, t: State)
    requires Delivered(s) && Ended(s) && s.started && t.started && t.poller.Idle?
    requires t.plan == s.plan && t.log == s.log && t.worker == s.worker && t.tail == s.tail
    requires t.dataError == s.dataError
    requires t.cancels == s.cancels && t.outcome == s.outcome
    ensures Delivered(t) && Ended(t) && Scanned(t)
  {
  }

  lemma AnswerKeepsInv(s: State, answer: Answer, pending: seq<Packet>)
    requires Inv(s) && s.poller.Idle?
    requires pending == s.pending
             || (pending == [] && (s.pending == [] || s.processed == 0 || s.dataError || !s.started))
             || (|pending| == 1 && FromImage(s, pending[0]) && s.processed < |pending[0].bytes|
                 && pending[0].offset + s.processed == s.tailOffset)
    ensures Inv(s.(answer := answer, pending := pending))
  {
    var t := s.(answer := answer, pending := pending);
    SameQueue(s, t);
    SameFilling(s, t);
  }

  lemma DataKeepsInv(s: State, target: nat, packet: Packet)
    requires Inv(s) && Enabled(s, Data(target, packet))
    ensures Inv(DataCall(s, target, packet))
  {
    var t := DataCall(s, target, packet);
    if Accepted(s, target, packet) {
      CheckedKeepsInv(s, packet);
    } else {
      hide Ring, Contents, Filling, Delivered;
      assert t == s.(answer := t.answer, pending := t.pending);
      AnswerKeepsInv(s, t.answer, t.pending);
    }
  }

  lemma CheckedKeepsInv(s: State, packet: Packet)
    requires Inv(s) && s.poller.Idle? && Accepted(s, s.target, packet) && FromImage(s, packet)
    requires s.pending != [] ==> packet == s.pending[0]
    ensures Inv(s.(poller := Checked(packet), pending := []))
  {
    hide Ring, Contents, Filling;
    var t := s.(poller := Checked(packet), pending := []);
    SameQueue(s, t);
    SameFilling(s, t);
  }

  lemma BlitPrefix(buffer: seq<Byte>, at: nat, bytes: seq<Byte>, image: seq<Byte>, start: nat)
    requires at + |bytes| <= |buffer| && start + at + |bytes| <= |image|
    requires buffer[..at] == image[start..start + at]
    requires bytes == image[start + at..start + at + |bytes|]
    ensures Blit(buffer, at, bytes)[..at + |bytes|] == image[start..start + at + |bytes|]
  {
    assert Blit(buffer, at, bytes)[..at + |bytes|] == buffer[..at] + bytes;
  }

  // What an accepted copy does, the chunk offset written as a difference.
  ghost function AfterCopy(s: State, packet: Packet, copied: nat, full: bool): State
    requires Shape(s) && s.started && s.headOffset <= s.tailOffset
    requires s.processed + copied <= |packet.bytes| && s.tailOffset - s.headOffset + copied <= s.chunkSize
  {
    var slot, at, next := s.slots[s.head], s.tailOffset - s.headOffset, s.tailOffset + copied;
    var data := Blit(slot.data, at, packet.bytes[s.processed..s.processed + copied]);
    if full then
      s.(slots := s.slots[s.head := Slot(true, s.headOffset, data, at + copied, next == |s.image|)],
      headOffset := next, poller := Filled(packet, copied), pending := [])
    else
      Settle(s.(slots := s.slots[s.head := slot.(data := data)]), packet, copied)
  }

  lemma CopyStepCopies(s: State, packet: Packet, copied: nat, full: bool)
    requires Shape(s) && s.poller == Checked(packet) && s.started && !s.slots[s.head].inUse
    requires s.processed <= |packet.bytes| && copied == CopySize(s, packet)
    requires s.headOffset <= s.tailOffset && s.tailOffset % s.chunkSize == s.tailOffset - s.headOffset
    requires full <==> s.tailOffset + copied == |s.image| || (s.tailOffset + copied) % s.chunkSize == 0
    ensures s.processed + copied <= |packet.bytes| && s.tailOffset - s.headOffset + copied <= s.chunkSize
    ensures CopyStep(s) == AfterCopy(s, packet, copied, full)
  {
  }

  lemma CopyKeepsInv(s: State)
    requires Inv(s) && Defined(s, Copy)
    ensures Inv(CopyStep(s))
  {
    var packet := s.poller.packet;
    if s.slots[s.head].inUse {
      BusyKeepsInv(s, packet);
    } else {
      OpenChunk(s, packet);
      var copied := CopySize(s, packet);
      var full := s.tailOffset + copied == OffsetAt(s.image, s.plan, Pushed(s) + 1);
      CopyStepCopies(s, packet, copied, full);
      CopyCase(s, packet, copied, full);
    }
  }

  // The head slot is in use: the packet is to be offered again.
  lemma BusyKeepsInv(s: State, packet: Packet)
    requires Inv(s) && s.poller == Checked(packet)
    ensures Inv(Return(s, packet, Answer(Busy, Success)))
  {
    var t := Return(s, packet, Answer(Busy, Success));
    SameQueue(s, t);
    SameFilling(s, t);
  }

  // The two ways a copy can end, from what is known about the copied slot.
  lemma CopyCase(s: State, packet: Packet, copied: nat, full: bool)
    requires Inv(s) && s.started && s.poller.Checked? && !s.slots[s.head].inUse
    requires 0 <= Pushed(s) < |s.plan| && Live(s) < |s.slots|
    requires FromImage(s, packet) && 0 < copied && s.processed + copied <= |packet.bytes|
    requires packet.offset + s.processed == s.tailOffset
    requires s.headOffset <= s.tailOffset < s.tailOffset + copied <= OffsetAt(s.image, s.plan, Pushed(s) + 1)
    requires OffsetAt(s.image, s.plan, Pushed(s) + 1) <= |s.image|
    requires OffsetAt(s.image, s.plan, Pushed(s) + 1) <= s.headOffset + s.chunkSize
    requires full <==> s.tailOffset + copied == OffsetAt(s.image, s.plan, Pushed(s) + 1)
    ensures Inv(AfterCopy(s, packet, copied, full))
  {
    var t := AfterCopy(s, packet, copied, full);
    CopiedData(s, packet, copied, full);
    if full {
      FillKeepsInv(s, t, packet, copied);
    } else {
      PartKeepsInv(s, t, packet, copied);
    }
  }

  lemma SliceOfSlice(image: seq<Byte>, offset: nat, end: nat, from: nat, to: nat)
    requires offset <= end <= |image| && from <= to <= end - offset
    ensures image[offset..end][from..to] == image[offset + from..offset + to]
  {
    var part, whole := image[offset..end][from..to], image[offset + from..offset + to];
    assert |part| == |whole|;
    forall i | 0 <= i < |whole|
      ensures part[i] == whole[i]
    {
      assert part[i] == image[offset..end][from + i] == image[offset + (from + i)];
    }
  }

  // Where the copy goes: the head slot's buffer, and nowhere else.
  lemma CopiedSlot(s: State, packet: Packet, copied: nat, full: bool)
    requires Shape(s) && s.started && s.headOffset <= s.tailOffset
    requires s.processed + copied <= |packet.bytes| && s.tailOffset - s.headOffset + copied <= s.chunkSize
    ensures var t := AfterCopy(s, packet, copied, full);
            && |t.slots| == |s.slots| && t.slots == s.slots[s.head := t.slots[s.head]]
            && t.slots[s.head].data == Blit(s.slots[s.head].data, s.tailOffset - s.headOffset,
                                            packet.bytes[s.processed..s.processed + copied])
  {
    hide Blit;
  }

  // After the memcpy the head slot holds the image from the chunk's start to
  // the end of the copy.
  lemma CopiedData(s: State, packet: Packet, copied: nat, full: bool)
    requires Shape(s) && s.started && s.headOffset <= s.tailOffset
    requires FromImage(s, packet) && packet.offset + s.processed == s.tailOffset
    requires s.processed + copied <= |packet.bytes| && s.tailOffset - s.headOffset + copied <= s.chunkSize
    requires s.slots[s.head].data[..s.tailOffset - s.headOffset] == s.image[s.headOffset..s.tailOffset]
    ensures var t := AfterCopy(s, packet, copied, full);
            var slot := t.slots[s.head];
            && |t.slots| == |s.slots| && t.slots == s.slots[s.head := slot] && |slot.data| == s.chunkSize
            && slot.data[..s.tailOffset - s.headOffset + copied] == s.image[s.headOffset..s.tailOffset + copied]
  {
    CopiedSlot(s, packet, copied, full);
    hide AfterCopy, Blit;
    var bytes := packet.bytes[s.processed..s.processed + copied];
    var at := s.tailOffset - s.headOffset;
    SliceOfSlice(s.image, packet.offset, packet.offset + |packet.bytes|, s.processed, s.processed + copied);
    BlitPrefix(s.slots[s.head].data, at, bytes, s.image, s.headOffset);
  }

  // The copy completed a chunk.
  lemma FillKeepsInv(s: State, t: State, packet: Packet, copied: nat)
    requires Inv(s) && s.started && s.poller.Checked? && !s.slots[s.head].inUse
    requires 0 <= Pushed(s) < |s.plan| && Live(s) < |s.slots|
    requires FromImage(s, packet) && 0 < copied && s.processed + copied <= |packet.bytes|
    requires packet.offset + s.processed == s.tailOffset
    requires s.headOffset <= s.tailOffset
    requires s.tailOffset + copied == OffsetAt(s.image, s.plan, Pushed(s) + 1) <= |s.image|
    requires |t.slots| == |s.slots| && t.slots == s.slots[s.head := t.slots[s.head]]
    requires |t.slots[s.head].data| == s.chunkSize
    requires t == s.(slots := t.slots, headOffset := s.tailOffset + copied,
                  poller := Filled(packet, copied), pending := [])
    requires var slot := t.slots[s.head];
             && slot.inUse && slot.offset == s.headOffset && slot.size == t.headOffset - s.headOffset <= s.chunkSize
             && slot.data[..slot.size] == s.image[s.headOffset..t.headOffset]
             && (slot.last <==> t.headOffset == |s.image|)
    ensures Inv(t)
  {
    var n := |s.slots|;
    assert WellCut(s.image, s.chunkSize, s.plan, Pushed(s));
    if Pushed(s) + 1 < |s.plan| {
      assert WellCut(s.image, s.chunkSize, s.plan, Pushed(s) + 1);
    }
    assert Live(t) == Live(s) + 1 && Retired(t) == Retired(s) && Front(t) == Front(s);
    assert Distance(Front(s), s.head, n) == Live(s);
    assert Holds(t.slots[s.head], s.plan[Pushed(s)]);
    FillRing(s, t);
    assert Filling(t);
  }

  lemma FillRing(s: State, t: State)
    requires Shape(s) && Ring(s) && Contents(s) && Back(s) == s.head
    requires |t.slots| == |s.slots| && t.slots == s.slots[s.head := t.slots[s.head]]
    requires t.plan == s.plan && Live(t) == Live(s) + 1 && Retired(t) == Retired(s) && Front(t) == Front(s)
    requires Live(s) < |s.slots| && Back(t) == Wrap(s.head + 1, |s.slots|)
    requires t.slots[s.head].inUse && 0 <= Pushed(s) < |s.plan|
    requires Holds(t.slots[s.head], s.plan[Pushed(s)])
    ensures Ring(t) && Contents(t)
  {
    assert Distance(Front(s), s.head, |s.slots|) == Live(s);
    assert forall i :: 0 <= i < |s.slots| && i != s.head ==> t.slots[i] == s.slots[i];
  }

  // The copy left the chunk unfinished.
  lemma PartKeepsInv(s: State, t: State, packet: Packet, copied: nat)
    requires Inv(s) && s.started && s.poller.Checked? && !s.slots[s.head].inUse
    requires 0 <= Pushed(s) < |s.plan| && Live(s) < |s.slots|
    requires FromImage(s, packet) && 0 < copied && s.processed + copied <= |packet.bytes|
    requires packet.offset + s.processed == s.tailOffset
    requires s.headOffset <= s.tailOffset
    requires s.tailOffset + copied < OffsetAt(s.image, s.plan, Pushed(s) + 1) <= |s.image|
    requires s.tailOffset + copied <= s.headOffset + s.chunkSize
    requires |t.slots| == |s.slots| && t.slots == s.slots[s.head := t.slots[s.head]]
    requires |t.slots[s.head].data| == s.chunkSize
    requires t == Settle(s.(slots := t.slots), packet, copied)
    requires var size := s.tailOffset + copied - s.headOffset;
             !t.slots[s.head].inUse && t.slots[s.head].data[..size] == s.image[s.headOffset..s.headOffset + size]
    ensures Inv(t)
  {
    hide Ring, Contents, Filling, Offered, Delivered, Ended;
    PartRing(s, t);
    PartFilling(s, t, packet, copied);
    SameHistory(s, t);
    SettledOffered(s.(slots := t.slots), packet, copied);
  }

  lemma PartRing(s: State, t: State)
    requires Shape(s) && Ring(s) && Contents(s) && !s.slots[s.head].inUse
    requires |t.slots| == |s.slots| && t.slots == s.slots[s.head := t.slots[s.head]] && !t.slots[s.head].inUse
    requires t.plan == s.plan
    requires Live(t) == Live(s) && Retired(t) == Retired(s) && Front(t) == Front(s) && Back(t) == Back(s)
    ensures Ring(t) && Contents(t)
  {
    assert forall i :: 0 <= i < |s.slots| && i != s.head ==> t.slots[i] == s.slots[i];
  }

  lemma PartFilling(s: State, t: State, packet: Packet, copied: nat)
    requires Shape(s) && Filling(s) && Shape(t) && !Copying(t) && !Copying(s)
    requires 0 <= Pushed(s) < |s.plan| && Live(s) < |s.slots| && Pushed(t) == Pushed(s) && Live(t) == Live(s)
    requires t.image == s.image && t.plan == s.plan && t.chunkSize == s.chunkSize && |t.slots| == |s.slots|
    requires t.head == s.head && t.headOffset == s.headOffset <= s.tailOffset && t.tailOffset == s.tailOffset + copied
    requires t.tailOffset < OffsetAt(s.image, s.plan, Pushed(s) + 1) <= |s.image|
    requires t.tailOffset <= s.headOffset + s.chunkSize == s.headOffset + |t.slots[s.head].data|
    requires t.slots[s.head].data[..t.tailOffset - s.headOffset] == s.image[s.headOffset..t.tailOffset]
    ensures Filling(t)
  {
  }

  lemma ReleaseKeepsInv(s: State)
    requires Inv(s) && Enabled(s, Release)
    ensures Inv(ReleaseStep(s))
  {
    SameQueue(s, ReleaseStep(s));
  }

  lemma AdvanceKeepsInv(s: State)
    requires Inv(s) && Enabled(s, Advance)
    ensures Inv(AdvanceStep(s))
  {
    AdvanceQueue(s);
    AdvanceFilling(s);
    AdvanceOffered(s);
    AdvanceHistory(s);
  }

  lemma AdvanceQueue(s: State)
    requires Shape(s) && Planned(s) && Ring(s) && Contents(s) && s.poller.Released?
    ensures Shape(AdvanceStep(s)) && Planned(AdvanceStep(s)) && Ring(AdvanceStep(s)) && Contents(AdvanceStep(s))
  {
    SameQueue(s, AdvanceStep(s));
  }

  lemma AdvanceOffered(s: State)
    requires Shape(s) && Filling(s) && s.poller.Released?
    ensures Offered(AdvanceStep(s))
  {
    SettledOffered(s.(head := Wrap(s.head + 1, |s.slots|)), s.poller.packet, s.poller.copied);
  }

  lemma AdvanceHistory(s: State)
    requires Shape(s) && Delivered(s) && Ended(s) && Filling(s) && s.poller.Released?
    ensures Delivered(AdvanceStep(s)) && Ended(AdvanceStep(s)) && Scanned(AdvanceStep(s))
  {
    SameHistory(s, AdvanceStep(s));
  }

  lemma AdvanceFilling(s: State)
    requires Shape(s) && Planned(s) && Filling(s) && s.poller.Released? && Pushed(s) <= |s.plan|
    ensures Filling(AdvanceStep(s))
  {
    if Pushed(s) < |s.plan| {
      assert WellCut(s.image, s.chunkSize, s.plan, Pushed(s));
    }
  }

  lemma ScanKeepsInv(s: State)
    requires Inv(s) && Enabled(s, Scan)
    ensures Inv(ScanStep(s))
  {
    if ScanStep(s).started {
      ScanGoesOn(s);
    } else {
      ScanEnds(s);
    }
  }

  lemma ScanGoesOn(s: State)
    requires Inv(s) && Enabled(s, Scan) && ScanStep(s).started
    ensures Inv(ScanStep(s))
  {
    var t := ScanStep(s);
    ScanAdvances(s);
    ScanOnKeepsInv(s, t.poller, t.answer);
  }

  lemma ScanAdvances(s: State)
    requires Scanned(s) && Enabled(s, Scan) && ScanStep(s).started
    ensures ScanStep(s) == s.(poller := ScanStep(s).poller, answer := ScanStep(s).answer)
    ensures Scanned(ScanStep(s)) && OutsideData(ScanStep(s))
  {
  }

  lemma ScanEnds(s: State)
    requires Inv(s) && Enabled(s, Scan) && !ScanStep(s).started
    ensures Inv(ScanStep(s))
  {
    var t := ScanStep(s);
    ScanFrees(s);
    NothingLive(s);
    FreeKeepsInv(s, t.answer, t.cancels, t.outcome);
  }

  // How a scan that finds no slot in use ends the download.
  lemma ScanFrees(s: State)
    requires Scanned(s) && Ended(s) && Enabled(s, Scan) && !ScanStep(s).started
    ensures var t := ScanStep(s);
            && s.poller.scanned == |s.slots|
            && t == FreeAndStop(s).(poller := Idle, answer := t.answer, cancels := t.cancels, outcome := t.outcome)
            && !t.outcome.Downloading? && (t.outcome.Aborted? || t.cancels == [])
            && (t.outcome.Completed? ==>
                  t.outcome.answer == Answer(if s.dataError then Error else Continue,
                                             if s.headOffset == |s.image| then Success else NotComplete))
  {
  }

  lemma ScanOnKeepsInv(s: State, poller: Poller, answer: Answer)
    requires Inv(s) && OutsideData(s)
    requires OutsideData(s.(poller := poller)) && Scanned(s.(poller := poller))
    ensures Inv(s.(poller := poller, answer := answer))
  {
    var t := s.(poller := poller, answer := answer);
    SameQueue(s, t);
    SameFilling(s, t);
  }

  lemma FreeKeepsInv(s: State, answer: Answer, cancels: seq<AbortStatus>, outcome: Outcome)
    requires Inv(s) && Live(s) == 0 && OutsideData(s)
    requires !outcome.Downloading? && (outcome.Aborted? || cancels == [])
    requires outcome.Completed? ==>
               outcome.answer == Answer(if s.dataError then Error else Continue,
                                        if s.headOffset == |s.image| then Success else NotComplete)
    ensures Inv(FreeAndStop(s).(poller := Idle, answer := answer, cancels := cancels, outcome := outcome))
  {
    var t := FreeAndStop(s).(poller := Idle, answer := answer, cancels := cancels, outcome := outcome);
    FreeRing(s, t);
    if |s.log| < |s.plan| {
      assert WellCut(s.image, s.chunkSize, s.plan, |s.log|);
    }
    assert Filling(t);
  }

  lemma FreeRing(s: State, t: State)
    requires Shape(s) && Ring(s) && Contents(s) && Live(s) == 0 && OutsideData(s) && OutsideData(t)
    requires t == FreeAndStop(s).(poller := t.poller, answer := t.answer, cancels := t.cancels, outcome := t.outcome)
    ensures Ring(t) && Contents(t)
  {
    assert Live(t) == 0 && Retired(t) == Retired(s) && Front(t) == Front(s) && Back(t) == Back(s);
    assert forall i :: 0 <= i < |s.slots| ==> t.slots[i].inUse == s.slots[i].inUse;
  }

  // A refused start keeps the invariant if nothing is queued or in the worker's
  // hands.
  lemma RejectKeepsInv(s: State)
    requires Inv(s) && s.started && s.poller.Idle? && Live(s) == 0
    ensures Inv(RejectStep(s))
  {
    FreeKeepsInv(s, s.answer, s.cancels, Stopped);
    assert RejectStep(s) ==
           FreeAndStop(s).(poller := Idle, answer := s.answer, cancels := s.cancels, outcome := Stopped);
  }

  // A scan that found every slot free found the queue empty: later pushes are
  // the poller's own and the worker only gives slots back.
  lemma NothingLive(s: State)
    requires Inv(s) && (s.poller.ScanningComplete? || s.poller.ScanningAbort?) && s.poller.scanned == |s.slots|
    ensures Live(s) == 0
  {
    assert !s.slots[Front(s)].inUse;
  }

  lemma AcquireKeepsInv(s: State)
    requires Inv(s) && Enabled(s, Acquire)
    ensures Inv(AcquireStep(s))
  {
    hide Ring, Contents, Filling;
    SameQueue(s, AcquireStep(s));
    SameFilling(s, AcquireStep(s));
  }

  lemma CallKeepsInv(s: State, verdict: bool)
    requires Inv(s) && Enabled(s, Call(verdict)) && Defined(s, Call(verdict))
    ensures Inv(CallStep(s, verdict))
  {
    var t := CallStep(s, verdict);
    SameQueue(s, t);
    CallDelivers(s, verdict);
    SameFilling(s, t);
  }

  // The worker's assertion holds and the chunk it passes is the next planned one.
  lemma CallDelivers(s: State, verdict: bool)
    requires Shape(s) && Ring(s) && Contents(s) && Delivered(s) && s.worker.Acquired?
    ensures s.slots[s.tail].inUse && |s.log| < |s.plan|
    ensures Holds(s.slots[s.tail], s.plan[|s.log|])
    ensures Delivered(CallStep(s, verdict))
  {
    var t := CallStep(s, verdict);
    assert Distance(s.tail, s.tail, |s.slots|) == 0;
    assert t.log[..|t.log| - 1] == s.log;
  }

  lemma JudgeKeepsInv(s: State)
    requires Inv(s) && Enabled(s, Judge)
    ensures Inv(JudgeStep(s))
  {
    hide Ring, Contents, Filling;
    SameQueue(s, JudgeStep(s));
    SameFilling(s, JudgeStep(s));
  }

  lemma ClearKeepsInv(s: State)
    requires Inv(s) && Enabled(s, Clear)
    ensures Inv(ClearStep(s))
  {
    ClearRing(s);
    var t := ClearStep(s);
    assert t.started ==> forall i :: 0 <= i < |t.slots| ==> |t.slots[i].data| == t.chunkSize;
    assert Pushed(t) == Pushed(s);
    SameFilling(s, t);
  }

  lemma ClearRing(s: State)
    requires Shape(s) && Ring(s) && Contents(s) && Delivered(s) && s.worker.Judged?
    ensures Ring(ClearStep(s)) && Contents(ClearStep(s))
  {
    hide Holds;
    var t, n := ClearStep(s), |s.slots|;
    assert Live(t) == Live(s) - 1 && Retired(t) == Retired(s) + 1;
    forall i | 0 <= i < n && i != s.tail
      ensures t.slots[i] == s.slots[i] && Distance(Front(t), i, n) == Distance(Front(s), i, n) - 1
    {
    }
    assert Distance(Front(t), s.tail, n) == n - 1;
  }

  lemma AdvanceTailKeepsInv(s: State)
    requires Inv(s) && Enabled(s, AdvanceTail)
    ensures Inv(AdvanceTailStep(s))
  {
    hide Ring, Contents, Filling;
    SameQueue(s, AdvanceTailStep(s));
    SameFilling(s, AdvanceTailStep(s));
  }

  lemma CompleteKeepsInv(s: State, target: nat)
    requires Inv(s) && Enabled(s, Complete(target))
    ensures Inv(CompleteCall(s, target))
  {
    var t := CompleteCall(s, target);
    ScanOnKeepsInv(s, t.poller, t.answer);
  }

  lemma AbortKeepsInv(s: State, target: nat, status: AbortStatus)
    requires Inv(s) && Enabled(s, Abort(target, status))
    ensures Inv(AbortCall(s, target, status))
  {
    var t := AbortCall(s, target, status);
    ScanOnKeepsInv(s, t.poller, t.answer);
  }
}
