// What the invariant gives for whole runs of a firmware download: every
// interleaving of CCFSM's calls, busy retries and worker steps.
module FirmwareRuns {
  import opened Arithmetic
  import opened FirmwareChunks
  import opened FirmwareMachine
  import opened FirmwareProofs

  lemma StepKeepsInv(s: State, step: Step)
    requires Inv(s) && Enabled(s, step)
    ensures Defined(s, step) && Inv(Apply(s, step))
  {
    InvDefines(s, step);
    match step
    case Data(target, packet) => DataKeepsInv(s, target, packet);
    case Copy => CopyKeepsInv(s);
    case Release => ReleaseKeepsInv(s);
    case Advance => AdvanceKeepsInv(s);
    case Complete(target) => CompleteKeepsInv(s, target);
    case Abort(target, status) => AbortKeepsInv(s, target, status);
    case Scan => ScanKeepsInv(s);
    case Acquire => AcquireKeepsInv(s);
    case Call(verdict) => CallKeepsInv(s, verdict);
    case Judge => JudgeKeepsInv(s);
    case Clear => ClearKeepsInv(s);
    case AdvanceTail => AdvanceTailKeepsInv(s);
  }

  // Runs; an enabled step is always defined in a reachable state.
  ghost predicate Follows(s: State, steps: seq<Step>)
    decreases |steps|
  {
    steps == [] || (Defined(s, steps[0]) && Follows(Apply(s, steps[0]), steps[1..]))
  }

  ghost function Run(s: State, steps: seq<Step>): State
    requires Follows(s, steps)
    decreases |steps|
  {
    if steps == [] then s else Run(Apply(s, steps[0]), steps[1..])
  }

  lemma {:induction false} RunKeepsInv(s: State, steps: seq<Step>)
    requires Inv(s) && Follows(s, steps)
    ensures Inv(Run(s, steps))
    decreases |steps|
  {
    if steps == [] {
    } else {
      StepKeepsInv(s, steps[0]);
      hide Inv;
      RunKeepsInv(Apply(s, steps[0]), steps[1..]);
    }
  }

  lemma ReachedInv(s: State, steps: seq<Step>)
    requires Started(s) && Follows(s, steps)
    ensures Inv(Run(s, steps)) && SameDownload(s, Run(s, steps))
  {
    StartedInv(s);
    RunKeepsInv(s, steps);
    RunKeepsDownload(s, steps);
  }

  // What no step of a download changes.
  ghost predicate SameDownload(s: State, t: State) {
    && t.image == s.image && t.chunkSize == s.chunkSize && t.plan == s.plan && t.target == s.target
    && |t.slots| == |s.slots| && s.log <= t.log && (t.started ==> s.started)
  }

  lemma StepKeepsDownload(s: State, step: Step)
    requires Defined(s, step)
    ensures SameDownload(s, Apply(s, step))
    ensures !step.Call? ==> Apply(s, step).log == s.log
  {
    hide CopyStep;
    match step {
      case Copy => CopyKeepsDownload(s);
      case Scan => ScanKeepsDownload(s);
      case _ => hide ScanStep;
    }
  }

  lemma ScanKeepsDownload(s: State)
    requires Defined(s, Scan)
    ensures SameDownload(s, ScanStep(s)) && ScanStep(s).log == s.log
  {
  }

  lemma CopyKeepsDownload(s: State)
    requires Defined(s, Copy)
    ensures SameDownload(s, CopyStep(s))
    ensures CopyStep(s).log == s.log && CopyStep(s).cancels == s.cancels
  {
  }

  lemma {:induction false} RunKeepsDownload(s: State, steps: seq<Step>)
    requires Follows(s, steps)
    ensures SameDownload(s, Run(s, steps))
    decreases |steps|
  {
    if steps == [] {
    } else {
      StepKeepsDownload(s, steps[0]);
      RunKeepsDownload(Apply(s, steps[0]), steps[1..]);
    }
  }

  function ChunksOf(log: seq<Callback>): (chunks: seq<Chunk>)
    ensures |chunks| == |log|
    ensures forall k :: 0 <= k < |log| ==> chunks[k] == log[k].chunk
  {
    seq(|log|, k requires 0 <= k < |log| => log[k].chunk)
  }

  // However the image is split into packets and however the threads interleave,
  // the user's callback has seen an initial part of the canonical chunks.
  lemma CallbacksFollowThePlan(s: State, steps: seq<Step>)
    requires Started(s) && Follows(s, steps)
    ensures ChunksOf(Run(s, steps).log) <= Canonical(s.image, s.chunkSize)
  {
    ReachedInv(s, steps);
  }

  // Completion answers with success exactly when the callback has been given the
  // whole image, and continues exactly when it has objected to none of it.
  lemma CompletionIsExact(s: State, steps: seq<Step>)
    requires Started(s) && Follows(s, steps) && Run(s, steps).outcome.Completed?
    ensures var t := Run(s, steps);
            t.outcome.answer == Answer(if AnyInvalid(t.log) then Error else Continue,
                                       if ChunksOf(t.log) == Canonical(s.image, s.chunkSize) then Success
                                       else NotComplete)
    ensures var t := Run(s, steps);
            t.outcome.answer.code == Success ==> Concat(ChunksOf(t.log)) == s.image
  {
    ReachedInv(s, steps);
    var t := Run(s, steps);
    CutConcat(s.image, s.chunkSize, 0);
    if |t.log| == |t.plan| {
      assert ChunksOf(t.log) == t.plan;
    }
  }

  // ------------------------------------------------------------ the ring

  ghost function SlotsInUse(s: State): set<nat> {
    set i: nat | i < |s.slots| && s.slots[i].inUse
  }

  ghost predicate RingExact(t: State) {
    var n, inUse := |t.slots|, SlotsInUse(t);
    && |inUse| == t.semaphore + Posting(t) + Holding(t) <= n
    && (forall i :: 0 <= i < n ==> (t.slots[i].inUse <==> Distance(Front(t), i, n) < |inUse|))
    && Back(t) == (if Front(t) + |inUse| < n then Front(t) + |inUse| else Front(t) + |inUse| - n)
    && (t.worker.Acquired? || t.worker.Called? || t.worker.Judged? ==> t.tail < n && t.slots[t.tail].inUse)
  }

  // The in-use slots are the cyclic interval from the tail to the head, their
  // number is the semaphore plus the chunk each thread has in hand, the worker's
  // assertion holds, and every offset stays inside the image.
  lemma RingIsExact(s: State, steps: seq<Step>)
    requires Started(s) && Follows(s, steps)
    ensures RingExact(Run(s, steps))
    ensures Run(s, steps).headOffset <= |s.image| && Run(s, steps).tailOffset <= |s.image|
  {
    ReachedInv(s, steps);
    RingCount(Run(s, steps));
    OffsetsBounded(Run(s, steps));
  }

  lemma RingCount(t: State)
    requires Shape(t) && Ring(t)
    ensures RingExact(t)
  {
    IntervalCount(|t.slots|, Front(t), Live(t));
    assert SlotsInUse(t) == Interval(|t.slots|, Front(t), Live(t));
    assert Distance(t.tail, t.tail, |t.slots|) == 0;
  }

  lemma OffsetsBounded(t: State)
    requires Shape(t) && Planned(t) && Filling(t)
    ensures t.headOffset <= |t.image| && t.tailOffset <= |t.image|
  {
    if Pushed(t) < |t.plan| { assert WellCut(t.image, t.chunkSize, t.plan, Pushed(t)); }
  }

  ghost function Interval(n: nat, from: nat, count: nat): set<nat> {
    set i: nat | i < n && Distance(from, i, n) < count
  }

  lemma IntervalGrows(n: nat, from: nat, count: nat, next: nat)
    requires from < n && 0 < count <= n && next < n && Distance(from, next, n) == count - 1
    ensures Interval(n, from, count) == Interval(n, from, count - 1) + {next}
    ensures next !in Interval(n, from, count - 1)
  {
    forall i: nat | i < n && i != next
      ensures Distance(from, i, n) != count - 1
    {
    }
  }

  lemma {:induction false} IntervalCount(n: nat, from: nat, count: nat)
    requires from < n && count <= n
    ensures |Interval(n, from, count)| == count
  {
    if 0 < count {
      IntervalCount(n, from, count - 1);
      var next := if from + count - 1 < n then from + count - 1 else from + count - 1 - n;
      assert Distance(from, next, n) == count - 1;
      IntervalGrows(n, from, count, next);
    } else {
      assert Interval(n, from, count) == {};
    }
  }

  // The poller never touches a slot that is in use, so the chunk a callback is
  // reading cannot change under it.
  lemma PollerSparesSlotsInUse(s: State, step: Step, i: nat)
    requires Inv(s) && Enabled(s, step) && i < |s.slots| && s.slots[i].inUse
    requires step.Data? || step.Copy? || step.Release? || step.Advance? || step.Complete? || step.Abort? || step.Scan?
    ensures Defined(s, step) && i < |Apply(s, step).slots| && Apply(s, step).slots[i] == s.slots[i]
  {
    InvDefines(s, step);
    PollerSpares(s, step, i);
  }

  lemma PollerSpares(s: State, step: Step, i: nat)
    requires Defined(s, step) && Scanned(s) && i < |s.slots| && s.slots[i].inUse
    requires step.Data? || step.Copy? || step.Release? || step.Advance? || step.Complete? || step.Abort? || step.Scan?
    ensures i < |Apply(s, step).slots| && Apply(s, step).slots[i] == s.slots[i]
  {
    match step {
      case Copy => CopySparesSlotsInUse(s, i);
      case Scan => ScanSparesSlotsInUse(s, i);
      case _ =>
    }
  }

  lemma ScanSparesSlotsInUse(s: State, i: nat)
    requires Scanned(s) && Enabled(s, Scan) && i < |s.slots| && s.slots[i].inUse
    ensures ScanStep(s).slots[i] == s.slots[i]
  {
    assert s.poller.scanned <= i;
  }

  lemma CopySparesSlotsInUse(s: State, i: nat)
    requires Defined(s, Copy) && i < |s.slots| && s.slots[i].inUse
    ensures CopyStep(s).slots[i] == s.slots[i]
  {
  }

  predicate CopyIsExact(s: State)
    requires Shape(s) && s.poller.Checked?
  {
    && s.processed <= |s.poller.packet.bytes|
    && var copied := CopySize(s, s.poller.packet);
    && 0 < copied && s.processed + copied <= |s.poller.packet.bytes|
    && s.tailOffset % s.chunkSize + copied <= |s.slots[s.head].data|
    && (s.processed + copied == |s.poller.packet.bytes| ||
        s.tailOffset % s.chunkSize + copied == |s.slots[s.head].data|)
  }

  // A copy takes something, stays inside the head slot's buffer, and stops only at
  // the end of the packet or of the chunk.
  lemma CopyStaysInBuffer(s: State)
    requires Inv(s) && s.poller.Checked? && !s.slots[s.head].inUse
    ensures CopyIsExact(s)
  {
    OpenChunk(s, s.poller.packet);
  }

  // A copy that leaves part of the packet completes a chunk.
  lemma CopyTakesAll(s: State, packet: Packet)
    requires Shape(s) && s.headOffset <= s.tailOffset && s.tailOffset % s.chunkSize == s.tailOffset - s.headOffset
    requires s.headOffset % s.chunkSize == 0
    requires s.processed <= |packet.bytes|
    ensures CopySize(s, packet) == |packet.bytes| - s.processed
            || (s.tailOffset + CopySize(s, packet)) % s.chunkSize == 0
  {
    if CopySize(s, packet) != |packet.bytes| - s.processed {
      assert s.tailOffset % s.chunkSize + CopySize(s, packet) == s.chunkSize;
      MultipleStep(s.headOffset, s.chunkSize);
    }
  }

  // ------------------------------------------------------------ rejection

  // A packet with the wrong offset, or any packet after the callback objected,
  // changes nothing but the answer.
  lemma RejectionChangesNothing(s: State, target: nat, packet: Packet)
    requires Inv(s) && Enabled(s, Data(target, packet))
    requires s.started && target == s.target
    requires s.dataError || packet.offset != s.tailOffset - s.processed
    ensures Defined(s, Data(target, packet))
    ensures var t := Apply(s, Data(target, packet));
            && t == s.(answer := t.answer, pending := [])
            && t.answer.status == Continue
            && t.answer.code == (if s.dataError then InvalidData else InvalidOffset)
    ensures !s.dataError ==> s.pending == []
  {
  }

  predicate TargetOf(step: Step, target: nat) {
    (step.Data? || step.Complete? || step.Abort?) && step.target == target
  }

  // A call for another target, or when no download is in progress, is answered
  // with an error and changes nothing; the packet is not offered again.
  lemma StrayCallChangesNothing(s: State, step: Step, target: nat)
    requires Inv(s) && Enabled(s, step) && TargetOf(step, target)
    requires target != s.target || !s.started
    ensures Defined(s, step)
    ensures Apply(s, step) ==
            s.(answer := Answer(Error, Unset), pending := if step.Data? then [] else s.pending)
  {
  }

  // ------------------------------------------------------------ answers

  // The answer of a data call that has come to its end with this step: busy exactly
  // if the head slot was in use or part of the packet is left, the others only for
  // the reasons the source has for them. CCFSM offers the packet again exactly if it
  // was told that the poller was busy, and there is then something left of it.
  ghost predicate AnswersExactly(s: State, step: Step, t: State)
    requires Enabled(s, step) && (step.Data? || step.Copy? || step.Advance?) && s.head < |s.slots|
  {
    if t.poller.Idle? then
      && (t.answer.status == Busy <==> t.pending != [])
      && (t.answer.status == Error <==> step.Data? && (step.target != s.target || !s.started))
      && (t.answer.status == Busy <==>
          || (step.Copy? && s.slots[s.head].inUse)
          || (step.Advance? && s.processed + s.poller.copied < |s.poller.packet.bytes|))
      && (t.answer.code == InvalidData <==> step.Data? && t.answer.status != Error && s.dataError)
      && (t.answer.code == InvalidOffset <==>
          && step.Data? && t.answer.status != Error && !s.dataError
          && step.packet.offset != s.tailOffset - s.processed)
      && t.answer.code != NotComplete && (t.answer.code == Unset <==> t.answer.status == Error)
      && (t.pending != [] ==> t.processed < |t.pending[0].bytes|)
    else
      && (step.Data? || step.Copy?) && t.pending == []
      && (step.Data? ==> t.poller == Checked(step.packet))
      && (step.Copy? ==> t.poller.Filled? && t.poller.packet == s.poller.packet)
  }

  lemma DataAnswersExactly(s: State, step: Step)
    requires Inv(s) && Enabled(s, step) && (step.Data? || step.Copy? || step.Advance?)
    ensures Defined(s, step) && s.head < |s.slots| && AnswersExactly(s, step, Apply(s, step))
  {
    hide Inv, DataCall, CopyStep, AdvanceStep;
    StepKeepsInv(s, step);
    RemainderIsLeft(Apply(s, step));
    HeadIsThere(s);
    match step {
      case Data(target, packet) => DataAnswers(s, target, packet);
      case Copy => CopyAnswers(s);
      case Advance => AdvanceAnswers(s);
    }
  }

  lemma HeadIsThere(s: State)
    requires Inv(s)
    ensures s.head < |s.slots|
  {
  }

  lemma RemainderIsLeft(t: State)
    requires Inv(t)
    ensures t.pending != [] ==> t.processed < |t.pending[0].bytes|
  {
  }

  lemma DataAnswers(s: State, target: nat, packet: Packet)
    requires s.poller.Idle?
    ensures var t := DataCall(s, target, packet);
            if t.poller.Idle? then
              && t.pending == [] && t.answer.status != Busy && t.answer.code != NotComplete && t.answer.code != Success
              && (t.answer.status == Error <==> target != s.target || !s.started)
              && (t.answer.code == Unset <==> t.answer.status == Error)
              && (t.answer.code == InvalidData <==> t.answer.status != Error && s.dataError)
              && (t.answer.code == InvalidOffset <==>
                  t.answer.status != Error && !s.dataError && packet.offset != s.tailOffset - s.processed)
            else t.poller == Checked(packet) && t.pending == []
  {
  }

  lemma CopyAnswers(s: State)
    requires Inv(s) && s.poller.Checked? && Defined(s, Copy)
    ensures var t := CopyStep(s);
            if t.poller.Idle? then
              && t.answer.code == Success && t.answer.status == (if s.slots[s.head].inUse then Busy else Continue)
              && (t.pending != [] <==> s.slots[s.head].inUse)
            else t.poller.Filled? && t.poller.packet == s.poller.packet && t.pending == []
  {
    var packet := s.poller.packet;
    if !s.slots[s.head].inUse {
      OpenChunk(s, packet);
      var copied := CopySize(s, packet);
      var full := s.tailOffset + copied == |s.image| || (s.tailOffset + copied) % s.chunkSize == 0;
      CopyStepCopies(s, packet, copied, full);
      CopyTakesAll(s, packet);
      hide Inv, CopyStep, CopySize;
    }
  }

  lemma AdvanceAnswers(s: State)
    requires Inv(s) && s.poller.Released?
    ensures var t := AdvanceStep(s);
            && t.poller.Idle? && t.answer.code == Success
            && t.answer.status == (if s.processed + s.poller.copied < |s.poller.packet.bytes| then Busy else Continue)
            && (t.pending != [] <==> t.answer.status == Busy)
  {
  }

  // ------------------------------------------------------------ abort

  // Once the user's cancel callback has run, its data callback never runs again.
  lemma NoCallbackAfterCancel(s: State, steps: seq<Step>, more: seq<Step>)
    requires Started(s) && Follows(s, steps) && Run(s, steps).cancels != []
    requires Follows(Run(s, steps), more)
    ensures Run(Run(s, steps), more).log == Run(s, steps).log
  {
    ReachedInv(s, steps);
    EndedStaysSilent(Run(s, steps), more);
  }

  lemma {:induction false} EndedStaysSilent(s: State, steps: seq<Step>)
    requires Inv(s) && !s.started && Follows(s, steps)
    ensures Run(s, steps).log == s.log
    decreases |steps|
  {
    if steps == [] {
    } else {
      var t := Apply(s, steps[0]);
      assert !s.worker.Acquired? && s.semaphore == 0;
      StepKeepsInv(s, steps[0]);
      StepKeepsDownload(s, steps[0]);
      assert t.log == s.log;
      EndedStaysSilent(t, steps[1..]);
    }
  }

  // The cancel callback runs at most once, and only in a download that ended
  // by being aborted.
  lemma AbortEndsTheDownload(s: State, step: Step)
    requires Inv(s) && Defined(s, step) && Apply(s, step).cancels != s.cancels
    ensures Apply(s, step).outcome.Aborted? && !Apply(s, step).started && SlotsInUse(s) == {}
    ensures s.poller.ScanningAbort? && s.cancels == [] && Apply(s, step).cancels == [s.poller.status]
  {
    CancelAdds(s, step);
    NothingLive(s);
    RingCount(s);
  }

  lemma CancelAdds(s: State, step: Step)
    requires Defined(s, step) && Scanned(s) && Apply(s, step).cancels != s.cancels
    ensures Apply(s, step).outcome.Aborted? && !Apply(s, step).started
    ensures s.started && s.poller.ScanningAbort? && s.poller.scanned == |s.slots|
    ensures Apply(s, step).cancels == s.cancels + [s.poller.status]
  {
    match step {
      case Copy => CopyKeepsDownload(s);
      case _ =>
    }
  }

  // ------------------------------------------------------------ progress

  function WorkerWork(s: State): nat {
    5 * s.semaphore + match s.worker
                      case Waiting => 0
                      case Acquired => 4
                      case Called(_, _) => 3
                      case Judged(_) => 2
                      case Cleared => 1
  }

  // Bytes not yet processed of the packet being delivered.
  function Unprocessed(s: State): int {
    match s.poller
    case Checked(packet) => |packet.bytes| - s.processed
    case Filled(packet, copied) => |packet.bytes| - s.processed - copied
    case Released(packet, copied) => |packet.bytes| - s.processed - copied
    case _ => if s.pending != [] then |s.pending[0].bytes| - s.processed else 0
  }

  function Work(s: State): int {
    8 * Unprocessed(s) + (match s.poller case Filled(_, _) => 7 case Released(_, _) => 1 case _ => 0) + WorkerWork(s)
  }

  // The steps that may happen while a packet is being delivered: CCFSM offers it
  // again, the poller goes on, or the worker does anything at all.
  predicate DeliveryStep(s: State, step: Step) {
    && !step.Complete? && !step.Abort? && !step.Scan?
    && (step.Data? ==> s.pending != [])
  }

  // CCFSM offers the packet again, and nothing stands against it yet; or the
  // poller finds the head slot in use.
  predicate Polls(s: State, step: Step)
    requires s.head < |s.slots|
  {
    (step.Data? && !s.dataError) || (step.Copy? && s.slots[s.head].inUse)
  }

  // Every such step gets nearer to the end of the packet, except offering it
  // again and finding the head slot in use. These change nothing but where the
  // poller stands, and after the second the worker has something to do.
  lemma DeliveryProgress(s: State, step: Step)
    requires Inv(s) && s.started && Defined(s, step) && DeliveryStep(s, step)
    ensures 0 <= Work(Apply(s, step)) <= Work(s)
    ensures Polls(s, step) <==> Work(Apply(s, step)) == Work(s)
    ensures Polls(s, step) && step.Data? ==>
              s.pending != [] && Apply(s, step) == s.(poller := Checked(s.pending[0]), pending := [])
    ensures Polls(s, step) && step.Copy? ==>
              && 0 < WorkerWork(s)
              && Apply(s, step) == s.(poller := Idle, answer := Answer(Busy, Success), pending := [s.poller.packet])
  {
    WorkStaysNatural(s, step);
    hide Work, Apply;
    match step {
      case Data(target, packet) => DataProgress(s, target, packet);
      case Copy => CopyProgress(s);
      case _ => OtherProgress(s, step);
    }
  }

  lemma WorkIsNatural(s: State)
    requires Shape(s) && Offered(s) && Filling(s)
    ensures 0 <= Work(s)
  {
  }

  lemma WorkStaysNatural(s: State, step: Step)
    requires Inv(s) && Defined(s, step)
    ensures 0 <= Work(Apply(s, step))
  {
    StepKeepsInv(s, step);
    WorkIsNatural(Apply(s, step));
  }

  lemma DataProgress(s: State, target: nat, packet: Packet)
    requires Inv(s) && s.started && Enabled(s, Data(target, packet)) && s.pending != []
    ensures var t := DataCall(s, target, packet);
            if s.dataError then Work(t) < Work(s)
            else Work(t) == Work(s) && t == s.(poller := Checked(s.pending[0]), pending := [])
  {
    assert |s.pending| == 1;
  }

  lemma CopyProgress(s: State)
    requires Inv(s) && Defined(s, Copy)
    ensures var t := CopyStep(s);
            if s.slots[s.head].inUse then
              && Work(t) == Work(s) && 0 < WorkerWork(s)
              && t == s.(poller := Idle, answer := Answer(Busy, Success), pending := [s.poller.packet])
            else Work(t) < Work(s)
  {
    if s.slots[s.head].inUse {
      assert 0 < Live(s);
    } else {
      OpenChunk(s, s.poller.packet);
      CopyTakesSome(s, s.poller.packet);
    }
  }

  lemma CopyTakesSome(s: State, packet: Packet)
    requires Shape(s) && s.poller == Checked(packet) && s.started && !s.slots[s.head].inUse
    requires s.headOffset <= s.tailOffset && s.tailOffset % s.chunkSize == s.tailOffset - s.headOffset
    requires s.processed < |packet.bytes| && 0 < CopySize(s, packet)
    ensures Work(CopyStep(s)) < Work(s)
  {
    var copied := CopySize(s, packet);
    var complete := s.tailOffset + copied == |s.image| || (s.tailOffset + copied) % s.chunkSize == 0;
    CopyStepCopies(s, packet, copied, complete);
  }

  lemma OtherProgress(s: State, step: Step)
    requires Defined(s, step) && DeliveryStep(s, step) && !step.Data? && !step.Copy?
    ensures Work(Apply(s, step)) < Work(s)
  {
  }

  // A run made of delivery steps only.
  ghost predicate DeliveryRun(s: State, steps: seq<Step>)
    decreases |steps|
  {
    steps == [] ||
    (Defined(s, steps[0]) && DeliveryStep(s, steps[0]) && DeliveryRun(Apply(s, steps[0]), steps[1..]))
  }

  // How many steps of such a run do more than poll.
  ghost function EffectiveSteps(s: State, steps: seq<Step>): nat
    requires DeliveryRun(s, steps)
    decreases |steps|
  {
    if steps == [] then 0
    else (if Polls(s, steps[0]) then 0 else 1) + EffectiveSteps(Apply(s, steps[0]), steps[1..])
  }

  // Under any schedule a packet is answered after at most Work(s) steps that do
  // something: only a scheduler that starves the worker can delay it further.
  lemma {:induction false} DeliveryIsBounded(s: State, steps: seq<Step>)
    requires Inv(s) && s.started && DeliveryRun(s, steps)
    ensures EffectiveSteps(s, steps) <= Work(s)
    decreases |steps|
  {
    WorkIsNatural(s);
    if steps == [] {
    } else {
      DeliveryProgress(s, steps[0]);
      DeliveryStaysStarted(s, steps[0]);
      StepKeepsInv(s, steps[0]);
      DeliveryIsBounded(Apply(s, steps[0]), steps[1..]);
    }
  }

  lemma DeliveryStaysStarted(s: State, step: Step)
    requires Inv(s) && s.started && Defined(s, step) && DeliveryStep(s, step)
    ensures Apply(s, step).started
  {
    InvDefines(s, step);
    DeliveryKeepsStarted(s, step);
  }

  lemma DeliveryKeepsStarted(s: State, step: Step)
    requires Defined(s, step) && s.started && DeliveryStep(s, step)
    ensures Apply(s, step).started
  {
  }

  predicate Unanswered(s: State) {
    Copying(s) || s.poller.Checked? || (s.pending != [] && s.poller.Idle?)
  }

  // There is no deadlock: while a packet is unanswered CCFSM can offer it again,
  // or some step gets nearer to its answer.
  lemma EffectiveStepExists(s: State) returns (step: Step)
    requires Inv(s) && s.started && Unanswered(s)
    ensures Defined(s, step) && DeliveryStep(s, step)
    ensures Polls(s, step) ==> step.Data?
  {
    if s.poller.Filled? {
      step := Release;
    } else if s.poller.Released? {
      step := Advance;
    } else if s.poller.Idle? {
      step := Data(s.target, s.pending[0]);
    } else {
      step := Copy;
      InvDefines(s, step);
      if Polls(s, step) {
        DeliveryProgress(s, step);
        match s.worker
        case Waiting => step := Acquire;
        case Acquired => step := Call(false);
        case Called(_, _) => step := Judge;
        case Judged(_) => step := Clear;
        case Cleared => step := AdvanceTail;
      }
    }
    InvDefines(s, step);
  }

  // From any state in which a packet is unanswered, some schedule answers it.
  lemma {:induction false} PacketCanBeAnswered(s: State) returns (steps: seq<Step>)
    requires Inv(s) && s.started && Unanswered(s)
    ensures DeliveryRun(s, steps) && |steps| <= 2 * Work(s) + 1
    ensures s.poller.Checked? ==> |steps| <= 2 * Work(s)
    ensures DeliveryEnd(s, steps).poller.Idle? && DeliveryEnd(s, steps).pending == []
    ensures DeliveryEnd(s, steps).answer.status == Continue
    decreases Work(s), if s.poller.Checked? then 0 else 1
  {
    WorkIsNatural(s);
    var step := EffectiveStepExists(s);
    StepKeepsInv(s, step);
    DeliveryProgress(s, step);
    DeliveryStaysStarted(s, step);
    WhatFollows(s, step);
    hide Inv, Defined, Work, Apply;
    var t := Apply(s, step);
    if Unanswered(t) {
      var rest := PacketCanBeAnswered(t);
      steps := [step] + rest;
    } else {
      steps := [step];
    }
  }

  ghost function DeliveryEnd(s: State, steps: seq<Step>): State
    requires DeliveryRun(s, steps)
    decreases |steps|
  {
    if steps == [] then s else DeliveryEnd(Apply(s, steps[0]), steps[1..])
  }

  lemma WhatFollows(s: State, step: Step)
    requires Inv(s) && s.started && Unanswered(s)
    requires Defined(s, step) && DeliveryStep(s, step)
    ensures var t := Apply(s, step);
            || Unanswered(t)
            || (t.pending == [] && t.poller.Idle? && t.answer.status == Continue)
  {
    InvDefines(s, step);
    AnswerFollows(s, step);
  }

  lemma AnswerFollows(s: State, step: Step)
    requires Defined(s, step) && s.started && Unanswered(s)
    requires DeliveryStep(s, step)
    ensures var t := Apply(s, step);
            || Unanswered(t)
            || (t.pending == [] && t.poller.Idle? && t.answer.status == Continue)
  {
  }

  // ------------------------------------------------------------ whole calls

  predicate Scanning(s: State) {
    s.poller.ScanningComplete? || s.poller.ScanningAbort?
  }

  // A scan of the pool that the worker does not interrupt.
  ghost function ScanAll(s: State): (t: State)
    requires Inv(s) && Scanning(s)
    ensures Inv(t)
    decreases |s.slots| - s.poller.scanned
  {
    ScanStepSound(s);
    var t := ScanStep(s);
    if Scanning(t) then ScanAll(t) else t
  }

  lemma ScanStepSound(s: State)
    requires Inv(s) && Scanning(s)
    ensures s.poller.scanned <= |s.slots| && Inv(ScanStep(s))
    ensures var t := ScanStep(s);
            Scanning(t) ==> t.poller.scanned == s.poller.scanned + 1 <= |s.slots| == |t.slots|
  {
    ScanKeepsInv(s);
    ScanStepCounts(s);
  }

  lemma ScanStepCounts(s: State)
    requires Scanned(s) && Scanning(s)
    ensures s.poller.scanned <= |s.slots|
    ensures var t := ScanStep(s);
            Scanning(t) ==> t.poller.scanned == s.poller.scanned + 1 <= |s.slots| == |t.slots|
  {
  }

  // It answers busy if a slot is in use, and otherwise ends the download.
  lemma {:induction false} ScanAllIs(s: State)
    requires Inv(s) && Scanning(s)
    ensures ScanAll(s) == if InUseFrom(s, s.poller.scanned) then ScanBusy(s) else ScanFree(s)
    decreases |s.slots| - s.poller.scanned
  {
    ScanStepSound(s);
    ScanStepIs(s);
    if Scanning(ScanStep(s)) {
      ScanAllIs(ScanStep(s));
      ScanLooksOn(s);
    }
    hide Inv, ScanStep, InUseFrom, ScanBusy, ScanFree;
  }

  lemma ScanAllUnrolls(s: State)
    requires Inv(s) && Scanning(s)
    ensures Inv(ScanStep(s)) && s.poller.scanned <= |s.slots|
    ensures var t := ScanStep(s);
            if Scanning(t) then ScanAll(s) == ScanAll(t) && t.poller.scanned == s.poller.scanned + 1
            else ScanAll(s) == t
  {
    ScanStepSound(s);
  }

  predicate InUseFrom(s: State, i: nat) {
    exists j :: i <= j < |s.slots| && s.slots[j].inUse
  }

  function ScanBusy(s: State): State {
    s.(poller := Idle, answer := Answer(Busy, if s.poller.ScanningComplete? then Success else Unset))
  }

  function ScanFree(s: State): State
    requires Scanning(s)
  {
    if s.poller.ScanningComplete? then FinishComplete(s) else FinishAbort(s, s.poller.status)
  }

  lemma ScanStepIs(s: State)
    requires Scanned(s) && Scanning(s)
    ensures var t := ScanStep(s);
            if Scanning(t) then !s.slots[s.poller.scanned].inUse && s.poller.scanned < |s.slots|
            else t == if InUseFrom(s, s.poller.scanned) then ScanBusy(s) else ScanFree(s)
  {
  }

  lemma ScanLooksOn(s: State)
    requires Scanned(s) && Scanning(s) && Scanning(ScanStep(s))
    ensures var t := ScanStep(s);
            && InUseFrom(t, t.poller.scanned) == InUseFrom(s, s.poller.scanned)
            && ScanBusy(t) == ScanBusy(s) && ScanFree(t) == ScanFree(s)
  {
    var t := ScanStep(s);
    if j :| s.poller.scanned <= j < |s.slots| && s.slots[j].inUse {
      assert t.slots[j].inUse;
    }
  }

  // What a call of complete means to CCFSM if the worker does not interrupt it: a
  // stray call is an error; while a slot is in use it is busy and nothing changes;
  // otherwise the download ends, and the answer says whether the callback was given
  // the whole image and whether it objected.
  lemma CompleteCallMeans(s: State, target: nat)
    requires Inv(s) && s.poller.Idle?
    ensures Inv(CompleteCall(s, target))
    ensures var c := CompleteCall(s, target);
            if target != s.target || !s.started then c == s.(answer := Answer(Error, Unset))
            else
              var t := ScanAll(c);
              if SlotsInUse(s) != {} then t == s.(answer := Answer(Busy, Success))
              else
                && !t.started && t.log == s.log && t.outcome == Completed(t.answer) && t.poller.Idle?
                && t.answer == Answer(if AnyInvalid(s.log) then Error else Continue,
                                      if |s.log| == |s.plan| then Success else NotComplete)
  {
    CompleteKeepsInv(s, target);
    var c := CompleteCall(s, target);
    if Scanning(c) {
      ScanAllIs(c);
      InUseIsSome(s);
    }
  }

  lemma InUseIsSome(s: State)
    ensures SlotsInUse(s) != {} <==> InUseFrom(s, 0)
  {
    if i :| 0 <= i < |s.slots| && s.slots[i].inUse {
      assert i in SlotsInUse(s);
    }
  }

  // And a call of abort: the cancel callback is given the status, where there is
  // one and the status is one it can be given.
  lemma AbortCallMeans(s: State, target: nat, status: AbortStatus)
    requires Inv(s) && s.poller.Idle?
    ensures Inv(AbortCall(s, target, status))
    ensures var c := AbortCall(s, target, status);
            if target != s.target || !s.started then c == s.(answer := Answer(Error, Unset))
            else
              var t := ScanAll(c);
              if SlotsInUse(s) != {} then t == s.(answer := Answer(Busy, Unset))
              else if s.hasCancel && status == Unexpected(false) then t == s.(answer := Answer(Error, Unset))
              else
                && !t.started && t.log == s.log && t.outcome.Aborted? && t.poller.Idle?
                && t.cancels == (if s.hasCancel then [status] else [])
                && t.answer == Answer(if s.hasCancel && status.Unexpected? then Error else Continue, Unset)
  {
    AbortKeepsInv(s, target, status);
    var c := AbortCall(s, target, status);
    if Scanning(c) {
      ScanAllIs(c);
      InUseIsSome(s);
      FinishAbortIs(c, status);
      hide Inv, FinishAbort, InUseFrom, SlotsInUse;
    }
  }

  lemma FinishAbortIs(s: State, status: AbortStatus)
    requires Ended(s) && s.started
    ensures var t := FinishAbort(s, status);
            if s.hasCancel && status == Unexpected(false) then t == s.(poller := Idle, answer := Answer(Error, Unset))
            else
              && !t.started && t.log == s.log && t.outcome.Aborted? && t.poller.Idle?
              && t.cancels == (if s.hasCancel then [status] else [])
              && t.answer == Answer(if s.hasCancel && status.Unexpected? then Error else Continue, Unset)
  {
  }
}
