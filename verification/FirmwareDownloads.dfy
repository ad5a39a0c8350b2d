// One download after another: what a start makes of the state the last download
// left, what a start that comes too soon does to the download in progress, and
// when the download that follows is again one that follows its plan.
module FirmwareDownloads {
  import opened Bytes
  import opened FirmwareChunks
  import opened FirmwareMachine
  import opened FirmwareProofs
  import opened FirmwareRuns

  // No download is in progress, and nothing is queued or in the worker's hands.
  predicate AtRest(s: State) {
    !s.started && s.poller.Idle? && Live(s) == 0
  }

  // A start that is not refused.
  ghost predicate StartEnabled(s: State, d: Download, contents: seq<seq<Byte>>) {
    && !s.started && s.poller.Idle? && 0 < d.chunkSize
    && 0 < |s.slots| <= MAX_SLOTS && (s.worker.Called? || s.worker.Judged? ==> s.worker.slot < |s.slots|)
    && |contents| == |s.slots| && forall i :: 0 <= i < |contents| ==> |contents[i]| == d.chunkSize
  }

  // The worker is not between giving the last slot back and advancing the tail;
  // or it is, and the tail has nowhere to go.
  predicate TailSettled(s: State) {
    !s.worker.Cleared? || |s.slots| == 1
  }

  // Nothing is queued and the worker has nothing in hand.
  predicate Settled(s: State) {
    Live(s) == 0 && TailSettled(s)
  }

  // A start frees every slot and sets the tail to the first one; a worker that has
  // still to handle a chunk, or to advance the tail, works on the wrong slot. The
  // new download is sound exactly when there is nothing left to do.
  lemma StartIsSoundExactly(s: State, d: Download, contents: seq<seq<Byte>>)
    requires StartEnabled(s, d, contents)
    ensures Inv(StartStep(s, d, contents)) <==> Settled(s)
  {
    var t := StartStep(s, d, contents);
    if Settled(s) {
      StartedInv(t);
    } else {
      assert Distance(Front(t), Front(t), |t.slots|) == 0;
      assert !Ring(t);
    }
  }

  // ------------------------------------------------- a start in a download

  // The worker is about to hand a chunk to the user's callback, or has, and the
  // buffer that holds it has been freed.
  predicate BufferGone(s: State) {
    && (s.worker.Acquired? || s.worker.Called?)
    && s.tail < |s.slots| && |s.slots[s.tail].data| < s.slots[s.tail].size
  }

  // Nothing is queued, acquired or with the callback.
  predicate Harmless(s: State) {
    s.semaphore == 0 && !s.worker.Acquired? && !s.worker.Called?
  }

  ghost predicate LosesBuffer(s: State) {
    exists steps :: Follows(s, steps) && BufferGone(Run(s, steps))
  }

  // A start that comes during a download is refused, and frees the buffers: the
  // callback can be left with a buffer that is gone exactly if a chunk is queued,
  // acquired or with it.
  lemma RejectionHarmsExactly(s: State)
    requires Inv(s) && s.started && s.poller.Idle?
    ensures LosesBuffer(RejectStep(s)) <==> !Harmless(s)
  {
    var t := RejectStep(s);
    if Harmless(s) {
      forall steps | Follows(t, steps)
        ensures !BufferGone(Run(t, steps))
      {
        StoppedStaysQuiet(t, steps);
      }
    } else {
      var steps := BufferIsLost(s);
    }
  }

  lemma {:induction false} StoppedStaysQuiet(s: State, steps: seq<Step>)
    requires !s.started && s.poller.Idle? && Harmless(s) && Follows(s, steps)
    ensures Harmless(Run(s, steps))
    decreases |steps|
  {
    if steps == [] {
    } else {
      StoppedStepIsQuiet(s, steps[0]);
      StoppedStaysQuiet(Apply(s, steps[0]), steps[1..]);
    }
  }

  lemma StoppedStepIsQuiet(s: State, step: Step)
    requires !s.started && s.poller.Idle? && Harmless(s) && Defined(s, step)
    ensures var t := Apply(s, step); !t.started && t.poller.Idle? && Harmless(t)
  {
  }

  // Steps of the worker that use no buffer.
  predicate BufferFree(step: Step) {
    step.Acquire? || step.Clear? || step.AdvanceTail?
  }

  // They do the same before and after the buffers are freed.
  lemma RejectionCommutes(s: State, step: Step)
    requires Defined(s, step) && BufferFree(step)
    ensures Defined(RejectStep(s), step) && Apply(RejectStep(s), step) == RejectStep(Apply(s, step))
    ensures Apply(s, step).started == s.started && Apply(s, step).poller == s.poller
  {
    if step.Clear? {
      var i := s.worker.slot;
      assert RejectStep(ClearStep(s)).slots == ClearStep(RejectStep(s)).slots;
    }
  }

  // How far the worker is from the buffer of a queued chunk.
  function ToBuffer(s: State): nat {
    match s.worker
    case Judged(_) => 3
    case Cleared => 2
    case Waiting => 1
    case _ => 0
  }

  lemma {:induction false} BufferIsLost(s: State) returns (steps: seq<Step>)
    requires Inv(s) && s.started && s.poller.Idle? && !Harmless(s)
    ensures Follows(RejectStep(s), steps) && BufferGone(Run(RejectStep(s), steps))
    ensures |steps| <= ToBuffer(s)
    decreases ToBuffer(s)
  {
    if ToBuffer(s) == 0 {
      HeldChunkHasBytes(s);
      steps := [];
    } else {
      var step := match s.worker case Judged(_) => Clear case Cleared => AdvanceTail case _ => Acquire;
      StepKeepsInv(s, step);
      RejectionCommutes(s, step);
      NearsBuffer(s, step);
      hide Inv, RejectStep, BufferGone;
      var rest := BufferIsLost(Apply(s, step));
      steps := [step] + rest;
    }
  }

  lemma NearsBuffer(s: State, step: Step)
    requires Defined(s, step) && !Harmless(s) && BufferFree(step)
    ensures !Harmless(Apply(s, step)) && ToBuffer(Apply(s, step)) < ToBuffer(s)
  {
  }

  lemma HeldChunkHasBytes(s: State)
    requires Inv(s) && (s.worker.Acquired? || s.worker.Called?)
    ensures s.tail < |s.slots| && 0 < s.slots[s.tail].size
  {
    assert Distance(s.tail, s.tail, |s.slots|) == 0;
    assert WellCut(s.image, s.chunkSize, s.plan, Retired(s));
  }

  // Such a start can come: any image has a run to a moment between two calls at
  // which a chunk is queued.
  lemma ChunkIsQueuedBetweenCalls(s: State) returns (steps: seq<Step>)
    requires Started(s) && s.image != []
    ensures Follows(s, steps)
    ensures var t := Run(s, steps); t.started && t.poller.Idle? && !Harmless(t)
  {
    var d := Download(s.image, s.chunkSize, s.target, s.hasCancel);
    var first := FirstChunk(d);
    QueuesAtOnce(s, d, first);
    steps := Queueing(s, [], d, first);
    steps := Extend(s, steps, Advance);
  }

  // ---------------------------------------------------------------- runs

  datatype Event =
    | Start(download: Download, contents: seq<seq<Byte>>)
      // the start of another download while one is in progress
    | RefusedStart
    | Step(step: FirmwareMachine.Step)

  // Starts come when they do no harm.
  ghost predicate Possible(s: State, event: Event) {
    match event
    case Start(d, contents) => StartEnabled(s, d, contents) && Settled(s)
    case RefusedStart => s.started && s.poller.Idle? && Harmless(s)
    case Step(step) => Defined(s, step)
  }

  ghost function After(s: State, event: Event): State
    requires Possible(s, event)
  {
    match event
    case Start(d, contents) => StartStep(s, d, contents)
    case RefusedStart => RejectStep(s)
    case Step(step) => Apply(s, step)
  }

  ghost predicate Happens(s: State, events: seq<Event>)
    decreases |events|
  {
    events == [] || (Possible(s, events[0]) && Happens(After(s, events[0]), events[1..]))
  }

  ghost function Outcome(s: State, events: seq<Event>): State
    requires Happens(s, events)
    decreases |events|
  {
    if events == [] then s else Outcome(After(s, events[0]), events[1..])
  }

  // A download has been stopped by a refused start, and the worker has only to give
  // its last slot back.
  ghost predicate Parting(s: State) {
    && !s.started && s.poller.Idle? && s.semaphore == 0 && s.outcome.Stopped?
    && s.worker.Judged? && s.worker.slot < |s.slots|
    && Shape(s) && Inv(ClearStep(s))
  }

  ghost predicate Sound(s: State) {
    (Inv(s) || Parting(s)) && s.plan == Canonical(s.image, s.chunkSize)
  }

  lemma RejectionKeepsSound(s: State)
    requires Inv(s) && s.started && s.poller.Idle? && Harmless(s)
    ensures Inv(RejectStep(s)) || Parting(RejectStep(s))
  {
    if s.worker.Judged? {
      StepKeepsInv(s, Clear);
      RejectionCommutes(s, Clear);
      RejectKeepsInv(ClearStep(s));
      RejectionShape(s);
    } else {
      RejectKeepsInv(s);
    }
  }

  lemma RejectionShape(s: State)
    requires Shape(s) && s.poller.Idle? && s.worker.Judged? && s.semaphore == 0
    ensures var t := RejectStep(s);
            && Shape(t) && !t.started && t.poller.Idle? && t.semaphore == 0 && t.outcome.Stopped?
            && t.worker.Judged? && t.worker.slot < |t.slots|
  {
  }

  lemma PartingStep(s: State, step: FirmwareMachine.Step)
    requires Parting(s) && Defined(s, step)
    ensures Inv(Apply(s, step)) || Parting(Apply(s, step))
  {
    if !step.Clear? {
      var t := Apply(s, step);
      StrayAnswer(s, step);
      AnswerKeepsInv(ClearStep(s), t.answer, t.pending);
      assert ClearStep(t) == ClearStep(s).(answer := t.answer, pending := t.pending);
    }
  }

  lemma StrayAnswer(s: State, step: FirmwareMachine.Step)
    requires !s.started && s.poller.Idle? && s.semaphore == 0 && s.worker.Judged?
    requires Defined(s, step) && !step.Clear?
    ensures Apply(s, step) ==
            s.(answer := Answer(Error, Unset), pending := if step.Data? then [] else s.pending)
  {
  }

  lemma EventKeepsSound(s: State, event: Event)
    requires Sound(s) && Possible(s, event)
    ensures Sound(After(s, event))
  {
    match event
    case Start(d, contents) =>
      StartIsSoundExactly(s, d, contents);
    case RefusedStart =>
      hide Inv;
      assert Inv(s) by {
        assert !Parting(s);
      }
      RejectionKeepsSound(s);
    case Step(step) =>
      hide Inv;
      StepKeepsDownload(s, step);
      if Inv(s) {
        StepKeepsInv(s, step);
      } else {
        PartingStep(s, step);
      }
  }

  lemma {:induction false} EventsKeepSound(s: State, events: seq<Event>)
    requires Sound(s) && Happens(s, events)
    ensures Sound(Outcome(s, events))
    decreases |events|
  {
    if events == [] {
    } else {
      EventKeepsSound(s, events[0]);
      hide Sound;
      EventsKeepSound(After(s, events[0]), events[1..]);
    }
  }

  ghost predicate LogFollows(t: State) {
    && 0 < t.chunkSize
    && ChunksOf(t.log) <= Canonical(t.image, t.chunkSize)
    && (t.outcome.Completed? ==>
          t.outcome.answer == Answer(if AnyInvalid(t.log) then Error else Continue,
                                     if ChunksOf(t.log) == Canonical(t.image, t.chunkSize) then Success
                                     else NotComplete))
  }

  lemma InvLogFollows(t: State)
    requires Inv(t) && t.plan == Canonical(t.image, t.chunkSize)
    ensures LogFollows(t)
  {
    assert |t.log| == |t.plan| ==> ChunksOf(t.log) == t.plan;
  }

  // Over any number of downloads, of any images, in any chunk sizes, and starts
  // refused in between: at every moment the callbacks of the current download are
  // an initial part of its own canonical chunks, and a completed one was answered
  // exactly.
  lemma EveryDownloadFollowsItsPlan(s: State, events: seq<Event>)
    requires Started(s) && Happens(s, events)
    ensures LogFollows(Outcome(s, events))
  {
    StartedInv(s);
    EventsKeepSound(s, events);
    var t := Outcome(s, events);
    if Inv(t) {
      InvLogFollows(t);
    } else {
      InvLogFollows(ClearStep(t));
    }
  }

  // ------------------------------------------------- a start too early

  ghost predicate Misled(s: State) {
    s.worker.Acquired? && s.tail < |s.slots| && !s.slots[s.tail].inUse
  }

  ghost predicate CanBeMisled(s: State) {
    exists steps :: Follows(s, steps) && Misled(Run(s, steps))
  }

  // The worker can wake to a slot that is not in use exactly if the start came
  // before everything was settled.
  lemma StartMisleadsExactly(s: State, d: Download, contents: seq<seq<Byte>>)
    requires StartEnabled(s, d, contents) && d.image != []
    ensures CanBeMisled(StartStep(s, d, contents)) <==> !Settled(s)
  {
    var t := StartStep(s, d, contents);
    if Settled(s) {
      StartIsSoundExactly(s, d, contents);
      forall steps | Follows(t, steps)
        ensures !Misled(Run(t, steps))
      {
        RunKeepsInv(t, steps);
        RingCount(Run(t, steps));
      }
    } else {
      var steps := EarlyStartMisleads(s, d, contents);
    }
  }

  lemma EarlyStartMisleads(s: State, d: Download, contents: seq<seq<Byte>>) returns (steps: seq<FirmwareMachine.Step>)
    requires StartEnabled(s, d, contents) && d.image != [] && !Settled(s)
    ensures var t := StartStep(s, d, contents);
            && Follows(t, steps) && Misled(Run(t, steps)) && Shape(Run(t, steps)) && Run(t, steps).log == []
            && (1 < |s.slots| || s.semaphore != 0 || s.worker.Acquired? ==> Vacant(Run(t, steps)))
  {
    var t := StartStep(s, d, contents);
    steps := [];
    if s.worker.Waiting? {
      steps := Extend(t, steps, Acquire);
    } else if !s.worker.Acquired? {
      if s.semaphore == 0 {
        var first := FirstChunk(d);
        QueuesAtOnce(t, d, first);
        steps := Queueing(t, steps, d, first);
      }
      var more := WorkerIsMisled(Run(t, steps));
      RunsJoin(t, steps, more);
      steps := steps + more;
    }
  }

  // One more step, and the callback is given a chunk that is empty: what it has been
  // given is no part of the plan.
  lemma EmptyChunkIsDelivered(s: State, d: Download, contents: seq<seq<Byte>>)
    returns (steps: seq<FirmwareMachine.Step>)
    requires StartEnabled(s, d, contents) && d.image != [] && !Settled(s)
    requires 1 < |s.slots| || s.semaphore != 0 || s.worker.Acquired?
    ensures var t := StartStep(s, d, contents);
            && Follows(t, steps) && ChunksOf(Run(t, steps).log) == [Chunk(0, [], false)]
            && !(ChunksOf(Run(t, steps).log) <= Canonical(d.image, d.chunkSize))
  {
    var t := StartStep(s, d, contents);
    steps := EarlyStartMisleads(s, d, contents);
    hide StartStep, Misled;
    steps := Extend(t, steps, Call(false));
    CanonicalWell(d.image, d.chunkSize);
    assert WellCut(d.image, d.chunkSize, Canonical(d.image, d.chunkSize), 0);
  }

  // The tail slot is as the start has left it.
  predicate Vacant(s: State) {
    && s.tail < |s.slots| && !s.slots[s.tail].inUse
    && s.slots[s.tail].offset == 0 && s.slots[s.tail].size == 0 && !s.slots[s.tail].last
  }

  // No slot but perhaps the first is in use, and the worker has yet to advance the
  // tail from there.
  predicate Astray(s: State) {
    && Shape(s) && s.started && s.tail == 0 && 0 < s.semaphore && s.log == []
    && (s.worker.Called? || s.worker.Judged? || s.worker.Cleared?)
    && (forall i :: 1 <= i < |s.slots| ==> s.slots[i].offset == 0 && s.slots[i].size == 0 && !s.slots[i].last)
    && (forall i :: 1 <= i < |s.slots| ==> !s.slots[i].inUse)
    && (|s.slots| == 1 && s.slots[0].inUse ==> !s.worker.Cleared?)
  }

  lemma WorkerIsMisled(s: State) returns (steps: seq<FirmwareMachine.Step>)
    requires Astray(s)
    ensures Follows(s, steps)
    ensures var t := Run(s, steps);
            && Misled(t) && Shape(t) && t.log == []
            && (1 < |s.slots| || (s.slots[0].offset == 0 && s.slots[0].size == 0 && !s.slots[0].last) ==> Vacant(t))
  {
    steps := [];
    if s.worker.Called? {
      steps := Extend(s, steps, Judge);
    }
    if !s.worker.Cleared? {
      steps := Extend(s, steps, Clear);
    }
    steps := Extend(s, steps, AdvanceTail);
    steps := Extend(s, steps, Acquire);
  }

  // ------------------------------------------------- the first chunk

  function FirstChunk(d: Download): (first: seq<Byte>)
    requires 0 < d.chunkSize && d.image != []
    ensures first != []
  {
    d.image[..Min(d.chunkSize, |d.image|)]
  }

  // A download of which nothing has been delivered yet.
  predicate AtItsStart(s: State, d: Download) {
    && Shape(s) && s.started && s.target == d.target && s.image == d.image && s.chunkSize == d.chunkSize
    && s.head == s.headOffset == s.tailOffset == s.processed == 0 && !s.dataError && !s.slots[0].inUse
    && s.poller.Idle? && s.pending == [] && d.image != []
  }

  // A packet that is a whole chunk fills the first slot.
  lemma QueuesAtOnce(s: State, d: Download, first: seq<Byte>)
    requires AtItsStart(s, d) && first == FirstChunk(d)
    ensures Defined(s, Data(d.target, Packet(0, first)))
    ensures var c := DataCall(s, d.target, Packet(0, first));
            Defined(c, Copy) && FirstQueued(s, d, first, CopyStep(c))
  {
    assert |first| % s.chunkSize == 0 || |first| == |s.image|;
  }

  predicate FirstQueued(s: State, d: Download, first: seq<Byte>, t: State) {
    && t.poller.Filled? && t.tail == s.tail && t.semaphore == s.semaphore && t.worker == s.worker
    && t.started && t.headOffset == |first| && !t.dataError && t.image == s.image && t.target == s.target
    && t.log == s.log && Shape(t) && t.slots[0].size <= |t.slots[0].data|
    && |t.slots| == |s.slots| && forall i :: 1 <= i < |s.slots| ==> t.slots[i] == s.slots[i]
  }

  lemma Queueing(s: State, steps: seq<FirmwareMachine.Step>, d: Download, first: seq<Byte>)
    returns (more: seq<FirmwareMachine.Step>)
    requires Follows(s, steps) && AtItsStart(Run(s, steps), d) && first == FirstChunk(d)
    ensures Follows(s, more)
    ensures var u, t := Run(s, steps), Run(s, more);
            t.poller.Released? && t.semaphore == u.semaphore + 1
            && var filled := Filled(t.poller.packet, t.poller.copied);
            FirstQueued(u, d, first, t.(poller := filled, semaphore := u.semaphore))
  {
    QueuesAtOnce(Run(s, steps), d, first);
    more := Extend(s, steps, Data(d.target, Packet(0, first)));
    more := Extend(s, more, Copy);
    more := Extend(s, more, Release);
  }

  // The worker has given the last slot back and not yet advanced the tail.
  ghost predicate LastSlotCleared(s: State, t: State) {
    && SameDownload(s, t) && t.started && t.poller.Idle? && t.worker.Cleared? && t.semaphore == 0
    && t.headOffset == |t.image| && !t.dataError
    && forall i :: 0 <= i < |t.slots| ==> !t.slots[i].inUse
  }

  // The one chunk of the image is queued and the head has moved on.
  ghost predicate OneChunkQueued(s: State, t: State) {
    && SameDownload(s, t) && Shape(t) && t.started && t.poller.Idle? && t.worker.Waiting? && t.semaphore == 1
    && t.headOffset == |t.image| && !t.dataError && t.tail == 0 && t.target == s.target
    && t.slots[0].size <= |t.slots[0].data|
    && forall i :: 1 <= i < |t.slots| ==> !t.slots[i].inUse
  }

  lemma OneChunkQueues(s: State) returns (steps: seq<FirmwareMachine.Step>)
    requires Started(s) && s.worker.Waiting? && |s.slots| == 2 && s.image != [] && |s.image| <= s.chunkSize
    ensures Follows(s, steps) && OneChunkQueued(s, Run(s, steps))
  {
    var d := Download(s.image, s.chunkSize, s.target, s.hasCancel);
    steps := Queueing(s, [], d, FirstChunk(d));
    steps := Extend(s, steps, Advance);
    RunKeepsDownload(s, steps);
  }

  lemma OneChunkCleared(s: State, t: State) returns (steps: seq<FirmwareMachine.Step>)
    requires OneChunkQueued(s, t)
    ensures Follows(t, steps) && LastSlotCleared(s, Run(t, steps))
  {
    steps := [];
    steps := Extend(t, steps, Acquire);
    steps := Extend(t, steps, Call(false));
    steps := Extend(t, steps, Judge);
    steps := Extend(t, steps, Clear);
    RunKeepsDownload(t, steps);
  }

  lemma CompletedAtOnce(s: State, t: State) returns (steps: seq<FirmwareMachine.Step>)
    requires LastSlotCleared(s, t) && Shape(t) && |t.slots| == 2
    ensures Follows(t, steps)
    ensures var u := Run(t, steps);
            u.outcome == Completed(Answer(Continue, Success)) && AtRest(u) && !TailSettled(u)
  {
    steps := [];
    steps := Extend(t, steps, Complete(t.target));
    steps := Extend(t, steps, Scan);
    steps := Extend(t, steps, Scan);
    steps := Extend(t, steps, Scan);
  }

  // Such a start can come: a download can be completed while the worker has yet
  // to advance the tail.
  lemma CompletionMayComeEarly(s: State) returns (steps: seq<FirmwareMachine.Step>)
    requires Started(s) && s.worker.Waiting? && |s.slots| == 2 && s.image != [] && |s.image| <= s.chunkSize
    ensures Follows(s, steps)
    ensures var t := Run(s, steps);
            t.outcome == Completed(Answer(Continue, Success)) && AtRest(t) && !TailSettled(t)
  {
    var queue := OneChunkQueues(s);
    var t := Run(s, queue);
    var clear := OneChunkCleared(s, t);
    RunsJoin(s, queue, clear);
    ReachedInv(s, queue + clear);
    var end := CompletedAtOnce(s, Run(t, clear));
    RunsJoin(s, queue + clear, end);
    steps := queue + clear + end;
  }

  lemma {:induction false} RunsJoin(s: State, xs: seq<FirmwareMachine.Step>, ys: seq<FirmwareMachine.Step>)
    requires Follows(s, xs) && Follows(Run(s, xs), ys)
    ensures Follows(s, xs + ys) && Run(s, xs + ys) == Run(Run(s, xs), ys)
    decreases |xs|
  {
    if xs == [] {
      assert xs + ys == ys;
    } else {
      assert (xs + ys)[1..] == xs[1..] + ys;
      RunsJoin(Apply(s, xs[0]), xs[1..], ys);
    }
  }

  lemma {:induction false} Extend(s: State, steps: seq<FirmwareMachine.Step>, step: FirmwareMachine.Step)
    returns (more: seq<FirmwareMachine.Step>)
    requires Follows(s, steps) && Defined(Run(s, steps), step)
    ensures Follows(s, more) && Run(s, more) == Apply(Run(s, steps), step)
    decreases |steps|
  {
    if steps == [] {
      more := [step];
    } else {
      var rest := Extend(Apply(s, steps[0]), steps[1..], step);
      more := [steps[0]] + rest;
    }
  }
}
