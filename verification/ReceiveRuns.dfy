// Every interleaving of CCFSM, the receive worker and the application's changes
// of the target list keeps the receive service's invariant, and what that means
// for whole runs.
module ReceiveRuns {
  import opened Options
  import opened Streaming
  import opened ReceiveMachine

  // ---------------------------------------------------------------- steps

  lemma InvDefines(s: State, step: Step)
    requires Handoff(s) && Enabled(s, step)
    ensures Defined(s, step)
  {
  }

  // Steps that change one session, and nothing about the handoff.
  lemma PutKeepsInv(s: State, id: Id, x: Session, answer: Answer)
    requires Inv(s) && SessionOk(x, s.worker == Called(id)) && (x.accepted ==> s.supported)
    requires x.phase == Queued <==> id in s.sessions && s.sessions[id].phase == Queued
    ensures Inv(Put(s, id, x, answer))
  {
  }

  lemma OpenKeepsInv(s: State, id: Id, name: string, required: bool, accepts: bool)
    requires Inv(s) && Enabled(s, Open(id, name, required, accepts))
    ensures Inv(OpenStep(s, id, name, required, accepts))
  {
    var x := Opened(s.supported, s.default, s.targets, name, required, accepts);
    assert Flatten([]) == [];
    assert SessionOk(x, false);
    PutKeepsInv(s, id, x, if x.accepted then Continue else Failed);
  }

  lemma FlattenMore(packets: seq<Packet>, packet: Packet)
    ensures Flatten(packets + [packet]) == Flatten(packets) + packet.bytes
    ensures AllMore(packets) && packet.more ==> AllMore(packets + [packet])
    ensures AllMore(packets) && !packet.more ==> Whole(packets + [packet])
  {
    assert (packets + [packet])[..|packets|] == packets;
  }

  lemma AssembleOk(x: Session, packet: Packet)
    requires SessionOk(x, false) && x.phase == Idle && x.accepted
    ensures var y := Assemble(x, packet).0;
            SessionOk(y, false) && y.phase != Queued && y.accepted
  {
    FlattenMore(x.packets, packet);
  }

  lemma ConcludeOk(x: Session)
    requires SessionOk(x, false) && x.phase == Processed
    ensures SessionOk(Conclude(x).0, false) && Conclude(x).0.phase == Free
  {
  }

  lemma QueueKeepsInv(s: State, id: Id)
    requires Inv(s) && id in s.sessions && s.sessions[id].phase == Ready && s.slot == None
    ensures Inv(Put(s, id, s.sessions[id].(phase := Queued), Busy).(slot := Some(id), poller := Posting))
  {
    assert SessionOk(s.sessions[id].(phase := Queued), false);
  }

  lemma DataKeepsInv(s: State, id: Id, packet: Packet)
    requires Inv(s) && Enabled(s, Data(id, packet))
    ensures Inv(DataStep(s, id, packet))
  {
    var x := s.sessions[id];
    assert s.supported;
    match x.phase {
      case Idle =>
        AssembleOk(x, packet);
        PutKeepsInv(s, id, Assemble(x, packet).0, Assemble(x, packet).1);
      case Ready =>
        if s.slot == None {
          QueueKeepsInv(s, id);
        }
      case Processed =>
        ConcludeOk(x);
        PutKeepsInv(s, id, Conclude(x).0, Conclude(x).1);
      case _ =>
    }
  }

  lemma ReplyOk(r: Reply, size: nat)
    requires Replying(r)
    ensures Replying(ReplyCall(r, size)) && ReplyCall(r, size).given == r.given
  {
    if r.required {
      if Unsent(r) {
        FirstCall(r, size);
      } else {
        NextCall(r, size);
      }
    }
    hide InternalError;
  }

  lemma ReplyKeepsInv(s: State, id: Id, size: nat)
    requires Inv(s) && Enabled(s, ReplyData(id, size))
    ensures Inv(ReplyStep(s, id, size))
  {
    var x := s.sessions[id];
    var y := x.(reply := ReplyCall(x.reply, size));
    ReplyOk(x.reply, size);
    PutKeepsInv(s, id, y, if x.reply.required then Continue else Failed);
  }

  lemma ClosingOk(x: Session, called: bool, status: CloudStatus, supported: bool)
    requires SessionOk(x, called)
    ensures var y := Closing(x, status);
            Over(Closed(y, x.reply.error, status, ReportOf(supported, y)), supported)
  {
    hide InternalError, Flatten;
  }

  lemma StatusKeepsInv(s: State, id: Id, status: CloudStatus)
    requires Inv(s) && Enabled(s, Status(id, status))
    ensures Inv(StatusStep(s, id, status))
  {
    ClosingOk(s.sessions[id], s.worker == Called(id), status, s.supported);
  }

  lemma TargetsKeepOk(targets: seq<Target>, supported: bool, target: Option<string>, callbacks: Callbacks,
                      limit: Limit, running: bool)
    requires TargetsOk(targets)
    ensures TargetsOk(Added(targets, supported, target, callbacks, limit, running).0)
    ensures TargetsOk(Removed(targets, supported, target, running).0)
  {
  }

  lemma CallKeepsInv(s: State, error: Error, response: Option<string>)
    requires Inv(s) && Defined(s, Call(error, response))
    ensures AssertionsHold(s) && Inv(CallStep(s, error, response))
  {
    var id := s.slot.value;
    assert SessionOk(s.sessions[id], false);
    assert SessionOk(AfterCall(s.sessions[id], error, response), true);
  }

  lemma MarkKeepsInv(s: State)
    requires Inv(s) && Defined(s, Mark)
    ensures Inv(MarkStep(s))
  {
    var id := s.worker.id;
    assert SessionOk(s.sessions[id], true);
    assert SessionOk(s.sessions[id].(phase := Processed), false);
  }

  lemma StepKeepsInv(s: State, step: Step)
    requires Inv(s) && Enabled(s, step)
    ensures Defined(s, step) && Inv(Apply(s, step))
  {
    InvDefines(s, step);
    match step {
      case Open(id, name, required, accepts) => OpenKeepsInv(s, id, name, required, accepts);
      case Data(id, packet) => DataKeepsInv(s, id, packet);
      case ReplyData(id, size) => ReplyKeepsInv(s, id, size);
      case Status(id, status) => StatusKeepsInv(s, id, status);
      case AddTarget(target, callbacks, limit, running) =>
        TargetsKeepOk(s.targets, s.supported, target, callbacks, limit, running);
      case RemoveTarget(target, running) =>
        TargetsKeepOk(s.targets, s.supported, target, Callbacks(true, true), NoLimit, running);
      case Call(error, response) => CallKeepsInv(s, error, response);
      case Mark => MarkKeepsInv(s);
      case _ =>
    }
  }

  // ---------------------------------------------------------------- runs

  predicate Follows(s: State, steps: seq<Step>)
    decreases |steps|
  {
    steps == [] || (Defined(s, steps[0]) && Follows(Apply(s, steps[0]), steps[1..]))
  }

  function Run(s: State, steps: seq<Step>): State
    requires Follows(s, steps)
    decreases |steps|
  {
    if steps == [] then s else Run(Apply(s, steps[0]), steps[1..])
  }

  lemma {:induction false} RunKeepsInv(s: State, steps: seq<Step>)
    requires Inv(s) && Follows(s, steps)
    ensures Inv(Run(s, steps))
    decreases |steps|
  {
    if steps == [] {
    } else {
      StepKeepsInv(s, steps[0]);
      RunKeepsInv(Apply(s, steps[0]), steps[1..]);
    }
  }

  // The shared slot is set exactly while one handoff is outstanding, at most one
  // session is queued and it is the one in the slot, and the semaphore never
  // exceeds one.
  lemma SlotIsExact(s: State, steps: seq<Step>)
    requires Initial(s) && Follows(s, steps)
    ensures var t := Run(s, steps);
            && (t.slot.Some? <==> Outstanding(t) == 1)
            && Outstanding(t) <= 1 && t.semaphore <= 1
            && (forall id :: id in t.sessions && t.sessions[id].phase == Queued ==> t.slot == Some(id))
  {
    RunKeepsInv(s, steps);
  }

  // The worker's three assertions hold whenever it wakes up, the record it is
  // working on has not been freed, and it never leaves its loop because of them.
  lemma WorkerAssertionsHold(s: State, steps: seq<Step>)
    requires Initial(s) && Follows(s, steps)
    ensures var t := Run(s, steps);
            && t.worker != Dead
            && (t.worker == Acquired ==> t.slot.Some? && t.slot.value in t.sessions && AssertionsHold(t))
            && (t.worker.Called? ==> t.worker.id in t.sessions && t.sessions[t.worker.id].phase == Queued)
  {
    RunKeepsInv(s, steps);
  }

  // What a user may rely on about the calls of its data callback.
  predicate CallsExact(x: Session) {
    && |x.calls| <= 1
    && (x.calls != [] ==>
          && CalledOnce(x)
          && (x.origin.Some? && x.origin.value.limit.AtMost? ==>
                |x.calls[0].request| <= x.origin.value.limit.size))
  }

  // The user's callback runs at most once for a request, on the concatenation of
  // all its packets in order, never longer than the limit its target had when the
  // session was opened; and that is so for requests in progress as for those that
  // are over.
  lemma UserCalledAtMostOnce(s: State, steps: seq<Step>)
    requires Initial(s) && Follows(s, steps)
    ensures forall id :: id in Run(s, steps).sessions ==> CallsExact(Run(s, steps).sessions[id])
    ensures forall k :: 0 <= k < |Run(s, steps).closed| ==> CallsExact(Run(s, steps).closed[k].session)
  {
    RunKeepsInv(s, steps);
    var t := Run(s, steps);
    forall id | id in t.sessions
      ensures CallsExact(t.sessions[id])
    {
      CallsAreExact(t.sessions[id], t.worker == Called(id));
    }
    forall k | 0 <= k < |t.closed|
      ensures CallsExact(t.closed[k].session)
    {
      assert Over(t.closed[k], t.supported);
    }
  }

  lemma CallsAreExact(x: Session, called: bool)
    requires SessionOk(x, called)
    ensures CallsExact(x)
  {
  }

  // Over every run: the user's status callback is called for every session that is
  // closed, if there is one; it is told the error the session had, or else what the
  // cloud's verdict says; and it is given back exactly the buffer its data callback
  // set, to free it: never the text of an internal error, and nothing where there
  // was none.
  lemma ReportsAreExact(s: State, steps: seq<Step>, k: nat)
    requires Initial(s) && Follows(s, steps) && k < |Run(s, steps).closed|
    ensures Over(Run(s, steps).closed[k], s.supported)
  {
    RunKeepsInv(s, steps);
    RunKeepsSupport(s, steps);
  }

  lemma {:induction false} RunKeepsSupport(s: State, steps: seq<Step>)
    requires Follows(s, steps)
    ensures Run(s, steps).supported == s.supported && Run(s, steps).default == s.default
    decreases |steps|
  {
    if steps == [] {
    } else {
      RunKeepsSupport(Apply(s, steps[0]), steps[1..]);
    }
  }

  // What CCFSM has been given of a reply and what is still to come make up the
  // reply's source, once the first piece has been asked for.
  lemma RepliesFollowTheirSource(s: State, steps: seq<Step>, id: Id)
    requires Initial(s) && Follows(s, steps) && id in Run(s, steps).sessions
    ensures var r := Run(s, steps).sessions[id].reply;
            r.sent != [] ==> r.sent + r.processing == Source(r)
  {
    RunKeepsInv(s, steps);
    assert SessionOk(Run(s, steps).sessions[id], Run(s, steps).worker == Called(id));
    hide InternalError;
  }

  // The target list stays a finite map, all of whose entries have a callback.
  lemma TargetsAreDistinct(s: State, steps: seq<Step>)
    requires Initial(s) && Follows(s, steps)
    ensures TargetsOk(Run(s, steps).targets)
  {
    RunKeepsInv(s, steps);
  }

  // ------------------------------------------------------------ answers

  // A session is opened for the entry of the target list that has its name, with that
  // entry's callbacks and limit; without one, for the default callbacks and without a
  // limit, if there is a default data callback and the user accepts the target. CCFSM
  // is told to continue exactly if it is accepted.
  predicate OpensExactly(s: State, id: Id, name: string, required: bool, accepts: bool, t: State) {
    && id in t.sessions && var x := t.sessions[id];
                        && x.phase == Idle && x.buffer == [] && x.packets == [] && x.calls == []
                        && x.reply.required == required && x.reply.target == name
                        && x.origin == (if s.supported then Lookup(s.targets, name) else None)
                        && (x.origin.Some? ==>
                              && x.accepted && x.reply.error == NoError
                              && x.callbacks == x.origin.value.callbacks && x.limit == x.origin.value.limit)
                        && (x.origin.None? ==>
                              && x.callbacks == s.default && x.limit == NoLimit
                              && (x.accepted <==> s.supported && s.default.data && accepts)
                              && (x.reply.error == NoError <==> x.accepted)
                              && (x.reply.error == NoReceiveSupport <==> !s.supported)
                              && (x.reply.error == InvalidDataCallback <==> s.supported && !s.default.data)
                              && (x.reply.error == UserRefusedTarget <==> s.supported && s.default.data && !accepts))
                        && (t.answer == Continue <==> x.accepted) && (t.answer == Failed <==> !x.accepted)
                        && t == s.(sessions := s.sessions[id := x], answer := t.answer)
  }

  lemma OpeningIsExact(s: State, id: Id, name: string, required: bool, accepts: bool)
    requires Enabled(s, Open(id, name, required, accepts))
    ensures OpensExactly(s, id, name, required, accepts, OpenStep(s, id, name, required, accepts))
  {
  }

  // The answer to a packet: busy exactly if the request is complete and has yet to be
  // handled; an error exactly if it is, or was, too big, the user has reported one, or
  // it had been answered before.
  predicate AnswersExactly(s: State, id: Id, packet: Packet, answer: Answer)
    requires id in s.sessions
  {
    var x := s.sessions[id];
    var tooBig := x.phase == Idle && x.origin.Some? && x.origin.value.limit.AtMost?
                  && x.origin.value.limit.size < |Flatten(x.packets + [packet])|;
    && (answer == Busy <==> x.phase == Ready || x.phase == Queued || (x.phase == Idle && !packet.more && !tooBig))
    && (answer == Failed <==>
        tooBig || x.phase == Free || (x.phase == Processed && (x.calls == [] || x.calls[0].error != NoError)))
  }

  lemma DataIsAnswered(s: State, id: Id, packet: Packet)
    requires Inv(s) && Enabled(s, Data(id, packet))
    ensures AnswersExactly(s, id, packet, DataStep(s, id, packet).answer)
  {
    assert SessionOk(s.sessions[id], s.worker == Called(id));
    FlattenMore(s.sessions[id].packets, packet);
  }

  // A request for a reply is refused exactly if none is required.
  lemma ReplyIsAnswered(s: State, id: Id, size: nat)
    requires id in s.sessions
    ensures var t := ReplyStep(s, id, size);
            && (t.answer == Continue <==> s.sessions[id].reply.required)
            && (t.answer == Failed <==> !s.sessions[id].reply.required)
            && (t.answer == Failed ==> t == s.(answer := Failed))
  {
    assert s.sessions[id := s.sessions[id]] == s.sessions;
  }

  // A packet is refused exactly when the request with it is longer than the
  // target allows.
  lemma TooBigIsExact(s: State, id: Id, packet: Packet)
    requires Inv(s) && Enabled(s, Data(id, packet)) && s.sessions[id].phase == Idle
    ensures var x := s.sessions[id];
            DataStep(s, id, packet).answer == Failed <==>
            x.limit.AtMost? && x.limit.size < |Flatten(x.packets + [packet])|
  {
    DataIsAnswered(s, id, packet);
    assert SessionOk(s.sessions[id], s.worker == Called(id));
  }

  // The last packet is answered continue exactly when the user's callback has
  // run on the whole request and reported no error; its response is then what
  // the reply will be taken from.
  lemma ContinueMeansHandled(s: State, id: Id, packet: Packet)
    requires Inv(s) && Enabled(s, Data(id, packet)) && !packet.more
    ensures var x, t := s.sessions[id], DataStep(s, id, packet);
            && (t.answer == Continue <==> x.phase == Processed && x.calls != [] && x.calls[0].error == NoError)
            && (t.answer == Continue ==>
                  && CalledOnce(x)
                  && (x.reply.required ==>
                        && Unsent(t.sessions[id].reply)
                        && t.sessions[id].reply.given == if Lent(x).Some? then Lent(x).value else []))
  {
    assert SessionOk(s.sessions[id], s.worker == Called(id));
  }

  // ------------------------------------------------------------ targets

  lemma FindIs(targets: seq<Target>, name: string, i: nat)
    requires TargetsOk(targets) && i < |targets| && targets[i].name == name
    ensures Find(targets, name) == i
  {
  }

  // Each error of an addition, and exactly when it is reported.
  predicate AddsExactly(targets: seq<Target>, supported: bool, target: Option<string>, callbacks: Callbacks,
                        running: bool, after: seq<Target>, result: Error)
  {
    var named, able := target.Some?, target.Some? && callbacks.data;
    && (result == InvalidTarget <==> !named)
    && (result == InvalidDataCallback <==> named && !callbacks.data)
    && (result == NotRunning <==> able && !running)
    && (result == NoReceiveSupport <==> able && running && !supported)
    && (result == TargetAlreadyAdded <==> able && running && supported && Lookup(targets, target.value).Some?)
    && (result == NoError <==> able && running && supported && Lookup(targets, target.value).None?)
    && (result != NoError ==> after == targets)
  }

  // And of a removal, which looks at its argument last.
  predicate RemovesExactly(targets: seq<Target>, supported: bool, target: Option<string>, running: bool,
                           after: seq<Target>, result: Error)
  {
    var able := running && supported && target.Some?;
    && (result == NotRunning <==> !running)
    && (result == NoReceiveSupport <==> running && !supported)
    && (result == InvalidTarget <==> running && supported && target.None?)
    && (result == TargetNotAdded <==> able && Lookup(targets, target.value).None?)
    && (result == NoError <==> able && Lookup(targets, target.value).Some?)
    && (result != NoError ==> after == targets)
  }

  lemma ChangesAreAnswered(targets: seq<Target>, supported: bool, target: Option<string>, callbacks: Callbacks,
                           limit: Limit, running: bool)
    ensures var (after, result) := Added(targets, supported, target, callbacks, limit, running);
            AddsExactly(targets, supported, target, callbacks, running, after, result)
    ensures var (after, result) := Removed(targets, supported, target, running);
            RemovesExactly(targets, supported, target, running, after, result)
  {
  }

  lemma AddExtendsTheMap(targets: seq<Target>, target: string, status: bool, limit: Limit, name: string)
    requires TargetsOk(targets)
    ensures var (after, result) := Added(targets, true, Some(target), Callbacks(true, status), limit, true);
            if Lookup(targets, target).Some? then result == TargetAlreadyAdded && after == targets
            else && result == NoError
                 && Lookup(after, name) == if name == target then Some(Target(target, Callbacks(true, status), limit))
                                           else Lookup(targets, name)
  {
    var (after, result) := Added(targets, true, Some(target), Callbacks(true, status), limit, true);
    TargetsKeepOk(targets, true, Some(target), Callbacks(true, status), limit, true);
    var f := Find(targets, name);
    if result == NoError {
      if name == target {
        FindIs(after, name, 0);
      } else if f < |targets| {
        FindIs(after, name, f + 1);
      }
    }
  }

  lemma RemoveShrinksTheMap(targets: seq<Target>, target: string, name: string)
    requires TargetsOk(targets)
    ensures var (after, result) := Removed(targets, true, Some(target), true);
            if Lookup(targets, target).None? then result == TargetNotAdded && after == targets
            else result == NoError && Lookup(after, name) == if name == target then None else Lookup(targets, name)
  {
    var (after, result) := Removed(targets, true, Some(target), true);
    TargetsKeepOk(targets, true, Some(target), Callbacks(true, true), NoLimit, true);
    var i, f := Find(targets, target), Find(targets, name);
    if result == NoError {
      forall k | 0 <= k < |after|
        ensures after[k] == targets[if k < i then k else k + 1]
      {
      }
      if name != target && f < |targets| {
        FindIs(after, name, if f < i then f else f - 1);
      }
    }
  }

  // ------------------------------------------------------------ progress

  // Steps until the slot is free again.
  function Remaining(s: State): nat {
    if s.poller == Posting then 5
    else match s.worker
         case Waiting => if 0 < s.semaphore then 4 else 0
         case Acquired => 3
         case Called(_) => 2
         case Marked => 1
         case Dead => 0
  }

  // A request that is complete waits only for the slot: if it is taken, the
  // poller or the worker has a step to take that brings its release nearer.
  lemma SlotIsReleased(s: State) returns (step: Step)
    requires Inv(s) && s.slot.Some?
    ensures Enabled(s, step) && Defined(s, step)
    ensures OfHandoff(step)
    ensures 0 < Remaining(s) && Remaining(Apply(s, step)) < Remaining(s)
    ensures Remaining(Apply(s, step)) == 0 ==> Apply(s, step).slot == None
  {
    if s.poller == Posting {
      step := Release;
    } else {
      step := match s.worker
        case Waiting => Acquire
        case Acquired => Call(NoError, None)
        case Called(_) => Mark
        case _ => ClearSlot;
    }
    InvDefines(s, step);
    if step.Call? {
      CallKeepsInv(s, NoError, None);
    }
  }

  // No other step takes it further away.
  lemma OthersDoNotDelay(s: State, step: Step)
    requires Inv(s) && s.slot.Some? && Enabled(s, step)
    ensures Defined(s, step) && Remaining(Apply(s, step)) <= Remaining(s)
  {
    InvDefines(s, step);
  }

  // What a busy answer to data means: the request has just become complete, it
  // waits for the slot, it has the slot, or it is with the user.
  lemma BusyMeansWaiting(s: State, id: Id, packet: Packet)
    requires Inv(s) && Enabled(s, Data(id, packet)) && DataStep(s, id, packet).answer == Busy
    ensures var t := DataStep(s, id, packet);
            && t.sessions[id].phase in {Ready, Queued}
            && (t.sessions[id].phase == Ready ==> s.sessions[id].phase == Idle || s.slot.Some?)
            && (t.sessions[id].phase == Queued ==> t.slot == Some(id))
            && t.sessions[id].pending == Some(packet)
  {
    assert SessionOk(s.sessions[id], s.worker == Called(id));
  }

  // ------------------------------------------------------------ answering

  lemma {:induction false} Extend(s: State, steps: seq<Step>, step: Step) returns (more: seq<Step>)
    requires Follows(s, steps) && Defined(Run(s, steps), step)
    ensures more == steps + [step] && Follows(s, more) && Run(s, more) == Apply(Run(s, steps), step)
    decreases |steps|
  {
    if steps == [] {
      more := [step];
    } else {
      var rest := Extend(Apply(s, steps[0]), steps[1..], step);
      more := [steps[0]] + rest;
    }
  }

  lemma {:induction false} RunsJoin(s: State, xs: seq<Step>, ys: seq<Step>)
    requires Follows(s, xs) && Follows(Run(s, xs), ys)
    ensures Follows(s, xs + ys) && Run(s, xs + ys) == Run(Run(s, xs), ys)
    decreases |xs|
  {
    if xs == [] {
      assert xs + ys == ys;
    } else {
      assert (xs + ys)[1..] == xs[1..] + ys;
      RunsJoin(Apply(s, xs[0]), xs[1..], ys);
    }
  }

  predicate Complete(x: Session) {
    x.phase == Ready || x.phase == Queued || x.phase == Processed
  }

  // What happens to a complete request while the slot is being released.
  predicate Forwarded(x: Session, y: Session) {
    && y.accepted == x.accepted && y.pending == x.pending
    && y.phase == if x.phase == Queued then Processed else x.phase
  }

  // A step that brings the slot nearer to its release.
  predicate OfHandoff(step: Step) {
    step.Release? || step.Acquire? || step.Call? || step.Mark? || step.ClearSlot?
  }

  // Beside the handoff, CCFSM only offers this packet again.
  predicate OnlyOffers(steps: seq<Step>, id: Id, packet: Packet) {
    forall k :: 0 <= k < |steps| ==> OfHandoff(steps[k]) || steps[k] == Data(id, packet)
  }

  // The poller and the worker can release the slot in at most five steps; the
  // request they held has then been processed and no other has changed.
  lemma {:induction false} SlotCanBeReleased(s: State, id: Id) returns (steps: seq<Step>)
    requires Inv(s) && id in s.sessions && Complete(s.sessions[id])
    ensures Follows(s, steps) && |steps| <= Remaining(s) <= 5
    ensures forall k :: 0 <= k < |steps| ==> OfHandoff(steps[k])
    ensures var t := Run(s, steps);
            t.slot == None && id in t.sessions && Forwarded(s.sessions[id], t.sessions[id])
    decreases Remaining(s)
  {
    if s.slot == None {
      steps := [];
    } else {
      var step := SlotIsReleased(s);
      var t := Apply(s, step);
      StepKeepsInv(s, step);
      StepForwards(s, step, id);
      var rest := SlotCanBeReleased(t, id);
      steps := [step] + rest;
    }
  }

  lemma StepForwards(s: State, step: Step, id: Id)
    requires Inv(s) && Defined(s, step) && id in s.sessions && Complete(s.sessions[id])
    requires OfHandoff(step)
    ensures var t := Apply(s, step);
            && id in t.sessions && Complete(t.sessions[id])
            && t.sessions[id].accepted == s.sessions[id].accepted && t.sessions[id].pending == s.sessions[id].pending
            && t.sessions[id].phase == if step.Mark? && s.worker == Called(id) then Processed else s.sessions[id].phase
  {
    InvDefines(s, step);
  }

  // A complete request can be answered: some run of at most twelve steps, in
  // which CCFSM offers its last packet again at most twice, ends with an answer
  // other than busy.
  lemma RequestCanBeAnswered(s: State, id: Id) returns (steps: seq<Step>)
    requires Inv(s) && id in s.sessions && Complete(s.sessions[id])
    ensures Follows(s, steps) && |steps| <= 12
    ensures s.sessions[id].pending.Some? && OnlyOffers(steps, id, s.sessions[id].pending.value)
    ensures var t := Run(s, steps);
            t.answer != Busy && id in t.sessions && t.sessions[id].phase == Free
  {
    assert SessionOk(s.sessions[id], s.worker == Called(id));
    hide Inv, SessionOk, OnlyOffers;
    var packet := s.sessions[id].pending.value;
    NothingOffered(id, packet);
    steps := ReleaseAfter(s, [], id, packet);
    if Run(s, steps).sessions[id].phase == Ready {
      steps := OfferAgain(s, steps, id, packet);
      steps := ReleaseAfter(s, steps, id, packet);
    }
    steps := OfferAgain(s, steps, id, packet);
  }

  lemma NothingOffered(id: Id, packet: Packet)
    ensures OnlyOffers([], id, packet)
  {
  }

  lemma ReleaseAfter(s: State, steps: seq<Step>, id: Id, packet: Packet) returns (more: seq<Step>)
    requires Follows(s, steps) && Inv(Run(s, steps)) && OnlyOffers(steps, id, packet)
    requires id in Run(s, steps).sessions && Complete(Run(s, steps).sessions[id])
    ensures Follows(s, more) && Inv(Run(s, more)) && OnlyOffers(more, id, packet) && |more| <= |steps| + 5
    ensures var t, u := Run(s, steps), Run(s, more);
            u.slot == None && id in u.sessions && Forwarded(t.sessions[id], u.sessions[id])
  {
    hide Inv, OfHandoff;
    var rest := SlotCanBeReleased(Run(s, steps), id);
    RunsJoin(s, steps, rest);
    RunKeepsInv(Run(s, steps), rest);
    more := steps + rest;
  }

  // With the slot free, the last packet offered again takes the request on.
  lemma OfferAgain(s: State, steps: seq<Step>, id: Id, packet: Packet) returns (more: seq<Step>)
    requires Follows(s, steps) && Inv(Run(s, steps)) && Run(s, steps).slot == None && OnlyOffers(steps, id, packet)
    requires id in Run(s, steps).sessions && Run(s, steps).sessions[id].phase in {Ready, Processed}
    requires Run(s, steps).sessions[id].pending == Some(packet)
    ensures Follows(s, more) && Inv(Run(s, more)) && OnlyOffers(more, id, packet) && |more| == |steps| + 1
    ensures var t, u := Run(s, steps), Run(s, more);
            && id in u.sessions
            && if t.sessions[id].phase == Ready then
                 u.sessions[id].phase == Queued && u.sessions[id].pending == Some(packet)
               else u.sessions[id].phase == Free && u.answer != Busy
  {
    var t := Run(s, steps);
    assert SessionOk(t.sessions[id], t.worker == Called(id)) && (t.sessions[id].accepted ==> t.supported);
    more := Extend(s, steps, Data(id, packet));
    StepKeepsInv(t, Data(id, packet));
  }

  // ------------------------------------------------------------ closing too early

  // The worker is about to use a record that has been freed.
  predicate Stale(s: State) {
    || (s.worker == Acquired && s.slot.Some? && s.slot.value !in s.sessions)
    || (s.worker.Called? && s.worker.id !in s.sessions)
  }

  ghost predicate CanUseFreed(s: State) {
    exists steps :: Follows(s, steps) && Stale(Run(s, steps))
  }

  // A session may be closed at any time: the worker can come to use its record
  // exactly if its request was queued.
  lemma ClosingHarmsExactly(s: State, id: Id, status: CloudStatus)
    requires Inv(s) && s.poller == Resting && id in s.sessions
    ensures CanUseFreed(StatusStep(s, id, status)) <==> s.sessions[id].phase == Queued
    ensures Inv(StatusStep(s, id, status)) <==> s.sessions[id].phase != Queued
  {
    var t := StatusStep(s, id, status);
    if s.sessions[id].phase == Queued {
      var steps := if s.worker == Waiting then [Acquire] else [];
      assert s.worker == Waiting ==> Defined(t, Acquire) && Follows(Apply(t, Acquire), []);
      assert Follows(t, steps) && Stale(Run(t, steps));
    } else {
      StatusKeepsInv(s, id, status);
      forall steps | Follows(t, steps)
        ensures !Stale(Run(t, steps))
      {
        RunKeepsInv(t, steps);
      }
    }
  }

  // Whenever a session is closed, the status callback is told what it should be.
  lemma ClosedIsOver(s: State, id: Id, status: CloudStatus)
    requires Inv(s) && id in s.sessions
    ensures var t := StatusStep(s, id, status);
            && t.answer == Continue && id !in t.sessions
            && |t.closed| == |s.closed| + 1 && Over(t.closed[|s.closed|], s.supported)
            && t.closed[|s.closed|].earlier == s.sessions[id].reply.error && t.closed[|s.closed|].status == status
            && t.closed[|s.closed|].report == ReportOf(s.supported, Closing(s.sessions[id], status))
  {
    ClosingOk(s.sessions[id], s.worker == Called(id), status, s.supported);
    hide InternalError, Flatten;
  }

  // The announced reply length is wrong in states that do arise: for one, when a
  // request for a reply is refused because the service has no receive support.
  lemma WrongLengthIsReached(s: State, id: Id, name: string)
    requires Initial(s) && !s.supported
    ensures Follows(s, [Open(id, name, true, true)])
    ensures var t := Run(s, [Open(id, name, true, true)]);
            && id in t.sessions && Enabled(t, ReplyData(id, 1))
            && var r := t.sessions[id].reply;
            Unsent(r) && NeedsText(r) && AnnouncedLength(r) != |Source(r)|
  {
    var open := Open(id, name, true, true);
    var t := Apply(s, open);
    assert [open][1..] == [] && Follows(t, []);
    AnnouncedLengthIsExact(t.sessions[id].reply);
  }

  // Once a reply has been asked for, the status callback is given the user's buffer
  // back exactly if the user reported no error or its response is not empty.
  lemma BufferComesBackExactly(s: State, id: Id, size: nat, status: CloudStatus)
    requires Inv(s) && s.supported && Enabled(s, ReplyData(id, size))
    requires var x := s.sessions[id]; x.lent && !x.reply.handled && x.callbacks.status
    ensures var r, t := s.sessions[id].reply, ReplyStep(s, id, size);
            && Enabled(t, Status(id, status))
            && var c := StatusStep(t, id, status).closed[|s.closed|];
            && c.report.Some?
            && (c.report.value.buffer == Some(r.given) <==> r.error == NoError || r.given != [])
  {
    assert SessionOk(s.sessions[id], s.worker == Called(id));
    hide InternalError;
  }

  // The user's callback has set an empty response and reported an error.
  predicate EmptyResponse(t: State, id: Id, error: Error) {
    && t.supported && t.poller == Resting && t.worker == Called(id)
    && id in t.sessions && var x := t.sessions[id];
                        && x.phase == Queued && x.callbacks.status && x.accepted && x.lent && x.pending.Some?
                        && x.reply.required && !x.reply.handled && x.reply.response == [] && x.reply.error == error
  }

  lemma EmptyResponseIsSet(s: State, id: Id, error: Error) returns (steps: seq<Step>)
    requires Initial(s) && s.supported && s.default == Callbacks(true, true)
    ensures Follows(s, steps) && EmptyResponse(Run(s, steps), id, error)
  {
    var packet := Packet([], false);
    steps := [];
    steps := Extend(s, steps, Open(id, [], true, true));
    steps := Extend(s, steps, Data(id, packet));
    steps := Extend(s, steps, Data(id, packet));
    steps := Extend(s, steps, Release);
    steps := Extend(s, steps, Acquire);
    steps := Extend(s, steps, Call(error, Some([])));
  }

  // An empty response is lost where the user reports an error as well: the text of
  // the internal error takes its place, and the status callback is not given the
  // user's buffer back.
  lemma EmptyResponseIsLost(s: State, id: Id, error: Error) returns (steps: seq<Step>)
    requires Initial(s) && s.supported && s.default == Callbacks(true, true) && error != NoError
    ensures Follows(s, steps)
    ensures var t := Run(s, steps);
            && t.closed != []
            && var c := t.closed[|t.closed| - 1];
            c.session.lent && c.report == Some(Report(error, None))
  {
    hide InternalError;
    steps := EmptyResponseIsSet(s, id, error);
    var packet := Run(s, steps).sessions[id].pending.value;
    steps := Extend(s, steps, Mark);
    steps := Extend(s, steps, Data(id, packet));
    steps := Extend(s, steps, ReplyData(id, 1));
    steps := Extend(s, steps, Status(id, CloudStatus.Complete));
  }
}
