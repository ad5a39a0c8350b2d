// The receive service as the program keeps it: a record per request, whose
// buffer grows by reallocation, one shared pointer to the record the worker is
// to handle, and a target list. Each method is one atomic piece of the program.
// `model` is the state of the machine, history included: the record holds it,
// every method moves it by the step of the same name, and the contracts say what
// the machine's invariant buys at that point.
module ReceiveService {
  import opened Bytes
  import opened Options
  import opened CStrings
  import opened Streaming
  import opened ReceiveMachine
  import opened ReceiveRuns
  import TargetList

  // ccapi_svc_receive_t; `id` stands for its address.
  class SvcReceive {
    const id: Id
    const target: string
    const required: bool
    var phase: Phase
    var callbacks: Callbacks
    var limit: Limit
    var buffer: array<Byte>
    var error: Error
    var handled: bool
    var response: string
    var lent: bool
    var processing: string
    ghost var given: string
    ghost var sent: string
    ghost var accepted: bool
    ghost var packets: seq<Packet>
    ghost var pending: Option<Packet>
    ghost var origin: Option<Target>
    ghost var calls: seq<UserCall>

    ghost function ReplyView(): Reply
      reads this
    {
      Reply(required, target, error, handled, response, processing, given, sent)
    }

    ghost function View(): Session
      reads this, buffer
    {
      Session(phase, callbacks, limit, buffer[..], ReplyView(), lent, accepted, origin, packets, pending, calls)
    }

    constructor (address: Id, name: string, needed: bool, present: Callbacks)
      ensures id == address && required == needed
      ensures fresh(buffer)
      ensures View() == Fresh(present, NoLimit, NoError, name, needed, false, None)
    {
      id, target, required := address, name, needed;
      phase, callbacks, limit := Idle, present, NoLimit;
      buffer := new Byte[0];
      error, handled, response, lent, processing := NoError, false, [], false, [];
      given, sent, accepted, origin, packets, pending, calls := [], [], false, None, [], None, [];
    }

    // A packet while the request is being assembled.
    method Append(packet: Packet) returns (answer: Answer)
      modifies this`packets, this`error, this`phase, this`buffer, this`pending
      ensures (View(), answer) == Assemble(old(View()), packet)
      ensures buffer == old(buffer) || fresh(buffer)
    {
      packets := packets + [packet];
      var size := buffer.Length + |packet.bytes|;
      if limit != NoLimit && size > limit.size {
        error := RequestTooBig;
        phase := Free;
        return Failed;
      }
      buffer := Grown(buffer, packet.bytes);
      if !packet.more {
        phase := Ready;
        pending := Some(packet);
        answer := Busy;
      } else {
        answer := Continue;
      }
    }

    // A packet offered again once the user has been called.
    method Settle() returns (answer: Answer)
      modifies this`processing, this`phase, this`pending
      ensures (View(), answer) == Conclude(old(View()))
    {
      if required {
        processing := response;
      }
      phase, pending := Free, None;
      answer := if error == NoError then Continue else Failed;
    }

    method SetPhase(next: Phase)
      modifies this`phase
      ensures View() == old(View()).(phase := next)
    {
      phase := next;
    }

    method SetError(reason: Error)
      modifies this`error
      ensures View() == ReceiveMachine.SetError(old(View()), reason)
    {
      error := reason;
    }

    method Accept(present: Callbacks, size: Limit, ghost entry: Option<Target>)
      modifies this`callbacks, this`limit, this`accepted, this`origin
      ensures View() == old(View()).(callbacks := present, limit := size, accepted := true, origin := entry)
    {
      callbacks, limit, accepted, origin := present, size, true, entry;
    }

    // What the user's callback leaves.
    method TakeResult(reason: Error, answer: Option<string>)
      modifies this`calls, this`error, this`response, this`lent, this`given
      ensures View() == AfterCall(old(View()), reason, answer)
    {
      calls := calls + [UserCall(buffer[..], reason, answer)];
      error := reason;
      lent := required && answer.Some?;
      response := if lent then answer.value else [];
      given := response;
    }

    // The cloud's verdict, unless an error was found earlier.
    method TakeStatus(status: CloudStatus)
      modifies this`error
      ensures View() == Closing(old(View()), status)
    {
      if error == NoError {
        match status {
          case Complete =>
          case Cancel => error := StatusCancel;
          case Timeout => error := StatusTimeout;
          case SessionFailure => error := StatusSessionError;
        }
      }
    }

    // What the user's status callback is given.
    method MakeReport(supported: bool) returns (report: Option<Report>)
      ensures report == ReportOf(supported, View())
    {
      if !supported || !callbacks.status {
        return None;
      }
      if !handled && required && lent {
        report := Some(Report(error, Some(response)));
      } else {
        report := Some(Report(error, None));
      }
    }

    // ccapi_process_device_request_response, for data from this record
    method SendReply(size: nat) returns (bytes: string, more: bool)
      modifies this`error, this`handled, this`response, this`processing, this`sent
      ensures View() == old(View()).(reply := ReplyCall(old(ReplyView()), size))
      ensures required ==> Piece(bytes, more) == ReplyPiece(old(ReplyView()), size)
    {
      bytes, more := [], false;
      if !required {
        return;
      }
      FillInternalError();
      var n := if |processing| > size then size else |processing|;
      bytes := processing[..n];
      processing := processing[n..];
      sent := sent + bytes;
      more := |processing| > 0;
    }

    method FillInternalError()
      modifies this`handled, this`response, this`processing
      ensures View() == old(View()).(reply := Prepared(old(ReplyView())))
    {
      hide InternalError;
      if error != NoError && !handled && |response| == 0 {
        handled := true;
        response := InternalError(error, target);
        processing := response;
      }
    }
  }

  // realloc to the new length, then memcpy behind the old contents
  method Grown(buffer: array<Byte>, bytes: seq<Byte>) returns (bigger: array<Byte>)
    ensures fresh(bigger) && bigger[..] == buffer[..] + bytes
  {
    bigger := new Byte[buffer.Length + |bytes|];
    var i := 0;
    while i < buffer.Length
      invariant i <= buffer.Length
      invariant forall k :: 0 <= k < i ==> bigger[k] == buffer[k]
    {
      bigger[i] := buffer[i];
      i := i + 1;
    }
    i := 0;
    while i < |bytes|
      invariant i <= |bytes|
      invariant forall k :: 0 <= k < buffer.Length ==> bigger[k] == buffer[k]
      invariant forall k :: 0 <= k < i ==> bigger[buffer.Length + k] == bytes[k]
    {
      bigger[buffer.Length + i] := bytes[i];
      i := i + 1;
    }
  }

  // The records CCFSM holds pointers to, and the sessions they hold.
  class Table {
    var contexts: map<Id, SvcReceive>
    ghost var sessions: map<Id, Session>
    ghost var records: set<SvcReceive>
    ghost var buffers: set<array<Byte>>

    ghost predicate Holds(svc: SvcReceive)
      reads this
    {
      svc.id in contexts && contexts[svc.id] == svc
    }

    // A record holds its session.
    ghost predicate Mirrors(id: Id)
      requires id in contexts && id in sessions
      reads this, records, buffers
    {
      var svc := contexts[id];
      svc in records && svc.buffer in buffers && svc.id == id && svc.View() == sessions[id]
    }

    // All records but one hold their sessions.
    ghost predicate Others(id: Id)
      reads this, records, buffers
    {
      contexts.Keys == sessions.Keys && forall k :: k in contexts && k != id ==> Mirrors(k)
    }

    ghost predicate Valid()
      reads this, records, buffers
    {
      contexts.Keys == sessions.Keys && forall k :: k in contexts ==> Mirrors(k)
    }

    constructor ()
      ensures Valid() && sessions == map[] && contexts == map[] && records == {}
    {
      contexts, sessions, records, buffers := map[], map[], {}, {};
    }

    lemma SessionOf(svc: SvcReceive)
      requires Valid() && Holds(svc)
      ensures svc.id in sessions && svc.View() == sessions[svc.id]
      ensures svc.phase == sessions[svc.id].phase && svc.required == sessions[svc.id].reply.required
      ensures svc.callbacks == sessions[svc.id].callbacks && svc.ReplyView() == sessions[svc.id].reply
      ensures svc in records
    {
      assert Mirrors(svc.id);
    }

    // One record has changed.
    ghost method Update(svc: SvcReceive)
      requires Holds(svc) && svc in records && Others(svc.id)
      modifies this`sessions, this`buffers
      ensures Valid() && sessions == old(sessions)[svc.id := svc.View()]
      ensures fresh(buffers - old(buffers) - {svc.buffer})
    {
      hide SvcReceive.View;
      sessions := sessions[svc.id := svc.View()];
      buffers := buffers + {svc.buffer};
      forall k | k in contexts
        ensures Mirrors(k)
      {
        assert k != svc.id ==> old(Mirrors(k));
      }
    }

    method Insert(svc: SvcReceive)
      requires Valid() && svc.id !in contexts
      modifies this
      ensures Valid() && Holds(svc) && contexts == old(contexts)[svc.id := svc]
      ensures sessions == old(sessions)[svc.id := svc.View()]
      ensures records == old(records) + {svc}
    {
      hide SvcReceive.View;
      contexts := contexts[svc.id := svc];
      sessions := sessions[svc.id := svc.View()];
      records, buffers := records + {svc}, buffers + {svc.buffer};
      forall k | k in contexts
        ensures Mirrors(k)
      {
        assert k != svc.id ==> old(Mirrors(k));
      }
    }

    method Delete(svc: SvcReceive)
      requires Holds(svc) && Others(svc.id)
      modifies this`contexts, this`sessions
      ensures Valid() && contexts == old(contexts) - {svc.id} && sessions == old(sessions) - {svc.id}
    {
      hide SvcReceive.View;
      contexts := contexts - {svc.id};
      sessions := sessions - {svc.id};
      forall k | k in contexts
        ensures Mirrors(k)
      {
        assert old(Mirrors(k));
      }
    }

    method Append(svc: SvcReceive, packet: Packet) returns (answer: Answer)
      requires Valid() && Holds(svc)
      modifies this`sessions, this`buffers, svc
      ensures Valid()
      ensures var (x, reply) := Assemble(old(sessions)[svc.id], packet);
              sessions == old(sessions)[svc.id := x] && answer == reply
    {
      SessionOf(svc);
      hide SvcReceive.View, Assemble;
      answer := svc.Append(packet);
      Update(svc);
    }

    method Settle(svc: SvcReceive) returns (answer: Answer)
      requires Valid() && Holds(svc)
      modifies this`sessions, this`buffers, svc
      ensures Valid()
      ensures var (x, reply) := Conclude(old(sessions)[svc.id]);
              sessions == old(sessions)[svc.id := x] && answer == reply
    {
      SessionOf(svc);
      hide SvcReceive.View, Conclude;
      answer := svc.Settle();
      Update(svc);
    }

    method SetPhase(svc: SvcReceive, next: Phase)
      requires Valid() && Holds(svc)
      modifies this`sessions, this`buffers, svc`phase
      ensures Valid() && svc.phase == next
      ensures sessions == old(sessions)[svc.id := old(sessions)[svc.id].(phase := next)]
    {
      SessionOf(svc);
      svc.SetPhase(next);
      hide SvcReceive.View;
      Update(svc);
    }

    method SetError(svc: SvcReceive, reason: Error)
      requires Valid() && Holds(svc)
      modifies this`sessions, this`buffers, svc`error
      ensures Valid() && sessions == old(sessions)[svc.id := ReceiveMachine.SetError(old(sessions)[svc.id], reason)]
    {
      SessionOf(svc);
      hide SvcReceive.View, ReceiveMachine.SetError;
      svc.SetError(reason);
      Update(svc);
    }

    method TakeResult(svc: SvcReceive, reason: Error, response: Option<string>)
      requires Valid() && Holds(svc)
      modifies this`sessions, this`buffers, svc
      ensures Valid() && sessions == old(sessions)[svc.id := AfterCall(old(sessions)[svc.id], reason, response)]
    {
      SessionOf(svc);
      hide SvcReceive.View, AfterCall;
      svc.TakeResult(reason, response);
      Update(svc);
    }

    method SendReply(svc: SvcReceive, size: nat) returns (bytes: string, more: bool)
      requires Valid() && Holds(svc)
      modifies this`sessions, this`buffers, svc
      ensures Valid()
      ensures var x := old(sessions)[svc.id];
              sessions == old(sessions)[svc.id := x.(reply := ReplyCall(x.reply, size))]
      ensures svc.required ==> Piece(bytes, more) == ReplyPiece(old(sessions)[svc.id].reply, size)
    {
      SessionOf(svc);
      hide SvcReceive.View, ReplyCall, ReplyPiece;
      bytes, more := svc.SendReply(size);
      Update(svc);
    }

    // The record is told the cloud's verdict, reports to the user and is freed.
    method Close(svc: SvcReceive, status: CloudStatus, supported: bool) returns (report: Option<Report>)
      requires Valid() && Holds(svc)
      modifies this`contexts, this`sessions, svc`error
      ensures Valid() && contexts == old(contexts) - {svc.id} && sessions == old(sessions) - {svc.id}
      ensures report == ReportOf(supported, Closing(old(sessions)[svc.id], status))
    {
      SessionOf(svc);
      hide SvcReceive.View, Closing, ReportOf;
      svc.TakeStatus(status);
      report := svc.MakeReport(supported);
      Delete(svc);
    }
  }

  class Service {
    const supported: bool
    const default: Callbacks
    const targets: TargetList.List
    const table: Table
    var slot: SvcReceive?
    var semaphore: nat
    var poller: Poller
    var worker: Worker
    var inHand: SvcReceive?     // the worker's own pointer to the record
    var answer: Answer
    var result: Error
    ghost var model: State

    ghost predicate Fields()
      reads this
    {
      && supported == model.supported && default == model.default
      && semaphore == model.semaphore && poller == model.poller && worker == model.worker
      && answer == model.answer && result == model.result
      && model.slot == (if slot == null then None else Some(slot.id))
    }

    // As long as the worker needs them, the two pointers lead to the records CCFSM
    // knows under those addresses.
    ghost predicate Pointers()
      reads this, table
    {
      && (slot != null && worker != Marked && slot.id in table.contexts ==> table.contexts[slot.id] == slot)
      && (worker.Called? ==>
            && inHand != null && inHand.id == worker.id
            && (worker.id in table.contexts ==> table.contexts[worker.id] == inHand))
    }

    // The record holds the model.
    ghost predicate Linked()
      reads this, targets, targets.spine, table, table.records, table.buffers
    {
      && Fields() && Pointers()
      && table.Valid() && table.sessions == model.sessions
      && targets.Valid() && targets.targets == model.targets
    }

    ghost predicate Valid()
      reads this, targets, targets.spine, table, table.records, table.buffers
    {
      Linked() && Inv(model)
    }

    // Everything the methods may change beside the service itself.
    ghost function Footprint(): set<object>
      reads this, targets, table
    {
      {targets, table} + (set n: TargetList.Node | n in targets.spine) + table.records
    }

    ghost predicate Holds(svc: SvcReceive)
      reads this, table
    {
      table.Holds(svc)
    }

    constructor (support: bool, present: Callbacks)
      ensures Valid() && Initial(model) && fresh(Footprint())
    {
      supported, default := support, present;
      targets := new TargetList.List();
      table := new Table();
      slot, semaphore, poller, worker, inHand := null, 0, Resting, Waiting, null;
      answer, result := Continue, NoError;
      model := State(support, present, [], map[], None, 0, Resting, Waiting, Continue, NoError, []);
    }

    // ------------------------------------------------------------ a new session

    // ccapi_process_device_request_target
    method ProcessTarget(id: Id, name: string, required: bool, accepts: bool) returns (svc: SvcReceive)
      requires Valid() && NoNul(name) && Enabled(model, Open(id, name, required, accepts))
      modifies this, table
      ensures Valid() && model == OpenStep(old(model), id, name, required, accepts)
      ensures OpensExactly(old(model), id, name, required, accepts, model)
      ensures Holds(svc) && fresh(svc) && Footprint() == old(Footprint()) + {svc}
    {
      OpenKeepsInv(model, id, name, required, accepts);
      OpeningIsExact(model, id, name, required, accepts);
      NotInHand(model, id);
      hide Inv, Opened, OpensExactly;
      var accepted;
      svc, accepted := Create(id, name, required, accepts);
      Register(svc, accepted);
    }

    method Create(id: Id, name: string, required: bool, accepts: bool) returns (svc: SvcReceive, accepted: bool)
      requires targets.Valid() && NoNul(name)
      ensures fresh(svc) && svc.id == id && fresh(svc.buffer)
      ensures svc.View() == Opened(supported, default, targets.targets, name, required, accepts)
      ensures accepted == svc.accepted
    {
      svc := new SvcReceive(id, name, required, default);
      accepted := false;
      if !supported {
        svc.SetError(NoReceiveSupport);
        return;
      }
      var _, entry := targets.FindPointer(name);
      if entry != null {
        assert entry.View() == targets.targets[Find(targets.targets, name)];
        svc.Accept(entry.callbacks, entry.limit, Some(entry.View()));
        accepted := true;
      } else if !svc.callbacks.data {
        svc.SetError(InvalidDataCallback);
      } else if accepts {
        svc.Accept(svc.callbacks, NoLimit, None);
        accepted := true;
      } else {
        svc.SetError(UserRefusedTarget);
      }
    }

    method Register(svc: SvcReceive, accepted: bool)
      requires Linked() && svc.id !in table.contexts && (slot != null ==> slot.id != svc.id || worker == Marked)
      requires worker.Called? ==> worker.id != svc.id
      modifies this`answer, this`model, table
      ensures Linked() && Holds(svc) && Footprint() == old(Footprint()) + {svc}
      ensures model == Put(old(model), svc.id, svc.View(), if accepted then Continue else Failed)
    {
      hide SvcReceive.View, Table.Mirrors;
      table.Insert(svc);
      Note(if accepted then Continue else Failed);
    }

    // ------------------------------------------------------------ a packet

    // ccapi_process_device_request_data, up to the release of the worker's lock
    method ProcessData(svc: SvcReceive, packet: Packet)
      requires Valid() && Holds(svc) && Enabled(model, Data(svc.id, packet))
      modifies this`answer, this`slot, this`poller, this`model, table`sessions, table`buffers, svc
      ensures Valid() && model == DataStep(old(model), svc.id, packet)
      ensures AnswersExactly(old(model), svc.id, packet, model.answer) && answer == model.answer
    {
      DataKeepsInv(model, svc.id, packet);
      DataIsAnswered(model, svc.id, packet);
      hide Inv, DataStep, AnswersExactly;
      Dispatch(svc, packet);
    }

    method Dispatch(svc: SvcReceive, packet: Packet)
      requires Linked() && Holds(svc) && (svc.phase == Ready ==> slot != null || !worker.Called?)
      modifies this`answer, this`slot, this`poller, this`model, table`sessions, table`buffers, svc
      ensures svc.id in old(model).sessions
      ensures Linked() && model == DataStep(old(model), svc.id, packet)
    {
      hide Table.Mirrors, Assemble, Conclude;
      table.SessionOf(svc);
      if !supported {
        table.SetError(svc, NoReceiveSupport);
        Note(Failed);
      } else if svc.phase == Idle {
        var reply := table.Append(svc, packet);
        Note(reply);
      } else if svc.phase == Ready && slot == null {
        Queue(svc);
      } else if svc.phase == Processed {
        var reply := table.Settle(svc);
        Note(reply);
      } else {
        Note(if svc.phase == Free then Failed else Busy);
      }
    }

    // The answer to a call that has changed what the table says.
    method Note(reply: Answer)
      requires Fields() && Pointers() && table.Valid() && targets.Valid() && targets.targets == model.targets
      modifies this`answer, this`model
      ensures Linked() && model == old(model).(sessions := table.sessions, answer := reply)
    {
      hide Table.Mirrors;
      answer := reply;
      model := model.(sessions := table.sessions, answer := reply);
    }

    method Queue(svc: SvcReceive)
      requires Linked() && Holds(svc) && slot == null && !worker.Called?
      modifies this`answer, this`slot, this`poller, this`model, table`sessions, table`buffers, svc`phase
      ensures Linked()
      ensures var x := old(model).sessions[svc.id];
              model == Put(old(model), svc.id, x.(phase := Queued), Busy).(slot := Some(svc.id), poller := Posting)
    {
      hide Table.Mirrors;
      table.SetPhase(svc, Queued);
      slot := svc;
      poller, answer := Posting, Busy;
      model := model.(sessions := table.sessions, answer := Busy, slot := Some(svc.id), poller := Posting);
    }

    // The worker is woken for exactly one record, which CCFSM still knows.
    method ReleaseWorker()
      requires Valid() && Enabled(model, Release)
      modifies this`semaphore, this`poller, this`model
      ensures Valid() && model == ReleaseStep(old(model))
      ensures semaphore == 1 && worker == Waiting && slot != null && Holds(slot) && slot.phase == Queued
    {
      StepKeepsInv(model, Release);
      SlotIsQueued(model);
      hide Inv;
      table.SessionOf(slot);
      hide Linked;
      GiveSemaphore();
    }

    method GiveSemaphore()
      requires Linked()
      modifies this`semaphore, this`poller, this`model
      ensures Linked() && model == ReleaseStep(old(model)) && semaphore == old(semaphore) + 1
    {
      hide Table.Mirrors;
      semaphore := semaphore + 1;
      poller := Resting;
      model := ReleaseStep(model);
    }

    // ------------------------------------------------------------ reply and status

    // ccapi_process_device_request_response
    method ProcessReply(svc: SvcReceive, size: nat) returns (bytes: string, more: bool)
      requires Valid() && Holds(svc) && Enabled(model, ReplyData(svc.id, size))
      modifies this`answer, this`model, table`sessions, table`buffers, svc
      ensures Valid() && model == ReplyStep(old(model), svc.id, size)
      ensures svc.required ==> Piece(bytes, more) == ReplyPiece(old(svc.ReplyView()), size)
      ensures (answer == Continue <==> svc.required) && (answer == Failed <==> !svc.required)
    {
      ReplyKeepsInv(model, svc.id, size);
      table.SessionOf(svc);
      ReplyIsAnswered(model, svc.id, size);
      hide Inv, ReplyStep, ReplyPiece;
      bytes, more := Send(svc, size);
    }

    method Send(svc: SvcReceive, size: nat) returns (bytes: string, more: bool)
      requires Linked() && Holds(svc)
      modifies this`answer, this`model, table`sessions, table`buffers, svc
      ensures svc.id in old(model).sessions
      ensures Linked() && model == ReplyStep(old(model), svc.id, size)
      ensures svc.required ==> Piece(bytes, more) == ReplyPiece(old(svc.ReplyView()), size)
    {
      table.SessionOf(svc);
      hide Table.Mirrors, ReplyCall, ReplyPiece;
      bytes, more := table.SendReply(svc, size);
      Note(if svc.required then Continue else Failed);
    }

    // ccapi_process_device_request_status, which calls the user's status callback
    // with `report`, and frees the record. The user is given back exactly the
    // buffer its data callback set. The service stays sound unless the request is
    // queued, and then the worker can come to use the freed record.
    method ProcessStatus(svc: SvcReceive, status: CloudStatus) returns (report: Option<Report>)
      requires Valid() && Holds(svc) && poller == Resting
      modifies this`answer, this`model, table`contexts, table`sessions, svc`error
      ensures Linked() && model == StatusStep(old(model), svc.id, status)
      ensures Valid() <==> old(svc.phase) != Queued
      ensures CanUseFreed(model) <==> old(svc.phase) == Queued
      ensures answer == Continue && |model.closed| == |old(model).closed| + 1
      ensures var over := model.closed[|old(model).closed|];
              && over.report == report && Over(over, supported)
              && over.earlier == old(svc.error) && over.status == status
      ensures report.Some? ==> EndsWith(old(svc.error), status, report.value.error)
      ensures table.contexts == old(table.contexts) - {svc.id}
    {
      table.SessionOf(svc);
      ClosingHarmsExactly(model, svc.id, status);
      ClosedIsOver(model, svc.id, status);
      hide Inv, Over, StatusStep, CanUseFreed;
      report := Close(svc, status);
    }

    method Close(svc: SvcReceive, status: CloudStatus) returns (report: Option<Report>)
      requires Linked() && Holds(svc)
      modifies this`answer, this`model, table`contexts, table`sessions, svc`error
      ensures svc.id in old(model).sessions
      ensures Linked() && model == StatusStep(old(model), svc.id, status)
      ensures report == ReportOf(supported, Closing(old(model).sessions[svc.id], status))
      ensures table.contexts == old(table.contexts) - {svc.id}
    {
      hide Table.Mirrors, Closing, ReportOf;
      table.SessionOf(svc);
      report := table.Close(svc, status, supported);
      answer := Continue;
      model := StatusStep(model, svc.id, status);
    }

    // ------------------------------------------------------------ targets

    // ccxapi_receive_add_target
    method AddTarget(target: Option<string>, present: Callbacks, limit: Limit, running: bool)
      requires Valid() && (target.Some? ==> NoNul(target.value))
      modifies this`result, this`model, targets
      ensures Valid() && model == AddTargetStep(old(model), target, present, limit, running)
      ensures result == Added(old(model).targets, supported, target, present, limit, running).1
      ensures AddsExactly(old(model).targets, supported, target, present, running, model.targets, result)
      ensures fresh(Footprint() - old(Footprint()))
    {
      StepKeepsInv(model, ReceiveMachine.AddTarget(target, present, limit, running));
      ChangesAreAnswered(model.targets, supported, target, present, limit, running);
      assert supported == model.supported;
      hide Inv, Linked, AddsExactly, RemovesExactly, Added, Removed;
      Extend(target, present, limit, running);
    }

    method Extend(target: Option<string>, present: Callbacks, limit: Limit, running: bool)
      requires Linked() && (target.Some? ==> NoNul(target.value))
      modifies this`result, this`model, targets
      ensures Linked() && model == AddTargetStep(old(model), target, present, limit, running)
      ensures result == Added(old(model).targets, supported, target, present, limit, running).1
      ensures fresh(Footprint() - old(Footprint()))
    {
      hide Table.Mirrors, Added;
      result := targets.Add(target, present, limit, running, supported);
      model := model.(targets := targets.targets, result := result);
    }

    // ccxapi_receive_remove_target
    method RemoveTarget(target: Option<string>, running: bool)
      requires Valid() && (target.Some? ==> NoNul(target.value))
      modifies this`result, this`model, targets, targets.spine
      ensures Valid() && model == RemoveTargetStep(old(model), target, running)
      ensures result == Removed(old(model).targets, supported, target, running).1
      ensures RemovesExactly(old(model).targets, supported, target, running, model.targets, result)
      ensures Footprint() <= old(Footprint())
    {
      StepKeepsInv(model, ReceiveMachine.RemoveTarget(target, running));
      ChangesAreAnswered(model.targets, supported, target, Callbacks(true, true), NoLimit, running);
      assert supported == model.supported;
      hide Inv, Linked, AddsExactly, RemovesExactly, Added, Removed;
      Shrink(target, running);
    }

    method Shrink(target: Option<string>, running: bool)
      requires Linked() && (target.Some? ==> NoNul(target.value))
      modifies this`result, this`model, targets, targets.spine
      ensures Linked() && model == RemoveTargetStep(old(model), target, running)
      ensures result == Removed(old(model).targets, supported, target, running).1
      ensures Footprint() <= old(Footprint())
    {
      hide Table.Mirrors, Removed;
      result := targets.Remove(target, running, supported);
      model := model.(targets := targets.targets, result := result);
    }

    // ------------------------------------------------------------ ccapi_receive_thread, piece by piece

    // The worker wakes to a queued record with a data callback: its assertions hold.
    method WorkerAcquire()
      requires Valid() && Enabled(model, Acquire)
      modifies this`semaphore, this`worker, this`model
      ensures Valid() && model == AcquireStep(old(model))
      ensures slot != null && Holds(slot) && slot.phase == Queued && slot.callbacks.data && semaphore == 0
    {
      StepKeepsInv(model, Acquire);
      SlotIsQueued(model);
      hide Inv;
      table.SessionOf(slot);
      hide Linked;
      TakeSemaphore();
    }

    method TakeSemaphore()
      requires Linked() && 0 < semaphore && worker == Waiting
      modifies this`semaphore, this`worker, this`model
      ensures Linked() && model == AcquireStep(old(model)) && semaphore == old(semaphore) - 1
    {
      hide Table.Mirrors;
      semaphore := semaphore - 1;
      worker := Acquired;
      model := AcquireStep(model);
    }

    // The user's callback is called for the first time for this request, on all of
    // it; `error` and `given` are its answer.
    method WorkerCall(error: Error, given: Option<string>)
      requires Valid() && Enabled(model, Call(error, given))
      modifies this`worker, this`inHand, this`model, table`sessions, table`buffers, slot
      ensures Defined(old(model), Call(error, given)) && model == CallStep(old(model), error, given)
      ensures Valid()
      ensures worker.Called? && inHand == slot && Holds(inHand)
      ensures model.sessions[inHand.id].calls == [UserCall(Flatten(model.sessions[inHand.id].packets), error, given)]
      ensures Whole(model.sessions[inHand.id].packets)
    {
      InvDefines(model, Call(error, given));
      CallKeepsInv(model, error, given);
      CallIsWhole(model, error, given);
      SlotIsQueued(model);
      hide Inv, AfterCall, CallStep;
      CheckAndCall(error, given);
    }

    method CheckAndCall(error: Error, given: Option<string>)
      requires Linked() && worker == Acquired && (slot != null ==> Holds(slot))
      modifies this`worker, this`inHand, this`model, table`sessions, table`buffers, slot
      ensures slot != null ==> slot.id in old(model).sessions
      ensures Linked() && model == CallStep(old(model), error, given)
      ensures worker.Called? ==> inHand == slot
    {
      hide Linked, AfterCall;
      SlotSession();
      if slot == null || slot.phase != Queued || !slot.callbacks.data {
        Die();
      } else {
        CallUser(slot, error, given);
      }
    }

    lemma SlotSession()
      requires Linked() && (slot != null ==> Holds(slot))
      ensures model.slot == if slot == null then None else Some(slot.id)
      ensures slot != null ==>
                && slot.id in model.sessions && slot.phase == model.sessions[slot.id].phase
                && slot.callbacks == model.sessions[slot.id].callbacks
    {
      if slot != null {
        table.SessionOf(slot);
      }
    }

    method Die()
      requires Linked() && worker == Acquired
      modifies this`worker, this`model
      ensures Linked() && worker == Dead && model == old(model).(worker := Dead)
    {
      hide Table.Mirrors;
      worker := Dead;
      model := model.(worker := Dead);
    }

    method CallUser(svc: SvcReceive, error: Error, given: Option<string>)
      requires Linked() && Holds(svc) && slot == svc && worker == Acquired
      modifies this`worker, this`inHand, this`model, table`sessions, table`buffers, svc
      ensures Linked() && inHand == svc
      ensures var x := old(model).sessions[svc.id];
              model == old(model).(sessions := old(model).sessions[svc.id := AfterCall(x, error, given)],
              worker := Called(svc.id))
    {
      hide Table.Mirrors, AfterCall;
      table.TakeResult(svc, error, given);
      inHand := svc;
      worker := Called(svc.id);
      model := model.(sessions := table.sessions, worker := Called(svc.id));
    }

    // The record has not been freed, and becomes processed.
    method WorkerMark()
      requires Valid() && Enabled(model, Mark)
      modifies this`worker, this`model, table`sessions, table`buffers, inHand
      ensures Defined(old(model), Mark) && model == MarkStep(old(model))
      ensures Valid()
      ensures Holds(old(inHand)) && old(inHand).phase == Processed
    {
      hide Inv, Linked, MarkStep;
      MarkSound(model);
      HeldRecord();
      MarkProcessed(inHand);
    }

    lemma HeldRecord()
      requires Linked() && model.worker.Called? && model.worker.id in model.sessions
      ensures inHand != null && Holds(inHand) && model.worker == worker == Called(inHand.id)
    {
    }

    method MarkProcessed(svc: SvcReceive)
      requires Linked() && Holds(svc) && worker == Called(svc.id) && model.sessions[svc.id].phase == Queued
      modifies this`worker, this`model, table`sessions, table`buffers, svc`phase
      ensures Linked() && svc.phase == Processed
      ensures var x := old(model).sessions[svc.id];
              model == old(model).(sessions := old(model).sessions[svc.id := x.(phase := Processed)], worker := Marked)
    {
      hide Table.Mirrors;
      table.SetPhase(svc, Processed);
      worker := Marked;
      model := model.(sessions := table.sessions, worker := Marked);
    }

    // The slot is free for the next request: no record is queued, and nobody is
    // about to wake the worker.
    method WorkerClear()
      requires Valid() && Enabled(model, ClearSlot)
      modifies this`slot, this`worker, this`model
      ensures Valid() && model == ClearStep(old(model))
      ensures slot == null && model.semaphore == 0 && model.poller == Resting
      ensures forall id :: id in model.sessions ==> model.sessions[id].phase != Queued
    {
      StepKeepsInv(model, ClearSlot);
      NothingQueued(model);
      hide Inv, Linked;
      FreeSlot();
    }

    method FreeSlot()
      requires Linked()
      modifies this`slot, this`worker, this`model
      ensures Linked() && model == ClearStep(old(model)) && slot == null
    {
      hide Table.Mirrors;
      slot := null;
      worker := Waiting;
      model := ClearStep(model);
    }

    // ------------------------------------------------------------ schedules

    // Whichever step comes next.
    method Perform(step: Step)
      requires Valid() && Enabled(model, step) && Proper(step)
      modifies this, Footprint()
      ensures Valid() && Defined(old(model), step) && model == Apply(old(model), step)
      ensures fresh(Footprint() - old(Footprint()))
    {
      hide Inv, Linked;
      StepKeepsInv(model, step);
      match step {
        case Open(id, name, required, accepts) => var _ := ProcessTarget(id, name, required, accepts);
        case Data(id, packet) => DataFor(id, packet);
        case ReplyData(id, size) => ReplyFor(id, size);
        case Status(id, status) => StatusFor(id, status);
        case _ => PerformOther(step);
      }
    }

    method PerformOther(step: Step)
      requires Valid() && Defined(model, step) && Proper(step)
      requires !step.Open? && !step.Data? && !step.ReplyData? && !step.Status?
      modifies this, Footprint()
      ensures Valid() && model == Apply(old(model), step)
      ensures fresh(Footprint() - old(Footprint()))
    {
      hide Inv, Linked;
      match step {
        case AddTarget(target, present, limit, running) => AddTarget(target, present, limit, running);
        case RemoveTarget(target, running) => RemoveTarget(target, running);
        case Release => ReleaseWorker();
        case Acquire => WorkerAcquire();
        case Call(error, response) => CallFor(error, response);
        case Mark => MarkFor();
        case ClearSlot => WorkerClear();
      }
    }

    // CCFSM's calls are about the record it holds a pointer to, and the worker's
    // steps about the one in the slot.

    method DataFor(id: Id, packet: Packet)
      requires Valid() && Enabled(model, Data(id, packet))
      modifies this`answer, this`slot, this`poller, this`model, table`sessions, table`buffers, table.records
      ensures id in old(model).sessions && Valid() && model == DataStep(old(model), id, packet)
    {
      hide Inv, Linked, DataStep;
      ContextOf(id);
      ProcessData(table.contexts[id], packet);
    }

    method ReplyFor(id: Id, size: nat)
      requires Valid() && Enabled(model, ReplyData(id, size))
      modifies this`answer, this`model, table`sessions, table`buffers, table.records
      ensures id in old(model).sessions && Valid() && model == ReplyStep(old(model), id, size)
    {
      hide Inv, Linked, ReplyStep;
      ContextOf(id);
      var _, _ := ProcessReply(table.contexts[id], size);
    }

    method StatusFor(id: Id, status: CloudStatus)
      requires Valid() && Enabled(model, Status(id, status))
      modifies this`answer, this`model, table`contexts, table`sessions, table.records
      ensures id in old(model).sessions && Valid() && model == StatusStep(old(model), id, status)
    {
      hide Inv, StatusStep;
      ContextOf(id);
      table.SessionOf(table.contexts[id]);
      var _ := ProcessStatus(table.contexts[id], status);
    }

    method CallFor(error: Error, response: Option<string>)
      requires Valid() && Enabled(model, Call(error, response))
      modifies this`worker, this`inHand, this`model, table`sessions, table`buffers, table.records
      ensures Defined(old(model), Call(error, response)) && model == CallStep(old(model), error, response)
      ensures Valid()
    {
      hide Inv, Linked, CallStep;
      WorkersRecord();
      WorkerCall(error, response);
    }

    method MarkFor()
      requires Valid() && Enabled(model, Mark)
      modifies this`worker, this`model, table`sessions, table`buffers, table.records
      ensures Defined(old(model), Mark) && model == MarkStep(old(model))
      ensures Valid()
    {
      hide Inv, Linked, MarkStep;
      WorkersRecord();
      WorkerMark();
    }

    // The record the worker is about to use is one that CCFSM knows.
    lemma WorkersRecord()
      requires Valid() && (model.worker == Acquired || model.worker.Called?)
      ensures model.worker == Acquired ==> slot != null && slot in table.records
      ensures model.worker.Called? ==> inHand != null && inHand in table.records
    {
      if worker == Acquired {
        SlotIsQueued(model);
        hide Inv;
        table.SessionOf(slot);
      } else {
        CalledIsQueued(model);
        hide Inv;
        table.SessionOf(inHand);
      }
    }

    // The record CCFSM knows under an address.
    lemma ContextOf(id: Id)
      requires Valid() && id in model.sessions
      ensures id in table.contexts && table.contexts[id].id == id && Holds(table.contexts[id])
      ensures table.contexts[id] in table.records
    {
      assert table.Mirrors(id);
    }

    // Any schedule of CCFSM's calls, the worker's steps and the application's
    // changes of the target list, from the start: the service goes through the run
    // of that schedule, and each user callback has been called at most once for each
    // request, on the whole of it.
    method Drive(steps: seq<Step>)
      requires Valid() && Initial(model) && Follows(model, steps)
      requires forall i :: 0 <= i < |steps| ==> Proper(steps[i])
      modifies this, Footprint()
      ensures Valid() && model == Run(old(model), steps)
      ensures forall id :: id in model.sessions ==> CallsExact(model.sessions[id])
      ensures forall k :: 0 <= k < |model.closed| ==> CallsExact(model.closed[k].session)
    {
      hide Inv, Linked, CallsExact;
      UserCalledAtMostOnce(model, steps);
      var i := 0;
      while i < |steps|
        invariant i <= |steps| && Valid() && fresh(Footprint() - old(Footprint()))
        invariant Follows(model, steps[i..]) && Run(model, steps[i..]) == Run(old(model), steps)
      {
        FollowsOn(model, steps, i);
        Perform(steps[i]);
        i := i + 1;
      }
    }
  }

  lemma FollowsOn(s: State, steps: seq<Step>, i: nat)
    requires i < |steps| && Follows(s, steps[i..])
    ensures Defined(s, steps[i]) && Follows(Apply(s, steps[i]), steps[i + 1..])
    ensures Run(s, steps[i..]) == Run(Apply(s, steps[i]), steps[i + 1..])
  {
    assert steps[i..][0] == steps[i] && steps[i..][1..] == steps[i + 1..];
  }

  // Names are C strings.
  predicate Proper(step: Step) {
    match step
    case Open(_, name, _, _) => NoNul(name)
    case AddTarget(target, _, _, _) => target.Some? ==> NoNul(target.value)
    case RemoveTarget(target, _) => target.Some? ==> NoNul(target.value)
    case _ => true
  }

  // ---------------------------------------------------------------- what the invariant buys

  lemma NotInHand(s: State, id: Id)
    requires Inv(s) && id !in s.sessions
    ensures s.slot == Some(id) ==> s.worker == Marked
    ensures s.worker.Called? ==> s.worker.id != id
  {
  }

  lemma SlotIsQueued(s: State)
    requires Inv(s) && (s.poller == Posting || s.worker == Acquired || (s.worker == Waiting && 0 < s.semaphore))
    ensures s.slot.Some? && s.slot.value in s.sessions
    ensures s.sessions[s.slot.value].phase == Queued && s.sessions[s.slot.value].callbacks.data
    ensures s.semaphore <= 1 && (s.poller == Posting ==> s.worker == Waiting && s.semaphore == 0)
  {
    assert SessionOk(s.sessions[s.slot.value], s.worker == Called(s.slot.value));
  }

  lemma CalledIsQueued(s: State)
    requires Inv(s) && s.worker.Called?
    ensures s.worker.id in s.sessions && s.sessions[s.worker.id].phase == Queued
  {
  }

  lemma MarkSound(s: State)
    requires Inv(s) && Enabled(s, Mark)
    ensures Defined(s, Mark) && Inv(MarkStep(s))
    ensures s.worker.id in s.sessions && s.sessions[s.worker.id].phase == Queued
    ensures MarkStep(s) == s.(sessions := s.sessions[s.worker.id := s.sessions[s.worker.id].(phase := Processed)],
                           worker := Marked)
  {
    InvDefines(s, Mark);
    MarkKeepsInv(s);
  }

  lemma NothingQueued(s: State)
    requires Inv(s) && s.worker == Marked
    ensures s.semaphore == 0 && s.poller == Resting
    ensures forall id :: id in s.sessions ==> s.sessions[id].phase != Queued
  {
  }

  lemma CallIsWhole(s: State, error: Error, given: Option<string>)
    requires Inv(s) && s.worker == Acquired && Defined(s, Call(error, given))
    ensures AssertionsHold(s)
    ensures var x := CallStep(s, error, given).sessions[s.slot.value];
            x.calls == [UserCall(Flatten(x.packets), error, given)] && Whole(x.packets)
  {
    assert SessionOk(s.sessions[s.slot.value], false);
  }
}
