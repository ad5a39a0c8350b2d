// The receive service as a state machine. CCFSM delivers any number of
// concurrent requests packet by packet; each complete request is handed through
// one shared slot to one worker thread, which calls the user. Every step is one
// atomic piece of one thread.
module ReceiveMachine {
  import opened Bytes
  import opened Options
  import opened Streaming

  type Id = nat

  datatype Limit = NoLimit | AtMost(size: nat)

  // Which of the user's callbacks are present.
  datatype Callbacks = Callbacks(data: bool, status: bool)

  // An entry of the target list.
  datatype Target = Target(name: string, callbacks: Callbacks, limit: Limit)

  datatype Packet = Packet(bytes: seq<Byte>, more: bool)

  datatype Phase = Idle | Ready | Queued | Processed | Free

  // One call of the user's data callback: the buffer it was given, and what it
  // answered; `response` is the buffer it set, if any.
  datatype UserCall = UserCall(request: seq<Byte>, error: Error, response: Option<string>)

  // One request being received.
  datatype Session = Session(
    phase: Phase,
    callbacks: Callbacks,
    limit: Limit,
    buffer: seq<Byte>,
    reply: Reply,
    lent: bool,                  // the user's data callback has set a response buffer
    // history
    accepted: bool,              // the target call answered continue
    origin: Option<Target>,      // the entry of the target list it was opened for
    packets: seq<Packet>,        // delivered while the request was assembled
    pending: Option<Packet>,     // the packet last answered busy
    calls: seq<UserCall>)

  datatype Poller = Resting | Posting

  // `Dead` is a worker that left its loop because an assertion failed.
  datatype Worker = Waiting | Acquired | Called(id: Id) | Marked | Dead

  datatype Answer = Continue | Busy | Failed

  datatype CloudStatus = Complete | Cancel | Timeout | SessionFailure

  // What the user's status callback is given: an error, and the response buffer
  // to free.
  datatype Report = Report(error: Error, buffer: Option<string>)

  // A session that is over: the error it had, and the cloud's verdict.
  datatype Closed = Closed(session: Session, earlier: Error, status: CloudStatus, report: Option<Report>)

  datatype State = State(
    supported: bool,             // the service was started with receive support
    default: Callbacks,          // and with these callbacks for any target
    targets: seq<Target>,
    sessions: map<Id, Session>,
    slot: Option<Id>,            // the session handed to the worker
    semaphore: nat,
    poller: Poller,
    worker: Worker,
    answer: Answer,
    result: Error,               // of the last change of the target list
    // history
    closed: seq<Closed>)

  datatype Step =
    | Open(id: Id, name: string, required: bool, accepts: bool)
    | Data(id: Id, packet: Packet)
    | Release
    | ReplyData(id: Id, size: nat)
    | Status(id: Id, status: CloudStatus)
    | AddTarget(target: Option<string>, callbacks: Callbacks, limit: Limit, running: bool)
    | RemoveTarget(target: Option<string>, running: bool)
    | Acquire
    | Call(error: Error, response: Option<string>)
    | Mark
    | ClearSlot

  // ---------------------------------------------------------------- targets

  // The index of the first entry with this name, or the list's length.
  function Find(targets: seq<Target>, name: string): (i: nat)
    ensures i <= |targets|
    ensures i < |targets| ==> targets[i].name == name
    ensures forall k :: 0 <= k < i ==> targets[k].name != name
  {
    if targets == [] || targets[0].name == name then 0 else 1 + Find(targets[1..], name)
  }

  function Lookup(targets: seq<Target>, name: string): Option<Target> {
    if Find(targets, name) < |targets| then Some(targets[Find(targets, name)]) else None
  }

  function Added(targets: seq<Target>, supported: bool, target: Option<string>, callbacks: Callbacks, limit: Limit,
                 running: bool): (seq<Target>, Error)
  {
    if target.None? then (targets, InvalidTarget)
    else if !callbacks.data then (targets, InvalidDataCallback)
    else if !running then (targets, NotRunning)
    else if !supported then (targets, NoReceiveSupport)
    else if Find(targets, target.value) < |targets| then (targets, TargetAlreadyAdded)
    else ([Target(target.value, callbacks, limit)] + targets, NoError)
  }

  function Removed(targets: seq<Target>, supported: bool, target: Option<string>, running: bool): (seq<Target>, Error) {
    if !running then (targets, NotRunning)
    else if !supported then (targets, NoReceiveSupport)
    else if target.None? then (targets, InvalidTarget)
    else
      var i := Find(targets, target.value);
      if i == |targets| then (targets, TargetNotAdded)
      else (targets[..i] + targets[i + 1..], NoError)
  }

  // ---------------------------------------------------------------- sessions

  function Fresh(callbacks: Callbacks, limit: Limit, error: Error, name: string, required: bool, accepted: bool,
                 origin: Option<Target>): Session
  {
    var reply := Reply(required, name, error, false, [], [], [], []);
    Session(Idle, callbacks, limit, [], reply, false, accepted, origin, [], None, [])
  }

  // The session a new request starts with.
  function Opened(supported: bool, default: Callbacks, targets: seq<Target>, name: string, required: bool,
                  accepts: bool): Session
  {
    if !supported then Fresh(default, NoLimit, NoReceiveSupport, name, required, false, None)
    else
      var i := Find(targets, name);
      if i < |targets| then
        Fresh(targets[i].callbacks, targets[i].limit, NoError, name, required, true, Some(targets[i]))
      else if !default.data then Fresh(default, NoLimit, InvalidDataCallback, name, required, false, None)
      else if accepts then Fresh(default, NoLimit, NoError, name, required, true, None)
      else Fresh(default, NoLimit, UserRefusedTarget, name, required, false, None)
  }

  predicate Exceeds(limit: Limit, size: nat) {
    limit.AtMost? && limit.size < size
  }

  function SetError(x: Session, error: Error): Session {
    x.(reply := x.reply.(error := error))
  }

  // A packet for a request that is still being assembled.
  function Assemble(x: Session, packet: Packet): (Session, Answer) {
    var y := x.(packets := x.packets + [packet]);
    if Exceeds(x.limit, |x.buffer| + |packet.bytes|) then
      (SetError(y, RequestTooBig).(phase := Free), Failed)
    else
      var z := y.(buffer := x.buffer + packet.bytes);
      if packet.more then (z, Continue)
      else (z.(phase := Ready, pending := Some(packet)), Busy)
  }

  function Conclude(x: Session): (Session, Answer) {
    var reply := if x.reply.required then x.reply.(processing := x.reply.response) else x.reply;
    (x.(phase := Free, reply := reply, pending := None), if x.reply.error == NoError then Continue else Failed)
  }

  // ---------------------------------------------------------------- steps

  function Put(s: State, id: Id, x: Session, answer: Answer): State {
    s.(sessions := s.sessions[id := x], answer := answer)
  }

  function OpenStep(s: State, id: Id, name: string, required: bool, accepts: bool): State {
    var x := Opened(s.supported, s.default, s.targets, name, required, accepts);
    Put(s, id, x, if x.accepted then Continue else Failed)
  }

  function DataStep(s: State, id: Id, packet: Packet): State
    requires id in s.sessions
  {
    var x := s.sessions[id];
    if !s.supported then Put(s, id, SetError(x, NoReceiveSupport), Failed)
    else match x.phase
         case Idle => var (y, answer) := Assemble(x, packet); Put(s, id, y, answer)
         case Ready =>
           if s.slot == None then
             Put(s, id, x.(phase := Queued), Busy).(slot := Some(id), poller := Posting)
           else s.(answer := Busy)
         case Queued => s.(answer := Busy)
         case Processed => var (y, answer) := Conclude(x); Put(s, id, y, answer)
         case Free => s.(answer := Failed)
  }

  function ReleaseStep(s: State): State {
    s.(semaphore := s.semaphore + 1, poller := Resting)
  }

  function ReplyStep(s: State, id: Id, size: nat): State
    requires id in s.sessions
  {
    var x := s.sessions[id];
    Put(s, id, x.(reply := ReplyCall(x.reply, size)), if x.reply.required then Continue else Failed)
  }

  // Errors found earlier take precedence over the cloud's.
  function Closing(x: Session, status: CloudStatus): Session {
    if x.reply.error != NoError then x
    else SetError(x, match status
                     case Complete => NoError
                     case Cancel => StatusCancel
                     case Timeout => StatusTimeout
                     case SessionFailure => StatusSessionError)
  }

  // What the status callback is told, if there is one: the user is given a buffer
  // to free only if it is the one its data callback has set.
  function ReportOf(supported: bool, x: Session): Option<Report> {
    if supported && x.callbacks.status then
      var given := !x.reply.handled && x.reply.required && x.lent;
      Some(Report(x.reply.error, if given then Some(x.reply.response) else None))
    else None
  }

  function StatusStep(s: State, id: Id, status: CloudStatus): State
    requires id in s.sessions
  {
    var x := Closing(s.sessions[id], status);
    var over := Closed(x, s.sessions[id].reply.error, status, ReportOf(s.supported, x));
    s.(sessions := s.sessions - {id}, closed := s.closed + [over], answer := Continue)
  }

  function AddTargetStep(s: State, target: Option<string>, callbacks: Callbacks, limit: Limit, running: bool): State {
    var (targets, result) := Added(s.targets, s.supported, target, callbacks, limit, running);
    s.(targets := targets, result := result)
  }

  function RemoveTargetStep(s: State, target: Option<string>, running: bool): State {
    var (targets, result) := Removed(s.targets, s.supported, target, running);
    s.(targets := targets, result := result)
  }

  function AcquireStep(s: State): State
    requires 0 < s.semaphore
  {
    s.(semaphore := s.semaphore - 1, worker := Acquired)
  }

  // The worker's three assertions.
  predicate AssertionsHold(s: State)
    requires s.slot.Some? ==> s.slot.value in s.sessions
  {
    s.slot.Some? && s.sessions[s.slot.value].phase == Queued && s.sessions[s.slot.value].callbacks.data
  }

  // What a call of the user's data callback leaves in the session; it is passed no
  // response record where no response is required.
  function AfterCall(x: Session, error: Error, response: Option<string>): Session {
    var lent := x.reply.required && response.Some?;
    var given := if lent then response.value else [];
    x.(calls := x.calls + [UserCall(x.buffer, error, response)], lent := lent,
    reply := x.reply.(error := error, response := given, given := given))
  }

  function CallStep(s: State, error: Error, response: Option<string>): State
    requires s.slot.Some? ==> s.slot.value in s.sessions
  {
    if !AssertionsHold(s) then s.(worker := Dead)
    else
      var id := s.slot.value;
      s.(sessions := s.sessions[id := AfterCall(s.sessions[id], error, response)], worker := Called(id))
  }

  function MarkStep(s: State): State
    requires s.worker.Called? && s.worker.id in s.sessions
  {
    var id := s.worker.id;
    if s.sessions[id].phase == Queued then
      s.(sessions := s.sessions[id := s.sessions[id].(phase := Processed)], worker := Marked)
    else s.(worker := Marked)
  }

  function ClearStep(s: State): State {
    s.(slot := None, worker := Waiting)
  }

  // CCFSM makes one call at a time. It sends data only for requests it was told
  // to continue, offers a packet answered busy again unchanged, asks for a reply
  // only when a request is refused or done with, and closes no queued request.
  predicate Enabled(s: State, step: Step) {
    match step
    case Open(id, _, _, _) => s.poller == Resting && id !in s.sessions
    case Data(id, packet) =>
      && s.poller == Resting && id in s.sessions && s.sessions[id].accepted
      && (s.sessions[id].pending.Some? ==> packet == s.sessions[id].pending.value)
    case Release => s.poller == Posting
    case ReplyData(id, _) =>
      s.poller == Resting && id in s.sessions && (s.sessions[id].accepted ==> s.sessions[id].phase == Free)
    case Status(id, _) => s.poller == Resting && id in s.sessions && s.sessions[id].phase != Queued
    case AddTarget(_, _, _, _) => true
    case RemoveTarget(_, _) => true
    case Acquire => s.worker == Waiting && 0 < s.semaphore
    case Call(_, _) => s.worker == Acquired
    case Mark => s.worker.Called?
    case ClearSlot => s.worker == Marked
  }

  // The worker never touches a record that has been freed.
  predicate Defined(s: State, step: Step) {
    && Enabled(s, step)
    && (step.Call? ==> (s.slot.Some? ==> s.slot.value in s.sessions))
    && (step.Mark? ==> s.worker.id in s.sessions)
  }

  function Apply(s: State, step: Step): State
    requires Defined(s, step)
  {
    match step
    case Open(id, name, required, accepts) => OpenStep(s, id, name, required, accepts)
    case Data(id, packet) => DataStep(s, id, packet)
    case Release => ReleaseStep(s)
    case ReplyData(id, size) => ReplyStep(s, id, size)
    case Status(id, status) => StatusStep(s, id, status)
    case AddTarget(target, callbacks, limit, running) => AddTargetStep(s, target, callbacks, limit, running)
    case RemoveTarget(target, running) => RemoveTargetStep(s, target, running)
    case Acquire => AcquireStep(s)
    case Call(error, response) => CallStep(s, error, response)
    case Mark => MarkStep(s)
    case ClearSlot => ClearStep(s)
  }

  // ---------------------------------------------------------------- invariant

  predicate Initial(s: State) {
    && s.targets == [] && s.sessions == map[] && s.slot == None && s.semaphore == 0
    && s.poller == Resting && s.worker == Waiting && s.closed == []
  }

  function Flatten(packets: seq<Packet>): seq<Byte> {
    if packets == [] then [] else Flatten(packets[..|packets| - 1]) + packets[|packets| - 1].bytes
  }

  predicate AllMore(packets: seq<Packet>) {
    forall k :: 0 <= k < |packets| ==> packets[k].more
  }

  // All of a request: only its last packet says that no more follow.
  predicate Whole(packets: seq<Packet>) {
    packets != [] && !packets[|packets| - 1].more && AllMore(packets[..|packets| - 1])
  }

  predicate Quiet(r: Reply) {
    !r.handled && r.sent == [] && r.processing == [] && r.response == r.given
  }

  predicate Assembled(x: Session) {
    x.accepted && Whole(x.packets) && x.buffer == Flatten(x.packets) && !Exceeds(x.limit, |x.buffer|) && Quiet(x.reply)
  }

  predicate CalledOn(x: Session, request: seq<Byte>) {
    |x.calls| == 1 && x.calls[0].request == request
  }

  // The user's callback has run once, on the whole request.
  predicate CalledOnce(x: Session) {
    && CalledOn(x, x.buffer)
    && x.buffer == Flatten(x.packets) && Whole(x.packets) && !Exceeds(x.limit, |x.buffer|)
  }

  predicate Replying(r: Reply) {
    if r.required then Unsent(r) || Sending(r) else r.sent == []
  }

  predicate Untold(x: Session) {
    x.calls == [] && x.reply.given == [] && !x.lent
  }

  // The session's limit and callbacks are its target's, and what the user's callback
  // has answered is kept.
  predicate Recorded(x: Session) {
    && (x.accepted && x.origin.Some? ==> x.limit == x.origin.value.limit && x.callbacks == x.origin.value.callbacks)
    && (x.accepted && x.origin.None? ==> x.limit == NoLimit)
    && (x.calls != [] ==>
          var response := x.calls[0].response;
          && (x.lent <==> x.reply.required && response.Some?)
          && (x.lent ==> x.reply.given == response.value)
          && (!x.lent ==> x.reply.given == []))
  }

  // Which error an open session has: the user's, or that of a refusal.
  predicate ErrorTells(x: Session) {
    if x.calls != [] then x.reply.error == x.calls[0].error
    else if x.phase == Free then x.reply.error == RequestTooBig
    else x.reply.error == NoError <==> x.accepted
  }

  // `called` says that the worker is back from this session's callback.
  predicate SessionOk(x: Session, called: bool) {
    && Recorded(x) && ErrorTells(x)
    && (x.accepted ==> x.callbacks.data)
    && (x.lent ==> x.reply.required)
    && (!x.reply.handled ==> x.reply.response == x.reply.given)
    && (x.reply.handled ==> x.reply.given == [])
    && (x.pending.Some? <==> x.phase == Ready || x.phase == Queued || x.phase == Processed)
    && (called ==> x.phase == Queued)
    && match x.phase
       case Idle =>
         && Untold(x)
         && if x.accepted then
              && AllMore(x.packets) && x.buffer == Flatten(x.packets) && !Exceeds(x.limit, |x.buffer|)
              && Quiet(x.reply)
            else Replying(x.reply) && x.packets == []
       case Ready => Assembled(x) && Untold(x)
       case Queued => Assembled(x) && if called then CalledOn(x, x.buffer) else Untold(x)
       case Processed => Assembled(x) && CalledOn(x, x.buffer)
       case Free => x.accepted && Replying(x.reply) && (CalledOnce(x) || Untold(x))
  }

  predicate SessionsOk(s: State) {
    forall id :: id in s.sessions ==>
                   SessionOk(s.sessions[id], s.worker == Called(id)) && (s.sessions[id].accepted ==> s.supported)
  }

  function Outstanding(s: State): nat {
    s.semaphore + (if s.poller == Posting then 1 else 0) + (if s.worker == Waiting then 0 else 1)
  }

  // One handoff at a time, and the slot is set for as long as it lasts.
  predicate Handoff(s: State) {
    && Outstanding(s) == (if s.slot.Some? then 1 else 0)
    && s.worker != Dead
    && (s.worker.Called? ==> s.slot == Some(s.worker.id))
    && (s.slot.Some? && s.worker != Marked ==> s.slot.value in s.sessions && s.sessions[s.slot.value].phase == Queued)
    && (forall id :: id in s.sessions && s.sessions[id].phase == Queued ==> s.slot == Some(id) && s.worker != Marked)
  }

  predicate TargetsOk(targets: seq<Target>) {
    && (forall i :: 0 <= i < |targets| ==> targets[i].callbacks.data)
    && (forall i, j :: 0 <= i < j < |targets| ==> targets[i].name != targets[j].name)
  }

  // The error a session ends with: the one it had, or else what the cloud's verdict
  // says.
  predicate EndsWith(earlier: Error, status: CloudStatus, error: Error) {
    if earlier != NoError then error == earlier
    else
      && (error == NoError <==> status == Complete)
      && (error == StatusCancel <==> status == Cancel)
      && (error == StatusTimeout <==> status == Timeout)
      && (error == StatusSessionError <==> status == SessionFailure)
  }

  // The buffer the user's callback has set, if it was asked for one.
  function Lent(x: Session): Option<string> {
    if x.reply.required && x.calls != [] then x.calls[0].response else None
  }

  // What stays true of a session that is over. The user's status callback, where
  // there is one, is told the error it ends with. The user is given back the buffer
  // it set, unless the text of an internal error has taken its place, which it does
  // only where that buffer was empty.
  predicate Over(c: Closed, supported: bool) {
    var x := c.session;
    && ((CalledOnce(x) && x.accepted) || Untold(x)) && Recorded(x)
    && (x.reply.sent == [] || x.reply.sent + x.reply.processing == Source(x.reply))
    && (x.reply.handled ==> x.reply.given == [])
    && (x.calls != [] ==> c.earlier == x.calls[0].error)
    && EndsWith(c.earlier, c.status, x.reply.error)
    && (c.report.Some? <==> supported && x.callbacks.status)
    && (c.report.Some? ==>
          && EndsWith(c.earlier, c.status, c.report.value.error)
          && c.report.value.buffer == if x.reply.handled then None else Lent(x))
  }

  predicate ClosedOk(s: State) {
    forall k :: 0 <= k < |s.closed| ==> Over(s.closed[k], s.supported)
  }

  predicate Inv(s: State) {
    SessionsOk(s) && Handoff(s) && TargetsOk(s.targets) && ClosedOk(s)
  }
}
