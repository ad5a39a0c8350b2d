// The remote-configuration handshake: CCFSM polls a request until it is
// answered, and a worker thread runs the application's function for it. The two
// meet in a status (idle, queued, processed), one callback record and a
// semaphore. Every step is one atomic piece of one thread.
module RciHandshake {
  import opened Options

  // The entries of the application's function table.
  datatype Entry =
    | StartSession | EndSession | StartAction | EndAction | StartGroup | EndGroup
    | LockGroupInstances | SetGroupInstances | RemoveGroupInstance | UnlockGroupInstances
    | StartList | EndList | LockListInstances | SetListInstances | RemoveListInstance | UnlockListInstances
    | GetElement | SetElement | SetAndTransformElement
    | DoCommand | SetFactoryDefaults | Reboot

  datatype Action = Set | Query | Other

  datatype Kind =
    | SessionStart
    | ActionStart(action: Action, ofSettings: bool, transformed: bool)
    | ElementProcess
      // every other request has one function of its own
    | Plain(entry: Entry)

  datatype Request = Request(kind: Kind, context: int, hint: int)

  // What an application function leaves behind.
  datatype Outcome = Outcome(error: int, context: int, hint: int)

  // What rci_info tells a function it calls.
  datatype Given = Given(context: int, hint: int, action: Action, transform: bool)

  datatype Invocation = Invocation(entry: Entry, given: Given, outcome: Outcome)

  datatype Status = Idle | Queued | Processed

  datatype Poller = Ready | Posting

  // A worker that is `Calling` holds the function it took from the callback record;
  // one that is `Dead` left its loop because an assertion failed.
  datatype Worker = Waiting | Acquired | Calling(entry: Entry) | Returned | Dead

  datatype Reply = Continue | Busy

  // One answered request, with the kinds accepted before it and what led to the
  // answer.
  datatype Answer = Answer(request: Request, earlier: seq<Kind>, selected: Option<Entry>,
                           error: int, context: int, hint: int,
                           invoked: seq<Invocation>, walk: seq<Status>)

  datatype State = State(
    app: set<Entry>,          // the functions the application supplies
    status: Status,
    callback: Option<Entry>,
    error: int,
    context: int,                // rci_info's user_context, error_hint, action
    hint: int,
    action: Action,
    transform: bool,             // embed_transformed_values
    semaphore: nat,
    poller: Poller,
    worker: Worker,
    reply: Reply,
    // history
    firstAction: Action,         // rci_info before the first request
    firstTransform: bool,
    accepted: seq<Kind>,         // every request accepted so far
    pending: Option<Request>,    // the request CCFSM is polling
    selected: Option<Entry>,
    invoked: seq<Invocation>,    // since that request was accepted
    walk: seq<Status>,
    answers: seq<Answer>)

  const NO_ERROR := 0
  const NO_HINT := 0

  datatype Step =
    | Poll(request: Request)
    | Release
    | Cancel
    | Acquire
    | Begin
    | Finish(outcome: Outcome)
    | Mark

  // ---------------------------------------------------------------- steps

  // rci_info's action and transform flag as a request leaves them.
  function ActionAfter(app: set<Entry>, action: Action, kind: Kind): Action {
    match kind
    case SessionStart => if StartSession in app then Query else action
    case ActionStart(wanted, _, _) => if StartAction in app then wanted else action
    case _ => action
  }

  function TransformAfter(app: set<Entry>, transform: bool, kind: Kind): bool {
    match kind
    case ActionStart(wanted, ofSettings, flag) =>
      if StartAction in app && wanted == Set && ofSettings then flag else transform
    case _ => transform
  }

  function IfSupplied(app: set<Entry>, entry: Entry): Option<Entry> {
    if entry in app then Some(entry) else None
  }

  // The function a request is handed to, if any.
  function Select(app: set<Entry>, action: Action, transform: bool, kind: Kind): Option<Entry> {
    match kind
    case SessionStart => IfSupplied(app, StartSession)
    case ActionStart(_, _, _) => IfSupplied(app, StartAction)
    case Plain(entry) => IfSupplied(app, entry)
    case ElementProcess =>
      if action == Query then IfSupplied(app, GetElement)
      else if action == Set && SetElement in app then Some(if transform then SetAndTransformElement else SetElement)
      else None
  }

  function PollStep(s: State, request: Request): State {
    match s.status
    case Idle => Accept(s, request)
    case Queued => s.(reply := Busy)
    case Processed => Conclude(s, request)
  }

  // What accepting a request leaves in rci_info.
  function Prepare(s: State, request: Request): State {
    s.(context := request.context,
    hint := if request.kind.SessionStart? && StartSession in s.app then NO_HINT else request.hint,
    action := ActionAfter(s.app, s.action, request.kind),
    transform := TransformAfter(s.app, s.transform, request.kind))
  }

  function Accept(s: State, request: Request): State {
    var selected := Select(s.app, s.action, s.transform, request.kind);
    var next := if selected.None? then Processed else Queued;
    Prepare(s, request).(
    callback := selected, error := NO_ERROR,
    status := next, poller := if selected.None? then Ready else Posting, reply := Busy,
    accepted := s.accepted + [request.kind],
    pending := Some(request), selected := selected, invoked := [], walk := [Idle, next])
  }

  // The requests accepted before the one in flight.
  function Earlier(s: State): seq<Kind> {
    if s.accepted == [] then [] else s.accepted[..|s.accepted| - 1]
  }

  function Conclude(s: State, request: Request): State {
    var answer :=
      Answer(request, Earlier(s), s.selected, s.error, s.context, s.hint, s.invoked, s.walk + [Idle]);
    s.(callback := None, error := NO_ERROR, status := Idle, reply := Continue,
    pending := None, answers := s.answers + [answer])
  }

  function ReleaseStep(s: State): State {
    s.(semaphore := s.semaphore + 1, poller := Ready)
  }

  function CancelStep(s: State): State {
    s.(callback := None, error := NO_ERROR, status := Idle, reply := Continue, pending := None)
  }

  function AcquireStep(s: State): State
    requires 0 < s.semaphore
  {
    s.(semaphore := s.semaphore - 1, worker := Acquired)
  }

  // The worker's assertions before it calls the function.
  predicate AssertionsHold(s: State) {
    s.status == Queued && s.callback.Some? && s.callback.value in s.app
  }

  function BeginStep(s: State): State {
    s.(worker := if AssertionsHold(s) then Calling(s.callback.value) else Dead)
  }

  function FinishStep(s: State, outcome: Outcome): State
    requires s.worker.Calling?
  {
    s.(error := outcome.error, context := outcome.context, hint := outcome.hint,
    invoked := s.invoked + [Invocation(s.worker.entry, Given(s.context, s.hint, s.action, s.transform), outcome)],
    worker := Returned)
  }

  function MarkStep(s: State): State {
    if s.status == Queued then s.(status := Processed, walk := s.walk + [Processed], worker := Waiting)
    else s.(worker := Waiting)
  }

  // CCFSM makes one call at a time, polls a request until it is answered or the
  // session is cancelled, and does not cancel while a request is queued.
  predicate Enabled(s: State, step: Step) {
    match step
    case Poll(request) => s.poller == Ready && (s.pending.Some? ==> request == s.pending.value)
    case Release => s.poller == Posting
    case Cancel => s.poller == Ready && s.status != Queued
    case Acquire => s.worker == Waiting && 0 < s.semaphore
    case Begin => s.worker == Acquired
    case Finish(_) => s.worker.Calling?
    case Mark => s.worker == Returned
  }

  function Apply(s: State, step: Step): State
    requires Enabled(s, step)
  {
    match step
    case Poll(request) => PollStep(s, request)
    case Release => ReleaseStep(s)
    case Cancel => CancelStep(s)
    case Acquire => AcquireStep(s)
    case Begin => BeginStep(s)
    case Finish(outcome) => FinishStep(s, outcome)
    case Mark => MarkStep(s)
  }

  // ---------------------------------------------------------------- invariant

  predicate Initial(s: State) {
    && s.status == Idle && s.callback == None && s.error == NO_ERROR
    && s.semaphore == 0 && s.poller == Ready && s.worker == Waiting
    && s.pending == None && s.answers == [] && s.accepted == []
    && s.action == s.firstAction && s.transform == s.firstTransform
  }

  // The one request in flight is counted exactly once: by the poller about to
  // release, by the semaphore, or by the worker that acquired it.
  predicate Handshake(s: State) {
    && s.semaphore + (if s.poller == Posting then 1 else 0) + (if s.worker == Waiting then 0 else 1)
       == (if s.status == Queued then 1 else 0)
    && (s.worker.Calling? || s.worker == Returned ==> s.callback.Some? && s.callback.value in s.app)
    && (s.worker.Calling? ==> s.callback == Some(s.worker.entry))
    && (s.worker == Dead ==> s.callback.Some? && s.callback.value !in s.app)
    && (s.status == Idle <==> s.pending.None?)
    && (s.callback.Some? ==> s.status != Idle && s.callback == s.selected)
    && (s.status == Queued ==> s.callback.Some?)
  }

  // The error hint a request comes with; a session start the application takes has
  // none.
  function HintOf(app: set<Entry>, request: Request): int {
    if request.kind.SessionStart? && StartSession in app then NO_HINT else request.hint
  }

  predicate Untouched(s: State, request: Request) {
    s.error == NO_ERROR && s.context == request.context && s.hint == HintOf(s.app, request)
  }

  predicate Ran(s: State, request: Request, entry: Entry) {
    && entry in s.app
    && s.invoked == [Invocation(entry, Given(request.context, HintOf(s.app, request), s.action, s.transform),
                                Outcome(s.error, s.context, s.hint))]
  }

  // How far the request in flight has got.
  predicate Underway(s: State) {
    s.pending.Some? ==>
      && s.callback == s.selected
      && match s.selected
         case None =>
           s.status == Processed && s.invoked == [] && s.walk == [Idle, Processed] && Untouched(s, s.pending.value)
         case Some(entry) =>
           if s.status == Processed then Ran(s, s.pending.value, entry) && s.walk == [Idle, Queued, Processed]
           else s.walk == [Idle, Queued] &&
                if s.worker == Returned then Ran(s, s.pending.value, entry)
                else s.invoked == [] && Untouched(s, s.pending.value)
  }

  // The action in force after these requests: that of the last session or action
  // start the application has a function for.
  function ActionInForce(app: set<Entry>, first: Action, kinds: seq<Kind>): Action {
    if kinds == [] then first
    else match kinds[|kinds| - 1]
         case SessionStart => if StartSession in app then Query else ActionInForce(app, first, kinds[..|kinds| - 1])
         case ActionStart(action, _, _) =>
           if StartAction in app then action else ActionInForce(app, first, kinds[..|kinds| - 1])
         case _ => ActionInForce(app, first, kinds[..|kinds| - 1])
  }

  // Whether values are to be transformed: as the last start of setting settings
  // said, if the application has a function for action starts.
  function TransformInForce(app: set<Entry>, first: bool, kinds: seq<Kind>): bool {
    if kinds == [] then first
    else
      var last := kinds[|kinds| - 1];
      if StartAction in app && last.ActionStart? && last.action == Set && last.ofSettings then last.transformed
      else TransformInForce(app, first, kinds[..|kinds| - 1])
  }

  // The function a request is to be handed to, given the requests before it.
  predicate Due(s: State, earlier: seq<Kind>, kind: Kind, selected: Option<Entry>) {
    match kind
    case SessionStart => selected == if StartSession in s.app then Some(StartSession) else None
    case ActionStart(_, _, _) => selected == if StartAction in s.app then Some(StartAction) else None
    case Plain(own) => selected == if own in s.app then Some(own) else None
    case ElementProcess =>
      var action := ActionInForce(s.app, s.firstAction, earlier);
      var transform := TransformInForce(s.app, s.firstTransform, earlier);
      && (action == Query ==> selected == if GetElement in s.app then Some(GetElement) else None)
      && (action == Set && SetElement !in s.app ==> selected == None)
      && (action == Set && SetElement in s.app && !transform ==> selected == Some(SetElement))
      && (action == Set && SetElement in s.app && transform ==> selected == Some(SetAndTransformElement))
      && (action == Other ==> selected == None)
  }

  // What a function is told: the request's context and hint, and the action and
  // transform flag in force with this request.
  function Told(s: State, earlier: seq<Kind>, request: Request): Given {
    var kinds := earlier + [request.kind];
    Given(request.context, HintOf(s.app, request), ActionInForce(s.app, s.firstAction, kinds),
          TransformInForce(s.app, s.firstTransform, kinds))
  }

  // An answer is the outcome of exactly one call of the function that was due, told
  // what the request says, or of none where none was.
  predicate Exact(s: State, a: Answer) {
    && Due(s, a.earlier, a.request.kind, a.selected)
    && a.earlier + [a.request.kind] <= s.accepted
    && match a.selected
       case None =>
         && a.invoked == [] && a.walk == [Idle, Processed, Idle]
         && a.error == NO_ERROR && a.context == a.request.context
         && a.hint == HintOf(s.app, a.request)
       case Some(entry) =>
         && entry in s.app
         && a.invoked == [Invocation(entry, Told(s, a.earlier, a.request), Outcome(a.error, a.context, a.hint))]
         && a.walk == [Idle, Queued, Processed, Idle]
  }

  predicate Answered(s: State) {
    forall k :: 0 <= k < |s.answers| ==> Exact(s, s.answers[k])
  }

  // The request in flight is the last one accepted and has the function it is
  // due, and rci_info is as the requests so far have left it.
  predicate Selected(s: State) {
    && (s.pending.Some? ==>
          && s.accepted != [] && s.accepted[|s.accepted| - 1] == s.pending.value.kind
          && Due(s, Earlier(s), s.pending.value.kind, s.selected))
    && (s.callback.Some? ==> s.pending.Some?)
    && s.action == ActionInForce(s.app, s.firstAction, s.accepted)
    && s.transform == TransformInForce(s.app, s.firstTransform, s.accepted)
  }

  // Each answer is to a request of its own, and they come in order.
  predicate InOrder(s: State) {
    && (forall j, k :: 0 <= j < k < |s.answers| ==> |s.answers[j].earlier| < |s.answers[k].earlier|)
    && (forall k :: 0 <= k < |s.answers| ==>
                      |s.answers[k].earlier| < if s.pending.Some? then |s.accepted| - 1 else |s.accepted|)
  }

  predicate Inv(s: State) {
    Handshake(s) && Underway(s) && Answered(s) && Selected(s) && InOrder(s)
  }

  // What no step changes.
  predicate SameService(s: State, t: State) {
    t.app == s.app && t.firstAction == s.firstAction && t.firstTransform == s.firstTransform && s.accepted <= t.accepted
  }

  lemma SameAnswers(s: State, t: State)
    requires Answered(s) && SameService(s, t) && t.answers == s.answers
    ensures Answered(t)
  {
    forall k | 0 <= k < |t.answers|
      ensures Exact(t, t.answers[k])
    {
      assert Exact(s, s.answers[k]);
    }
  }

  lemma StepKeepsInv(s: State, step: Step)
    requires Inv(s) && Enabled(s, step)
    ensures Inv(Apply(s, step)) && SameService(s, Apply(s, step))
  {
    hide Exact, PollStep;
    match step {
      case Poll(request) => PollKeepsInv(s, request);
      case _ => SameAnswers(s, Apply(s, step));
    }
  }

  lemma PollKeepsInv(s: State, request: Request)
    requires Inv(s) && Enabled(s, Poll(request))
    ensures Inv(PollStep(s, request)) && SameService(s, PollStep(s, request))
  {
    match s.status {
      case Idle =>
        AcceptKeepsInv(s, request);
      case Queued =>
        SameAnswers(s, PollStep(s, request));
      case Processed =>
        ConcludeKeepsInv(s, request);
    }
  }

  lemma ConcludeKeepsInv(s: State, request: Request)
    requires Inv(s) && s.status == Processed && s.pending == Some(request)
    ensures Inv(Conclude(s, request)) && SameService(s, Conclude(s, request))
  {
    var t := Conclude(s, request);
    assert s.accepted == Earlier(s) + [request.kind];
    assert Exact(t, t.answers[|s.answers|]);
    forall k | 0 <= k < |s.answers|
      ensures Exact(t, t.answers[k])
    {
      assert Exact(s, s.answers[k]);
    }
    hide Exact;
  }

  lemma AcceptKeepsInv(s: State, request: Request)
    requires Inv(s) && s.status == Idle && s.poller == Ready
    ensures Inv(Accept(s, request)) && SameService(s, Accept(s, request))
  {
    var t := Accept(s, request);
    assert Earlier(t) == s.accepted;
    SameAnswers(s, t);
  }

  // ---------------------------------------------------------------- runs

  predicate Follows(s: State, steps: seq<Step>)
    decreases |steps|
  {
    steps == [] || (Enabled(s, steps[0]) && Follows(Apply(s, steps[0]), steps[1..]))
  }

  function Run(s: State, steps: seq<Step>): State
    requires Follows(s, steps)
    decreases |steps|
  {
    if steps == [] then s else Run(Apply(s, steps[0]), steps[1..])
  }

  lemma {:induction false} RunKeepsInv(s: State, steps: seq<Step>)
    requires Inv(s) && Follows(s, steps)
    ensures Inv(Run(s, steps)) && SameService(s, Run(s, steps))
    decreases |steps|
  {
    if steps == [] {
    } else {
      StepKeepsInv(s, steps[0]);
      RunKeepsInv(Apply(s, steps[0]), steps[1..]);
    }
  }

  // Every request polled until it is answered has run the function it was due
  // exactly once, or none where it was due none, has gone from idle through
  // queued and processed back to idle, and is answered with that run's outcome.
  // Which function is due follows from the requests before it.
  lemma AnswersAreExact(s: State, steps: seq<Step>, k: nat)
    requires Initial(s) && Follows(s, steps) && k < |Run(s, steps).answers|
    ensures Run(s, steps).app == s.app
    ensures Run(s, steps).firstAction == s.action && Run(s, steps).firstTransform == s.transform
    ensures Exact(Run(s, steps), Run(s, steps).answers[k])
    ensures forall j :: 0 <= j < k ==> |Run(s, steps).answers[j].earlier| < |Run(s, steps).answers[k].earlier|
  {
    RunKeepsInv(s, steps);
  }

  // The two assertions of the handshake: the worker wakes up to a queued
  // request, and a new request finds no callback left over.
  lemma HandshakeAssertionsHold(s: State, steps: seq<Step>)
    requires Initial(s) && Follows(s, steps)
    ensures var t := Run(s, steps);
            && (t.worker == Acquired ==> t.status == Queued && t.callback.Some?)
            && (t.status == Idle ==> t.callback == None)
            && t.semaphore <= 1
  {
    RunKeepsInv(s, steps);
  }

  // A request in flight is a request still polled, and the worker never works
  // on a request that has already been answered.
  lemma WorkerOnlyWhileQueued(s: State, steps: seq<Step>)
    requires Initial(s) && Follows(s, steps)
    ensures var t := Run(s, steps);
            t.worker != Waiting ==> t.status == Queued && t.pending.Some? && t.semaphore == 0 && t.poller == Ready
  {
    RunKeepsInv(s, steps);
  }

  // ------------------------------------------------- a missing function

  lemma {:induction false} Extend(s: State, steps: seq<Step>, step: Step) returns (more: seq<Step>)
    requires Follows(s, steps) && Enabled(Run(s, steps), step)
    ensures Follows(s, more) && Run(s, more) == Apply(Run(s, steps), step) && |more| == |steps| + 1
    decreases |steps|
  {
    if steps == [] {
      more := [step];
    } else {
      var rest := Extend(Apply(s, steps[0]), steps[1..], step);
      more := [steps[0]] + rest;
    }
  }

  // The application has one of the two functions for setting elements only, and
  // the requests can ask for the other.
  predicate Hazardous(s: State) {
    && SetElement in s.app && SetAndTransformElement !in s.app
    && (StartAction in s.app || (s.action == Set && s.transform))
  }

  ghost predicate WorkerCanDie(s: State) {
    exists steps :: Follows(s, steps) && Run(s, steps).worker == Dead
  }

  // The handler looks for `set_element` but selects `set_and_transform_element`
  // where values are to be transformed. The worker's assertion that its function
  // is present can fail exactly in an application that supplies the first alone
  // and either starts actions or begins with such an action in force.
  lemma WorkerDiesExactly(s: State)
    requires Initial(s)
    ensures WorkerCanDie(s) <==> Hazardous(s)
  {
    if Hazardous(s) {
      var steps := DeadlyRun(s);
    } else {
      forall steps | Follows(s, steps)
        ensures Run(s, steps).worker != Dead
      {
        HarmlessLives(s, steps);
      }
    }
  }

  // One element request, if the action in force is to set transformed values.
  lemma DeadlyElement(s: State, steps: seq<Step>) returns (more: seq<Step>)
    requires Inv(s) && Follows(s, steps)
    requires var t := Run(s, steps);
             && t.status == Idle && t.poller == Ready && t.worker == Waiting && t.semaphore == 0
             && t.action == Set && t.transform && SetElement in t.app && SetAndTransformElement !in t.app
    ensures Follows(s, more) && Run(s, more).worker == Dead
  {
    RunKeepsInv(s, steps);
    more := Extend(s, steps, Poll(Request(ElementProcess, 0, 0)));
    more := Extend(s, more, Release);
    more := Extend(s, more, Acquire);
    more := Extend(s, more, Begin);
  }

  lemma DeadlyRun(s: State) returns (steps: seq<Step>)
    requires Initial(s) && Hazardous(s)
    ensures Follows(s, steps) && Run(s, steps).worker == Dead
  {
    steps := [];
    if StartAction in s.app {
      var start := Request(ActionStart(Set, true, true), 0, 0);
      steps := Extend(s, steps, Poll(start));
      steps := Extend(s, steps, Release);
      steps := Extend(s, steps, Acquire);
      steps := Extend(s, steps, Begin);
      steps := Extend(s, steps, Finish(Outcome(0, 0, 0)));
      steps := Extend(s, steps, Mark);
      steps := Extend(s, steps, Poll(start));
    }
    steps := DeadlyElement(s, steps);
  }

  predicate Harmless(s: State) {
    || SetElement !in s.app
    || SetAndTransformElement in s.app
    || (StartAction !in s.app && !(s.action == Set && s.transform))
  }

  lemma HarmlessStep(s: State, step: Step)
    requires Handshake(s) && Selected(s) && Harmless(s) && Enabled(s, step)
    requires s.callback == Some(SetAndTransformElement) ==> SetAndTransformElement in s.app
    requires s.worker != Dead
    ensures var t := Apply(s, step);
            && Harmless(t) && t.worker != Dead
            && (t.callback == Some(SetAndTransformElement) ==> SetAndTransformElement in t.app)
  {
  }

  lemma {:induction false} HarmlessLives(s: State, steps: seq<Step>)
    requires Inv(s) && Harmless(s) && Follows(s, steps)
    requires s.callback == Some(SetAndTransformElement) ==> SetAndTransformElement in s.app
    requires s.worker != Dead
    ensures Run(s, steps).worker != Dead
    decreases |steps|
  {
    if steps == [] {
    } else {
      StepKeepsInv(s, steps[0]);
      HarmlessStep(s, steps[0]);
      hide Inv, Harmless;
      HarmlessLives(Apply(s, steps[0]), steps[1..]);
    }
  }

  // From then on the request is answered busy for ever, however often it is
  // polled, and no request is answered any more.
  lemma {:induction false} DeadMeansBusyForEver(s: State, steps: seq<Step>)
    requires Inv(s) && s.worker == Dead && Follows(s, steps)
    ensures var t := Run(s, steps);
            && t.worker == Dead && t.status == Queued && t.answers == s.answers
            && (steps != [] ==> t.reply == Busy)
    decreases |steps|
  {
    if steps == [] {
    } else {
      var t := Apply(s, steps[0]);
      StepKeepsInv(s, steps[0]);
      assert t == s.(reply := Busy);
      DeadMeansBusyForEver(t, steps[1..]);
    }
  }

  // ------------------------------------------------- a cancel too early

  // The worker wakes to no queued request, or an answer is not exact.
  predicate Spoiled(s: State) {
    (s.worker == Acquired && s.status != Queued) || !Answered(s)
  }

  // CCFSM makes no new request before the worker is through with the old one.
  predicate Careful(s: State, steps: seq<Step>)
    requires Follows(s, steps)
    decreases |steps|
  {
    steps == [] ||
    ((steps[0].Poll? && s.status == Idle ==> s.worker == Waiting) && Careful(Apply(s, steps[0]), steps[1..]))
  }

  ghost predicate CanBeSpoiled(s: State) {
    exists steps :: Follows(s, steps) && Careful(s, steps) && Spoiled(Run(s, steps))
  }

  // The worker is at work for a request that was cancelled; all else is as it
  // should be.
  predicate Leftover(s: State) {
    && (s.worker.Calling? || s.worker == Returned) && s.status != Queued
    && (s.worker.Calling? ==> s.pending == None)
    && Inv(s.(worker := Waiting))
  }

  lemma LeftoverStep(s: State, step: Step)
    requires Leftover(s) && Enabled(s, step) && (step.Poll? ==> s.status != Idle)
    ensures Inv(Apply(s, step)) || Leftover(Apply(s, step))
  {
    var rested := s.(worker := Waiting);
    if step.Finish? {
      FinishLeaves(s, step.outcome);
    } else if step.Mark? {
      assert Apply(s, step) == rested;
    } else {
      StepKeepsInv(rested, step);
      assert Apply(s, step).(worker := Waiting) == Apply(rested, step);
    }
  }

  // What a stale function leaves in the record, no request is in flight to see.
  lemma FinishLeaves(s: State, outcome: Outcome)
    requires Leftover(s) && s.worker.Calling?
    ensures Leftover(FinishStep(s, outcome))
  {
    var rested, t := s.(worker := Waiting), FinishStep(s, outcome);
    SameAnswers(rested, t);
  }

  lemma {:induction false} CarefulIsNotSpoiled(s: State, steps: seq<Step>)
    requires (Inv(s) || Leftover(s)) && Follows(s, steps) && Careful(s, steps)
    ensures !Spoiled(Run(s, steps))
    decreases |steps|
  {
    if steps == [] {
    } else {
      if Inv(s) {
        StepKeepsInv(s, steps[0]);
      } else {
        LeftoverStep(s, steps[0]);
      }
      hide Inv, Leftover;
      CarefulIsNotSpoiled(Apply(s, steps[0]), steps[1..]);
    }
  }

  lemma CancelLeaves(s: State)
    requires Inv(s) && s.poller == Ready
    ensures s.status != Queued ==> Inv(CancelStep(s))
    ensures s.worker.Calling? || s.worker == Returned ==> Leftover(CancelStep(s))
    ensures s.status == Queued ==> !Inv(CancelStep(s))
  {
    SameAnswers(s, CancelStep(s));
  }

  // A session may be cancelled at any time. As long as CCFSM waits for the worker
  // before it makes a new request, that does harm exactly if a request is queued
  // whose function has not been called yet: the worker will look for it.
  lemma CancelHarmsExactly(s: State)
    requires Inv(s) && s.poller == Ready && s.worker != Dead
    ensures CanBeSpoiled(CancelStep(s)) <==> s.status == Queued && (s.worker == Waiting || s.worker == Acquired)
  {
    var t := CancelStep(s);
    CancelLeaves(s);
    if s.status == Queued && (s.worker == Waiting || s.worker == Acquired) {
      var steps := if s.worker == Waiting then [Acquire] else [];
      assert s.worker == Waiting ==> Enabled(t, Acquire) && Follows(Apply(t, Acquire), []);
      assert Follows(t, steps) && Careful(t, steps) && Spoiled(Run(t, steps));
    } else {
      forall steps | Follows(t, steps) && Careful(t, steps)
        ensures !Spoiled(Run(t, steps))
      {
        CarefulIsNotSpoiled(t, steps);
      }
    }
  }

  // A request accepted while the worker is still at work for the cancelled one is
  // spoiled exactly if it has a function of its own, or the old function has yet to
  // return.
  lemma EarlyRequestIsSpoiledExactly(s: State, request: Request)
    requires Leftover(s) && s.status == Idle && s.poller == Ready
    ensures CanBeSpoiled(PollStep(s, request))
       <==> s.worker.Calling? || Select(s.app, s.action, s.transform, request.kind).Some?
  {
    var t := PollStep(s, request);
    if t.selected.Some? {
      var steps := StaleWorkerWakes(t, request);
    } else if s.worker.Calling? {
      var steps := StaleOutcomeIsAnswered(t, request);
    } else {
      UnservedRequestIsSafe(s, request);
      forall steps | Follows(t, steps) && Careful(t, steps)
        ensures !Spoiled(Run(t, steps))
      {
        CarefulIsNotSpoiled(t, steps);
      }
    }
  }

  lemma UnservedRequestIsSafe(s: State, request: Request)
    requires Leftover(s) && s.status == Idle && s.poller == Ready && s.worker == Returned
    requires Select(s.app, s.action, s.transform, request.kind).None?
    ensures Leftover(PollStep(s, request))
  {
    StepKeepsInv(s.(worker := Waiting), Poll(request));
  }

  lemma CarefulExtend(s: State, steps: seq<Step>, step: Step) returns (more: seq<Step>)
    requires Follows(s, steps) && Careful(s, steps) && Enabled(Run(s, steps), step)
    requires step.Poll? ==> Run(s, steps).status != Idle
    ensures Follows(s, more) && Careful(s, more) && Run(s, more) == Apply(Run(s, steps), step)
    decreases |steps|
  {
    if steps == [] {
      more := [step];
    } else {
      var rest := CarefulExtend(Apply(s, steps[0]), steps[1..], step);
      more := [steps[0]] + rest;
    }
  }

  // The stale worker marks the new request processed, and wakes again for it when
  // it has long been answered.
  lemma StaleWorkerWakes(s: State, request: Request) returns (steps: seq<Step>)
    requires (s.worker.Calling? || s.worker == Returned) && s.status == Queued && s.poller == Posting
    requires s.pending == Some(request) && s.semaphore == 0
    ensures Follows(s, steps) && Careful(s, steps) && Spoiled(Run(s, steps))
  {
    steps := [];
    if s.worker.Calling? {
      steps := CarefulExtend(s, steps, Finish(Outcome(0, 0, 0)));
    }
    steps := CarefulExtend(s, steps, Mark);
    steps := CarefulExtend(s, steps, Release);
    steps := CarefulExtend(s, steps, Poll(request));
    steps := CarefulExtend(s, steps, Acquire);
  }

  // What the stale function leaves is taken for the new request's outcome.
  lemma StaleOutcomeIsAnswered(s: State, request: Request) returns (steps: seq<Step>)
    requires s.worker.Calling? && s.status == Processed && s.poller == Ready
    requires s.pending == Some(request) && s.selected.None?
    ensures Follows(s, steps) && Careful(s, steps) && Spoiled(Run(s, steps))
  {
    steps := CarefulExtend(s, [], Finish(Outcome(NO_ERROR + 1, 0, 0)));
    steps := CarefulExtend(s, steps, Poll(request));
    var t := Run(s, steps);
    assert !Exact(t, t.answers[|t.answers| - 1]);
  }

  lemma AtRestWhenUnqueued(s: State)
    requires Inv(s)
    ensures s.status != Queued ==> s.worker == Waiting && s.semaphore == 0
  {
  }

  // ------------------------------------------------------------ progress

  // Steps between a queued request and its being processed.
  function Remaining(s: State): nat {
    if s.status != Queued then 0
    else if s.poller == Posting then 5
    else match s.worker
         case Waiting => 4
         case Acquired => 3
         case Calling(_) => 2
         case Returned => 1
         case Dead => 0
  }

  // While a request is queued a poll changes nothing, and every other step
  // brings its end nearer: that is processed, or a worker that died because the
  // function is missing.
  lemma BusyMeansProgress(s: State, step: Step)
    requires Inv(s) && s.status == Queued && Enabled(s, step)
    ensures step.Poll? ==> Apply(s, step) == s.(reply := Busy)
    ensures !step.Poll? ==> Remaining(Apply(s, step)) < Remaining(s)
    ensures var t := Apply(s, step);
            Remaining(t) == 0 ==> if t.status == Processed then t.worker == Waiting else t.worker == Dead
    ensures var t := Apply(s, step);
            t.worker == Dead && s.worker != Dead <==> step.Begin? && s.callback.value !in s.app
  {
  }

  function Effective(steps: seq<Step>): nat {
    if steps == [] then 0 else (if steps[0].Poll? then 0 else 1) + Effective(steps[1..])
  }

  // A run through which the request stays queued.
  predicate StaysQueued(s: State, steps: seq<Step>)
    decreases |steps|
  {
    s.status == Queued && (steps == [] || (Enabled(s, steps[0]) && StaysQueued(Apply(s, steps[0]), steps[1..])))
  }

  // However often it is polled, a request stays queued for at most five steps
  // that are not polls.
  lemma {:induction false} WaitIsBounded(s: State, steps: seq<Step>)
    requires Inv(s) && StaysQueued(s, steps)
    ensures Effective(steps) <= Remaining(s) <= 5
    decreases |steps|
  {
    if steps == [] {
    } else {
      StepKeepsInv(s, steps[0]);
      BusyMeansProgress(s, steps[0]);
      WaitIsBounded(Apply(s, steps[0]), steps[1..]);
    }
  }

  // A queued request whose function is supplied can be answered: some run of at
  // most six steps, the last of them a poll, answers it.
  lemma {:induction false} RequestCanBeAnswered(s: State) returns (steps: seq<Step>)
    requires Inv(s) && s.status != Idle && (s.callback.Some? ==> s.callback.value in s.app)
    ensures Follows(s, steps) && |steps| <= Remaining(s) + 1
    ensures Run(s, steps).reply == Continue && Run(s, steps).status == Idle
    ensures |Run(s, steps).answers| == |s.answers| + 1
    decreases Remaining(s)
  {
    if s.status == Processed {
      steps := [Poll(s.pending.value)];
      assert Follows(Apply(s, steps[0]), []);
    } else {
      var step := NextStep(s);
      BusyMeansProgress(s, step);
      StepKeepsInv(s, step);
      var rest := RequestCanBeAnswered(Apply(s, step));
      steps := [step] + rest;
    }
  }

  lemma NextStep(s: State) returns (step: Step)
    requires Inv(s) && s.status == Queued && s.worker != Dead
    ensures Enabled(s, step) && !step.Poll? && !step.Cancel?
  {
    if s.poller == Posting {
      step := Release;
    } else {
      step := match s.worker
        case Waiting => Acquire
        case Acquired => Begin
        case Calling(_) => Finish(Outcome(0, 0, 0))
        case _ => Mark;
    }
  }

  // What a poll means to its caller, in any reachable state.
  lemma PollMeans(s: State, request: Request)
    requires Inv(s) && Enabled(s, Poll(request))
    ensures s.status == Idle ==> s.callback == None
    ensures var t := PollStep(s, request);
            if s.status == Processed then
              && t.reply == Continue && |t.answers| == |s.answers| + 1
              && Exact(t, t.answers[|s.answers|]) && t.answers[|s.answers|].request == request
            else t.reply == Busy && t.answers == s.answers
  {
    PollKeepsInv(s, request);
  }

  // ---------------------------------------------------------------- the record

  // ccapi_data->service.rci, the worker's semaphore, and both program counters.
  // `model` is its state, history included; the record is always in a state the
  // invariant allows, and each contract says what that buys.
  class Service {
    const app: set<Entry>
    var status: Status
    var callback: Option<Entry>
    var error: int
    var context: int
    var hint: int
    var action: Action
    var transform: bool
    var semaphore: nat
    var poller: Poller
    var worker: Worker
    var reply: Reply
    ghost var model: State

    // The record's fields are the state's.
    ghost predicate Linked()
      reads this
    {
      && app == model.app && status == model.status && callback == model.callback && error == model.error
      && context == model.context && hint == model.hint && action == model.action && transform == model.transform
      && semaphore == model.semaphore && poller == model.poller && worker == model.worker && reply == model.reply
    }

    ghost predicate Valid()
      reads this
    {
      Linked() && Inv(model)
    }

    constructor (supplied: set<Entry>, firstAction: Action, firstTransform: bool)
      ensures Valid() && Initial(model) && app == supplied
      ensures model.action == firstAction && model.transform == firstTransform
    {
      app := supplied;
      status, callback, error, context, hint := Idle, None, NO_ERROR, 0, NO_HINT;
      action, transform := firstAction, firstTransform;
      semaphore, poller, worker, reply := 0, Ready, Waiting, Continue;
      model := State(supplied, Idle, None, NO_ERROR, 0, NO_HINT, firstAction, firstTransform, 0, Ready, Waiting,
                     Continue, firstAction, firstTransform, [], None, None, [], [], []);
    }

    method ClearCallback()
      modifies this`callback, this`error
      ensures callback == None && error == NO_ERROR
    {
      callback := None;
      error := NO_ERROR;
    }

    // ccapi_rci_handler, up to the release of the semaphore. The assertion on a
    // new request holds, and a processed request is answered exactly.
    method Handle(request: Request)
      requires Valid() && Enabled(model, Poll(request))
      modifies this
      ensures Valid() && model == PollStep(old(model), request)
      ensures old(status) == Idle ==> old(callback) == None
      ensures old(status) == Processed ==>
                && reply == Continue && |model.answers| == |old(model).answers| + 1
                && Exact(model, model.answers[|old(model).answers|])
                && model.answers[|old(model).answers|].request == request
      ensures old(status) != Processed ==> reply == Busy && model.answers == old(model).answers
    {
      PollMeans(model, request);
      hide Inv, Exact;
      match status {
        case Idle =>
          HandleNew(request);
        case Queued =>
          reply := Busy;
          model := model.(reply := Busy);
          assert Inv(model) by { StepKeepsInv(old(model), Poll(request)); }
        case Processed =>
          HandleProcessed(request);
      }
    }

    method HandleNew(request: Request)
      requires Valid() && Enabled(model, Poll(request)) && status == Idle
      modifies this
      ensures Valid() && model == PollStep(old(model), request)
    {
      StepKeepsInv(model, Poll(request));
      hide Inv;
      Take(request);
      model := PollStep(model, request);
    }

    method HandleProcessed(request: Request)
      requires Valid() && Enabled(model, Poll(request)) && status == Processed
      modifies this
      ensures Valid() && model == PollStep(old(model), request)
    {
      StepKeepsInv(model, Poll(request));
      hide Inv;
      ClearCallback();
      status, reply := Idle, Continue;
      model := PollStep(model, request);
    }

    method Take(request: Request)
      requires Linked() && poller == Ready
      modifies this`status, this`callback, this`error, this`context, this`hint, this`action, this`transform,
               this`poller, this`reply
      ensures status == Accept(model, request).status && callback == Accept(model, request).callback
      ensures error == NO_ERROR && context == request.context && hint == Accept(model, request).hint
      ensures action == Accept(model, request).action && transform == Accept(model, request).transform
      ensures poller == Accept(model, request).poller && reply == Busy
    {
      ClearCallback();
      context, hint := request.context, request.hint;
      SelectEntry(request.kind);
      if callback == None {
        status := Processed;
      } else {
        status := Queued;
        poller := Posting;
      }
      reply := Busy;
    }

    // The cases of the request switch.
    method SelectEntry(kind: Kind)
      requires callback == None
      modifies this`callback, this`action, this`transform, this`hint
      ensures callback == Select(app, old(action), old(transform), kind)
      ensures action == ActionAfter(app, old(action), kind)
      ensures transform == TransformAfter(app, old(transform), kind)
      ensures hint == if kind.SessionStart? && StartSession in app then NO_HINT else old(hint)
    {
      match kind {
        case SessionStart =>
          if StartSession in app {
            action := Query;
            hint := NO_HINT;
            callback := Some(StartSession);
          }
        case ActionStart(wanted, ofSettings, transformed) =>
          if StartAction in app {
            action := wanted;
            if action == Set && ofSettings {
              transform := transformed;
            }
            callback := Some(StartAction);
          }
        case ElementProcess =>
          if (action == Query && GetElement in app) || (action == Set && SetElement in app) {
            if action == Query {
              callback := Some(GetElement);
            } else if !transform {
              callback := Some(SetElement);
            } else {
              callback := Some(SetAndTransformElement);
            }
          }
        case Plain(entry) =>
          if entry in app {
            callback := Some(entry);
          }
      }
    }

    // The worker is woken for exactly one request, which is queued.
    method ReleaseLock()
      requires Valid() && poller == Posting
      modifies this
      ensures Valid() && model == ReleaseStep(old(model))
      ensures semaphore == 1 && worker == Waiting && status == Queued && callback.Some?
    {
      StepKeepsInv(model, Release);
      semaphore := semaphore + 1;
      poller := Ready;
      model := ReleaseStep(model);
    }

    // the session_cancel request: nothing is left of the request, neither in the
    // record nor with the worker, unless it was queued
    method CancelSession()
      requires Valid() && poller == Ready
      modifies this
      ensures Linked() && model == CancelStep(old(model)) && model.answers == old(model).answers
      ensures callback == None && status == Idle && reply == Continue
      ensures Valid() <==> old(status) != Queued
      ensures old(status) != Queued ==> worker == Waiting && semaphore == 0
      ensures old(worker).Calling? || old(worker) == Returned ==> Leftover(model)
      ensures old(worker) != Dead ==>
                (CanBeSpoiled(model) <==>
                 old(status) == Queued && (old(worker) == Waiting || old(worker) == Acquired))
    {
      CancelLeaves(model);
      if worker != Dead {
        CancelHarmsExactly(model);
      }
      hide Inv, Leftover, CanBeSpoiled;
      assert status != Queued ==> worker == Waiting && semaphore == 0 by { AtRestWhenUnqueued(model); }
      ClearCallback();
      status, reply := Idle, Continue;
      model := CancelStep(model);
    }

    // ccapi_rci_thread, piece by piece

    method WorkerAcquire()
      requires Valid() && worker == Waiting && 0 < semaphore
      modifies this
      ensures Valid() && model == AcquireStep(old(model))
      ensures status == Queued && callback.Some? && semaphore == 0
    {
      StepKeepsInv(model, Acquire);
      semaphore := semaphore - 1;
      worker := Acquired;
      model := AcquireStep(model);
    }

    // Only the assertion that the function is present can fail.
    method WorkerBegin()
      requires Valid() && worker == Acquired
      modifies this
      ensures Valid() && model == BeginStep(old(model))
      ensures status == Queued && callback.Some? && (worker == Dead <==> callback.value !in app)
      ensures worker != Dead ==> model.invoked == []
    {
      StepKeepsInv(model, Begin);
      if status != Queued || callback.None? || callback.value !in app {
        worker := Dead;
      } else {
        worker := Calling(callback.value);
      }
      model := BeginStep(model);
    }

    // The function has run once for this request, the first time.
    method WorkerFinish(outcome: Outcome)
      requires Valid() && worker.Calling?
      modifies this
      ensures Valid() && callback.Some? && model == FinishStep(old(model), outcome)
      ensures callback.value in app && model.pending.Some?
      ensures model.invoked == [Invocation(callback.value, Told(model, Earlier(model), model.pending.value), outcome)]
    {
      StepKeepsInv(model, Finish(outcome));
      context, hint := outcome.context, outcome.hint;
      error := outcome.error;
      worker := Returned;
      model := FinishStep(model, outcome);
    }

    // The request is still queued and becomes processed, its function having run
    // once and the record holding what it left.
    method WorkerMark()
      requires Valid() && worker == Returned
      modifies this
      ensures Valid() && model == MarkStep(old(model))
      ensures status == Processed && callback.Some?
      ensures model.pending.Some?
      ensures model.invoked == [Invocation(callback.value, Told(model, Earlier(model), model.pending.value),
                                           Outcome(error, context, hint))]
    {
      StepKeepsInv(model, Mark);
      if status == Queued {
        status := Processed;
      }
      worker := Waiting;
      model := MarkStep(model);
    }

    // Whichever step comes next.
    method Perform(step: Step)
      requires Valid() && Enabled(model, step)
      modifies this
      ensures Valid() && model == Apply(old(model), step)
    {
      hide Inv;
      match step {
        case Poll(request) => Handle(request);
        case Release => ReleaseLock();
        case Cancel => CancelSession();
        case Acquire => WorkerAcquire();
        case Begin => WorkerBegin();
        case Finish(outcome) => WorkerFinish(outcome);
        case Mark => WorkerMark();
      }
    }

    // Any schedule of the two threads' steps, from the start: the record goes
    // through the run of that schedule, and every request it answers is answered
    // exactly.
    method Drive(steps: seq<Step>)
      requires Valid() && Initial(model) && Follows(model, steps)
      modifies this
      ensures Valid() && model == Run(old(model), steps)
      ensures forall k :: 0 <= k < |model.answers| ==> Exact(model, model.answers[k])
    {
      var i := 0;
      while i < |steps|
        invariant i <= |steps| && Valid()
        invariant Follows(model, steps[i..]) && Run(model, steps[i..]) == Run(old(model), steps)
      {
        assert steps[i..][0] == steps[i] && steps[i..][1..] == steps[i + 1..];
        Perform(steps[i]);
        i := i + 1;
      }
    }
  }
}
