// Starting and stopping a worker thread: a status field and a semaphore, both
// polled and changed by two threads at once. Every atomic read or write is a
// step of its own, and a run interleaves the two threads' steps in any order.
// The worker may also leave its loop because one of its assertions fails.
module ThreadLifecycle {

  datatype Status = NotStarted | RequestStart | Running | RequestStop

  // Where the worker is. `Absent` before the thread is created; `Checking` is
  // past the second look at the status, before the callback.
  datatype Worker = Absent | Entering | Testing | Acquiring | Woken | Checking | InCallback | Leaving | Exited

  // Where the controlling thread is, in start and then in stop.
  datatype Control =
    | Creating | AwaitingStart | Started
    | TestingStatus | Requesting | Releasing | AwaitingExit | Destroying | Stopped

  datatype State = State(
    status: Status,
    semaphore: nat,
    worker: Worker,
    control: Control,
    destroyed: bool,
    // history
    callbacks: nat,
    posts: nat,         // times another thread handed the worker something
    acquires: nat,      // times the worker took the semaphore
    misuses: nat,       // operations on the semaphore after it was destroyed
    died: bool,         // an assertion of the worker failed
    lost: bool)         // the worker exited between stop's test and its request

  datatype Step =
    | Create | CheckStarted
    | BeginStop | TestStatus | Request | Release | CheckExited | Destroy
    | Enter | Test | Acquire | TestAgain | Call | Return | Die | Leave
    | Post              // another thread hands the worker something to do

  // ---------------------------------------------------------------- steps

  function Misuse(s: State): nat {
    s.misuses + if s.destroyed then 1 else 0
  }

  // The thread exists and may run before start returns.
  function CreateStep(s: State): State {
    s.(status := RequestStart, semaphore := 0, worker := Entering, control := AwaitingStart)
  }

  function CheckStartedStep(s: State): State {
    if s.status == RequestStart then s else s.(control := Started)
  }

  function BeginStopStep(s: State): State {
    s.(control := TestingStatus)
  }

  function TestStatusStep(s: State): State {
    s.(control := if s.status == Running then Requesting else Releasing)
  }

  function RequestStep(s: State): State {
    s.(status := RequestStop, control := Releasing)
  }

  function ReleaseStep(s: State): State {
    s.(semaphore := s.semaphore + 1, misuses := Misuse(s), control := AwaitingExit)
  }

  function CheckExitedStep(s: State): State {
    if s.status != NotStarted then s else s.(control := Destroying)
  }

  function DestroyStep(s: State): State {
    s.(destroyed := true, misuses := Misuse(s), control := Stopped)
  }

  function EnterStep(s: State): State {
    s.(status := Running, worker := Testing)
  }

  function TestStep(s: State): State {
    s.(worker := if s.status == Running then Acquiring else Leaving)
  }

  function AcquireStep(s: State): State
    requires 0 < s.semaphore
  {
    s.(semaphore := s.semaphore - 1, acquires := s.acquires + 1, misuses := Misuse(s), worker := Woken)
  }

  function TestAgainStep(s: State): State {
    s.(worker := if s.status != RequestStop then Checking else Testing)
  }

  function CallStep(s: State): State {
    s.(worker := InCallback, callbacks := s.callbacks + 1)
  }

  function ReturnStep(s: State): State {
    s.(worker := Testing)
  }

  // An assertion at the worker's entry or before its callback fails.
  function DieStep(s: State): State {
    s.(worker := Leaving, died := true)
  }

  function LeaveStep(s: State): State {
    s.(status := NotStarted, worker := Exited, lost := s.lost || s.control == Requesting)
  }

  function PostStep(s: State): State {
    s.(semaphore := s.semaphore + 1, posts := s.posts + 1, misuses := Misuse(s))
  }

  predicate Enabled(s: State, step: Step) {
    match step
    case Create => s.control == Creating
    case CheckStarted => s.control == AwaitingStart
    case BeginStop => s.control == Started
    case TestStatus => s.control == TestingStatus
    case Request => s.control == Requesting
    case Release => s.control == Releasing
    case CheckExited => s.control == AwaitingExit
    case Destroy => s.control == Destroying
    case Enter => s.worker == Entering
    case Test => s.worker == Testing
    case Acquire => s.worker == Acquiring && 0 < s.semaphore
    case TestAgain => s.worker == Woken
    case Call => s.worker == Checking
    case Return => s.worker == InCallback
    case Die => s.worker == Entering || s.worker == Checking
    case Leave => s.worker == Leaving
    // the threads that post are themselves stopped before the worker is
    case Post => s.control == Started
  }

  function Apply(s: State, step: Step): State
    requires Enabled(s, step)
  {
    match step
    case Create => CreateStep(s)
    case CheckStarted => CheckStartedStep(s)
    case BeginStop => BeginStopStep(s)
    case TestStatus => TestStatusStep(s)
    case Request => RequestStep(s)
    case Release => ReleaseStep(s)
    case CheckExited => CheckExitedStep(s)
    case Destroy => DestroyStep(s)
    case Enter => EnterStep(s)
    case Test => TestStep(s)
    case Acquire => AcquireStep(s)
    case TestAgain => TestAgainStep(s)
    case Call => CallStep(s)
    case Return => ReturnStep(s)
    case Die => DieStep(s)
    case Leave => LeaveStep(s)
    case Post => PostStep(s)
  }

  predicate OfWorker(step: Step) {
    step in {Enter, Test, Acquire, TestAgain, Call, Return, Die, Leave}
  }

  // ---------------------------------------------------------------- invariant

  predicate Initial(s: State) {
    && s.status == NotStarted && s.worker == Absent && s.control == Creating && !s.destroyed
    && s.callbacks == 0 && s.posts == 0 && s.acquires == 0 && s.misuses == 0 && !s.died && !s.lost
  }

  // The worker has exited, and the status will for ever say that it has not.
  predicate Hung(s: State) {
    s.worker == Exited && s.status == RequestStop && (s.control == Releasing || s.control == AwaitingExit)
  }

  // What the status says about the worker.
  predicate StatusTells(s: State) {
    match s.worker
    case Absent => s.control == Creating
    case Entering => s.status == RequestStart && s.control == AwaitingStart
    case Leaving => s.status == RequestStop || (s.died && s.status != NotStarted)
    case Exited => s.status == NotStarted || Hung(s)
    case _ => s.status == Running || s.status == RequestStop
  }

  // What the controlling thread may rely on.
  predicate ControlTells(s: State) {
    match s.control
    case Creating => s.worker == Absent
    case AwaitingStart => s.status == RequestStart || s.status == Running || (s.died && s.worker == Exited)
    case Started => s.status == Running || (s.died && s.worker == Exited)
    case TestingStatus => s.status == Running || (s.died && s.worker == Exited)
    case Requesting => s.status == Running || (s.lost && s.worker == Exited)
    case Releasing => s.status == RequestStop || s.status == NotStarted
    // a worker that still has to acquire finds the semaphore released
    case AwaitingExit =>
      (s.status == RequestStop || s.status == NotStarted) && (s.worker == Acquiring ==> 0 < s.semaphore)
    case Destroying => s.worker == Exited && s.status == NotStarted
    case Stopped => s.worker == Exited && s.status == NotStarted
  }

  // Which exits are lost: those of a worker that died, while stop was between
  // its test and its request.
  predicate LossTells(s: State) {
    && (s.lost ==> s.died && s.worker == Exited && (s.control == Requesting || Hung(s)))
    && (Hung(s) ==> s.lost)
    && (s.control == Requesting && s.worker == Exited ==> s.lost)
    && (s.status == RequestStart ==> s.control == AwaitingStart)
  }

  // Stop's one release, once it has come.
  function Releases(s: State): nat {
    if s.control == AwaitingExit || s.control == Destroying || s.control == Stopped then 1 else 0
  }

  // Callbacks that have started, and the one a worker past its second look at
  // the status may still start.
  function Committed(s: State): nat {
    s.callbacks + if s.worker == Checking then 1 else 0
  }

  // The semaphore counts what was posted and not yet taken, and no callback starts
  // that was not posted: the count of stop's release starts none.
  predicate Balanced(s: State) {
    && (s.control == Creating ==> s.posts == s.acquires == 0)
    && (s.control != Creating ==> s.semaphore + s.acquires == s.posts + Releases(s))
    && Committed(s) <= s.posts
    && (Releases(s) == 0 ==> Committed(s) + (if s.worker == Woken then 1 else 0) <= s.acquires)
  }

  predicate Inv(s: State) {
    && StatusTells(s) && ControlTells(s) && LossTells(s) && Balanced(s)
    && s.misuses == 0 && (s.destroyed <==> s.control == Stopped)
  }

  lemma StepKeepsInv(s: State, step: Step)
    requires Inv(s) && Enabled(s, step)
    ensures Inv(Apply(s, step))
  {
  }

  // ---------------------------------------------------------------- runs

  predicate Follows(s: State, steps: seq<Step>)
    decreases |steps|
  {
    steps == [] || (Enabled(s, steps[0]) && Follows(Apply(s, steps[0]), steps[1..]))
  }

  function Run(s: State, steps: seq<Step>): State
    requires Follows(s, steps)
    decreases |steps|
  {
    if steps == [] then s else Run(Apply(s, steps[0]), steps[1..])
  }

  lemma {:induction false} RunKeepsInv(s: State, steps: seq<Step>)
    requires Inv(s) && Follows(s, steps)
    ensures Inv(Run(s, steps))
    decreases |steps|
  {
    if steps == [] {
    } else {
      StepKeepsInv(s, steps[0]);
      RunKeepsInv(Apply(s, steps[0]), steps[1..]);
    }
  }

  // When stop has returned the worker has left its loop for good: nothing the
  // two threads can still do starts a callback, and no operation ever touched
  // the semaphore after it was destroyed.
  lemma StoppedMeansQuiet(s: State, steps: seq<Step>, more: seq<Step>)
    requires Initial(s) && Follows(s, steps) && Run(s, steps).control == Stopped
    requires Follows(Run(s, steps), more)
    ensures Run(s, steps).worker == Exited && Run(s, steps).destroyed
    ensures more == [] && Run(s, steps).misuses == 0
  {
    RunKeepsInv(s, steps);
    if more != [] {
      assert false;
    }
  }

  // Over every run the worker starts no more callbacks than it was posted.
  lemma CallbacksWerePosted(s: State, steps: seq<Step>)
    requires Initial(s) && Follows(s, steps)
    ensures var t := Run(s, steps);
            && t.callbacks <= t.posts
            && (t.control != Creating ==> t.semaphore + t.acquires == t.posts + Releases(t))
  {
    RunKeepsInv(s, steps);
  }

  // The worker's closing assertion: its loop ends only when it is asked to stop.
  lemma LoopEndsWhenAsked(s: State, steps: seq<Step>)
    requires Initial(s) && Follows(s, steps)
    requires Run(s, steps).worker == Testing && Run(s, steps).status != Running
    ensures Run(s, steps).status == RequestStop
  {
    RunKeepsInv(s, steps);
  }

  // Start returns only when the worker runs or has failed an assertion, so a
  // stop request cannot be overwritten by a worker that is only just entering.
  lemma StartedMeansRunning(s: State, steps: seq<Step>)
    requires Initial(s) && Follows(s, steps)
    requires Run(s, steps).control == Started || Run(s, steps).control == TestingStatus
    ensures var t := Run(s, steps);
            if t.status == Running then t.worker !in {Absent, Entering, Exited}
            else t.died && t.worker == Exited && t.status == NotStarted
  {
    RunKeepsInv(s, steps);
  }

  predicate StopRequested(s: State) {
    s.control == Releasing || s.control == AwaitingExit || s.control == Destroying || s.control == Stopped
  }

  // From the moment the stop is requested no callback starts, except the one to
  // which a worker past its second look is already committed.
  lemma {:induction false} NoCallbackOnceRequested(s: State, steps: seq<Step>)
    requires Inv(s) && StopRequested(s) && Follows(s, steps)
    ensures StopRequested(Run(s, steps))
    ensures s.callbacks <= Run(s, steps).callbacks <= Committed(Run(s, steps)) <= Committed(s)
    decreases |steps|
  {
    if steps == [] {
    } else {
      StepKeepsInv(s, steps[0]);
      NoCallbackOnceRequested(Apply(s, steps[0]), steps[1..]);
    }
  }

  // ---------------------------------------------------------------- stopping

  // Steps the worker still takes once it has been asked to stop and released.
  function Remaining(s: State): nat {
    match s.worker
    case Acquiring => 6
    case Woken => 5
    case Checking => 4
    case InCallback => 3
    case Testing => 2
    case Leaving => 1
    case _ => 0
  }

  // The worker is never blocked, every step of its own brings it nearer to its
  // exit, and nothing else moves it away.
  lemma StopProgress(s: State, step: Step)
    requires Inv(s) && s.control == AwaitingExit && Enabled(s, step)
    ensures OfWorker(step) ==> Remaining(Apply(s, step)) < Remaining(s) && Apply(s, step).control == AwaitingExit
    ensures !OfWorker(step) ==> Apply(s, step) == if Remaining(s) == 0 && !s.lost then s.(control := Destroying) else s
  {
  }

  lemma WorkerNotBlocked(s: State) returns (step: Step)
    requires Inv(s) && s.control == AwaitingExit && s.worker != Exited
    ensures OfWorker(step) && Enabled(s, step) && 0 < Remaining(s)
  {
    step := match s.worker
      case Acquiring => Acquire
      case Woken => TestAgain
      case Checking => Call
      case InCallback => Return
      case Testing => Test
      case _ => Leave;
  }

  function WorkerSteps(steps: seq<Step>): nat {
    if steps == [] then 0 else (if OfWorker(steps[0]) then 1 else 0) + WorkerSteps(steps[1..])
  }

  // Wherever the worker was when stop was requested: it takes at most six more
  // steps.
  lemma {:induction false} WorkerStepsAreBounded(s: State, steps: seq<Step>)
    requires Inv(s) && s.control == AwaitingExit && Follows(s, steps)
    requires Run(s, steps).control == AwaitingExit
    ensures WorkerSteps(steps) + Remaining(Run(s, steps)) <= Remaining(s) <= 6
    decreases |steps|
  {
    if steps == [] {
    } else {
      var t := Apply(s, steps[0]);
      StepKeepsInv(s, steps[0]);
      StopProgress(s, steps[0]);
      if t.control == Destroying {
        DestroyingGoesOn(t, steps[1..]);
      } else {
        WorkerStepsAreBounded(t, steps[1..]);
      }
    }
  }

  lemma {:induction false} DestroyingGoesOn(s: State, steps: seq<Step>)
    requires Inv(s) && (s.control == Destroying || s.control == Stopped) && Follows(s, steps)
    ensures Run(s, steps).control == Destroying || Run(s, steps).control == Stopped
    decreases |steps|
  {
    if steps == [] {
    } else {
      StepKeepsInv(s, steps[0]);
      DestroyingGoesOn(Apply(s, steps[0]), steps[1..]);
    }
  }

  // Unless the worker's exit was lost, stop can be brought to its end.
  lemma {:induction false} StopCanEnd(s: State) returns (steps: seq<Step>)
    requires Inv(s) && s.control == AwaitingExit && !s.lost
    ensures Follows(s, steps) && |steps| <= Remaining(s) + 2 && Run(s, steps).control == Stopped
    decreases Remaining(s)
  {
    if s.worker == Exited {
      var t := Apply(s, CheckExited);
      assert Follows(t, [Destroy]) && Run(t, [Destroy]) == DestroyStep(t);
      steps := [CheckExited, Destroy];
    } else {
      var step := WorkerNotBlocked(s);
      StopProgress(s, step);
      StepKeepsInv(s, step);
      var rest := StopCanEnd(Apply(s, step));
      steps := [step] + rest;
    }
  }

  lemma {:induction false} LostIsForEver(s: State, steps: seq<Step>)
    requires Inv(s) && s.control == AwaitingExit && s.lost && Follows(s, steps)
    ensures Run(s, steps) == s
    decreases |steps|
  {
    if steps == [] {
    } else {
      assert Apply(s, steps[0]) == s;
      LostIsForEver(s, steps[1..]);
    }
  }

  ghost predicate CanStop(s: State) {
    exists steps :: Follows(s, steps) && Run(s, steps).control == Stopped
  }

  // Over every run: once stop waits for the worker, it can come to its end
  // exactly when the worker did not exit between stop's test and its request,
  // and only a worker whose assertion failed does that.
  lemma StopEndsExactly(s: State, steps: seq<Step>)
    requires Initial(s) && Follows(s, steps) && Run(s, steps).control == AwaitingExit
    ensures CanStop(Run(s, steps)) <==> !Run(s, steps).lost
    ensures Run(s, steps).lost ==> Run(s, steps).died
  {
    RunKeepsInv(s, steps);
    var t := Run(s, steps);
    if t.lost {
      forall more | Follows(t, more)
        ensures Run(t, more).control == AwaitingExit
      {
        LostIsForEver(t, more);
      }
    } else {
      var more := StopCanEnd(t);
    }
  }

  lemma {:induction false} Extend(s: State, steps: seq<Step>, step: Step) returns (more: seq<Step>)
    requires Follows(s, steps) && Enabled(Run(s, steps), step)
    ensures Follows(s, more) && Run(s, more) == Apply(Run(s, steps), step)
    decreases |steps|
  {
    if steps == [] {
      more := [step];
    } else {
      var rest := Extend(Apply(s, steps[0]), steps[1..], step);
      more := [steps[0]] + rest;
    }
  }

  // It does happen: the worker fails an assertion, stop still sees it running,
  // the worker exits, and stop overwrites the status the worker has left.
  lemma StopCanHang(s: State) returns (steps: seq<Step>)
    requires Initial(s)
    ensures Follows(s, steps) && Run(s, steps).control == AwaitingExit && Run(s, steps).lost
  {
    steps := [];
    steps := Extend(s, steps, Create);
    steps := Extend(s, steps, Enter);
    steps := Extend(s, steps, CheckStarted);
    steps := Extend(s, steps, Post);
    steps := Extend(s, steps, Test);
    steps := Extend(s, steps, Acquire);
    steps := Extend(s, steps, TestAgain);
    steps := Extend(s, steps, Die);
    steps := Extend(s, steps, BeginStop);
    steps := Extend(s, steps, TestStatus);
    steps := Extend(s, steps, Leave);
    steps := Extend(s, steps, Request);
    steps := Extend(s, steps, Release);
  }

  // ---------------------------------------------------------------- the record

  // ccapi_thread_info_t, shared by the two threads, with their program counters.
  // `model` is its state, history included; the record is always in a state the
  // invariant allows, and each contract says what that buys.
  class ThreadInfo {
    var status: Status
    var semaphore: nat
    var destroyed: bool
    var worker: Worker
    var control: Control
    ghost var model: State

    ghost predicate Valid()
      reads this
    {
      && status == model.status && semaphore == model.semaphore && destroyed == model.destroyed
      && worker == model.worker && control == model.control
      && Inv(model)
    }

    constructor ()
      ensures Valid() && Initial(model)
    {
      status, semaphore, destroyed := NotStarted, 0, false;
      worker, control := Absent, Creating;
      model := State(NotStarted, 0, Absent, Creating, false, 0, 0, 0, 0, false, false);
    }

    // ccapi_create_and_start_thread, up to the creation of the thread
    method CreateThread()
      requires Valid() && control == Creating
      modifies this
      ensures Valid() && model == CreateStep(old(model))
      ensures status == RequestStart && worker == Entering && !destroyed && semaphore == 0
    {
      StepKeepsInv(model, Create);
      semaphore := 0;
      status := RequestStart;
      worker := Entering;
      control := AwaitingStart;
      model := CreateStep(model);
    }

    // One turn of the loop that waits for the worker: start returns only once the
    // worker runs, or has failed an assertion.
    method CheckStarted()
      requires Valid() && control == AwaitingStart
      modifies this
      ensures Valid() && model == CheckStartedStep(old(model))
      ensures control == Started ==> worker !in {Absent, Entering}
      ensures control == Started ==> status == Running || (worker == Exited && model.died)
    {
      StepKeepsInv(model, Step.CheckStarted);
      if status != RequestStart {
        control := Started;
      }
      model := CheckStartedStep(model);
    }

    // ccapi_stop_thread

    method BeginStop()
      requires Valid() && control == Started
      modifies this
      ensures Valid() && model == BeginStopStep(old(model))
      ensures status == Running || (worker == Exited && model.died)
    {
      StepKeepsInv(model, Step.BeginStop);
      control := TestingStatus;
      model := BeginStopStep(model);
    }

    // No request is made only of a worker that is already gone.
    method TestStatus()
      requires Valid() && control == TestingStatus
      modifies this
      ensures Valid() && model == TestStatusStep(old(model))
      ensures control == Releasing ==> worker == Exited && status == NotStarted
    {
      StepKeepsInv(model, Step.TestStatus);
      if status == Running {
        control := Requesting;
      } else {
        control := Releasing;
      }
      model := TestStatusStep(model);
    }

    // The request is lost on a worker that exited since the test, and then the
    // status will never say that it has.
    method RequestStop()
      requires Valid() && control == Requesting
      modifies this
      ensures Valid() && model == RequestStep(old(model))
      ensures Hung(model) <==> old(worker) == Exited
    {
      StepKeepsInv(model, Request);
      status := Status.RequestStop;
      control := Releasing;
      model := RequestStep(model);
    }

    // A worker that still has to acquire is not left waiting.
    method Release()
      requires Valid() && control == Releasing
      modifies this
      ensures Valid() && model == ReleaseStep(old(model))
      ensures worker == Acquiring ==> 0 < semaphore
      ensures !destroyed
    {
      StepKeepsInv(model, Step.Release);
      semaphore := semaphore + 1;
      control := AwaitingExit;
      model := ReleaseStep(model);
    }

    // One turn of the loop that waits for the worker to exit: it ends exactly when
    // the worker has, unless its exit was lost.
    method CheckExited()
      requires Valid() && control == AwaitingExit
      modifies this
      ensures Valid() && model == CheckExitedStep(old(model))
      ensures control == Destroying <==> worker == Exited && !model.lost
    {
      StepKeepsInv(model, Step.CheckExited);
      if status == NotStarted {
        control := Destroying;
      }
      model := CheckExitedStep(model);
    }

    // Nobody is left to use the semaphore.
    method DestroyLock()
      requires Valid() && control == Destroying
      modifies this
      ensures Valid() && model == DestroyStep(old(model))
      ensures worker == Exited && model.misuses == 0
    {
      StepKeepsInv(model, Destroy);
      destroyed := true;
      control := Stopped;
      model := DestroyStep(model);
    }

    // the worker's loop

    // Start is still waiting, so no stop request is overwritten.
    method Enter()
      requires Valid() && worker == Entering
      modifies this
      ensures Valid() && model == EnterStep(old(model))
      ensures control == AwaitingStart
    {
      StepKeepsInv(model, Step.Enter);
      status := Running;
      worker := Testing;
      model := EnterStep(model);
    }

    // The loop ends exactly when a stop was requested, which is the worker's
    // closing assertion.
    method Test()
      requires Valid() && worker == Testing
      modifies this
      ensures Valid() && model == TestStep(old(model))
      ensures worker == Leaving <==> status == Status.RequestStop
    {
      StepKeepsInv(model, Step.Test);
      if status == Running {
        worker := Acquiring;
      } else {
        worker := Leaving;
      }
      model := TestStep(model);
    }

    // The semaphore is still there.
    method Acquire()
      requires Valid() && worker == Acquiring && 0 < semaphore
      modifies this
      ensures Valid() && model == AcquireStep(old(model))
      ensures !destroyed && control != Stopped
    {
      StepKeepsInv(model, Step.Acquire);
      semaphore := semaphore - 1;
      worker := Woken;
      model := AcquireStep(model);
    }

    // Once a stop is requested the worker goes back to its loop without a callback.
    method TestAgain()
      requires Valid() && worker == Woken
      modifies this
      ensures Valid() && model == TestAgainStep(old(model))
      ensures StopRequested(model) ==> worker == Testing
      ensures Committed(model) <= Committed(old(model)) + if StopRequested(model) then 0 else 1
    {
      StepKeepsInv(model, Step.TestAgain);
      if status != Status.RequestStop {
        worker := Checking;
      } else {
        worker := Testing;
      }
      model := TestAgainStep(model);
    }

    // The callback the worker was committed to starts, and no other.
    method BeginCallback()
      requires Valid() && worker == Checking
      modifies this
      ensures Valid() && model == CallStep(old(model))
      ensures model.callbacks == old(Committed(model)) == Committed(model) <= model.posts
    {
      StepKeepsInv(model, Call);
      worker := InCallback;
      model := CallStep(model);
    }

    method Return()
      requires Valid() && worker == InCallback
      modifies this
      ensures Valid() && model == ReturnStep(old(model))
      ensures model.callbacks == Committed(model)
    {
      StepKeepsInv(model, Step.Return);
      worker := Testing;
      model := ReturnStep(model);
    }

    // An assertion fails: the worker jumps to its end without a callback.
    method FailAssertion()
      requires Valid() && (worker == Entering || worker == Checking)
      modifies this
      ensures Valid() && model == DieStep(old(model))
      ensures model.died && model.callbacks == old(model.callbacks) == Committed(model)
    {
      StepKeepsInv(model, Die);
      worker := Leaving;
      model := DieStep(model);
    }

    // The worker's last act. Its exit is lost exactly if stop is between its test
    // and its request, and only a worker that died can be that late.
    method Leave()
      requires Valid() && worker == Leaving
      modifies this
      ensures Valid() && model == LeaveStep(old(model))
      ensures model.lost <==> control == Requesting
      ensures model.lost ==> model.died
    {
      StepKeepsInv(model, Step.Leave);
      status := NotStarted;
      worker := Exited;
      model := LeaveStep(model);
    }

    // ccapi_lock_release by a thread with work for the worker
    method Post()
      requires Valid() && control == Started
      modifies this
      ensures Valid() && model == PostStep(old(model))
      ensures !destroyed && 0 < semaphore
    {
      StepKeepsInv(model, Step.Post);
      semaphore := semaphore + 1;
      model := PostStep(model);
    }

    // Whichever step comes next.
    method Perform(step: Step)
      requires Valid() && Enabled(model, step)
      modifies this
      ensures Valid() && model == Apply(old(model), step)
    {
      match step {
        case Create => CreateThread();
        case CheckStarted => CheckStarted();
        case BeginStop => BeginStop();
        case TestStatus => TestStatus();
        case Request => RequestStop();
        case Release => Release();
        case CheckExited => CheckExited();
        case Destroy => DestroyLock();
        case Enter => Enter();
        case Test => Test();
        case Acquire => Acquire();
        case TestAgain => TestAgain();
        case Call => BeginCallback();
        case Return => Return();
        case Die => FailAssertion();
        case Leave => Leave();
        case Post => Post();
      }
    }

    // Any schedule of the two threads' steps, from the start: the record goes
    // through the run of that schedule, and when stop has returned the worker is
    // gone and the semaphore was never used after it was destroyed.
    method Drive(steps: seq<Step>)
      requires Valid() && Initial(model) && Follows(model, steps)
      modifies this
      ensures Valid() && model == Run(old(model), steps)
      ensures control == Stopped ==> worker == Exited && destroyed && model.misuses == 0
      ensures model.callbacks <= model.posts
    {
      var i := 0;
      while i < |steps|
        invariant i <= |steps| && Valid()
        invariant Follows(model, steps[i..]) && Run(model, steps[i..]) == Run(old(model), steps)
      {
        assert steps[i..][0] == steps[i] && steps[i..][1..] == steps[i + 1..];
        Perform(steps[i]);
        i := i + 1;
      }
    }
  }
}
