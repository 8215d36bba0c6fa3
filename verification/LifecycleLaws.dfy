/** What registrations, calls, failures and shutdown requests amount to on every run of the state manager. */
module LifecycleLaws {
  import opened Prelude
  import opened Lifecycle

  // ---------- registrations ----------

  /** The stages in which a registration is accepted. */
  predicate InTime(kind: Kind, stage: Stage) {
    match kind
    case ForPrepare => stage in {Init, Prepare}
    case ForLaunch => stage in {Init, Prepare, ReadyToStart, Starting}
    case ForShutdown => stage != ReadyToStop
  }

  /** The callbacks of the first `n` steps that register for this kind in time, in order. */
  function RegisteredFor(run: seq<Manager>, steps: seq<Step>, kind: Kind, n: nat): seq<nat>
    requires n <= |steps| < |run|
  {
    if n == 0 then []
    else RegisteredFor(run, steps, kind, n - 1)
         + if steps[n - 1].Register? && steps[n - 1].kind == kind && InTime(kind, run[n - 1].stage)
           then [steps[n - 1].cb] else []
  }

  function QueueOf(m: Manager, kind: Kind): Queue {
    match kind
    case ForPrepare => m.prepare
    case ForLaunch => m.launch
    case ForShutdown => m.shutdown
  }

  lemma StepAccepts(m: Manager, a: Step, kind: Kind)
    requires Apply(m, a).Some?
    ensures QueueOf(Apply(m, a).value, kind).accepted == QueueOf(m, kind).accepted
      + if a.Register? && a.kind == kind && InTime(kind, m.stage) then [a.cb] else []
  {
  }

  /** On every run each queue has accepted exactly the callbacks that were registered for it in time, in
      the order of registration. */
  lemma {:induction false} AcceptedExactly(run: seq<Manager>, steps: seq<Step>, n: nat)
    requires IsRun(run, steps) && n <= |steps|
    ensures run[n].prepare.accepted == RegisteredFor(run, steps, ForPrepare, n)
    ensures run[n].launch.accepted == RegisteredFor(run, steps, ForLaunch, n)
    ensures run[n].shutdown.accepted == RegisteredFor(run, steps, ForShutdown, n)
  {
    if n > 0 {
      AcceptedExactly(run, steps, n - 1);
      assert StepsTo(run, steps, n - 1);
      StepAccepts(run[n - 1], steps[n - 1], ForPrepare);
      StepAccepts(run[n - 1], steps[n - 1], ForLaunch);
      StepAccepts(run[n - 1], steps[n - 1], ForShutdown);
    }
  }

  /** A registration can happen exactly while the thread inside `run` does not hold the mutex, or holds it
      for a callback that registers. */
  lemma RegistersExactly(m: Manager, kind: Kind, cb: nat)
    ensures Apply(m, Register(kind, cb)).Some? <==>
      m.place !in {Preparing, PopPrepare, Launching, PopLaunch, Stopping, PopShutdown}
  {
  }

  // ---------- calls ----------

  /** Callbacks to prepare or launch are called only in their own stage, those for shutdown always, each
      time the one at the front of the queue. */
  lemma CallsExactly(m: Manager, a: Step)
    requires Apply(m, a).Some?
    ensures var m' := Apply(m, a).value;
      && m'.prepare.called == m.prepare.called
         + (if a == PrepareTurn && m.prepare.waiting != [] && m.stage == Prepare then [m.prepare.waiting[0]] else [])
      && m'.launch.called == m.launch.called
         + (if a == LaunchTurn && m.launch.waiting != [] && m.stage == Starting then [m.launch.waiting[0]] else [])
      && m'.shutdown.called == m.shutdown.called
         + (if a == StopTurn && m.shutdown.waiting != [] then [m.shutdown.waiting[0]] else [])
  {
    CallsPrepare(m, a);
    CallsLaunch(m, a);
    CallsShutdown(m, a);
  }

  lemma CallsPrepare(m: Manager, a: Step)
    requires Apply(m, a).Some?
    ensures Apply(m, a).value.prepare.called == m.prepare.called
      + if a == PrepareTurn && m.prepare.waiting != [] && m.stage == Prepare then [m.prepare.waiting[0]] else []
  {
  }

  lemma CallsLaunch(m: Manager, a: Step)
    requires Apply(m, a).Some?
    ensures Apply(m, a).value.launch.called == m.launch.called
      + if a == LaunchTurn && m.launch.waiting != [] && m.stage == Starting then [m.launch.waiting[0]] else []
  {
  }

  lemma CallsShutdown(m: Manager, a: Step)
    requires Apply(m, a).Some?
    ensures Apply(m, a).value.shutdown.called == m.shutdown.called
      + if a == StopTurn && m.shutdown.waiting != [] then [m.shutdown.waiting[0]] else []
  {
  }

  // ---------- failures ----------

  /** A callback that fails shuts the manager down, and its queue remembers the failure. */
  lemma FailureShutsDown(run: seq<Manager>, steps: seq<Step>, n: nat)
    requires IsRun(run, steps) && n < |steps|
    ensures steps[n] == PrepareReturns(false) ==> run[n + 1].stage == ShuttingDown && !run[n + 1].prepare.succeeded
    ensures steps[n] == LaunchReturns(false) ==> run[n + 1].stage == ShuttingDown && !run[n + 1].launch.succeeded
  {
    AlwaysSound(run, steps, n);
    assert StepsTo(run, steps, n);
  }

  /** The manager is on its way out. */
  predicate Leaving(m: Manager) {
    m.stage == ShuttingDown || m.stage == ReadyToStop
  }

  lemma LeavingStep(m: Manager, a: Step)
    requires Sound(m) && Leaving(m) && Apply(m, a).Some?
    ensures var m' := Apply(m, a).value;
      Leaving(m') && m'.prepare.called == m.prepare.called && m'.launch.called == m.launch.called
  {
    CallsExactly(m, a);
  }

  /** Once the manager leaves, whether after a failure or a request, it never works again, and no further
      callback to prepare or launch is called. */
  lemma {:induction false} LeavingIsFinal(run: seq<Manager>, steps: seq<Step>, m: nat, n: nat)
    requires IsRun(run, steps) && m <= n <= |steps| && Leaving(run[m])
    ensures Leaving(run[n])
    ensures run[n].prepare.called == run[m].prepare.called && run[n].launch.called == run[m].launch.called
    decreases n
  {
    if m < n {
      LeavingIsFinal(run, steps, m, n - 1);
      AlwaysSound(run, steps, n - 1);
      assert StepsTo(run, steps, n - 1);
      LeavingStep(run[n - 1], steps[n - 1]);
    }
  }

  /** After a failed preparation no launch callback is ever called. */
  lemma FailedPreparationLaunchesNothing(run: seq<Manager>, steps: seq<Step>, m: nat, n: nat)
    requires IsRun(run, steps) && m < n <= |steps| && steps[m] == PrepareReturns(false)
    ensures run[n].launch.called == [] && Leaving(run[n])
  {
    FailureShutsDown(run, steps, m);
    LaunchFollowsPreparation(run, steps, m + 1);
    LeavingIsFinal(run, steps, m + 1, n);
  }

  /** What can make the manager leave: a stored request, or a callback that fails. */
  predicate IsReason(a: Step) {
    a == RequestStore || a == PrepareReturns(false) || a == LaunchReturns(false)
  }

  lemma LeavesStep(m: Manager, a: Step)
    requires Sound(m) && Apply(m, a).Some? && !Leaving(m) && Leaving(Apply(m, a).value)
    ensures IsReason(a)
  {
  }

  /** It does not leave without one. */
  lemma {:induction false} LeavesForAReason(run: seq<Manager>, steps: seq<Step>, n: nat)
    requires IsRun(run, steps) && n <= |steps| && Leaving(run[n])
    ensures exists j :: 0 <= j < n && IsReason(steps[j])
  {
    if n > 0 {
      AlwaysSound(run, steps, n - 1);
      assert StepsTo(run, steps, n - 1);
      if Leaving(run[n - 1]) {
        LeavesForAReason(run, steps, n - 1);
      } else {
        LeavesStep(run[n - 1], steps[n - 1]);
      }
    }
  }

  /** As long as nothing makes the manager leave, the stage is that of the place, and the thread is nowhere
      else: it prepares, launches and then works until it is asked to stop. */
  lemma StageFollowsPlace(run: seq<Manager>, steps: seq<Step>, n: nat)
    requires IsRun(run, steps) && n <= |steps| && forall j :: 0 <= j < n ==> !IsReason(steps[j])
    ensures match run[n].stage
            case Init => run[n].place == Idle
            case Prepare => run[n].place in {Preparing, InPrepare, PopPrepare}
            case ReadyToStart => run[n].place == BeforeLaunch
            case Starting => run[n].place in {Launching, InLaunch, PopLaunch}
            case Works => run[n].place in {AfterLaunch, Waiting}
            case _ => false
  {
    AlwaysSound(run, steps, n);
    if Leaving(run[n]) {
      LeavesForAReason(run, steps, n);
    }
  }

  // ---------- shutdown requests ----------

  /** A request gives up when it finds the manager ready to stop, then when it finds it shutting down, and
      otherwise stores the stage. */
  lemma RequestExactly(m: Manager)
    ensures Apply(m, RequestTest) == Some(if m.stage == ReadyToStop then m else m.(testing := m.testing + 1))
    ensures m.testing > 0 ==>
      Apply(m, RequestRetest) ==
      Some(m.(testing := m.testing - 1, requests := m.requests + if m.stage == ShuttingDown then 0 else 1))
    ensures m.requests > 0 ==> Apply(m, RequestStore) == Some(m.(requests := m.requests - 1, stage := ShuttingDown))
    ensures m.testing == 0 ==> Apply(m, RequestRetest).None?
    ensures m.requests == 0 ==> Apply(m, RequestStore).None?
  {
  }

  /** A manager that works leaves its wait only for a request that has stored the stage. */
  lemma WorksUntilRequested(run: seq<Manager>, steps: seq<Step>, n: nat)
    requires IsRun(run, steps) && n < |steps| && run[n].stage == Works && run[n + 1].stage != Works
    ensures steps[n] == RequestStore && run[n + 1].stage == ShuttingDown
  {
    AlwaysSound(run, steps, n);
    assert StepsTo(run, steps, n);
  }

  predicate Emptied(m: Manager) {
    m.place in {Stopping, InShutdown, PopShutdown, AtCheck, Done} ==>
      m.prepare.waiting == [] && m.launch.waiting == [] && Leaving(m)
  }

  lemma StopStepEmpties(m: Manager, a: Step)
    requires Sound(m) && Emptied(m) && StopStep(m, a).Some?
    ensures Emptied(StopStep(m, a).value)
  {
  }

  lemma OutsideStepEmpties(m: Manager, a: Step)
    requires Emptied(m) && OutsideStep(m, a).Some?
    ensures Emptied(OutsideStep(m, a).value)
  {
  }

  lemma StepEmpties(m: Manager, a: Step)
    requires Sound(m) && Emptied(m) && Apply(m, a).Some?
    ensures Emptied(Apply(m, a).value)
  {
    if StopStep(m, a).Some? {
      StopStepEmpties(m, a);
    } else if OutsideStep(m, a).Some? {
      OutsideStepEmpties(m, a);
    }
  }

  /** While shutdown callbacks are called and afterwards, nothing waits in the other two queues. */
  lemma {:induction false} OtherQueuesAreEmptied(run: seq<Manager>, steps: seq<Step>, n: nat)
    requires IsRun(run, steps) && n <= |steps|
    ensures run[n].place in {Stopping, InShutdown, PopShutdown, AtCheck, Done} ==>
      run[n].prepare.waiting == [] && run[n].launch.waiting == [] && Leaving(run[n])
  {
    if n > 0 {
      OtherQueuesAreEmptied(run, steps, n - 1);
      AlwaysSound(run, steps, n - 1);
      assert StepsTo(run, steps, n - 1);
      StepEmpties(run[n - 1], steps[n - 1]);
    }
  }
}
