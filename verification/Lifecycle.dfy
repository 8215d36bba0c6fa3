/** The application state manager: one thread inside `run`, callbacks that may register more
    callbacks, and shutdown requests from anywhere at any time. */
module Lifecycle {
  import opened Prelude

  datatype Stage = Init | Prepare | ReadyToStart | Starting | Works | ShuttingDown | ReadyToStop {
    function Rank(): nat {
      match this
      case Init => 0
      case Prepare => 1
      case ReadyToStart => 2
      case Starting => 3
      case Works => 4
      case ShuttingDown => 5
      case ReadyToStop => 6
    }
  }

  /** Where the thread inside `run` is. `Thrown` is a wrong-workflow exception. */
  datatype Place =
    | Idle
    | Preparing | InPrepare | PopPrepare
    | BeforeLaunch
    | Launching | InLaunch | PopLaunch
    | AfterLaunch | Waiting | BeforeStop
    | Stopping | InShutdown | PopShutdown
    | AtCheck | Done | Thrown

  datatype Kind = ForPrepare | ForLaunch | ForShutdown

  /** A queue with what was accepted into it, what has been called, and whether all calls succeeded. */
  datatype Queue = Queue(waiting: seq<nat>, accepted: seq<nat>, called: seq<nat>, succeeded: bool) {
    function Accept(cb: nat): Queue {
      this.(waiting := waiting + [cb], accepted := accepted + [cb])
    }

    function Call(): Queue
      requires waiting != []
    {
      this.(called := called + [waiting[0]])
    }

    function Pop(): Queue
      requires waiting != []
    {
      this.(waiting := waiting[1..])
    }
  }

  /** `testing` counts shutdown requests that have passed the first test of the stage, `requests` those
      that have passed both and not stored it yet. */
  datatype Manager = Manager(stage: Stage, place: Place, prepare: Queue, launch: Queue, shutdown: Queue,
                             testing: nat, requests: nat)

  datatype Step =
    | Begin | PrepareTurn | PrepareReturns(ok: bool) | PrepareDone
    | BeginLaunch | LaunchTurn | LaunchReturns(ok: bool) | LaunchDone
    | LookAtStage | Wake
    | BeginStop | StopTurn | StopReturns | StopDone
    | Check
    | Register(kind: Kind, cb: nat)
    | RequestTest
    | RequestRetest
    | RequestStore

  const EMPTY := Queue([], [], [], true)

  const START := Manager(Init, Idle, EMPTY, EMPTY, EMPTY, 0, 0)

  /** A compare-and-exchange of the stage. */
  function Exchange(m: Manager, from: Stage, to: Stage): Manager {
    if m.stage == from then m.(stage := to) else m
  }

  /** Entering a phase: from the expected stage, or passing through while shutting down. */
  function Enter(m: Manager, from: Stage, to: Stage, place: Place): Manager {
    if m.stage == from then m.(stage := to, place := place)
    else if m.stage == ShuttingDown then m.(place := place)
    else m.(place := Thrown)
  }

  /** The mutex is free, or held by the thread that is inside a callback. */
  predicate MayRegister(p: Place) {
    match p
    case Preparing => false
    case PopPrepare => false
    case Launching => false
    case PopLaunch => false
    case Stopping => false
    case PopShutdown => false
    case _ => true
  }

  /** A registration that comes too late is refused. */
  function Registered(m: Manager, kind: Kind, cb: nat): Manager {
    match kind
    case ForPrepare => if m.stage.Rank() > Prepare.Rank() then m else m.(prepare := m.prepare.Accept(cb))
    case ForLaunch => if m.stage.Rank() > Starting.Rank() then m else m.(launch := m.launch.Accept(cb))
    case ForShutdown => if m.stage.Rank() > ShuttingDown.Rank() then m else m.(shutdown := m.shutdown.Accept(cb))
  }

  function Discard(q: Queue): Queue {
    q.(waiting := [])
  }

  /** The steps of the prepare phase. */
  function PrepareStep(m: Manager, a: Step): Option<Manager> {
    match a
    case Begin =>
      if m.place == Idle then Some(Enter(m, Init, Prepare, Preparing)) else None
    case PrepareTurn =>
      if m.place != Preparing then None
      else if m.prepare.waiting == [] then Some(Exchange(m, Prepare, ReadyToStart).(place := BeforeLaunch))
      else if m.stage == Prepare then Some(m.(place := InPrepare, prepare := m.prepare.Call()))
      else Some(m.(place := PopPrepare))
    case PrepareReturns(ok) =>
      if m.place != InPrepare then None
      else if ok then Some(m.(place := PopPrepare))
      else Some(Exchange(m, Prepare, ShuttingDown).(place := PopPrepare, prepare := m.prepare.(succeeded := false)))
    case PrepareDone =>
      if m.place == PopPrepare && m.prepare.waiting != [] then Some(m.(place := Preparing, prepare := m.prepare.Pop()))
      else None
    case _ => None
  }

  /** The steps of the launch phase. */
  function LaunchStep(m: Manager, a: Step): Option<Manager> {
    match a
    case BeginLaunch =>
      if m.place == BeforeLaunch then Some(Enter(m, ReadyToStart, Starting, Launching)) else None
    case LaunchTurn =>
      if m.place != Launching then None
      else if m.launch.waiting == [] then Some(Exchange(m, Starting, Works).(place := AfterLaunch))
      else if m.stage == Starting then Some(m.(place := InLaunch, launch := m.launch.Call()))
      else Some(m.(place := PopLaunch))
    case LaunchReturns(ok) =>
      if m.place != InLaunch then None
      else if ok then Some(m.(place := PopLaunch))
      else Some(Exchange(m, Starting, ShuttingDown).(place := PopLaunch, launch := m.launch.(succeeded := false)))
    case LaunchDone =>
      if m.place == PopLaunch && m.launch.waiting != [] then Some(m.(place := Launching, launch := m.launch.Pop()))
      else None
    case _ => None
  }

  /** The steps after the launch phase. */
  function StopStep(m: Manager, a: Step): Option<Manager> {
    match a
    case LookAtStage =>
      if m.place == AfterLaunch then Some(m.(place := if m.stage == Works then Waiting else BeforeStop)) else None
    case Wake =>
      if m.place == Waiting && m.stage == ShuttingDown then Some(m.(place := BeforeStop)) else None
    case BeginStop =>
      if m.place != BeforeStop then None
      else
        var m' := Enter(m, Works, ShuttingDown, Stopping);
        Some(if m'.place == Thrown then m' else m'.(prepare := Discard(m.prepare), launch := Discard(m.launch)))
    case StopTurn =>
      if m.place != Stopping then None
      else if m.shutdown.waiting == [] then Some(Exchange(m, ShuttingDown, ReadyToStop).(place := AtCheck))
      else Some(m.(place := InShutdown, shutdown := m.shutdown.Call()))
    case StopReturns =>
      if m.place == InShutdown then Some(m.(place := PopShutdown)) else None
    case StopDone =>
      if m.place == PopShutdown && m.shutdown.waiting != []
      then Some(m.(place := Stopping, shutdown := m.shutdown.Pop()))
      else None
    case Check =>
      if m.place == AtCheck then Some(m.(place := if m.stage == ReadyToStop then Done else Thrown)) else None
    case _ => None
  }

  /** The steps of other threads and of callbacks. */
  function OutsideStep(m: Manager, a: Step): Option<Manager> {
    match a
    case Register(kind, cb) =>
      if MayRegister(m.place) then Some(Registered(m, kind, cb)) else None
    case RequestTest =>
      Some(if m.stage == ReadyToStop then m else m.(testing := m.testing + 1))
    case RequestRetest =>
      if m.testing == 0 then None
      else if m.stage == ShuttingDown then Some(m.(testing := m.testing - 1))
      else Some(m.(testing := m.testing - 1, requests := m.requests + 1))
    case RequestStore =>
      if m.requests > 0 then Some(m.(requests := m.requests - 1, stage := ShuttingDown)) else None
    case _ => None
  }

  function Apply(m: Manager, a: Step): Option<Manager> {
    match a
    case Begin => PrepareStep(m, a)
    case PrepareTurn => PrepareStep(m, a)
    case PrepareReturns(_) => PrepareStep(m, a)
    case PrepareDone => PrepareStep(m, a)
    case BeginLaunch => LaunchStep(m, a)
    case LaunchTurn => LaunchStep(m, a)
    case LaunchReturns(_) => LaunchStep(m, a)
    case LaunchDone => LaunchStep(m, a)
    case Register(_, _) => OutsideStep(m, a)
    case RequestTest => OutsideStep(m, a)
    case RequestRetest => OutsideStep(m, a)
    case RequestStore => OutsideStep(m, a)
    case _ => StopStep(m, a)
  }

  // ---------- the invariant ----------

  /** The stages possible at each place. */
  predicate StageFits(m: Manager) {
    match m.place
    case Idle => m.stage in {Init, ShuttingDown}
    case Preparing => m.stage in {Prepare, ShuttingDown}
    case InPrepare => m.stage in {Prepare, ShuttingDown}
    case PopPrepare => m.stage in {Prepare, ShuttingDown}
    case BeforeLaunch => m.stage in {ReadyToStart, ShuttingDown}
    case Launching => m.stage in {Starting, ShuttingDown}
    case InLaunch => m.stage in {Starting, ShuttingDown}
    case PopLaunch => m.stage in {Starting, ShuttingDown}
    case AfterLaunch => m.stage in {Works, ShuttingDown}
    case Waiting => m.stage in {Works, ShuttingDown}
    case BeforeStop => m.stage == ShuttingDown
    case Stopping => m.stage == ShuttingDown
    case InShutdown => m.stage == ShuttingDown
    case PopShutdown => m.stage == ShuttingDown
    case AtCheck => m.stage == ReadyToStop
    case Done => m.stage == ReadyToStop
    case Thrown => false
  }

  /** Nothing called yet. */
  predicate Untouched(q: Queue) {
    q.called == [] && q.succeeded && q.accepted == q.waiting
  }

  /** Between calls: what is not called yet is waiting. */
  predicate Current(q: Queue) {
    q.accepted == q.called + q.waiting
  }

  /** During a call and until it is popped: the callback is still at the front. */
  predicate InCall(q: Queue) {
    q.waiting != [] && q.accepted == q.called + q.waiting[1..]
  }

  /** Everything accepted has been called, in order, each once. */
  predicate Finished(q: Queue) {
    q.waiting == [] && q.accepted == q.called
  }

  predicate PrepareFits(m: Manager) {
    && m.prepare.called <= m.prepare.accepted
    && (m.place == Idle ==> Untouched(m.prepare))
    && (m.place in {InPrepare, PopPrepare} ==> m.prepare.waiting != [])
    && (m.stage == Prepare ==> m.prepare.succeeded)
    && (m.stage == Prepare && m.place == Preparing ==> Current(m.prepare))
    && (m.stage == Prepare && m.place in {InPrepare, PopPrepare} ==> InCall(m.prepare))
    && (m.stage in {ReadyToStart, Starting, Works} ==> Finished(m.prepare) && m.prepare.succeeded)
  }

  predicate LaunchFits(m: Manager) {
    && m.launch.called <= m.launch.accepted
    && (m.place in {Idle, Preparing, InPrepare, PopPrepare, BeforeLaunch} ==> Untouched(m.launch))
    && (m.place in {InLaunch, PopLaunch} ==> m.launch.waiting != [])
    && (m.stage == Starting ==> m.launch.succeeded)
    && (m.stage == Starting && m.place == Launching ==> Current(m.launch))
    && (m.stage == Starting && m.place in {InLaunch, PopLaunch} ==> InCall(m.launch))
    && (m.stage == Works ==> Finished(m.launch) && m.launch.succeeded)
    && (m.launch.called != [] ==> m.prepare.accepted == m.prepare.called && m.prepare.succeeded)
    && (m.launch.called != [] ==> m.stage.Rank() > Prepare.Rank())
  }

  predicate ShutdownFits(m: Manager) {
    && (m.place == Stopping ==> Current(m.shutdown))
    && (m.place in {InShutdown, PopShutdown} ==> InCall(m.shutdown))
    && (m.place in {AtCheck, Done} ==> Finished(m.shutdown))
    && (m.place !in {Stopping, InShutdown, PopShutdown, AtCheck, Done} ==> Untouched(m.shutdown))
  }

  predicate Inv(m: Manager) {
    StageFits(m) && PrepareFits(m) && LaunchFits(m) && ShutdownFits(m)
  }

  /** A request that stores late would undo the last stage. */
  predicate Timely(m: Manager, a: Step) {
    a == RequestStore ==> m.stage != ReadyToStop
  }

  lemma PrepareStepKeepsInv(m: Manager, a: Step)
    requires Inv(m) && PrepareStep(m, a).Some?
    ensures Inv(PrepareStep(m, a).value) && m.stage.Rank() <= PrepareStep(m, a).value.stage.Rank()
  {
  }

  lemma LaunchTurnKeepsInv(m: Manager)
    requires Inv(m) && m.place == Launching
    ensures Inv(LaunchStep(m, LaunchTurn).value) && m.stage.Rank() <= LaunchStep(m, LaunchTurn).value.stage.Rank()
  {
  }

  lemma LaunchStepKeepsInv(m: Manager, a: Step)
    requires Inv(m) && LaunchStep(m, a).Some?
    ensures Inv(LaunchStep(m, a).value) && m.stage.Rank() <= LaunchStep(m, a).value.stage.Rank()
  {
    if a == LaunchTurn {
      LaunchTurnKeepsInv(m);
    }
  }

  lemma StopTurnKeepsInv(m: Manager)
    requires Inv(m) && m.place == Stopping
    ensures Inv(StopStep(m, StopTurn).value) && m.stage.Rank() <= StopStep(m, StopTurn).value.stage.Rank()
  {
  }

  lemma StopStepKeepsInv(m: Manager, a: Step)
    requires Inv(m) && StopStep(m, a).Some?
    ensures Inv(StopStep(m, a).value) && m.stage.Rank() <= StopStep(m, a).value.stage.Rank()
  {
    if a == StopTurn {
      StopTurnKeepsInv(m);
    }
  }

  lemma RegisterPrepareKeepsInv(m: Manager, cb: nat)
    requires Inv(m) && MayRegister(m.place)
    ensures Inv(Registered(m, ForPrepare, cb))
  {
  }

  lemma RegisterLaunchKeepsInv(m: Manager, cb: nat)
    requires Inv(m) && MayRegister(m.place)
    ensures Inv(Registered(m, ForLaunch, cb))
  {
  }

  lemma RegisterShutdownKeepsInv(m: Manager, cb: nat)
    requires Inv(m) && MayRegister(m.place)
    ensures Inv(Registered(m, ForShutdown, cb))
  {
  }

  lemma OutsideStepKeepsInv(m: Manager, a: Step)
    requires Inv(m) && OutsideStep(m, a).Some? && Timely(m, a)
    ensures Inv(OutsideStep(m, a).value) && m.stage.Rank() <= OutsideStep(m, a).value.stage.Rank()
  {
    if a.Register? {
      match a.kind
      case ForPrepare => RegisterPrepareKeepsInv(m, a.cb);
      case ForLaunch => RegisterLaunchKeepsInv(m, a.cb);
      case ForShutdown => RegisterShutdownKeepsInv(m, a.cb);
    }
  }

  lemma StepKeepsInv(m: Manager, a: Step)
    requires Inv(m) && Apply(m, a).Some? && Timely(m, a)
    ensures Inv(Apply(m, a).value) && m.stage.Rank() <= Apply(m, a).value.stage.Rank()
  {
    if
    case PrepareStep(m, a).Some? => PrepareStepKeepsInv(m, a);
    case LaunchStep(m, a).Some? => LaunchStepKeepsInv(m, a);
    case StopStep(m, a).Some? => StopStepKeepsInv(m, a);
    case OutsideStep(m, a).Some? => OutsideStepKeepsInv(m, a);
  }

  // ---------- runs ----------

  ghost predicate IsRun(run: seq<Manager>, steps: seq<Step>) {
    && |run| == |steps| + 1 && run[0] == START
    && forall i :: 0 <= i < |steps| ==> StepsTo(run, steps, i)
  }

  ghost predicate StepsTo(run: seq<Manager>, steps: seq<Step>, i: nat)
    requires |run| == |steps| + 1 && i < |steps|
  {
    Apply(run[i], steps[i]) == Some(run[i + 1])
  }

  /** No shutdown request stores its stage after the manager has become ready to stop. */
  ghost predicate AllTimely(run: seq<Manager>, steps: seq<Step>)
    requires |run| == |steps| + 1
  {
    forall i :: 0 <= i < |steps| ==> Timely(run[i], steps[i])
  }

  lemma {:induction false} AlwaysInv(run: seq<Manager>, steps: seq<Step>, i: nat)
    requires IsRun(run, steps) && AllTimely(run, steps) && i < |run|
    ensures Inv(run[i])
  {
    if i > 0 {
      AlwaysInv(run, steps, i - 1);
      assert StepsTo(run, steps, i - 1);
      StepKeepsInv(run[i - 1], steps[i - 1]);
    }
  }

  ghost predicate NeverBackwards(run: seq<Manager>) {
    forall i :: 0 < i < |run| ==> run[i - 1].stage.Rank() <= run[i].stage.Rank()
  }

  /** The stage never goes backwards exactly when no request stores it late. */
  lemma NeverBackwardsExactly(run: seq<Manager>, steps: seq<Step>)
    requires IsRun(run, steps)
    ensures NeverBackwards(run) <==> AllTimely(run, steps)
  {
    if AllTimely(run, steps) {
      forall i | 0 < i < |run|
        ensures run[i - 1].stage.Rank() <= run[i].stage.Rank()
      {
        AlwaysInv(run, steps, i - 1);
        assert StepsTo(run, steps, i - 1) && Timely(run[i - 1], steps[i - 1]);
        StepKeepsInv(run[i - 1], steps[i - 1]);
      }
    } else {
      var i :| 0 <= i < |steps| && !Timely(run[i], steps[i]);
      assert StepsTo(run, steps, i);
      assert run[i + 1].stage.Rank() < run[i].stage.Rank();
      assert run[(i + 1) - 1].stage.Rank() > run[i + 1].stage.Rank();
    }
  }

  /** Every store follows directly on the two tests that let its request through. */
  ghost predicate AtomicRequests(run: seq<Manager>, steps: seq<Step>)
    requires |run| == |steps| + 1
  {
    forall i :: 0 <= i < |steps| && steps[i] == RequestStore ==>
      && 1 < i && steps[i - 2] == RequestTest && steps[i - 1] == RequestRetest
      && run[i - 2].testing < run[i - 1].testing && run[i - 1].requests < run[i].requests
  }

  /** Requests whose tests and store are one step are never late. */
  lemma AtomicRequestsAreTimely(run: seq<Manager>, steps: seq<Step>)
    requires IsRun(run, steps) && AtomicRequests(run, steps)
    ensures AllTimely(run, steps)
  {
    forall i | 0 <= i < |steps|
      ensures Timely(run[i], steps[i])
    {
      if steps[i] == RequestStore {
        assert StepsTo(run, steps, i - 2) && StepsTo(run, steps, i - 1);
      }
    }
  }

  // ---------- every run, late requests included ----------

  predicate AtEnd(p: Place) {
    p in {AtCheck, Done, Thrown}
  }

  /** What is left of the invariant once a late store has undone the last stage. */
  predicate Undone(m: Manager) {
    && AtEnd(m.place) && m.stage == ShuttingDown
    && m.prepare.called <= m.prepare.accepted
    && m.launch.called <= m.launch.accepted
    && (m.launch.called != [] ==> m.prepare.accepted == m.prepare.called && m.prepare.succeeded)
    && m.shutdown.called <= m.shutdown.accepted
  }

  predicate Sound(m: Manager) {
    Inv(m) || Undone(m)
  }

  lemma LateStoreUndoes(m: Manager)
    requires Inv(m) && m.stage == ReadyToStop && m.requests > 0
    ensures Undone(Apply(m, RequestStore).value)
  {
  }

  lemma StepKeepsUndone(m: Manager, a: Step)
    requires Undone(m) && Apply(m, a).Some?
    ensures Undone(Apply(m, a).value)
  {
  }

  lemma StepKeepsSound(m: Manager, a: Step)
    requires Sound(m) && Apply(m, a).Some?
    ensures Sound(Apply(m, a).value)
  {
    if Undone(m) {
      StepKeepsUndone(m, a);
    } else if Timely(m, a) {
      StepKeepsInv(m, a);
    } else {
      LateStoreUndoes(m);
    }
  }

  lemma {:induction false} AlwaysSound(run: seq<Manager>, steps: seq<Step>, n: nat)
    requires IsRun(run, steps) && n < |run|
    ensures Sound(run[n])
  {
    if n > 0 {
      AlwaysSound(run, steps, n - 1);
      assert StepsTo(run, steps, n - 1);
      StepKeepsSound(run[n - 1], steps[n - 1]);
    }
  }

  /** Callbacks are called at most once each and in the order they were accepted; once any launch
      callback has been called, every prepare callback has been called and has succeeded. */
  lemma LaunchFollowsPreparation(run: seq<Manager>, steps: seq<Step>, i: nat)
    requires IsRun(run, steps) && i < |run|
    ensures run[i].prepare.called <= run[i].prepare.accepted
    ensures run[i].launch.called <= run[i].launch.accepted
    ensures run[i].launch.called != [] ==> run[i].prepare.called == run[i].prepare.accepted && run[i].prepare.succeeded
    ensures run[i].stage == Works ==>
      && run[i].prepare.called == run[i].prepare.accepted && run[i].prepare.succeeded
      && run[i].launch.called == run[i].launch.accepted && run[i].launch.succeeded
  {
    AlwaysSound(run, steps, i);
  }

  // ---------- when `run` throws ----------

  /** A request stores its stage between the last exchange of `run` and its final check. */
  ghost predicate StoresAtCheck(run: seq<Manager>, steps: seq<Step>, j: nat)
    requires j < |steps| == |run| - 1
  {
    steps[j] == RequestStore && run[j].place == AtCheck
  }

  ghost predicate StoredAtCheck(run: seq<Manager>, steps: seq<Step>, n: nat)
    requires n <= |steps| == |run| - 1
  {
    exists j :: 0 <= j < n && StoresAtCheck(run, steps, j)
  }

  /** What the places at the end say about such a store. */
  predicate CheckFits(m: Manager, stored: bool) {
    match m.place
    case AtCheck => (m.stage == ShuttingDown) == stored
    case Done => !stored
    case Thrown => stored
    case _ => !stored
  }

  lemma StopStepKeepsCheck(m: Manager, a: Step, stored: bool)
    requires Sound(m) && StopStep(m, a).Some? && CheckFits(m, stored)
    ensures CheckFits(StopStep(m, a).value, stored)
  {
  }

  lemma OutsideStepKeepsCheck(m: Manager, a: Step, stored: bool)
    requires Sound(m) && OutsideStep(m, a).Some? && CheckFits(m, stored)
    ensures CheckFits(OutsideStep(m, a).value, stored || (a == RequestStore && m.place == AtCheck))
  {
  }

  lemma StepKeepsCheck(m: Manager, a: Step, stored: bool)
    requires Sound(m) && Apply(m, a).Some? && CheckFits(m, stored)
    ensures CheckFits(Apply(m, a).value, stored || (a == RequestStore && m.place == AtCheck))
  {
    if StopStep(m, a).Some? {
      StopStepKeepsCheck(m, a, stored);
    } else if OutsideStep(m, a).Some? {
      OutsideStepKeepsCheck(m, a, stored);
    }
  }

  lemma {:induction false} AlwaysCheck(run: seq<Manager>, steps: seq<Step>, n: nat)
    requires IsRun(run, steps) && n < |run|
    ensures CheckFits(run[n], StoredAtCheck(run, steps, n))
  {
    if n > 0 {
      AlwaysCheck(run, steps, n - 1);
      AlwaysSound(run, steps, n - 1);
      assert StepsTo(run, steps, n - 1);
      StepKeepsCheck(run[n - 1], steps[n - 1], StoredAtCheck(run, steps, n - 1));
      assert StoredAtCheck(run, steps, n) <==>
        StoredAtCheck(run, steps, n - 1) || StoresAtCheck(run, steps, n - 1);
    }
  }

  /** `run` throws exactly when it has ended and a request stored its stage between the last exchange
      and the final check. */
  lemma ThrowsExactly(run: seq<Manager>, steps: seq<Step>, n: nat)
    requires IsRun(run, steps) && n < |run|
    ensures run[n].place == Thrown <==>
      && (run[n].place == Done || run[n].place == Thrown)
      && exists j :: 0 <= j < n && steps[j] == RequestStore && run[j].place == AtCheck
  {
    AlwaysCheck(run, steps, n);
    assert forall j :: 0 <= j < n ==>
      (StoresAtCheck(run, steps, j) <==> steps[j] == RequestStore && run[j].place == AtCheck);
  }

  /** In particular it does not throw when no request is late. */
  lemma NeverThrows(run: seq<Manager>, steps: seq<Step>, n: nat)
    requires IsRun(run, steps) && AllTimely(run, steps) && n < |run|
    ensures run[n].place != Thrown
  {
    AlwaysInv(run, steps, n);
  }

  // ---------- the shutdown callbacks ----------

  /** A shutdown callback is accepted after the last one has been called. */
  predicate AcceptsLate(m: Manager, a: Step) {
    AtEnd(m.place) && m.stage == ShuttingDown && a.Register? && a.kind == ForShutdown
  }

  ghost predicate AcceptedLate(run: seq<Manager>, steps: seq<Step>, n: nat)
    requires n <= |steps| == |run| - 1
  {
    exists j :: 0 <= j < n && AcceptsLate(run[j], steps[j])
  }

  predicate CallsFit(m: Manager, late: bool) {
    && m.shutdown.called <= m.shutdown.accepted
    && (if AtEnd(m.place) then (m.shutdown.called != m.shutdown.accepted) == late else !late)
  }

  lemma StopStepKeepsCalls(m: Manager, a: Step, late: bool)
    requires Sound(m) && StopStep(m, a).Some? && CallsFit(m, late)
    ensures CallsFit(StopStep(m, a).value, late)
  {
  }

  lemma OutsideStepKeepsCalls(m: Manager, a: Step, late: bool)
    requires Sound(m) && OutsideStep(m, a).Some? && CallsFit(m, late)
    ensures CallsFit(OutsideStep(m, a).value, late || AcceptsLate(m, a))
  {
  }

  lemma StepKeepsCalls(m: Manager, a: Step, late: bool)
    requires Sound(m) && Apply(m, a).Some? && CallsFit(m, late)
    ensures CallsFit(Apply(m, a).value, late || AcceptsLate(m, a))
  {
    if StopStep(m, a).Some? {
      StopStepKeepsCalls(m, a, late);
    } else if OutsideStep(m, a).Some? {
      OutsideStepKeepsCalls(m, a, late);
    }
  }

  lemma {:induction false} AlwaysCalls(run: seq<Manager>, steps: seq<Step>, n: nat)
    requires IsRun(run, steps) && n < |run|
    ensures CallsFit(run[n], AcceptedLate(run, steps, n))
  {
    if n > 0 {
      AlwaysCalls(run, steps, n - 1);
      AlwaysSound(run, steps, n - 1);
      assert StepsTo(run, steps, n - 1);
      StepKeepsCalls(run[n - 1], steps[n - 1], AcceptedLate(run, steps, n - 1));
      assert AcceptedLate(run, steps, n) <==>
        AcceptedLate(run, steps, n - 1) || AcceptsLate(run[n - 1], steps[n - 1]);
    }
  }

  /** On every run shutdown callbacks are called at most once each and in order. When `run` has drained
      them, every accepted one has been called exactly when none was accepted after that, which takes
      a late store of the stage. */
  lemma ShutdownCallsEach(run: seq<Manager>, steps: seq<Step>, n: nat)
    requires IsRun(run, steps) && n < |run|
    ensures run[n].shutdown.called <= run[n].shutdown.accepted
    ensures AtEnd(run[n].place) ==>
      (run[n].shutdown.called == run[n].shutdown.accepted <==> !AcceptedLate(run, steps, n))
    ensures AllTimely(run, steps) ==> !AcceptedLate(run, steps, n)
  {
    AlwaysCalls(run, steps, n);
    if AllTimely(run, steps) {
      forall j | 0 <= j < n
        ensures !AcceptsLate(run[j], steps[j])
      {
        AlwaysInv(run, steps, j);
      }
    }
  }

  /** The step of the thread inside `run` from each place; a callback may also fail. */
  function OwnStep(p: Place): Step {
    match p
    case Idle => Begin
    case Preparing => PrepareTurn
    case InPrepare => PrepareReturns(true)
    case PopPrepare => PrepareDone
    case BeforeLaunch => BeginLaunch
    case Launching => LaunchTurn
    case InLaunch => LaunchReturns(true)
    case PopLaunch => LaunchDone
    case AfterLaunch => LookAtStage
    case Waiting => Wake
    case BeforeStop => BeginStop
    case Stopping => StopTurn
    case InShutdown => StopReturns
    case PopShutdown => StopDone
    case _ => Check
  }

  /** What the steps that can be blocked need. */
  predicate Unblocked(m: Manager) {
    && (m.place == PopPrepare ==> m.prepare.waiting != [])
    && (m.place == PopLaunch ==> m.launch.waiting != [])
    && (m.place == PopShutdown ==> m.shutdown.waiting != [])
    && (m.place == Waiting ==> m.stage == ShuttingDown)
  }

  lemma SoundIsUnblocked(m: Manager)
    requires Sound(m) && !(m.place == Waiting && m.stage == Works)
    ensures Unblocked(m)
  {
  }

  lemma UnblockedGoesOn(m: Manager)
    requires Unblocked(m) && m.place != Done && m.place != Thrown
    ensures Apply(m, OwnStep(m.place)).Some?
  {
  }

  /** On every run the thread inside `run` can go on, except while it waits for a shutdown request. */
  lemma NeverStuck(run: seq<Manager>, steps: seq<Step>, n: nat)
    requires IsRun(run, steps) && n < |run|
    requires run[n].place != Done && run[n].place != Thrown && !(run[n].place == Waiting && run[n].stage == Works)
    ensures Apply(run[n], OwnStep(run[n].place)).Some?
  {
    AlwaysSound(run, steps, n);
    SoundIsUnblocked(run[n]);
    UnblockedGoesOn(run[n]);
  }

  /** The state just before the end, with one request that has tested but not stored. */
  function LastMoment(): Manager {
    START.(stage := ReadyToStop, place := AtCheck, requests := 1)
  }

  lemma ExtendRun(run: seq<Manager>, steps: seq<Step>, a: Step, m: Manager)
    returns (run': seq<Manager>, steps': seq<Step>)
    requires IsRun(run, steps) && Apply(run[|run| - 1], a) == Some(m)
    ensures IsRun(run', steps') && run' == run + [m] && steps' == steps + [a]
    ensures run'[|run'| - 1] == m
  {
    run', steps' := run + [m], steps + [a];
    forall i | 0 <= i < |steps'|
      ensures StepsTo(run', steps', i)
    {
      assert i < |steps| ==> StepsTo(run, steps, i);
    }
  }

  lemma LastMomentReached() returns (run: seq<Manager>, steps: seq<Step>)
    ensures IsRun(run, steps) && run[|run| - 1] == LastMoment()
  {
    run, steps := [START], [];
    run, steps := ExtendRun(run, steps, RequestTest, START.(testing := 1));
    run, steps := ExtendRun(run, steps, RequestRetest, START.(requests := 1));
    run, steps := ExtendRun(run, steps, RequestTest, START.(testing := 1, requests := 1));
    run, steps := ExtendRun(run, steps, RequestRetest, START.(requests := 2));
    var m := START.(stage := ShuttingDown, requests := 1);
    run, steps := ExtendRun(run, steps, RequestStore, m);
    run, steps := ExtendRun(run, steps, Begin, m.(place := Preparing));
    run, steps := ExtendRun(run, steps, PrepareTurn, m.(place := BeforeLaunch));
    run, steps := ExtendRun(run, steps, BeginLaunch, m.(place := Launching));
    run, steps := ExtendRun(run, steps, LaunchTurn, m.(place := AfterLaunch));
    run, steps := ExtendRun(run, steps, LookAtStage, m.(place := BeforeStop));
    run, steps := ExtendRun(run, steps, BeginStop, m.(place := Stopping));
    run, steps := ExtendRun(run, steps, StopTurn, LastMoment());
  }

  /** Two requests: the first shuts the manager down, the second stores its stage after the end, and
      the last check of `run` then throws. */
  lemma LateRequestThrows() returns (run: seq<Manager>, steps: seq<Step>)
    ensures IsRun(run, steps) && !AllTimely(run, steps) && run[|run| - 1].place == Thrown
  {
    run, steps := LastMomentReached();
    var n := |steps|;
    var late := START.(stage := ShuttingDown, place := AtCheck);
    run, steps := ExtendRun(run, steps, RequestStore, late);
    run, steps := ExtendRun(run, steps, Check, late.(place := Thrown));
    assert !Timely(run[n], steps[n]);
  }

  /** A shutdown callback that is accepted after a late store is never called. */
  lemma LateCallbackIsLost() returns (run: seq<Manager>, steps: seq<Step>)
    ensures IsRun(run, steps) && run[|run| - 1].place == Thrown
    ensures run[|run| - 1].shutdown.accepted == [7] && run[|run| - 1].shutdown.called == []
  {
    run, steps := LastMomentReached();
    var late := START.(stage := ShuttingDown, place := AtCheck);
    run, steps := ExtendRun(run, steps, RequestStore, late);
    assert EMPTY.Accept(7) == Queue([7], [7], [], true);
    run, steps := ExtendRun(run, steps, Register(ForShutdown, 7), late.(shutdown := Queue([7], [7], [], true)));
    run, steps := ExtendRun(run, steps, Check, late.(shutdown := Queue([7], [7], [], true), place := Thrown));
  }
}
