/** The scheduler as a machine of interleaved steps: the worker loop, threads that add tasks, and
    threads that dispose of it. A step is what happens between two points where another thread can
    get in; the queue's lock is held from the insertion of a task until its signal has been set. */
module SchedulerMachine {
  import opened Prelude
  import opened TaskQueue

  /** Where the worker is in its loop. `Waiting` has chosen how long to wait and is about to test the
      event; `Blocked` sleeps on it. Both remember the queue and the time of the choice. */
  datatype Worker =
    | Extracting
    | Running(task: TimedTask)
    | Readding(task: TimedTask)
    | Signalling
    | Measuring
    | Waiting(sample: seq<TimedTask>, at: Time, wait: int)
    | Blocked(sample: seq<TimedTask>, at: Time, wait: int, until: Time)
    | Testing
    | Exited

  /** Who holds the queue's lock with a task inserted and the signal still to be set. */
  datatype Adder = Nobody | Outsider | Itself

  datatype State = State(
    tasks: seq<TimedTask>,
    busy: bool,
    signalled: bool,
    proceed: bool,
    adder: Adder,
    worker: Worker,
    disposing: nat,   // threads between clearing the flag and setting the event
    disposed: bool,   // some dispose has returned
    stamps: nat,
    known: set<nat>,  // tasks ever handed over
    done: set<nat>)   // tasks executed or dropped for good

  const START := State([], false, false, true, Nobody, Extracting, 0, false, 0, {}, {})

  datatype Step =
    | Add(id: nat, timeout: int, repeats: bool)  // addDelayed or repeat, up to the insertion
    | Upload(id: nat, timeout: int)              // uploadIfFree, up to the insertion or the refusal
    | Signal                                     // the outsider sets the event and unlocks
    | DisposeClear
    | DisposeSet
    | Extract
    | Finish(again: bool)                        // the task has run; it is wanted again or not
    | Readd
    | SignalReadd
    | Measure
    | TestEvent
    | Wake
    | TestProceed

  predicate IsWorkerStep(step: Step) {
    step.Extract? || step.Finish? || step.Readd? || step.SignalReadd? || step.Measure?
    || step.TestEvent? || step.Wake? || step.TestProceed?
  }

  /** Adding under the lock: mark as busy for a zero delay, insert; the signal follows. */
  function Inserted(s: State, t: TimedTask, who: Adder): State {
    s.(tasks := Insert(s.tasks, t), busy := s.busy || t.timeout == 0, adder := who, stamps := s.stamps + 1)
  }

  /** The step at time `now`, or `None` when it is not possible in this state. */
  function Apply(now: Time, s: State, step: Step): Option<State> {
    match step
    case Add(id, timeout, repeats) =>
      if s.adder != Nobody || id in s.known then None
      else Some(Inserted(s, TimedTask(id, now, timeout, repeats, s.stamps), Outsider).(known := s.known + {id}))
    case Upload(id, timeout) =>
      if s.adder != Nobody || id in s.known then None
      else if s.busy then Some(s)
      else Some(Inserted(s, TimedTask(id, now, timeout, false, s.stamps), Outsider).(known := s.known + {id}))
    case Signal =>
      if s.adder != Outsider then None else Some(s.(signalled := true, adder := Nobody))
    case DisposeClear =>
      Some(s.(proceed := false, disposing := s.disposing + 1))
    case DisposeSet =>
      if s.disposing == 0 then None
      else Some(s.(signalled := true, disposing := s.disposing - 1, disposed := true))
    case Extract =>
      if s.worker != Extracting || s.adder != Nobody then None
      else if Due(s.tasks, now) then
        Some(s.(tasks := s.tasks[1..], busy := true, worker := Running(s.tasks[0])))
      else Some(s.(busy := false, worker := Measuring))
    case Finish(again) =>
      if !s.worker.Running? then None
      else if again && s.worker.task.repeats then Some(s.(worker := Readding(s.worker.task)))
      else Some(s.(worker := Testing, done := s.done + {s.worker.task.id}))
    case Readd =>
      if !s.worker.Readding? || s.adder != Nobody then None
      else Some(Inserted(s, s.worker.task.(created := now, stamp := s.stamps), Itself).(worker := Signalling))
    case SignalReadd =>
      if s.worker != Signalling then None
      else Some(s.(signalled := true, adder := Nobody, worker := Testing))
    case Measure =>
      if s.worker != Measuring || s.adder != Nobody then None
      else Some(s.(worker := Waiting(s.tasks, now, UntilFirst(s.tasks, now))))
    case TestEvent =>
      if !s.worker.Waiting? then None
      else if s.signalled then Some(s.(signalled := false, worker := Testing))
      else Some(s.(worker := Blocked(s.worker.sample, s.worker.at, s.worker.wait, now + 1000 * s.worker.wait)))
    case Wake =>
      if !s.worker.Blocked? then None
      else if s.signalled then Some(s.(signalled := false, worker := Testing))
      else if now >= s.worker.until then Some(s.(worker := Testing))
      else Some(s)
    case TestProceed =>
      if s.worker != Testing then None
      else Some(s.(proceed := true, worker := if s.proceed then Extracting else Exited))
  }

  // ---------- the invariant ----------

  function QueuedIds(q: seq<TimedTask>): set<nat> {
    set t | t in q :: t.id
  }

  function InHand(w: Worker): set<nat> {
    if w.Running? || w.Readding? then {w.task.id} else {}
  }

  predicate DistinctIds(q: seq<TimedTask>) {
    forall i, j :: 0 <= i < j < |q| ==> q[i].id != q[j].id
  }

  /** Every task handed over is in exactly one of three places: queued once, in the worker's hands,
      or done. */
  ghost predicate Conserved(s: State) {
    && DistinctIds(s.tasks)
    && s.known == QueuedIds(s.tasks) + InHand(s.worker) + s.done
    && QueuedIds(s.tasks) !! InHand(s.worker)
    && (QueuedIds(s.tasks) + InHand(s.worker)) !! s.done
  }

  ghost predicate QueueInOrder(now: Time, s: State) {
    && Stable(s.tasks)
    && forall t :: t in s.tasks ==> t.stamp < s.stamps && t.created <= now
  }

  /** Not busy means idle: nothing is being executed and nothing queued is to run at once. */
  ghost predicate IdleWhenFree(s: State) {
    !s.busy ==>
      && !s.worker.Running? && !s.worker.Readding? && !s.worker.Signalling?
      && forall t :: t in s.tasks ==> t.timeout != 0
  }

  /** No lost wake-up: while the worker waits, or is about to, with the event unsignalled, the queue is
      the one it looked at when it chose the wait, unless somebody is just about to signal. */
  ghost predicate NoLostWakeUp(s: State) {
    (s.worker.Waiting? || s.worker.Blocked?) ==>
      && s.worker.wait == UntilFirst(s.worker.sample, s.worker.at)
      && (!s.signalled && s.adder == Nobody ==> s.tasks == s.worker.sample)
  }

  /** Once a dispose has returned, the flag is down and the event up until the worker has noticed. */
  ghost predicate DisposeIsSeen(s: State) {
    s.disposed && s.worker != Exited ==> !s.proceed && (s.signalled || s.worker == Testing)
  }

  ghost predicate Inv(now: Time, s: State) {
    && Conserved(s)
    && QueueInOrder(now, s)
    && IdleWhenFree(s)
    && NoLostWakeUp(s)
    && DisposeIsSeen(s)
    && (s.adder == Itself <==> s.worker == Signalling)
    && (s.disposing > 0 || s.disposed ==> !s.proceed || s.worker == Exited)
  }

  // ---------- it is kept by every step ----------

  lemma InsertedIds(q: seq<TimedTask>, t: TimedTask)
    requires DistinctIds(q) && t.id !in QueuedIds(q)
    ensures DistinctIds(Insert(q, t)) && QueuedIds(Insert(q, t)) == QueuedIds(q) + {t.id}
  {
    InsertMembers(q, t);
    var r := Insert(q, t);
    assert t in r;
    assert forall u :: u in q ==> u in r;
    forall u | u in q ensures u.id != t.id {
    }
    forall i, j | 0 <= i < j < |r| ensures r[i].id != r[j].id {
      InsertAt(q, t, i);
      InsertAt(q, t, j);
    }
  }

  lemma InsertKeepsOrder(now: Time, s: State, t: TimedTask, who: Adder)
    requires QueueInOrder(now, s) && t.stamp == s.stamps && t.created <= now
    ensures QueueInOrder(now, Inserted(s, t, who))
  {
    InsertKeepsStable(s.tasks, t);
    InsertMembers(s.tasks, t);
  }

  lemma HeadIds(q: seq<TimedTask>)
    requires DistinctIds(q) && q != []
    ensures DistinctIds(q[1..]) && q[0].id !in QueuedIds(q[1..])
    ensures QueuedIds(q) == QueuedIds(q[1..]) + {q[0].id}
  {
    assert q == [q[0]] + q[1..];
    assert forall u :: u in q <==> u == q[0] || u in q[1..];
    forall u | u in q[1..] ensures u.id != q[0].id {
      var i :| 0 <= i < |q[1..]| && q[1..][i] == u;
      assert q[i + 1] == u;
    }
  }

  lemma AddKeepsInv(now: Time, s: State, t: TimedTask, s': State)
    requires Inv(now, s) && s.adder == Nobody && t.id !in s.known && t.created == now && t.stamp == s.stamps
    requires s' == Inserted(s, t, Outsider).(known := s.known + {t.id})
    ensures Inv(now, s')
  {
    InsertedIds(s.tasks, t);
    InsertMembers(s.tasks, t);
    InsertKeepsOrder(now, s, t, Outsider);
  }

  lemma OutsideStepKeepsInv(now: Time, s: State, step: Step)
    requires Inv(now, s) && !IsWorkerStep(step) && Apply(now, s, step).Some?
    ensures Inv(now, Apply(now, s, step).value)
  {
    var s' := Apply(now, s, step).value;
    if step.Add? || (step.Upload? && !s.busy) {
      AddKeepsInv(now, s, TimedTask(step.id, now, step.timeout, step.Add? && step.repeats, s.stamps), s');
    }
  }

  lemma WorkerStepKeepsInv(now: Time, s: State, step: Step)
    requires Inv(now, s) && IsWorkerStep(step) && Apply(now, s, step).Some?
    ensures Inv(now, Apply(now, s, step).value)
  {
    var s' := Apply(now, s, step).value;
    if step.Extract? {
      ExtractKeepsInv(now, s);
    } else if step.Readd? {
      ReaddKeepsInv(now, s);
    }
  }

  /** A task goes back from the worker's hands into the queue. */
  lemma ReaddConserves(s: State, t: TimedTask, s': State)
    requires Conserved(s) && s.worker.Readding? && t.id == s.worker.task.id
    requires s'.tasks == Insert(s.tasks, t) && s'.worker == Signalling && s'.known == s.known && s'.done == s.done
    ensures Conserved(s')
  {
    InsertedIds(s.tasks, t);
    assert InHand(s.worker) == {t.id} && InHand(s'.worker) == {};
  }

  lemma ReaddKeepsInv(now: Time, s: State)
    requires Inv(now, s) && Apply(now, s, Readd).Some?
    ensures Inv(now, Apply(now, s, Readd).value)
  {
    var t := s.worker.task.(created := now, stamp := s.stamps);
    var s' := Apply(now, s, Readd).value;
    assert s.busy && s' == Inserted(s, t, Itself).(worker := Signalling);
    ReaddConserves(s, t, s');
    InsertKeepsOrder(now, s, t, Itself);
  }

  lemma ExtractKeepsInv(now: Time, s: State)
    requires Inv(now, s) && Apply(now, s, Extract).Some?
    ensures Inv(now, Apply(now, s, Extract).value)
  {
    if Due(s.tasks, now) {
      HeadIds(s.tasks);
      var rest := s.tasks[1..];
      forall i, j | 0 <= i < j < |rest| ensures Precedes(rest[i], rest[j]) {
        assert rest[i] == s.tasks[i + 1] && rest[j] == s.tasks[j + 1];
      }
    } else {
      StableIsSorted(s.tasks);
      NothingDue(s.tasks, now);
    }
  }

  // ---------- runs ----------

  datatype Moment = Moment(now: Time, state: State)

  /** A run: the clock never goes back, and each step leads from one moment's state to the next. */
  ghost predicate IsRun(run: seq<Moment>, steps: seq<Step>) {
    && |run| == |steps| + 1
    && run[0].state == START
    && forall i :: 0 <= i < |steps| ==> StepsTo(run, steps, i)
  }

  predicate StepsTo(run: seq<Moment>, steps: seq<Step>, i: nat)
    requires i < |steps| == |run| - 1
  {
    && run[i].now <= run[i + 1].now
    && Apply(run[i + 1].now, run[i].state, steps[i]) == Some(run[i + 1].state)
  }

  lemma TimePasses(now: Time, later: Time, s: State)
    requires Inv(now, s) && now <= later
    ensures Inv(later, s)
  {
  }

  lemma {:induction false} AlwaysInv(run: seq<Moment>, steps: seq<Step>, n: nat)
    requires IsRun(run, steps) && n <= |steps|
    ensures Inv(run[n].now, run[n].state)
  {
    if n > 0 {
      AlwaysInv(run, steps, n - 1);
      assert StepsTo(run, steps, n - 1);
      TimePasses(run[n - 1].now, run[n].now, run[n - 1].state);
      if IsWorkerStep(steps[n - 1]) {
        WorkerStepKeepsInv(run[n].now, run[n - 1].state, steps[n - 1]);
      } else {
        OutsideStepKeepsInv(run[n].now, run[n - 1].state, steps[n - 1]);
      }
    }
  }

  /** Over every interleaving: while the worker waits unsignalled and nobody is half way through adding,
      the queue is exactly the one it sampled, and its wait is no longer than the time that was then
      left to the deadline of any queued task. */
  lemma WaitsForTheRightQueue(run: seq<Moment>, steps: seq<Step>, n: nat)
    requires IsRun(run, steps) && n <= |steps|
    requires var s := run[n].state; (s.worker.Waiting? || s.worker.Blocked?) && !s.signalled && s.adder == Nobody
    ensures var s := run[n].state;
      && s.tasks == s.worker.sample
      && forall t :: t in s.tasks ==>
           var left := t.created + 1000 * t.timeout - s.worker.at;
           1000 * s.worker.wait <= if left > 0 then left else 0
  {
    AlwaysInv(run, steps, n);
    StableIsSorted(run[n].state.tasks);
    WaitEndsInTime(run[n].state.tasks, run[n].state.worker.at);
    assert forall t :: t in run[n].state.tasks ==> Deadline(t) == t.created + 1000 * t.timeout;
  }

  /** After a dispose has returned the worker is never asleep without a signal. */
  lemma NeverBlockedAfterDispose(run: seq<Moment>, steps: seq<Step>, n: nat)
    requires IsRun(run, steps) && n <= |steps| && run[n].state.disposed
    ensures run[n].state.worker.Blocked? ==> run[n].state.signalled
    ensures run[n].state.worker == Exited || !run[n].state.proceed
  {
    AlwaysInv(run, steps, n);
  }

  /** How many steps of its own the worker has left after a dispose. */
  function StepsLeft(w: Worker): nat {
    match w
    case Extracting => 5
    case Running(_) => 4
    case Readding(_) => 3
    case Signalling => 2
    case Measuring => 4
    case Waiting(_, _, _) => 3
    case Blocked(_, _, _, _) => 2
    case Testing => 1
    case Exited => 0
  }

  function WorkerSteps(steps: seq<Step>, i: nat, j: nat): nat
    requires i <= j <= |steps|
  {
    if i == j then 0 else WorkerSteps(steps, i, j - 1) + if IsWorkerStep(steps[j - 1]) then 1 else 0
  }

  lemma StepCountsDown(now: Time, s: State, step: Step)
    requires Inv(now, s) && s.disposed && Apply(now, s, step).Some?
    ensures var s' := Apply(now, s, step).value;
      && s'.disposed
      && (if IsWorkerStep(step) then StepsLeft(s'.worker) < StepsLeft(s.worker) else s'.worker == s.worker)
  {
  }

  /** From the moment a dispose has returned, the worker takes at most five more steps, whatever anyone
      else does, and after the last one it has left its loop. */
  lemma {:induction false} ExitsSoonAfterDispose(run: seq<Moment>, steps: seq<Step>, i: nat, j: nat)
    requires IsRun(run, steps) && i <= j <= |steps| && run[i].state.disposed
    ensures run[j].state.disposed
    ensures WorkerSteps(steps, i, j) + StepsLeft(run[j].state.worker) <= StepsLeft(run[i].state.worker) <= 5
    decreases j
  {
    if i < j {
      ExitsSoonAfterDispose(run, steps, i, j - 1);
      AlwaysInv(run, steps, j - 1);
      assert StepsTo(run, steps, j - 1);
      TimePasses(run[j - 1].now, run[j].now, run[j - 1].state);
      StepCountsDown(run[j].now, run[j - 1].state, steps[j - 1]);
    }
  }

  /** Over every run each task is queued once, in the worker's hands or done, and never two of these;
      a scheduler that reports itself free executes nothing and has nothing to execute at once. */
  lemma TasksAreConserved(run: seq<Moment>, steps: seq<Step>, n: nat, id: nat)
    requires IsRun(run, steps) && n <= |steps| && id in run[n].state.known
    ensures var s := run[n].state;
      var queued, inHand, done := id in QueuedIds(s.tasks), id in InHand(s.worker), id in s.done;
      && (queued || inHand || done)
      && !(queued && inHand) && !(queued && done) && !(inHand && done)
      && DistinctIds(s.tasks)
      && IdleWhenFree(s)
  {
    AlwaysInv(run, steps, n);
  }

  /** Over every run the task that the worker takes is due, and precedes all that stay queued: earlier
      deadlines first, equal ones in order of insertion. */
  lemma TakesTheEarliest(run: seq<Moment>, steps: seq<Step>, n: nat)
    requires IsRun(run, steps) && n < |steps| && steps[n].Extract? && run[n + 1].state.worker.Running?
    ensures var t := run[n + 1].state.worker.task;
      && t.created + 1000 * t.timeout <= run[n + 1].now
      && forall u :: u in run[n + 1].state.tasks ==> Precedes(t, u)
  {
    AlwaysInv(run, steps, n);
    assert StepsTo(run, steps, n);
    ExtractedIsFirst(run[n].state.tasks, run[n + 1].now);
  }
}
