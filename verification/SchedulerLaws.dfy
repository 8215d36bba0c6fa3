/** When a scheduler's tasks run and when its worker sleeps, told in terms of the steps of the run. */
module SchedulerLaws {
  import opened Prelude
  import opened TaskQueue
  import opened SchedulerMachine

  // ---------- where a task comes from ----------

  /** Step `k` handed the task over, with this delay and repetition. */
  predicate HandsOver(steps: seq<Step>, k: nat, t: TimedTask) {
    k < |steps| && (steps[k] == Add(t.id, t.timeout, t.repeats) || (steps[k] == Upload(t.id, t.timeout) && !t.repeats))
  }

  /** Step `j` put the task into the queue: its creation time is the clock of that step. */
  predicate Enqueues(run: seq<Moment>, steps: seq<Step>, j: nat, t: TimedTask)
    requires |run| == |steps| + 1
  {
    && j < |steps| && t.created == run[j + 1].now
    && t in run[j + 1].state.tasks && t !in run[j].state.tasks
    && (HandsOver(steps, j, t) ||
        (steps[j] == Readd && run[j].state.worker.Readding? && run[j].state.worker.task.id == t.id))
  }

  predicate Held(s: State, t: TimedTask) {
    t in s.tasks || ((s.worker.Running? || s.worker.Readding?) && s.worker.task == t)
  }

  ghost predicate HasHistory(run: seq<Moment>, steps: seq<Step>, n: nat, t: TimedTask)
    requires |run| == |steps| + 1
  {
    (exists k :: 0 <= k < n && HandsOver(steps, k, t)) && exists j :: 0 <= j < n && Enqueues(run, steps, j, t)
  }

  /** The same task, put into the queue at another time. */
  predicate SameTask(t: TimedTask, u: TimedTask) {
    t.id == u.id && t.timeout == u.timeout && t.repeats == u.repeats
  }

  /** What one step can newly hold is what it inserts. */
  lemma NewlyHeld(now: Time, s: State, step: Step, t: TimedTask)
    requires Apply(now, s, step).Some? && Held(Apply(now, s, step).value, t) && !Held(s, t)
    ensures t.created == now && t in Apply(now, s, step).value.tasks && t !in s.tasks
    ensures
      || step == Add(t.id, t.timeout, t.repeats)
      || (step == Upload(t.id, t.timeout) && !t.repeats && !s.busy)
      || (step == Readd && s.worker.Readding? && SameTask(t, s.worker.task))
  {
    match step
    case Add(id, timeout, repeats) =>
      InsertMembers(s.tasks, TimedTask(id, now, timeout, repeats, s.stamps));
    case Upload(id, timeout) =>
      InsertMembers(s.tasks, TimedTask(id, now, timeout, false, s.stamps));
    case Readd =>
      InsertMembers(s.tasks, s.worker.task.(created := now, stamp := s.stamps));
    case _ =>
  }

  /** Every task that is queued or in hand was handed over with its delay and repetition, and was created
      when it was put into the queue, at the hand-over or when the worker put it back. */
  lemma {:induction false} TaskHistory(run: seq<Moment>, steps: seq<Step>, n: nat, t: TimedTask)
    requires IsRun(run, steps) && n <= |steps| && Held(run[n].state, t)
    ensures HasHistory(run, steps, n, t)
  {
    if n > 0 {
      if Held(run[n - 1].state, t) {
        TaskHistory(run, steps, n - 1, t);
      } else {
        assert StepsTo(run, steps, n - 1);
        NewlyHeld(run[n].now, run[n - 1].state, steps[n - 1], t);
        assert Enqueues(run, steps, n - 1, t);
        if !HandsOver(steps, n - 1, t) {
          var u := run[n - 1].state.worker.task;
          TaskHistory(run, steps, n - 1, u);
          var k :| 0 <= k < n - 1 && HandsOver(steps, k, u);
          assert HandsOver(steps, k, t);
        }
      }
    }
  }

  /** Over every run a task is taken no earlier than its whole delay, in microseconds, after the step that
      last put it into the queue; of all that are queued its time is the earliest, and on a tie it was
      inserted first. */
  lemma NeverEarly(run: seq<Moment>, steps: seq<Step>, n: nat) returns (k: nat, j: nat)
    requires IsRun(run, steps) && n < |steps| && steps[n].Extract? && run[n + 1].state.worker.Running?
    ensures var t := run[n + 1].state.worker.task;
      && k < n && HandsOver(steps, k, t)
      && j < n && Enqueues(run, steps, j, t)
      && run[j + 1].now + 1000 * t.timeout <= run[n + 1].now
      && forall u :: u in run[n + 1].state.tasks ==>
           var mine, other := t.created + 1000 * t.timeout, u.created + 1000 * u.timeout;
           mine < other || (mine == other && t.stamp < u.stamp)
  {
    var t := run[n + 1].state.worker.task;
    TakesTheEarliest(run, steps, n);
    assert StepsTo(run, steps, n);
    assert Held(run[n].state, t);
    TaskHistory(run, steps, n, t);
    k :| 0 <= k < n && HandsOver(steps, k, t);
    j :| 0 <= j < n && Enqueues(run, steps, j, t);
    forall u | u in run[n + 1].state.tasks
      ensures var mine, other := t.created + 1000 * t.timeout, u.created + 1000 * u.timeout;
        mine < other || (mine == other && t.stamp < u.stamp)
    {
      assert Precedes(t, u);
    }
  }

  /** Whenever some queued task is due, an extraction takes one; otherwise it takes none. */
  lemma TakesWhenDue(run: seq<Moment>, steps: seq<Step>, n: nat)
    requires IsRun(run, steps) && n < |steps| && steps[n] == Extract
    ensures run[n + 1].state.worker.Running? <==>
      exists t :: t in run[n].state.tasks && t.created + 1000 * t.timeout <= run[n + 1].now
    ensures run[n + 1].state.worker == Measuring || run[n + 1].state.worker.Running?
  {
    AlwaysInv(run, steps, n);
    assert StepsTo(run, steps, n);
    var now, s := run[n + 1].now, run[n].state;
    StableIsSorted(s.tasks);
    if Due(s.tasks, now) {
      assert s.tasks[0] in s.tasks;
    } else {
      NothingDue(s.tasks, now);
      assert forall t :: t in s.tasks ==> Deadline(t) == t.created + 1000 * t.timeout;
    }
  }

  /** The next step of the worker's own from each place. */
  function OwnStep(w: Worker): Step {
    match w
    case Extracting => Extract
    case Running(_) => Finish(true)
    case Readding(_) => Readd
    case Signalling => SignalReadd
    case Measuring => Measure
    case Waiting(_, _, _) => TestEvent
    case Blocked(_, _, _, _) => Wake
    case _ => TestProceed
  }

  /** Over every run the worker can go on until it has left its loop, except while an outsider holds the
      queue's lock, and the outsider can always let go of it. */
  lemma NeverStuck(run: seq<Moment>, steps: seq<Step>, n: nat, now: Time)
    requires IsRun(run, steps) && n <= |steps|
    ensures var s := run[n].state;
      && (s.adder != Outsider && s.worker != Exited ==> Apply(now, s, OwnStep(s.worker)).Some?)
      && (s.adder == Outsider ==> Apply(now, s, Signal).Some?)
      && (s.adder == Nobody ==>
            forall id, timeout, repeats :: id !in s.known ==> Apply(now, s, Add(id, timeout, repeats)).Some?)
  {
    AlwaysInv(run, steps, n);
  }

  // ---------- the end of a task ----------

  /** A task that has run goes back exactly when it repeats and is wanted again; otherwise it is done. */
  lemma FinishExactly(run: seq<Moment>, steps: seq<Step>, n: nat)
    requires IsRun(run, steps) && n < |steps| && steps[n].Finish?
    ensures run[n].state.worker.Running?
    ensures var t, s' := run[n].state.worker.task, run[n + 1].state;
      if steps[n].again && t.repeats then s'.worker == Readding(t) && s'.done == run[n].state.done
      else s'.worker == Testing && s'.done == run[n].state.done + {t.id}
  {
    assert StepsTo(run, steps, n);
  }

  lemma StepKeepsDone(now: Time, s: State, step: Step)
    requires Apply(now, s, step).Some?
    ensures s.done <= Apply(now, s, step).value.done
  {
  }

  lemma {:induction false} DoneGrows(run: seq<Moment>, steps: seq<Step>, m: nat, n: nat)
    requires IsRun(run, steps) && m <= n <= |steps|
    ensures run[m].state.done <= run[n].state.done
    decreases n
  {
    if m < n {
      DoneGrows(run, steps, m, n - 1);
      assert StepsTo(run, steps, n - 1);
      StepKeepsDone(run[n].now, run[n - 1].state, steps[n - 1]);
    }
  }

  /** What is done is never queued or taken again. */
  lemma DoneIsFinal(run: seq<Moment>, steps: seq<Step>, m: nat, n: nat, t: TimedTask)
    requires IsRun(run, steps) && m <= n <= |steps| && t.id in run[m].state.done
    ensures !Held(run[n].state, t)
  {
    DoneGrows(run, steps, m, n);
    AlwaysInv(run, steps, n);
  }

  predicate Stops(s: State) {
    s.worker == Exited || !s.proceed
  }

  lemma StopStep(now: Time, s: State, step: Step)
    requires Apply(now, s, step).Some? && Stops(Apply(now, s, step).value)
    ensures Stops(s) || step == DisposeClear
  {
  }

  /** The worker leaves its loop only when somebody has asked it to. */
  lemma {:induction false} ExitsOnlyOnDispose(run: seq<Moment>, steps: seq<Step>, n: nat)
    requires IsRun(run, steps) && n <= |steps| && (run[n].state.worker == Exited || !run[n].state.proceed)
    ensures exists j :: 0 <= j < n && steps[j] == DisposeClear
  {
    if n > 0 {
      assert StepsTo(run, steps, n - 1);
      StopStep(run[n].now, run[n - 1].state, steps[n - 1]);
      if steps[n - 1] != DisposeClear {
        ExitsOnlyOnDispose(run, steps, n - 1);
      }
    }
  }

  // ---------- being busy ----------

  ghost predicate HasUrgent(s: State) {
    exists t :: t in s.tasks && t.timeout == 0
  }

  /** The last extraction found nothing. */
  predicate Idles(w: Worker) {
    w.Measuring? || w.Waiting? || w.Blocked?
  }

  lemma InsertUrgent(s: State, t: TimedTask)
    requires t.timeout == 0 || HasUrgent(s)
    ensures exists u :: u in Insert(s.tasks, t) && u.timeout == 0
  {
    InsertMembers(s.tasks, t);
    if t.timeout == 0 {
      assert t in Insert(s.tasks, t);
    }
  }

  lemma BusyStep(now: Time, s: State, step: Step)
    requires Idles(s.worker) && s.busy ==> HasUrgent(s)
    requires Apply(now, s, step).Some? && Idles(Apply(now, s, step).value.worker) && Apply(now, s, step).value.busy
    ensures HasUrgent(Apply(now, s, step).value)
  {
    if step.Add? || (step.Upload? && !s.busy) {
      InsertUrgent(s, TimedTask(step.id, now, step.timeout, step.Add? && step.repeats, s.stamps));
    }
  }

  /** A worker that has found nothing to do is reported busy only when something to run at once has come
      in since. */
  lemma {:induction false} BusyForAReason(run: seq<Moment>, steps: seq<Step>, n: nat)
    requires IsRun(run, steps) && n <= |steps| && run[n].state.busy && Idles(run[n].state.worker)
    ensures exists t :: t in run[n].state.tasks && t.timeout == 0
  {
    if n > 0 {
      assert StepsTo(run, steps, n - 1);
      if Idles(run[n - 1].state.worker) && run[n - 1].state.busy {
        BusyForAReason(run, steps, n - 1);
      }
      BusyStep(run[n].now, run[n - 1].state, steps[n - 1]);
    }
  }

  // ---------- sleeping ----------

  /** Microseconds until the first of `q` is due, written out: ten minutes when there is none. */
  function Left(q: seq<TimedTask>, at: Time): int {
    if q == [] then 600_000_000
    else
      var due := q[0].created + 1000 * q[0].timeout;
      if due > at then (due - at) / 1000 else 0
  }

  /** Step `j` chose how long to wait, from the queue and the clock as they were then. */
  predicate Chose(run: seq<Moment>, steps: seq<Step>, j: nat, w: Worker)
    requires |run| == |steps| + 1 && (w.Waiting? || w.Blocked?)
  {
    && j < |steps| && steps[j] == Measure
    && w.at == run[j + 1].now && w.sample == run[j].state.tasks && w.wait == Left(w.sample, w.at)
  }

  /** Step `k` put the worker to sleep for as long as was chosen. */
  predicate FellAsleep(run: seq<Moment>, steps: seq<Step>, k: nat, w: Worker)
    requires |run| == |steps| + 1 && w.Blocked?
  {
    k < |steps| && steps[k] == TestEvent && !run[k].state.signalled && w.until == run[k + 1].now + 1000 * w.wait
  }

  predicate Waits(w: Worker) {
    w.Waiting? || w.Blocked?
  }

  predicate SameChoice(w: Worker, w': Worker)
    requires Waits(w) && Waits(w')
  {
    w.sample == w'.sample && w.at == w'.at && w.wait == w'.wait
  }

  lemma SleepStep(now: Time, s: State, step: Step)
    requires Apply(now, s, step).Some? && Waits(Apply(now, s, step).value.worker)
    ensures var w' := Apply(now, s, step).value.worker;
      if step == Measure then w' == Waiting(s.tasks, now, Left(s.tasks, now))
      else
        && Waits(s.worker) && SameChoice(s.worker, w')
        && (w'.Blocked? && w' != s.worker ==>
              step == TestEvent && !s.signalled && w'.until == now + 1000 * w'.wait)
  {
  }

  /** Whenever the worker is about to wait or asleep, some step has measured how long. */
  lemma {:induction false} SleepIsMeasured(run: seq<Moment>, steps: seq<Step>, n: nat) returns (j: nat)
    requires IsRun(run, steps) && n <= |steps| && Waits(run[n].state.worker)
    ensures j < n && Chose(run, steps, j, run[n].state.worker)
  {
    assert StepsTo(run, steps, n - 1);
    SleepStep(run[n].now, run[n - 1].state, steps[n - 1]);
    j := n - 1;
    if steps[n - 1] != Measure {
      j := SleepIsMeasured(run, steps, n - 1);
    }
  }

  /** And when it is asleep, some step has put it to sleep for that long. */
  lemma {:induction false} SleepIsBegun(run: seq<Moment>, steps: seq<Step>, n: nat) returns (k: nat)
    requires IsRun(run, steps) && n <= |steps| && run[n].state.worker.Blocked?
    ensures k < n && FellAsleep(run, steps, k, run[n].state.worker)
  {
    assert StepsTo(run, steps, n - 1);
    SleepStep(run[n].now, run[n - 1].state, steps[n - 1]);
    k := n - 1;
    if run[n - 1].state.worker == run[n].state.worker {
      k := SleepIsBegun(run, steps, n - 1);
    }
  }

  /** The worker goes to sleep exactly when it finds no signal; otherwise it takes the signal away. */
  lemma FallsAsleepExactly(run: seq<Moment>, steps: seq<Step>, n: nat)
    requires IsRun(run, steps) && n < |steps| && steps[n] == TestEvent
    ensures var s, s' := run[n].state, run[n + 1].state;
      && !s'.signalled
      && (if s.signalled then s'.worker == Testing else s'.worker.Blocked?)
  {
    assert StepsTo(run, steps, n);
  }

  /** Putting a repeating task back ends with a signal, like every other insertion. */
  lemma ReaddSignals(run: seq<Moment>, steps: seq<Step>, n: nat)
    requires IsRun(run, steps) && n < |steps| && (steps[n] == SignalReadd || steps[n] == Signal)
    ensures run[n + 1].state.signalled && run[n + 1].state.adder == Nobody
    ensures run[n + 1].state.tasks == run[n].state.tasks
  {
    assert StepsTo(run, steps, n);
  }

  /** The worker gets up only on a signal, which it takes away, or when its time has come. */
  lemma WakesExactly(run: seq<Moment>, steps: seq<Step>, n: nat)
    requires IsRun(run, steps) && n < |steps| && run[n].state.worker.Blocked? && steps[n] == Wake
    ensures var s, s' := run[n].state, run[n + 1].state;
      && (s'.worker == Testing <==> s.signalled || run[n + 1].now >= s.worker.until)
      && (s'.worker != Testing ==> s' == s)
      && !s'.signalled
  {
    assert StepsTo(run, steps, n);
  }

  // ---------- the operations are steps of the machine ----------

  ghost predicate Matches(scheduler: Scheduler, s: State)
    reads scheduler, scheduler.event
  {
    && scheduler.Valid() && scheduler.tasks == s.tasks && scheduler.isBusy == s.busy
    && scheduler.event.signalled == s.signalled
  }

  /** Adding a task is the insertion and the signal of the machine. */
  method AddIsTwoSteps(scheduler: Scheduler, now: Time, id: nat, timeout: int, repeats: bool, stamp: nat,
                       ghost s: State)
    returns (ghost s': State)
    requires Matches(scheduler, s) && s.adder == Nobody && id !in s.known && stamp == s.stamps
    modifies scheduler, scheduler.event
    ensures Apply(now, s, Add(id, timeout, repeats)).Some?
    ensures Apply(now, Apply(now, s, Add(id, timeout, repeats)).value, Signal) == Some(s') && Matches(scheduler, s')
  {
    scheduler.Add(TimedTask(id, now, timeout, repeats, stamp));
    s' := Apply(now, Apply(now, s, Add(id, timeout, repeats)).value, Signal).value;
  }

  /** An upload is one refused step, or the insertion and the signal. */
  method UploadIsSteps(scheduler: Scheduler, now: Time, id: nat, timeout: int, stamp: nat, ghost s: State)
    returns (taken: bool, ghost s': State)
    requires Matches(scheduler, s) && s.adder == Nobody && id !in s.known && stamp == s.stamps
    modifies scheduler, scheduler.event
    ensures Apply(now, s, Upload(id, timeout)).Some? && taken == !s.busy && Matches(scheduler, s')
    ensures var s1 := Apply(now, s, Upload(id, timeout)).value;
      if taken then Apply(now, s1, Signal) == Some(s') else s' == s1
  {
    taken := scheduler.UploadIfFree(now, timeout, id, stamp);
    s' := Apply(now, s, Upload(id, timeout)).value;
    if taken {
      s' := Apply(now, s', Signal).value;
    }
  }

  /** Extracting is one step, and gives the worker the task it then runs. */
  method ExtractIsStep(scheduler: Scheduler, now: Time, ghost s: State)
    returns (task: Option<TimedTask>, ghost s': State)
    requires Matches(scheduler, s) && s.adder == Nobody && s.worker == Extracting
    modifies scheduler
    ensures Apply(now, s, Extract) == Some(s') && Matches(scheduler, s')
    ensures s'.worker == if task.Some? then Running(task.value) else Measuring
  {
    task := scheduler.ExtractExpired(now);
    s' := Apply(now, s, Extract).value;
  }

  /** Measuring is one step, and gives the worker the wait it then begins. */
  method MeasureIsStep(scheduler: Scheduler, now: Time, ghost s: State)
    returns (wait: int, ghost s': State)
    requires Matches(scheduler, s) && s.adder == Nobody && s.worker == Measuring
    ensures Apply(now, s, Measure) == Some(s') && Matches(scheduler, s')
    ensures s'.worker.Waiting? && s'.worker.wait == wait
  {
    wait := scheduler.TimeUntilFirst(now);
    s' := Apply(now, s, Measure).value;
  }
}
