/** What the dispatcher keeps of a task on its way, and when it starts a temporary worker. */
module DispatcherLaws {
  import opened Prelude
  import opened TaskQueue
  import opened DispatcherMachine
  import S = SchedulerMachine
  import L = SchedulerLaws

  /** Step `j` brought the task to the dispatcher on these terms: straight to scheduler `k`, or for the
      pool, which then has `k` or started it. */
  predicate BroughtBy(c: Config, steps: seq<Step>, j: nat, k: nat, t: TimedTask) {
    && j < |steps|
    && (|| steps[j] == Direct(k, t.id, t.timeout, t.repeats)
        || (steps[j] == Begin(t.id, t.timeout) && !t.repeats && c.handlers <= k))
  }

  predicate HeldAt(d: State, k: nat, t: TimedTask) {
    k < |d.schedulers| && L.Held(d.schedulers[k], t)
  }

  /** A task in transit keeps the delay it was dispatched with. */
  lemma {:induction false} TransitKeepsDelay(c: Config, run: seq<Moment>, steps: seq<Step>, n: nat, id: nat)
    requires IsRun(c, run, steps) && n <= |steps| && id in run[n].state.inTransit
    ensures exists j :: 0 <= j < n && steps[j] == Begin(id, run[n].state.inTransit[id].timeout)
  {
    if n > 0 {
      assert StepsTo(c, run, steps, n - 1);
      if id in run[n - 1].state.inTransit {
        TransitKeepsDelay(c, run, steps, n - 1, id);
      } else {
        assert steps[n - 1] == Begin(id, run[n].state.inTransit[id].timeout);
      }
    }
  }

  /** Schedulers are never taken away. */
  lemma {:induction false} SchedulersStay(c: Config, run: seq<Moment>, steps: seq<Step>, n: nat)
    requires IsRun(c, run, steps) && n <= |steps|
    ensures c.handlers + c.pool <= |run[n].state.schedulers|
  {
    if n > 0 {
      SchedulersStay(c, run, steps, n - 1);
      assert StepsTo(c, run, steps, n - 1);
    }
  }

  /** What is newly held after one step of the dispatcher. */
  lemma NewlyHeldAt(c: Config, now: Time, d: State, step: Step, k: nat, t: TimedTask)
    requires Apply(c, now, d, step).Some? && HeldAt(Apply(c, now, d, step).value, k, t) && !HeldAt(d, k, t)
    requires c.handlers <= |d.schedulers|
    ensures
      || step == Direct(k, t.id, t.timeout, t.repeats)
      || (&& (step == Offer(t.id) || step == Spawn(t.id)) && c.handlers <= k && !t.repeats
          && t.id in d.inTransit && d.inTransit[t.id].timeout == t.timeout)
      || (&& k < |d.schedulers| && d.schedulers[k].worker.Readding?
          && L.SameTask(t, d.schedulers[k].worker.task))
  {
    match step
    case Direct(_, id, timeout, repeats) =>
      L.NewlyHeld(now, d.schedulers[k], S.Add(id, timeout, repeats), t);
    case Begin(_, _) =>
    case Offer(id) =>
      L.NewlyHeld(now, d.schedulers[k], S.Upload(id, d.inTransit[id].timeout), t);
    case Spawn(id) =>
      L.NewlyHeld(now, S.START, S.Add(id, d.inTransit[id].timeout, false), t);
    case Local(_, local) =>
      L.NewlyHeld(now, d.schedulers[k], local, t);
  }

  /** Over every run, whatever task a scheduler holds came to the dispatcher with this very delay and
      repetition, for this scheduler or for the pool. */
  lemma {:induction false} TasksKeepTheirTerms(c: Config, run: seq<Moment>, steps: seq<Step>,
      n: nat, k: nat, t: TimedTask)
    requires IsRun(c, run, steps) && n <= |steps| && HeldAt(run[n].state, k, t)
    ensures exists j :: 0 <= j < n && BroughtBy(c, steps, j, k, t)
  {
    if n > 0 {
      var d := run[n - 1].state;
      assert StepsTo(c, run, steps, n - 1);
      if HeldAt(d, k, t) {
        TasksKeepTheirTerms(c, run, steps, n - 1, k, t);
      } else {
        SchedulersStay(c, run, steps, n - 1);
        NewlyHeldAt(c, run[n].now, d, steps[n - 1], k, t);
        if steps[n - 1] == Direct(k, t.id, t.timeout, t.repeats) {
          assert BroughtBy(c, steps, n - 1, k, t);
        } else if steps[n - 1].Offer? || steps[n - 1].Spawn? {
          TransitKeepsDelay(c, run, steps, n - 1, t.id);
          var j :| 0 <= j < n - 1 && steps[j] == Begin(t.id, t.timeout);
          assert BroughtBy(c, steps, j, k, t);
        } else {
          var u := d.schedulers[k].worker.task;
          TasksKeepTheirTerms(c, run, steps, n - 1, k, u);
          var j :| 0 <= j < n - 1 && BroughtBy(c, steps, j, k, u);
          assert BroughtBy(c, steps, j, k, t);
        }
      }
    }
  }

  // ---------- temporary workers ----------

  /** Step `j` offered the task to pool worker `w`, which was busy. */
  predicate RefusedBy(c: Config, run: seq<Moment>, steps: seq<Step>, j: nat, w: nat, id: nat)
    requires |run| == |steps| + 1
  {
    && j < |steps| && steps[j] == Offer(id)
    && c.handlers + w < |run[j].state.schedulers| && run[j].state.schedulers[c.handlers + w].busy
  }

  /** Pool worker `w` has refused the task at some step before `n`. */
  ghost predicate Refused(c: Config, run: seq<Moment>, steps: seq<Step>, n: nat, w: nat, id: nat)
    requires |run| == |steps| + 1
  {
    exists j :: 0 <= j < n && RefusedBy(c, run, steps, j, w, id)
  }

  /** A task moves on to the next pool worker only when the one before was busy. */
  lemma {:induction false} MovesOnWhenRefused(c: Config, run: seq<Moment>, steps: seq<Step>, n: nat, id: nat, w: nat)
    requires IsRun(c, run, steps) && n <= |steps| && id in run[n].state.inTransit
    requires w < run[n].state.inTransit[id].next
    ensures Refused(c, run, steps, n, w, id)
  {
    if n > 0 {
      assert StepsTo(c, run, steps, n - 1);
      var d := run[n - 1].state;
      if id in d.inTransit && w < d.inTransit[id].next {
        MovesOnWhenRefused(c, run, steps, n - 1, id, w);
      } else {
        assert RefusedBy(c, run, steps, n - 1, w, id);
      }
    }
  }

  /** A temporary worker is started only after every worker of the pool was found busy, and then gets
      that one task; everybody else is left alone. */
  lemma SpawnsWhenAllBusy(c: Config, run: seq<Moment>, steps: seq<Step>, n: nat, id: nat)
    requires IsRun(c, run, steps) && n < |steps| && steps[n] == Spawn(id)
    ensures forall w :: 0 <= w < c.pool ==> Refused(c, run, steps, n, w, id)
    ensures id in run[n].state.inTransit
    ensures var d, d', t := run[n].state, run[n + 1].state, run[n].state.inTransit[id].timeout;
      && |d'.schedulers| == |d.schedulers| + 1 && d'.schedulers[..|d.schedulers|] == d.schedulers
      && d'.schedulers[|d.schedulers|].tasks == [TimedTask(id, run[n + 1].now, t, false, 0)]
      && d'.inTransit == d.inTransit - {id}
  {
    assert StepsTo(c, run, steps, n);
    forall w | 0 <= w < c.pool ensures Refused(c, run, steps, n, w, id) {
      MovesOnWhenRefused(c, run, steps, n, id, w);
    }
  }

  /** A task in transit can always be offered on, or given to a temporary worker, unless the worker to ask
      next is just being added to. */
  lemma TransitGoesOn(c: Config, run: seq<Moment>, steps: seq<Step>, n: nat, id: nat, now: Time)
    requires IsRun(c, run, steps) && n <= |steps| && id in run[n].state.inTransit
    ensures var d, i := run[n].state, run[n].state.inTransit[id].next;
      if i < c.pool
      then c.handlers + i < |d.schedulers|
           && (d.schedulers[c.handlers + i].adder == S.Nobody ==> Apply(c, now, d, Offer(id)).Some?)
      else Apply(c, now, d, Spawn(id)).Some?
  {
    AlwaysInv(c, run, steps, n);
    SchedulersStay(c, run, steps, n);
    var d, i := run[n].state, run[n].state.inTransit[id].next;
    if i < c.pool {
      assert d.schedulers[c.handlers + i].known !! d.inTransit.Keys;
    }
  }
}
