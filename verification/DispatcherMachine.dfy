/** The asynchronous dispatcher over many schedulers: dedicated handlers, a pool, and temporary workers
    started when the whole pool is busy. Dispatching to the pool tries one worker after the other, and
    everything else may happen in between. */
module DispatcherMachine {
  import opened Prelude
  import opened TaskQueue
  import S = SchedulerMachine

  /** A task on its way through the pool: the next worker to ask, and the task's delay. */
  datatype Transit = Transit(next: nat, timeout: int)

  /** `schedulers` holds the handlers, then the pool, then the temporary workers. */
  datatype State = State(
    schedulers: seq<S.State>,
    inTransit: map<nat, Transit>,
    known: set<nat>)

  datatype Config = Config(handlers: nat, pool: nat)

  function Start(c: Config): State {
    State(seq(c.handlers + c.pool, _ => S.START), map[], {})
  }

  datatype Step =
    | Direct(k: nat, id: nat, timeout: int, repeats: bool)  // to a handler or a bound scheduler
    | Begin(id: nat, timeout: int)                          // a pool dispatch starts
    | Offer(id: nat)                                        // ask the next pool worker
    | Spawn(id: nat)                                        // all were busy: a temporary worker
    | Local(k: nat, step: S.Step)                           // any step of one scheduler's own

  predicate IsLocal(step: S.Step) {
    !step.Add? && !step.Upload?
  }

  function Apply(c: Config, now: Time, d: State, step: Step): Option<State> {
    match step
    case Direct(k, id, timeout, repeats) =>
      if k >= |d.schedulers| || id in d.known then None
      else
        var s := S.Apply(now, d.schedulers[k], S.Add(id, timeout, repeats));
        if s.None? then None
        else Some(d.(schedulers := d.schedulers[k := s.value], known := d.known + {id}))
    case Begin(id, timeout) =>
      if id in d.known then None
      else Some(d.(inTransit := d.inTransit[id := Transit(0, timeout)], known := d.known + {id}))
    case Offer(id) =>
      if id !in d.inTransit || d.inTransit[id].next >= c.pool then None
      else
        var i := d.inTransit[id].next;
        var k := c.handlers + i;
        if k >= |d.schedulers| then None
        else
          var s := S.Apply(now, d.schedulers[k], S.Upload(id, d.inTransit[id].timeout));
          if s.None? then None
          else if d.schedulers[k].busy then
            Some(d.(inTransit := d.inTransit[id := Transit(i + 1, d.inTransit[id].timeout)]))
          else Some(d.(schedulers := d.schedulers[k := s.value], inTransit := d.inTransit - {id}))
    case Spawn(id) =>
      if id !in d.inTransit || d.inTransit[id].next < c.pool then None
      else
        var s := S.Apply(now, S.START, S.Add(id, d.inTransit[id].timeout, false));
        if s.None? then None
        else Some(d.(schedulers := d.schedulers + [s.value], inTransit := d.inTransit - {id}))
    case Local(k, step) =>
      if k >= |d.schedulers| || !IsLocal(step) then None
      else
        var s := S.Apply(now, d.schedulers[k], step);
        if s.None? then None else Some(d.(schedulers := d.schedulers[k := s.value]))
  }

  // ---------- the invariant ----------

  ghost predicate SchedulersSound(now: Time, d: State) {
    forall k :: 0 <= k < |d.schedulers| ==> S.Inv(now, d.schedulers[k])
  }

  /** No two schedulers know the same task, and none knows a task still in transit. */
  ghost predicate NobodyShares(d: State) {
    && (forall k, l :: 0 <= k < l < |d.schedulers| ==> d.schedulers[k].known !! d.schedulers[l].known)
    && (forall k :: 0 <= k < |d.schedulers| ==> d.schedulers[k].known !! d.inTransit.Keys)
  }

  ghost predicate SomebodyHas(d: State, id: nat) {
    id in d.inTransit || exists k :: 0 <= k < |d.schedulers| && id in d.schedulers[k].known
  }

  /** Exactly the tasks that entered the dispatcher are somewhere. */
  ghost predicate NothingLost(d: State) {
    && (forall id :: id in d.known ==> SomebodyHas(d, id))
    && d.inTransit.Keys <= d.known
    && (forall k :: 0 <= k < |d.schedulers| ==> d.schedulers[k].known <= d.known)
  }

  ghost predicate Inv(now: Time, d: State) {
    SchedulersSound(now, d) && NobodyShares(d) && NothingLost(d)
  }

  lemma StepGrowsKnown(now: Time, s: S.State, step: S.Step)
    requires S.Inv(now, s) && S.Apply(now, s, step).Some?
    ensures var s' := S.Apply(now, s, step).value;
      && S.Inv(now, s')
      && s'.known == if step.Add? || (step.Upload? && !s.busy) then s.known + {step.id} else s.known
  {
    if S.IsWorkerStep(step) {
      S.WorkerStepKeepsInv(now, s, step);
    } else {
      S.OutsideStepKeepsInv(now, s, step);
    }
  }

  /** Replacing one scheduler's state by one that knows at most one more task, which nobody else has. */
  lemma Replace(now: Time, d: State, k: nat, s: S.State, id: nat, d': State)
    requires Inv(now, d) && k < |d.schedulers| && S.Inv(now, s)
    requires s.known == d.schedulers[k].known + {id} || s.known == d.schedulers[k].known
    requires d'.schedulers == d.schedulers[k := s]
    requires d'.inTransit == d.inTransit - {id}
    requires id in s.known || id !in d.inTransit
    requires forall l :: 0 <= l < |d.schedulers| && l != k ==> id !in d.schedulers[l].known || id !in s.known
    requires d'.known == d.known || d'.known == d.known + {id}
    requires id in d'.known <==> id in d.known || id in s.known
    ensures Inv(now, d')
  {
    forall x | x in d'.known ensures SomebodyHas(d', x) {
      if x == id && id in s.known {
        assert x in d'.schedulers[k].known;
      } else if x !in d.inTransit {
        assert SomebodyHas(d, x);
        var l :| 0 <= l < |d.schedulers| && x in d.schedulers[l].known;
        assert x in d'.schedulers[l].known;
      }
    }
    assert forall l :: 0 <= l < |d.schedulers| && l != k ==> d'.schedulers[l] == d.schedulers[l];
    assert d'.schedulers[k] == s;
  }

  /** A scheduler takes in a task that the dispatcher has never seen. */
  lemma NewTaskKeepsInv(now: Time, d: State, k: nat, s: S.State, id: nat)
    requires Inv(now, d) && k < |d.schedulers| && S.Inv(now, s) && id !in d.known
    requires s.known == d.schedulers[k].known + {id}
    ensures Inv(now, d.(schedulers := d.schedulers[k := s], known := d.known + {id}))
  {
    forall l | 0 <= l < |d.schedulers| ensures id !in d.schedulers[l].known {
    }
    assert d.inTransit == d.inTransit - {id};
    Replace(now, d, k, s, id, d.(schedulers := d.schedulers[k := s], known := d.known + {id}));
  }

  lemma DirectKeepsInv(c: Config, now: Time, d: State, step: Step)
    requires Inv(now, d) && step.Direct? && Apply(c, now, d, step).Some?
    ensures Inv(now, Apply(c, now, d, step).value)
  {
    var add := S.Add(step.id, step.timeout, step.repeats);
    StepGrowsKnown(now, d.schedulers[step.k], add);
    NewTaskKeepsInv(now, d, step.k, S.Apply(now, d.schedulers[step.k], add).value, step.id);
  }

  lemma LocalKeepsInv(c: Config, now: Time, d: State, step: Step)
    requires Inv(now, d) && step.Local? && Apply(c, now, d, step).Some?
    ensures Inv(now, Apply(c, now, d, step).value)
  {
    StepGrowsKnown(now, d.schedulers[step.k], step.step);
    var s := S.Apply(now, d.schedulers[step.k], step.step).value;
    var d' := Apply(c, now, d, step).value;
    forall x | x in d'.known ensures SomebodyHas(d', x) {
      if x !in d.inTransit {
        assert SomebodyHas(d, x);
        var l :| 0 <= l < |d.schedulers| && x in d.schedulers[l].known;
        assert x in d'.schedulers[l].known;
      }
    }
  }

  lemma BeginKeepsInv(c: Config, now: Time, d: State, step: Step)
    requires Inv(now, d) && step.Begin? && Apply(c, now, d, step).Some?
    ensures Inv(now, Apply(c, now, d, step).value)
  {
    var d' := Apply(c, now, d, step).value;
    forall x | x in d'.known ensures SomebodyHas(d', x) {
      if x != step.id {
        assert SomebodyHas(d, x);
      }
    }
  }

  lemma OfferKeepsInv(c: Config, now: Time, d: State, step: Step)
    requires Inv(now, d) && step.Offer? && Apply(c, now, d, step).Some?
    ensures Inv(now, Apply(c, now, d, step).value)
  {
    var k, timeout := c.handlers + d.inTransit[step.id].next, d.inTransit[step.id].timeout;
    var d' := Apply(c, now, d, step).value;
    if d.schedulers[k].busy {
      assert d'.inTransit.Keys == d.inTransit.Keys;
      forall x | x in d'.known ensures SomebodyHas(d', x) {
        assert SomebodyHas(d, x);
      }
    } else {
      StepGrowsKnown(now, d.schedulers[k], S.Upload(step.id, timeout));
      Replace(now, d, k, S.Apply(now, d.schedulers[k], S.Upload(step.id, timeout)).value, step.id, d');
    }
  }

  /** `d'` is `d` with a new scheduler that has taken over a task in transit. */
  ghost predicate Takes(d: State, s: S.State, id: nat, d': State) {
    && s.known == {id} && id in d.inTransit
    && d' == d.(schedulers := d.schedulers + [s], inTransit := d.inTransit - {id})
  }

  lemma ExtendShares(d: State, s: S.State, id: nat, d': State)
    requires NobodyShares(d) && Takes(d, s, id, d')
    ensures NobodyShares(d')
  {
    var n := |d.schedulers|;
    forall l | 0 <= l < n ensures d'.schedulers[l] == d.schedulers[l] && id !in d.schedulers[l].known {
    }
    assert d'.schedulers[n] == s;
  }

  lemma ExtendKeepsAll(d: State, s: S.State, id: nat, d': State)
    requires NothingLost(d) && Takes(d, s, id, d')
    ensures NothingLost(d')
  {
    var n := |d.schedulers|;
    assert d'.schedulers[n] == s;
    forall x | x in d'.known ensures SomebodyHas(d', x) {
      assert SomebodyHas(d, x);
      if x == id {
        assert x in d'.schedulers[n].known;
      } else if x !in d.inTransit {
        var l :| 0 <= l < n && x in d.schedulers[l].known;
        assert x in d'.schedulers[l].known;
      }
    }
  }

  lemma Extend(now: Time, d: State, s: S.State, id: nat, d': State)
    requires Inv(now, d) && S.Inv(now, s) && Takes(d, s, id, d')
    ensures Inv(now, d')
  {
    ExtendShares(d, s, id, d');
    ExtendKeepsAll(d, s, id, d');
    assert forall l :: 0 <= l < |d'.schedulers| ==>
      d'.schedulers[l] == if l < |d.schedulers| then d.schedulers[l] else s;
  }

  lemma SpawnKeepsInv(c: Config, now: Time, d: State, step: Step)
    requires Inv(now, d) && step.Spawn? && Apply(c, now, d, step).Some?
    ensures Inv(now, Apply(c, now, d, step).value)
  {
    var add := S.Add(step.id, d.inTransit[step.id].timeout, false);
    StepGrowsKnown(now, S.START, add);
    Extend(now, d, S.Apply(now, S.START, add).value, step.id, Apply(c, now, d, step).value);
  }

  // ---------- runs ----------

  datatype Moment = Moment(now: Time, state: State)

  predicate StepsTo(c: Config, run: seq<Moment>, steps: seq<Step>, i: nat)
    requires i < |steps| == |run| - 1
  {
    && run[i].now <= run[i + 1].now
    && Apply(c, run[i + 1].now, run[i].state, steps[i]) == Some(run[i + 1].state)
  }

  ghost predicate IsRun(c: Config, run: seq<Moment>, steps: seq<Step>) {
    && |run| == |steps| + 1
    && run[0].state == Start(c)
    && forall i :: 0 <= i < |steps| ==> StepsTo(c, run, steps, i)
  }

  lemma TimePasses(now: Time, later: Time, d: State)
    requires Inv(now, d) && now <= later
    ensures Inv(later, d)
  {
    forall k | 0 <= k < |d.schedulers| ensures S.Inv(later, d.schedulers[k]) {
      S.TimePasses(now, later, d.schedulers[k]);
    }
  }

  lemma {:induction false} AlwaysInv(c: Config, run: seq<Moment>, steps: seq<Step>, n: nat)
    requires IsRun(c, run, steps) && n <= |steps|
    ensures Inv(run[n].now, run[n].state)
  {
    if n > 0 {
      AlwaysInv(c, run, steps, n - 1);
      assert StepsTo(c, run, steps, n - 1);
      var now, d, step := run[n].now, run[n - 1].state, steps[n - 1];
      TimePasses(run[n - 1].now, now, d);
      match step {
        case Direct(_, _, _, _) => DirectKeepsInv(c, now, d, step);
        case Begin(_, _) => BeginKeepsInv(c, now, d, step);
        case Offer(_) => OfferKeepsInv(c, now, d, step);
        case Spawn(_) => SpawnKeepsInv(c, now, d, step);
        case Local(_, _) => LocalKeepsInv(c, now, d, step);
      }
    }
  }

  /** Over every interleaving each task is either in transit or with one scheduler, and never with two;
      there it is queued, in the worker's hands or done, and never two of these. */
  lemma ExactlyOneScheduler(c: Config, run: seq<Moment>, steps: seq<Step>, n: nat, id: nat)
    requires IsRun(c, run, steps) && n <= |steps| && id in run[n].state.known
    ensures var d := run[n].state;
      && SomebodyHas(d, id)
      && (forall k, l | 0 <= k < |d.schedulers| && 0 <= l < |d.schedulers| ::
            id in d.schedulers[k].known && id in d.schedulers[l].known ==> k == l)
      && (forall k :: 0 <= k < |d.schedulers| && id in d.schedulers[k].known ==>
            && id !in d.inTransit
            && S.Conserved(d.schedulers[k]))
  {
    AlwaysInv(c, run, steps, n);
    var d := run[n].state;
    assert NothingLost(d);
    forall k, l | 0 <= k < |d.schedulers| && 0 <= l < |d.schedulers|
      && id in d.schedulers[k].known && id in d.schedulers[l].known
      ensures k == l
    {
      if k < l {
        assert false;
      } else if l < k {
        assert false;
      }
    }
  }

  /** Over every interleaving a pool worker takes a dispatched task only when it executes nothing and has
      nothing queued to execute at once; all other schedulers stay as they were. */
  lemma PoolTakesOnlyWhenFree(c: Config, run: seq<Moment>, steps: seq<Step>, n: nat)
    requires IsRun(c, run, steps) && n < |steps| && steps[n].Offer?
    requires steps[n].id !in run[n + 1].state.inTransit
    ensures var d, d' := run[n].state, run[n + 1].state;
      exists k :: c.handlers <= k < c.handlers + c.pool && k < |d.schedulers| == |d'.schedulers|
        && steps[n].id in S.QueuedIds(d'.schedulers[k].tasks)
        && S.InHand(d.schedulers[k].worker) == {}
        && (forall t :: t in d.schedulers[k].tasks ==> t.timeout != 0)
        && d'.schedulers == d.schedulers[k := d'.schedulers[k]]
  {
    AlwaysInv(c, run, steps, n);
    assert StepsTo(c, run, steps, n);
    var now, d, id := run[n + 1].now, run[n].state, steps[n].id;
    TimePasses(run[n].now, now, d);
    var k, timeout := c.handlers + d.inTransit[id].next, d.inTransit[id].timeout;
    assert !d.schedulers[k].busy;
    assert S.IdleWhenFree(d.schedulers[k]);
    var s := d.schedulers[k];
    var t := TimedTask(id, now, timeout, false, s.stamps);
    InsertMembers(s.tasks, t);
    assert t in run[n + 1].state.schedulers[k].tasks;
  }
}
