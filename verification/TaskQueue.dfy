/** The scheduler's deadline-ordered task queue and the operations it runs under its lock. */
module TaskQueue {
  import opened Prelude

  /** Time in nanoseconds. */
  type Time = int

  /** A task: who it is, when it was created, its delay in microseconds, and whether it repeats.
      `stamp` counts insertions; it only serves to state that ties keep their order. */
  datatype TimedTask = TimedTask(id: nat, created: Time, timeout: int, repeats: bool, stamp: nat)

  function Deadline(t: TimedTask): Time {
    t.created + 1000 * t.timeout
  }

  predicate Sorted(q: seq<TimedTask>) {
    forall i, j :: 0 <= i < j < |q| ==> Deadline(q[i]) <= Deadline(q[j])
  }

  /** Earlier deadline first, and among equals earlier insertion first. */
  predicate Precedes(a: TimedTask, b: TimedTask) {
    Deadline(a) < Deadline(b) || (Deadline(a) == Deadline(b) && a.stamp < b.stamp)
  }

  predicate Stable(q: seq<TimedTask>) {
    forall i, j :: 0 <= i < j < |q| ==> Precedes(q[i], q[j])
  }

  /** The first position with a later deadline. */
  function After(q: seq<TimedTask>, tp: Time): (k: nat)
    ensures k <= |q|
    ensures forall i :: 0 <= i < k ==> Deadline(q[i]) <= tp
    ensures k < |q| ==> tp < Deadline(q[k])
  {
    if q == [] || tp < Deadline(q[0]) then 0 else 1 + After(q[1..], tp)
  }

  /** Insertion behind every task that is due no later. */
  function Insert(q: seq<TimedTask>, t: TimedTask): seq<TimedTask> {
    var k := After(q, Deadline(t));
    q[..k] + [t] + q[k..]
  }

  lemma {:induction false} AfterIsUnique(q: seq<TimedTask>, tp: Time, k: nat)
    requires k <= |q|
    requires forall i :: 0 <= i < k ==> Deadline(q[i]) <= tp
    requires forall i :: k <= i < |q| ==> tp < Deadline(q[i])
    ensures After(q, tp) == k
  {
    if k > 0 {
      AfterIsUnique(q[1..], tp, k - 1);
    }
  }

  lemma InsertAt(q: seq<TimedTask>, t: TimedTask, i: nat)
    requires i < |Insert(q, t)|
    ensures |Insert(q, t)| == |q| + 1
    ensures var k := After(q, Deadline(t));
      Insert(q, t)[i] == if i < k then q[i] else if i == k then t else q[i - 1]
  {
  }

  lemma InsertKeepsSorted(q: seq<TimedTask>, t: TimedTask)
    requires Sorted(q)
    ensures Sorted(Insert(q, t))
  {
    var r := Insert(q, t);
    forall i, j | 0 <= i < j < |r| ensures Deadline(r[i]) <= Deadline(r[j]) {
      InsertAt(q, t, i);
      InsertAt(q, t, j);
    }
  }

  /** A new task goes behind the old ones of the same deadline. */
  lemma InsertKeepsStable(q: seq<TimedTask>, t: TimedTask)
    requires Stable(q) && forall u :: u in q ==> u.stamp < t.stamp
    ensures Stable(Insert(q, t))
  {
    var r := Insert(q, t);
    forall i, j | 0 <= i < j < |r| ensures Precedes(r[i], r[j]) {
      InsertAt(q, t, i);
      InsertAt(q, t, j);
    }
  }

  lemma StableIsSorted(q: seq<TimedTask>)
    requires Stable(q)
    ensures Sorted(q)
  {
    forall i, j | 0 <= i < j < |q| ensures Deadline(q[i]) <= Deadline(q[j]) {
      assert Precedes(q[i], q[j]);
    }
  }

  lemma InsertMembers(q: seq<TimedTask>, t: TimedTask)
    ensures forall u :: u in Insert(q, t) <==> u in q || u == t
    ensures multiset(Insert(q, t)) == multiset(q) + multiset{t}
  {
    var k := After(q, Deadline(t));
    assert q == q[..k] + q[k..];
  }

  /** Default wait when nothing is queued: ten minutes, in microseconds. */
  const IDLE_WAIT := 600_000_000

  /** Microseconds until the first task is due, rounded down. */
  function UntilFirst(q: seq<TimedTask>, now: Time): int {
    if q == [] then IDLE_WAIT
    else if Deadline(q[0]) > now then (Deadline(q[0]) - now) / 1000
    else 0
  }

  /** The wait never overshoots: it ends no later than the earliest deadline of all, and stops less
      than a microsecond short of it. */
  lemma WaitEndsInTime(q: seq<TimedTask>, now: Time)
    requires Sorted(q)
    ensures UntilFirst(q, now) >= 0
    ensures forall t :: t in q ==> 1000 * UntilFirst(q, now) <= if Deadline(t) > now then Deadline(t) - now else 0
    ensures q != [] && Deadline(q[0]) > now ==> Deadline(q[0]) - now < 1000 * UntilFirst(q, now) + 1000
  {
    forall t | t in q ensures Deadline(q[0]) <= Deadline(t) {
      var i :| 0 <= i < |q| && q[i] == t;
    }
  }

  /** Whether the first task is due. */
  predicate Due(q: seq<TimedTask>, now: Time) {
    q != [] && Deadline(q[0]) <= now
  }

  /** The task that is extracted is due and precedes every other one. */
  lemma ExtractedIsFirst(q: seq<TimedTask>, now: Time)
    requires Stable(q) && Due(q, now)
    ensures Deadline(q[0]) <= now
    ensures forall t :: t in q[1..] ==> Precedes(q[0], t)
  {
    forall t | t in q[1..] ensures Precedes(q[0], t) {
      var i :| 0 <= i < |q[1..]| && q[1..][i] == t;
      assert q[i + 1] == t;
    }
  }

  /** When the first task is not due, no task is. */
  lemma NothingDue(q: seq<TimedTask>, now: Time)
    requires Sorted(q) && !Due(q, now)
    ensures forall t :: t in q ==> Deadline(t) > now
  {
    forall t | t in q ensures Deadline(t) > now {
      var i :| 0 <= i < |q| && q[i] == t;
    }
  }

  /** The auto-reset event that wakes the worker. */
  class Event {
    var signalled: bool

    constructor ()
      ensures !signalled
    {
      signalled := false;
    }

    method Set()
      modifies this
      ensures signalled
    {
      signalled := true;
    }

    /** The predicate that `wait` evaluates: it reports the signal and takes it away. */
    method Poll() returns (was: bool)
      modifies this
      ensures was == old(signalled) && !signalled
    {
      was := signalled;
      signalled := false;
    }
  }

  /** The scheduler's state and its operations; each method runs with the queue's lock held, and
      `now` is the clock as read under it. */
  class Scheduler {
    var tasks: seq<TimedTask>
    var isBusy: bool
    var proceed: bool
    const event: Event

    ghost predicate Valid()
      reads this
    {
      Sorted(tasks)
    }

    constructor ()
      ensures Valid() && tasks == [] && !isBusy && proceed
      ensures fresh(event) && !event.signalled
    {
      tasks, isBusy, proceed := [], false, true;
      event := new Event();
    }

    /** The binary search behind `std::upper_bound`. */
    method FindAfter(tp: Time) returns (k: nat)
      requires Valid()
      ensures k == After(tasks, tp)
    {
      var lo, hi := 0, |tasks|;
      while lo < hi
        invariant 0 <= lo <= hi <= |tasks|
        invariant forall i :: 0 <= i < lo ==> Deadline(tasks[i]) <= tp
        invariant forall i :: hi <= i < |tasks| ==> tp < Deadline(tasks[i])
      {
        var mid := (lo + hi) / 2;
        if tp < Deadline(tasks[mid]) {
          hi := mid;
        } else {
          lo := mid + 1;
        }
      }
      AfterIsUnique(tasks, tp, lo);
      k := lo;
    }

    method Add(task: TimedTask)
      requires Valid()
      modifies this, event
      ensures Valid() && tasks == Insert(old(tasks), task) && event.signalled
      ensures isBusy == (old(isBusy) || task.timeout == 0) && proceed == old(proceed)
    {
      if task.timeout == 0 {
        isBusy := true;
      }
      var k := FindAfter(Deadline(task));
      InsertKeepsSorted(tasks, task);
      tasks := tasks[..k] + [task] + tasks[k..];
      event.Set();
    }

    method ExtractExpired(now: Time) returns (task: Option<TimedTask>)
      requires Valid()
      modifies this
      ensures Valid() && proceed == old(proceed) && isBusy == task.Some?
      ensures task == if Due(old(tasks), now) then Some(old(tasks)[0]) else None
      ensures tasks == if task.Some? then old(tasks)[1..] else old(tasks)
    {
      if tasks != [] && Deadline(tasks[0]) <= now {
        task := Some(tasks[0]);
        tasks := tasks[1..];
        isBusy := true;
      } else {
        task := None;
        isBusy := false;
      }
    }

    method TimeUntilFirst(now: Time) returns (wait: int)
      requires Valid()
      ensures wait == UntilFirst(tasks, now)
      ensures forall t :: t in tasks ==> 1000 * wait <= if Deadline(t) > now then Deadline(t) - now else 0
    {
      WaitEndsInTime(tasks, now);
      if tasks != [] {
        var timepoint := Deadline(tasks[0]);
        if timepoint > now {
          return (timepoint - now) / 1000;
        }
        return 0;
      }
      return IDLE_WAIT;
    }

    /** Takes the task when nothing is being executed, otherwise hands it back. */
    method UploadIfFree(now: Time, timeout: int, id: nat, stamp: nat) returns (taken: bool)
      requires Valid()
      modifies this, event
      ensures Valid() && taken == !old(isBusy) && proceed == old(proceed)
      ensures taken ==> tasks == Insert(old(tasks), TimedTask(id, now, timeout, false, stamp))
      ensures taken ==> event.signalled && isBusy == (timeout == 0)
      ensures !taken ==> tasks == old(tasks) && isBusy && event.signalled == old(event.signalled)
    {
      if isBusy {
        return false;
      }
      Add(TimedTask(id, now, timeout, false, stamp));
      return true;
    }
  }

  predicate AllDistinct(pool: seq<Scheduler>) {
    && (forall i, j :: 0 <= i < j < |pool| ==> pool[i] != pool[j])
    && (forall i, j :: 0 <= i < j < |pool| ==> pool[i].event != pool[j].event)
  }

  /** The dispatcher's walk over its pool: the task goes to the first free worker and to no other; when
      all are busy nobody gets it and the caller starts a temporary one. */
  method UploadToPool(pool: seq<Scheduler>, now: Time, timeout: int, id: nat, stamp: nat) returns (taker: Option<nat>)
    requires AllDistinct(pool) && forall s :: s in pool ==> s.Valid()
    modifies pool, set s | s in pool :: s.event
    ensures forall s :: s in pool ==> s.Valid()
    ensures taker.None? <==> forall s :: s in pool ==> old(s.isBusy)
    ensures taker.Some? ==>
      && taker.value < |pool| && !old(pool[taker.value].isBusy)
      && (forall i :: 0 <= i < taker.value ==> old(pool[i].isBusy))
      && pool[taker.value].tasks == Insert(old(pool[taker.value].tasks), TimedTask(id, now, timeout, false, stamp))
      && pool[taker.value].event.signalled
    ensures forall i :: 0 <= i < |pool| && Some(i) != taker ==>
      pool[i].tasks == old(pool[i].tasks) && pool[i].isBusy == old(pool[i].isBusy)
  {
    for i := 0 to |pool|
      invariant forall s :: s in pool ==> s.Valid() && s.tasks == old(s.tasks) && s.isBusy == old(s.isBusy)
      invariant forall j :: 0 <= j < i ==> old(pool[j].isBusy)
    {
      var taken := pool[i].UploadIfFree(now, timeout, id, stamp);
      if taken {
        assert forall j :: 0 <= j < |pool| && j != i ==> pool[j] != pool[i];
        return Some(i);
      }
    }
    return None;
  }
}
