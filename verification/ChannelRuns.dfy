/** The channel protocol over whole runs of interleaved operations. */
module ChannelRuns {
  import opened Prelude
  import opened Channel

  // ---------- runs ----------

  ghost predicate IsRun(run: seq<State>, steps: seq<Step>) {
    && |run| == |steps| + 1
    && run[0] == EMPTY
    && forall i :: 0 <= i < |steps| ==> StepsTo(run, steps, i)
  }

  ghost predicate StepsTo(run: seq<State>, steps: seq<Step>, i: nat)
    requires i < |steps| == |run| - 1
  {
    Apply(run[i], steps[i]) == Some(run[i + 1])
  }

  lemma {:induction false} AlwaysInv(run: seq<State>, steps: seq<Step>, n: nat)
    requires IsRun(run, steps) && n <= |steps|
    ensures Inv(run[n])
  {
    if n > 0 {
      AlwaysInv(run, steps, n - 1);
      assert StepsTo(run, steps, n - 1);
      match steps[n - 1] {
        case Create(s, r) => CreateKeepsInv(run[n - 1], s, r);
        case Begin(i, op) => BeginKeepsInv(run[n - 1], i, op);
        case Do(i) => DoKeepsInv(run[n - 1], i);
      }
    }
  }

  /** Over every interleaving: whenever nobody holds the locks of two endpoints, and in particular
      whenever no operation is in progress, one points at the other exactly when it is pointed back at. */
  lemma LinksAreMutual(run: seq<State>, steps: seq<Step>, n: nat, a: End, b: End)
    requires IsRun(run, steps) && n <= |steps|
    requires var st := run[n]; a in st.opp && b in st.opp && a !in st.lock && b !in st.lock
    ensures run[n].opp[a] == Some(b) <==> run[n].opp[b] == Some(a)
  {
    AlwaysInv(run, steps, n);
    var st := run[n];
    UnlockedIsTrue(st, a);
    UnlockedIsTrue(st, b);
  }

  lemma UnlockedIsTrue(st: State, e: End)
    requires Inv(st) && e in st.opp && e !in st.lock
    ensures st.opp[e] == Partner(st.link, e)
  {
    if j :| LagsIn(st, j, e) {
      LaggingIsLocked(st, j, e);
    }
  }

  /** With no operation in progress no lock is held at all. */
  lemma QuietIsUnlocked(run: seq<State>, steps: seq<Step>, n: nat)
    requires IsRun(run, steps) && n <= |steps| && run[n].ops == map[]
    ensures run[n].lock == map[]
  {
    AlwaysInv(run, steps, n);
    if e :| e in run[n].lock {
      assert false;
    }
  }

  /** Over every interleaving, whatever endpoint an operation reaches through a pointer is alive before
      it takes that endpoint's lock, while it holds it and, when a send signals the receiver's event,
      after it has let it go. While the lock is held the endpoint points back, so the source's
      assertions hold. */
  lemma PointersAreSafe(run: seq<State>, steps: seq<Step>, n: nat, i: nat)
    requires IsRun(run, steps) && n <= |steps| && i in run[n].ops
    ensures var st, pc := run[n], run[n].ops[i].pc;
      && (pc.WantOpp? || pc.Try? || pc.HaveOpp? ==> pc.p in st.opp)
      && (pc.Unwind? && st.ops[i].kind == Set ==> pc.p in st.opp)
      && (pc.HaveOpp? ==> st.opp[pc.p] == Some(Source(st.ops[i])))
  {
    AlwaysInv(run, steps, n);
    var st, op := run[n], run[n].ops[i];
    assert Knows(st, op);
    if op.pc.HaveOpp? {
      OppositePointsBack(st, i);
    }
  }

  // ---------- the signal of a sender's destructor ----------

  /** Step `j` ends the destruction of `p`. */
  ghost predicate Destroys(run: seq<State>, steps: seq<Step>, j: nat, p: End)
    requires j < |steps| == |run| - 1
  {
    steps[j].Do? && EndsDrop(run[j], steps[j].i, p, run[j + 1])
  }

  predicate EndsDrop(st: State, i: nat, p: End, st': State) {
    i in st.ops && st.ops[i].kind == Drop && st.ops[i].self == p && i !in st'.ops
  }

  lemma DoKeepsAlive(st: State, i: nat, p: End)
    requires DoStep(st, i).Some? && p in st.opp
    ensures p in DoStep(st, i).value.opp <==> !EndsDrop(st, i, p, DoStep(st, i).value)
  {
  }

  lemma StepKeepsAlive(run: seq<State>, steps: seq<Step>, j: nat, p: End)
    requires IsRun(run, steps) && j < |steps| && p in run[j].opp
    ensures p in run[j + 1].opp <==> !Destroys(run, steps, j, p)
  {
    assert StepsTo(run, steps, j);
    if steps[j].Do? {
      DoKeepsAlive(run[j], steps[j].i, p);
    }
  }

  lemma {:induction false} AliveUntilDestroyed(run: seq<State>, steps: seq<Step>, m: nat, n: nat, p: End)
    requires IsRun(run, steps) && m <= n <= |steps| && p in run[m].opp
    requires forall j :: m <= j < n ==> !Destroys(run, steps, j, p)
    ensures p in run[n].opp
    decreases n
  {
    if m < n {
      AliveUntilDestroyed(run, steps, m, n - 1, p);
      StepKeepsAlive(run, steps, n - 1, p);
    }
  }

  /** After an operation has let go of the opposite `p`, with step `m - 1`, `p` stays alive up to moment
      `n` exactly when nobody finishes destroying it meanwhile. A sender's destructor signals `p` then. */
  lemma ReleasedStaysAliveExactly(run: seq<State>, steps: seq<Step>, m: nat, n: nat, i: nat, p: End)
    requires IsRun(run, steps) && 0 < m <= n <= |steps|
    requires steps[m - 1] == Do(i) && i in run[m - 1].ops && run[m - 1].ops[i].pc == HaveOpp(p)
    ensures (forall l :: m <= l <= n ==> p in run[l].opp) <==>
            (forall j :: m <= j < n ==> !Destroys(run, steps, j, p))
  {
    AlwaysInv(run, steps, m - 1);
    OppositePointsBack(run[m - 1], i);
    StepKeepsAlive(run, steps, m - 1, p);
    assert StepsTo(run, steps, m - 1);
    if forall j :: m <= j < n ==> !Destroys(run, steps, j, p) {
      forall l | m <= l <= n ensures p in run[l].opp {
        AliveUntilDestroyed(run, steps, m, l, p);
      }
    } else {
      var j :| m <= j < n && Destroys(run, steps, j, p);
      if p in run[j].opp {
        StepKeepsAlive(run, steps, j, p);
        assert p !in run[j + 1].opp;
      }
    }
  }

  lemma ExtendRun(run: seq<State>, steps: seq<Step>, a: Step, st: State)
    returns (run': seq<State>, steps': seq<Step>)
    requires IsRun(run, steps) && Apply(run[|run| - 1], a) == Some(st)
    ensures IsRun(run', steps') && run'[|run'| - 1] == st
  {
    run', steps' := run + [st], steps + [a];
    forall i | 0 <= i < |steps'|
      ensures StepsTo(run', steps', i)
    {
      assert i < |steps| ==> StepsTo(run, steps, i);
    }
  }

  const SENDER := Snd(0)
  const RECEIVER := Rcv(0)

  function Dropping(e: End, pc: Pc): Op {
    Op(Drop, e, e, pc)
  }

  /** The sender's destructor has unlinked the receiver and is about to signal it. */
  predicate AboutToSignal(st: State) {
    && st.ops.Keys == {0} && st.ops[0] == Dropping(SENDER, Unwind(RECEIVER))
    && RECEIVER in st.opp && st.opp[RECEIVER] == None && RECEIVER !in st.lock
  }

  lemma SenderUnlinks() returns (run: seq<State>, steps: seq<Step>)
    ensures IsRun(run, steps) && AboutToSignal(run[|run| - 1])
  {
    run, steps := [EMPTY], [];
    var st := Created(EMPTY, 0, 0);
    run, steps := ExtendRun(run, steps, Create(0, 0), st);
    st := Begun(st, 0, Dropping(SENDER, WantSelf));
    run, steps := ExtendRun(run, steps, Begin(0, Dropping(SENDER, WantSelf)), st);
    assert st.opp[SENDER] == Some(RECEIVER) && st.ops.Keys == {0} && st.lock == map[];
    st := DoStep(st, 0).value;
    run, steps := ExtendRun(run, steps, Do(0), st);
    assert st.ops[0].pc == Look && st.lock.Keys == {SENDER};
    st := DoStep(st, 0).value;
    run, steps := ExtendRun(run, steps, Do(0), st);
    assert st.ops[0].pc == WantOpp(RECEIVER) && st.lock.Keys == {SENDER};
    st := DoStep(st, 0).value;
    run, steps := ExtendRun(run, steps, Do(0), st);
    assert st.ops[0].pc == HaveOpp(RECEIVER) && st.ops.Keys == {0};
    st := DoStep(st, 0).value;
    run, steps := ExtendRun(run, steps, Do(0), st);
  }

  /** A sender's destructor can outlive the receiver that it is about to signal. */
  lemma ReceiverGoesFirst() returns (run: seq<State>, steps: seq<Step>)
    ensures IsRun(run, steps)
    ensures var st := run[|run| - 1];
      0 in st.ops && st.ops[0] == Dropping(SENDER, Unwind(RECEIVER)) && RECEIVER !in st.opp
  {
    run, steps := SenderUnlinks();
    var st := run[|run| - 1];
    assert forall j :: !Owns(st, j, RECEIVER);
    var st1 := Begun(st, 1, Dropping(RECEIVER, WantSelf));
    run, steps := ExtendRun(run, steps, Begin(1, Dropping(RECEIVER, WantSelf)), st1);
    var st2 := DoStep(st1, 1).value;
    run, steps := ExtendRun(run, steps, Do(1), st2);
    assert st2.ops[1] == Dropping(RECEIVER, Look) && st2.opp == st.opp && st2.ops[0] == st.ops[0];
    var st3 := DoStep(st2, 1).value;
    run, steps := ExtendRun(run, steps, Do(1), st3);
  }

  // ---------- waiting ----------

  /** The lock an operation is waiting for, if it waits. */
  function Wanted(op: Op): Option<End> {
    match op.pc
    case WantSelf => Some(op.self)
    case WantOther => Some(op.other)
    case WantOpp(p) => Some(p)
    case _ => None
  }

  predicate WaitsFor(st: State, i: nat, j: nat) {
    i in st.ops && Wanted(st.ops[i]).Some? && Wanted(st.ops[i]).value in st.lock
    && st.lock[Wanted(st.ops[i]).value] == j
  }

  /** How far an operation can be from the front of a queue of waiting operations. */
  function Patience(op: Op): nat {
    if op.pc == WantSelf then 2 else if Wanted(op).Some? then 1 else 0
  }

  /** An operation waits only for one that is closer to the front. */
  lemma HolderIsCloser(st: State, i: nat, j: nat)
    requires Inv(st) && WaitsFor(st, i, j)
    ensures j in st.ops && Patience(st.ops[j]) < Patience(st.ops[i])
    ensures Wanted(st.ops[j]).Some? ==> BothSend(st, i, j) && st.ops[i].self == st.ops[j].self
  {
    var op, e := st.ops[i], Wanted(st.ops[i]).value;
    assert Holding(st, j, e);
    var holder := st.ops[j];
    assert WellFormed(op) && WellFormed(holder);
    if op.pc.WantOpp? {
      // only a receiver operation can hold the opposite, and not a move's still unlinked target
      PartnerKind(st, Source(op));
      assert Knows(st, op) && Knows(st, holder) && TargetFree(st, holder);
      assert e in st.link;
      if holder.pc.WantOpp? || holder.pc == WantOther {
        assert Owns(st, j, e);
      }
    } else {
      assert Owns(st, i, e) && e !in Holds(op);
      if Owns(st, j, e) {
        assert BothSend(st, i, j);
      }
    }
  }

  /** Over every interleaving an operation that is waited for does not itself wait, unless both are
      sends that share a sender, and then the one at the front does not wait for a waiting one. */
  lemma WaitsAreShort(run: seq<State>, steps: seq<Step>, n: nat, i: nat, j: nat)
    requires IsRun(run, steps) && n <= |steps| && WaitsFor(run[n], i, j)
    ensures i != j && j in run[n].ops
    ensures forall k :: WaitsFor(run[n], j, k) ==>
      && BothSend(run[n], i, j) && run[n].ops[i].self == run[n].ops[j].self
      && k in run[n].ops && Wanted(run[n].ops[k]).None?
  {
    AlwaysInv(run, steps, n);
    var st := run[n];
    HolderIsCloser(st, i, j);
    forall k | WaitsFor(st, j, k) ensures k in st.ops && Wanted(st.ops[k]).None? {
      HolderIsCloser(st, j, k);
    }
  }

  /** Operations that each wait for the next, the last one for the first. */
  ghost predicate WaitCycle(st: State, c: seq<nat>) {
    c != [] && WaitsFor(st, c[|c| - 1], c[0]) && forall k :: 0 < k < |c| ==> WaitsFor(st, c[k - 1], c[k])
  }

  lemma {:induction false} ChainDescends(st: State, c: seq<nat>, k: nat)
    requires Inv(st) && WaitCycle(st, c) && k < |c|
    ensures c[0] in st.ops && c[k] in st.ops && Patience(st.ops[c[k]]) + k <= Patience(st.ops[c[0]])
  {
    if k > 0 {
      ChainDescends(st, c, k - 1);
      HolderIsCloser(st, c[k - 1], c[k]);
    }
  }

  /** Over every interleaving no cycle of blocked lock acquisitions arises. */
  lemma NoWaitCycles(run: seq<State>, steps: seq<Step>, n: nat, c: seq<nat>)
    requires IsRun(run, steps) && n <= |steps|
    ensures !WaitCycle(run[n], c)
  {
    AlwaysInv(run, steps, n);
    if WaitCycle(run[n], c) {
      ChainDescends(run[n], c, |c| - 1);
      HolderIsCloser(run[n], c[|c| - 1], c[0]);
    }
  }

  /** Over every interleaving somebody can go on: while an operation is in progress, some operation has
      an enabled step. */
  lemma NeverStuck(run: seq<State>, steps: seq<Step>, n: nat)
    requires IsRun(run, steps) && n <= |steps| && run[n].ops != map[]
    ensures exists i :: i in run[n].ops && DoStep(run[n], i).Some?
  {
    AlwaysInv(run, steps, n);
    var i :| i in run[n].ops;
    var j := FrontOfQueue(run[n], i);
  }

  lemma {:induction false} FrontOfQueue(st: State, i: nat) returns (j: nat)
    requires Inv(st) && i in st.ops
    ensures j in st.ops && DoStep(st, j).Some?
    decreases Patience(st.ops[i])
  {
    j := i;
    if DoStep(st, i).None? {
      CanStep(st, i);
      var k := st.lock[Wanted(st.ops[i]).value];
      HolderIsCloser(st, i, k);
      j := FrontOfQueue(st, k);
    }
  }

  lemma CanStep(st: State, i: nat)
    requires Inv(st) && i in st.ops
    ensures DoStep(st, i).None? ==> Wanted(st.ops[i]).Some? && Wanted(st.ops[i]).value in st.lock
  {
    if st.ops[i].pc == Look {
      LookIsTrue(st, i);
    }
  }

  // ---------- crossing moves ----------

  /** Two moves that have their targets and want their sources wait for each other exactly when each
      one's source is the other's target. Using an endpoint in one operation at a time excludes that. */
  lemma CrossingMovesExactly(st: State, i: nat, j: nat)
    requires LocksOk(st) && i in st.ops && j in st.ops
    requires st.ops[i].kind == Move && st.ops[i].pc == WantOther
    requires st.ops[j].kind == Move && st.ops[j].pc == WantOther
    ensures WaitsFor(st, i, j) && WaitsFor(st, j, i) <==>
      st.ops[i].other == st.ops[j].self && st.ops[j].other == st.ops[i].self
  {
    assert Holding(st, i, st.ops[i].self) && Holding(st, j, st.ops[j].self);
    if WaitsFor(st, i, j) && WaitsFor(st, j, i) {
      assert Holding(st, j, st.ops[i].other) && Holding(st, i, st.ops[j].other);
    }
  }

  /** `a = std::move(b)` and `b = std::move(a)` at once: after one step each, neither can go on. */
  lemma CrossingMovesBlock() returns (start: State, middle: State, end: State)
    ensures start.ops == map[0 := Op(Move, Snd(0), Snd(1), WantSelf), 1 := Op(Move, Snd(1), Snd(0), WantSelf)]
    ensures start.lock == map[] && start.opp == map[Snd(0) := None, Snd(1) := None]
    ensures DoStep(start, 0) == Some(middle) && DoStep(middle, 1) == Some(end)
    ensures WaitCycle(end, [0, 1]) && DoStep(end, 0).None? && DoStep(end, 1).None?
  {
    start := State(map[Snd(0) := None, Snd(1) := None], map[],
                   map[0 := Op(Move, Snd(0), Snd(1), WantSelf), 1 := Op(Move, Snd(1), Snd(0), WantSelf)], map[]);
    middle := DoStep(start, 0).value;
    assert middle.ops[1] == start.ops[1] && middle.lock == map[Snd(0) := 0];
    end := DoStep(middle, 1).value;
    assert end.ops[0].pc == WantOther && end.ops[1].pc == WantOther && end.lock == map[Snd(0) := 0, Snd(1) := 1];
    assert WaitsFor(end, 0, 1) && WaitsFor(end, 1, 0);
  }

  // ---------- moves into linked endpoints ----------

  ghost predicate Mutual(opp: map<End, Option<End>>) {
    forall a :: a in opp && opp[a].Some? ==>
      var b := opp[a].value;
      b in opp && opp[b] == Some(a) && b.Snd? == a.Rcv?
  }

  /** What a move amounts to when nothing else happens meanwhile. */
  function MoveAlone(opp: map<End, Option<End>>, self: End, other: End): map<End, Option<End>>
    requires other in opp
  {
    if opp[other].None? then opp[self := None]
    else opp[opp[other].value := Some(self)][other := None][self := opp[other]]
  }

  function Steps(st: State, i: nat, n: nat): Option<State>
    decreases n
  {
    if n == 0 then Some(st)
    else
      var next := DoStep(st, i);
      if next.None? then None else Steps(next.value, i, n - 1)
  }

  lemma {:induction false} StepsThen(st: State, i: nat, m: nat, mid: State, n: nat)
    requires Steps(st, i, m) == Some(mid)
    ensures Steps(st, i, m + n) == Steps(mid, i, n)
    decreases m
  {
    if m > 0 {
      StepsThen(DoStep(st, i).value, i, m - 1, mid, n);
    }
  }

  /** Operation `i` is a move at `pc`, between endpoints whose pointers are mutual. */
  ghost predicate Moving(st: State, i: nat, pc: Pc) {
    i in st.ops
    && var op := st.ops[i];
       && op.kind == Move && op.pc == pc && op.self != op.other && op.self.Snd? == op.other.Snd?
       && op.other in st.opp && Mutual(st.opp)
  }

  lemma MoveLocks(st: State, i: nat) returns (st2: State)
    requires Moving(st, i, WantSelf) && st.lock == map[]
    ensures Steps(st, i, 2) == Some(st2) && Moving(st2, i, Look) && st2.opp == st.opp
    ensures st2.ops[i] == st.ops[i].(pc := Look) && st2.lock.Keys == {st.ops[i].self, st.ops[i].other}
  {
    var st1 := DoStep(st, i).value;
    assert st1.ops[i] == st.ops[i].(pc := WantOther) && st1.opp == st.opp && st1.lock.Keys == {st.ops[i].self};
    st2 := DoStep(st1, i).value;
    assert Steps(st1, i, 1) == Some(st2);
  }

  lemma MoveReaches(st: State, i: nat, p: End) returns (st2: State)
    requires Moving(st, i, Look) && st.opp[st.ops[i].other] == Some(p)
    requires st.lock.Keys == {st.ops[i].self, st.ops[i].other}
    ensures Steps(st, i, 2) == Some(st2) && Moving(st2, i, HaveOpp(p)) && st2.opp == st.opp
    ensures st2.ops[i] == st.ops[i].(pc := HaveOpp(p))
  {
    var op := st.ops[i];
    assert p.Snd? == op.other.Rcv?;
    var st1 := DoStep(st, i).value;
    assert st1.ops[i].pc == (if op.other.Snd? then WantOpp(p) else Try(p)) && st1.lock == st.lock;
    st2 := DoStep(st1, i).value;
    assert Steps(st1, i, 1) == Some(st2);
  }

  lemma MoveRelinks(st: State, i: nat, p: End)
    requires Moving(st, i, HaveOpp(p)) && st.opp[st.ops[i].other] == Some(p)
    ensures var done := Steps(st, i, 3);
      && done.Some? && i !in done.value.ops
      && done.value.opp == MoveAlone(st.opp, st.ops[i].self, st.ops[i].other)
  {
    var op := st.ops[i];
    var st1 := DoStep(st, i).value;
    assert st1.ops[i] == op.(pc := Unwind(p)) && st1.opp == st.opp[p := Some(op.self)];
    var st2 := DoStep(st1, i).value;
    assert st2.ops[i] == op.(pc := Settle(p)) && st2.opp == st1.opp[op.other := None];
    assert Steps(st2, i, 1) == DoStep(st2, i);
    assert Steps(st1, i, 2) == Steps(st2, i, 1);
  }

  lemma MoveFindsNothing(st: State, i: nat)
    requires Moving(st, i, Look) && st.opp[st.ops[i].other].None?
    ensures var done := Steps(st, i, 1);
      && done.Some? && i !in done.value.ops
      && done.value.opp == MoveAlone(st.opp, st.ops[i].self, st.ops[i].other)
  {
    assert Steps(st, i, 1) == DoStep(st, i);
  }

  /** The steps of a move, taken without interruption, have that effect, whether or not the source of
      the move is linked. */
  lemma MoveStepsAlone(st: State, i: nat)
    requires Moving(st, i, WantSelf) && st.lock == map[]
    ensures var done := Steps(st, i, if st.opp[st.ops[i].other].None? then 3 else 7);
      && done.Some? && i !in done.value.ops
      && done.value.opp == MoveAlone(st.opp, st.ops[i].self, st.ops[i].other)
  {
    var st2 := MoveLocks(st, i);
    match st.opp[st.ops[i].other]
    case None =>
      MoveFindsNothing(st2, i);
      StepsThen(st, i, 2, st2, 1);
    case Some(p) =>
      var st4 := MoveReaches(st2, i, p);
      MoveRelinks(st4, i, p);
      StepsThen(st2, i, 2, st4, 3);
      StepsThen(st, i, 2, st2, 5);
  }

  /** A move keeps pointers mutual exactly when its target is unlinked: moving into a linked endpoint
      leaves its former opposite pointing at it. */
  lemma MoveNeedsUnlinkedTarget(opp: map<End, Option<End>>, self: End, other: End)
    requires Mutual(opp) && self in opp && other in opp && self != other && self.Snd? == other.Snd?
    ensures Mutual(MoveAlone(opp, self, other)) <==> opp[self].None?
  {
    var after := MoveAlone(opp, self, other);
    if opp[self].Some? {
      var q := opp[self].value;
      assert after[q] == Some(self) && after[self] != Some(q);
    }
  }

  /** Moving sender 1 of one channel into the linked sender 0 of another leaves receiver 0 pointing at a
      sender that no longer points back. */
  lemma MoveLeavesStalePointer()
    ensures var opp := map[Snd(0) := Some(Rcv(0)), Rcv(0) := Some(Snd(0)),
                           Snd(1) := Some(Rcv(1)), Rcv(1) := Some(Snd(1))];
      var after := MoveAlone(opp, Snd(0), Snd(1));
      && Mutual(opp) && !Mutual(after)
      && after[Rcv(0)] == Some(Snd(0)) && after[Snd(0)] == Some(Rcv(1))
  {
    var opp := map[Snd(0) := Some(Rcv(0)), Rcv(0) := Some(Snd(0)), Snd(1) := Some(Rcv(1)), Rcv(1) := Some(Snd(1))];
    var after := MoveAlone(opp, Snd(0), Snd(1));
    assert Rcv(0) in after && after[Rcv(0)] == Some(Snd(0)) && after[Snd(0)] == Some(Rcv(1));
  }
}
