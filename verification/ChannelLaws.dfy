/** What creating, moving and destroying endpoints does to the connections, over every interleaving. */
module ChannelLaws {
  import opened Prelude
  import opened Channel
  import opened ChannelRuns

  /** The partner of `e` after a step: creation connects its pair; a destructor that has reached the
      opposite disconnects both; a move that has reached it puts its target in the source's place.
      Nothing else changes a connection, and in particular no send does. */
  function PartnerAfter(st: State, step: Step, e: End): Option<End> {
    match step
    case Create(s, r) =>
      if e == Snd(s) then Some(Rcv(r)) else if e == Rcv(r) then Some(Snd(s)) else Partner(st.link, e)
    case Begin(_, _) => Partner(st.link, e)
    case Do(i) =>
      if i in st.ops && st.ops[i].pc.HaveOpp? then
        var op, p := st.ops[i], st.ops[i].pc.p;
        match op.kind
        case Set => Partner(st.link, e)
        case Drop => if e == op.self || e == p then None else Partner(st.link, e)
        case Move =>
          if e == op.other then None
          else if e == op.self then Some(p)
          else if e == p then Some(op.self)
          else Partner(st.link, e)
      else Partner(st.link, e)
  }

  lemma DoLinks(st: State, i: nat, e: End)
    requires DoStep(st, i).Some? && WellFormed(st.ops[i])
    ensures Partner(DoStep(st, i).value.link, e) == PartnerAfter(st, Do(i), e)
  {
  }

  /** On every run the connections change exactly as the calls say. */
  lemma LinksFollowCalls(run: seq<State>, steps: seq<Step>, n: nat, e: End)
    requires IsRun(run, steps) && n < |steps|
    ensures Partner(run[n + 1].link, e) == PartnerAfter(run[n], steps[n], e)
  {
    AlwaysInv(run, steps, n);
    assert StepsTo(run, steps, n);
    if steps[n].Do? {
      DoLinks(run[n], steps[n].i, e);
    }
  }

  /** The pointer of an endpoint whose lock is free is its connection, and leads to a live endpoint. */
  lemma FreePointersAreLinks(run: seq<State>, steps: seq<Step>, n: nat, e: End)
    requires IsRun(run, steps) && n <= |steps| && e in run[n].opp && e !in run[n].lock
    ensures run[n].opp[e] == Partner(run[n].link, e)
    ensures run[n].opp[e].Some? ==> run[n].opp[e].value in run[n].opp
  {
    AlwaysInv(run, steps, n);
    UnlockedIsTrue(run[n], e);
  }

  lemma SendReturns(st: State, i: nat)
    requires Inv(st) && DoStep(st, i).Some? && i !in DoStep(st, i).value.ops && st.ops[i].kind == Set
    ensures DoStep(st, i).value.opp == st.opp
  {
    assert WellFormed(st.ops[i]);
  }

  lemma DropReturns(st: State, i: nat)
    requires Inv(st) && DoStep(st, i).Some? && i !in DoStep(st, i).value.ops && st.ops[i].kind == Drop
    ensures DoStep(st, i).value.opp == st.opp - {st.ops[i].self}
    ensures Partner(DoStep(st, i).value.link, st.ops[i].self) == None
  {
    assert WellFormed(st.ops[i]) && Knows(st, st.ops[i]);
    if st.ops[i].pc == Look {
      LookIsTrue(st, i);
    }
  }

  lemma MoveReturns(st: State, i: nat)
    requires Inv(st) && DoStep(st, i).Some? && i !in DoStep(st, i).value.ops && st.ops[i].kind == Move
    ensures var op, st' := st.ops[i], DoStep(st, i).value;
      && st'.opp.Keys == st.opp.Keys && st'.link == st.link
      && st'.opp[op.self] == Partner(st.link, op.self) && Partner(st.link, op.other) == None
  {
    var op := st.ops[i];
    assert WellFormed(op) && Knows(st, op) && TargetFree(st, op);
    assert Owns(st, i, op.self) && Owns(st, i, op.other);
    if op.pc == Look {
      LookIsTrue(st, i);
    }
  }

  lemma NoLockIsLeft(st: State, i: nat, e: End)
    requires Inv(st) && i !in st.ops && e in st.lock
    ensures st.lock[e] != i
  {
    assert Holding(st, st.lock[e], e);
  }

  /** When an operation returns, a send has left all pointers as they were; a destructor has left no trace
      of its endpoint; a move has left its source unconnected, and its target pointing at what the source
      was connected to. */
  lemma ReturnsExactly(run: seq<State>, steps: seq<Step>, n: nat, i: nat)
    requires IsRun(run, steps) && n < |steps| && steps[n] == Do(i) && i !in run[n + 1].ops
    ensures i in run[n].ops
    ensures var op, st, st' := run[n].ops[i], run[n], run[n + 1];
      match op.kind
      case Set => st'.opp == st.opp
      case Drop => st'.opp == st.opp - {op.self} && Partner(st'.link, op.self) == None
      case Move =>
        && st'.opp.Keys == st.opp.Keys && {op.self, op.other} <= st'.opp.Keys
        && Partner(st'.link, op.other) == None && st'.opp[op.self] == Partner(st'.link, op.self)
  {
    AlwaysInv(run, steps, n);
    assert StepsTo(run, steps, n);
    match run[n].ops[i].kind
    case Set => SendReturns(run[n], i);
    case Drop => DropReturns(run[n], i);
    case Move =>
      MoveReturns(run[n], i);
      assert Owns(run[n], i, run[n].ops[i].self) && Owns(run[n], i, run[n].ops[i].other);
  }

  /** An operation that has returned holds no lock. */
  lemma ReturnedHoldsNothing(run: seq<State>, steps: seq<Step>, n: nat, i: nat, e: End)
    requires IsRun(run, steps) && n <= |steps| && i !in run[n].ops && e in run[n].lock
    ensures run[n].lock[e] != i
  {
    AlwaysInv(run, steps, n);
    NoLockIsLeft(run[n], i, e);
  }

  /** What may be called: a channel between new endpoints; a send on a sender that nobody uses but sends; a
      destructor of an endpoint that nobody uses; a move out of an endpoint that nobody uses, into a new
      one, or into an unconnected one that nobody uses. */
  lemma CallsExactly(st: State, i: nat, op: Op)
    ensures Apply(st, Begin(i, op)).Some? <==>
      && i !in st.ops && op.pc == WantSelf
      && match op.kind
         case Set => op.self.Snd? && op.self in st.opp && Unused(st, op.self, true)
         case Drop => op.self in st.opp && Unused(st, op.self, false)
         case Move =>
           && op.other in st.opp && op.self != op.other && op.self.Snd? == op.other.Snd?
           && (op.self in st.opp ==> st.opp[op.self] == None)
           && Unused(st, op.self, false) && Unused(st, op.other, false)
  {
    assert Available(st, op.self, op.kind) <==> Unused(st, op.self, op.kind == Set);
    assert Available(st, op.other, op.kind) <==> Unused(st, op.other, op.kind == Set);
  }

  /** No operation works on the endpoint, or only sends do where they are allowed. */
  ghost predicate Unused(st: State, e: End, sends: bool) {
    forall j :: Owns(st, j, e) ==> sends && st.ops[j].kind == Set
  }

  /** A channel can be created whenever both endpoints are new. */
  lemma CreatesExactly(st: State, s: nat, r: nat)
    ensures Apply(st, Create(s, r)).Some? <==> Snd(s) !in st.opp && Rcv(r) !in st.opp
  {
  }
}
