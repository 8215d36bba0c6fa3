/** The channel's linking protocol. Every endpoint has a lock and a pointer to its opposite. Sender
    operations lock their own endpoint first and then block on the opposite receiver; receiver
    operations lock their own endpoint first and only try the opposite sender, backing off when it is
    taken. Steps of different operations interleave freely.

    Any number of sends may use one sender at a time. Otherwise an endpoint is used by one operation at
    a time, as for any C++ object; the opposite end is reached concurrently. */
module Channel {
  import opened Prelude

  datatype End = Snd(id: nat) | Rcv(id: nat)

  /** `Set` sends a value; `Drop` destroys an endpoint; `Move` moves `other`'s connection into `self`. */
  datatype Kind = Set | Drop | Move

  /** Where an operation is. `WantSelf`, `WantOther` and `WantOpp` block on a lock; `Try` is a
      try-lock; `HaveOpp` holds the opposite's lock, about to change its pointer; `Unwind` is about to
      clear the operation's own old pointer, and `Settle` to store the moved one. */
  datatype Pc =
    | WantSelf
    | WantOther
    | Look
    | WantOpp(p: End)
    | Try(p: End)
    | HaveOpp(p: End)
    | Unwind(p: End)
    | Settle(p: End)

  datatype Op = Op(kind: Kind, self: End, other: End, pc: Pc)

  /** `link` is the abstract matching that the pointers implement: symmetric, sender to receiver. */
  datatype State = State(
    opp: map<End, Option<End>>,
    lock: map<End, nat>,
    ops: map<nat, Op>,
    link: map<End, End>)

  const EMPTY := State(map[], map[], map[], map[])

  datatype Step =
    | Create(s: nat, r: nat)   // create_channel, before anyone else can see the endpoints
    | Begin(i: nat, op: Op)    // an operation is called
    | Do(i: nat)               // operation `i` takes its next step

  /** The endpoint whose connection an operation works on. */
  function Source(op: Op): End {
    if op.kind == Move then op.other else op.self
  }

  function Owned(op: Op): set<End> {
    if op.kind == Move then {op.self, op.other} else {op.self}
  }

  /** Nobody uses the endpoint, or only sends do and the operation is one too. */
  ghost predicate Available(st: State, e: End, kind: Kind) {
    forall j :: Owns(st, j, e) ==> kind == Set && st.ops[j].kind == Set
  }

  function Partner(link: map<End, End>, e: End): Option<End> {
    if e in link then Some(link[e]) else None
  }

  function Unlink(link: map<End, End>, a: End, b: End): map<End, End> {
    link - {a, b}
  }

  function Relink(link: map<End, End>, a: End, b: End, p: End): map<End, End> {
    (link - {a})[b := p][p := b]
  }

  function Release(lock: map<End, nat>, e: End): map<End, nat> {
    lock - {e}
  }

  /** What may be called: endpoints of the right kind that are available; `set` is for senders; a move
      goes into a new endpoint or an existing unlinked one of the same sort. */
  ghost predicate MayBegin(st: State, i: nat, op: Op) {
    && i !in st.ops && op.pc == WantSelf
    && Source(op) in st.opp && (forall e :: e in Owned(op) ==> Available(st, e, op.kind))
    && (op.kind == Set ==> op.self.Snd?)
    && (op.kind == Move ==>
          && op.self != op.other && op.self.Snd? == op.other.Snd?
          && (op.self in st.opp ==> st.opp[op.self] == None))
  }

  function Goto(st: State, i: nat, pc: Pc): State
    requires i in st.ops
  {
    st.(ops := st.ops[i := st.ops[i].(pc := pc)])
  }

  /** The operation returns. */
  function Finish(st: State, i: nat): State
    requires i in st.ops
  {
    var op := st.ops[i];
    st.(ops := st.ops - {i}, opp := if op.kind == Drop then st.opp - {op.self} else st.opp)
  }

  /** One step of operation `i`; `None` when it is blocked or the pointers lead nowhere. */
  function DoStep(st: State, i: nat): Option<State> {
    if i !in st.ops then None
    else
      var op := st.ops[i];
      var src := Source(op);
      match op.pc
      case WantSelf =>
        if op.self in st.lock then None
        else Some(Goto(st, i, if op.kind == Move then WantOther else Look).(lock := st.lock[op.self := i]))
      case WantOther =>
        if op.other in st.lock then None
        else Some(Goto(st, i, Look).(lock := st.lock[op.other := i]))
      case Look =>
        if src !in st.opp then None
        else if st.opp[src].Some? then
          Some(Goto(st, i, if src.Snd? then WantOpp(st.opp[src].value) else Try(st.opp[src].value)))
        else if op.kind == Move then
          Some(Finish(st.(lock := Release(Release(st.lock, src), op.self), opp := st.opp[op.self := None]), i))
        else Some(Finish(st.(lock := Release(st.lock, src)), i))
      case WantOpp(p) =>
        if p in st.lock then None
        else Some(Goto(st, i, HaveOpp(p)).(lock := st.lock[p := i]))
      case Try(p) =>
        if p in st.lock then
          // back off: give the own endpoint up and start over
          Some(Goto(st, i, if op.kind == Move then WantOther else WantSelf).(lock := Release(st.lock, src)))
        else Some(Goto(st, i, HaveOpp(p)).(lock := st.lock[p := i]))
      case HaveOpp(p) =>
        var st' := Goto(st, i, Unwind(p)).(lock := Release(st.lock, p));
        (match op.kind
         case Set => Some(st')
         case Drop => Some(st'.(opp := st.opp[p := None], link := Unlink(st.link, src, p)))
         case Move => Some(st'.(opp := st.opp[p := Some(op.self)], link := Relink(st.link, src, op.self, p))))
      case Unwind(p) =>
        (match op.kind
         case Set => Some(Finish(st.(lock := Release(st.lock, src)), i))
         case Drop => Some(Finish(st.(lock := Release(st.lock, src)), i))
         case Move => Some(Goto(st, i, Settle(p)).(opp := st.opp[src := None], lock := Release(st.lock, src))))
      case Settle(p) =>
        Some(Finish(st.(opp := st.opp[op.self := Some(p)], lock := Release(st.lock, op.self)), i))
  }

  function Created(st: State, s: nat, r: nat): State {
    st.(opp := st.opp[Snd(s) := Some(Rcv(r))][Rcv(r) := Some(Snd(s))],
        link := st.link[Snd(s) := Rcv(r)][Rcv(r) := Snd(s)])
  }

  function Begun(st: State, i: nat, op: Op): State {
    st.(ops := st.ops[i := op], opp := if op.self in st.opp then st.opp else st.opp[op.self := None])
  }

  ghost function Apply(st: State, step: Step): Option<State> {
    match step
    case Create(s, r) =>
      if Snd(s) in st.opp || Rcv(r) in st.opp then None
      else Some(Created(st, s, r))
    case Begin(i, op) =>
      if !MayBegin(st, i, op) then None
      else Some(Begun(st, i, op))
    case Do(i) => DoStep(st, i)
  }

  // ---------- the invariant ----------

  /** The locks that an operation holds where it is. */
  function Holds(op: Op): set<End> {
    match op.pc
    case WantSelf => {}
    case WantOther => {op.self}
    case Settle(_) => {op.self}
    case HaveOpp(p) => Owned(op) + {p}
    case _ => Owned(op)
  }

  ghost predicate WellFormed(op: Op) {
    && (op.kind == Set ==> op.self.Snd?)
    && (op.kind == Move ==> op.self != op.other && op.self.Snd? == op.other.Snd?)
    && (op.kind != Move ==> op.pc != WantOther && !op.pc.Settle?)
    && (op.pc.WantOpp? ==> op.self.Snd?)
    && (op.pc.Try? ==> op.self.Rcv?)
    && (op.pc.HaveOpp? ==> op.pc.p.Snd? == op.self.Rcv?)
  }

  ghost predicate LinkOk(st: State) {
    forall e :: e in st.link ==>
      && e in st.opp && st.link[e] in st.opp
      && st.link[e] in st.link && st.link[st.link[e]] == e
      && e.Snd? == st.link[e].Rcv?
  }

  predicate Owns(st: State, i: nat, e: End) {
    i in st.ops && e in Owned(st.ops[i])
  }

  predicate Holding(st: State, i: nat, e: End) {
    i in st.ops && e in Holds(st.ops[i])
  }

  predicate BothSend(st: State, i: nat, j: nat) {
    i in st.ops && j in st.ops && st.ops[i].kind == Set && st.ops[j].kind == Set
  }

  /** Operations are well-formed, live endpoints belong to one operation at most, or to sends. */
  ghost predicate OpsOk(st: State) {
    && (forall i :: i in st.ops ==> WellFormed(st.ops[i]))
    && (forall i, e :: Owns(st, i, e) ==> e in st.opp)
    && (forall i, j, e :: Owns(st, i, e) && Owns(st, j, e) ==> i == j || BothSend(st, i, j))
  }

  /** Exactly the locks that some operation holds are taken, each by its holder. */
  ghost predicate LocksOk(st: State) {
    && (forall e :: e in st.lock ==> Holding(st, st.lock[e], e))
    && (forall i, e :: Holding(st, i, e) ==> e in st.lock && st.lock[e] == i)
  }

  /** What an operation knows of the matching from where it is. */
  ghost predicate Knows(st: State, op: Op) {
    match op.pc
    case WantOpp(p) => Partner(st.link, Source(op)) == Some(p)
    case Try(p) => Partner(st.link, Source(op)) == Some(p)
    case HaveOpp(p) => Partner(st.link, Source(op)) == Some(p)
    case Unwind(p) =>
      if op.kind == Set then Partner(st.link, Source(op)) == Some(p)
      else Partner(st.link, Source(op)) == None && (op.kind == Move ==> Partner(st.link, op.self) == Some(p))
    case Settle(p) => Partner(st.link, op.other) == None && Partner(st.link, op.self) == Some(p)
    case _ => true
  }

  /** A move's target stays unlinked until the opposite has been redirected to it. */
  ghost predicate TargetFree(st: State, op: Op) {
    op.kind == Move && !op.pc.Unwind? && !op.pc.Settle? ==> op.self !in st.link
  }

  ghost predicate PcsOk(st: State) {
    forall i :: i in st.ops ==> Knows(st, st.ops[i]) && TargetFree(st, st.ops[i])
  }

  /** An endpoint whose own pointer lags behind the matching; its operation holds its lock. */
  predicate Lags(op: Op, e: End) {
    || (op.pc.Unwind? && op.kind != Set && e == Source(op))
    || ((op.pc.Unwind? || op.pc.Settle?) && op.kind == Move && e == op.self)
  }

  predicate LagsIn(st: State, i: nat, e: End) {
    i in st.ops && Lags(st.ops[i], e)
  }

  ghost predicate Lagging(st: State, e: End) {
    exists i :: LagsIn(st, i, e)
  }

  /** Every pointer that does not lag agrees with the matching. */
  ghost predicate PointersOk(st: State) {
    forall e :: e in st.opp && !Lagging(st, e) ==> st.opp[e] == Partner(st.link, e)
  }

  ghost predicate Inv(st: State) {
    LinkOk(st) && OpsOk(st) && LocksOk(st) && PcsOk(st) && PointersOk(st)
  }

  // ---------- it is kept by every step ----------

  // A step of operation `i` is described by what it does not touch. The lemmas below each carry one
  // part of the invariant over such a step.

  /** Nobody but `i` moves, and `i` keeps its endpoints or returns. */
  ghost predicate OnlyMoves(st: State, i: nat, st': State) {
    && i in st.ops
    && (forall j :: j != i ==> (j in st'.ops <==> j in st.ops) && (j in st.ops ==> st'.ops[j] == st.ops[j]))
    && (i in st'.ops ==>
          WellFormed(st'.ops[i]) && Owned(st'.ops[i]) == Owned(st.ops[i]) && st'.ops[i].kind == st.ops[i].kind)
  }

  /** An endpoint goes only with the operation that owns it alone. */
  ghost predicate GoneIsOwn(st: State, i: nat, st': State) {
    forall e :: e in st.opp && e !in st'.opp ==> i !in st'.ops && Owns(st, i, e) && st.ops[i].kind != Set
  }

  lemma OpsCarry(st: State, i: nat, st': State)
    requires OpsOk(st) && OnlyMoves(st, i, st') && GoneIsOwn(st, i, st')
    ensures OpsOk(st')
  {
    forall j, e | Owns(st', j, e) ensures Owns(st, j, e) && e in st'.opp && st'.ops[j].kind == st.ops[j].kind {
      assert Owns(st, j, e);
    }
  }

  /** The locks that `i` holds afterwards were its own or free, and the others keep theirs. */
  ghost predicate LocksFollow(st: State, i: nat, st': State) {
    forall e ::
      if Holding(st', i, e) then e in st'.lock && st'.lock[e] == i && (e in st.lock ==> st.lock[e] == i)
      else (e in st'.lock <==> e in st.lock && st.lock[e] != i) && (e in st'.lock ==> st'.lock[e] == st.lock[e])
  }

  lemma LocksCarry(st: State, i: nat, st': State)
    requires LocksOk(st) && OnlyMoves(st, i, st') && LocksFollow(st, i, st')
    ensures LocksOk(st')
  {
    forall e | e in st'.lock ensures Holding(st', st'.lock[e], e) {
      if !Holding(st', i, e) {
        assert Holding(st, st.lock[e], e);
      }
    }
    forall j, e | Holding(st', j, e) ensures e in st'.lock && st'.lock[e] == j {
      if j != i {
        assert Holding(st, j, e);
        assert !Holding(st', i, e);
      }
    }
  }

  function HoldsIn(st: State, i: nat): set<End> {
    if i in st.ops then Holds(st.ops[i]) else {}
  }

  lemma AcquireFollows(st: State, i: nat, e: End, st': State)
    requires LocksOk(st) && i in st.ops && e !in st.lock
    requires st'.lock == st.lock[e := i] && HoldsIn(st', i) == HoldsIn(st, i) + {e}
    ensures LocksFollow(st, i, st')
  {
    forall x ensures Holding(st', i, x) <==> Holding(st, i, x) || x == e {
      assert x in HoldsIn(st', i) <==> x in HoldsIn(st, i) || x == e;
    }
    forall x | x in st.lock && st.lock[x] == i ensures Holding(st, i, x) {
    }
  }

  lemma ReleaseFollows(st: State, i: nat, r: set<End>, st': State)
    requires LocksOk(st) && i in st.ops && r <= HoldsIn(st, i)
    requires st'.lock == st.lock - r && HoldsIn(st', i) == HoldsIn(st, i) - r
    ensures LocksFollow(st, i, st')
  {
    forall x ensures Holding(st', i, x) <==> Holding(st, i, x) && x !in r {
      assert x in HoldsIn(st', i) <==> x in HoldsIn(st, i) && x !in r;
    }
    forall x | x in r ensures Holding(st, i, x) {
    }
    forall x | x in st.lock && st.lock[x] == i ensures Holding(st, i, x) {
    }
  }

  /** Operations and locks after a step that gives up the locks `r`. */
  lemma ReleaseCarries(st: State, i: nat, r: set<End>, st': State)
    requires OpsOk(st) && LocksOk(st) && OnlyMoves(st, i, st') && GoneIsOwn(st, i, st')
    requires r <= HoldsIn(st, i) && st'.lock == st.lock - r && HoldsIn(st', i) == HoldsIn(st, i) - r
    ensures OpsOk(st') && LocksOk(st')
  {
    OpsCarry(st, i, st');
    ReleaseFollows(st, i, r, st');
    LocksCarry(st, i, st');
  }

  /** The matching changes only at endpoints that `i` owns or holds, and not at all when `i` sends. */
  ghost predicate LinkStays(st: State, i: nat, st': State) {
    && (forall e :: !Owns(st, i, e) && !Holding(st, i, e) ==> Partner(st'.link, e) == Partner(st.link, e))
    && (i in st.ops && st.ops[i].kind == Set ==> st'.link == st.link)
  }

  lemma PcsCarry(st: State, i: nat, st': State)
    requires Inv(st) && OnlyMoves(st, i, st') && LinkStays(st, i, st')
    requires forall e :: Holding(st, i, e) ==> Owns(st, i, e) || e in st.link
    requires i in st'.ops ==> Knows(st', st'.ops[i]) && TargetFree(st', st'.ops[i])
    ensures PcsOk(st')
  {
    forall j | j in st'.ops ensures Knows(st', st'.ops[j]) && TargetFree(st', st'.ops[j]) {
      if j != i {
        KnowsStays(st, i, st', j);
      }
    }
  }

  lemma KnowsStays(st: State, i: nat, st': State, j: nat)
    requires Inv(st) && LinkStays(st, i, st') && i in st.ops && j in st.ops && i != j
    requires forall e :: Holding(st, i, e) ==> Owns(st, i, e) || e in st.link
    ensures Knows(st', st.ops[j]) && TargetFree(st', st.ops[j])
  {
    var op := st.ops[j];
    var src := Source(op);
    assert Knows(st, op) && TargetFree(st, op);
    if st.ops[i].kind == Set {
      return;
    }
    assert Owns(st, j, src) && Owns(st, j, op.self);
    assert !Owns(st, i, src) && !Owns(st, i, op.self);
    if src in Holds(op) {
      assert Holding(st, j, src);
      assert Partner(st'.link, src) == Partner(st.link, src);
    }
    if op.self in Holds(op) {
      assert Holding(st, j, op.self);
      assert Partner(st'.link, op.self) == Partner(st.link, op.self);
    } else if op.self !in st.link {
      assert !Holding(st, i, op.self);
      assert Partner(st'.link, op.self) == Partner(st.link, op.self);
    }
  }

  /** Outside `touched` pointers and matching stay; inside, pointers that do not lag agree. */
  lemma PointersCarry(st: State, i: nat, st': State, touched: set<End>)
    requires PointersOk(st) && OnlyMoves(st, i, st') && Owned(st.ops[i]) <= touched
    requires forall e :: e !in touched ==>
      && (e in st'.opp <==> e in st.opp) && (e in st.opp ==> st'.opp[e] == st.opp[e])
      && Partner(st'.link, e) == Partner(st.link, e)
    requires forall e :: e in touched && e in st'.opp && !Lagging(st', e) ==> st'.opp[e] == Partner(st'.link, e)
    ensures PointersOk(st')
  {
    forall e | e in st'.opp && !Lagging(st', e) ensures st'.opp[e] == Partner(st'.link, e) {
      if e !in touched && Lagging(st, e) {
        var j :| LagsIn(st, j, e);
        assert j != i;
        assert LagsIn(st', j, e);
      }
    }
  }

  /** An endpoint whose pointer lags is locked by its owner. */
  lemma LaggingIsLocked(st: State, i: nat, e: End)
    requires LagsIn(st, i, e)
    ensures Owns(st, i, e) && Holding(st, i, e)
  {
  }

  // ---------- the steps one by one ----------

  lemma OwnNeverLags(st: State, i: nat, x: End)
    requires OpsOk(st) && Owns(st, i, x) && !Lags(st.ops[i], x)
    ensures !Lagging(st, x)
  {
    if j :| LagsIn(st, j, x) {
      LaggingIsLocked(st, j, x);
    }
  }

  /** An endpoint held as the opposite is not lagging: its owner would hold it. */
  lemma HeldNeverLags(st: State, i: nat, x: End)
    requires LocksOk(st) && Holding(st, i, x) && !Lags(st.ops[i], x)
    ensures !Lagging(st, x)
  {
    if j :| LagsIn(st, j, x) {
      LaggingIsLocked(st, j, x);
    }
  }

  /** A step that leaves pointers and matching alone, before anything lags. */
  lemma QuietStep(st: State, i: nat, st': State)
    requires Inv(st) && OnlyMoves(st, i, st') && LocksFollow(st, i, st')
    requires st'.opp == st.opp && st'.link == st.link
    requires i in st'.ops ==> Knows(st, st'.ops[i]) && TargetFree(st, st'.ops[i])
    requires forall x :: !Lags(st.ops[i], x)
    requires forall x :: Holding(st, i, x) ==> Owns(st, i, x) || x in st.link
    ensures Inv(st')
  {
    OpsCarry(st, i, st');
    LocksCarry(st, i, st');
    PcsCarry(st, i, st');
    forall x | x in Owned(st.ops[i]) && x in st'.opp ensures st'.opp[x] == Partner(st'.link, x) {
      assert Owns(st, i, x);
      OwnNeverLags(st, i, x);
    }
    PointersCarry(st, i, st', Owned(st.ops[i]));
  }

  lemma WantSelfKeepsInv(st: State, i: nat, st': State)
    requires Inv(st) && i in st.ops && st.ops[i].pc == WantSelf && st.ops[i].self !in st.lock
    requires st' == Goto(st, i, if st.ops[i].kind == Move then WantOther else Look)
                    .(lock := st.lock[st.ops[i].self := i])
    ensures Inv(st')
  {
    AcquireFollows(st, i, st.ops[i].self, st');
    QuietStep(st, i, st');
  }

  lemma WantOtherKeepsInv(st: State, i: nat, st': State)
    requires Inv(st) && i in st.ops && st.ops[i].pc == WantOther && st.ops[i].other !in st.lock
    requires st' == Goto(st, i, Look).(lock := st.lock[st.ops[i].other := i])
    ensures Inv(st')
  {
    AcquireFollows(st, i, st.ops[i].other, st');
    QuietStep(st, i, st');
  }

  lemma PartnerKind(st: State, e: End)
    requires LinkOk(st) && e in st.link
    ensures st.link[e] in st.link && st.link[e].Snd? == e.Rcv? && st.link[st.link[e]] == e
  {
  }

  /** Taking the opposite's lock, by waiting for it or by trying. */
  lemma TakeOppKeepsInv(st: State, i: nat, p: End, st': State)
    requires Inv(st) && i in st.ops && (st.ops[i].pc == WantOpp(p) || st.ops[i].pc == Try(p)) && p !in st.lock
    requires st' == Goto(st, i, HaveOpp(p)).(lock := st.lock[p := i])
    ensures Inv(st')
  {
    assert Knows(st, st.ops[i]) && TargetFree(st, st.ops[i]);
    PartnerKind(st, Source(st.ops[i]));
    AcquireFollows(st, i, p, st');
    QuietStep(st, i, st');
  }

  lemma BackOffKeepsInv(st: State, i: nat, st': State)
    requires Inv(st) && i in st.ops && st.ops[i].pc.Try?
    requires st' == Goto(st, i, if st.ops[i].kind == Move then WantOther else WantSelf)
                    .(lock := Release(st.lock, Source(st.ops[i])))
    ensures Inv(st')
  {
    ReleaseFollows(st, i, {Source(st.ops[i])}, st');
    QuietStep(st, i, st');
  }

  /** While an operation looks, its own pointer is the truth. */
  lemma LookIsTrue(st: State, i: nat)
    requires Inv(st) && i in st.ops && st.ops[i].pc == Look
    ensures var src := Source(st.ops[i]); src in st.opp && st.opp[src] == Partner(st.link, src)
  {
    var src := Source(st.ops[i]);
    assert Owns(st, i, src);
    OwnNeverLags(st, i, src);
  }

  lemma LookGoesOn(st: State, i: nat, p: End, st': State)
    requires Inv(st) && i in st.ops && st.ops[i].pc == Look && Partner(st.link, Source(st.ops[i])) == Some(p)
    requires st' == Goto(st, i, if Source(st.ops[i]).Snd? then WantOpp(p) else Try(p))
    ensures Inv(st')
  {
    PartnerKind(st, Source(st.ops[i]));
    assert st.lock - {} == st.lock;
    ReleaseFollows(st, i, {}, st');
    QuietStep(st, i, st');
  }

  lemma LookGivesUp(st: State, i: nat, st': State)
    requires Inv(st) && i in st.ops && st.ops[i].pc == Look && Source(st.ops[i]) !in st.link
    requires var op := st.ops[i];
      st' == Finish(st.(lock := st.lock - Owned(op),
                        opp := if op.kind == Move then st.opp[op.self := None] else st.opp), i)
    ensures Inv(st')
  {
    var op := st.ops[i];
    LookIsTrue(st, i);
    assert Owns(st, i, op.self) && TargetFree(st, op);
    ReleaseCarries(st, i, Owned(op), st');
    PcsCarry(st, i, st');
    PointersCarry(st, i, st', Owned(op));
  }

  /** With both ends locked the opposite points back, as the source asserts. */
  lemma OppositePointsBack(st: State, i: nat)
    requires Inv(st) && i in st.ops && st.ops[i].pc.HaveOpp?
    ensures var op := st.ops[i];
      && op.pc.p in st.opp && st.opp[op.pc.p] == Some(Source(op))
      && Source(op) in st.link && st.link[Source(op)] == op.pc.p
      && op.pc.p in st.link && st.link[op.pc.p] == Source(op)
      && op.pc.p !in Owned(op)
  {
    var op := st.ops[i];
    PartnerKind(st, Source(op));
    assert Holding(st, i, op.pc.p);
    HeldNeverLags(st, i, op.pc.p);
  }

  lemma SetOppKeepsInv(st: State, i: nat, p: End, st': State)
    requires Inv(st) && i in st.ops && st.ops[i].pc == HaveOpp(p) && st.ops[i].kind == Set
    requires st' == Goto(st, i, Unwind(p)).(lock := Release(st.lock, p))
    ensures Inv(st')
  {
    OppositePointsBack(st, i);
    ReleaseFollows(st, i, {p}, st');
    QuietStep(st, i, st');
  }

  lemma DropOppKeepsInv(st: State, i: nat, p: End, st': State)
    requires Inv(st) && i in st.ops && st.ops[i].pc == HaveOpp(p) && st.ops[i].kind == Drop
    requires st' == Goto(st, i, Unwind(p)).(lock := Release(st.lock, p), opp := st.opp[p := None],
                                            link := Unlink(st.link, st.ops[i].self, p))
    ensures Inv(st')
  {
    var src := st.ops[i].self;
    OppositePointsBack(st, i);
    OppReleaseCarries(st, i, p, st');
    UnlinkOk(st, src, p);
    OppChangeKeepsPcs(st, i, p, st');
    OppChangeKeepsPointers(st, i, p, st');
    LinkOkStays(st.(link := st'.link), st');
  }

  lemma MoveOppKeepsInv(st: State, i: nat, p: End, st': State)
    requires Inv(st) && i in st.ops && st.ops[i].pc == HaveOpp(p) && st.ops[i].kind == Move
    requires var op := st.ops[i];
      st' == Goto(st, i, Unwind(p)).(lock := Release(st.lock, p), opp := st.opp[p := Some(op.self)],
                                     link := Relink(st.link, op.other, op.self, p))
    ensures Inv(st')
  {
    OppositePointsBack(st, i);
    OppReleaseCarries(st, i, p, st');
    MoveOppRelinks(st, i, p, st');
  }

  lemma OppReleaseCarries(st: State, i: nat, p: End, st': State)
    requires OpsOk(st) && LocksOk(st) && i in st.ops && st.ops[i].pc == HaveOpp(p) && p !in Owned(st.ops[i])
    requires st'.ops == Goto(st, i, Unwind(p)).ops && st'.lock == Release(st.lock, p) && st'.opp.Keys == st.opp.Keys
    ensures OnlyMoves(st, i, st') && OpsOk(st') && LocksOk(st')
  {
    assert OnlyMoves(st, i, st');
    ReleaseCarries(st, i, {p}, st');
  }

  lemma MoveOppRelinks(st: State, i: nat, p: End, st': State)
    requires Inv(st) && OnlyMoves(st, i, st') && st.ops[i].kind == Move
    requires st.ops[i].pc == HaveOpp(p) && i in st'.ops && st'.ops[i] == st.ops[i].(pc := Unwind(p))
    requires st'.link == Relink(st.link, st.ops[i].other, st.ops[i].self, p)
    requires st'.opp == st.opp[p := Some(st.ops[i].self)]
    ensures LinkOk(st') && PcsOk(st') && PointersOk(st')
  {
    var op := st.ops[i];
    OppositePointsBack(st, i);
    assert TargetFree(st, op) && Owns(st, i, op.self);
    RelinkOk(st, op.other, op.self, p);
    OppChangeKeepsPcs(st, i, p, st');
    OppChangeKeepsPointers(st, i, p, st');
    LinkOkStays(st.(link := st'.link), st');
  }

  lemma LinkOkStays(st: State, st': State)
    requires LinkOk(st) && st'.link == st.link && st.opp.Keys <= st'.opp.Keys
    ensures LinkOk(st')
  {
  }

  /** From here on the operation's own pointers lag, and the opposite's agrees. */
  lemma OppChangeKeepsPointers(st: State, i: nat, p: End, st': State)
    requires PointersOk(st) && OnlyMoves(st, i, st') && p in st.opp
    requires i in st'.ops && st'.ops[i].pc == Unwind(p) && st'.ops[i].kind != Set
    requires st'.opp == st.opp[p := Partner(st'.link, p)]
    requires forall e :: e !in Owned(st.ops[i]) && e != p ==> Partner(st'.link, e) == Partner(st.link, e)
    ensures PointersOk(st')
  {
    forall e | e in Owned(st'.ops[i]) ensures Lagging(st', e) {
      assert LagsIn(st', i, e);
    }
    PointersCarry(st, i, st', Owned(st.ops[i]) + {p});
  }

  /** What the others know survives a change of the matching at endpoints that `i` has locked. */
  lemma OppChangeKeepsPcs(st: State, i: nat, p: End, st': State)
    requires Inv(st) && OnlyMoves(st, i, st') && st.ops[i].pc == HaveOpp(p) && p in st.link
    requires st.ops[i].kind != Set
    requires forall e :: e !in Owned(st.ops[i]) && e != p ==> Partner(st'.link, e) == Partner(st.link, e)
    requires i in st'.ops && Knows(st', st'.ops[i]) && TargetFree(st', st'.ops[i])
    ensures PcsOk(st')
  {
    forall e | !Owns(st, i, e) && !Holding(st, i, e) ensures Partner(st'.link, e) == Partner(st.link, e) {
    }
    PcsCarry(st, i, st');
  }

  /** Separating a matched pair keeps the matching symmetric. */
  lemma UnlinkOk(st: State, src: End, p: End)
    requires LinkOk(st) && src in st.link && st.link[src] == p
    ensures LinkOk(st.(link := Unlink(st.link, src, p)))
    ensures forall e :: e != src && e != p ==> Partner(Unlink(st.link, src, p), e) == Partner(st.link, e)
    ensures Partner(Unlink(st.link, src, p), src) == None && Partner(Unlink(st.link, src, p), p) == None
  {
    PartnerKind(st, src);
  }

  /** Redirecting a matched pair keeps the matching symmetric. */
  lemma RelinkOk(st: State, src: End, tgt: End, p: End)
    requires LinkOk(st) && src in st.link && st.link[src] == p && tgt !in st.link
    requires tgt in st.opp && tgt.Snd? == src.Snd? && tgt != src
    ensures LinkOk(st.(link := Relink(st.link, src, tgt, p)))
    ensures forall e :: e != src && e != tgt && e != p ==>
      Partner(Relink(st.link, src, tgt, p), e) == Partner(st.link, e)
    ensures Partner(Relink(st.link, src, tgt, p), src) == None
    ensures Partner(Relink(st.link, src, tgt, p), tgt) == Some(p)
    ensures Partner(Relink(st.link, src, tgt, p), p) == Some(tgt)
  {
    PartnerKind(st, src);
    var link := Relink(st.link, src, tgt, p);
    forall e | e in link
      ensures e in st.opp && link[e] in st.opp && link[e] in link && link[link[e]] == e && e.Snd? == link[e].Rcv?
    {
      if e != tgt && e != p {
        assert link[e] == st.link[e] && st.link[e] != src && st.link[e] != p;
      }
    }
  }

  lemma UnwindSetKeepsInv(st: State, i: nat, st': State)
    requires Inv(st) && i in st.ops && st.ops[i].pc.Unwind? && st.ops[i].kind == Set
    requires st' == Finish(st.(lock := Release(st.lock, st.ops[i].self)), i)
    ensures Inv(st')
  {
    ReleaseFollows(st, i, {st.ops[i].self}, st');
    QuietStep(st, i, st');
  }

  lemma UnwindDropKeepsInv(st: State, i: nat, st': State)
    requires Inv(st) && i in st.ops && st.ops[i].pc.Unwind? && st.ops[i].kind == Drop
    requires st' == Finish(st.(lock := Release(st.lock, st.ops[i].self)), i)
    ensures Inv(st')
  {
    var src := st.ops[i].self;
    assert Owns(st, i, src) && Knows(st, st.ops[i]);
    ReleaseCarries(st, i, {src}, st');
    PcsCarry(st, i, st');
    PointersCarry(st, i, st', {src});
  }

  lemma UnwindMoveReleases(st: State, i: nat, p: End, st': State)
    requires OpsOk(st) && LocksOk(st) && i in st.ops && st.ops[i].pc == Unwind(p) && st.ops[i].kind == Move
    requires st'.ops == Goto(st, i, Settle(p)).ops && st'.lock == Release(st.lock, st.ops[i].other)
    requires st'.opp.Keys == st.opp.Keys
    ensures OnlyMoves(st, i, st') && OpsOk(st') && LocksOk(st')
  {
    assert OnlyMoves(st, i, st');
    ReleaseCarries(st, i, {st.ops[i].other}, st');
  }

  lemma UnwindMoveKeepsInv(st: State, i: nat, p: End, st': State)
    requires Inv(st) && i in st.ops && st.ops[i].pc == Unwind(p) && st.ops[i].kind == Move
    requires st' == Goto(st, i, Settle(p)).(opp := st.opp[st.ops[i].other := None],
                                            lock := Release(st.lock, st.ops[i].other))
    ensures Inv(st')
  {
    var op := st.ops[i];
    assert Owns(st, i, op.other) && Owns(st, i, op.self) && Knows(st, op);
    UnwindMoveReleases(st, i, p, st');
    PcsCarry(st, i, st');
    assert LagsIn(st', i, op.self);
    PointersCarry(st, i, st', {op.self, op.other});
  }

  lemma SettleKeepsInv(st: State, i: nat, p: End, st': State)
    requires Inv(st) && i in st.ops && st.ops[i].pc == Settle(p)
    requires st' == Finish(st.(opp := st.opp[st.ops[i].self := Some(p)], lock := Release(st.lock, st.ops[i].self)), i)
    ensures Inv(st')
  {
    var op := st.ops[i];
    assert Owns(st, i, op.self) && Owns(st, i, op.other) && Knows(st, op);
    ReleaseCarries(st, i, {op.self}, st');
    PcsCarry(st, i, st');
    OwnNeverLags(st, i, op.other);
    PointersCarry(st, i, st', {op.self, op.other});
  }

  lemma DoKeepsInv(st: State, i: nat)
    requires Inv(st) && DoStep(st, i).Some?
    ensures Inv(DoStep(st, i).value)
  {
    var op, st' := st.ops[i], DoStep(st, i).value;
    match op.pc {
      case WantSelf => WantSelfKeepsInv(st, i, st');
      case WantOther => WantOtherKeepsInv(st, i, st');
      case Look =>
        LookIsTrue(st, i);
        if st.opp[Source(op)].Some? {
          LookGoesOn(st, i, st.opp[Source(op)].value, st');
        } else {
          assert st.lock - Owned(op) ==
            if op.kind == Move then Release(Release(st.lock, op.other), op.self) else Release(st.lock, op.self);
          LookGivesUp(st, i, st');
        }
      case WantOpp(p) => TakeOppKeepsInv(st, i, p, st');
      case Try(p) =>
        if p in st.lock {
          BackOffKeepsInv(st, i, st');
        } else {
          TakeOppKeepsInv(st, i, p, st');
        }
      case HaveOpp(p) =>
        if op.kind == Set {
          SetOppKeepsInv(st, i, p, st');
        } else if op.kind == Drop {
          DropOppKeepsInv(st, i, p, st');
        } else {
          MoveOppKeepsInv(st, i, p, st');
        }
      case Unwind(p) =>
        if op.kind == Set {
          UnwindSetKeepsInv(st, i, st');
        } else if op.kind == Drop {
          UnwindDropKeepsInv(st, i, st');
        } else {
          UnwindMoveKeepsInv(st, i, p, st');
        }
      case Settle(p) => SettleKeepsInv(st, i, p, st');
    }
  }

  lemma BeginKeepsInv(st: State, i: nat, op: Op)
    requires Inv(st) && MayBegin(st, i, op)
    ensures Inv(Begun(st, i, op))
  {
    var st' := Begun(st, i, op);
    BeginKeepsOps(st, i, op, st');
    BeginKeepsLocks(st, i, op, st');
    TargetIsFree(st, op);
    forall e | e in st'.opp && !Lagging(st', e) ensures st'.opp[e] == Partner(st'.link, e) {
      if j :| LagsIn(st, j, e) {
        assert LagsIn(st', j, e);
      }
    }
  }

  lemma BeginKeepsOps(st: State, i: nat, op: Op, st': State)
    requires OpsOk(st) && MayBegin(st, i, op) && st' == Begun(st, i, op)
    ensures OpsOk(st')
  {
    forall j, e | Owns(st', j, e) ensures e in st'.opp && if j == i then Available(st, e, op.kind) else Owns(st, j, e) {
      assert j != i ==> Owns(st, j, e);
    }
  }

  lemma BeginKeepsLocks(st: State, i: nat, op: Op, st': State)
    requires LocksOk(st) && MayBegin(st, i, op) && st' == Begun(st, i, op)
    ensures LocksOk(st')
  {
    forall j, e ensures Holding(st', j, e) <==> Holding(st, j, e) {
    }
  }

  lemma TargetIsFree(st: State, op: Op)
    requires Inv(st) && forall e :: e in Owned(op) ==> Available(st, e, op.kind)
    requires op.kind == Move ==> op.self in st.opp ==> st.opp[op.self] == None
    ensures TargetFree(st, op.(pc := WantSelf))
  {
    if op.kind == Move && op.self in st.opp {
      assert op.self in Owned(op);
      if j :| LagsIn(st, j, op.self) {
        LaggingIsLocked(st, j, op.self);
      }
    }
  }

  lemma CreateKeepsInv(st: State, s: nat, r: nat)
    requires Inv(st) && Snd(s) !in st.opp && Rcv(r) !in st.opp
    ensures Inv(Created(st, s, r))
  {
    var st' := Created(st, s, r);
    SameOps(st, st');
    forall j | j in st.ops ensures Knows(st', st.ops[j]) && TargetFree(st', st.ops[j]) {
      CreateKeepsKnowing(st, s, r, j);
    }
    CreateKeepsLink(st, s, r);
    CreateKeepsPointers(st, s, r);
  }

  lemma SameOps(st: State, st': State)
    requires OpsOk(st) && LocksOk(st) && st'.ops == st.ops && st'.lock == st.lock && st.opp.Keys <= st'.opp.Keys
    ensures OpsOk(st') && LocksOk(st')
  {
    forall j, e ensures Owns(st', j, e) <==> Owns(st, j, e) {
    }
    forall j, e ensures Holding(st', j, e) <==> Holding(st, j, e) {
    }
  }

  lemma CreateKeepsLink(st: State, s: nat, r: nat)
    requires LinkOk(st) && Snd(s) !in st.opp && Rcv(r) !in st.opp
    ensures LinkOk(Created(st, s, r))
    ensures forall e :: e in st.opp ==> Partner(Created(st, s, r).link, e) == Partner(st.link, e)
  {
    var st', a, b := Created(st, s, r), Snd(s), Rcv(r);
    assert st'.link[a] == b && st'.link[b] == a;
    forall e | e in st.link ensures e != a && e != b && st'.link[e] == st.link[e] != a && st.link[e] != b {
    }
  }

  lemma CreateKeepsPointers(st: State, s: nat, r: nat)
    requires LinkOk(st) && PointersOk(st) && Snd(s) !in st.opp && Rcv(r) !in st.opp
    ensures PointersOk(Created(st, s, r))
  {
    CreateKeepsLink(st, s, r);
    var st' := Created(st, s, r);
    forall e | e in st'.opp && !Lagging(st', e) ensures st'.opp[e] == Partner(st'.link, e) {
      if e in st.opp && Lagging(st, e) {
        var j :| LagsIn(st, j, e);
        assert LagsIn(st', j, e);
      }
    }
  }

  lemma CreateKeepsKnowing(st: State, s: nat, r: nat, j: nat)
    requires Inv(st) && Snd(s) !in st.opp && Rcv(r) !in st.opp && j in st.ops
    ensures var st' := Created(st, s, r); Knows(st', st.ops[j]) && TargetFree(st', st.ops[j])
  {
    var op := st.ops[j];
    assert Knows(st, op) && TargetFree(st, op);
    assert Owns(st, j, op.self) && Owns(st, j, Source(op));
  }
}
