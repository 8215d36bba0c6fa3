/** What holds along every run of accepted Safrole blocks. */
module SafroleRuns {
  import opened Prelude
  import opened Tickets
  import opened Safrole

  /** A block, with the scheduled validators and the offenders that the rest of the chain has
      settled on by the time it is applied. */
  datatype Block = Block(iota: seq<Validator>, offenders: seq<Key>, input: Input)

  /** `blocks[i]` takes `states[i]` to `states[i + 1]` and emits `outputs[i]`. */
  datatype Run = Run(states: seq<State>, blocks: seq<Block>, outputs: seq<Output>)

  function Prior(s: State, b: Block): State {
    s.(iota := b.iota, postOffenders := b.offenders)
  }

  predicate Accepts(p: Primitives, c: Config, s: State, b: Block, s': State, o: Output) {
    && 0 < c.epochLength && (ReachesDraw(p, c, Prior(s, b), b.input) ==> 0 < |s.gammaK|)
    && Transition(p, c, Prior(s, b), b.input) == Accepted(s', o)
  }

  predicate AcceptsAt(p: Primitives, c: Config, r: Run, i: nat)
    requires i < |r.blocks| == |r.outputs| == |r.states| - 1
  {
    Accepts(p, c, r.states[i], r.blocks[i], r.states[i + 1], r.outputs[i])
  }

  ghost predicate IsRun(p: Primitives, c: Config, r: Run) {
    && 0 < c.epochLength
    && |r.blocks| == |r.outputs| == |r.states| - 1
    && forall i :: 0 <= i < |r.blocks| ==> AcceptsAt(p, c, r, i)
  }

  /** Block `i` is the first of its epoch. */
  predicate Enters(c: Config, r: Run, i: nat)
    requires 0 < c.epochLength && i < |r.blocks| < |r.states|
  {
    Epoch(c, r.blocks[i].input.slot) != Epoch(c, r.states[i].tau)
  }

  // ---------- time ----------

  lemma EpochMonotone(c: Config, a: U32, b: U32)
    requires 0 < c.epochLength && a <= b
    ensures Epoch(c, a) <= Epoch(c, b)
  {
    var e := c.epochLength;
    QuotientMonotone(a, a / e, b, b / e, e);
  }

  lemma QuotientMonotone(a: int, qa: int, b: int, qb: int, e: int)
    requires 0 < e && a <= b
    requires qa * e <= a && b < qb * e + e
    ensures qa <= qb
  {
    if qa > qb {
      Distribute(qa, qb, e);
      GapIsWide(qa - qb, e);
      assert false;
    }
  }

  lemma Distribute(x: int, y: int, e: int)
    ensures (x - y) * e == x * e - y * e
  {
  }

  lemma {:induction false} GapIsWide(d: int, e: int)
    requires 1 <= d && 1 <= e
    ensures e <= d * e
  {
    if d > 1 {
      GapIsWide(d - 1, e);
      Distribute(d, 1, e);
    }
  }

  /** The time slot strictly increases, so epochs never go back. */
  lemma {:induction false} TimeIncreases(p: Primitives, c: Config, r: Run, i: nat, j: nat)
    requires IsRun(p, c, r) && i <= j <= |r.blocks|
    ensures i < j ==> r.states[i].tau < r.states[j].tau
    ensures Epoch(c, r.states[i].tau) <= Epoch(c, r.states[j].tau)
    decreases j
  {
    if i < j {
      TimeIncreases(p, c, r, i, j - 1);
      assert AcceptsAt(p, c, r, j - 1);
      EpochMonotone(c, r.states[i].tau, r.states[j].tau);
    }
  }

  /** An accepted block never sits at the last representable epoch's end, so "the next epoch" is
      plain addition in spite of the machine width. */
  lemma NextEpochDoesNotWrap(c: Config, tau: U32, slot: U32)
    requires 0 < c.epochLength && tau < slot
    ensures Follows(Epoch(c, tau), Epoch(c, slot)) <==> Epoch(c, slot) == Epoch(c, tau) + 1
  {
    var q := Epoch(c, tau);
    QuotientIsSmaller(tau, q, c.epochLength);
    SmallStays(q + 1);
  }

  lemma QuotientIsSmaller(a: nat, q: nat, e: int)
    requires 0 < e && q * e <= a
    ensures q <= a
  {
    if q > 0 {
      GapIsWide(e, q);
    }
  }

  lemma SmallStays(x: nat)
    requires x < TWO_32
    ensures x % TWO_32 == x
  {
  }

  // ---------- the accumulator ----------

  ghost predicate Sound(c: Config, s: State) {
    Ascending(s.gammaA) && |s.gammaA| <= c.epochLength && AttemptsBelow(c, s.gammaA)
  }

  function SubmittedAt(p: Primitives, r: Run, i: nat): set<Hash>
    requires i < |r.blocks| < |r.states|
  {
    SubmittedIds(p, r.states[i].gammaZ, r.states[i + 1].eta.e2, r.blocks[i].input.extrinsic)
  }

  /** One accepted block: the posterior accumulator is the lowest part of the prior one, or of
      nothing in a new epoch, and of the submitted identifiers. */
  lemma AccumulatorStep(p: Primitives, c: Config, s: State, b: Block, s': State, o: Output)
    requires Accepts(p, c, s, b, s', o) && Sound(c, s)
    ensures Sound(c, s')
    ensures Lowest(Ids(s'.gammaA), c.epochLength,
              (if Epoch(c, s'.tau) != Epoch(c, s.tau) then {} else Ids(s.gammaA))
              + SubmittedIds(p, s.gammaZ, s'.eta.e2, b.input.extrinsic))
  {
    var change := ChangesEpoch(c, s, b.input.slot);
    var base := TicketBase(Prior(s, b), change);
    if !change {
      assert [] + s.gammaA == s.gammaA;
      InsertAllOrdered([], s.gammaA);
    }
    assert base == if change then [] else s.gammaA;
    IdsCount(base);
    LowestOfFew(Ids(base), c.epochLength);
    AccumulateLowest(p, c, s.gammaZ, s'.eta.e2, base, None, b.input.extrinsic, Ids(base));
    assert change ==> Ids(base) == {};
  }

  /** Past the submission tail nothing is accumulated: an accepted block leaves the accumulator
      alone, or empty when it opens an epoch. */
  lemma TailFreezes(p: Primitives, c: Config, s: State, b: Block, s': State, o: Output)
    requires Accepts(p, c, s, b, s', o) && Sound(c, s)
    requires Phase(c, s'.tau) >= Tail(c)
    ensures s'.gammaA == if Epoch(c, s'.tau) != Epoch(c, s.tau) then [] else s.gammaA
  {
    assert b.input.extrinsic == [];
    assert [] + s.gammaA == s.gammaA;
    InsertAllOrdered([], s.gammaA);
  }

  lemma AccumulatorStepAt(p: Primitives, c: Config, r: Run, i: nat)
    requires IsRun(p, c, r) && i < |r.blocks| && Sound(c, r.states[i])
    ensures Sound(c, r.states[i + 1])
    ensures Lowest(Ids(r.states[i + 1].gammaA), c.epochLength,
              (if Epoch(c, r.states[i + 1].tau) != Epoch(c, r.states[i].tau) then {} else Ids(r.states[i].gammaA))
              + SubmittedAt(p, r, i))
  {
    assert AcceptsAt(p, c, r, i);
    AccumulatorStep(p, c, r.states[i], r.blocks[i], r.states[i + 1], r.outputs[i]);
  }

  /** Every reachable accumulator is in strictly ascending order, no longer than an epoch, and holds
      no attempt number out of range. */
  lemma {:induction false} AlwaysSound(p: Primitives, c: Config, r: Run, n: nat)
    requires IsRun(p, c, r) && n <= |r.blocks| && Sound(c, r.states[0])
    ensures Sound(c, r.states[n])
  {
    if n > 0 {
      AlwaysSound(p, c, r, n - 1);
      AccumulatorStepAt(p, c, r, n - 1);
    }
  }

  /** The identifiers submitted by those of the first `n` blocks that belong to epoch `e`. */
  ghost function SubmittedIn(p: Primitives, c: Config, r: Run, n: nat, e: nat): set<Hash>
    requires 0 < c.epochLength && n <= |r.blocks| < |r.states|
  {
    if n == 0 then {}
    else SubmittedIn(p, c, r, n - 1, e)
         + if Epoch(c, r.states[n].tau) == e then SubmittedAt(p, r, n - 1) else {}
  }

  /** All identifiers submitted in the epoch that state `n` belongs to, together with what the run
      started from when it started in that epoch. */
  ghost function EpochIds(p: Primitives, c: Config, r: Run, n: nat): set<Hash>
    requires 0 < c.epochLength && n <= |r.blocks| < |r.states|
  {
    var e := Epoch(c, r.states[n].tau);
    (if Epoch(c, r.states[0].tau) == e then Ids(r.states[0].gammaA) else {}) + SubmittedIn(p, c, r, n, e)
  }

  lemma {:induction false} NothingSubmittedLater(p: Primitives, c: Config, r: Run, n: nat, e: nat)
    requires IsRun(p, c, r) && n <= |r.blocks| && Epoch(c, r.states[n].tau) < e
    ensures SubmittedIn(p, c, r, n, e) == {}
  {
    if n > 0 {
      TimeIncreases(p, c, r, n - 1, n);
      NothingSubmittedLater(p, c, r, n - 1, e);
    }
  }

  lemma EpochIdsGrow(p: Primitives, c: Config, r: Run, n: nat)
    requires IsRun(p, c, r) && n < |r.blocks|
    ensures EpochIds(p, c, r, n + 1)
         == (if Epoch(c, r.states[n + 1].tau) != Epoch(c, r.states[n].tau) then {} else EpochIds(p, c, r, n))
            + SubmittedAt(p, r, n)
  {
    TimeIncreases(p, c, r, n, n + 1);
    TimeIncreases(p, c, r, 0, n);
    if Epoch(c, r.states[n + 1].tau) != Epoch(c, r.states[n].tau) {
      NothingSubmittedLater(p, c, r, n, Epoch(c, r.states[n + 1].tau));
    }
  }

  /** At every moment of every run the accumulator holds exactly the lowest identifiers of all that
      were submitted since its epoch began, however they were spread over blocks. */
  lemma {:induction false} AccumulatorIsLowestOfEpoch(p: Primitives, c: Config, r: Run, n: nat)
    requires IsRun(p, c, r) && n <= |r.blocks| && Sound(c, r.states[0])
    ensures Lowest(Ids(r.states[n].gammaA), c.epochLength, EpochIds(p, c, r, n))
  {
    if n == 0 {
      IdsCount(r.states[0].gammaA);
      LowestOfFew(Ids(r.states[0].gammaA), c.epochLength);
    } else {
      var i := n - 1;
      AccumulatorIsLowestOfEpoch(p, c, r, i);
      AlwaysSound(p, c, r, i);
      AccumulatorStepAt(p, c, r, i);
      EpochIdsGrow(p, c, r, i);
      if Epoch(c, r.states[n].tau) == Epoch(c, r.states[i].tau) {
        LowestOfUnion(Ids(r.states[i].gammaA), c.epochLength, EpochIds(p, c, r, i),
                      SubmittedAt(p, r, i), Ids(r.states[n].gammaA));
      }
    }
  }

  /** Taking the lowest part early does not change the lowest part of a union. */
  lemma {:induction false} LowestOfUnion(low: set<Hash>, k: nat, all: set<Hash>, more: set<Hash>, low': set<Hash>)
    requires Lowest(low, k, all) && Lowest(low', k, low + more)
    ensures Lowest(low', k, all + more)
    decreases more
  {
    if more == {} {
      assert low + more == low && all + more == all;
      LowestOfFew(low, k);
      LowestIsUnique(low, low', k, low);
    } else {
      var x :| x in more;
      var rest := more - {x};
      var mid := LowestExists(k, low + rest);
      LowestOfUnion(low, k, all, rest, mid);
      var top := LowestExists(k, mid + {x});
      LowestGrows(mid, k, low + rest, x, top);
      assert low + rest + {x} == low + more;
      LowestIsUnique(top, low', k, low + more);
      LowestGrows(mid, k, all + rest, x, low');
      assert all + rest + {x} == all + more;
    }
  }

  lemma {:induction false} LowestExists(k: nat, all: set<Hash>) returns (low: set<Hash>)
    ensures Lowest(low, k, all)
    decreases |all|
  {
    if |all| <= k {
      low := all;
    } else {
      var top := Largest(all);
      low := LowestExists(k, all - {top});
    }
  }

  lemma {:induction false} Largest(all: set<Hash>) returns (x: Hash)
    requires all != {}
    ensures x in all && forall y :: y in all ==> y <= x
    decreases |all|
  {
    x :| x in all;
    var rest := all - {x};
    assert all == rest + {x};
    if rest != {} {
      var y := Largest(rest);
      if x < y {
        x := y;
      }
    }
  }

  // ---------- tickets marks and the sealing series ----------

  predicate Marks(c: Config, r: Run, i: nat, e: nat)
    requires 0 < c.epochLength && i < |r.blocks| && |r.outputs| == |r.blocks|
  {
    Epoch(c, r.blocks[i].input.slot) == e && r.outputs[i].ticketsMark.Some?
  }

  /** What the marks of the current epoch say about state `n`. */
  ghost predicate MarksAgree(c: Config, r: Run, n: nat)
    requires 0 < c.epochLength && n <= |r.blocks| < |r.states| && |r.outputs| == |r.blocks|
  {
    var s := r.states[n];
    var e := Epoch(c, s.tau);
    && (forall i :: 0 <= i < n && Marks(c, r, i, e) ==>
          && Phase(c, s.tau) >= Tail(c) && |s.gammaA| == c.epochLength
          && r.outputs[i].ticketsMark == Some(OutsideIn(s.gammaA)))
    && (Phase(c, s.tau) >= Tail(c) && |s.gammaA| == c.epochLength ==>
          exists i :: 0 <= i < n && Marks(c, r, i, e))
  }

  lemma {:induction false} MarksAlwaysAgree(p: Primitives, c: Config, r: Run, n: nat)
    requires IsRun(p, c, r) && n <= |r.blocks| && r.states[0].gammaA == []
    ensures MarksAgree(c, r, n)
  {
    if n > 0 {
      MarksAlwaysAgree(p, c, r, n - 1);
      MarksAgreeStep(p, c, r, n - 1);
    }
  }

  lemma MarksAgreeStep(p: Primitives, c: Config, r: Run, n: nat)
    requires IsRun(p, c, r) && n < |r.blocks| && r.states[0].gammaA == []
    requires MarksAgree(c, r, n)
    ensures MarksAgree(c, r, n + 1)
  {
    var s, s', b, o := r.states[n], r.states[n + 1], r.blocks[n], r.outputs[n];
    assert AcceptsAt(p, c, r, n);
    AlwaysSound(p, c, r, n);
    if Phase(c, s'.tau) >= Tail(c) {
      TailFreezes(p, c, s, b, s', o);
    }
    var e, e' := Epoch(c, s.tau), Epoch(c, s'.tau);
    if e != e' {
      TimeIncreases(p, c, r, n, n + 1);
      forall i | 0 <= i < n + 1 ensures !Marks(c, r, i, e') {
        if i < n {
          EarlierBlock(p, c, r, i, n);
        }
      }
    } else if Phase(c, s'.tau) < Tail(c) {
      PhaseAdvances(c, s.tau, s'.tau);
    } else if Phase(c, s.tau) < Tail(c) {
      assert o.ticketsMark.Some? <==> |s.gammaA| == c.epochLength;
      assert o.ticketsMark.Some? ==> Marks(c, r, n, e');
    }
  }

  lemma EarlierBlock(p: Primitives, c: Config, r: Run, i: nat, n: nat)
    requires IsRun(p, c, r) && i < n <= |r.blocks|
    ensures Epoch(c, r.blocks[i].input.slot) <= Epoch(c, r.states[n].tau)
  {
    assert AcceptsAt(p, c, r, i);
    TimeIncreases(p, c, r, i + 1, n);
  }

  lemma PhaseAdvances(c: Config, a: U32, b: U32)
    requires 0 < c.epochLength && a < b && Epoch(c, a) == Epoch(c, b)
    ensures Phase(c, a) < Phase(c, b)
  {
  }

  /** On every run from an empty accumulator, a block that enters the next epoch directly installs a
      series of tickets exactly when some block of the old epoch emitted a tickets mark, and then
      the series is that mark. A block that skips an epoch, marked or not, installs keys. */
  lemma SeriesMatchesMark(p: Primitives, c: Config, r: Run, i: nat)
    requires IsRun(p, c, r) && r.states[0].gammaA == []
    requires i < |r.blocks| && Enters(c, r, i)
    ensures var e, e' := Epoch(c, r.states[i].tau), Epoch(c, r.blocks[i].input.slot);
      && (e' == e + 1 ==>
            && (r.states[i + 1].gammaS.TicketSeries? <==> exists j :: 0 <= j < i && Marks(c, r, j, e))
            && (forall j :: 0 <= j < i && Marks(c, r, j, e) ==>
                  r.states[i + 1].gammaS == TicketSeries(r.outputs[j].ticketsMark.value)))
      && (e' != e + 1 ==> r.states[i + 1].gammaS.KeySeries?)
  {
    MarksAlwaysAgree(p, c, r, i);
    assert AcceptsAt(p, c, r, i);
    NextEpochDoesNotWrap(c, r.states[i].tau, r.blocks[i].input.slot);
  }

  /** Each epoch emits at most one tickets mark. */
  lemma OneMarkPerEpoch(p: Primitives, c: Config, r: Run, i: nat, j: nat)
    requires IsRun(p, c, r) && r.states[0].gammaA == []
    requires i < j < |r.blocks| && r.outputs[i].ticketsMark.Some? && r.outputs[j].ticketsMark.Some?
    ensures Epoch(c, r.blocks[i].input.slot) < Epoch(c, r.blocks[j].input.slot)
  {
    MarksAlwaysAgree(p, c, r, j);
    assert AcceptsAt(p, c, r, j);
    EarlierBlock(p, c, r, i, j);
    assert !Marks(c, r, i, Epoch(c, r.states[j].tau));
  }

  /** End to end: a series of tickets seals its epoch with exactly as many tickets as the epoch has
      slots, and they carry the lowest identifiers of all submitted in the epoch before. */
  lemma SeriesIsLowestOfEpoch(p: Primitives, c: Config, r: Run, i: nat)
    requires IsRun(p, c, r) && Sound(c, r.states[0])
    requires i < |r.blocks| && Enters(c, r, i) && r.states[i + 1].gammaS.TicketSeries?
    ensures var t := r.states[i + 1].gammaS.tickets;
      && |t| == |Ids(t)| == c.epochLength
      && Lowest(Ids(t), c.epochLength, EpochIds(p, c, r, i))
  {
    assert AcceptsAt(p, c, r, i);
    var a := r.states[i].gammaA;
    var t := r.states[i + 1].gammaS.tickets;
    assert t == OutsideIn(a);
    SequencePermutes(a);
    forall u ensures u in t <==> u in a {
      assert u in t <==> u in multiset(t);
      assert u in a <==> u in multiset(a);
    }
    assert Ids(t) == Ids(a);
    AlwaysSound(p, c, r, i);
    IdsCount(a);
    AccumulatorIsLowestOfEpoch(p, c, r, i);
  }

  // ---------- rotation of validators and entropy ----------

  /** The validator sets of the run, oldest first: the three it started with, then one for every
      block that opens an epoch, filtered from the scheduled set as of that block. */
  ghost function ValidatorHistory(c: Config, r: Run, n: nat): (h: seq<seq<Validator>>)
    requires 0 < c.epochLength && n <= |r.blocks| < |r.states|
    ensures |h| >= 3
  {
    if n == 0 then [r.states[0].lambda, r.states[0].kappa, r.states[0].gammaK]
    else ValidatorHistory(c, r, n - 1)
         + if Enters(c, r, n - 1) then [Filtered(r.blocks[n - 1].offenders, r.blocks[n - 1].iota)] else []
  }

  /** The epoch entropies of the run, oldest first: the three it started with, then the accumulator
      as it stood before every block that opens an epoch. */
  ghost function EntropyHistory(c: Config, r: Run, n: nat): (h: seq<Hash>)
    requires 0 < c.epochLength && n <= |r.blocks| < |r.states|
    ensures |h| >= 3
  {
    if n == 0 then [r.states[0].eta.e3, r.states[0].eta.e2, r.states[0].eta.e1]
    else EntropyHistory(c, r, n - 1)
         + if Enters(c, r, n - 1) then [r.states[n - 1].eta.e0] else []
  }

  /** In every reachable state the previous, current and next validator sets are the last three of
      the history, and the epoch entropies the last three of theirs. */
  lemma {:induction false} RotationIsHistory(p: Primitives, c: Config, r: Run, n: nat)
    requires IsRun(p, c, r) && n <= |r.blocks|
    ensures var s, v, h := r.states[n], ValidatorHistory(c, r, n), EntropyHistory(c, r, n);
      && v[|v| - 3..] == [s.lambda, s.kappa, s.gammaK]
      && h[|h| - 3..] == [s.eta.e3, s.eta.e2, s.eta.e1]
  {
    if n > 0 {
      RotationIsHistory(p, c, r, n - 1);
      StepRotates(p, c, r, n - 1);
      var v, h := ValidatorHistory(c, r, n - 1), EntropyHistory(c, r, n - 1);
      if Enters(c, r, n - 1) {
        LastThree(v, Filtered(r.blocks[n - 1].offenders, r.blocks[n - 1].iota));
        LastThree(h, r.states[n - 1].eta.e0);
      } else {
        assert v + [] == v && h + [] == h;
      }
    }
  }

  lemma StepRotates(p: Primitives, c: Config, r: Run, i: nat)
    requires IsRun(p, c, r) && i < |r.blocks|
    ensures var s, s', b := r.states[i], r.states[i + 1], r.blocks[i];
      if Enters(c, r, i) then
        && [s'.lambda, s'.kappa, s'.gammaK] == [s.kappa, s.gammaK, Filtered(b.offenders, b.iota)]
        && [s'.eta.e3, s'.eta.e2, s'.eta.e1] == [s.eta.e2, s.eta.e1, s.eta.e0]
      else
        && [s'.lambda, s'.kappa, s'.gammaK] == [s.lambda, s.kappa, s.gammaK]
        && [s'.eta.e3, s'.eta.e2, s'.eta.e1] == [s.eta.e3, s.eta.e2, s.eta.e1]
  {
    assert AcceptsAt(p, c, r, i);
  }

  lemma LastThree<T>(h: seq<T>, x: T)
    requires |h| >= 3
    ensures (h + [x])[|h| - 2..] == h[|h| - 3..][1..] + [x]
  {
  }

  ghost predicate Sized(c: Config, s: State) {
    |s.lambda| == |s.kappa| == |s.gammaK| == c.validatorsCount
  }

  /** Validator lists keep their length, and the ring commitment is always that of the next set. */
  lemma {:induction false} RingFollowsValidators(p: Primitives, c: Config, r: Run, n: nat)
    requires IsRun(p, c, r) && n <= |r.blocks| && Sized(c, r.states[0])
    requires r.states[0].gammaZ == p.commit(KeysOf(r.states[0].gammaK))
    ensures Sized(c, r.states[n]) && r.states[n].gammaZ == p.commit(KeysOf(r.states[n].gammaK))
  {
    if n > 0 {
      RingFollowsValidators(p, c, r, n - 1);
      assert AcceptsAt(p, c, r, n - 1);
    }
  }

  /** The epoch mark appears exactly on blocks that open an epoch, and announces the entropies and
      the keys that the posterior state holds. */
  lemma EpochMarkAnnounces(p: Primitives, c: Config, r: Run, i: nat)
    requires IsRun(p, c, r) && i < |r.blocks|
    ensures r.outputs[i].epochMark ==
      if Enters(c, r, i)
      then Some(EpochMark(r.states[i].eta.e0, r.states[i].eta.e1,
                          KeysOf(Filtered(r.blocks[i].offenders, r.blocks[i].iota))))
      else None
  {
    assert AcceptsAt(p, c, r, i);
  }
}
