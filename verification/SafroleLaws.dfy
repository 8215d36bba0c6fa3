/** What a block means, in plain terms: the exact conditions of every outcome, and what an accepted
    block leaves in each part of the state. */
module SafroleLaws {
  import opened Prelude
  import opened Tickets
  import opened Safrole
  import opened SafroleRuns

  // ---------- slots ----------

  /** A slot is split into whole epochs and a rest. */
  lemma SlotSplits(c: Config, slot: U32)
    requires 0 < c.epochLength
    ensures Epoch(c, slot) * c.epochLength + Phase(c, slot) == slot && Phase(c, slot) < c.epochLength
  {
  }

  /** Submission ends after five sixths of an epoch, exactly when five times its length fits 32 bits. */
  lemma TailExactly(c: Config)
    ensures (6 * Tail(c) <= 5 * c.epochLength < 6 * Tail(c) + 6) <==> 5 * c.epochLength < 0x1_0000_0000
  {
    var product := c.epochLength * 5;
    if product >= TWO_32 {
      assert product % TWO_32 <= product - TWO_32;
    }
  }

  /** The shortest epoch for which it does not: submission then ends at once. */
  lemma TailWraps()
    ensures Tail(Config(858_993_460, 2, 6)) == 0
  {
  }

  // ---------- refusals ----------

  /** What is wrong with an envelope whose proof yields `id`, if anything; `held` is the accumulator in
      front of it and `before` the ticket it follows. */
  function Fault(limit: nat, id: Option<Hash>, attempt: nat, held: seq<Ticket>, before: Option<Ticket>): Option<Error> {
    if id.None? then Some(BadTicketProof)
    else if attempt >= limit then Some(BadTicketAttempt)
    else if Ticket(id.value, attempt) in held then Some(DuplicateTicket)
    else if before.Some? && id.value < before.value.id then Some(BadTicketOrder)
    else None
  }

  /** The ticket in front of envelope `i`. */
  function Before(p: Primitives, z: Key, eta2: Hash, prev: Option<Ticket>, ext: seq<Envelope>, i: nat): Option<Ticket>
    requires i <= |ext|
  {
    if i == 0 then prev else Some(TicketOf(p, z, eta2, ext[i - 1]))
  }

  predicate AtFault(p: Primitives, c: Config, z: Key, eta2: Hash, acc: seq<Ticket>,
                    prev: Option<Ticket>, ext: seq<Envelope>, i: nat, error: Error)
    requires i < |ext|
  {
    Fault(c.ticketsPerValidator, p.verify(z, eta2, ext[i].attempt, ext[i].proof), ext[i].attempt,
          AccumulatorAt(p, c, z, eta2, acc, ext, i), Before(p, z, eta2, prev, ext, i)) == Some(error)
  }

  /** The first `i` envelopes fit. */
  predicate FitUpTo(p: Primitives, c: Config, z: Key, eta2: Hash, acc: seq<Ticket>,
                    prev: Option<Ticket>, ext: seq<Envelope>, i: nat)
    requires i <= |ext|
  {
    i == 0 || (FitUpTo(p, c, z, eta2, acc, prev, ext, i - 1) && Fits(p, c, z, eta2, acc, prev, ext, i - 1))
  }

  /** Those before envelope `i` fit and it is the first at fault. */
  predicate FirstAtFault(p: Primitives, c: Config, z: Key, eta2: Hash, acc: seq<Ticket>,
                         prev: Option<Ticket>, ext: seq<Envelope>, i: nat, error: Error) {
    i < |ext| && FitUpTo(p, c, z, eta2, acc, prev, ext, i) && AtFault(p, c, z, eta2, acc, prev, ext, i, error)
  }

  /** The loop reaches envelope `i` when those before it fit. */
  lemma {:induction false} LoopReaches(p: Primitives, c: Config, z: Key, eta2: Hash, acc: seq<Ticket>,
                                       prev: Option<Ticket>, ext: seq<Envelope>, i: nat)
    requires i <= |ext| && FitUpTo(p, c, z, eta2, acc, prev, ext, i)
    ensures Accumulate(p, c, z, eta2, acc, prev, ext)
         == Accumulate(p, c, z, eta2, AccumulatorAt(p, c, z, eta2, acc, ext, i),
                       Before(p, z, eta2, prev, ext, i), ext[i..])
  {
    if i == 0 {
      assert ext[0..] == ext;
    } else {
      LoopReaches(p, c, z, eta2, acc, prev, ext, i - 1);
      LoopAdvances(p, c, z, eta2, acc, prev, ext, i - 1);
    }
  }

  lemma LoopAdvances(p: Primitives, c: Config, z: Key, eta2: Hash, acc: seq<Ticket>,
                     prev: Option<Ticket>, ext: seq<Envelope>, i: nat)
    requires i < |ext| && Fits(p, c, z, eta2, acc, prev, ext, i)
    ensures Accumulate(p, c, z, eta2, AccumulatorAt(p, c, z, eta2, acc, ext, i),
                       Before(p, z, eta2, prev, ext, i), ext[i..])
         == Accumulate(p, c, z, eta2, AccumulatorAt(p, c, z, eta2, acc, ext, i + 1),
                       Before(p, z, eta2, prev, ext, i + 1), ext[i + 1..])
  {
    assert ext[i..][0] == ext[i] && ext[i..][1..] == ext[i + 1..];
  }

  lemma FaultRefusesNow(p: Primitives, c: Config, z: Key, eta2: Hash, acc: seq<Ticket>,
                        prev: Option<Ticket>, ext: seq<Envelope>, error: Error)
    requires ext != []
    requires Fault(c.ticketsPerValidator, p.verify(z, eta2, ext[0].attempt, ext[0].proof),
                   ext[0].attempt, acc, prev) == Some(error)
    ensures Accumulate(p, c, z, eta2, acc, prev, ext) == Refused(error)
  {
  }

  lemma FaultRefuses(p: Primitives, c: Config, z: Key, eta2: Hash, acc: seq<Ticket>,
                     prev: Option<Ticket>, ext: seq<Envelope>, i: nat, error: Error)
    requires FirstAtFault(p, c, z, eta2, acc, prev, ext, i, error)
    ensures Accumulate(p, c, z, eta2, acc, prev, ext) == Refused(error)
  {
    LoopReaches(p, c, z, eta2, acc, prev, ext, i);
    assert ext[i..][0] == ext[i];
    FaultRefusesNow(p, c, z, eta2, AccumulatorAt(p, c, z, eta2, acc, ext, i),
                    Before(p, z, eta2, prev, ext, i), ext[i..], error);
  }

  lemma UnfitIsAtFault(p: Primitives, c: Config, z: Key, eta2: Hash, acc: seq<Ticket>,
                       prev: Option<Ticket>, ext: seq<Envelope>, i: nat) returns (error: Error)
    requires i < |ext| && !Fits(p, c, z, eta2, acc, prev, ext, i)
    ensures AtFault(p, c, z, eta2, acc, prev, ext, i, error)
  {
    error :=
      if p.verify(z, eta2, ext[i].attempt, ext[i].proof).None? then BadTicketProof
      else if ext[i].attempt >= c.ticketsPerValidator then BadTicketAttempt
      else if TicketOf(p, z, eta2, ext[i]) in AccumulatorAt(p, c, z, eta2, acc, ext, i) then DuplicateTicket
      else BadTicketOrder;
  }

  lemma {:induction false} FirstUnfit(p: Primitives, c: Config, z: Key, eta2: Hash, acc: seq<Ticket>,
                                      prev: Option<Ticket>, ext: seq<Envelope>, n: nat) returns (i: nat)
    requires n <= |ext| && !FitUpTo(p, c, z, eta2, acc, prev, ext, n)
    ensures i < n && FitUpTo(p, c, z, eta2, acc, prev, ext, i) && !Fits(p, c, z, eta2, acc, prev, ext, i)
  {
    i := n - 1;
    if !FitUpTo(p, c, z, eta2, acc, prev, ext, n - 1) {
      i := FirstUnfit(p, c, z, eta2, acc, prev, ext, n - 1);
    }
  }

  /** An extrinsic is refused with an error exactly when its first envelope at fault is so with it. */
  lemma RefusedExactly(p: Primitives, c: Config, z: Key, eta2: Hash, acc: seq<Ticket>,
                       prev: Option<Ticket>, ext: seq<Envelope>, error: Error)
    ensures Accumulate(p, c, z, eta2, acc, prev, ext) == Refused(error)
       <==> exists i: nat :: FirstAtFault(p, c, z, eta2, acc, prev, ext, i, error)
  {
    if i: nat :| FirstAtFault(p, c, z, eta2, acc, prev, ext, i, error) {
      FaultRefuses(p, c, z, eta2, acc, prev, ext, i, error);
    }
    if Accumulate(p, c, z, eta2, acc, prev, ext) == Refused(error) {
      if FitUpTo(p, c, z, eta2, acc, prev, ext, |ext|) {
        LoopReaches(p, c, z, eta2, acc, prev, ext, |ext|);
      } else {
        var i := FirstUnfit(p, c, z, eta2, acc, prev, ext, |ext|);
        var e := UnfitIsAtFault(p, c, z, eta2, acc, prev, ext, i);
        FaultRefuses(p, c, z, eta2, acc, prev, ext, i, e);
        assert FirstAtFault(p, c, z, eta2, acc, prev, ext, i, error);
      }
    }
  }

  /** The checks in front of the ticket loop let the block through. */
  predicate Passes(c: Config, s: State, input: Input)
    requires 0 < c.epochLength
  {
    && s.tau < input.slot && |input.extrinsic| <= 16
    && (input.slot % c.epochLength < Tail(c) || input.extrinsic == [])
    && (input.slot / c.epochLength != s.tau / c.epochLength ==> |s.iota| == c.validatorsCount)
  }

  /** What a passing block's tickets are checked with: the commitment of the prior state and the
      entropy that has been settled for two epochs, starting from nothing in a new epoch. */
  function Checked(p: Primitives, c: Config, s: State, input: Input): Admission
    requires 0 < c.epochLength
  {
    if input.slot / c.epochLength != s.tau / c.epochLength
    then Accumulate(p, c, s.gammaZ, s.eta.e1, [], None, input.extrinsic)
    else Accumulate(p, c, s.gammaZ, s.eta.e2, InsertAll([], s.gammaA), None, input.extrinsic)
  }

  /** Every outcome of a block has an exact condition on state and input. */
  lemma OutcomeExactly(p: Primitives, c: Config, s: State, input: Input)
    requires 0 < c.epochLength && (ReachesDraw(p, c, s, input) ==> 0 < |s.gammaK|)
    ensures var r, ext := Transition(p, c, s, input), input.extrinsic;
      var enters := input.slot / c.epochLength != s.tau / c.epochLength;
      var late := Tail(c) <= input.slot % c.epochLength && ext != [];
      && (r.Aborted? <==>
            s.tau < input.slot && (|ext| > 16 || (!late && enters && |s.iota| != c.validatorsCount)))
      && (input.slot <= s.tau ==> r == Rejected(BadSlot))
      && (s.tau < input.slot && |ext| <= 16 && late ==> r == Rejected(UnexpectedTicket))
      && (Passes(c, s, input) ==>
            match Checked(p, c, s, input)
            case Refused(error) => r == Rejected(error)
            case Admitted(_) => r.Accepted?)
      && (r.Accepted? ==> Passes(c, s, input))
  {
  }

  // ---------- accepted blocks ----------

  /** Block `i` lies in another epoch than the state it meets, written out. */
  predicate Opens(c: Config, r: Run, i: nat)
    requires 0 < c.epochLength && i < |r.blocks| < |r.states|
  {
    r.blocks[i].input.slot / c.epochLength != r.states[i].tau / c.epochLength
  }

  /** Each block moves the clock to its slot and mixes its entropy into the accumulator. Scheduled
      validators and offenders are only read. */
  lemma BlockMixes(p: Primitives, c: Config, r: Run, i: nat)
    requires IsRun(p, c, r) && i < |r.blocks|
    ensures r.states[i + 1].tau == r.blocks[i].input.slot
    ensures r.states[i + 1].eta.e0 == p.mix(r.states[i].eta.e0, r.blocks[i].input.entropy)
    ensures r.states[i + 1].iota == r.blocks[i].iota && r.states[i + 1].postOffenders == r.blocks[i].offenders
  {
    assert AcceptsAt(p, c, r, i);
  }

  /** The entropies of the first `n` blocks, mixed one after the other into `start`. */
  ghost function Mixed(p: Primitives, start: Hash, r: Run, n: nat): Hash
    requires n <= |r.blocks|
  {
    if n == 0 then start else p.mix(Mixed(p, start, r, n - 1), r.blocks[n - 1].input.entropy)
  }

  /** The entropy accumulator is the fold of every block's entropy, across epoch changes too. */
  lemma {:induction false} EntropyIsFold(p: Primitives, c: Config, r: Run, n: nat)
    requires IsRun(p, c, r) && n <= |r.blocks|
    ensures r.states[n].eta.e0 == Mixed(p, r.states[0].eta.e0, r, n)
  {
    if n > 0 {
      EntropyIsFold(p, c, r, n - 1);
      BlockMixes(p, c, r, n - 1);
    }
  }

  /** The next validators after a block that opens an epoch: offenders are blanked in place. The epoch
      mark lists their Bandersnatch keys, and the commitment is made over those keys. */
  lemma OffendersAreBlanked(p: Primitives, c: Config, r: Run, i: nat)
    requires IsRun(p, c, r) && i < |r.blocks| && Opens(c, r, i)
    ensures var b, s', mark := r.blocks[i], r.states[i + 1], r.outputs[i].epochMark;
      && |s'.gammaK| == |b.iota| == c.validatorsCount
      && (forall k :: 0 <= k < |b.iota| ==>
            s'.gammaK[k] == if b.iota[k].ed25519 in b.offenders then Validator(0, 0, 0, 0) else b.iota[k])
      && mark.Some? && |mark.value.validators| == |s'.gammaK|
      && (forall k :: 0 <= k < |s'.gammaK| ==> mark.value.validators[k] == s'.gammaK[k].bandersnatch)
      && s'.gammaZ == p.commit(mark.value.validators)
  {
    assert AcceptsAt(p, c, r, i);
  }

  // ---------- the sealing series ----------

  /** A block inside its epoch keeps the series. */
  lemma SeriesIsKept(p: Primitives, c: Config, r: Run, i: nat)
    requires IsRun(p, c, r) && i < |r.blocks| && !Opens(c, r, i)
    ensures r.states[i + 1].gammaS == r.states[i].gammaS
  {
    assert AcceptsAt(p, c, r, i);
    NextEpochDoesNotWrap(c, r.states[i].tau, r.blocks[i].input.slot);
  }

  /** So the series of an epoch is the one that its first block installed. */
  lemma {:induction false} SeriesLastsItsEpoch(p: Primitives, c: Config, r: Run, m: nat, n: nat)
    requires IsRun(p, c, r) && m <= n <= |r.blocks|
    requires r.states[m].tau / c.epochLength == r.states[n].tau / c.epochLength
    ensures r.states[n].gammaS == r.states[m].gammaS
    decreases n
  {
    if m < n {
      TimeIncreases(p, c, r, m, n - 1);
      TimeIncreases(p, c, r, n - 1, n);
      SeriesLastsItsEpoch(p, c, r, m, n - 1);
      BlockMixes(p, c, r, n - 1);
      SeriesIsKept(p, c, r, n - 1);
    }
  }

  /** A key series holds one key for every slot, drawn with the posterior entropy from the validators
      that are current in the posterior state. */
  lemma KeySeriesIsDrawn(p: Primitives, c: Config, r: Run, i: nat)
    requires IsRun(p, c, r) && i < |r.blocks| && Opens(c, r, i) && r.states[i + 1].gammaS.KeySeries?
    ensures var s', keys := r.states[i + 1], r.states[i + 1].gammaS.keys;
      && |keys| == c.epochLength && 0 < |s'.kappa|
      && forall k :: 0 <= k < c.epochLength ==>
           keys[k] == s'.kappa[p.draw(s'.eta.e2, k) % |s'.kappa|].bandersnatch
  {
    assert AcceptsAt(p, c, r, i);
    NextEpochDoesNotWrap(c, r.states[i].tau, r.blocks[i].input.slot);
  }

  /** A series of tickets alternates between the lowest and the highest that are left. */
  lemma SeriesAlternates(p: Primitives, c: Config, r: Run, i: nat, j: nat, k: nat)
    requires IsRun(p, c, r) && Sound(c, r.states[0])
    requires i < |r.blocks| && Opens(c, r, i) && r.states[i + 1].gammaS.TicketSeries?
    requires j < k < |r.states[i + 1].gammaS.tickets|
    ensures var t := r.states[i + 1].gammaS.tickets;
      if j % 2 == 0 then t[j].id < t[k].id else t[k].id < t[j].id
  {
    assert AcceptsAt(p, c, r, i);
    AlwaysSound(p, c, r, i);
    var a := r.states[i].gammaA;
    assert r.states[i + 1].gammaS.tickets == OutsideIn(a);
    assert j / 2 <= k / 2;
    assert k % 2 == 0 ==> k / 2 < |a| - 1 - j / 2;
  }

  /** A tickets mark is emitted exactly by the first block of an epoch that finds its submission phase
      over, when an earlier block of the epoch belonged to that phase and the accumulator is full. */
  lemma MarkExactly(p: Primitives, c: Config, r: Run, i: nat)
    requires IsRun(p, c, r) && i < |r.blocks|
    ensures r.outputs[i].ticketsMark.Some? <==>
      && !Opens(c, r, i)
      && r.states[i].tau % c.epochLength < Tail(c) <= r.blocks[i].input.slot % c.epochLength
      && |r.states[i].gammaA| == c.epochLength
  {
    assert AcceptsAt(p, c, r, i);
  }

  // ---------- where tickets come from ----------

  /** Block `j` submitted ticket `t`: one of its envelopes proves the identifier for the attempt, against
      the commitment of the state in front of the block and the entropy of the state behind it. */
  predicate Submits(p: Primitives, r: Run, j: nat, t: Ticket)
    requires j < |r.blocks| < |r.states|
  {
    exists e :: e in r.blocks[j].input.extrinsic && e.attempt == t.attempt
      && p.verify(r.states[j].gammaZ, r.states[j + 1].eta.e2, e.attempt, e.proof) == Some(t.id)
  }

  lemma {:induction false} AccumulatedWasSubmitted(p: Primitives, c: Config, z: Key, eta2: Hash,
      acc: seq<Ticket>, prev: Option<Ticket>, ext: seq<Envelope>, t: Ticket)
    requires LowestAdmitted(c, Admitted(acc), Ids(acc))
    requires Accumulate(p, c, z, eta2, acc, prev, ext).Admitted?
    requires t in Accumulate(p, c, z, eta2, acc, prev, ext).accumulator && t !in acc
    ensures exists e :: e in ext && e.attempt == t.attempt && p.verify(z, eta2, e.attempt, e.proof) == Some(t.id)
    decreases |ext|
  {
    var u, rest := TicketOf(p, z, eta2, ext[0]), ext[1..];
    var acc' := Admit(c, acc, u);
    AdmitKeepsLowest(c, acc, u);
    if t in acc' {
      assert ext[0] in ext;
    } else {
      IdsCount(acc');
      LowestOfFew(Ids(acc'), c.epochLength);
      AccumulatedWasSubmitted(p, c, z, eta2, acc', Some(u), rest, t);
      var e :| e in rest && e.attempt == t.attempt && p.verify(z, eta2, e.attempt, e.proof) == Some(t.id);
      assert e in ext;
    }
  }

  /** On every run, whatever ticket the accumulator holds was submitted by a block of the same epoch, or
      the run began with it in that epoch. */
  lemma {:induction false} TicketsAreGenuine(p: Primitives, c: Config, r: Run, n: nat, t: Ticket)
    requires IsRun(p, c, r) && n <= |r.blocks| && Sound(c, r.states[0]) && t in r.states[n].gammaA
    ensures
      || (t in r.states[0].gammaA && r.states[0].tau / c.epochLength == r.states[n].tau / c.epochLength)
      || exists j :: 0 <= j < n && Submits(p, r, j, t)
           && r.blocks[j].input.slot / c.epochLength == r.states[n].tau / c.epochLength
  {
    if n > 0 {
      var i := n - 1;
      BlockMixes(p, c, r, i);
      if !Opens(c, r, i) && t in r.states[i].gammaA {
        TicketsAreGenuine(p, c, r, i, t);
      } else {
        TicketIsNew(p, c, r, i, t);
      }
    }
  }

  lemma TicketIsNew(p: Primitives, c: Config, r: Run, i: nat, t: Ticket)
    requires IsRun(p, c, r) && i < |r.blocks| && Sound(c, r.states[0]) && t in r.states[i + 1].gammaA
    requires Opens(c, r, i) || t !in r.states[i].gammaA
    ensures Submits(p, r, i, t)
  {
    assert AcceptsAt(p, c, r, i);
    AlwaysSound(p, c, r, i);
    var s, s' := r.states[i], r.states[i + 1];
    var base := if Opens(c, r, i) then [] else s.gammaA;
    assert [] + s.gammaA == s.gammaA;
    InsertAllOrdered([], s.gammaA);
    IdsCount(base);
    LowestOfFew(Ids(base), c.epochLength);
    AccumulatedWasSubmitted(p, c, s.gammaZ, s'.eta.e2, base, None, r.blocks[i].input.extrinsic, t);
  }
}
