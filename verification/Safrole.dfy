/** The Safrole block transition: epochs and phases, validator and entropy rotation, the ticket
    accumulator, the sealing-key series and the two header marks.

    Ring verification, the ring commitment and the hash are parameters (`Primitives`). */
module Safrole {
  import opened Prelude
  import opened Tickets

  /** The largest number of tickets in one extrinsic. */
  const MAX_TICKETS := 16

  datatype Validator = Validator(bandersnatch: Key, ed25519: Key, bls: Key, metadata: Key)

  /** The value-initialised validator that replaces an offender. */
  const NULL_VALIDATOR := Validator(0, 0, 0, 0)

  datatype Config = Config(epochLength: U32, ticketsPerValidator: U32, validatorsCount: U32)

  datatype Envelope = Envelope(attempt: nat, proof: Signature)

  /** The cryptography the transition calls into.
      `mix` is the hash of old accumulator and block entropy, `draw` the first four bytes of the hash
      of an entropy value and an index, `commit` the ring commitment, and `verify` checks a ticket
      proof against a commitment for an entropy value and an attempt, yielding the identifier. */
  datatype Primitives = Primitives(
    mix: (Hash, Hash) -> Hash,
    draw: (Hash, nat) -> nat,
    commit: seq<Key> -> Key,
    verify: (Key, Hash, nat, Signature) -> Option<Hash>)

  datatype Entropy = Entropy(e0: Hash, e1: Hash, e2: Hash, e3: Hash)

  datatype Series = TicketSeries(tickets: seq<Ticket>) | KeySeries(keys: seq<Key>)

  datatype State = State(
    tau: U32,
    eta: Entropy,
    lambda: seq<Validator>,
    kappa: seq<Validator>,
    gammaK: seq<Validator>,
    iota: seq<Validator>,
    gammaA: seq<Ticket>,
    gammaS: Series,
    gammaZ: Key,
    postOffenders: seq<Key>)

  datatype Input = Input(slot: U32, entropy: Hash, extrinsic: seq<Envelope>)

  datatype EpochMark = EpochMark(entropy: Hash, ticketsEntropy: Hash, validators: seq<Key>)

  datatype Output = Output(epochMark: Option<EpochMark>, ticketsMark: Option<seq<Ticket>>)

  datatype Error =
    | BadSlot
    | UnexpectedTicket
    | BadTicketProof
    | BadTicketAttempt
    | DuplicateTicket
    | BadTicketOrder

  datatype Admission = Admitted(accumulator: seq<Ticket>) | Refused(error: Error)

  /** `Rejected` leaves the state as it was; `Aborted` is an exception. */
  datatype Outcome = Accepted(state: State, output: Output) | Rejected(error: Error) | Aborted

  // ---------- epochs ----------

  function Epoch(c: Config, slot: U32): nat
    requires 0 < c.epochLength
  {
    slot / c.epochLength
  }

  function Phase(c: Config, slot: U32): nat
    requires 0 < c.epochLength
  {
    slot % c.epochLength
  }

  /** The phase at which ticket submission ends; the product wraps like a `uint32_t`. */
  function Tail(c: Config): nat {
    (c.epochLength * 5) % TWO_32 / 6
  }

  /** Whether `e'` is the epoch right after `e`, in `uint32_t` arithmetic. */
  predicate Follows(e: nat, e': nat) {
    e' == (e + 1) % TWO_32
  }

  // ---------- validators ----------

  /** Offenders are replaced by the null validator, everyone else keeps their place. */
  function Filtered(offenders: seq<Key>, k: seq<Validator>): (r: seq<Validator>)
    ensures |r| == |k|
  {
    seq(|k|, i requires 0 <= i < |k| => if k[i].ed25519 in offenders then NULL_VALIDATOR else k[i])
  }

  method Phi(offenders: seq<Key>, k: seq<Validator>) returns (r: seq<Validator>)
    ensures r == Filtered(offenders, k)
  {
    r := [];
    for i := 0 to |k|
      invariant r == Filtered(offenders, k)[..i]
    {
      r := r + [if k[i].ed25519 in offenders then NULL_VALIDATOR else k[i]];
    }
  }

  function KeysOf(k: seq<Validator>): (r: seq<Key>)
    ensures |r| == |k|
  {
    seq(|k|, i requires 0 <= i < |k| => k[i].bandersnatch)
  }

  method BandersnatchKeys(k: seq<Validator>) returns (r: seq<Key>)
    ensures r == KeysOf(k)
  {
    r := [];
    for i := 0 to |k|
      invariant r == KeysOf(k)[..i]
    {
      r := r + [k[i].bandersnatch];
    }
  }

  // ---------- the ticket accumulator ----------

  /** Insert, and drop the largest ticket when the accumulator has become longer than an epoch. */
  function Admit(c: Config, acc: seq<Ticket>, t: Ticket): seq<Ticket> {
    Trim(Insert(acc, t), c.epochLength)
  }

  function Trim(s: seq<Ticket>, k: nat): seq<Ticket> {
    if |s| > k then s[..|s| - 1] else s
  }

  /** The fate of the tickets of an extrinsic, first to last. */
  function Accumulate(p: Primitives, c: Config, z: Key, eta2: Hash,
                      acc: seq<Ticket>, prev: Option<Ticket>, ext: seq<Envelope>): Admission
    decreases |ext|
  {
    if ext == [] then Admitted(acc)
    else
      match p.verify(z, eta2, ext[0].attempt, ext[0].proof)
      case None => Refused(BadTicketProof)
      case Some(id) =>
        var t := Ticket(id, ext[0].attempt);
        if t.attempt >= c.ticketsPerValidator then Refused(BadTicketAttempt)
        else if t in acc then Refused(DuplicateTicket)
        else if prev.Some? && t.id < prev.value.id then Refused(BadTicketOrder)
        else Accumulate(p, c, z, eta2, Admit(c, acc, t), Some(t), ext[1..])
  }

  method AccumulateTickets(p: Primitives, c: Config, z: Key, eta2: Hash,
                           prior: seq<Ticket>, ext: seq<Envelope>) returns (r: Admission)
    ensures r == Accumulate(p, c, z, eta2, prior, None, ext)
  {
    var acc, prev := prior, None;
    for i := 0 to |ext|
      invariant Accumulate(p, c, z, eta2, prior, None, ext) == Accumulate(p, c, z, eta2, acc, prev, ext[i..])
    {
      var ticketId := p.verify(z, eta2, ext[i].attempt, ext[i].proof);
      if ticketId.None? {
        return Refused(BadTicketProof);
      }
      var ticket := Ticket(ticketId.value, ext[i].attempt);
      if ext[i].attempt >= c.ticketsPerValidator {
        return Refused(BadTicketAttempt);
      }
      if ticket in acc {
        return Refused(DuplicateTicket);
      }
      if prev.Some? && ticket.id < prev.value.id {
        return Refused(BadTicketOrder);
      }
      prev := Some(ticket);
      acc := Insert(acc, ticket);
      if |acc| > c.epochLength {
        acc := acc[..|acc| - 1];
      }
      assert ext[i..][1..] == ext[i + 1..];
    }
    assert ext[|ext|..] == [];
    r := Admitted(acc);
  }

  /** Inserting a range into an empty ordered set. */
  method OrderedSet(ts: seq<Ticket>) returns (r: seq<Ticket>)
    ensures r == InsertAll([], ts)
  {
    r := [];
    for i := 0 to |ts|
      invariant InsertAll([], ts) == InsertAll(r, ts[i..])
    {
      r := Insert(r, ts[i]);
      assert ts[i..][1..] == ts[i + 1..];
    }
    assert ts[|ts|..] == [];
  }

  /** The identifiers that an extrinsic submits. */
  function SubmittedIds(p: Primitives, z: Key, eta2: Hash, ext: seq<Envelope>): set<Hash> {
    set e | e in ext && p.verify(z, eta2, e.attempt, e.proof).Some? :: p.verify(z, eta2, e.attempt, e.proof).value
  }

  ghost predicate AttemptsBelow(c: Config, s: seq<Ticket>) {
    forall t :: t in s ==> t.attempt < c.ticketsPerValidator
  }

  lemma TrimKeepsLowest(s: seq<Ticket>, k: nat)
    requires Ascending(s) && |s| <= k + 1
    ensures Ascending(Trim(s, k)) && |Trim(s, k)| <= k
    ensures Lowest(Ids(Trim(s, k)), k, Ids(s))
    ensures forall u :: u in Trim(s, k) ==> u in s
  {
    IdsCount(s);
    if |s| > k {
      IdsCount(s[..k]);
      assert s == s[..k] + [s[k]];
      assert Ids(s) == Ids(s[..k]) + {s[k].id};
    } else {
      LowestOfFew(Ids(s), k);
    }
  }

  /** One admission leaves the lowest identifiers of the accumulator and the new one. */
  lemma AdmitKeepsLowest(c: Config, acc: seq<Ticket>, t: Ticket)
    requires Ascending(acc) && |acc| <= c.epochLength
    ensures Ascending(Admit(c, acc, t)) && |Admit(c, acc, t)| <= c.epochLength
    ensures Lowest(Ids(Admit(c, acc, t)), c.epochLength, Ids(acc) + {t.id})
    ensures forall u :: u in Admit(c, acc, t) ==> u in acc || u == t
  {
    InsertKeepsOrder(acc, t);
    TrimKeepsLowest(Insert(acc, t), c.epochLength);
  }

  lemma AdmitGrows(c: Config, acc: seq<Ticket>, t: Ticket, all: set<Hash>)
    requires Ascending(acc) && |acc| <= c.epochLength && AttemptsBelow(c, acc)
    requires Lowest(Ids(acc), c.epochLength, all) && t.attempt < c.ticketsPerValidator
    ensures var r := Admit(c, acc, t);
      && Ascending(r) && |r| <= c.epochLength && AttemptsBelow(c, r)
      && Lowest(Ids(r), c.epochLength, all + {t.id})
  {
    AdmitKeepsLowest(c, acc, t);
    LowestGrows(Ids(acc), c.epochLength, all, t.id, Ids(Admit(c, acc, t)));
  }

  ghost predicate LowestAdmitted(c: Config, a: Admission, all: set<Hash>) {
    && a.Admitted?
    && Ascending(a.accumulator) && |a.accumulator| <= c.epochLength && AttemptsBelow(c, a.accumulator)
    && Lowest(Ids(a.accumulator), c.epochLength, all)
  }

  /** Whatever the extrinsic's length, the admitted accumulator is the lowest part of everything
      that was there and everything that was submitted. */
  lemma {:induction false} AccumulateLowest(p: Primitives, c: Config, z: Key, eta2: Hash,
      acc: seq<Ticket>, prev: Option<Ticket>, ext: seq<Envelope>, all: set<Hash>)
    requires LowestAdmitted(c, Admitted(acc), all)
    requires Accumulate(p, c, z, eta2, acc, prev, ext).Admitted?
    ensures LowestAdmitted(c, Accumulate(p, c, z, eta2, acc, prev, ext), all + SubmittedIds(p, z, eta2, ext))
    decreases |ext|
  {
    if ext == [] {
      assert all + SubmittedIds(p, z, eta2, ext) == all;
    } else {
      var id := p.verify(z, eta2, ext[0].attempt, ext[0].proof).value;
      var t, rest := Ticket(id, ext[0].attempt), ext[1..];
      AdmitGrows(c, acc, t, all);
      AccumulateLowest(p, c, z, eta2, Admit(c, acc, t), Some(t), rest, all + {id});
      SubmittedFirst(p, z, eta2, ext, all);
    }
  }

  lemma SubmittedFirst(p: Primitives, z: Key, eta2: Hash, ext: seq<Envelope>, all: set<Hash>)
    requires ext != [] && p.verify(z, eta2, ext[0].attempt, ext[0].proof).Some?
    ensures all + SubmittedIds(p, z, eta2, ext)
         == all + {p.verify(z, eta2, ext[0].attempt, ext[0].proof).value} + SubmittedIds(p, z, eta2, ext[1..])
  {
    assert forall e :: e in ext <==> e == ext[0] || e in ext[1..];
  }

  /** The ticket that an envelope stands for; only used for envelopes whose proof verifies. */
  function TicketOf(p: Primitives, z: Key, eta2: Hash, e: Envelope): Ticket {
    var id := p.verify(z, eta2, e.attempt, e.proof);
    Ticket(if id.Some? then id.value else 0, e.attempt)
  }

  /** The accumulator in front of envelope `i`, when nothing before it is refused. */
  function AccumulatorAt(p: Primitives, c: Config, z: Key, eta2: Hash,
                         acc: seq<Ticket>, ext: seq<Envelope>, i: nat): seq<Ticket>
    requires i <= |ext|
  {
    if i == 0 then acc
    else Admit(c, AccumulatorAt(p, c, z, eta2, acc, ext, i - 1), TicketOf(p, z, eta2, ext[i - 1]))
  }

  /** Envelope `i` may follow those before it: its proof verifies, its attempt number is in range, the
      very same ticket is not in the accumulator, and its identifier is not below its predecessor's. */
  predicate Fits(p: Primitives, c: Config, z: Key, eta2: Hash,
                 acc: seq<Ticket>, prev: Option<Ticket>, ext: seq<Envelope>, i: nat)
    requires i < |ext|
  {
    var t := TicketOf(p, z, eta2, ext[i]);
    && p.verify(z, eta2, ext[i].attempt, ext[i].proof).Some?
    && t.attempt < c.ticketsPerValidator
    && t !in AccumulatorAt(p, c, z, eta2, acc, ext, i)
    && (i > 0 ==> TicketOf(p, z, eta2, ext[i - 1]).id <= t.id)
    && (i == 0 && prev.Some? ==> prev.value.id <= t.id)
  }

  lemma {:induction false} AccumulatorAtShifts(p: Primitives, c: Config, z: Key, eta2: Hash,
      acc: seq<Ticket>, ext: seq<Envelope>, i: nat)
    requires 0 < i <= |ext|
    ensures AccumulatorAt(p, c, z, eta2, acc, ext, i)
         == AccumulatorAt(p, c, z, eta2, Admit(c, acc, TicketOf(p, z, eta2, ext[0])), ext[1..], i - 1)
  {
    if i > 1 {
      AccumulatorAtShifts(p, c, z, eta2, acc, ext, i - 1);
      assert ext[1..][i - 2] == ext[i - 1];
    }
  }

  ghost predicate AllFit(p: Primitives, c: Config, z: Key, eta2: Hash,
                         acc: seq<Ticket>, prev: Option<Ticket>, ext: seq<Envelope>) {
    forall i :: 0 <= i < |ext| ==> Fits(p, c, z, eta2, acc, prev, ext, i)
  }

  lemma FitsShifts(p: Primitives, c: Config, z: Key, eta2: Hash,
                   acc: seq<Ticket>, prev: Option<Ticket>, ext: seq<Envelope>, i: nat)
    requires 0 < i < |ext|
    ensures var t := TicketOf(p, z, eta2, ext[0]);
      Fits(p, c, z, eta2, acc, prev, ext, i) <==> Fits(p, c, z, eta2, Admit(c, acc, t), Some(t), ext[1..], i - 1)
  {
    AccumulatorAtShifts(p, c, z, eta2, acc, ext, i);
    assert ext[1..][i - 1] == ext[i];
    assert i > 1 ==> ext[1..][i - 2] == ext[i - 1];
  }

  lemma AllFitSplits(p: Primitives, c: Config, z: Key, eta2: Hash,
                     acc: seq<Ticket>, prev: Option<Ticket>, ext: seq<Envelope>)
    requires ext != []
    ensures var t := TicketOf(p, z, eta2, ext[0]);
      AllFit(p, c, z, eta2, acc, prev, ext) <==>
        && Fits(p, c, z, eta2, acc, prev, ext, 0)
        && AllFit(p, c, z, eta2, Admit(c, acc, t), Some(t), ext[1..])
  {
    var t, rest := TicketOf(p, z, eta2, ext[0]), ext[1..];
    var acc' := Admit(c, acc, t);
    forall i | 0 < i < |ext|
      ensures Fits(p, c, z, eta2, acc, prev, ext, i) <==> Fits(p, c, z, eta2, acc', Some(t), rest, i - 1)
    {
      FitsShifts(p, c, z, eta2, acc, prev, ext, i);
    }
    if AllFit(p, c, z, eta2, acc, prev, ext) {
      forall i | 0 <= i < |rest| ensures Fits(p, c, z, eta2, acc', Some(t), rest, i) {
        assert Fits(p, c, z, eta2, acc, prev, ext, i + 1);
      }
    }
  }

  lemma AccumulateStep(p: Primitives, c: Config, z: Key, eta2: Hash,
                       acc: seq<Ticket>, prev: Option<Ticket>, ext: seq<Envelope>)
    requires ext != []
    ensures var t := TicketOf(p, z, eta2, ext[0]);
      if Fits(p, c, z, eta2, acc, prev, ext, 0)
      then Accumulate(p, c, z, eta2, acc, prev, ext) == Accumulate(p, c, z, eta2, Admit(c, acc, t), Some(t), ext[1..])
      else Accumulate(p, c, z, eta2, acc, prev, ext).Refused?
  {
    assert AccumulatorAt(p, c, z, eta2, acc, ext, 0) == acc;
  }

  /** Exactly the extrinsics whose every envelope fits are admitted, and admission applies them all. */
  lemma {:induction false} AdmittedExactly(p: Primitives, c: Config, z: Key, eta2: Hash,
      acc: seq<Ticket>, prev: Option<Ticket>, ext: seq<Envelope>, r: Admission)
    requires r == Accumulate(p, c, z, eta2, acc, prev, ext)
    ensures r.Admitted? <==> AllFit(p, c, z, eta2, acc, prev, ext)
    ensures r.Admitted? ==> r.accumulator == AccumulatorAt(p, c, z, eta2, acc, ext, |ext|)
    decreases |ext|
  {
    if ext != [] {
      var t, rest := TicketOf(p, z, eta2, ext[0]), ext[1..];
      var acc' := Admit(c, acc, t);
      AccumulateStep(p, c, z, eta2, acc, prev, ext);
      AllFitSplits(p, c, z, eta2, acc, prev, ext);
      if Fits(p, c, z, eta2, acc, prev, ext, 0) {
        AdmittedExactly(p, c, z, eta2, acc', Some(t), rest, r);
        AccumulatorAtShifts(p, c, z, eta2, acc, ext, |ext|);
      }
    }
  }

  /** The duplicate check compares whole tickets, so an identifier that is already held, under
      another attempt number, passes; the accumulator then stays as it is. */
  lemma RepeatedIdentifierPasses(p: Primitives, c: Config, z: Key, eta2: Hash, acc: seq<Ticket>, e: Envelope)
    requires Ascending(acc) && |acc| <= c.epochLength
    requires p.verify(z, eta2, e.attempt, e.proof).Some? && e.attempt < c.ticketsPerValidator
    requires p.verify(z, eta2, e.attempt, e.proof).value in Ids(acc)
    ensures Accumulate(p, c, z, eta2, acc, None, [e])
         == if TicketOf(p, z, eta2, e) in acc then Refused(DuplicateTicket) else Admitted(acc)
  {
    InsertKeepsOrder(acc, TicketOf(p, z, eta2, e));
    assert [e][1..] == [];
  }

  // ---------- sealing-key series ----------

  /** Outside in: first, last, second, second to last, and so on. */
  function OutsideIn<T>(s: seq<T>): (r: seq<T>)
    ensures |r| == |s|
  {
    seq(|s|, i requires 0 <= i < |s| => if i % 2 == 0 then s[i / 2] else s[|s| - 1 - i / 2])
  }

  /** Reads an outside-in sequence back: even positions forwards, then odd positions backwards. */
  function InsideOut<T>(t: seq<T>): (r: seq<T>)
    ensures |r| == |t|
  {
    seq(|t|, j requires 0 <= j < |t| => if 2 * j < |t| then t[2 * j] else t[2 * (|t| - 1 - j) + 1])
  }

  /** The sequencer Z with its two iterators; `None` is the exception on a wrong length. The front
      iterator may stand at the end after its last step, the back one never leaves the range. */
  method Sequence(c: Config, s: seq<Ticket>) returns (r: Option<seq<Ticket>>)
    requires 0 < c.epochLength
    ensures r == if |s| == c.epochLength then Some(OutsideIn(s)) else None
  {
    if |s| != c.epochLength {
      return None;
    }
    var tickets: seq<Ticket> := [];
    var it1, it2, odd := 0, |s| - 1, true;
    for i := 0 to c.epochLength
      invariant it1 == (i + 1) / 2 && it2 == |s| - 1 - i / 2 && odd == (i % 2 == 0)
      invariant 0 <= it2 < |s|
      invariant tickets == OutsideIn(s)[..i]
    {
      tickets := tickets + [if odd then s[it1] else s[it2]];
      if odd {
        it1 := it1 + 1;
      } else {
        it2 := it2 - 1;
      }
      odd := !odd;
    }
    assert tickets == OutsideIn(s);
    r := Some(tickets);
  }

  /** The sequencer has a two-sided inverse at every length. */
  lemma SequenceInverse<T>(s: seq<T>)
    ensures InsideOut(OutsideIn(s)) == s
    ensures OutsideIn(InsideOut(s)) == s
  {
    forall j | 0 <= j < |s| ensures InsideOut(OutsideIn(s))[j] == s[j] {
      InsideOutAt(s, j);
    }
    forall i | 0 <= i < |s| ensures OutsideIn(InsideOut(s))[i] == s[i] {
      OutsideInAt(s, i);
    }
  }

  lemma InsideOutAt<T>(s: seq<T>, j: nat)
    requires j < |s|
    ensures InsideOut(OutsideIn(s))[j] == s[j]
  {
    var n := |s|;
    if 2 * j >= n {
      var h := n - 1 - j;
      assert 2 * h + 1 < n;
      assert (2 * h + 1) / 2 == h && (2 * h + 1) % 2 == 1;
    }
  }

  lemma OutsideInAt<T>(s: seq<T>, i: nat)
    requires i < |s|
    ensures OutsideIn(InsideOut(s))[i] == s[i]
  {
    var n, h := |s|, i / 2;
    if i % 2 == 0 {
      assert i == 2 * h;
    } else {
      assert i == 2 * h + 1 && 2 * (n - 1 - h) >= n;
    }
  }

  /** The sequencer permutes: no ticket is lost, added or repeated. */
  lemma {:induction false} SequencePermutes<T>(s: seq<T>)
    ensures multiset(OutsideIn(s)) == multiset(s)
    decreases |s|
  {
    if |s| < 2 {
      assert OutsideIn(s) == s;
    } else {
      var n := |s|;
      var mid := s[1..n - 1];
      SequencePermutes(mid);
      forall i | 2 <= i < n ensures OutsideIn(s)[i] == OutsideIn(mid)[i - 2] {
        assert (i - 2) / 2 == i / 2 - 1;
      }
      assert OutsideIn(s) == [s[0], s[n - 1]] + OutsideIn(mid);
      assert s == [s[0]] + mid + [s[n - 1]];
    }
  }

  /** The fallback series: a key drawn for every slot of the epoch. */
  function Fallback(p: Primitives, c: Config, r: Hash, k: seq<Validator>): (keys: seq<Key>)
    requires 0 < |k|
    ensures |keys| == c.epochLength
  {
    seq<Key>(c.epochLength, i requires 0 <= i < c.epochLength => k[p.draw(r, i) % |k|].bandersnatch)
  }

  method FallbackKeys(p: Primitives, c: Config, r: Hash, k: seq<Validator>) returns (keys: seq<Key>)
    requires 0 < |k|
    ensures keys == Fallback(p, c, r, k)
  {
    keys := [];
    for i := 0 to c.epochLength
      invariant keys == Fallback(p, c, r, k)[..i]
    {
      keys := keys + [k[p.draw(r, i) % |k|].bandersnatch];
    }
  }

  // ---------- the transition ----------

  /** Whether the block of this slot is the first of its epoch. */
  predicate ChangesEpoch(c: Config, s: State, slot: U32)
    requires 0 < c.epochLength
  {
    Epoch(c, slot) != Epoch(c, s.tau)
  }

  function NextEntropy(p: Primitives, s: State, entropy: Hash, change: bool): Entropy {
    var e0' := p.mix(s.eta.e0, entropy);
    if change then Entropy(e0', s.eta.e0, s.eta.e1, s.eta.e2)
    else Entropy(e0', s.eta.e1, s.eta.e2, s.eta.e3)
  }

  /** What a block starts collecting tickets from: a copy of the accumulator, or nothing in a new epoch. */
  function TicketBase(s: State, change: bool): seq<Ticket> {
    if change then [] else InsertAll([], s.gammaA)
  }

  /** Whether the epoch that the slot belongs to is sealed by the accumulated tickets. */
  predicate SealsByTickets(c: Config, s: State, slot: U32)
    requires 0 < c.epochLength
  {
    Follows(Epoch(c, s.tau), Epoch(c, slot)) && Phase(c, s.tau) >= Tail(c) && |s.gammaA| == c.epochLength
  }

  /** Whether the new series has to be drawn from the validators. */
  predicate DrawsKeys(c: Config, s: State, slot: U32)
    requires 0 < c.epochLength
  {
    !SealsByTickets(c, s, slot) && ChangesEpoch(c, s, slot)
  }

  function NextSeries(p: Primitives, c: Config, s: State, slot: U32, eta2: Hash): Series
    requires 0 < c.epochLength && (DrawsKeys(c, s, slot) ==> 0 < |s.gammaK|)
  {
    var e, e' := Epoch(c, s.tau), Epoch(c, slot);
    if SealsByTickets(c, s, slot) then TicketSeries(OutsideIn(s.gammaA))
    else if e' == e then s.gammaS
    else KeySeries(Fallback(p, c, eta2, s.gammaK))
  }

  function NextTicketsMark(c: Config, s: State, slot: U32): Option<seq<Ticket>>
    requires 0 < c.epochLength
  {
    if && Epoch(c, slot) == Epoch(c, s.tau)
       && Phase(c, s.tau) < Tail(c) <= Phase(c, slot)
       && |s.gammaA| == c.epochLength
    then Some(OutsideIn(s.gammaA))
    else None
  }

  /** What the ticket loop makes of a block's extrinsic. */
  function TicketAdmission(p: Primitives, c: Config, s: State, input: Input): Admission
    requires 0 < c.epochLength
  {
    var change := ChangesEpoch(c, s, input.slot);
    var eta := NextEntropy(p, s, input.entropy, change);
    Accumulate(p, c, s.gammaZ, eta.e2, TicketBase(s, change), None, input.extrinsic)
  }

  /** Whether a block passes all checks and then draws keys; only then are the validators indexed. */
  predicate ReachesDraw(p: Primitives, c: Config, s: State, input: Input)
    requires 0 < c.epochLength
  {
    && s.tau < input.slot
    && |input.extrinsic| <= MAX_TICKETS
    && (Phase(c, input.slot) < Tail(c) || input.extrinsic == [])
    && |s.iota| == c.validatorsCount
    && TicketAdmission(p, c, s, input).Admitted?
    && DrawsKeys(c, s, input.slot)
  }

  /** The block transition as a function. The source divides by the epoch length, and indexes the
      validators modulo their number when it draws keys, so these must be positive. */
  function Transition(p: Primitives, c: Config, s: State, input: Input): Outcome
    requires 0 < c.epochLength && (ReachesDraw(p, c, s, input) ==> 0 < |s.gammaK|)
  {
    if input.slot <= s.tau then Rejected(BadSlot)
    else if |input.extrinsic| > MAX_TICKETS then Aborted
    else if Phase(c, input.slot) >= Tail(c) && input.extrinsic != [] then Rejected(UnexpectedTicket)
    else
      var change := ChangesEpoch(c, s, input.slot);
      // the ring commitment exists only for a full set of validators
      if change && |s.iota| != c.validatorsCount then Aborted
      else
        var next := if change then Filtered(s.postOffenders, s.iota) else s.gammaK;
        var eta := NextEntropy(p, s, input.entropy, change);
        match TicketAdmission(p, c, s, input)
        case Refused(error) => Rejected(error)
        case Admitted(acc) =>
          Accepted(
            State(input.slot, eta,
                  if change then s.kappa else s.lambda,
                  if change then s.gammaK else s.kappa,
                  next,
                  s.iota,
                  acc,
                  NextSeries(p, c, s, input.slot, eta.e2),
                  if change then p.commit(KeysOf(next)) else s.gammaZ,
                  s.postOffenders),
            Output(if change then Some(EpochMark(eta.e1, eta.e2, KeysOf(next))) else None,
                   NextTicketsMark(c, s, input.slot)))
  }

  /** The transition as the source runs it, step by step. */
  method RunTransition(p: Primitives, c: Config, s: State, input: Input) returns (r: Outcome)
    requires 0 < c.epochLength && (ReachesDraw(p, c, s, input) ==> 0 < |s.gammaK|)
    ensures r == Transition(p, c, s, input)
  {
    if input.slot <= s.tau {
      return Rejected(BadSlot);
    }
    var e, m := Epoch(c, s.tau), Phase(c, s.tau);
    var e', m' := Epoch(c, input.slot), Phase(c, input.slot);
    var y := Tail(c);
    var change := e' != e;
    if |input.extrinsic| > MAX_TICKETS {
      return Aborted;
    }
    if m' >= y && input.extrinsic != [] {
      return Rejected(UnexpectedTicket);
    }

    var gammaK', kappa', lambda', gammaZ' := s.gammaK, s.kappa, s.lambda, s.gammaZ;
    if change {
      gammaK' := Phi(s.postOffenders, s.iota);
      var keys := BandersnatchKeys(gammaK');
      if |keys| != c.validatorsCount {
        return Aborted;
      }
      kappa', lambda', gammaZ' := s.gammaK, s.kappa, p.commit(keys);
    }

    var eta0' := p.mix(s.eta.e0, input.entropy);
    var eta1', eta2', eta3' := s.eta.e1, s.eta.e2, s.eta.e3;
    if change {
      eta1', eta2', eta3' := s.eta.e0, s.eta.e1, s.eta.e2;
    }

    var base: seq<Ticket> := [];
    if !change {
      base := OrderedSet(s.gammaA);
    }
    var admission := AccumulateTickets(p, c, s.gammaZ, eta2', base, input.extrinsic);
    if admission.Refused? {
      return Rejected(admission.error);
    }

    var series := s.gammaS;
    if Follows(e, e') && m >= y && |s.gammaA| == c.epochLength {
      var z := Sequence(c, s.gammaA);
      series := TicketSeries(z.value);
    } else if e' != e {
      var keys := FallbackKeys(p, c, eta2', kappa');
      series := KeySeries(keys);
    }

    var epochMark := None;
    if change {
      var keys := BandersnatchKeys(gammaK');
      epochMark := Some(EpochMark(eta1', eta2', keys));
    }
    var ticketsMark := None;
    if e' == e && m < y && y <= m' && |s.gammaA| == c.epochLength {
      ticketsMark := Sequence(c, s.gammaA);
    }
    r := Accepted(
      State(input.slot, Entropy(eta0', eta1', eta2', eta3'), lambda', kappa', gammaK', s.iota,
            admission.accumulator, series, gammaZ', s.postOffenders),
      Output(epochMark, ticketsMark));
  }
}
