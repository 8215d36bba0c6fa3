/** The disputes block transition: checks of verdicts, culprits and faults, vote counting, and the
    assimilation into the good, bad, wonky and offender sets.

    The four sets are kept as vectors in the source, but only ever searched and rebuilt from ordered
    sets, so they are sets here. Signature checks and the report hash are parameters (`Primitives`). */
module Disputes {
  import opened Prelude
  import opened Multimap

  type Report = nat

  datatype Statement = JamValid | JamInvalid | JamGuarantee

  datatype Primitives = Primitives(
    verify: (Signature, Key, Statement, Hash) -> bool,
    reportHash: Report -> Hash)

  datatype Config = Config(epochLength: U32, superMajority: nat)

  datatype Judgement = Judgement(vote: bool, index: nat, signature: Signature)
  datatype Verdict = Verdict(target: Hash, age: nat, votes: seq<Judgement>)
  datatype Culprit = Culprit(target: Hash, key: Key, signature: Signature)
  datatype Fault = Fault(target: Hash, vote: bool, key: Key, signature: Signature)
  datatype Input = Input(verdicts: seq<Verdict>, culprits: seq<Culprit>, faults: seq<Fault>)

  datatype Psi = Psi(good: set<Hash>, bad: set<Hash>, wonky: set<Hash>, offenders: set<Key>)

  /** Validators matter only through their Ed25519 keys. */
  datatype State = State(psi: Psi, rho: seq<Option<Report>>, tau: U32, kappa: seq<Key>, lambda: seq<Key>)

  datatype Error =
    | AlreadyJudged
    | BadVoteSplit
    | VerdictsNotSortedUnique
    | JudgementsNotSortedUnique
    | CulpritsNotSortedUnique
    | FaultsNotSortedUnique
    | NotEnoughCulprits
    | NotEnoughFaults
    | CulpritsVerdictNotBad
    | FaultVerdictWrong
    | OffenderAlreadyReported
    | BadJudgementAge
    | BadValidatorIndex
    | BadSignature

  /** A rejected block leaves the state as it was. */
  datatype Outcome = Accepted(state: State, mark: seq<Key>) | Rejected(error: Error)

  function StatementOf(vote: bool): Statement {
    if vote then JamValid else JamInvalid
  }

  // ---------- checking verdicts ----------

  /** The first thing wrong with a verdict's judgements after one with index `prev`. */
  function VotesError(p: Primitives, keys: seq<Key>, report: Hash,
                      prev: Option<nat>, votes: seq<Judgement>): Option<Error>
    decreases |votes|
  {
    if votes == [] then None
    else
      var j := votes[0];
      if prev.Some? && prev.value >= j.index then Some(JudgementsNotSortedUnique)
      else if j.index >= |keys| then Some(BadValidatorIndex)
      else if !p.verify(j.signature, keys[j.index], StatementOf(j.vote), report) then Some(BadSignature)
      else VotesError(p, keys, report, Some(j.index), votes[1..])
  }

  method CheckVotes(p: Primitives, keys: seq<Key>, report: Hash, votes: seq<Judgement>) returns (e: Option<Error>)
    ensures e == VotesError(p, keys, report, None, votes)
  {
    var prev: Option<nat> := None;
    for i := 0 to |votes|
      invariant VotesError(p, keys, report, None, votes) == VotesError(p, keys, report, prev, votes[i..])
    {
      var j := votes[i];
      assert votes[i..][0] == j && votes[i..][1..] == votes[i + 1..];
      if prev.Some? && prev.value >= j.index {
        return Some(JudgementsNotSortedUnique);
      }
      prev := Some(j.index);
      if j.index >= |keys| {
        return Some(BadValidatorIndex);
      }
      if !p.verify(j.signature, keys[j.index], StatementOf(j.vote), report) {
        return Some(BadSignature);
      }
    }
    return None;
  }

  /** The validator set that a verdict's age selects. */
  function KeysFor(c: Config, s: State, v: Verdict): seq<Key>
    requires 0 < c.epochLength
  {
    if v.age == s.tau / c.epochLength then s.kappa else s.lambda
  }

  /** The epoch before the current one; epoch zero stands for its own predecessor. */
  predicate AgeAllowed(c: Config, s: State, v: Verdict)
    requires 0 < c.epochLength
  {
    var e := s.tau / c.epochLength;
    v.age == e || v.age == if e == 0 then 0 else e - 1
  }

  function VerdictError(p: Primitives, c: Config, s: State, prev: Option<Hash>, v: Verdict): Option<Error>
    requires 0 < c.epochLength
  {
    if !AgeAllowed(c, s, v) then Some(BadJudgementAge)
    else if prev.Some? && prev.value >= v.target then Some(VerdictsNotSortedUnique)
    else if |v.votes| < c.superMajority then Some(NotEnoughCulprits)
    else VotesError(p, KeysFor(c, s, v), v.target, None, v.votes)
  }

  function VerdictsError(p: Primitives, c: Config, s: State, prev: Option<Hash>, vs: seq<Verdict>): Option<Error>
    requires 0 < c.epochLength
    decreases |vs|
  {
    if vs == [] then None
    else
      var e := VerdictError(p, c, s, prev, vs[0]);
      if e.Some? then e else VerdictsError(p, c, s, Some(vs[0].target), vs[1..])
  }

  predicate Fresh(s: State, report: Hash) {
    report !in s.psi.good && report !in s.psi.bad && report !in s.psi.wonky
  }

  /** The registered judgements: how many votes of each kind a report got. The source's hash
      multimap keeps them in no particular order. */
  type Ballots = multiset<Ballot>
  datatype Ballot = Ballot(report: Hash, vote: bool)

  function BallotsOf(report: Hash, votes: seq<Judgement>): Ballots {
    if votes == [] then multiset{}
    else BallotsOf(report, votes[..|votes| - 1]) + multiset{Ballot(report, votes[|votes| - 1].vote)}
  }

  /** Only verdicts on reports without an earlier verdict are registered. */
  function Registered(s: State, vs: seq<Verdict>): Ballots {
    if vs == [] then multiset{}
    else
      var v := vs[|vs| - 1];
      Registered(s, vs[..|vs| - 1]) + if Fresh(s, v.target) then BallotsOf(v.target, v.votes) else multiset{}
  }

  method CheckVerdicts(p: Primitives, c: Config, s: State, vs: seq<Verdict>)
    returns (e: Option<Error>, registry: Ballots)
    requires 0 < c.epochLength
    ensures e == VerdictsError(p, c, s, None, vs)
    ensures e.None? ==> registry == Registered(s, vs)
  {
    registry := multiset{};
    var prev: Option<Hash> := None;
    for i := 0 to |vs|
      invariant VerdictsError(p, c, s, None, vs) == VerdictsError(p, c, s, prev, vs[i..])
      invariant registry == Registered(s, vs[..i])
    {
      var v := vs[i];
      assert vs[i..][0] == v && vs[i..][1..] == vs[i + 1..];
      if !AgeAllowed(c, s, v) {
        return Some(BadJudgementAge), registry;
      }
      if prev.Some? && prev.value >= v.target {
        return Some(VerdictsNotSortedUnique), registry;
      }
      prev := Some(v.target);
      if |v.votes| < c.superMajority {
        return Some(NotEnoughCulprits), registry;
      }
      var err := CheckVotes(p, KeysFor(c, s, v), v.target, v.votes);
      if err.Some? {
        return err, registry;
      }
      if Fresh(s, v.target) {
        registry := Register(registry, v);
      }
      assert vs[..i + 1][..i] == vs[..i];
    }
    assert vs[..|vs|] == vs;
    return None, registry;
  }

  method Register(registry: Ballots, v: Verdict) returns (r: Ballots)
    ensures r == registry + BallotsOf(v.target, v.votes)
  {
    r := registry;
    for i := 0 to |v.votes|
      invariant r == registry + BallotsOf(v.target, v.votes[..i])
    {
      r := r + multiset{Ballot(v.target, v.votes[i].vote)};
      assert v.votes[..i + 1][..i] == v.votes[..i];
    }
    assert v.votes[..|v.votes|] == v.votes;
  }

  // ---------- checking culprits and faults ----------

  function CulpritError(p: Primitives, s: State, prev: Option<Key>, o: Culprit): Option<Error> {
    if !p.verify(o.signature, o.key, JamGuarantee, o.target) then Some(BadSignature)
    else if o.target in s.psi.bad then Some(AlreadyJudged)
    else if o.key !in s.kappa then Some(BadValidatorIndex)
    else if prev.Some? && prev.value >= o.key then Some(CulpritsNotSortedUnique)
    else if o.key in s.psi.offenders then Some(OffenderAlreadyReported)
    else None
  }

  function CulpritsError(p: Primitives, s: State, prev: Option<Key>, os: seq<Culprit>): Option<Error>
    decreases |os|
  {
    if os == [] then None
    else
      var e := CulpritError(p, s, prev, os[0]);
      if e.Some? then e else CulpritsError(p, s, Some(os[0].key), os[1..])
  }

  function CulpritReport(o: Culprit): Hash { o.target }
  function CulpritKey(o: Culprit): Key { o.key }

  function CulpritMap(os: seq<Culprit>): Entries<Culprit> {
    Gather(CulpritReport, os)
  }

  method CheckCulprits(p: Primitives, s: State, os: seq<Culprit>) returns (e: Option<Error>, m: Entries<Culprit>)
    ensures e == CulpritsError(p, s, None, os)
    ensures e.None? ==> m == CulpritMap(os)
  {
    m := [];
    var prev: Option<Key> := None;
    for i := 0 to |os|
      invariant CulpritsError(p, s, None, os) == CulpritsError(p, s, prev, os[i..])
      invariant m == CulpritMap(os[..i])
    {
      var o := os[i];
      assert os[i..][0] == o && os[i..][1..] == os[i + 1..];
      if !p.verify(o.signature, o.key, JamGuarantee, o.target) {
        return Some(BadSignature), m;
      }
      if o.target in s.psi.bad {
        return Some(AlreadyJudged), m;
      }
      if o.key !in s.kappa {
        return Some(BadValidatorIndex), m;
      }
      if prev.Some? && prev.value >= o.key {
        return Some(CulpritsNotSortedUnique), m;
      }
      prev := Some(o.key);
      if o.key in s.psi.offenders {
        return Some(OffenderAlreadyReported), m;
      }
      m := Emplace(m, o.target, o);
      assert os[..i + 1][..i] == os[..i];
    }
    assert os[..|os|] == os;
    return None, m;
  }

  function FaultError(p: Primitives, s: State, prev: Option<Key>, o: Fault): Option<Error> {
    if o.target in s.psi.wonky then Some(AlreadyJudged)
    else if (!o.vote && o.target in s.psi.bad) || (o.vote && o.target in s.psi.good) then Some(FaultVerdictWrong)
    else if o.key !in s.kappa then Some(BadValidatorIndex)
    else if !p.verify(o.signature, o.key, StatementOf(o.vote), o.target) then Some(BadSignature)
    else if prev.Some? && prev.value >= o.key then Some(FaultsNotSortedUnique)
    else if o.key in s.psi.offenders then Some(OffenderAlreadyReported)
    else None
  }

  function FaultsError(p: Primitives, s: State, prev: Option<Key>, os: seq<Fault>): Option<Error>
    decreases |os|
  {
    if os == [] then None
    else
      var e := FaultError(p, s, prev, os[0]);
      if e.Some? then e else FaultsError(p, s, Some(os[0].key), os[1..])
  }

  function FaultReport(o: Fault): Hash { o.target }
  function FaultKey(o: Fault): Key { o.key }

  function FaultMap(os: seq<Fault>): Entries<Fault> {
    Gather(FaultReport, os)
  }

  method CheckFaults(p: Primitives, s: State, os: seq<Fault>) returns (e: Option<Error>, m: Entries<Fault>)
    ensures e == FaultsError(p, s, None, os)
    ensures e.None? ==> m == FaultMap(os)
  {
    m := [];
    var prev: Option<Key> := None;
    for i := 0 to |os|
      invariant FaultsError(p, s, None, os) == FaultsError(p, s, prev, os[i..])
      invariant m == FaultMap(os[..i])
    {
      var o := os[i];
      assert os[i..][0] == o && os[i..][1..] == os[i + 1..];
      if o.target in s.psi.wonky {
        return Some(AlreadyJudged), m;
      }
      if (!o.vote && o.target in s.psi.bad) || (o.vote && o.target in s.psi.good) {
        return Some(FaultVerdictWrong), m;
      }
      if o.key !in s.kappa {
        return Some(BadValidatorIndex), m;
      }
      if !p.verify(o.signature, o.key, StatementOf(o.vote), o.target) {
        return Some(BadSignature), m;
      }
      if prev.Some? && prev.value >= o.key {
        return Some(FaultsNotSortedUnique), m;
      }
      prev := Some(o.key);
      if o.key in s.psi.offenders {
        return Some(OffenderAlreadyReported), m;
      }
      m := Emplace(m, o.target, o);
      assert os[..i + 1][..i] == os[..i];
    }
    assert os[..|os|] == os;
    return None, m;
  }

  // ---------- counting and classifying votes ----------

  function Voted(b: Ballots): set<Hash> {
    set x | x in b :: x.report
  }

  /** Votes for and against, in 16-bit counters. */
  function Tally(b: Ballots, report: Hash): (nat, nat) {
    (b[Ballot(report, true)] % TWO_16, b[Ballot(report, false)] % TWO_16)
  }

  ghost predicate Counted(counts: map<Hash, (nat, nat)>, b: Ballots) {
    && counts.Keys == Voted(b)
    && forall r :: r in counts ==> counts[r] == Tally(b, r)
  }

  function AddVote(counts: map<Hash, (nat, nat)>, x: Ballot): map<Hash, (nat, nat)> {
    var t := if x.report in counts then counts[x.report] else (0, 0);
    counts[x.report := if x.vote then ((t.0 + 1) % TWO_16, t.1) else (t.0, (t.1 + 1) % TWO_16)]
  }

  lemma CountStep(a: nat)
    ensures (a % TWO_16 + 1) % TWO_16 == (a + 1) % TWO_16
  {
  }

  lemma VotedGrows(b: Ballots, x: Ballot)
    ensures Voted(b + multiset{x}) == Voted(b) + {x.report}
  {
    assert forall y :: y in b + multiset{x} <==> y in b || y == x;
  }

  lemma TallyGrows(b: Ballots, x: Ballot, r: Hash)
    ensures var t := Tally(b, r);
      Tally(b + multiset{x}, r) ==
        if r != x.report then t
        else if x.vote then ((t.0 + 1) % TWO_16, t.1) else (t.0, (t.1 + 1) % TWO_16)
  {
    CountStep(b[Ballot(r, true)]);
    CountStep(b[Ballot(r, false)]);
    assert x == Ballot(x.report, x.vote);
  }

  lemma AddVoteCounts(counts: map<Hash, (nat, nat)>, b: Ballots, x: Ballot)
    requires Counted(counts, b)
    ensures Counted(AddVote(counts, x), b + multiset{x})
  {
    VotedGrows(b, x);
    if x.report !in counts {
      assert Ballot(x.report, true) !in b && Ballot(x.report, false) !in b;
    }
    var counts' := AddVote(counts, x);
    forall r | r in counts' ensures counts'[r] == Tally(b + multiset{x}, r) {
      TallyGrows(b, x, r);
    }
  }

  /** The source walks its hash multimap in an unspecified order; so does this loop. */
  method CountVotes(b: Ballots) returns (counts: map<Hash, (nat, nat)>)
    ensures Counted(counts, b)
  {
    counts := map[];
    var rest := b;
    ghost var done: Ballots := multiset{};
    while rest != multiset{}
      invariant done + rest == b
      invariant Counted(counts, done)
      decreases |rest|
    {
      var x :| x in rest;
      AddVoteCounts(counts, done, x);
      counts := AddVote(counts, x);
      rest := rest - multiset{x};
      done := done + multiset{x};
    }
    assert done == b;
  }

  datatype Class = Bad | Good | Wonky | Split

  function ClassOf(c: Config, tally: (nat, nat)): Class {
    if tally.1 == c.superMajority then Bad
    else if tally.0 == c.superMajority then Good
    else if tally.0 == c.superMajority / 2 && tally.1 != 0 then Wonky
    else Split
  }

  /** What is wrong with a counted report, given how many culprits and faults name it. */
  function Defect(c: Config, tally: (nat, nat), culprits: nat, faults: nat): Option<Error> {
    match ClassOf(c, tally)
    case Bad => if culprits < 2 then Some(NotEnoughCulprits) else None
    case Good =>
      if culprits != 0 then Some(CulpritsVerdictNotBad)
      else if faults < 1 then Some(NotEnoughFaults)
      else None
    case Wonky => None
    case Split => Some(BadVoteSplit)
  }

  function WonkyReports(c: Config, b: Ballots): set<Hash> {
    set r | r in Voted(b) && ClassOf(c, Tally(b, r)) == Wonky
  }

  ghost predicate Sane(c: Config, b: Ballots, cm: Entries<Culprit>, fm: Entries<Fault>, reports: set<Hash>) {
    forall r :: r in reports ==> Defect(c, Tally(b, r), Count(cm, r), Count(fm, r)).None?
  }

  /** Again in an unspecified order, and stopping at the first defect met. */
  method AnalyseVerdicts(c: Config, b: Ballots, counts: map<Hash, (nat, nat)>, cm: Entries<Culprit>,
                         fm: Entries<Fault>, wonky: set<Hash>)
    returns (e: Option<Error>, wonky': set<Hash>)
    requires Counted(counts, b)
    ensures e.None? <==> Sane(c, b, cm, fm, Voted(b))
    ensures e.Some? ==> exists r :: r in Voted(b) && e == Defect(c, Tally(b, r), Count(cm, r), Count(fm, r))
    ensures e.None? ==> wonky' == wonky + WonkyReports(c, b)
  {
    wonky' := wonky;
    var rest := counts.Keys;
    ghost var done: set<Hash> := {};
    while rest != {}
      invariant done + rest == counts.Keys
      invariant Sane(c, b, cm, fm, done)
      invariant wonky' == wonky + set r | r in done && ClassOf(c, Tally(b, r)) == Wonky
      decreases |rest|
    {
      var r :| r in rest;
      rest := rest - {r};
      done := done + {r};
      e := AnalyseVerdict(c, counts[r], Count(cm, r), Count(fm, r));
      if e.Some? {
        return e, wonky';
      }
      if ClassOf(c, counts[r]) == Wonky {
        wonky' := wonky' + {r};
      }
    }
    return None, wonky';
  }

  method AnalyseVerdict(c: Config, tally: (nat, nat), culprits: nat, faults: nat) returns (e: Option<Error>)
    ensures e == Defect(c, tally, culprits, faults)
  {
    match ClassOf(c, tally) {
      case Bad =>
        if culprits < 2 {
          return Some(NotEnoughCulprits);
        }
      case Good =>
        if culprits != 0 {
          return Some(CulpritsVerdictNotBad);
        }
        if faults < 1 {
          return Some(NotEnoughFaults);
        }
      case Wonky =>
      case Split =>
        return Some(BadVoteSplit);
    }
    return None;
  }

  // ---------- assimilation ----------

  function CulpritKeys(m: Entries<Culprit>): seq<Key> {
    Mapped(CulpritKey, Values(m))
  }

  function FaultKeys(m: Entries<Fault>): seq<Key> {
    Mapped(FaultKey, Values(m))
  }

  /** Marks the keys of one group of culprits. */
  method MarkCulprits(os: seq<Culprit>, offenders: set<Key>, marked: seq<Key>)
    returns (offenders': set<Key>, mark: seq<Key>)
    ensures mark == marked + Mapped(CulpritKey, os)
    ensures offenders' == offenders + AsSet(Mapped(CulpritKey, os))
  {
    offenders', mark := offenders, marked;
    ghost var ks := Mapped(CulpritKey, os);
    for i := 0 to |os|
      invariant mark == marked + ks[..i]
      invariant offenders' == offenders + AsSet(ks[..i])
    {
      mark := mark + [os[i].key];
      offenders' := offenders' + {os[i].key};
      assert ks[i] == CulpritKey(os[i]) && ks[..i + 1] == ks[..i] + [ks[i]];
    }
    assert ks[..|os|] == ks;
  }

  lemma KeysOfValues<T>(key: T -> Key, m: Entries<T>, p: nat, q: nat)
    requires p <= q <= |m|
    ensures Mapped(key, Values(m))[p..q] == Mapped(key, Values(m[p..q]))
  {
  }

  /** Walks the culprits group by group, marking keys and condemning reports. */
  method AnalyseCulprits(m: Entries<Culprit>, bad: set<Hash>, offenders: set<Key>)
    returns (bad': set<Hash>, offenders': set<Key>, mark: seq<Key>)
    requires Ordered(m)
    ensures bad' == bad + Keys(m)
    ensures offenders' == offenders + AsSet(CulpritKeys(m))
    ensures mark == CulpritKeys(m)
  {
    bad', offenders', mark := bad, offenders, [];
    var it := new GroupIterator(m);
    while it.begin != |m|
      invariant it.Valid() && it.m == m
      invariant Swept(m, CulpritKeys(m), it.begin, bad, offenders, [], bad', offenders', mark)
      decreases |m| - it.begin
    {
      var g := it.Current();
      GroupIsKey(m, it.begin);
      KeysOfValues(CulpritKey, m, it.begin, it.end);
      ghost var was := (bad', offenders', mark);
      offenders', mark := MarkCulprits(g.1, offenders', mark);
      bad' := bad' + {g.0};
      Sweep(m, CulpritKeys(m), it.begin, it.end, bad, offenders, [], was.0, was.1, was.2, bad', offenders', mark);
      it.Advance();
    }
    SweptAll(m, CulpritKeys(m), bad, offenders, [], bad', offenders', mark);
  }

  /** How far group iteration has come: position `p` of the entries `m` with keys `ks`. */
  ghost predicate Swept<T>(m: Entries<T>, ks: seq<Key>, p: nat,
                           reports: set<Hash>, offenders: set<Key>, marked: seq<Key>,
                           reports': set<Hash>, offenders': set<Key>, mark: seq<Key>)
    requires p <= |m| == |ks|
  {
    && mark == marked + ks[..p]
    && offenders' == offenders + AsSet(ks[..p])
    && reports' == reports + Keys(m[..p])
  }

  lemma Sweep<T>(m: Entries<T>, ks: seq<Key>, p: nat, q: nat,
                 reports: set<Hash>, offenders: set<Key>, marked: seq<Key>,
                 r1: set<Hash>, o1: set<Key>, m1: seq<Key>, r2: set<Hash>, o2: set<Key>, m2: seq<Key>)
    requires p < q <= |m| == |ks| && (forall i :: p <= i < q ==> m[i].0 == m[p].0)
    requires Swept(m, ks, p, reports, offenders, marked, r1, o1, m1)
    requires r2 == r1 + {m[p].0} && o2 == o1 + AsSet(ks[p..q]) && m2 == m1 + ks[p..q]
    ensures Swept(m, ks, q, reports, offenders, marked, r2, o2, m2)
  {
    KeysOfGroup(m, p, q);
    assert ks[..q] == ks[..p] + ks[p..q];
  }

  lemma SweptAll<T>(m: Entries<T>, ks: seq<Key>, reports: set<Hash>, offenders: set<Key>, marked: seq<Key>,
                    reports': set<Hash>, offenders': set<Key>, mark: seq<Key>)
    requires |m| == |ks| && Swept(m, ks, |m|, reports, offenders, marked, reports', offenders', mark)
    ensures mark == marked + ks && offenders' == offenders + AsSet(ks) && reports' == reports + Keys(m)
  {
    assert m[..|m|] == m && ks[..|ks|] == ks;
  }

  lemma KeysOfGroup<T>(m: Entries<T>, p: nat, q: nat)
    requires p < q <= |m| && forall i :: p <= i < q ==> m[i].0 == m[p].0
    ensures Keys(m[..q]) == Keys(m[..p]) + {m[p].0}
  {
    assert m[..q] == m[..p] + m[p..q];
    assert m[p] in m[p..q];
  }

  /** Marks the keys of one group of faults, unless one of them voted for the report. */
  method MarkFaults(os: seq<Fault>, offenders: set<Key>, marked: seq<Key>)
    returns (ok: bool, offenders': set<Key>, mark: seq<Key>)
    ensures ok <==> forall o :: o in os ==> !o.vote
    ensures ok ==> mark == marked + Mapped(FaultKey, os)
    ensures ok ==> offenders' == offenders + AsSet(Mapped(FaultKey, os))
  {
    offenders', mark := offenders, marked;
    ghost var ks := Mapped(FaultKey, os);
    for i := 0 to |os|
      invariant mark == marked + ks[..i]
      invariant offenders' == offenders + AsSet(ks[..i])
      invariant forall j :: 0 <= j < i ==> !os[j].vote
    {
      if os[i].vote {
        assert os[i] in os;
        return false, offenders', mark;
      }
      mark := mark + [os[i].key];
      offenders' := offenders' + {os[i].key};
      assert ks[i] == FaultKey(os[i]) && ks[..i + 1] == ks[..i] + [ks[i]];
    }
    assert ks[..|os|] == ks;
    ok := true;
  }

  predicate NoneVoted(m: Entries<Fault>, q: nat)
    requires q <= |m|
  {
    forall i :: 0 <= i < q ==> !m[i].1.vote
  }

  lemma VotesOfGroup(m: Entries<Fault>, p: nat, q: nat)
    requires p <= q <= |m|
    ensures NoneVoted(m, q) <==> NoneVoted(m, p) && forall o :: o in Values(m[p..q]) ==> !o.vote
  {
    var os := Values(m[p..q]);
    assert forall i :: p <= i < q ==> os[i - p] == m[i].1;
  }

  /** Walks the faults group by group, marking keys and clearing reports of suspicion. */
  method AnalyseFaults(m: Entries<Fault>, good: set<Hash>, offenders: set<Key>, marked: seq<Key>)
    returns (ok: bool, good': set<Hash>, offenders': set<Key>, mark: seq<Key>)
    requires Ordered(m)
    ensures ok <==> NoneVoted(m, |m|)
    ensures ok ==> good' == good + Keys(m)
    ensures ok ==> offenders' == offenders + AsSet(FaultKeys(m))
    ensures ok ==> mark == marked + FaultKeys(m)
  {
    good', offenders', mark := good, offenders, marked;
    var it := new GroupIterator(m);
    while it.begin != |m|
      invariant it.Valid() && it.m == m
      invariant Swept(m, FaultKeys(m), it.begin, good, offenders, marked, good', offenders', mark)
      invariant NoneVoted(m, it.begin)
      decreases |m| - it.begin
    {
      var g := it.Current();
      GroupIsKey(m, it.begin);
      KeysOfValues(FaultKey, m, it.begin, it.end);
      VotesOfGroup(m, it.begin, it.end);
      ghost var was := (good', offenders', mark);
      ok, offenders', mark := MarkFaults(g.1, offenders', mark);
      if !ok {
        assert !NoneVoted(m, |m|);
        return;
      }
      good' := good' + {g.0};
      Sweep(m, FaultKeys(m), it.begin, it.end, good, offenders, marked, was.0, was.1, was.2, good', offenders', mark);
      it.Advance();
    }
    SweptAll(m, FaultKeys(m), good, offenders, marked, good', offenders', mark);
    ok := true;
  }

  /** Cores lose the reports that are bad or wonky. */
  function Cleared(p: Primitives, rho: seq<Option<Report>>, gone: set<Hash>): (r: seq<Option<Report>>)
    ensures |r| == |rho|
  {
    seq(|rho|, i requires 0 <= i < |rho| =>
      if rho[i].Some? && p.reportHash(rho[i].value) in gone then None else rho[i])
  }

  method ClearReports(p: Primitives, rho: seq<Option<Report>>, bad: set<Hash>, wonky: set<Hash>)
    returns (r: seq<Option<Report>>)
    ensures r == Cleared(p, rho, bad + wonky)
  {
    r := rho;
    for i := 0 to |rho|
      invariant |r| == |rho|
      invariant forall j :: 0 <= j < i ==> r[j] == Cleared(p, rho, bad + wonky)[j]
      invariant forall j :: i <= j < |rho| ==> r[j] == rho[j]
    {
      if r[i].Some? {
        var report := p.reportHash(r[i].value);
        if report in bad || report in wonky {
          r := r[i := None];
        }
      }
    }
  }

  // ---------- the transition ----------

  /** Errors of the three input checks, in the source's order. */
  function InputError(p: Primitives, c: Config, s: State, input: Input): Option<Error>
    requires 0 < c.epochLength
  {
    var v := VerdictsError(p, c, s, None, input.verdicts);
    if v.Some? then v
    else
      var o := CulpritsError(p, s, None, input.culprits);
      if o.Some? then o else FaultsError(p, s, None, input.faults)
  }

  /** A culprit's report must have a registered vote against it. */
  predicate HasVoteAgainst(b: Ballots, report: Hash) {
    report in Voted(b) && Tally(b, report).1 != 0
  }

  function DefectOf(c: Config, input: Input, b: Ballots, r: Hash): Option<Error> {
    Defect(c, Tally(b, r), Count(CulpritMap(input.culprits), r), Count(FaultMap(input.faults), r))
  }

  /** When a block is accepted, said without any order of iteration. */
  ghost predicate Acceptable(p: Primitives, c: Config, s: State, input: Input)
    requires 0 < c.epochLength
  {
    var b := Registered(s, input.verdicts);
    && InputError(p, c, s, input).None?
    && (forall o :: o in input.culprits ==> HasVoteAgainst(b, o.target))
    && Sane(c, b, CulpritMap(input.culprits), FaultMap(input.faults), Voted(b))
    && (forall o :: o in input.faults ==> !o.vote)
  }

  function CulpritTargets(input: Input): set<Hash> {
    AsSet(Mapped(CulpritReport, input.culprits))
  }

  function FaultTargets(input: Input): set<Hash> {
    AsSet(Mapped(FaultReport, input.faults))
  }

  function Accused(input: Input): set<Key> {
    AsSet(Mapped(CulpritKey, input.culprits)) + AsSet(Mapped(FaultKey, input.faults))
  }

  function NextPsi(c: Config, s: State, input: Input): Psi {
    Psi(s.psi.good + FaultTargets(input),
        s.psi.bad + CulpritTargets(input),
        s.psi.wonky + WonkyReports(c, Registered(s, input.verdicts)),
        s.psi.offenders + Accused(input))
  }

  function NextState(p: Primitives, c: Config, s: State, input: Input): State {
    var psi := NextPsi(c, s, input);
    s.(psi := psi, rho := Cleared(p, s.rho, psi.bad + psi.wonky))
  }

  function Mark(input: Input): seq<Key> {
    CulpritKeys(CulpritMap(input.culprits)) + FaultKeys(FaultMap(input.faults))
  }

  lemma CulpritsInMap(os: seq<Culprit>, b: Ballots)
    ensures (forall i :: 0 <= i < |CulpritMap(os)| ==> HasVoteAgainst(b, CulpritMap(os)[i].0))
       <==> forall o :: o in os ==> HasVoteAgainst(b, o.target)
  {
    var m := CulpritMap(os);
    if forall i :: 0 <= i < |m| ==> HasVoteAgainst(b, m[i].0) {
      forall o | o in os ensures HasVoteAgainst(b, o.target) {
        GatherEntry(CulpritReport, os, (o.target, o));
        var i :| 0 <= i < |m| && m[i] == (o.target, o);
      }
    } else {
      var i :| 0 <= i < |m| && !HasVoteAgainst(b, m[i].0);
      GatherEntry(CulpritReport, os, m[i]);
    }
  }

  lemma FaultsInMap(os: seq<Fault>)
    ensures NoneVoted(FaultMap(os), |FaultMap(os)|) <==> forall o :: o in os ==> !o.vote
  {
    var m := FaultMap(os);
    forall o | o in os ensures exists i :: 0 <= i < |m| && m[i].1 == o {
      GatherEntry(FaultReport, os, (o.target, o));
      var i :| 0 <= i < |m| && m[i] == (o.target, o);
    }
    forall i | 0 <= i < |m| ensures m[i].1 in os {
      GatherEntry(FaultReport, os, m[i]);
    }
  }

  /** The error that a block with sound input is rejected with: orphaned culprits come before defective
      reports, and these before faults that voted for their report. */
  ghost predicate LateError(c: Config, input: Input, b: Ballots, e: Error) {
    if exists o :: o in input.culprits && !HasVoteAgainst(b, o.target) then e == CulpritsVerdictNotBad
    else if exists r :: r in Voted(b) && DefectOf(c, input, b, r).Some?
    then exists r :: r in Voted(b) && DefectOf(c, input, b, r) == Some(e)
    else e == FaultVerdictWrong && exists o :: o in input.faults && o.vote
  }

  method FindOrphan(m: Entries<Culprit>, b: Ballots, counts: map<Hash, (nat, nat)>) returns (orphan: bool)
    requires Counted(counts, b)
    ensures orphan <==> exists i :: 0 <= i < |m| && !HasVoteAgainst(b, m[i].0)
  {
    for i := 0 to |m|
      invariant forall j :: 0 <= j < i ==> HasVoteAgainst(b, m[j].0)
    {
      if m[i].0 !in counts || counts[m[i].0].1 == 0 {
        return true;
      }
    }
    return false;
  }

  /** The block transition. Whichever order the hash maps are walked in, the block is accepted exactly
      when `Acceptable` says so and then gives the same state and mark; only the error reported for a
      block with several defective reports depends on the order. */
  method Transition(p: Primitives, c: Config, s: State, input: Input) returns (r: Outcome)
    requires 0 < c.epochLength
    ensures r.Accepted? <==> Acceptable(p, c, s, input)
    ensures r.Accepted? ==> r.state == NextState(p, c, s, input) && r.mark == Mark(input)
    ensures var e := VerdictsError(p, c, s, None, input.verdicts);
      e.Some? ==> r == Rejected(e.value)
    ensures var e := CulpritsError(p, s, None, input.culprits);
      VerdictsError(p, c, s, None, input.verdicts).None? && e.Some? ==> r == Rejected(e.value)
    ensures var v, o := VerdictsError(p, c, s, None, input.verdicts), CulpritsError(p, s, None, input.culprits);
      var e := FaultsError(p, s, None, input.faults);
      v.None? && o.None? && e.Some? ==> r == Rejected(e.value)
    ensures r.Rejected? && InputError(p, c, s, input).None? ==>
      LateError(c, input, Registered(s, input.verdicts), r.error)
  {
    var e1, b := CheckVerdicts(p, c, s, input.verdicts);
    if e1.Some? {
      return Rejected(e1.value);
    }
    var e2, cm := CheckCulprits(p, s, input.culprits);
    if e2.Some? {
      return Rejected(e2.value);
    }
    var e3, fm := CheckFaults(p, s, input.faults);
    if e3.Some? {
      return Rejected(e3.value);
    }
    r := Judge(p, c, s, input, b, cm, fm);
  }

  /** The part after the input checks. */
  method Judge(p: Primitives, c: Config, s: State, input: Input, b: Ballots, cm: Entries<Culprit>, fm: Entries<Fault>)
    returns (r: Outcome)
    requires 0 < c.epochLength && InputError(p, c, s, input).None?
    requires b == Registered(s, input.verdicts) && cm == CulpritMap(input.culprits) && fm == FaultMap(input.faults)
    ensures r.Accepted? <==> Acceptable(p, c, s, input)
    ensures r.Accepted? ==> r.state == NextState(p, c, s, input) && r.mark == Mark(input)
    ensures r.Rejected? ==> LateError(c, input, b, r.error)
  {
    var counts := CountVotes(b);
    var orphan := FindOrphan(cm, b, counts);
    CulpritsInMap(input.culprits, b);
    if orphan {
      return Rejected(CulpritsVerdictNotBad);
    }
    var e, wonky := AnalyseVerdicts(c, b, counts, cm, fm, s.psi.wonky);
    if e.Some? {
      return Rejected(e.value);
    }
    GatherOrdered(CulpritReport, input.culprits);
    GatherOrdered(FaultReport, input.faults);
    var bad, offenders, mark := AnalyseCulprits(cm, s.psi.bad, s.psi.offenders);
    var ok, good, offenders', mark' := AnalyseFaults(fm, s.psi.good, offenders, mark);
    FaultsInMap(input.faults);
    if !ok {
      return Rejected(FaultVerdictWrong);
    }
    GatherSets(CulpritReport, CulpritKey, input.culprits);
    GatherSets(FaultReport, FaultKey, input.faults);
    var rho := ClearReports(p, s.rho, bad, wonky);
    assert offenders' == s.psi.offenders + Accused(input);
    r := Accepted(s.(psi := Psi(good, bad, wonky, offenders'), rho := rho), mark');
  }
}
