/** What a dispute block means, in plain terms: when it is accepted, what it is refused for, and what an
    accepted one leaves behind. */
module DisputesLaws {
  import opened Prelude
  import opened Multimap
  import opened Disputes
  import opened DisputesRuns

  // ---------- verdicts ----------

  /** A verdict of the current or the previous epoch: enough judgements, each signed by the validator it
      names. The current epoch's verdicts are signed by `kappa`, the previous one's by `lambda`. */
  ghost predicate ProperVerdict(p: Primitives, c: Config, s: State, v: Verdict)
    requires 0 < c.epochLength
  {
    var epoch := s.tau / c.epochLength;
    var keys := if v.age == epoch then s.kappa else s.lambda;
    && (v.age == epoch || v.age + 1 == epoch)
    && c.superMajority <= |v.votes|
    && (forall j :: j in v.votes ==>
          && j.index < |keys|
          && p.verify(j.signature, keys[j.index], if j.vote then JamValid else JamInvalid, v.target))
    && (forall i, j :: 0 <= i < j < |v.votes| ==> v.votes[i].index < v.votes[j].index)
  }

  lemma ProperExactly(p: Primitives, c: Config, s: State, v: Verdict)
    requires 0 < c.epochLength
    ensures VerdictSound(p, c, s, v) <==> ProperVerdict(p, c, s, v)
  {
    if VerdictSound(p, c, s, v) {
      forall j | j in v.votes
        ensures j.index < |KeysFor(c, s, v)|
        ensures p.verify(j.signature, KeysFor(c, s, v)[j.index], StatementOf(j.vote), v.target)
      {
        var i :| 0 <= i < |v.votes| && v.votes[i] == j;
      }
    }
  }

  /** The report has no verdict on record. */
  predicate New(s: State, report: Hash) {
    report !in s.psi.good + s.psi.bad + s.psi.wonky
  }

  /** How the 16-bit counters stand for a verdict. */
  function For(v: Verdict): nat {
    VoteCount(v.votes, true) % 0x1_0000
  }

  function Against(v: Verdict): nat {
    VoteCount(v.votes, false) % 0x1_0000
  }

  lemma TallyOfVerdict(s: State, vs: seq<Verdict>, v: Verdict)
    requires Ascend(vs) && v in vs && New(s, v.target)
    ensures Tally(Registered(s, vs), v.target) == (For(v), Against(v))
    ensures v.target in Voted(Registered(s, vs)) <==> v.votes != []
  {
    var i :| 0 <= i < |vs| && vs[i] == v;
    var b := Registered(s, vs);
    RegisteredVotes(s, vs, i, true);
    RegisteredVotes(s, vs, i, false);
    VotesAddUp(v.votes);
    if v.target in Voted(b) {
      var x :| x in b && x.report == v.target;
      assert x == Ballot(v.target, true) || x == Ballot(v.target, false);
    }
    if v.votes != [] {
      assert Ballot(v.target, true) in b || Ballot(v.target, false) in b;
    }
  }

  // ---------- counting accusations ----------

  function Naming<T>(report: T -> Hash, os: seq<T>, r: Hash): nat {
    if os == [] then 0
    else Naming(report, os[..|os| - 1], r) + if report(os[|os| - 1]) == r then 1 else 0
  }

  lemma {:induction false} GatherCounts<T>(report: T -> Hash, os: seq<T>, r: Hash)
    ensures Count(Gather(report, os), r) == Naming(report, os, r)
  {
    if os != [] {
      var front, o := os[..|os| - 1], os[|os| - 1];
      GatherCounts(report, front, r);
      EmplaceCounts(Gather(report, front), report(o), o, r);
    }
  }

  lemma {:induction false} NamingCounts<T>(report: T -> Hash, os: seq<T>, r: Hash)
    ensures Naming(report, os, r) >= 1 <==> exists i :: 0 <= i < |os| && report(os[i]) == r
    ensures Naming(report, os, r) >= 2 <==>
            exists i, j :: 0 <= i < j < |os| && report(os[i]) == r && report(os[j]) == r
  {
    if os != [] {
      var n, front := |os| - 1, os[..|os| - 1];
      NamingCounts(report, front, r);
      if i :| 0 <= i < n && report(front[i]) == r {
        assert report(os[i]) == r;
      }
    }
  }

  lemma AccusationCounts(input: Input, r: Hash)
    ensures Count(CulpritMap(input.culprits), r) >= 1 <==> exists o :: o in input.culprits && o.target == r
    ensures Count(CulpritMap(input.culprits), r) >= 2 <==> TwoCulprits(input, r)
    ensures Count(FaultMap(input.faults), r) >= 1 <==> exists o :: o in input.faults && o.target == r
  {
    GatherCounts(CulpritReport, input.culprits, r);
    NamingCounts(CulpritReport, input.culprits, r);
    GatherCounts(FaultReport, input.faults, r);
    NamingCounts(FaultReport, input.faults, r);
    var cs, fs := input.culprits, input.faults;
    assert forall i :: 0 <= i < |cs| ==> CulpritReport(cs[i]) == cs[i].target;
    assert forall i :: 0 <= i < |fs| ==> FaultReport(fs[i]) == fs[i].target;
    assert (exists o :: o in cs && o.target == r) <==> exists i :: 0 <= i < |cs| && cs[i].target == r;
    assert (exists o :: o in fs && o.target == r) <==> exists i :: 0 <= i < |fs| && fs[i].target == r;
  }

  ghost predicate TwoCulprits(input: Input, r: Hash) {
    exists i, j :: 0 <= i < j < |input.culprits| && input.culprits[i].target == r == input.culprits[j].target
  }

  // ---------- acceptance ----------

  /** What the votes on a new report demand. */
  ghost predicate Settled(c: Config, input: Input, v: Verdict) {
    if Against(v) == c.superMajority then TwoCulprits(input, v.target)
    else if For(v) == c.superMajority
    then (forall o :: o in input.culprits ==> o.target != v.target)
         && exists o :: o in input.faults && o.target == v.target
    else For(v) == c.superMajority / 2 && Against(v) != 0
  }

  lemma SettledExactly(c: Config, s: State, input: Input, v: Verdict)
    requires Ascend(input.verdicts) && v in input.verdicts && New(s, v.target)
    ensures DefectOf(c, input, Registered(s, input.verdicts), v.target).None? <==> Settled(c, input, v)
  {
    TallyOfVerdict(s, input.verdicts, v);
    AccusationCounts(input, v.target);
  }

  ghost predicate ProperVerdicts(p: Primitives, c: Config, s: State, input: Input)
    requires 0 < c.epochLength
  {
    && (forall v :: v in input.verdicts ==> ProperVerdict(p, c, s, v))
    && (forall i, j :: 0 <= i < j < |input.verdicts| ==> input.verdicts[i].target < input.verdicts[j].target)
  }

  ghost predicate ProperCulprits(p: Primitives, s: State, input: Input) {
    && (forall o :: o in input.culprits ==>
          && p.verify(o.signature, o.key, JamGuarantee, o.target)
          && o.target !in s.psi.bad && o.key in s.kappa && o.key !in s.psi.offenders)
    && (forall i, j :: 0 <= i < j < |input.culprits| ==> input.culprits[i].key < input.culprits[j].key)
  }

  ghost predicate ProperFaults(p: Primitives, s: State, input: Input) {
    && (forall o :: o in input.faults ==>
          && !o.vote && p.verify(o.signature, o.key, JamInvalid, o.target)
          && o.target !in s.psi.bad + s.psi.wonky && o.key in s.kappa && o.key !in s.psi.offenders)
    && (forall i, j :: 0 <= i < j < |input.faults| ==> input.faults[i].key < input.faults[j].key)
  }

  /** Every culprit guaranteed a new report that somebody in the block votes against. */
  ghost predicate CulpritsJudged(s: State, input: Input) {
    forall o :: o in input.culprits ==>
      New(s, o.target) && exists v :: v in input.verdicts && v.target == o.target && Against(v) != 0
  }

  lemma InputSoundExactly(p: Primitives, c: Config, s: State, input: Input)
    requires 0 < c.epochLength
    ensures InputError(p, c, s, input).None? && (forall o :: o in input.faults ==> !o.vote) <==>
      ProperVerdicts(p, c, s, input) && ProperCulprits(p, s, input) && ProperFaults(p, s, input)
  {
    VerdictsSoundExactly(p, c, s, input);
    CulpritsErrorExactly(p, s, None, input.culprits);
    FaultsErrorExactly(p, s, None, input.faults);
    var cs, fs := input.culprits, input.faults;
    assert (forall i :: 0 <= i < |cs| ==> CulpritSound(p, s, cs[i])) <==> forall o :: o in cs ==> CulpritSound(p, s, o);
    assert (forall i :: 0 <= i < |fs| ==> FaultSound(p, s, fs[i])) <==> forall o :: o in fs ==> FaultSound(p, s, o);
  }

  lemma VerdictsSoundExactly(p: Primitives, c: Config, s: State, input: Input)
    requires 0 < c.epochLength
    ensures VerdictsError(p, c, s, None, input.verdicts).None? <==> ProperVerdicts(p, c, s, input)
  {
    var vs := input.verdicts;
    VerdictsErrorExactly(p, c, s, None, vs);
    forall v | v in vs ensures VerdictSound(p, c, s, v) <==> ProperVerdict(p, c, s, v) {
      ProperExactly(p, c, s, v);
    }
    assert (forall i :: 0 <= i < |vs| ==> VerdictSound(p, c, s, vs[i])) <==>
           forall v :: v in vs ==> VerdictSound(p, c, s, v);
  }

  lemma JudgedExactly(s: State, input: Input)
    requires Ascend(input.verdicts)
    ensures (forall o :: o in input.culprits ==> HasVoteAgainst(Registered(s, input.verdicts), o.target))
       <==> CulpritsJudged(s, input)
  {
    var b := Registered(s, input.verdicts);
    forall o | o in input.culprits
      ensures HasVoteAgainst(b, o.target) <==>
        New(s, o.target) && exists v :: v in input.verdicts && v.target == o.target && Against(v) != 0
    {
      AgainstExactly(s, input, o.target);
    }
  }

  lemma AgainstExactly(s: State, input: Input, r: Hash)
    requires Ascend(input.verdicts)
    ensures HasVoteAgainst(Registered(s, input.verdicts), r) <==>
      New(s, r) && exists v :: v in input.verdicts && v.target == r && Against(v) != 0
  {
    var b, vs := Registered(s, input.verdicts), input.verdicts;
    if HasVoteAgainst(b, r) {
      VotedIsFresh(s, vs, r);
      var i :| 0 <= i < |vs| && vs[i].target == r;
      TallyOfVerdict(s, vs, vs[i]);
      assert vs[i] in vs && Against(vs[i]) != 0;
    }
    if v :| New(s, r) && v in vs && v.target == r && Against(v) != 0 {
      TallyOfVerdict(s, vs, v);
      assert v.votes != [];
    }
  }

  lemma SaneExactly(c: Config, s: State, input: Input)
    requires Ascend(input.verdicts)
    ensures var b := Registered(s, input.verdicts);
      Sane(c, b, CulpritMap(input.culprits), FaultMap(input.faults), Voted(b)) <==>
      forall v :: v in input.verdicts && New(s, v.target) && v.votes != [] ==> Settled(c, input, v)
  {
    var b, vs := Registered(s, input.verdicts), input.verdicts;
    if Sane(c, b, CulpritMap(input.culprits), FaultMap(input.faults), Voted(b)) {
      forall v | v in vs && New(s, v.target) && v.votes != [] ensures Settled(c, input, v) {
        TallyOfVerdict(s, vs, v);
        SettledExactly(c, s, input, v);
      }
    }
    if forall v :: v in vs && New(s, v.target) && v.votes != [] ==> Settled(c, input, v) {
      forall r | r in Voted(b) ensures DefectOf(c, input, b, r).None? {
        VotedIsFresh(s, vs, r);
        var i :| 0 <= i < |vs| && vs[i].target == r;
        TallyOfVerdict(s, vs, vs[i]);
        assert vs[i] in vs;
        SettledExactly(c, s, input, vs[i]);
      }
    }
  }

  /** A block is accepted exactly when its verdicts, culprits and faults are proper, its culprits are
      judged, and every new report with votes has what those votes demand. */
  lemma AcceptedExactly(p: Primitives, c: Config, s: State, input: Input)
    requires 0 < c.epochLength
    ensures Acceptable(p, c, s, input) <==>
      && ProperVerdicts(p, c, s, input) && ProperCulprits(p, s, input) && ProperFaults(p, s, input)
      && CulpritsJudged(s, input)
      && forall v :: v in input.verdicts && New(s, v.target) && v.votes != [] ==> Settled(c, input, v)
  {
    InputSoundExactly(p, c, s, input);
    VerdictsSoundExactly(p, c, s, input);
    if ProperVerdicts(p, c, s, input) {
      assert Ascend(input.verdicts);
      JudgedExactly(s, input);
      SaneExactly(c, s, input);
    }
  }

  // ---------- the state after an accepted block ----------

  /** Half of a super-majority for the report, somebody against it, and no super-majority either way. */
  predicate Undecided(c: Config, v: Verdict) {
    && For(v) == c.superMajority / 2 && For(v) != c.superMajority
    && Against(v) != 0 && Against(v) != c.superMajority
  }

  /** The reports that a block finds impossible to judge. */
  ghost predicate FoundWonky(c: Config, s: State, input: Input, r: Hash) {
    New(s, r) && exists v :: v in input.verdicts && v.target == r && Undecided(c, v)
  }

  /** Faults clear their reports, culprits condemn theirs, undecided reports become wonky, and everybody
      accused is an offender. Cores lose what is bad or wonky by then, and nothing else changes. */
  lemma AftermathExactly(p: Primitives, c: Config, s: State, input: Input)
    requires 0 < c.epochLength && Acceptable(p, c, s, input)
    ensures var s' := NextState(p, c, s, input);
      && s'.psi.good == s.psi.good + (set o | o in input.faults :: o.target)
      && s'.psi.bad == s.psi.bad + (set o | o in input.culprits :: o.target)
      && (forall r :: r in s'.psi.wonky <==> r in s.psi.wonky || FoundWonky(c, s, input, r))
      && s'.psi.offenders
         == s.psi.offenders + (set o | o in input.culprits :: o.key) + (set o | o in input.faults :: o.key)
      && |s'.rho| == |s.rho|
      && (forall i :: 0 <= i < |s.rho| ==>
            s'.rho[i] == if s.rho[i].Some? && p.reportHash(s.rho[i].value) in s'.psi.bad + s'.psi.wonky
                         then None else s.rho[i])
      && s'.tau == s.tau && s'.kappa == s.kappa && s'.lambda == s.lambda
  {
    KeySets(input);
    TargetSets(input);
    forall r ensures r in WonkyReports(c, Registered(s, input.verdicts)) <==> FoundWonky(c, s, input, r) {
      VerdictsErrorExactly(p, c, s, None, input.verdicts);
      WonkyExactly(c, s, input, r);
    }
  }

  lemma TargetSets(input: Input)
    ensures CulpritTargets(input) == (set o | o in input.culprits :: o.target)
    ensures FaultTargets(input) == (set o | o in input.faults :: o.target)
  {
    forall r
      ensures r in Mapped(CulpritReport, input.culprits) <==> exists o :: o in input.culprits && o.target == r
      ensures r in Mapped(FaultReport, input.faults) <==> exists o :: o in input.faults && o.target == r
    {
      MappedMember(CulpritReport, input.culprits, r);
      MappedMember(FaultReport, input.faults, r);
    }
  }

  lemma UndecidedExactly(c: Config, s: State, input: Input, v: Verdict)
    requires Ascend(input.verdicts) && v in input.verdicts && New(s, v.target)
    ensures v.target in WonkyReports(c, Registered(s, input.verdicts)) <==> Undecided(c, v)
  {
    TallyOfVerdict(s, input.verdicts, v);
  }

  lemma WonkyExactly(c: Config, s: State, input: Input, r: Hash)
    requires Ascend(input.verdicts)
    ensures r in WonkyReports(c, Registered(s, input.verdicts)) <==> FoundWonky(c, s, input, r)
  {
    var vs := input.verdicts;
    if r in WonkyReports(c, Registered(s, vs)) {
      VotedIsFresh(s, vs, r);
      var i :| 0 <= i < |vs| && vs[i].target == r;
      UndecidedExactly(c, s, input, vs[i]);
      assert vs[i] in vs;
    }
    if FoundWonky(c, s, input, r) {
      var v :| v in vs && v.target == r && Undecided(c, v);
      UndecidedExactly(c, s, input, v);
    }
  }

  // ---------- the mark ----------

  predicate Precedes<T>(key: T -> Key, a: (Hash, T), b: (Hash, T)) {
    a.0 < b.0 || (a.0 == b.0 && key(a.1) < key(b.1))
  }

  /** Entries by ascending report, and by ascending key under each. */
  ghost predicate Sorted<T>(key: T -> Key, m: Entries<T>) {
    forall i, j :: 0 <= i < j < |m| ==> Precedes(key, m[i], m[j])
  }

  lemma {:induction false} GatherSorts<T>(report: T -> Hash, key: T -> Key, os: seq<T>)
    requires forall i, j :: 0 <= i < j < |os| ==> key(os[i]) < key(os[j])
    ensures Sorted(key, Gather(report, os))
  {
    if os != [] {
      var front, o := os[..|os| - 1], os[|os| - 1];
      GatherSorts(report, key, front);
      GatherOrdered(report, front);
      var m := Gather(report, front);
      forall i | 0 <= i < |m| ensures key(m[i].1) < key(o) {
        GatherEntry(report, front, m[i]);
      }
      EmplaceSorts(key, m, report(o), o);
    }
  }

  lemma EmplaceSorts<T>(key: T -> Key, m: Entries<T>, k: Hash, o: T)
    requires Sorted(key, m) && Ordered(m)
    requires forall i :: 0 <= i < |m| ==> key(m[i].1) < key(o)
    ensures Sorted(key, Emplace(m, k, o))
  {
    var q, r := UpperBound(m, k), Emplace(m, k, o);
    forall i, j | 0 <= i < j < |r| ensures Precedes(key, r[i], r[j]) {
      if i == q {
        assert r[j] == m[j - 1];
      } else if j == q {
        assert r[i] == m[i];
      } else {
        var i', j' := if i < q then i else i - 1, if j < q then j else j - 1;
        assert r[i] == m[i'] && r[j] == m[j'];
      }
    }
  }

  lemma {:induction false} GatherPermutes<T>(report: T -> Hash, os: seq<T>)
    ensures multiset(Values(Gather(report, os))) == multiset(os)
  {
    if os != [] {
      var front, o := os[..|os| - 1], os[|os| - 1];
      GatherPermutes(report, front);
      EmplacedValues(Gather(report, front), report(o), o);
      assert os == front + [o];
    }
  }

  lemma EmplacedValues<T>(m: Entries<T>, k: Hash, o: T)
    ensures multiset(Values(Emplace(m, k, o))) == multiset(Values(m)) + multiset{o}
  {
    var q, vs := UpperBound(m, k), Values(m);
    assert Values(Emplace(m, k, o)) == vs[..q] + [o] + vs[q..];
    assert vs == vs[..q] + vs[q..];
  }

  lemma GatheredBefore<T>(report: T -> Hash, key: T -> Key, os: seq<T>, i: nat, j: nat)
    requires forall i, j :: 0 <= i < j < |os| ==> key(os[i]) < key(os[j])
    requires i < j < |Gather(report, os)|
    ensures var vs := Values(Gather(report, os));
      report(vs[i]) < report(vs[j]) || (report(vs[i]) == report(vs[j]) && key(vs[i]) < key(vs[j]))
  {
    var m := Gather(report, os);
    GatherSorts(report, key, os);
    GatherEntry(report, os, m[i]);
    GatherEntry(report, os, m[j]);
    assert Precedes(key, m[i], m[j]);
  }

  /** The mark lists the culprits' keys and then the faults' keys, each by report and then by key. */
  lemma MarkIsSorted(p: Primitives, c: Config, s: State, input: Input)
    returns (cs: seq<Culprit>, fs: seq<Fault>)
    requires 0 < c.epochLength && Acceptable(p, c, s, input)
    ensures multiset(cs) == multiset(input.culprits) && multiset(fs) == multiset(input.faults)
    ensures |Mark(input)| == |cs| + |fs|
    ensures forall i :: 0 <= i < |cs| ==> Mark(input)[i] == cs[i].key
    ensures forall i :: 0 <= i < |fs| ==> Mark(input)[|cs| + i] == fs[i].key
    ensures forall i, j :: 0 <= i < j < |cs| ==>
      cs[i].target < cs[j].target || (cs[i].target == cs[j].target && cs[i].key < cs[j].key)
    ensures forall i, j :: 0 <= i < j < |fs| ==>
      fs[i].target < fs[j].target || (fs[i].target == fs[j].target && fs[i].key < fs[j].key)
  {
    CulpritsErrorExactly(p, s, None, input.culprits);
    FaultsErrorExactly(p, s, None, input.faults);
    GatherPermutes(CulpritReport, input.culprits);
    GatherPermutes(FaultReport, input.faults);
    cs, fs := Values(CulpritMap(input.culprits)), Values(FaultMap(input.faults));
    forall i, j | 0 <= i < j < |cs|
      ensures cs[i].target < cs[j].target || (cs[i].target == cs[j].target && cs[i].key < cs[j].key)
    {
      GatheredBefore(CulpritReport, CulpritKey, input.culprits, i, j);
    }
    forall i, j | 0 <= i < j < |fs|
      ensures fs[i].target < fs[j].target || (fs[i].target == fs[j].target && fs[i].key < fs[j].key)
    {
      GatheredBefore(FaultReport, FaultKey, input.faults, i, j);
    }
  }

  // ---------- refusals ----------

  /** The first judgement at fault gives the error. */
  lemma {:induction false} VotesRefused(p: Primitives, keys: seq<Key>, report: Hash,
      prev: Option<nat>, votes: seq<Judgement>, e: Error) returns (i: nat)
    requires VotesError(p, keys, report, prev, votes) == Some(e)
    ensures i < |votes| && VotesError(p, keys, report, prev, votes[..i]).None?
    ensures var j, before := votes[i], if i == 0 then prev else Some(votes[i - 1].index);
      if before.Some? && j.index <= before.value then e == JudgementsNotSortedUnique
      else if |keys| <= j.index then e == BadValidatorIndex
      else
        && !p.verify(j.signature, keys[j.index], if j.vote then JamValid else JamInvalid, report)
        && e == BadSignature
    decreases |votes|
  {
    i := 0;
    var j, rest := votes[0], votes[1..];
    if VotesError(p, keys, report, Some(j.index), rest) == Some(e)
       && (prev.Some? ==> prev.value < j.index) && j.index < |keys|
       && p.verify(j.signature, keys[j.index], StatementOf(j.vote), report)
    {
      var k := VotesRefused(p, keys, report, Some(j.index), rest, e);
      i := k + 1;
      assert votes[..i][0] == j && votes[..i][1..] == rest[..k];
      assert votes[i] == rest[k] && (k > 0 ==> votes[i - 1] == rest[k - 1]);
    }
  }

  /** The first verdict at fault gives the error. */
  lemma {:induction false} VerdictsRefused(p: Primitives, c: Config, s: State,
      prev: Option<Hash>, vs: seq<Verdict>, e: Error) returns (i: nat)
    requires 0 < c.epochLength && VerdictsError(p, c, s, prev, vs) == Some(e)
    ensures i < |vs| && VerdictsError(p, c, s, prev, vs[..i]).None?
    ensures var v, before := vs[i], if i == 0 then prev else Some(vs[i - 1].target);
      var epoch := s.tau / c.epochLength;
      if v.age != epoch && v.age + 1 != epoch then e == BadJudgementAge
      else if before.Some? && v.target <= before.value then e == VerdictsNotSortedUnique
      else if |v.votes| < c.superMajority then e == NotEnoughCulprits
      else VotesError(p, if v.age == epoch then s.kappa else s.lambda, v.target, None, v.votes) == Some(e)
    decreases |vs|
  {
    i := 0;
    var v, rest := vs[0], vs[1..];
    if VerdictError(p, c, s, prev, v).None? {
      var k := VerdictsRefused(p, c, s, Some(v.target), rest, e);
      i := k + 1;
      assert vs[..i][0] == v && vs[..i][1..] == rest[..k];
      assert vs[i] == rest[k] && (k > 0 ==> vs[i - 1] == rest[k - 1]);
    }
  }

  /** The first culprit at fault gives the error. */
  lemma {:induction false} CulpritsRefused(p: Primitives, s: State,
      prev: Option<Key>, os: seq<Culprit>, e: Error) returns (i: nat)
    requires CulpritsError(p, s, prev, os) == Some(e)
    ensures i < |os| && CulpritsError(p, s, prev, os[..i]).None?
    ensures var o, before := os[i], if i == 0 then prev else Some(os[i - 1].key);
      if !p.verify(o.signature, o.key, JamGuarantee, o.target) then e == BadSignature
      else if o.target in s.psi.bad then e == AlreadyJudged
      else if o.key !in s.kappa then e == BadValidatorIndex
      else if before.Some? && o.key <= before.value then e == CulpritsNotSortedUnique
      else o.key in s.psi.offenders && e == OffenderAlreadyReported
    decreases |os|
  {
    i := 0;
    var o, rest := os[0], os[1..];
    if CulpritError(p, s, prev, o).None? {
      var k := CulpritsRefused(p, s, Some(o.key), rest, e);
      i := k + 1;
      assert os[..i][0] == o && os[..i][1..] == rest[..k];
      assert os[i] == rest[k] && (k > 0 ==> os[i - 1] == rest[k - 1]);
    }
  }

  /** The first fault that is itself at fault gives the error. */
  lemma {:induction false} FaultsRefused(p: Primitives, s: State,
      prev: Option<Key>, os: seq<Fault>, e: Error) returns (i: nat)
    requires FaultsError(p, s, prev, os) == Some(e)
    ensures i < |os| && FaultsError(p, s, prev, os[..i]).None?
    ensures var o, before := os[i], if i == 0 then prev else Some(os[i - 1].key);
      if o.target in s.psi.wonky then e == AlreadyJudged
      else if o.target in (if o.vote then s.psi.good else s.psi.bad) then e == FaultVerdictWrong
      else if o.key !in s.kappa then e == BadValidatorIndex
      else if !p.verify(o.signature, o.key, if o.vote then JamValid else JamInvalid, o.target) then e == BadSignature
      else if before.Some? && o.key <= before.value then e == FaultsNotSortedUnique
      else o.key in s.psi.offenders && e == OffenderAlreadyReported
    decreases |os|
  {
    i := 0;
    var o, rest := os[0], os[1..];
    if FaultError(p, s, prev, o).None? {
      var k := FaultsRefused(p, s, Some(o.key), rest, e);
      i := k + 1;
      assert os[..i][0] == o && os[..i][1..] == rest[..k];
      assert os[i] == rest[k] && (k > 0 ==> os[i - 1] == rest[k - 1]);
    }
  }
}
