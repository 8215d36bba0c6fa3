/** What accepted dispute blocks mean, one by one and along every run. */
module DisputesRuns {
  import opened Prelude
  import opened Multimap
  import opened Disputes

  // ---------- what the checks guarantee ----------

  ghost predicate VotesSound(p: Primitives, keys: seq<Key>, report: Hash, votes: seq<Judgement>) {
    && (forall i :: 0 <= i < |votes| ==>
          && votes[i].index < |keys|
          && p.verify(votes[i].signature, keys[votes[i].index], StatementOf(votes[i].vote), report))
    && (forall i, j :: 0 <= i < j < |votes| ==> votes[i].index < votes[j].index)
  }

  /** A verdict's judgements pass exactly when every one is signed by the validator it names and the
      indices strictly increase. */
  lemma {:induction false} VotesErrorExactly(p: Primitives, keys: seq<Key>, report: Hash,
      prev: Option<nat>, votes: seq<Judgement>)
    ensures VotesError(p, keys, report, prev, votes).None? <==>
      && VotesSound(p, keys, report, votes)
      && (prev.Some? ==> forall i :: 0 <= i < |votes| ==> prev.value < votes[i].index)
    decreases |votes|
  {
    if votes != [] {
      var j, rest := votes[0], votes[1..];
      VotesErrorExactly(p, keys, report, Some(j.index), rest);
      assert forall i :: 0 <= i < |rest| ==> rest[i] == votes[i + 1];
      if VotesSound(p, keys, report, votes) {
        assert VotesSound(p, keys, report, rest);
      }
      if VotesSound(p, keys, report, rest) && (forall i :: 0 <= i < |rest| ==> j.index < rest[i].index) {
        assert forall i :: 0 < i < |votes| ==> votes[i] == rest[i - 1];
      }
    }
  }

  ghost predicate VerdictSound(p: Primitives, c: Config, s: State, v: Verdict)
    requires 0 < c.epochLength
  {
    && AgeAllowed(c, s, v)
    && |v.votes| >= c.superMajority
    && VotesSound(p, KeysFor(c, s, v), v.target, v.votes)
  }

  ghost predicate Ascend(vs: seq<Verdict>) {
    forall i, j :: 0 <= i < j < |vs| ==> vs[i].target < vs[j].target
  }

  /** Verdicts pass exactly when each is sound and their reports strictly ascend. */
  lemma {:induction false} VerdictsErrorExactly(p: Primitives, c: Config, s: State,
      prev: Option<Hash>, vs: seq<Verdict>)
    requires 0 < c.epochLength
    ensures VerdictsError(p, c, s, prev, vs).None? <==>
      && (forall i :: 0 <= i < |vs| ==> VerdictSound(p, c, s, vs[i]))
      && Ascend(vs)
      && (prev.Some? ==> forall i :: 0 <= i < |vs| ==> prev.value < vs[i].target)
    decreases |vs|
  {
    if vs != [] {
      var v, rest := vs[0], vs[1..];
      VerdictsErrorExactly(p, c, s, Some(v.target), rest);
      VotesErrorExactly(p, KeysFor(c, s, v), v.target, None, v.votes);
      assert forall i :: 0 <= i < |rest| ==> rest[i] == vs[i + 1];
      assert forall i :: 0 < i < |vs| ==> vs[i] == rest[i - 1];
    }
  }

  predicate CulpritSound(p: Primitives, s: State, o: Culprit) {
    && p.verify(o.signature, o.key, JamGuarantee, o.target)
    && o.target !in s.psi.bad
    && o.key in s.kappa && o.key !in s.psi.offenders
  }

  /** Culprits pass exactly when their keys strictly ascend and each signs for a report not known as bad
      with the key of a current validator that is not yet punished. */
  lemma {:induction false} CulpritsErrorExactly(p: Primitives, s: State, prev: Option<Key>, os: seq<Culprit>)
    ensures CulpritsError(p, s, prev, os).None? <==>
      && (forall i :: 0 <= i < |os| ==> CulpritSound(p, s, os[i]))
      && (forall i, j :: 0 <= i < j < |os| ==> os[i].key < os[j].key)
      && (prev.Some? ==> forall i :: 0 <= i < |os| ==> prev.value < os[i].key)
    decreases |os|
  {
    if os != [] {
      var rest := os[1..];
      CulpritsErrorExactly(p, s, Some(os[0].key), rest);
      assert forall i :: 0 <= i < |rest| ==> rest[i] == os[i + 1];
      assert forall i :: 0 < i < |os| ==> os[i] == rest[i - 1];
    }
  }

  predicate FaultSound(p: Primitives, s: State, o: Fault) {
    && p.verify(o.signature, o.key, StatementOf(o.vote), o.target)
    && o.target !in s.psi.wonky
    && o.target !in (if o.vote then s.psi.good else s.psi.bad)
    && o.key in s.kappa && o.key !in s.psi.offenders
  }

  /** Faults pass exactly when their keys strictly ascend and each is signed with the key of a current
      validator that is not yet punished, on a report that is not wonky and whose recorded verdict, if
      any, the fault contradicts. */
  lemma {:induction false} FaultsErrorExactly(p: Primitives, s: State, prev: Option<Key>, os: seq<Fault>)
    ensures FaultsError(p, s, prev, os).None? <==>
      && (forall i :: 0 <= i < |os| ==> FaultSound(p, s, os[i]))
      && (forall i, j :: 0 <= i < j < |os| ==> os[i].key < os[j].key)
      && (prev.Some? ==> forall i :: 0 <= i < |os| ==> prev.value < os[i].key)
    decreases |os|
  {
    if os != [] {
      var rest := os[1..];
      FaultsErrorExactly(p, s, Some(os[0].key), rest);
      assert forall i :: 0 <= i < |rest| ==> rest[i] == os[i + 1];
      assert forall i :: 0 < i < |os| ==> os[i] == rest[i - 1];
    }
  }

  // ---------- votes ----------

  function VoteCount(votes: seq<Judgement>, vote: bool): nat {
    if votes == [] then 0
    else VoteCount(votes[..|votes| - 1], vote) + if votes[|votes| - 1].vote == vote then 1 else 0
  }

  lemma {:induction false} VotesAddUp(votes: seq<Judgement>)
    ensures VoteCount(votes, true) + VoteCount(votes, false) == |votes|
  {
    if votes != [] {
      VotesAddUp(votes[..|votes| - 1]);
    }
  }

  lemma {:induction false} BallotsCount(report: Hash, votes: seq<Judgement>, x: Ballot)
    ensures BallotsOf(report, votes)[x] == if x.report == report then VoteCount(votes, x.vote) else 0
  {
    if votes != [] {
      BallotsCount(report, votes[..|votes| - 1], x);
    }
  }

  lemma {:induction false} RegisteredAbsent(s: State, vs: seq<Verdict>, x: Ballot)
    requires forall i :: 0 <= i < |vs| ==> vs[i].target != x.report
    ensures Registered(s, vs)[x] == 0
  {
    if vs != [] {
      var v := vs[|vs| - 1];
      RegisteredAbsent(s, vs[..|vs| - 1], x);
      BallotsCount(v.target, v.votes, x);
    }
  }

  /** A report's registered ballots are the votes of its one verdict. */
  lemma {:induction false} RegisteredVotes(s: State, vs: seq<Verdict>, i: nat, vote: bool)
    requires Ascend(vs) && i < |vs| && Fresh(s, vs[i].target)
    ensures Registered(s, vs)[Ballot(vs[i].target, vote)] == VoteCount(vs[i].votes, vote)
    decreases |vs|
  {
    var n := |vs| - 1;
    var x, front := Ballot(vs[i].target, vote), vs[..n];
    BallotsCount(vs[n].target, vs[n].votes, x);
    if i == n {
      RegisteredAbsent(s, front, x);
    } else {
      RegisteredVotes(s, front, i, vote);
    }
  }

  /** Only reports without a verdict so far are voted on. */
  lemma {:induction false} VotedIsFresh(s: State, vs: seq<Verdict>, r: Hash)
    requires r in Voted(Registered(s, vs))
    ensures Fresh(s, r) && exists i :: 0 <= i < |vs| && vs[i].target == r
  {
    var x :| x in Registered(s, vs) && x.report == r;
    if vs != [] {
      var n := |vs| - 1;
      BallotsCount(vs[n].target, vs[n].votes, x);
      if vs[n].target == r && Fresh(s, r) {
      } else {
        assert x in Registered(s, vs[..n]);
        VotedIsFresh(s, vs[..n], r);
        var i :| 0 <= i < |vs[..n]| && vs[..n][i].target == r;
        assert vs[i].target == r;
      }
    }
  }

  /** Strictly increasing indices leave room for at most one vote per validator. */
  lemma {:induction false} VotesBounded(p: Primitives, keys: seq<Key>, report: Hash, votes: seq<Judgement>)
    requires VotesSound(p, keys, report, votes)
    ensures |votes| <= |keys|
  {
    if votes != [] {
      IndexGrows(votes, |votes| - 1);
    }
  }

  lemma {:induction false} IndexGrows(votes: seq<Judgement>, i: nat)
    requires i < |votes| && forall i, j :: 0 <= i < j < |votes| ==> votes[i].index < votes[j].index
    ensures i <= votes[i].index
  {
    if i > 0 {
      IndexGrows(votes, i - 1);
    }
  }

  /** The tally of an accepted verdict on a new report is its true vote count, and no more than there
      are validators; the 16-bit counters do not wrap for fewer than 65536 validators. */
  lemma TallyIsTrue(p: Primitives, c: Config, s: State, vs: seq<Verdict>, i: nat)
    requires 0 < c.epochLength && VerdictsError(p, c, s, None, vs).None?
    requires i < |vs| && Fresh(s, vs[i].target) && |KeysFor(c, s, vs[i])| < TWO_16
    ensures var t := Tally(Registered(s, vs), vs[i].target);
      && t == (VoteCount(vs[i].votes, true), VoteCount(vs[i].votes, false))
      && c.superMajority <= t.0 + t.1 <= |KeysFor(c, s, vs[i])|
  {
    VerdictAt(p, c, s, vs, i);
    RegisteredVotes(s, vs, i, true);
    RegisteredVotes(s, vs, i, false);
  }

  lemma VerdictAt(p: Primitives, c: Config, s: State, vs: seq<Verdict>, i: nat)
    requires 0 < c.epochLength && VerdictsError(p, c, s, None, vs).None? && i < |vs|
    ensures Ascend(vs)
    ensures c.superMajority <= VoteCount(vs[i].votes, true) + VoteCount(vs[i].votes, false) <= |KeysFor(c, s, vs[i])|
  {
    VerdictsErrorExactly(p, c, s, None, vs);
    assert VerdictSound(p, c, s, vs[i]);
    VotesBounded(p, KeysFor(c, s, vs[i]), vs[i].target, vs[i].votes);
    VotesAddUp(vs[i].votes);
  }

  predicate IsBad(c: Config, t: (nat, nat)) { t.1 == c.superMajority }
  predicate IsGood(c: Config, t: (nat, nat)) { t.0 == c.superMajority }
  predicate IsWonky(c: Config, t: (nat, nat)) { t.0 == c.superMajority / 2 && t.1 != 0 }

  predicate Ambiguous(c: Config, t: (nat, nat)) {
    || (IsBad(c, t) && IsGood(c, t))
    || (IsBad(c, t) && IsWonky(c, t))
    || (IsGood(c, t) && IsWonky(c, t))
  }

  /** The three thresholds exclude each other for every possible vote among `v` validators exactly
      when the super-majority and half of it together exceed `v`. */
  lemma ThresholdsExclusive(c: Config, v: nat)
    requires c.superMajority > 0
    ensures (forall f: nat, a: nat :: f + a <= v ==> !Ambiguous(c, (f, a)))
       <==> v < c.superMajority + c.superMajority / 2
  {
    if c.superMajority + c.superMajority / 2 <= v {
      assert Ambiguous(c, (c.superMajority / 2, c.superMajority));
    } else {
      forall f: nat, a: nat | f + a <= v ensures !Ambiguous(c, (f, a)) {
      }
    }
  }

  /** Two thirds plus one of a number divisible by three meets that condition. */
  lemma TwoThirdsExclusive(c: Config, v: nat, f: nat, a: nat)
    requires v % 3 == 0 && c.superMajority == 2 * v / 3 + 1 && f + a <= v
    ensures !Ambiguous(c, (f, a))
  {
    ThresholdsExclusive(c, v);
  }

  /** With the same number of validators before and after an epoch change, no registered tally meets
      two thresholds, so the order in which they are tested does not matter. */
  lemma TalliesAreClear(p: Primitives, c: Config, s: State, vs: seq<Verdict>, r: Hash)
    requires 0 < c.epochLength && VerdictsError(p, c, s, None, vs).None? && r in Voted(Registered(s, vs))
    requires |s.kappa| == |s.lambda| < TWO_16 && |s.kappa| % 3 == 0 && c.superMajority == 2 * |s.kappa| / 3 + 1
    ensures !Ambiguous(c, Tally(Registered(s, vs), r))
  {
    VotedIsFresh(s, vs, r);
    var i :| 0 <= i < |vs| && vs[i].target == r;
    TallyIsTrue(p, c, s, vs, i);
    var t := Tally(Registered(s, vs), r);
    TwoThirdsExclusive(c, |s.kappa|, t.0, t.1);
  }

  // ---------- one accepted block ----------

  /** The facts about an accepted block that the rest builds on. */
  lemma AcceptedFacts(p: Primitives, c: Config, s: State, input: Input)
    requires 0 < c.epochLength && Acceptable(p, c, s, input)
    ensures forall r :: r in CulpritTargets(input) ==> Fresh(s, r)
    ensures forall r :: r in FaultTargets(input) ==> r !in s.psi.bad && r !in s.psi.wonky
    ensures forall r :: r in WonkyReports(c, Registered(s, input.verdicts)) ==> Fresh(s, r)
    ensures forall k :: k in Accused(input) ==> k in s.kappa && k !in s.psi.offenders
  {
    var b := Registered(s, input.verdicts);
    CulpritsErrorExactly(p, s, None, input.culprits);
    FaultsErrorExactly(p, s, None, input.faults);
    forall r | r in Voted(b) ensures Fresh(s, r) {
      VotedIsFresh(s, input.verdicts, r);
    }
    forall r | r in CulpritTargets(input) ensures Fresh(s, r) {
      MappedMember(CulpritReport, input.culprits, r);
      var o :| o in input.culprits && CulpritReport(o) == r;
      assert HasVoteAgainst(b, o.target);
    }
    forall r | r in FaultTargets(input) ensures r !in s.psi.bad && r !in s.psi.wonky {
      MappedMember(FaultReport, input.faults, r);
      var o :| o in input.faults && FaultReport(o) == r;
      assert FaultSound(p, s, o);
    }
    forall k | k in Accused(input) ensures k in s.kappa && k !in s.psi.offenders {
      AccusedIsSound(p, s, input, k);
    }
  }

  lemma AccusedIsSound(p: Primitives, s: State, input: Input, k: Key)
    requires forall i :: 0 <= i < |input.culprits| ==> CulpritSound(p, s, input.culprits[i])
    requires forall i :: 0 <= i < |input.faults| ==> FaultSound(p, s, input.faults[i])
    requires k in Accused(input)
    ensures k in s.kappa && k !in s.psi.offenders
  {
    MappedMember(CulpritKey, input.culprits, k);
    MappedMember(FaultKey, input.faults, k);
    if o :| o in input.culprits && CulpritKey(o) == k {
      assert CulpritSound(p, s, o);
    } else {
      var o :| o in input.faults && FaultKey(o) == k;
      assert FaultSound(p, s, o);
    }
  }

  /** Along any accepted block all four sets grow, and no report that already is in one of the three
      verdict sets enters another. */
  lemma VerdictsStick(p: Primitives, c: Config, s: State, input: Input)
    requires 0 < c.epochLength && Acceptable(p, c, s, input)
    ensures var n := NextPsi(c, s, input);
      && s.psi.good <= n.good && s.psi.bad <= n.bad && s.psi.wonky <= n.wonky && s.psi.offenders <= n.offenders
      && (s.psi.bad + s.psi.wonky) !! (n.good - s.psi.good)
      && (s.psi.good + s.psi.wonky) !! (n.bad - s.psi.bad)
      && (s.psi.good + s.psi.bad) !! (n.wonky - s.psi.wonky)
  {
    AcceptedFacts(p, c, s, input);
  }

  /** The mark names exactly the new offenders, all of them current validators. */
  lemma MarkIsNewOffenders(p: Primitives, c: Config, s: State, input: Input)
    requires 0 < c.epochLength && Acceptable(p, c, s, input)
    ensures AsSet(Mark(input)) == NextPsi(c, s, input).offenders - s.psi.offenders
    ensures forall k :: k in Mark(input) ==> k in s.kappa
    ensures |Mark(input)| == |input.culprits| + |input.faults|
  {
    AcceptedFacts(p, c, s, input);
    MarkIsAccused(input);
    forall k | k in Mark(input) ensures k in s.kappa {
      assert k in AsSet(Mark(input));
    }
    GatherOrdered(CulpritReport, input.culprits);
    GatherOrdered(FaultReport, input.faults);
  }

  lemma MarkIsAccused(input: Input)
    ensures AsSet(Mark(input)) == Accused(input)
  {
    GatherSets(CulpritReport, CulpritKey, input.culprits);
    GatherSets(FaultReport, FaultKey, input.faults);
    var a, b := CulpritKeys(CulpritMap(input.culprits)), FaultKeys(FaultMap(input.faults));
    assert forall k :: k in a + b <==> k in a || k in b;
    assert AsSet(a + b) == AsSet(a) + AsSet(b);
  }

  lemma {:induction false} AscendingCount(ks: seq<Key>)
    requires forall i, j :: 0 <= i < j < |ks| ==> ks[i] < ks[j]
    ensures |AsSet(ks)| == |ks|
  {
    if ks != [] {
      var front, k := ks[..|ks| - 1], ks[|ks| - 1];
      AscendingCount(front);
      assert AsSet(ks) == AsSet(front) + {k};
    }
  }

  lemma UnionCount<T>(a: set<T>, b: set<T>)
    ensures |a + b| == |a| + |b| <==> a !! b
  {
    assert |a + b| == |a| + |b| - |a * b|;
    if x :| x in a && x in b {
      assert x in a * b;
    } else {
      assert a * b == {};
    }
  }

  /** A block's culprit keys and fault keys. */
  function CulpritKeySet(input: Input): set<Key> {
    set o | o in input.culprits :: o.key
  }

  function FaultKeySet(input: Input): set<Key> {
    set o | o in input.faults :: o.key
  }

  lemma KeySets(input: Input)
    ensures AsSet(Mapped(CulpritKey, input.culprits)) == CulpritKeySet(input)
    ensures AsSet(Mapped(FaultKey, input.faults)) == FaultKeySet(input)
  {
    forall k
      ensures k in Mapped(CulpritKey, input.culprits) <==> k in CulpritKeySet(input)
      ensures k in Mapped(FaultKey, input.faults) <==> k in FaultKeySet(input)
    {
      MappedMember(CulpritKey, input.culprits, k);
      MappedMember(FaultKey, input.faults, k);
    }
  }

  lemma KeySetCounts(p: Primitives, c: Config, s: State, input: Input)
    requires 0 < c.epochLength && Acceptable(p, c, s, input)
    ensures |CulpritKeySet(input)| == |input.culprits| && |FaultKeySet(input)| == |input.faults|
  {
    CulpritsErrorExactly(p, s, None, input.culprits);
    FaultsErrorExactly(p, s, None, input.faults);
    AscendingCount(Mapped(CulpritKey, input.culprits));
    AscendingCount(Mapped(FaultKey, input.faults));
    KeySets(input);
  }

  /** An accepted block marks nobody twice exactly when none of its culprits is also a fault. */
  lemma MarksOnceExactly(p: Primitives, c: Config, s: State, input: Input)
    requires 0 < c.epochLength && Acceptable(p, c, s, input)
    ensures |AsSet(Mark(input))| == |Mark(input)| <==> CulpritKeySet(input) !! FaultKeySet(input)
  {
    KeySets(input);
    KeySetCounts(p, c, s, input);
    MarkIsAccused(input);
    MarkIsNewOffenders(p, c, s, input);
    UnionCount(CulpritKeySet(input), FaultKeySet(input));
  }

  /** Every report that a verdict of the block votes on lands in the set of its class. */
  lemma VerdictLands(p: Primitives, c: Config, s: State, input: Input, r: Hash)
    requires 0 < c.epochLength && Acceptable(p, c, s, input)
    requires r in Voted(Registered(s, input.verdicts))
    ensures var n := NextPsi(c, s, input);
      match ClassOf(c, Tally(Registered(s, input.verdicts), r))
      case Bad => r in n.bad
      case Good => r in n.good && r !in n.bad
      case Wonky => r in n.wonky
      case Split => false
  {
    var cm, fm := CulpritMap(input.culprits), FaultMap(input.faults);
    VotedIsFresh(s, input.verdicts, r);
    CountPositive(cm, r);
    CountPositive(fm, r);
    GatherSets(CulpritReport, CulpritKey, input.culprits);
    GatherSets(FaultReport, FaultKey, input.faults);
    assert Defect(c, Tally(Registered(s, input.verdicts), r), Count(cm, r), Count(fm, r)).None?;
  }

  /** Afterwards no core holds a bad or wonky report, and all other cores are as they were. */
  lemma CoresAreClean(p: Primitives, c: Config, s: State, input: Input, i: nat)
    requires 0 < c.epochLength && i < |s.rho|
    ensures var s' := NextState(p, c, s, input);
      && |s'.rho| == |s.rho|
      && (s'.rho[i].Some? ==> p.reportHash(s'.rho[i].value) !in s'.psi.bad + s'.psi.wonky)
      && (s.rho[i].Some? && p.reportHash(s.rho[i].value) !in s'.psi.bad + s'.psi.wonky ==> s'.rho[i] == s.rho[i])
      && (s.rho[i].None? ==> s'.rho[i].None?)
  {
    var s' := NextState(p, c, s, input);
    assert s'.rho[i] == if s.rho[i].Some? && p.reportHash(s.rho[i].value) in s'.psi.bad + s'.psi.wonky
                        then None else s.rho[i];
  }

  ghost predicate Disjoint(psi: Psi) {
    psi.good !! psi.bad && psi.good !! psi.wonky && psi.bad !! psi.wonky
  }

  /** A block's own accusations are consistent: no report is both a culprit's and a fault's target,
      and none of them has a wonky verdict. A caller can check this on the input. */
  ghost predicate Consistent(c: Config, s: State, input: Input) {
    var w := WonkyReports(c, Registered(s, input.verdicts));
    CulpritTargets(input) !! FaultTargets(input) && CulpritTargets(input) !! w && FaultTargets(input) !! w
  }

  /** An accepted block keeps the verdict sets disjoint exactly when its accusations are consistent. */
  lemma DisjointExactly(p: Primitives, c: Config, s: State, input: Input)
    requires 0 < c.epochLength && Acceptable(p, c, s, input) && Disjoint(s.psi)
    ensures Disjoint(NextPsi(c, s, input)) <==> Consistent(c, s, input)
  {
    AcceptedFacts(p, c, s, input);
    var n, w := NextPsi(c, s, input), WonkyReports(c, Registered(s, input.verdicts));
    if !Consistent(c, s, input) {
      var r :| || (r in CulpritTargets(input) && r in FaultTargets(input))
               || (r in CulpritTargets(input) && r in w)
               || (r in FaultTargets(input) && r in w);
      assert (r in n.bad && r in n.good) || (r in n.bad && r in n.wonky) || (r in n.good && r in n.wonky);
    }
  }

  // An inconsistent block that is accepted, with three validators and the usual super-majority: all
  // vote against report 9, two are its culprits, and one of them is also a fault that makes it good.
  const THREE := Config(1, 3)
  const CLEAN := State(Psi({}, {}, {}, {}), [], 0, [5, 6, 7], [5, 6, 7])
  const AGAINST := [Judgement(false, 0, 0), Judgement(false, 1, 0), Judgement(false, 2, 0)]
  const VERDICT := Verdict(9, 0, AGAINST)
  const CULPRIT_1 := Culprit(9, 5, 0)
  const CULPRIT_2 := Culprit(9, 6, 0)
  const FAULT := Fault(9, false, 5, 0)
  const CONFUSED := Input([VERDICT], [CULPRIT_1, CULPRIT_2], [FAULT])

  /** The signatures in the block are valid. */
  ghost predicate Signs(p: Primitives) {
    && p.verify(0, 5, JamInvalid, 9) && p.verify(0, 6, JamInvalid, 9) && p.verify(0, 7, JamInvalid, 9)
    && p.verify(0, 5, JamGuarantee, 9) && p.verify(0, 6, JamGuarantee, 9)
  }

  lemma ConfusedVerdict(p: Primitives)
    requires Signs(p)
    ensures VerdictsError(p, THREE, CLEAN, None, [VERDICT]).None?
  {
    assert VotesSound(p, CLEAN.kappa, 9, AGAINST);
    assert VerdictSound(p, THREE, CLEAN, VERDICT);
    VerdictsErrorExactly(p, THREE, CLEAN, None, [VERDICT]);
  }

  lemma ConfusedInput(p: Primitives)
    requires Signs(p)
    ensures InputError(p, THREE, CLEAN, CONFUSED).None?
  {
    ConfusedVerdict(p);
    CulpritsErrorExactly(p, CLEAN, None, CONFUSED.culprits);
    FaultsErrorExactly(p, CLEAN, None, CONFUSED.faults);
  }

  lemma ConfusedTally(p: Primitives)
    requires Signs(p)
    ensures Tally(Registered(CLEAN, [VERDICT]), 9) == (0, 3)
    ensures 9 in Voted(Registered(CLEAN, [VERDICT]))
    ensures forall r :: r in Voted(Registered(CLEAN, [VERDICT])) ==> r == 9
  {
    ConfusedVerdict(p);
    TallyIsTrue(p, THREE, CLEAN, [VERDICT], 0);
    VotesAgainstOnly(AGAINST);
    RegisteredVotes(CLEAN, [VERDICT], 0, false);
    assert Ballot(9, false) in Registered(CLEAN, [VERDICT]);
    forall r | r in Voted(Registered(CLEAN, [VERDICT])) ensures r == 9 {
      VotedIsFresh(CLEAN, [VERDICT], r);
    }
  }

  lemma {:induction false} VotesAgainstOnly(votes: seq<Judgement>)
    requires forall i :: 0 <= i < |votes| ==> !votes[i].vote
    ensures VoteCount(votes, true) == 0 && VoteCount(votes, false) == |votes|
  {
    if votes != [] {
      VotesAgainstOnly(votes[..|votes| - 1]);
    }
  }

  lemma ConfusedCulprits()
    ensures CulpritMap(CONFUSED.culprits) == [(9, CULPRIT_1), (9, CULPRIT_2)]
    ensures Count(CulpritMap(CONFUSED.culprits), 9) == 2
  {
    var os := CONFUSED.culprits;
    assert os[..1] == [CULPRIT_1] && [CULPRIT_1][..0] == [];
    assert Gather(CulpritReport, [CULPRIT_1]) == [(9, CULPRIT_1)];
    EmplaceCounts([(9, CULPRIT_1)], 9, CULPRIT_2, 9);
    EmplaceCounts<Culprit>([], 9, CULPRIT_1, 9);
  }

  lemma ConfusedIsAccepted(p: Primitives)
    requires Signs(p)
    ensures Acceptable(p, THREE, CLEAN, CONFUSED)
  {
    ConfusedInput(p);
    ConfusedTally(p);
    ConfusedCulprits();
  }

  /** The verdict sets are not disjoint after every accepted block: with any signature scheme that
      accepts its signatures, this one makes a report both bad and good. The configuration is one in
      which no tally is ambiguous. */
  lemma BadAndGoodAtOnce(p: Primitives)
    requires Signs(p)
    ensures |CLEAN.kappa| == |CLEAN.lambda| == 3 && THREE.superMajority == 2 * |CLEAN.kappa| / 3 + 1
    ensures Disjoint(CLEAN.psi) && Acceptable(p, THREE, CLEAN, CONFUSED)
    ensures var n := NextPsi(THREE, CLEAN, CONFUSED); 9 in n.good && 9 in n.bad && !Disjoint(n)
  {
    ConfusedIsAccepted(p);
    assert CULPRIT_1 in CONFUSED.culprits && FAULT in CONFUSED.faults;
    MappedMember(CulpritReport, CONFUSED.culprits, 9);
    MappedMember(FaultReport, CONFUSED.faults, 9);
    assert CulpritReport(CULPRIT_1) == 9 && FaultReport(FAULT) == 9;
  }

  /** One accepted block can name the same key twice in its mark. */
  lemma MarkedTwice(p: Primitives)
    requires Signs(p)
    ensures Acceptable(p, THREE, CLEAN, CONFUSED) && Mark(CONFUSED) == [5, 6, 5]
  {
    ConfusedIsAccepted(p);
    ConfusedCulprits();
    assert CONFUSED.faults[..0] == [];
    assert Gather(FaultReport, CONFUSED.faults) == [(9, FAULT)];
    assert Values([(9, CULPRIT_1), (9, CULPRIT_2)]) == [CULPRIT_1, CULPRIT_2] && Values([(9, FAULT)]) == [FAULT];
    assert Mapped(CulpritKey, [CULPRIT_1, CULPRIT_2]) == [CulpritKey(CULPRIT_1), CulpritKey(CULPRIT_2)];
    assert Mapped(FaultKey, [FAULT]) == [FaultKey(FAULT)];
  }

  // ---------- runs ----------

  /** A block together with the parts of the state that other transitions own. */
  datatype Block = Block(rho: seq<Option<Report>>, tau: U32, kappa: seq<Key>, lambda: seq<Key>, input: Input)

  function Prior(psi: Psi, b: Block): State {
    State(psi, b.rho, b.tau, b.kappa, b.lambda)
  }

  /** `blocks[i]` is accepted on `psis[i]` and gives `psis[i + 1]`. */
  ghost predicate IsRun(p: Primitives, c: Config, psis: seq<Psi>, blocks: seq<Block>) {
    && 0 < c.epochLength
    && |psis| == |blocks| + 1
    && forall i :: 0 <= i < |blocks| ==> AcceptedAt(p, c, psis, blocks, i)
  }

  ghost predicate AcceptedAt(p: Primitives, c: Config, psis: seq<Psi>, blocks: seq<Block>, i: nat)
    requires 0 < c.epochLength && i < |blocks| == |psis| - 1
  {
    && Acceptable(p, c, Prior(psis[i], blocks[i]), blocks[i].input)
    && psis[i + 1] == NextPsi(c, Prior(psis[i], blocks[i]), blocks[i].input)
  }

  /** `b` only adds to `a`, and adds no report to a set when `a` has it in another. */
  ghost predicate Extends(a: Psi, b: Psi) {
    && a.good <= b.good && a.bad <= b.bad && a.wonky <= b.wonky && a.offenders <= b.offenders
    && (a.bad + a.wonky) !! (b.good - a.good)
    && (a.good + a.wonky) !! (b.bad - a.bad)
    && (a.good + a.bad) !! (b.wonky - a.wonky)
  }

  lemma ExtendsTransitive(a: Psi, b: Psi, c: Psi)
    requires Extends(a, b) && Extends(b, c)
    ensures Extends(a, c)
  {
  }

  lemma BlockExtends(p: Primitives, c: Config, psis: seq<Psi>, blocks: seq<Block>, i: nat)
    requires IsRun(p, c, psis, blocks) && i < |blocks|
    ensures Extends(psis[i], psis[i + 1])
    ensures AsSet(Mark(blocks[i].input)) == psis[i + 1].offenders - psis[i].offenders
  {
    assert AcceptedAt(p, c, psis, blocks, i);
    VerdictsStick(p, c, Prior(psis[i], blocks[i]), blocks[i].input);
    MarkIsNewOffenders(p, c, Prior(psis[i], blocks[i]), blocks[i].input);
  }

  /** Along every run the dispute sets only grow, and a report recorded as good, bad or wonky at some
      point is never added to a different one of those sets by any later block. */
  lemma {:induction false} VerdictsStickForever(p: Primitives, c: Config, psis: seq<Psi>,
      blocks: seq<Block>, i: nat, j: nat)
    requires IsRun(p, c, psis, blocks) && i <= j <= |blocks|
    ensures Extends(psis[i], psis[j])
    decreases j
  {
    if i < j {
      VerdictsStickForever(p, c, psis, blocks, i, j - 1);
      BlockExtends(p, c, psis, blocks, j - 1);
      ExtendsTransitive(psis[i], psis[j - 1], psis[j]);
    }
  }

  /** No two blocks of a run mark the same key, and every mark stays within the offender set from then
      on. */
  lemma MarksAreDisjoint(p: Primitives, c: Config, psis: seq<Psi>, blocks: seq<Block>, i: nat, j: nat)
    requires IsRun(p, c, psis, blocks) && i < j < |blocks|
    ensures AsSet(Mark(blocks[i].input)) !! AsSet(Mark(blocks[j].input))
    ensures AsSet(Mark(blocks[i].input)) <= psis[j].offenders
  {
    BlockExtends(p, c, psis, blocks, i);
    BlockExtends(p, c, psis, blocks, j);
    VerdictsStickForever(p, c, psis, blocks, i + 1, j);
  }

  /** Block `i` of a run is consistent. */
  ghost predicate ConsistentAt(c: Config, psis: seq<Psi>, blocks: seq<Block>, i: nat)
    requires i < |blocks| && i < |psis|
  {
    Consistent(c, Prior(psis[i], blocks[i]), blocks[i].input)
  }

  lemma ConsistentBlock(p: Primitives, c: Config, psis: seq<Psi>, blocks: seq<Block>, i: nat)
    requires IsRun(p, c, psis, blocks) && i < |blocks| && Disjoint(psis[i]) && ConsistentAt(c, psis, blocks, i)
    ensures Disjoint(psis[i + 1])
  {
    assert AcceptedAt(p, c, psis, blocks, i);
    DisjointExactly(p, c, Prior(psis[i], blocks[i]), blocks[i].input);
  }

  /** A run of consistent blocks keeps the three verdict sets disjoint. */
  lemma {:induction false} ConsistentRunsStayDisjoint(p: Primitives, c: Config, psis: seq<Psi>,
      blocks: seq<Block>, n: nat)
    requires IsRun(p, c, psis, blocks) && n <= |blocks| && Disjoint(psis[0])
    requires forall i :: 0 <= i < n ==> ConsistentAt(c, psis, blocks, i)
    ensures Disjoint(psis[n])
  {
    if n > 0 {
      ConsistentRunsStayDisjoint(p, c, psis, blocks, n - 1);
      ConsistentBlock(p, c, psis, blocks, n - 1);
    }
  }
}
