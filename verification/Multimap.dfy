/** An ordered multimap and the iterator that walks it one group of equal keys at a time. */
module Multimap {
  import opened Prelude

  /** The entries in iteration order: keys ascend, equal keys stay in order of insertion. */
  type Entries<T> = seq<(Hash, T)>

  predicate Ordered<T>(m: Entries<T>) {
    forall i, j :: 0 <= i < j < |m| ==> m[i].0 <= m[j].0
  }

  /** The first position whose key is above `k`. */
  function UpperBound<T>(m: Entries<T>, k: Hash): (p: nat)
    ensures p <= |m|
    ensures forall i :: 0 <= i < p ==> m[i].0 <= k
    ensures p < |m| ==> k < m[p].0
  {
    if m == [] || k < m[0].0 then 0 else 1 + UpperBound(m[1..], k)
  }

  function Emplace<T>(m: Entries<T>, k: Hash, v: T): Entries<T> {
    var p := UpperBound(m, k);
    m[..p] + [(k, v)] + m[p..]
  }

  /** The number of entries under a key. */
  function Count<T>(m: Entries<T>, k: Hash): nat {
    if m == [] then 0 else (if m[0].0 == k then 1 else 0) + Count(m[1..], k)
  }

  function Keys<T(==)>(m: Entries<T>): set<Hash> {
    set e | e in m :: e.0
  }

  lemma EmplaceKeepsOrder<T>(m: Entries<T>, k: Hash, v: T)
    requires Ordered(m)
    ensures Ordered(Emplace(m, k, v))
  {
    var p, r := UpperBound(m, k), Emplace(m, k, v);
    assert forall i :: p <= i < |m| ==> k < m[i].0;
    assert r[p] == (k, v);
    assert forall i :: 0 <= i < p ==> r[i] == m[i];
    assert forall i :: p < i < |r| ==> r[i] == m[i - 1];
  }

  lemma EmplaceAdds<T>(m: Entries<T>, k: Hash, v: T)
    ensures multiset(Emplace(m, k, v)) == multiset(m) + multiset{(k, v)}
    ensures forall e :: e in Emplace(m, k, v) <==> e in m || e == (k, v)
  {
    var p := UpperBound(m, k);
    assert m == m[..p] + m[p..];
  }

  lemma {:induction false} CountOfConcat<T>(a: Entries<T>, b: Entries<T>, k: Hash)
    ensures Count(a + b, k) == Count(a, k) + Count(b, k)
  {
    if a == [] {
      assert a + b == b;
    } else {
      CountOfConcat(a[1..], b, k);
      assert (a + b)[1..] == a[1..] + b;
    }
  }

  lemma EmplaceCounts<T>(m: Entries<T>, k: Hash, v: T, q: Hash)
    ensures Count(Emplace(m, k, v), q) == Count(m, q) + if k == q then 1 else 0
  {
    var p := UpperBound(m, k);
    assert m == m[..p] + m[p..];
    CountOfConcat(m[..p], m[p..], q);
    CountOfConcat(m[..p], [(k, v)], q);
    CountOfConcat(m[..p] + [(k, v)], m[p..], q);
    assert [(k, v)][1..] == [];
  }

  lemma {:induction false} CountPositive<T>(m: Entries<T>, k: Hash)
    ensures Count(m, k) > 0 <==> k in Keys(m)
  {
    if m != [] {
      CountPositive(m[1..], k);
      assert forall e :: e in m <==> e == m[0] || e in m[1..];
    }
  }

  /** The multimap that inserting every value under its report gives. */
  function Gather<T>(report: T -> Hash, os: seq<T>): Entries<T> {
    if os == [] then []
    else Emplace(Gather(report, os[..|os| - 1]), report(os[|os| - 1]), os[|os| - 1])
  }

  lemma {:induction false} GatherOrdered<T>(report: T -> Hash, os: seq<T>)
    ensures Ordered(Gather(report, os)) && |Gather(report, os)| == |os|
  {
    if os != [] {
      var front, o := os[..|os| - 1], os[|os| - 1];
      GatherOrdered(report, front);
      EmplaceKeepsOrder(Gather(report, front), report(o), o);
    }
  }

  lemma {:induction false} GatherEntry<T>(report: T -> Hash, os: seq<T>, e: (Hash, T))
    ensures e in Gather(report, os) <==> e.1 in os && e.0 == report(e.1)
  {
    if os != [] {
      var front, o := os[..|os| - 1], os[|os| - 1];
      GatherEntry(report, front, e);
      EmplaceAdds(Gather(report, front), report(o), o);
      assert os == front + [o];
    }
  }

  function AsSet<T>(s: seq<T>): set<T> {
    set x | x in s
  }

  function Mapped<T, U>(f: T -> U, s: seq<T>): (r: seq<U>)
    ensures |r| == |s| && forall i :: 0 <= i < |s| ==> r[i] == f(s[i])
  {
    seq(|s|, i requires 0 <= i < |s| => f(s[i]))
  }

  lemma MappedMember<T, U>(f: T -> U, s: seq<T>, y: U)
    ensures y in Mapped(f, s) <==> exists x :: x in s && f(x) == y
  {
    if y in Mapped(f, s) {
      var i :| 0 <= i < |s| && Mapped(f, s)[i] == y;
      assert s[i] in s;
    }
    if x :| x in s && f(x) == y {
      var i :| 0 <= i < |s| && s[i] == x;
      assert Mapped(f, s)[i] == y;
    }
  }

  /** Grouping by report neither loses nor adds a report or a value. */
  lemma GatherSets<T(!new), U(!new)>(report: T -> Hash, key: T -> U, os: seq<T>)
    ensures Keys(Gather(report, os)) == AsSet(Mapped(report, os))
    ensures AsSet(Mapped(key, Values(Gather(report, os)))) == AsSet(Mapped(key, os))
  {
    var m := Gather(report, os);
    forall r
      ensures r in Keys(m) <==> r in Mapped(report, os)
    {
      MappedMember(report, os, r);
      if r in Keys(m) {
        var e :| e in m && e.0 == r;
        GatherEntry(report, os, e);
      }
      if o :| o in os && report(o) == r {
        GatherEntry(report, os, (r, o));
      }
    }
    forall k
      ensures k in Mapped(key, Values(m)) <==> k in Mapped(key, os)
    {
      MappedMember(key, os, k);
      MappedMember(key, Values(m), k);
      if o :| o in Values(m) && key(o) == k {
        var i :| 0 <= i < |m| && m[i].1 == o;
        GatherEntry(report, os, m[i]);
      }
      if o :| o in os && key(o) == k {
        GatherEntry(report, os, (report(o), o));
        var i :| 0 <= i < |m| && m[i] == (report(o), o);
        assert Values(m)[i] == o;
      }
    }
  }

  // ---------- groups ----------

  function Values<T>(m: Entries<T>): (r: seq<T>)
    ensures |r| == |m|
  {
    seq(|m|, i requires 0 <= i < |m| => m[i].1)
  }

  /** The groups from position `p` on. */
  function GroupsFrom<T>(m: Entries<T>, p: nat): seq<(Hash, seq<T>)>
    requires p <= |m|
    decreases |m| - p
  {
    if p == |m| then []
    else
      var q := UpperBound(m, m[p].0);
      if q <= p then []  // not for ordered entries
      else [(m[p].0, Values(m[p..q]))] + GroupsFrom(m, q)
  }

  function Flatten<T>(gs: seq<(Hash, seq<T>)>): Entries<T> {
    if gs == [] then []
    else Labelled(gs[0].0, gs[0].1) + Flatten(gs[1..])
  }

  function Labelled<T>(k: Hash, vs: seq<T>): Entries<T> {
    seq(|vs|, i requires 0 <= i < |vs| => (k, vs[i]))
  }

  /** A group's end lies beyond its beginning, and the group holds exactly its key's entries. */
  lemma GroupIsKey<T>(m: Entries<T>, p: nat)
    requires Ordered(m) && p < |m|
    ensures var q := UpperBound(m, m[p].0);
      && p < q
      && (forall i :: p <= i < q ==> m[i].0 == m[p].0)
      && (forall i :: q <= i < |m| ==> m[p].0 < m[i].0)
  {
  }

  lemma {:induction false} GroupsFlatten<T>(m: Entries<T>, p: nat)
    requires Ordered(m) && p <= |m|
    ensures Flatten(GroupsFrom(m, p)) == m[p..]
    decreases |m| - p
  {
    if p < |m| {
      var q := UpperBound(m, m[p].0);
      GroupIsKey(m, p);
      GroupsFlatten(m, q);
      assert GroupsFrom(m, p)[1..] == GroupsFrom(m, q);
      assert Labelled(m[p].0, Values(m[p..q])) == m[p..q];
      assert m[p..] == m[p..q] + m[q..];
    }
  }

  lemma {:induction false} GroupsAscend<T>(m: Entries<T>, p: nat)
    requires Ordered(m) && p <= |m|
    ensures forall i :: 0 <= i < |GroupsFrom(m, p)| ==>
      GroupsFrom(m, p)[i].1 != [] && m[p].0 <= GroupsFrom(m, p)[i].0
    ensures forall i, j :: 0 <= i < j < |GroupsFrom(m, p)| ==> GroupsFrom(m, p)[i].0 < GroupsFrom(m, p)[j].0
    decreases |m| - p
  {
    if p < |m| {
      var q := UpperBound(m, m[p].0);
      GroupIsKey(m, p);
      GroupsAscend(m, q);
      var gs, tail := GroupsFrom(m, p), GroupsFrom(m, q);
      forall i | 0 < i < |gs| ensures gs[i] == tail[i - 1] && m[p].0 < gs[i].0 {
        assert m[q].0 <= tail[i - 1].0;
      }
    }
  }

  /** Group iteration visits every entry exactly once, in order, with one group per key. */
  lemma GroupsPartition<T>(m: Entries<T>, p: nat)
    requires Ordered(m) && p <= |m|
    ensures Flatten(GroupsFrom(m, p)) == m[p..]
    ensures forall i :: 0 <= i < |GroupsFrom(m, p)| ==>
      GroupsFrom(m, p)[i].1 != [] && m[p].0 <= GroupsFrom(m, p)[i].0
    ensures forall i, j :: 0 <= i < j < |GroupsFrom(m, p)| ==> GroupsFrom(m, p)[i].0 < GroupsFrom(m, p)[j].0
  {
    GroupsFlatten(m, p);
    GroupsAscend(m, p);
  }

  /** The source's group iterator: a begin and an end that move together. */
  class GroupIterator<T> {
    const m: Entries<T>
    var begin: nat
    var end: nat

    ghost predicate Valid()
      reads this
    {
      && Ordered(m)
      && begin <= |m|
      && end == if begin == |m| then |m| else UpperBound(m, m[begin].0)
    }

    /** What iteration still has to visit. */
    ghost function Remaining(): seq<(Hash, seq<T>)>
      requires Valid()
      reads this
    {
      GroupsFrom(m, begin)
    }

    constructor (m: Entries<T>)
      requires Ordered(m)
      ensures Valid() && this.m == m && begin == 0
    {
      this.m := m;
      begin := 0;
      end := if |m| == 0 then 0 else UpperBound(m, m[0].0);
    }

    method Current() returns (g: (Hash, seq<T>))
      requires Valid() && begin < |m|
      ensures Remaining() != [] && g == Remaining()[0]
      ensures begin < end <= |m| && g == (m[begin].0, Values(m[begin..end]))
    {
      GroupIsKey(m, begin);
      g := (m[begin].0, Values(m[begin..end]));
    }

    method Advance()
      requires Valid() && begin < |m|
      modifies this
      ensures Valid() && begin == old(end) > old(begin)
      ensures old(Remaining()) != [] && Remaining() == old(Remaining())[1..]
    {
      GroupIsKey(m, begin);
      begin := end;
      end := if begin == |m| then |m| else UpperBound(m, m[begin].0);
    }
  }
}
