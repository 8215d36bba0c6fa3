/** The Merkle mountain range behind recent history. The pair hash is a parameter throughout. */
module MountainRange {
  import opened Prelude

  type Peaks = seq<Option<Hash>>
  type PairHash = (Hash, Hash) -> Hash

  /** A binary counter whose digits are Merkle roots: adding one carries through the occupied peaks. */
  function Append(h: PairHash, peaks: Peaks, l: Hash): (r: Peaks)
    ensures r != []
  {
    if peaks == [] then [Some(l)]
    else if peaks[0].None? then [Some(l)] + peaks[1..]
    else [None] + Append(h, peaks[1..], h(peaks[0].value, l))
  }

  /** The number of peaks that an append has to merge, each with one hash. */
  function Carries(peaks: Peaks): nat {
    if peaks == [] || peaks[0].None? then 0 else 1 + Carries(peaks[1..])
  }

  /** The pairs that an append hashes, in order. */
  function Carried(h: PairHash, peaks: Peaks, l: Hash): (calls: seq<(Hash, Hash)>)
    ensures |calls| == Carries(peaks)
  {
    if peaks == [] || peaks[0].None? then []
    else [(peaks[0].value, l)] + Carried(h, peaks[1..], h(peaks[0].value, l))
  }

  function Nones(n: nat): (r: Peaks)
    ensures |r| == n
  {
    seq(n, _ => None)
  }

  lemma CarryStep(h: PairHash, peaks: Peaks, n: nat, l: Hash)
    requires n < |peaks| && peaks[n].Some?
    ensures (Nones(n) + peaks[n..])[n := None] == Nones(n + 1) + peaks[n + 1..]
    ensures Nones(n) + Append(h, peaks[n..], l)
         == Nones(n + 1) + Append(h, peaks[n + 1..], h(peaks[n].value, l))
    ensures Carried(h, peaks[n..], l) == [(peaks[n].value, l)] + Carried(h, peaks[n + 1..], h(peaks[n].value, l))
  {
    assert peaks[n..][0] == peaks[n] && peaks[n..][1..] == peaks[n + 1..];
    assert Nones(n) + [None] == Nones(n + 1);
  }

  lemma SettleStep(h: PairHash, peaks: Peaks, n: nat, l: Hash)
    requires n < |peaks| && peaks[n].None?
    ensures (Nones(n) + peaks[n..])[n := Some(l)] == Nones(n) + Append(h, peaks[n..], l)
    ensures Carried(h, peaks[n..], l) == []
  {
    assert peaks[n..][0] == peaks[n];
  }

  /** The source's append loop over the peak positions; `calls` records the pairs it hashes. */
  method AppendPeak(h: PairHash, peaks: Peaks, leaf: Hash) returns (r: Peaks, ghost calls: seq<(Hash, Hash)>)
    ensures r == Append(h, peaks, leaf)
    ensures calls == Carried(h, peaks, leaf)
  {
    r := peaks;
    var l := leaf;
    calls := [];
    for n := 0 to |peaks|
      invariant r == Nones(n) + peaks[n..]
      invariant Append(h, peaks, leaf) == Nones(n) + Append(h, peaks[n..], l)
      invariant Carried(h, peaks, leaf) == calls + Carried(h, peaks[n..], l)
    {
      assert r[n] == peaks[n];
      if r[n].None? {
        SettleStep(h, peaks, n, l);
        r := r[n := Some(l)];
        return;
      }
      CarryStep(h, peaks, n, l);
      calls := calls + [(r[n].value, l)];
      l := h(r[n].value, l);
      r := r[n := None];
    }
    r := r + [Some(l)];
  }

  /** The range over a sequence of leaves, appended one by one. */
  function Range(h: PairHash, leaves: seq<Hash>): Peaks {
    if leaves == [] then [] else Append(h, Range(h, leaves[..|leaves| - 1]), leaves[|leaves| - 1])
  }

  /** The pairs that appending the leaves one by one hashes. */
  function Calls(h: PairHash, leaves: seq<Hash>): seq<(Hash, Hash)> {
    if leaves == [] then []
    else
      var front, last := leaves[..|leaves| - 1], leaves[|leaves| - 1];
      Calls(h, front) + Carried(h, Range(h, front), last)
  }

  // ---------- independent reference: bits and perfect trees ----------

  function Pow2(n: nat): (p: nat)
    ensures p > 0
  {
    if n == 0 then 1 else 2 * Pow2(n - 1)
  }

  predicate Bit(x: nat, n: nat) {
    if n == 0 then x % 2 == 1 else Bit(x / 2, n - 1)
  }

  /** `x` with its `n` lowest bits cleared. */
  function Clear(x: nat, n: nat): nat {
    if n == 0 then x else 2 * Clear(x / 2, n - 1)
  }

  function BitLength(x: nat): nat {
    if x == 0 then 0 else 1 + BitLength(x / 2)
  }

  function PopCount(x: nat): nat {
    if x == 0 then 0 else x % 2 + PopCount(x / 2)
  }

  /** The Merkle root of the perfect binary tree of depth `n` over the leaves from `start` on. */
  function Root(h: PairHash, leaves: seq<Hash>, start: nat, n: nat): Hash
    requires start + Pow2(n) <= |leaves|
    decreases n
  {
    if n == 0 then leaves[start]
    else h(Root(h, leaves, start, n - 1), Root(h, leaves, start + Pow2(n - 1), n - 1))
  }

  // ---------- the level-by-level form ----------

  /** One level up: neighbours are hashed together, an odd last leaf stays behind. */
  function Pairs(h: PairHash, leaves: seq<Hash>): (r: seq<Hash>)
    ensures |r| == |leaves| / 2
  {
    seq(|leaves| / 2, i requires 0 <= i < |leaves| / 2 => h(leaves[2 * i], leaves[2 * i + 1]))
  }

  function Odd(leaves: seq<Hash>): Option<Hash> {
    if |leaves| % 2 == 1 then Some(leaves[|leaves| - 1]) else None
  }

  /** The lowest peak is the odd leaf, and the others are the range one level up. */
  lemma {:induction false} RangeByLevels(h: PairHash, leaves: seq<Hash>)
    requires leaves != []
    ensures Range(h, leaves) == [Odd(leaves)] + Range(h, Pairs(h, leaves))
    decreases |leaves|
  {
    var n := |leaves| - 1;
    var front, last := leaves[..n], leaves[n];
    if n == 0 {
      assert Pairs(h, leaves) == [];
      assert Range(h, leaves) == [Some(last)];
    } else {
      RangeByLevels(h, front);
      var peaks := Range(h, front);
      if n % 2 == 0 {
        assert Pairs(h, leaves) == Pairs(h, front);
        assert Range(h, leaves) == [Some(last)] + peaks[1..];
      } else {
        var up := Pairs(h, leaves);
        assert up[..|up| - 1] == Pairs(h, front);
        assert up[|up| - 1] == h(front[n - 1], last);
        assert Range(h, leaves) == [None] + Append(h, peaks[1..], h(front[n - 1], last));
      }
    }
  }

  ghost predicate IsLevelUp(h: PairHash, leaves: seq<Hash>, up: seq<Hash>) {
    && 2 * |up| <= |leaves|
    && forall i :: 0 <= i < |up| ==> up[i] == h(leaves[2 * i], leaves[2 * i + 1])
  }

  lemma {:induction false} RootOfPairs(h: PairHash, leaves: seq<Hash>, up: seq<Hash>, start: nat, n: nat)
    requires IsLevelUp(h, leaves, up)
    requires start + Pow2(n) <= |up|
    ensures Pow2(n + 1) == 2 * Pow2(n)
    ensures Root(h, leaves, 2 * start, n + 1) == Root(h, up, start, n)
    decreases n
  {
    if n == 0 {
      assert up[start] == h(leaves[2 * start], leaves[2 * start + 1]);
    } else {
      var p := Pow2(n - 1);
      RootOfPairs(h, leaves, up, start, n - 1);
      RootOfPairs(h, leaves, up, start + p, n - 1);
      assert 2 * (start + p) == 2 * start + Pow2(n);
    }
  }

  // ---------- what the peaks are ----------

  /** The leaves under peak `n` start where the higher bits of the count end: the spans of the present
      peaks, highest first, tile the leaf sequence without gap or overlap. */
  lemma {:induction false} SpansTile(x: nat, n: nat)
    ensures Clear(x, n) == Clear(x, n + 1) + if Bit(x, n) then Pow2(n) else 0
    ensures Clear(x, n) <= x
    ensures n >= BitLength(x) ==> Clear(x, n) == 0 && !Bit(x, n)
  {
    if n > 0 {
      SpansTile(x / 2, n - 1);
    }
  }

  function PeakAt(h: PairHash, leaves: seq<Hash>, n: nat): Option<Hash> {
    SpansTile(|leaves|, n);
    if Bit(|leaves|, n) then Some(Root(h, leaves, Clear(|leaves|, n + 1), n)) else None
  }

  /** There are as many peaks as the leaf count has binary digits; peak `n` is present exactly when
      bit `n` of the count is set, and is then the root of the perfect tree over its span. */
  lemma {:induction false} PeakIsRoot(h: PairHash, leaves: seq<Hash>, n: nat)
    ensures |Range(h, leaves)| == BitLength(|leaves|)
    ensures n < |Range(h, leaves)| ==> Range(h, leaves)[n] == PeakAt(h, leaves, n)
    decreases |leaves|
  {
    if leaves != [] {
      var up := Pairs(h, leaves);
      RangeByLevels(h, leaves);
      if n == 0 {
        PeakIsRoot(h, up, 0);
        assert Clear(|leaves| / 2, 0) == |leaves| / 2;
        assert Odd(leaves) == PeakAt(h, leaves, 0);
      } else {
        PeakIsRoot(h, up, n - 1);
        PeakOfPairs(h, leaves, n - 1);
      }
    }
  }

  lemma PeakOfPairs(h: PairHash, leaves: seq<Hash>, n: nat)
    ensures PeakAt(h, leaves, n + 1) == PeakAt(h, Pairs(h, leaves), n)
  {
    var x := |leaves|;
    SpansTile(x, n + 1);
    SpansTile(x / 2, n);
    if Bit(x, n + 1) {
      RootOfPairs(h, leaves, Pairs(h, leaves), Clear(x / 2, n + 1), n);
    }
  }

  // ---------- binding and cost ----------

  function PairAt(leaves: seq<Hash>, i: nat): (Hash, Hash)
    requires i < |leaves| / 2
  {
    (leaves[2 * i], leaves[2 * i + 1])
  }

  ghost predicate IsPairOf(leaves: seq<Hash>, x: (Hash, Hash)) {
    exists i: nat :: i < |leaves| / 2 && x == PairAt(leaves, i)
  }

  /** `x` is a pair of neighbours at some level over the leaves. */
  ghost predicate Hashed(h: PairHash, leaves: seq<Hash>, x: (Hash, Hash))
    decreases |leaves|
  {
    |leaves| > 1 && (IsPairOf(leaves, x) || Hashed(h, Pairs(h, leaves), x))
  }

  /** One more leaf: the pairs of all levels are those of the front and those that its append hashes. */
  lemma {:induction false} HashedGrows(h: PairHash, leaves: seq<Hash>, x: (Hash, Hash))
    requires leaves != []
    ensures var front, last := leaves[..|leaves| - 1], leaves[|leaves| - 1];
            Hashed(h, leaves, x) <==> Hashed(h, front, x) || x in Carried(h, Range(h, front), last)
    decreases |leaves|
  {
    var n := |leaves| - 1;
    var front, last := leaves[..n], leaves[n];
    if n > 0 {
      RangeByLevels(h, front);
      assert Range(h, front)[0] == Odd(front) && Range(h, front)[1..] == Range(h, Pairs(h, front));
      if n % 2 == 0 {
        assert Pairs(h, leaves) == Pairs(h, front);
        SamePairs(front, leaves, x);
      } else {
        var up := Pairs(h, leaves);
        assert up[..|up| - 1] == Pairs(h, front) && up[|up| - 1] == h(front[n - 1], last);
        HashedGrows(h, up, x);
        OneMorePair(front, last, x);
        assert leaves == front + [last];
        assert Carried(h, Range(h, front), last)
            == [(front[n - 1], last)] + Carried(h, Range(h, Pairs(h, front)), h(front[n - 1], last));
        assert !Hashed(h, [], x);
      }
    }
  }

  lemma SamePairs(front: seq<Hash>, leaves: seq<Hash>, x: (Hash, Hash))
    requires front <= leaves && |leaves| / 2 == |front| / 2
    ensures IsPairOf(leaves, x) <==> IsPairOf(front, x)
  {
    forall i: nat | i < |front| / 2 ensures PairAt(front, i) == PairAt(leaves, i) {
    }
  }

  lemma OneMorePair(front: seq<Hash>, last: Hash, x: (Hash, Hash))
    requires |front| % 2 == 1
    ensures IsPairOf(front + [last], x) <==> IsPairOf(front, x) || x == (front[|front| - 1], last)
  {
    var leaves, k := front + [last], |front| / 2;
    forall i: nat | i < k ensures PairAt(front, i) == PairAt(leaves, i) {
    }
    assert PairAt(leaves, k) == (front[|front| - 1], last);
  }

  /** The pairs of all levels are exactly the ones that the appends hash. */
  lemma {:induction false} HashedExactly(h: PairHash, leaves: seq<Hash>, x: (Hash, Hash))
    ensures Hashed(h, leaves, x) <==> x in Calls(h, leaves)
  {
    if leaves != [] {
      HashedExactly(h, leaves[..|leaves| - 1], x);
      HashedGrows(h, leaves, x);
    }
  }

  /** Two different pairs with the same hash. */
  predicate Collide(h: PairHash, x: (Hash, Hash), y: (Hash, Hash)) {
    x != y && h(x.0, x.1) == h(y.0, y.1)
  }

  lemma PairsBind(h: PairHash, a: seq<Hash>, b: seq<Hash>) returns (x: (Hash, Hash), y: (Hash, Hash))
    requires a != b && |a| % 2 == |b| % 2 && Odd(a) == Odd(b) && Pairs(h, a) == Pairs(h, b)
    ensures Hashed(h, a, x) && Hashed(h, b, y) && Collide(h, x, y)
  {
    assert |a| == |b| by {
      assert |Pairs(h, a)| == |Pairs(h, b)|;
    }
    var i := DifferentPair(a, b);
    x, y := PairAt(a, i), PairAt(b, i);
    assert IsPairOf(a, x) && IsPairOf(b, y);
    assert Pairs(h, a)[i] == h(x.0, x.1) && Pairs(h, b)[i] == h(y.0, y.1);
  }

  /** Sequences that differ, but not in an odd last element, differ in some pair. */
  lemma DifferentPair(a: seq<Hash>, b: seq<Hash>) returns (i: nat)
    requires a != b && |a| == |b| && Odd(a) == Odd(b)
    ensures i < |a| / 2 && PairAt(a, i) != PairAt(b, i)
  {
    var k :| 0 <= k < |a| && a[k] != b[k];
    i := k / 2;
    assert k == 2 * i || k == 2 * i + 1;
    assert |a| % 2 == 1 ==> k != |a| - 1;
  }

  lemma {:induction false} LevelsBind(h: PairHash, a: seq<Hash>, b: seq<Hash>)
    returns (x: (Hash, Hash), y: (Hash, Hash))
    requires Range(h, a) == Range(h, b) && a != b
    ensures Hashed(h, a, x) && Hashed(h, b, y) && Collide(h, x, y)
    decreases |a|
  {
    assert a != [] && b != [] by {
      RangeIsEmpty(h, a);
      RangeIsEmpty(h, b);
    }
    RangeByLevels(h, a);
    RangeByLevels(h, b);
    assert Range(h, a)[0] == Odd(a) && Range(h, b)[0] == Odd(b);
    assert Range(h, a)[1..] == Range(h, Pairs(h, a));
    assert Range(h, b)[1..] == Range(h, Pairs(h, b));
    if Pairs(h, a) == Pairs(h, b) {
      x, y := PairsBind(h, a, b);
    } else {
      x, y := LevelsBind(h, Pairs(h, a), Pairs(h, b));
    }
  }

  /** Equal peaks bind the leaves, and their number: from two different leaf sequences with the same
      range comes a collision among the very pairs that the appends hashed for them. */
  lemma RangeBinds(h: PairHash, a: seq<Hash>, b: seq<Hash>) returns (x: (Hash, Hash), y: (Hash, Hash))
    requires Range(h, a) == Range(h, b) && a != b
    ensures x in Calls(h, a) && y in Calls(h, b) && Collide(h, x, y)
  {
    x, y := LevelsBind(h, a, b);
    HashedExactly(h, a, x);
    HashedExactly(h, b, y);
  }

  lemma RangeIsEmpty(h: PairHash, leaves: seq<Hash>)
    ensures Range(h, leaves) == [] <==> leaves == []
  {
    if leaves != [] {
      RangeByLevels(h, leaves);
    }
  }

  lemma {:induction false} CarriesByPopCount(h: PairHash, leaves: seq<Hash>)
    ensures Carries(Range(h, leaves)) + PopCount(|leaves| + 1) == PopCount(|leaves|) + 1
    decreases |leaves|
  {
    if leaves != [] {
      RangeByLevels(h, leaves);
      var n := |leaves|;
      assert Range(h, leaves)[1..] == Range(h, Pairs(h, leaves));
      if n % 2 == 1 {
        CarriesByPopCount(h, Pairs(h, leaves));
        assert (n + 1) / 2 == n / 2 + 1;
      } else {
        assert (n + 1) / 2 == n / 2;
      }
    }
  }

  /** Appending `n` leaves to an empty range takes exactly `n` minus its number of one bits hashes. */
  lemma {:induction false} HashesByPopCount(h: PairHash, leaves: seq<Hash>)
    ensures |Calls(h, leaves)| + PopCount(|leaves|) == |leaves|
  {
    if leaves != [] {
      var front := leaves[..|leaves| - 1];
      HashesByPopCount(h, front);
      CarriesByPopCount(h, front);
    }
  }
}
