/** The ticket accumulator: a set of tickets ordered by identifier only, and its reference meaning,
    the lowest identifiers of a set. */
module Tickets {
  import opened Prelude

  datatype Ticket = Ticket(id: Hash, attempt: nat)

  /** An ordered set of tickets as the sequence its iterators walk: identifiers strictly ascend. */
  predicate Ascending(s: seq<Ticket>) {
    forall i, j :: 0 <= i < j < |s| ==> s[i].id < s[j].id
  }

  function Ids(s: seq<Ticket>): set<Hash> {
    set t | t in s :: t.id
  }

  /** The first position whose identifier is not below `id`. */
  function LowerBound(s: seq<Ticket>, id: Hash): (k: nat)
    ensures k <= |s|
    ensures forall i :: 0 <= i < k ==> s[i].id < id
    ensures k < |s| ==> id <= s[k].id
  {
    if s == [] || id <= s[0].id then 0 else 1 + LowerBound(s[1..], id)
  }

  /** Set insertion: a ticket whose identifier is present already is dropped. */
  function Insert(s: seq<Ticket>, t: Ticket): seq<Ticket> {
    var k := LowerBound(s, t.id);
    if k < |s| && s[k].id == t.id then s else s[..k] + [t] + s[k..]
  }

  /** Range insertion, left to right. */
  function InsertAll(s: seq<Ticket>, ts: seq<Ticket>): seq<Ticket>
    decreases |ts|
  {
    if ts == [] then s else InsertAll(Insert(s, ts[0]), ts[1..])
  }

  /** `low` consists of the `k` smallest members of `all`, or of all of them when there are fewer. */
  ghost predicate Lowest(low: set<Hash>, k: nat, all: set<Hash>) {
    && low <= all
    && |low| == (if |all| < k then |all| else k)
    && forall x, y :: x in low && y in all && y !in low ==> x < y
  }

  // ---------- ordered-set facts ----------

  lemma {:induction false} IdsCount(s: seq<Ticket>)
    requires Ascending(s)
    ensures |Ids(s)| == |s|
  {
    if s != [] {
      var front, last := s[..|s| - 1], s[|s| - 1];
      IdsCount(front);
      assert s == front + [last];
      assert Ids(s) == Ids(front) + {last.id};
      assert last.id !in Ids(front);
    }
  }

  lemma InsertMembers(s: seq<Ticket>, t: Ticket)
    requires Ascending(s)
    ensures t.id in Ids(s) ==> Insert(s, t) == s
    ensures t.id !in Ids(s) ==> forall u :: u in Insert(s, t) <==> u in s || u == t
  {
    var k := LowerBound(s, t.id);
    if k < |s| && s[k].id == t.id {
      assert s[k] in s;
    } else {
      forall u | u in s ensures u.id != t.id {
        var i :| 0 <= i < |s| && s[i] == u;
      }
      assert t.id !in Ids(s) && Insert(s, t) == s[..k] + [t] + s[k..];
      assert s == s[..k] + s[k..];
    }
  }

  lemma InsertAscends(s: seq<Ticket>, t: Ticket, k: nat)
    requires Ascending(s) && k <= |s|
    requires forall i :: 0 <= i < k ==> s[i].id < t.id
    requires k < |s| ==> t.id < s[k].id
    ensures Ascending(s[..k] + [t] + s[k..])
  {
    var r := s[..k] + [t] + s[k..];
    forall i, j | 0 <= i < j < |r| ensures r[i].id < r[j].id {
      var a, b := if i <= k then i else i - 1, if j <= k then j else j - 1;
      assert i != k ==> r[i] == s[a];
      assert j != k ==> r[j] == s[b];
    }
  }

  lemma InsertKeepsOrder(s: seq<Ticket>, t: Ticket)
    requires Ascending(s)
    ensures Ascending(Insert(s, t))
    ensures Ids(Insert(s, t)) == Ids(s) + {t.id}
    ensures t.id in Ids(s) ==> Insert(s, t) == s
    ensures t.id !in Ids(s) ==> |Insert(s, t)| == |s| + 1
    ensures forall u :: u in Insert(s, t) ==> u in s || u == t
  {
    InsertMembers(s, t);
    var k := LowerBound(s, t.id);
    if t.id !in Ids(s) {
      assert k < |s| ==> s[k] in s;
      InsertAscends(s, t, k);
    }
  }

  lemma {:induction false} InsertAllKeepsOrder(s: seq<Ticket>, ts: seq<Ticket>)
    requires Ascending(s)
    ensures Ascending(InsertAll(s, ts))
    ensures Ids(InsertAll(s, ts)) == Ids(s) + Ids(ts)
    ensures forall u :: u in InsertAll(s, ts) ==> u in s || u in ts
    decreases |ts|
  {
    if ts != [] {
      var t, rest := ts[0], ts[1..];
      InsertKeepsOrder(s, t);
      InsertAllKeepsOrder(Insert(s, t), rest);
      assert forall u :: u in ts <==> u == t || u in rest;
      assert Ids(ts) == {t.id} + Ids(rest);
    }
  }

  /** Copying an accumulator that is already in order into a fresh set changes nothing. */
  lemma {:induction false} InsertAllOrdered(s: seq<Ticket>, ts: seq<Ticket>)
    requires Ascending(s + ts)
    ensures InsertAll(s, ts) == s + ts
    decreases |ts|
  {
    if ts == [] {
      assert s + ts == s;
    } else {
      var k := LowerBound(s, ts[0].id);
      assert forall i :: 0 <= i < |s| ==> (s + ts)[i] == s[i];
      assert (s + ts)[|s|] == ts[0];
      assert k == |s|;
      assert Insert(s, ts[0]) == s + [ts[0]];
      assert s + [ts[0]] + ts[1..] == s + ts;
      InsertAllOrdered(s + [ts[0]], ts[1..]);
    }
  }

  // ---------- the lowest members of a set ----------

  /** The reference is unambiguous: two sets that are both the lowest `k` are the same set. */
  lemma LowestIsUnique(a: set<Hash>, b: set<Hash>, k: nat, all: set<Hash>)
    requires Lowest(a, k, all) && Lowest(b, k, all)
    ensures a == b
  {
    if !(a <= b) {
      var x :| x in a && x !in b;
      SameSizeDiffer(a, b, x);
      assert false;
    }
    SubsetSameSize(a, b);
  }

  lemma SubsetSameSize<T>(a: set<T>, b: set<T>)
    requires a <= b && |a| == |b|
    ensures a == b
  {
    if y :| y in b && y !in a {
      SubsetCount(a, b - {y});
    }
  }

  lemma SubsetCount<T>(a: set<T>, b: set<T>)
    requires a <= b
    ensures |a| <= |b|
  {
    if x :| x in a {
      SubsetCount(a - {x}, b - {x});
    }
  }

  lemma SameSizeDiffer<T>(a: set<T>, b: set<T>, x: T)
    requires |a| == |b| && x in a && x !in b
    ensures exists y :: y in b && y !in a
  {
    if b <= a {
      SubsetCount(b, a - {x});
    }
  }

  /** A set with no more than `k` members is its own lowest part. */
  lemma LowestOfFew(all: set<Hash>, k: nat)
    requires |all| <= k
    ensures Lowest(all, k, all)
  {
  }

  /** Keeping only the lowest part loses nothing: it can be done one member at a time. The cases
      are a member that is present or new, and a set that is full or not. */
  lemma LowestGrows(low: set<Hash>, k: nat, all: set<Hash>, x: Hash, low': set<Hash>)
    requires Lowest(low, k, all)
    requires Lowest(low', k, low + {x})
    ensures Lowest(low', k, all + {x})
  {
    if x in all {
      assert all + {x} == all;
      if x in low {
        assert low + {x} == low;
        LowestOfFew(low, k);
        LowestIsUnique(low, low', k, low);
      } else {
        // x was dropped before, so low is full and lies below x
        SubsetProper(low, all, x);
        assert |low| == k;
        assert Lowest(low, k, low + {x});
        LowestIsUnique(low, low', k, low + {x});
      }
    } else {
      LowestGrowsNew(low, k, all, x, low');
    }
  }

  lemma SubsetProper<T>(a: set<T>, b: set<T>, x: T)
    requires a <= b && x in b && x !in a
    ensures |a| < |b|
  {
    SubsetCount(a, b - {x});
  }

  lemma LowestGrowsNew(low: set<Hash>, k: nat, all: set<Hash>, x: Hash, low': set<Hash>)
    requires Lowest(low, k, all) && x !in all
    requires Lowest(low', k, low + {x})
    ensures Lowest(low', k, all + {x})
  {
    assert |all + {x}| == |all| + 1 && |low + {x}| == |low| + 1;
    if |all| < k {
      SubsetSameSize(low, all);
    } else {
      assert |low'| == k;
      forall u, v | u in low' && v in all + {x} && v !in low' ensures u < v {
        if v in low + {x} {
        } else if u == x {
          // x was kept, so some member of low was dropped in its place
          var w := DroppedMember(low, x, low');
          assert x < w && w < v;
        }
      }
    }
  }

  lemma DroppedMember(low: set<Hash>, x: Hash, low': set<Hash>) returns (w: Hash)
    requires x !in low && x in low' && low' <= low + {x} && |low'| == |low|
    ensures w in low && w !in low'
  {
    SameSizeDiffer(low', low, x);
    w :| w in low && w !in low';
  }
}
