/** Whole traversals of a changing store, and whole histories of a batch. */
module StorageRuns {
  import opened Prelude
  import opened Hex
  import opened Storage

  type Map = map<Bytes, Bytes>

  // ---------- traversals ----------

  /** One cursor's positions while others put and remove between its steps: `maps[i]` is the store at
      the moment of step `i`. The cursor starts at the least key not below `start`. */
  ghost predicate IsForward(maps: seq<Map>, start: Bytes, visits: seq<Position>) {
    && |maps| == |visits| > 0
    && IsAtOrAfter(maps[0], start, visits[0])
    && forall i :: 0 < i < |visits| ==> StepsOn(maps, visits, i)
  }

  ghost predicate StepsOn(maps: seq<Map>, visits: seq<Position>, i: nat)
    requires |maps| == |visits| && 0 < i < |visits|
  {
    visits[i - 1].Some? && IsAfter(maps[i], visits[i - 1].value.0, visits[i])
  }

  ghost predicate IsBackward(maps: seq<Map>, start: Bytes, visits: seq<Position>) {
    && |maps| == |visits| > 0
    && IsAtOrBefore(maps[0], start, visits[0])
    && forall i :: 0 < i < |visits| ==> StepsBack(maps, visits, i)
  }

  ghost predicate StepsBack(maps: seq<Map>, visits: seq<Position>, i: nat)
    requires |maps| == |visits| && 0 < i < |visits|
  {
    visits[i - 1].Some? && IsBefore(maps[i], visits[i - 1].value.0, visits[i])
  }

  /** Starting at the first entry is starting at the empty key. */
  lemma FirstIsFromEmptyKey(c: Map, p: Position)
    ensures IsFirst(c, p) <==> IsAtOrAfter(c, [], p)
  {
  }

  /** Every visit is an entry of the store at that moment, and the visited keys ascend. */
  lemma {:induction false} ForwardAscends(maps: seq<Map>, start: Bytes, visits: seq<Position>, i: nat, j: nat)
    requires IsForward(maps, start, visits) && i < j < |visits| && visits[j].Some?
    ensures visits[i].Some? && KeyLess(visits[i].value.0, visits[j].value.0)
    ensures IsEntry(maps[i], visits[i]) && IsEntry(maps[j], visits[j])
    decreases j - i
  {
    assert StepsOn(maps, visits, j);
    if i + 1 < j {
      ForwardAscends(maps, start, visits, i, j - 1);
      KeyTransitive(visits[i].value.0, visits[j - 1].value.0, visits[j].value.0);
    } else if 0 < i {
      assert StepsOn(maps, visits, i);
    }
  }

  /** A key that is present at every step and not yet visited still lies ahead. */
  lemma {:induction false} StillAhead(maps: seq<Map>, start: Bytes, visits: seq<Position>, k: Bytes, n: nat)
    requires IsForward(maps, start, visits) && n < |visits| && !KeyLess(k, start)
    requires forall i :: 0 <= i < |maps| ==> k in maps[i]
    requires forall i :: 0 <= i <= n ==> visits[i] != Some((k, maps[i][k]))
    ensures visits[n].Some? && KeyLess(visits[n].value.0, k)
  {
    if n > 0 {
      StillAhead(maps, start, visits, k, n - 1);
      assert StepsOn(maps, visits, n);
    }
  }

  /** A traversal that has reached the end has visited every key that was present throughout. */
  lemma ForwardMissesNothing(maps: seq<Map>, start: Bytes, visits: seq<Position>, k: Bytes)
    requires IsForward(maps, start, visits) && visits[|visits| - 1].None? && !KeyLess(k, start)
    requires forall i :: 0 <= i < |maps| ==> k in maps[i]
    ensures exists i :: 0 <= i < |visits| && visits[i] == Some((k, maps[i][k]))
  {
    if forall i :: 0 <= i < |visits| ==> visits[i] != Some((k, maps[i][k])) {
      StillAhead(maps, start, visits, k, |visits| - 1);
    }
  }

  /** From the first entry to the end: every key that was present throughout is visited. */
  lemma FullForwardMissesNothing(maps: seq<Map>, visits: seq<Position>, k: Bytes)
    requires |maps| == |visits| > 0 && IsFirst(maps[0], visits[0]) && visits[|visits| - 1].None?
    requires forall i :: 0 < i < |visits| ==> StepsOn(maps, visits, i)
    requires forall i :: 0 <= i < |maps| ==> k in maps[i]
    ensures exists i :: 0 <= i < |visits| && visits[i] == Some((k, maps[i][k]))
  {
    FirstIsFromEmptyKey(maps[0], visits[0]);
    ForwardMissesNothing(maps, [], visits, k);
  }

  lemma {:induction false} BackwardDescends(maps: seq<Map>, start: Bytes, visits: seq<Position>, i: nat, j: nat)
    requires IsBackward(maps, start, visits) && i < j < |visits| && visits[j].Some?
    ensures visits[i].Some? && KeyLess(visits[j].value.0, visits[i].value.0)
    ensures IsEntry(maps[i], visits[i]) && IsEntry(maps[j], visits[j])
    decreases j - i
  {
    assert StepsBack(maps, visits, j);
    if i + 1 < j {
      BackwardDescends(maps, start, visits, i, j - 1);
      KeyTransitive(visits[j].value.0, visits[j - 1].value.0, visits[i].value.0);
    } else if 0 < i {
      assert StepsBack(maps, visits, i);
    }
  }

  lemma {:induction false} StillBehind(maps: seq<Map>, start: Bytes, visits: seq<Position>, k: Bytes, n: nat)
    requires IsBackward(maps, start, visits) && n < |visits| && !KeyLess(start, k)
    requires forall i :: 0 <= i < |maps| ==> k in maps[i]
    requires forall i :: 0 <= i <= n ==> visits[i] != Some((k, maps[i][k]))
    ensures visits[n].Some? && KeyLess(k, visits[n].value.0)
  {
    if n > 0 {
      StillBehind(maps, start, visits, k, n - 1);
      assert StepsBack(maps, visits, n);
    }
  }

  lemma BackwardMissesNothing(maps: seq<Map>, start: Bytes, visits: seq<Position>, k: Bytes)
    requires IsBackward(maps, start, visits) && visits[|visits| - 1].None? && !KeyLess(start, k)
    requires forall i :: 0 <= i < |maps| ==> k in maps[i]
    ensures exists i :: 0 <= i < |visits| && visits[i] == Some((k, maps[i][k]))
  {
    if forall i :: 0 <= i < |visits| ==> visits[i] != Some((k, maps[i][k])) {
      StillBehind(maps, start, visits, k, |visits| - 1);
    }
  }

  /** From the last entry to the beginning: every key that was present throughout is visited. */
  lemma FullBackwardMissesNothing(maps: seq<Map>, visits: seq<Position>, k: Bytes)
    requires |maps| == |visits| > 0 && IsLast(maps[0], visits[0]) && visits[|visits| - 1].None?
    requires forall i :: 0 < i < |visits| ==> StepsBack(maps, visits, i)
    requires forall i :: 0 <= i < |maps| ==> k in maps[i]
    ensures exists i :: 0 <= i < |visits| && visits[i] == Some((k, maps[i][k]))
  {
    assert k in maps[0] && visits[0].Some?;
    var last := visits[0].value.0;
    KeyTotal(last, last);
    KeyTotal(last, k);
    BackwardMissesNothing(maps, last, visits, k);
  }

  // ---------- batches ----------

  datatype Op = PutOp(key: Bytes, value: Bytes) | RemoveOp(key: Bytes)

  /** The waiting puts after a history of batch calls. */
  function PendingAfter(ops: seq<Op>): Map {
    if ops == [] then map[] else
      var pending, op := PendingAfter(ops[..|ops| - 1]), ops[|ops| - 1];
      if op.PutOp? then pending[op.key := op.value] else pending - {op.key}
  }

  /** The store after making the same calls on it directly. */
  function Replay(c: Map, ops: seq<Op>): Map {
    if ops == [] then c else
      var before, op := Replay(c, ops[..|ops| - 1]), ops[|ops| - 1];
      if op.PutOp? then before[op.key := op.value] else before - {op.key}
  }

  /** The last call on a key. */
  function LastOn(ops: seq<Op>, k: Bytes): Option<Op> {
    if ops == [] then None
    else if ops[|ops| - 1].key == k then Some(ops[|ops| - 1])
    else LastOn(ops[..|ops| - 1], k)
  }

  lemma {:induction false} PendingByLast(ops: seq<Op>, k: Bytes)
    ensures k in PendingAfter(ops) <==> LastOn(ops, k).Some? && LastOn(ops, k).value.PutOp?
    ensures k in PendingAfter(ops) ==> PendingAfter(ops)[k] == LastOn(ops, k).value.value
    ensures LastOn(ops, k).Some? ==> LastOn(ops, k).value.key == k
  {
    if ops != [] {
      PendingByLast(ops[..|ops| - 1], k);
    }
  }

  lemma {:induction false} ReplayByLast(c: Map, ops: seq<Op>, k: Bytes)
    ensures match LastOn(ops, k)
            case None => (k in Replay(c, ops) <==> k in c) && (k in c ==> Replay(c, ops)[k] == c[k])
            case Some(PutOp(_, v)) => k in Replay(c, ops) && Replay(c, ops)[k] == v
            case Some(RemoveOp(_)) => k !in Replay(c, ops)
  {
    if ops != [] {
      ReplayByLast(c, ops[..|ops| - 1], k);
    }
  }

  ghost predicate RemovesOnlyAbsent(c: Map, ops: seq<Op>) {
    forall k :: k in c ==> LastOn(ops, k) != Some(RemoveOp(k))
  }

  /** Committing equals replaying the calls exactly when no stored key was last removed in the batch. */
  lemma CommitReplaysExactly(c: Map, ops: seq<Op>)
    ensures c + PendingAfter(ops) == Replay(c, ops) <==> RemovesOnlyAbsent(c, ops)
  {
    forall k
      ensures k in c && LastOn(ops, k) == Some(RemoveOp(k)) ==> k in c + PendingAfter(ops) && k !in Replay(c, ops)
    {
      PendingByLast(ops, k);
      ReplayByLast(c, ops, k);
    }
    if RemovesOnlyAbsent(c, ops) {
      forall k
        ensures k in c + PendingAfter(ops) <==> k in Replay(c, ops)
        ensures k in Replay(c, ops) ==> (c + PendingAfter(ops))[k] == Replay(c, ops)[k]
      {
        PendingByLast(ops, k);
        ReplayByLast(c, ops, k);
      }
    }
  }

  /** A removal in a batch does not reach the store. */
  lemma RemovalIsLost()
    ensures var c: Map, ops := map[[1] := [2]], [RemoveOp([1])];
            c + PendingAfter(ops) == c && Replay(c, ops) == map[]
  {
    var c: Map, ops := map[[1] := [2]], [RemoveOp([1])];
    assert ops[..0] == [];
    assert PendingAfter(ops) == map[];
    assert Replay(c, ops) == c - {[1]};
  }
}
