/** The in-memory store, its cursor and its write batch, against a map ordered by byte keys. */
module Storage {
  import opened Prelude
  import opened Hex
  import opened OrderedMap

  datatype Result<T> = Ok(value: T) | NotFound

  class InMemoryStorage {
    var entries: seq<Entry>
    var size: nat

    ghost predicate Valid()
      reads this
    {
      OrderedMap.Valid(entries) && size == Total(entries)
    }

    ghost function Map(): map<Bytes, Bytes>
      requires Valid()
      reads this
    {
      Contents(entries)
    }

    constructor ()
      ensures Valid() && Map() == map[]
    {
      entries, size := [], 0;
    }

    method Get(key: Bytes) returns (r: Result<Bytes>)
      requires Valid()
      ensures r == if key in Map() then Ok(Map()[key]) else NotFound
    {
      HasExactly(entries, key);
      if Has(entries, Encode(key)) {
        r := Ok(entries[LowerBound(entries, Encode(key))].value);
      } else {
        r := NotFound;
      }
    }

    method TryGet(key: Bytes) returns (r: Option<Bytes>)
      requires Valid()
      ensures r == if key in Map() then Some(Map()[key]) else None
    {
      HasExactly(entries, key);
      if Has(entries, Encode(key)) {
        r := Some(entries[LowerBound(entries, Encode(key))].value);
      } else {
        r := None;
      }
    }

    method Contains(key: Bytes) returns (r: bool)
      requires Valid()
      ensures r <==> key in Map()
    {
      HasExactly(entries, key);
      r := Has(entries, Encode(key));
    }

    method Put(key: Bytes, value: Bytes)
      requires Valid()
      modifies this
      ensures Valid()
      ensures Map() == old(Map())[key := value]
    {
      var t := Encode(key);
      PutContents(entries, key, value);
      PutTotal(entries, t, value);
      if Has(entries, t) {
        var oldSize := |entries[LowerBound(entries, t)].value|;
        TotalSplit(entries, LowerBound(entries, t));
        assert size >= oldSize;
        size := size - oldSize;
      }
      size := size + |value|;
      entries := OrderedMap.Put(entries, t, value);
    }

    method Remove(key: Bytes)
      requires Valid()
      modifies this
      ensures Valid()
      ensures Map() == old(Map()) - {key}
    {
      var t := Encode(key);
      EraseContents(entries, key);
      EraseTotal(entries, t);
      if Has(entries, t) {
        TotalSplit(entries, LowerBound(entries, t));
        size := size - |entries[LowerBound(entries, t)].value|;
        entries := Erase(entries, t);
      }
    }

    /** The reported size is the number of bytes in the stored values. */
    method ByteSizeHint() returns (r: nat)
      requires Valid()
      ensures r == Bytecount(Map())
    {
      TotalIsBytecount(entries);
      r := size;
    }
  }

  /** The number of bytes in the values of a map. */
  ghost function Bytecount(c: map<Bytes, Bytes>): nat {
    if c == map[] then 0 else
      var k :| k in c;
      |c[k]| + Bytecount(c - {k})
  }

  lemma {:induction false} BytecountWithout(c: map<Bytes, Bytes>, k: Bytes)
    requires k in c
    ensures Bytecount(c) == |c[k]| + Bytecount(c - {k})
    decreases |c|
  {
    var x :| x in c && Bytecount(c) == |c[x]| + Bytecount(c - {x});
    if x != k {
      BytecountWithout(c - {x}, k);
      BytecountWithout(c - {k}, x);
      assert c - {x} - {k} == c - {k} - {x};
    }
  }

  lemma LastKeyIsNew(es: seq<Entry>)
    requires OrderedMap.Valid(es) && es != []
    ensures KeyOf(es[|es| - 1]) !in Contents(es[..|es| - 1])
  {
    var n := |es| - 1;
    var k := KeyOf(es[n]);
    if k in Contents(es[..n]) {
      ContentsExactly(es[..n], k, Contents(es[..n])[k]);
      TextIrreflexive(es[n].text);
    }
  }

  lemma {:induction false} TotalIsBytecount(es: seq<Entry>)
    requires OrderedMap.Valid(es)
    ensures Total(es) == Bytecount(Contents(es))
  {
    if es != [] {
      var n := |es| - 1;
      TotalIsBytecount(es[..n]);
      LastKeyIsNew(es);
      BytecountWithout(Contents(es), KeyOf(es[n]));
      assert Contents(es) - {KeyOf(es[n])} == Contents(es[..n]);
    }
  }

  // ---------- positions in a map ordered by byte keys ----------

  type Position = Option<(Bytes, Bytes)>

  ghost predicate IsEntry(c: map<Bytes, Bytes>, p: Position) {
    p.Some? ==> p.value.0 in c && c[p.value.0] == p.value.1
  }

  ghost predicate IsFirst(c: map<Bytes, Bytes>, p: Position) {
    IsEntry(c, p) && forall x :: x in c ==> p.Some? && (x == p.value.0 || KeyLess(p.value.0, x))
  }

  ghost predicate IsLast(c: map<Bytes, Bytes>, p: Position) {
    IsEntry(c, p) && forall x :: x in c ==> p.Some? && (x == p.value.0 || KeyLess(x, p.value.0))
  }

  /** The least key that is not below `key`. */
  ghost predicate IsAtOrAfter(c: map<Bytes, Bytes>, key: Bytes, p: Position) {
    && IsEntry(c, p) && (p.Some? ==> !KeyLess(p.value.0, key))
    && forall x :: x in c && !KeyLess(x, key) ==> p.Some? && (x == p.value.0 || KeyLess(p.value.0, x))
  }

  /** The least key above `key`. */
  ghost predicate IsAfter(c: map<Bytes, Bytes>, key: Bytes, p: Position) {
    && IsEntry(c, p) && (p.Some? ==> KeyLess(key, p.value.0))
    && forall x :: x in c && KeyLess(key, x) ==> p.Some? && (x == p.value.0 || KeyLess(p.value.0, x))
  }

  /** The greatest key below `key`. */
  ghost predicate IsBefore(c: map<Bytes, Bytes>, key: Bytes, p: Position) {
    && IsEntry(c, p) && (p.Some? ==> KeyLess(p.value.0, key))
    && forall x :: x in c && KeyLess(x, key) ==> p.Some? && (x == p.value.0 || KeyLess(x, p.value.0))
  }

  /** The greatest key that is not above `key`. */
  ghost predicate IsAtOrBefore(c: map<Bytes, Bytes>, key: Bytes, p: Position) {
    && IsEntry(c, p) && (p.Some? ==> !KeyLess(key, p.value.0))
    && forall x :: x in c && !KeyLess(key, x) ==> p.Some? && (x == p.value.0 || KeyLess(x, p.value.0))
  }

  lemma KeyTotal(a: Bytes, b: Bytes)
    ensures KeyLess(a, b) || a == b || KeyLess(b, a)
    ensures !(KeyLess(a, b) && KeyLess(b, a)) && !KeyLess(a, a)
  {
    TextTotal(Encode(a), Encode(b));
    EncodeKeepsOrder(a, b);
    EncodeKeepsOrder(b, a);
    EncodeKeepsOrder(a, a);
    TextIrreflexive(Encode(a));
    if Encode(a) == Encode(b) {
      EncodeInjective(a, b);
    }
    if KeyLess(a, b) && KeyLess(b, a) {
      TextTransitive(Encode(a), Encode(b), Encode(a));
    }
  }

  lemma KeyTransitive(a: Bytes, b: Bytes, c: Bytes)
    requires KeyLess(a, b) && KeyLess(b, c)
    ensures KeyLess(a, c)
  {
    EncodeKeepsOrder(a, b);
    EncodeKeepsOrder(b, c);
    EncodeKeepsOrder(a, c);
    TextTransitive(Encode(a), Encode(b), Encode(c));
  }

  // ---------- positions by index ----------

  type Pairs = seq<(Bytes, Bytes)>

  ghost predicate Ascends(ps: Pairs) {
    forall i, j :: 0 <= i < j < |ps| ==> KeyLess(ps[i].0, ps[j].0)
  }

  /** The pairs are exactly the entries of the map. */
  ghost predicate Lists(ps: Pairs, c: map<Bytes, Bytes>) {
    && (forall i :: 0 <= i < |ps| ==> ps[i].0 in c && c[ps[i].0] == ps[i].1)
    && (forall x :: x in c ==> exists i :: 0 <= i < |ps| && ps[i].0 == x)
  }

  /** What an iterator at index `i` refers to; the end refers to nothing. */
  function PositionAt(ps: Pairs, i: nat): Position
    requires i <= |ps|
  {
    if i == |ps| then None else Some(ps[i])
  }

  lemma AtOrAfterAt(ps: Pairs, c: map<Bytes, Bytes>, key: Bytes, r: nat)
    requires Ascends(ps) && Lists(ps, c) && r <= |ps|
    requires forall i :: 0 <= i < |ps| ==> (i < r <==> KeyLess(ps[i].0, key))
    ensures IsAtOrAfter(c, key, PositionAt(ps, r))
  {
  }

  lemma AfterAt(ps: Pairs, c: map<Bytes, Bytes>, key: Bytes, r: nat)
    requires Ascends(ps) && Lists(ps, c) && r <= |ps|
    requires forall i :: 0 <= i < |ps| ==> (r <= i <==> KeyLess(key, ps[i].0))
    ensures IsAfter(c, key, PositionAt(ps, r))
  {
  }

  lemma BeforeAt(ps: Pairs, c: map<Bytes, Bytes>, key: Bytes, r: nat)
    requires Ascends(ps) && Lists(ps, c) && r <= |ps|
    requires forall i :: 0 <= i < |ps| ==> (i < r <==> KeyLess(ps[i].0, key))
    ensures IsBefore(c, key, if r == 0 then None else Some(ps[r - 1]))
  {
  }

  lemma FirstAt(ps: Pairs, c: map<Bytes, Bytes>)
    requires Ascends(ps) && Lists(ps, c)
    ensures IsFirst(c, PositionAt(ps, 0))
  {
  }

  lemma LastAt(ps: Pairs, c: map<Bytes, Bytes>)
    requires Ascends(ps) && Lists(ps, c)
    ensures IsLast(c, if ps == [] then None else Some(ps[|ps| - 1]))
  {
  }

  /** The entries with their keys decoded. */
  function Decoded(es: seq<Entry>): (ps: Pairs)
    requires Canonical(es)
    ensures |ps| == |es| && forall i :: 0 <= i < |es| ==> ps[i] == (KeyOf(es[i]), es[i].value)
  {
    seq(|es|, i requires 0 <= i < |es| => (KeyOf(es[i]), es[i].value))
  }

  lemma DecodedLists(es: seq<Entry>)
    requires OrderedMap.Valid(es)
    ensures Ascends(Decoded(es)) && Lists(Decoded(es), Contents(es))
  {
    forall i, j | 0 <= i < j < |es|
      ensures KeyLess(KeyOf(es[i]), KeyOf(es[j]))
    {
      KeysAscend(es, i, j);
    }
    forall i | 0 <= i < |es|
      ensures KeyOf(es[i]) in Contents(es) && Contents(es)[KeyOf(es[i])] == es[i].value
    {
      ContentsExactly(es, KeyOf(es[i]), es[i].value);
    }
    forall x | x in Contents(es)
      ensures exists i :: 0 <= i < |es| && Decoded(es)[i].0 == x
    {
      ContentsExactly(es, x, Contents(es)[x]);
      var j :| 0 <= j < |es| && es[j] == Entry(Encode(x), Contents(es)[x]);
      RoundTrip(x);
      assert Decoded(es)[j].0 == x;
    }
  }

  lemma LowerByKey(es: seq<Entry>, key: Bytes)
    requires OrderedMap.Valid(es)
    ensures LowerBound(es, Encode(key)) <= |es|
    ensures forall i :: 0 <= i < |es| ==> (i < LowerBound(es, Encode(key)) <==> KeyLess(Decoded(es)[i].0, key))
  {
    LowerSplits(es, Encode(key));
    forall i | 0 <= i < |es|
      ensures i < LowerBound(es, Encode(key)) <==> KeyLess(KeyOf(es[i]), key)
    {
      EncodeKeepsOrder(KeyOf(es[i]), key);
      EncodeKeepsOrder(key, KeyOf(es[i]));
      KeyTotal(key, KeyOf(es[i]));
    }
  }

  lemma UpperByKey(es: seq<Entry>, key: Bytes)
    requires OrderedMap.Valid(es)
    ensures UpperBound(es, Encode(key)) <= |es|
    ensures forall i :: 0 <= i < |es| ==> (UpperBound(es, Encode(key)) <= i <==> KeyLess(key, Decoded(es)[i].0))
  {
    UpperSplits(es, Encode(key));
    forall i | 0 <= i < |es|
      ensures UpperBound(es, Encode(key)) <= i <==> KeyLess(key, KeyOf(es[i]))
    {
      EncodeKeepsOrder(KeyOf(es[i]), key);
      EncodeKeepsOrder(key, KeyOf(es[i]));
      KeyTotal(key, KeyOf(es[i]));
    }
  }

  // ---------- the cursor ----------

  class InMemoryCursor {
    const db: InMemoryStorage
    var kv: Position

    constructor (db: InMemoryStorage)
      ensures this.db == db && kv == None
    {
      this.db := db;
      kv := None;
    }

    /** Moves to the entry at index `i`, decoding its key from its text. */
    method SeekIndex(i: nat) returns (ok: bool)
      requires db.Valid() && i <= |db.entries|
      modifies this
      ensures kv == PositionAt(Decoded(db.entries), i) && ok == kv.Some?
    {
      if i == |db.entries| {
        kv := None;
      } else {
        kv := Some((Decode(db.entries[i].text).value, db.entries[i].value));
      }
      ok := kv.Some?;
    }

    method SeekFirst() returns (ok: bool)
      requires db.Valid()
      modifies this
      ensures IsFirst(db.Map(), kv) && ok == kv.Some?
    {
      DecodedLists(db.entries);
      FirstAt(Decoded(db.entries), db.Map());
      ok := SeekIndex(0);
    }

    method Seek(key: Bytes) returns (ok: bool)
      requires db.Valid()
      modifies this
      ensures IsAtOrAfter(db.Map(), key, kv) && ok == kv.Some?
    {
      DecodedLists(db.entries);
      LowerByKey(db.entries, key);
      AtOrAfterAt(Decoded(db.entries), db.Map(), key, LowerBound(db.entries, Encode(key)));
      ok := SeekIndex(LowerBound(db.entries, Encode(key)));
    }

    method SeekLast() returns (ok: bool)
      requires db.Valid()
      modifies this
      ensures IsLast(db.Map(), kv) && ok == kv.Some?
    {
      DecodedLists(db.entries);
      LastAt(Decoded(db.entries), db.Map());
      ok := SeekIndex(if db.entries == [] then |db.entries| else |db.entries| - 1);
    }

    method Next()
      requires db.Valid() && kv.Some?
      modifies this
      ensures IsAfter(db.Map(), old(kv.value.0), kv)
    {
      DecodedLists(db.entries);
      UpperByKey(db.entries, kv.value.0);
      AfterAt(Decoded(db.entries), db.Map(), kv.value.0, UpperBound(db.entries, Encode(kv.value.0)));
      var _ := SeekIndex(UpperBound(db.entries, Encode(kv.value.0)));
    }

    method Prev()
      requires db.Valid() && kv.Some?
      modifies this
      ensures IsBefore(db.Map(), old(kv.value.0), kv)
    {
      var r := LowerBound(db.entries, Encode(kv.value.0));
      DecodedLists(db.entries);
      LowerByKey(db.entries, kv.value.0);
      BeforeAt(Decoded(db.entries), db.Map(), kv.value.0, r);
      var _ := SeekIndex(if r == 0 then |db.entries| else r - 1);
    }

    /** Lands on the greatest key that is not above `key`, or reports that there is none. */
    method SeekReverse(key: Bytes) returns (ok: bool)
      requires db.Valid()
      modifies this
      ensures IsAtOrBefore(db.Map(), key, kv) && ok == kv.Some?
    {
      ok := Seek(key);
      if !ok {
        ok := SeekLast();
        LastBelow(db.Map(), key, kv);
        return;
      }
      if KeyLess(key, kv.value.0) {
        ghost var above := kv;
        Prev();
        PrevBelow(db.Map(), key, above, kv);
        return kv.Some?;
      }
      SeekHit(db.Map(), key, kv);
      ok := true;
    }
  }

  lemma LastBelow(c: map<Bytes, Bytes>, key: Bytes, p: Position)
    requires IsAtOrAfter(c, key, None) && IsLast(c, p)
    ensures IsAtOrBefore(c, key, p)
  {
    if p.Some? {
      KeyTotal(key, p.value.0);
    }
  }

  lemma PrevBelow(c: map<Bytes, Bytes>, key: Bytes, above: Position, p: Position)
    requires above.Some? && IsAtOrAfter(c, key, above) && KeyLess(key, above.value.0)
    requires IsBefore(c, above.value.0, p)
    ensures IsAtOrBefore(c, key, p)
  {
    if p.Some? && KeyLess(key, p.value.0) {
      KeyTotal(key, p.value.0);
      KeyTotal(p.value.0, above.value.0);
      assert false;
    }
    forall x | x in c && !KeyLess(key, x)
      ensures p.Some? && (x == p.value.0 || KeyLess(x, p.value.0))
    {
      KeyTotal(x, key);
      if KeyLess(x, key) {
        KeyTransitive(x, key, above.value.0);
      }
    }
  }

  lemma SeekHit(c: map<Bytes, Bytes>, key: Bytes, p: Position)
    requires p.Some? && IsAtOrAfter(c, key, p) && !KeyLess(key, p.value.0)
    ensures IsAtOrBefore(c, key, p)
  {
    KeyTotal(key, p.value.0);
    forall x | x in c && !KeyLess(key, x)
      ensures x == p.value.0 || KeyLess(x, p.value.0)
    {
      KeyTotal(x, key);
    }
  }

  // ---------- the batch ----------

  lemma OverlayGrows(c: map<Bytes, Bytes>, es: seq<Entry>, i: nat)
    requires Canonical(es) && i < |es|
    ensures (c + Contents(es[..i]))[KeyOf(es[i]) := es[i].value] == c + Contents(es[..i + 1])
  {
    assert es[..i + 1][..i] == es[..i];
  }

  class InMemoryBatch {
    var entries: seq<Entry>
    const db: InMemoryStorage

    ghost predicate Valid()
      reads this
    {
      OrderedMap.Valid(entries)
    }

    /** The puts that are waiting. */
    ghost function Pending(): map<Bytes, Bytes>
      requires Valid()
      reads this
    {
      Contents(entries)
    }

    constructor (db: InMemoryStorage)
      ensures this.db == db && Valid() && Pending() == map[]
    {
      this.db := db;
      entries := [];
    }

    method Put(key: Bytes, value: Bytes)
      requires Valid()
      modifies this
      ensures Valid() && Pending() == old(Pending())[key := value]
    {
      PutContents(entries, key, value);
      entries := OrderedMap.Put(entries, Encode(key), value);
    }

    method Remove(key: Bytes)
      requires Valid()
      modifies this
      ensures Valid() && Pending() == old(Pending()) - {key}
    {
      EraseContents(entries, key);
      entries := Erase(entries, Encode(key));
    }

    method Clear()
      requires Valid()
      modifies this
      ensures Valid() && Pending() == map[]
    {
      entries := [];
    }

    /** Lays the waiting puts over the store; they stay in the batch. */
    method Commit()
      requires Valid() && db.Valid()
      modifies db
      ensures db.Valid() && db.Map() == old(db.Map()) + Pending()
    {
      ghost var was := db.Map();
      for i := 0 to |entries|
        invariant db.Valid() && db.Map() == was + Contents(entries[..i])
      {
        OverlayGrows(was, entries, i);
        db.Put(Decode(entries[i].text).value, entries[i].value);
      }
      assert entries[..|entries|] == entries;
    }
  }
}
