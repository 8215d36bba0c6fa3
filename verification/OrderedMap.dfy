/** The ordered map behind the store: entries in ascending order of hexadecimal text, as the
    iterators of the source's map visit them, and the byte-keyed map that they stand for. */
module OrderedMap {
  import opened Hex

  datatype Entry = Entry(text: string, value: Bytes)

  predicate Sorted(es: seq<Entry>) {
    forall i, j :: 0 <= i < j < |es| ==> TextLess(es[i].text, es[j].text)
  }

  /** Every text is the encoding of some key. */
  predicate Canonical(es: seq<Entry>) {
    forall i :: 0 <= i < |es| ==> IsKey(es[i])
  }

  predicate IsKey(e: Entry) {
    Decode(e.text).Some? && Encode(Decode(e.text).value) == e.text
  }

  function KeyOf(e: Entry): Bytes
    requires IsKey(e)
  {
    Decode(e.text).value
  }

  predicate Valid(es: seq<Entry>) {
    Sorted(es) && Canonical(es)
  }

  // ---------- searching ----------

  /** The first position from `i` on whose text is not below `t`. */
  function LowerFrom(es: seq<Entry>, t: string, i: nat): (r: nat)
    requires i <= |es|
    ensures i <= r <= |es|
    ensures forall j :: i <= j < r ==> TextLess(es[j].text, t)
    ensures r < |es| ==> !TextLess(es[r].text, t)
    decreases |es| - i
  {
    if i == |es| || !TextLess(es[i].text, t) then i else LowerFrom(es, t, i + 1)
  }

  /** The first position from `i` on whose text is above `t`. */
  function UpperFrom(es: seq<Entry>, t: string, i: nat): (r: nat)
    requires i <= |es|
    ensures i <= r <= |es|
    ensures forall j :: i <= j < r ==> !TextLess(t, es[j].text)
    ensures r < |es| ==> TextLess(t, es[r].text)
    decreases |es| - i
  {
    if i == |es| || TextLess(t, es[i].text) then i else UpperFrom(es, t, i + 1)
  }

  function LowerBound(es: seq<Entry>, t: string): nat {
    LowerFrom(es, t, 0)
  }

  function UpperBound(es: seq<Entry>, t: string): nat {
    UpperFrom(es, t, 0)
  }

  predicate Has(es: seq<Entry>, t: string) {
    LowerBound(es, t) < |es| && es[LowerBound(es, t)].text == t
  }

  lemma LowerSplits(es: seq<Entry>, t: string)
    requires Sorted(es)
    ensures var r := LowerBound(es, t);
            && r <= |es|
            && (forall j :: 0 <= j < r ==> TextLess(es[j].text, t))
            && (forall j :: r <= j < |es| ==> es[j].text == t || TextLess(t, es[j].text))
            && (forall j :: r < j < |es| ==> TextLess(t, es[j].text))
  {
    var r := LowerBound(es, t);
    forall j | r <= j < |es|
      ensures es[j].text == t || TextLess(t, es[j].text)
      ensures r < j ==> TextLess(t, es[j].text)
    {
      TextTotal(es[r].text, t);
      if r < j && TextLess(t, es[r].text) {
        TextTransitive(t, es[r].text, es[j].text);
      }
    }
  }

  lemma UpperSplits(es: seq<Entry>, t: string)
    requires Sorted(es)
    ensures var r := UpperBound(es, t);
            && r <= |es|
            && (forall j :: 0 <= j < r ==> TextLess(es[j].text, t) || es[j].text == t)
            && (forall j :: r <= j < |es| ==> TextLess(t, es[j].text))
  {
    var r := UpperBound(es, t);
    forall j | 0 <= j < r
      ensures TextLess(es[j].text, t) || es[j].text == t
    {
      TextTotal(es[j].text, t);
    }
    forall j | r <= j < |es|
      ensures TextLess(t, es[j].text)
    {
      if r < j {
        TextTransitive(t, es[r].text, es[j].text);
      }
    }
  }

  lemma FoundAt(es: seq<Entry>, i: nat)
    requires Sorted(es) && i < |es|
    ensures LowerBound(es, es[i].text) == i && Has(es, es[i].text)
  {
    LowerSplits(es, es[i].text);
    TextIrreflexive(es[i].text);
  }

  lemma KeysAscend(es: seq<Entry>, i: nat, j: nat)
    requires Valid(es) && i < j < |es|
    ensures KeyLess(KeyOf(es[i]), KeyOf(es[j]))
  {
    EncodeKeepsOrder(KeyOf(es[i]), KeyOf(es[j]));
  }

  // ---------- the map ----------

  /** The byte-keyed map that the entries stand for. */
  ghost function Contents(es: seq<Entry>): map<Bytes, Bytes>
    requires Canonical(es)
  {
    if es == [] then map[] else
      var e := es[|es| - 1];
      Contents(es[..|es| - 1])[KeyOf(e) := e.value]
  }

  /** A key has a value in the map exactly when the entries hold its text with that value. */
  lemma {:induction false} ContentsExactly(es: seq<Entry>, k: Bytes, v: Bytes)
    requires Valid(es)
    ensures k in Contents(es) && Contents(es)[k] == v <==> Entry(Encode(k), v) in es
  {
    if es != [] {
      var n := |es| - 1;
      ContentsExactly(es[..n], k, v);
      assert es == es[..n] + [es[n]];
      RoundTrip(k);
      if KeyOf(es[n]) == k {
        TextIrreflexive(es[n].text);
      }
    }
  }

  lemma HasExactly(es: seq<Entry>, k: Bytes)
    requires Valid(es)
    ensures Has(es, Encode(k)) <==> k in Contents(es)
    ensures k in Contents(es) ==> Contents(es)[k] == es[LowerBound(es, Encode(k))].value
  {
    var t, c := Encode(k), Contents(es);
    if k in c {
      ContentsExactly(es, k, c[k]);
      var i :| 0 <= i < |es| && es[i] == Entry(t, c[k]);
      FoundAt(es, i);
    } else if Has(es, t) {
      ContentsExactly(es, k, es[LowerBound(es, t)].value);
      assert Entry(t, es[LowerBound(es, t)].value) in es;
    }
  }

  lemma SameContents(es: seq<Entry>, c: map<Bytes, Bytes>)
    requires Valid(es)
    requires forall k, v :: Entry(Encode(k), v) in es <==> k in c && c[k] == v
    ensures Contents(es) == c
  {
    forall k
      ensures k in Contents(es) <==> k in c
      ensures k in c ==> Contents(es)[k] == c[k]
    {
      if k in c {
        ContentsExactly(es, k, c[k]);
      }
      if k in Contents(es) {
        ContentsExactly(es, k, Contents(es)[k]);
      }
    }
  }

  // ---------- changing ----------

  function Put(es: seq<Entry>, t: string, v: Bytes): seq<Entry> {
    var r := LowerBound(es, t);
    if Has(es, t) then es[r := Entry(t, v)] else es[..r] + [Entry(t, v)] + es[r..]
  }

  function Erase(es: seq<Entry>, t: string): seq<Entry> {
    var r := LowerBound(es, t);
    if Has(es, t) then es[..r] + es[r + 1..] else es
  }

  lemma PutEntries(es: seq<Entry>, t: string, v: Bytes, e: Entry)
    requires Sorted(es)
    ensures e in Put(es, t, v) <==> e == Entry(t, v) || (e in es && e.text != t)
  {
    var r, es' := LowerBound(es, t), Put(es, t, v);
    LowerSplits(es, t);
    TextIrreflexive(t);
    assert es'[r] == Entry(t, v);
    if e in es && e.text != t {
      var j :| 0 <= j < |es| && es[j] == e;
      assert es'[if j < r || Has(es, t) then j else j + 1] == e;
    }
    if e in es' {
      var i :| 0 <= i < |es'| && es'[i] == e;
      if i != r {
        assert e == es[if i < r || Has(es, t) then i else i - 1];
      }
    }
  }

  lemma PutKeepsSorted(es: seq<Entry>, t: string, v: Bytes)
    requires Sorted(es)
    ensures Sorted(Put(es, t, v))
  {
    LowerSplits(es, t);
  }

  lemma PutContents(es: seq<Entry>, k: Bytes, v: Bytes)
    requires Valid(es)
    ensures Valid(Put(es, Encode(k), v)) && Contents(Put(es, Encode(k), v)) == Contents(es)[k := v]
  {
    var t := Encode(k);
    var es', c := Put(es, t, v), Contents(es)[k := v];
    PutKeepsSorted(es, t, v);
    RoundTrip(k);
    forall i | 0 <= i < |es'|
      ensures IsKey(es'[i])
    {
      PutEntries(es, t, v, es'[i]);
    }
    forall x, w
      ensures Entry(Encode(x), w) in es' <==> x in c && c[x] == w
    {
      PutEntries(es, t, v, Entry(Encode(x), w));
      ContentsExactly(es, x, w);
      if Encode(x) == t {
        EncodeInjective(x, k);
      }
    }
    SameContents(es', c);
  }

  lemma EraseEntries(es: seq<Entry>, t: string, e: Entry)
    requires Sorted(es)
    ensures e in Erase(es, t) <==> e in es && e.text != t
  {
    var r, es' := LowerBound(es, t), Erase(es, t);
    LowerSplits(es, t);
    TextIrreflexive(t);
    if e in es && e.text != t {
      var j :| 0 <= j < |es| && es[j] == e;
      assert es'[if j < r || !Has(es, t) then j else j - 1] == e;
    }
    if e in es' {
      var i :| 0 <= i < |es'| && es'[i] == e;
      assert e == es[if i < r || !Has(es, t) then i else i + 1];
    }
  }

  lemma EraseKeepsSorted(es: seq<Entry>, t: string)
    requires Sorted(es)
    ensures Sorted(Erase(es, t))
  {
  }

  lemma EraseContents(es: seq<Entry>, k: Bytes)
    requires Valid(es)
    ensures Valid(Erase(es, Encode(k))) && Contents(Erase(es, Encode(k))) == Contents(es) - {k}
  {
    var t := Encode(k);
    var es', c := Erase(es, t), Contents(es) - {k};
    EraseKeepsSorted(es, t);
    forall i | 0 <= i < |es'|
      ensures IsKey(es'[i])
    {
      EraseEntries(es, t, es'[i]);
    }
    forall x, w
      ensures Entry(Encode(x), w) in es' <==> x in c && c[x] == w
    {
      EraseEntries(es, t, Entry(Encode(x), w));
      ContentsExactly(es, x, w);
      if Encode(x) == t {
        EncodeInjective(x, k);
      }
    }
    SameContents(es', c);
  }

  /** The number of bytes in all the values. */
  function Total(es: seq<Entry>): nat {
    if es == [] then 0 else Total(es[..|es| - 1]) + |es[|es| - 1].value|
  }

  lemma {:induction false} TotalConcat(a: seq<Entry>, b: seq<Entry>)
    ensures Total(a + b) == Total(a) + Total(b)
  {
    if b == [] {
      assert a + b == a;
    } else {
      TotalConcat(a, b[..|b| - 1]);
      assert (a + b)[..|a + b| - 1] == a + b[..|b| - 1];
    }
  }

  lemma TotalSplit(es: seq<Entry>, r: nat)
    requires r < |es|
    ensures Total(es) == Total(es[..r]) + |es[r].value| + Total(es[r + 1..])
  {
    TotalConcat(es[..r + 1], es[r + 1..]);
    assert es == es[..r + 1] + es[r + 1..];
    assert es[..r + 1][..r] == es[..r];
  }

  lemma PutTotal(es: seq<Entry>, t: string, v: Bytes)
    ensures var r := LowerBound(es, t);
            Total(Put(es, t, v)) == Total(es) + |v| - (if Has(es, t) then |es[r].value| else 0)
  {
    var r, es' := LowerBound(es, t), Put(es, t, v);
    TotalSplit(es', r);
    assert es'[..r] == es[..r];
    if Has(es, t) {
      TotalSplit(es, r);
      assert es'[r + 1..] == es[r + 1..];
    } else {
      assert es'[r + 1..] == es[r..] && es == es[..r] + es[r..];
      TotalConcat(es[..r], es[r..]);
    }
  }

  lemma EraseTotal(es: seq<Entry>, t: string)
    ensures var r := LowerBound(es, t);
            Total(Erase(es, t)) == Total(es) - (if Has(es, t) then |es[r].value| else 0)
  {
    var r := LowerBound(es, t);
    if Has(es, t) {
      TotalSplit(es, r);
      TotalConcat(es[..r], es[r + 1..]);
    }
  }
}
