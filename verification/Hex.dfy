/** Lower-case hexadecimal text of byte strings, and the two lexicographic orders it relates. */
module Hex {
  import opened Prelude

  type Byte = b: int | 0 <= b < 256
  type Bytes = seq<Byte>

  function Digit(d: int): char
    requires 0 <= d < 16
  {
    if d < 10 then '0' + d as char else 'a' + (d - 10) as char
  }

  /** The value of a hexadecimal digit of either case. */
  function Value(c: char): (r: Option<int>)
    ensures r.Some? ==> 0 <= r.value < 16
  {
    if '0' <= c <= '9' then Some(c as int - '0' as int)
    else if 'a' <= c <= 'f' then Some(c as int - 'a' as int + 10)
    else if 'A' <= c <= 'F' then Some(c as int - 'A' as int + 10)
    else None
  }

  function Encode(k: Bytes): string {
    if k == [] then "" else [Digit(k[0] / 16), Digit(k[0] % 16)] + Encode(k[1..])
  }

  function Decode(t: string): Option<Bytes> {
    if t == "" then Some([])
    else if |t| == 1 then None
    else
      var high, low, rest := Value(t[0]), Value(t[1]), Decode(t[2..]);
      if high.Some? && low.Some? && rest.Some? then Some([high.value * 16 + low.value] + rest.value) else None
  }

  lemma {:induction false} RoundTrip(k: Bytes)
    ensures Decode(Encode(k)) == Some(k)
  {
    if k == [] {
    } else {
      RoundTrip(k[1..]);
      assert Encode(k)[2..] == Encode(k[1..]);
      assert k == [k[0]] + k[1..];
    }
  }

  lemma EncodeInjective(a: Bytes, b: Bytes)
    requires Encode(a) == Encode(b)
    ensures a == b
  {
    RoundTrip(a);
    RoundTrip(b);
  }

  // ---------- the orders ----------

  predicate KeyLess(a: Bytes, b: Bytes) {
    b != [] && (a == [] || a[0] < b[0] || (a[0] == b[0] && KeyLess(a[1..], b[1..])))
  }

  predicate TextLess(a: string, b: string) {
    b != [] && (a == [] || a[0] < b[0] || (a[0] == b[0] && TextLess(a[1..], b[1..])))
  }

  lemma DigitKeepsOrder(d: int, e: int)
    requires 0 <= d < 16 && 0 <= e < 16
    ensures Digit(d) < Digit(e) <==> d < e
    ensures Digit(d) == Digit(e) <==> d == e
  {
  }

  lemma PairLess(p: char, q: char, a: string, r: char, s: char, b: string)
    ensures TextLess([p, q] + a, [r, s] + b) <==> p < r || (p == r && (q < s || (q == s && TextLess(a, b))))
  {
    assert ([p, q] + a)[1..] == [q] + a && ([r, s] + b)[1..] == [s] + b;
    assert ([q] + a)[1..] == a && ([s] + b)[1..] == b;
  }

  /** Hexadecimal text sorts as the bytes do. */
  lemma {:induction false} EncodeKeepsOrder(a: Bytes, b: Bytes)
    ensures TextLess(Encode(a), Encode(b)) <==> KeyLess(a, b)
  {
    if a != [] && b != [] {
      EncodeKeepsOrder(a[1..], b[1..]);
      DigitKeepsOrder(a[0] / 16, b[0] / 16);
      DigitKeepsOrder(a[0] % 16, b[0] % 16);
      PairLess(Digit(a[0] / 16), Digit(a[0] % 16), Encode(a[1..]), Digit(b[0] / 16), Digit(b[0] % 16), Encode(b[1..]));
    }
  }

  lemma {:induction false} TextTransitive(a: string, b: string, c: string)
    requires TextLess(a, b) && TextLess(b, c)
    ensures TextLess(a, c)
  {
    if a != [] && a[0] == b[0] == c[0] {
      TextTransitive(a[1..], b[1..], c[1..]);
    }
  }

  lemma {:induction false} TextIrreflexive(a: string)
    ensures !TextLess(a, a)
  {
    if a != [] {
      TextIrreflexive(a[1..]);
    }
  }

  lemma {:induction false} TextTotal(a: string, b: string)
    ensures TextLess(a, b) || a == b || TextLess(b, a)
  {
    if a != [] && b != [] && a[0] == b[0] {
      TextTotal(a[1..], b[1..]);
      assert a == [a[0]] + a[1..] && b == [b[0]] + b[1..];
    }
  }

  // ---------- in plain terms ----------

  const DIGITS := "0123456789abcdef"

  /** Each byte becomes two lower-case digits, the upper half first. */
  lemma {:induction false} EncodeAt(k: Bytes, i: nat)
    requires i < |k|
    ensures |Encode(k)| == 2 * |k|
    ensures Encode(k)[2 * i] == DIGITS[k[i] / 16] && Encode(k)[2 * i + 1] == DIGITS[k[i] % 16]
  {
    EncodeLength(k);
    DigitIs(k[i] / 16);
    DigitIs(k[i] % 16);
    if i > 0 {
      EncodeAt(k[1..], i - 1);
    }
  }

  lemma {:induction false} EncodeLength(k: Bytes)
    ensures |Encode(k)| == 2 * |k|
  {
    if k != [] {
      EncodeLength(k[1..]);
    }
  }

  lemma DigitIs(d: int)
    requires 0 <= d < 16
    ensures Digit(d) == DIGITS[d]
  {
  }

  /** The order of keys is lexicographic: after a common beginning, a proper beginning comes first and a
      smaller byte comes first. */
  ghost predicate Splits(a: Bytes, b: Bytes, i: nat) {
    && i <= |a| && i < |b| && a[..i] == b[..i]
    && (i < |a| ==> a[i] < b[i])
  }

  lemma SplitsFirst(a: Bytes, b: Bytes, i: nat)
    requires Splits(a, b, i)
    ensures i == 0 || (a != [] && a[0] == b[0])
  {
    assert 0 < i ==> a[..i][0] == a[0] && b[..i][0] == b[0];
  }

  lemma {:induction false} KeyLessExactly(a: Bytes, b: Bytes)
    ensures KeyLess(a, b) <==> exists i: nat :: Splits(a, b, i)
  {
    if a == [] || b == [] || a[0] != b[0] {
      if b != [] && (a == [] || a[0] < b[0]) {
        assert Splits(a, b, 0);
      }
      if i: nat :| Splits(a, b, i) {
        SplitsFirst(a, b, i);
      }
    } else {
      KeyLessExactly(a[1..], b[1..]);
      if i: nat :| Splits(a[1..], b[1..], i) {
        assert a[..i + 1] == [a[0]] + a[1..][..i] && b[..i + 1] == [b[0]] + b[1..][..i];
        assert Splits(a, b, i + 1);
      }
      if i: nat :| Splits(a, b, i) {
        assert a[1..][..i - 1] == a[..i][1..] && b[1..][..i - 1] == b[..i][1..];
        assert Splits(a[1..], b[1..], i - 1);
      }
    }
  }
}
