/** Keccak-256 itself: the streaming hash over 64-bit lanes and the Keccak-f[1600] permutation. */
module Keccak {
  import P = KeccakPermutation
  import S = Sponge

  function Xor(u: bv64, v: bv64): bv64 {
    u ^ v
  }

  /** Byte `b` as byte `k` of a little-endian word. */
  function ByteAt(b: bv8, k: nat): bv64 {
    var w := b as bv64;
    match k
    case 0 => w
    case 1 => w << 8
    case 2 => w << 16
    case 3 => w << 24
    case 4 => w << 32
    case 5 => w << 40
    case 6 => w << 48
    case _ => w << 56
  }

  /** Byte `k` of a little-endian word. */
  function ByteOf(w: bv64, k: nat): bv8 {
    match k
    case 0 => (w & 0xFF) as bv8
    case 1 => ((w >> 8) & 0xFF) as bv8
    case 2 => ((w >> 16) & 0xFF) as bv8
    case 3 => ((w >> 24) & 0xFF) as bv8
    case 4 => ((w >> 32) & 0xFF) as bv8
    case 5 => ((w >> 40) & 0xFF) as bv8
    case 6 => ((w >> 48) & 0xFF) as bv8
    case _ => ((w >> 56) & 0xFF) as bv8
  }

  function Permuted(a: seq<bv64>): (r: seq<bv64>)
    ensures |r| == |a|
  {
    if |a| == 25 then P.KeccakF(a) else a
  }

  const WORDS: S.Words<bv64> := S.Words(0, Xor, ByteAt, ByteOf, Permuted)

  lemma XorAssociates(u: bv64, v: bv64, w: bv64)
    ensures Xor(Xor(u, v), w) == Xor(u, Xor(v, w))
  {
    calc {
      Xor(Xor(u, v), w);
      Xor(u ^ v, w);
      (u ^ v) ^ w;
      { P.XorAssociates(u, v, w); }
      u ^ (v ^ w);
      Xor(u, v ^ w);
      Xor(u, Xor(v, w));
    }
  }

  lemma XorZero(u: bv64)
    ensures Xor(u, 0) == u
  {
  }

  lemma PaddingBytes(k: nat)
    ensures ByteAt(0, k) == 0
    ensures Xor(ByteAt(0x01, k), ByteAt(0x80, k)) == ByteAt(0x81, k)
  {
  }

  lemma WordsAssociate()
    ensures S.Associates(WORDS)
  {
    forall u: bv64, v: bv64, w: bv64 | S.Regrouped(u, v, w)
      ensures WORDS.add(WORDS.add(u, v), w) == WORDS.add(u, WORDS.add(v, w))
    {
      XorAssociates(u, v, w);
    }
  }

  lemma ZeroIsNeutral()
    ensures forall u :: WORDS.add(u, WORDS.zero) == u
  {
    forall u: bv64
      ensures WORDS.add(u, WORDS.zero) == u
    {
      XorZero(u);
    }
  }

  lemma PaddingAdds()
    ensures forall k :: 0 <= k < 8 ==> WORDS.place(0, k) == WORDS.zero
    ensures forall k :: 0 <= k < 8 ==> WORDS.add(WORDS.place(0x01, k), WORDS.place(0x80, k)) == WORDS.place(0x81, k)
  {
    forall k | 0 <= k < 8
      ensures WORDS.place(0, k) == WORDS.zero
      ensures WORDS.add(WORDS.place(0x01, k), WORDS.place(0x80, k)) == WORDS.place(0x81, k)
    {
      PaddingBytes(k);
    }
  }

  lemma PermutationKeepsLength()
    ensures forall a :: |a| == 25 ==> |WORDS.permute(a)| == 25
  {
  }

  /** The 64-bit words with exclusive-or meet every law the sponge needs. */
  lemma WordsAreLawful()
    ensures S.Lawful(WORDS)
  {
    WordsAssociate();
    ZeroIsNeutral();
    PaddingAdds();
    PermutationKeepsLength();
  }

  // ---------- words are little-endian ----------

  function Word(b0: bv8, b1: bv8, b2: bv8, b3: bv8, b4: bv8, b5: bv8, b6: bv8, b7: bv8): bv64 {
    (b0 as bv64) | ((b1 as bv64) << 8) | ((b2 as bv64) << 16) | ((b3 as bv64) << 24)
    | ((b4 as bv64) << 32) | ((b5 as bv64) << 40) | ((b6 as bv64) << 48) | ((b7 as bv64) << 56)
  }

  lemma WordIsSum(b0: bv8, b1: bv8, b2: bv8, b3: bv8, b4: bv8, b5: bv8, b6: bv8, b7: bv8)
    ensures Word(b0, b1, b2, b3, b4, b5, b6, b7) ==
            0 ^ (b0 as bv64) ^ ((b1 as bv64) << 8) ^ ((b2 as bv64) << 16) ^ ((b3 as bv64) << 24)
            ^ ((b4 as bv64) << 32) ^ ((b5 as bv64) << 40) ^ ((b6 as bv64) << 48) ^ ((b7 as bv64) << 56)
  {
  }

  lemma SumOfEight<W>(ops: S.Words<W>, p: seq<bv8>, i: nat)
    requires i + 8 <= |p|
    ensures var h := ops.add(ops.add(ops.add(ops.add(ops.zero, ops.place(p[i], 0)), ops.place(p[i + 1], 1)),
                                     ops.place(p[i + 2], 2)), ops.place(p[i + 3], 3));
            S.WordSum(ops, p, i, 8) ==
            ops.add(ops.add(ops.add(ops.add(h, ops.place(p[i + 4], 4)), ops.place(p[i + 5], 5)),
                            ops.place(p[i + 6], 6)), ops.place(p[i + 7], 7))
  {
    assert S.WordSum(ops, p, i, 1) == ops.add(ops.zero, ops.place(p[i], 0));
    assert S.WordSum(ops, p, i, 2) == ops.add(ops.add(ops.zero, ops.place(p[i], 0)), ops.place(p[i + 1], 1));
    assert S.WordSum(ops, p, i, 3) == ops.add(S.WordSum(ops, p, i, 2), ops.place(p[i + 2], 2));
    assert S.WordSum(ops, p, i, 4) ==
      ops.add(ops.add(S.WordSum(ops, p, i, 2), ops.place(p[i + 2], 2)), ops.place(p[i + 3], 3));
    assert S.WordSum(ops, p, i, 5) == ops.add(S.WordSum(ops, p, i, 4), ops.place(p[i + 4], 4));
    assert S.WordSum(ops, p, i, 6) ==
      ops.add(ops.add(S.WordSum(ops, p, i, 4), ops.place(p[i + 4], 4)), ops.place(p[i + 5], 5));
    assert S.WordSum(ops, p, i, 7) == ops.add(S.WordSum(ops, p, i, 6), ops.place(p[i + 6], 6));
    assert S.WordSum(ops, p, i, 8) ==
      ops.add(ops.add(S.WordSum(ops, p, i, 6), ops.place(p[i + 6], 6)), ops.place(p[i + 7], 7));
  }

  /** The words that a block adds to the lanes are its bytes read little-endian. */
  lemma BlocksAreLittleEndian(p: seq<bv8>, i: nat)
    requires i + 8 <= |p|
    ensures S.WordSum(WORDS, p, i, 8)
         == Word(p[i], p[i + 1], p[i + 2], p[i + 3], p[i + 4], p[i + 5], p[i + 6], p[i + 7])
  {
    SumOfEight(WORDS, p, i);
    WordIsSum(p[i], p[i + 1], p[i + 2], p[i + 3], p[i + 4], p[i + 5], p[i + 6], p[i + 7]);
  }

  lemma WordOfBytes(w: bv64)
    ensures Word(ByteOf(w, 0), ByteOf(w, 1), ByteOf(w, 2), ByteOf(w, 3),
                 ByteOf(w, 4), ByteOf(w, 5), ByteOf(w, 6), ByteOf(w, 7)) == w
  {
  }

  /** Reading the digest back as words gives the first four lanes. */
  lemma DigestIsLanes(a: seq<bv64>, j: nat)
    requires |a| == 25 && j < 4
    ensures var h := S.Digest(WORDS, a);
            Word(h[8 * j], h[8 * j + 1], h[8 * j + 2], h[8 * j + 3],
                 h[8 * j + 4], h[8 * j + 5], h[8 * j + 6], h[8 * j + 7]) == a[j]
  {
    WordOfBytes(a[j]);
  }

  // ---------- the hasher ----------

  /** One cell changed changes one lane. */
  lemma CellIsLane(a: array2<bv64>, was: P.Lanes, j: nat, w: bv64)
    requires P.Square(a) && j < 25 && a[j % 5, j / 5] == w
    requires forall x, y :: 0 <= x < 5 && 0 <= y < 5 && (x != j % 5 || y != j / 5) ==> a[x, y] == P.At(was, x, y)
    ensures P.View(a) == was[j := w]
  {
    forall x, y | 0 <= x < 5 && 0 <= y < 5
      ensures a[x, y] == P.At(was[j := w], x, y)
    {
      if x == j % 5 && y == j / 5 {
        assert x + 5 * y == j;
      }
    }
    P.ViewIs(a, was[j := w]);
  }

  class Hasher {
    const state: array2<bv64>
    var blockOff: nat

    ghost predicate Valid()
      reads this
    {
      P.Square(state) && blockOff < S.BLOCK
    }

    ghost function Value(): (s: S.State<bv64>)
      requires Valid()
      reads this, state
      ensures s.Valid()
    {
      S.State(P.View(state), blockOff)
    }

    constructor ()
      ensures Valid() && fresh(state)
      ensures Value() == S.Fresh(WORDS)
    {
      state := new bv64[5, 5]((_, _) => 0);
      blockOff := 0;
    }

    method AddToLane(j: nat, w: bv64)
      requires Valid() && j < 25
      modifies state
      ensures P.View(state) == old(P.View(state))[j := Xor(old(P.View(state))[j], w)]
    {
      ghost var was := P.View(state);
      P.HoldsView(state);
      assert state[j % 5, j / 5] == P.At(was, j % 5, j / 5);
      state[j % 5, j / 5] := Xor(state[j % 5, j / 5], w);
      CellIsLane(state, was, j, Xor(was[j], w));
    }

    /** Adds `b` at byte `off` of the state. */
    method AddByte(off: nat, b: bv8)
      requires Valid() && off < S.BLOCK
      modifies state
      ensures P.View(state) == S.AddByte(WORDS, old(P.View(state)), off, b)
    {
      AddToLane(off / 8, ByteAt(b, off % 8));
    }

    method Update(b: bv8)
      requires Valid()
      modifies this, state
      ensures Valid()
      ensures S.Lawful(WORDS) && Value() == S.Update(WORDS, old(Value()), b)
    {
      WordsAreLawful();
      AddByte(blockOff, b);
      blockOff := blockOff + 1;
      if blockOff == S.BLOCK {
        P.Permute(state);
        blockOff := 0;
      }
    }

    method UpdateBytes(m: seq<bv8>)
      requires Valid()
      modifies this, state
      ensures Valid()
      ensures S.Lawful(WORDS) && Value() == S.UpdateAll(WORDS, old(Value()), m)
    {
      WordsAreLawful();
      for i := 0 to |m|
        invariant Valid() && S.Lawful(WORDS)
        invariant Value() == S.UpdateFirst(WORDS, old(Value()), m, i)
      {
        Update(m[i]);
      }
    }

    method Finalize() returns (hash: seq<bv8>)
      requires Valid()
      modifies this, state
      ensures S.Lawful(WORDS) && hash == S.Finalize(WORDS, old(Value()))
    {
      WordsAreLawful();
      AddByte(blockOff, 0x01);
      blockOff := S.BLOCK - 1;
      AddByte(blockOff, 0x80);
      P.Permute(state);
      hash := Squeeze();
    }

    /** The first lanes of the state as bytes, each lane least significant byte first. */
    method Squeeze() returns (hash: seq<bv8>)
      requires Valid()
      ensures hash == S.Digest(WORDS, P.View(state))
    {
      hash := [];
      for i := 0 to S.HASH
        invariant |hash| == i
        invariant forall k :: 0 <= k < i ==> hash[k] == S.Digest(WORDS, P.View(state))[k]
      {
        var j := i / 8;
        P.ViewAt(state, j % 5, j / 5);
        hash := hash + [ByteOf(state[j % 5, j / 5], i % 8)];
      }
    }

    constructor Copy(other: Hasher)
      requires other.Valid()
      ensures Valid() && fresh(state)
      ensures Value() == other.Value()
    {
      state := new bv64[5, 5](
        (x, y) requires 0 <= x < 5 && 0 <= y < 5 && other.Valid() reads other, other.state => other.state[x, y]);
      blockOff := other.blockOff;
    }

    /** The digest so far; the hasher itself can go on taking input. */
    method Hash() returns (hash: seq<bv8>)
      requires Valid()
      ensures S.Lawful(WORDS) && hash == S.Finalize(WORDS, Value())
    {
      var copy := new Hasher.Copy(this);
      hash := copy.Finalize();
    }
  }

  /** One-shot hashing gives the Keccak-256 sponge digest of the message. */
  method HashOf(m: seq<bv8>) returns (hash: seq<bv8>)
    ensures S.Lawful(WORDS) && hash == S.Hash(WORDS, m)
  {
    var h := new Hasher();
    h.UpdateBytes(m);
    hash := h.Hash();
    S.StreamingIsSponge(WORDS, m);
  }
}
