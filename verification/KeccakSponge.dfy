/** The streaming Keccak-256 hash: bytes go into the state one at a time. The reference is the sponge
    construction of FIPS 202 section 4 over whole padded blocks, with Keccak's original padding.
    Both are stated over any word type that adds like exclusive-or and any permutation. */
module Sponge {

  const BLOCK := 136
  const HASH := 32

  /** The operations on words: `place` puts a byte at byte position `k`, `pick` reads it. */
  datatype Words<!W> = Words(
    zero: W,
    add: (W, W) -> W,
    place: (bv8, nat) -> W,
    pick: (W, nat) -> bv8,
    permute: seq<W> -> seq<W>)

  /** Marks the three words on which associativity is used. */
  predicate Regrouped<W>(u: W, v: W, w: W) {
    true
  }

  ghost predicate Associates<W(!new)>(ops: Words<W>) {
    forall u, v, w {:trigger Regrouped(u, v, w)} ::
      Regrouped(u, v, w) ==> ops.add(ops.add(u, v), w) == ops.add(u, ops.add(v, w))
  }

  ghost predicate Lawful<W(!new)>(ops: Words<W>) {
    && Associates(ops)
    && (forall u :: ops.add(u, ops.zero) == u)
    && (forall k :: 0 <= k < 8 ==> ops.place(0, k) == ops.zero)
    && (forall k :: 0 <= k < 8 ==> ops.add(ops.place(0x01, k), ops.place(0x80, k)) == ops.place(0x81, k))
    && (forall a :: |a| == 25 ==> |ops.permute(a)| == 25)
  }

  function Zeros<W>(ops: Words<W>): (a: seq<W>)
    ensures |a| == 25
  {
    seq(25, _ => ops.zero)
  }

  // ---------- the streaming hash ----------

  /** The state with byte `b` added at byte offset `off`. */
  function AddByte<W>(ops: Words<W>, a: seq<W>, off: nat, b: bv8): (r: seq<W>)
    requires |a| == 25 && off < BLOCK
    ensures |r| == 25
  {
    a[off / 8 := ops.add(a[off / 8], ops.place(b, off % 8))]
  }

  datatype State<W> = State(lanes: seq<W>, off: nat) {
    predicate Valid() {
      |lanes| == 25 && off < BLOCK
    }
  }

  function Update<W(!new)>(ops: Words<W>, s: State<W>, b: bv8): (r: State<W>)
    requires Lawful(ops) && s.Valid()
    ensures r.Valid()
  {
    var lanes := AddByte(ops, s.lanes, s.off, b);
    if s.off + 1 == BLOCK then State(ops.permute(lanes), 0) else State(lanes, s.off + 1)
  }

  /** The state after the first `n` bytes of `m`. */
  function UpdateFirst<W(!new)>(ops: Words<W>, s: State<W>, m: seq<bv8>, n: nat): (r: State<W>)
    requires Lawful(ops) && s.Valid() && n <= |m|
    ensures r.Valid()
  {
    if n == 0 then s else Update(ops, UpdateFirst(ops, s, m, n - 1), m[n - 1])
  }

  function UpdateAll<W(!new)>(ops: Words<W>, s: State<W>, m: seq<bv8>): (r: State<W>)
    requires Lawful(ops) && s.Valid()
    ensures r.Valid()
  {
    UpdateFirst(ops, s, m, |m|)
  }

  function Digest<W>(ops: Words<W>, a: seq<W>): (h: seq<bv8>)
    requires |a| == 25
    ensures |h| == HASH
  {
    seq(HASH, i requires 0 <= i < HASH => ops.pick(a[i / 8], i % 8))
  }

  /** The state with the two padding bits added. */
  function Padded<W>(ops: Words<W>, s: State<W>): (r: seq<W>)
    requires s.Valid()
    ensures |r| == 25
  {
    AddByte(ops, AddByte(ops, s.lanes, s.off, 0x01), BLOCK - 1, 0x80)
  }

  function Finalize<W(!new)>(ops: Words<W>, s: State<W>): seq<bv8>
    requires Lawful(ops) && s.Valid()
  {
    Digest(ops, ops.permute(Padded(ops, s)))
  }

  // ---------- the reference ----------

  /** The sum of the first `c` bytes of the word that starts at `i`, each in its place. */
  function WordSum<W>(ops: Words<W>, p: seq<bv8>, i: nat, c: nat): W
    requires i + c <= |p|
  {
    if c == 0 then ops.zero else ops.add(WordSum(ops, p, i, c - 1), ops.place(p[i + c - 1], c - 1))
  }

  /** The state with the seventeen words of the block at `at` added; the last eight lanes stay. */
  function AddBlock<W>(ops: Words<W>, a: seq<W>, p: seq<bv8>, at: nat): (r: seq<W>)
    requires |a| == 25 && at + BLOCK <= |p|
    ensures |r| == 25
  {
    seq(25, j requires 0 <= j < 25 =>
      if j < 17 then ops.add(a[j], WordSum(ops, p, at + 8 * j, 8)) else a[j])
  }

  /** The state after the first `k` blocks of `p`. */
  function AbsorbBlocks<W(!new)>(ops: Words<W>, p: seq<bv8>, k: nat): (r: seq<W>)
    requires Lawful(ops) && BLOCK * k <= |p|
    ensures |r| == 25
  {
    if k == 0 then Zeros(ops) else ops.permute(AddBlock(ops, AbsorbBlocks(ops, p, k - 1), p, BLOCK * (k - 1)))
  }

  /** The message followed by a 1 bit, zeros and a 1 bit, least significant bit of a byte first. */
  function Pad(m: seq<bv8>): (p: seq<bv8>)
    ensures |p| == BLOCK * (|m| / BLOCK + 1)
  {
    var q := BLOCK - |m| % BLOCK;
    if q == 1 then m + [0x81] else m + [0x01] + seq(q - 2, _ => 0) + [0x80]
  }

  function Hash<W(!new)>(ops: Words<W>, m: seq<bv8>): seq<bv8>
    requires Lawful(ops)
  {
    Digest(ops, AbsorbBlocks(ops, Pad(m), |m| / BLOCK + 1))
  }

  // ---------- a block added byte by byte ----------

  /** The state with the first `n` bytes of the block at `at` added one at a time. */
  function AddFirst<W>(ops: Words<W>, a: seq<W>, p: seq<bv8>, at: nat, n: nat): (r: seq<W>)
    requires |a| == 25 && n <= BLOCK && at + n <= |p|
    ensures |r| == 25
  {
    if n == 0 then a else AddByte(ops, AddFirst(ops, a, p, at, n - 1), n - 1, p[at + n - 1])
  }

  /** How many of the first `n` bytes of a block fall into lane `j`. */
  function Share(n: nat, j: nat): (c: nat)
    ensures c <= 8 && (0 < c ==> 8 * j + c <= n)
  {
    if n <= 8 * j then 0 else if n <= 8 * j + 8 then n - 8 * j else 8
  }

  lemma WordSumGrows<W(!new)>(ops: Words<W>, u: W, p: seq<bv8>, i: nat, c: nat)
    requires Associates(ops) && i + c < |p|
    ensures ops.add(ops.add(u, WordSum(ops, p, i, c)), ops.place(p[i + c], c)) == ops.add(u, WordSum(ops, p, i, c + 1))
  {
    assert Regrouped(u, WordSum(ops, p, i, c), ops.place(p[i + c], c));
  }

  /** After `n` bytes, lane `j` has gained the bytes that fall into it. */
  predicate LaneGained<W(==)>(ops: Words<W>, a: seq<W>, p: seq<bv8>, at: nat, n: nat, j: nat)
    requires |a| == 25 && n <= BLOCK && at + BLOCK <= |p| && j < 17
  {
    AddFirst(ops, a, p, at, n)[j] == ops.add(a[j], WordSum(ops, p, at + 8 * j, Share(n, j)))
  }

  lemma LaneHit<W(!new)>(ops: Words<W>, a: seq<W>, p: seq<bv8>, at: nat, j: nat, c: nat)
    requires Associates(ops) && |a| == 25 && at + BLOCK <= |p| && j < 17 && c < 8
    requires LaneGained(ops, a, p, at, 8 * j + c, j)
    ensures LaneGained(ops, a, p, at, 8 * j + c + 1, j)
  {
    assert (8 * j + c) / 8 == j && (8 * j + c) % 8 == c;
    WordSumGrows(ops, a[j], p, at + 8 * j, c);
  }

  lemma LaneMissed<W>(ops: Words<W>, a: seq<W>, p: seq<bv8>, at: nat, n: nat, j: nat)
    requires |a| == 25 && n < BLOCK && at + BLOCK <= |p| && j < 17 && !(8 * j <= n < 8 * j + 8)
    requires LaneGained(ops, a, p, at, n, j)
    ensures LaneGained(ops, a, p, at, n + 1, j)
  {
    assert n / 8 != j && Share(n + 1, j) == Share(n, j);
  }

  lemma {:induction false} AddFirstLane<W(!new)>(ops: Words<W>, a: seq<W>, p: seq<bv8>, at: nat, n: nat, j: nat)
    requires Lawful(ops) && |a| == 25 && n <= BLOCK && at + BLOCK <= |p| && j < 17
    ensures LaneGained(ops, a, p, at, n, j)
  {
    if n == 0 {
      assert AddFirst(ops, a, p, at, 0)[j] == a[j] == ops.add(a[j], WordSum(ops, p, at + 8 * j, 0));
    } else {
      AddFirstLane(ops, a, p, at, n - 1, j);
      if 8 * j <= n - 1 < 8 * j + 8 {
        LaneHit(ops, a, p, at, j, n - 1 - 8 * j);
      } else {
        LaneMissed(ops, a, p, at, n - 1, j);
      }
    }
  }

  lemma {:induction false} AddFirstKeepsCapacity<W>(ops: Words<W>, a: seq<W>, p: seq<bv8>, at: nat, n: nat, j: nat)
    requires |a| == 25 && n <= BLOCK && at + n <= |p| && 17 <= j < 25
    ensures AddFirst(ops, a, p, at, n)[j] == a[j]
  {
    if n > 0 {
      AddFirstKeepsCapacity(ops, a, p, at, n - 1, j);
    }
  }

  /** Adding the bytes of a block one at a time adds its words to the lanes. */
  lemma AddFirstIsAddBlock<W(!new)>(ops: Words<W>, a: seq<W>, p: seq<bv8>, at: nat)
    requires Lawful(ops) && |a| == 25 && at + BLOCK <= |p|
    ensures AddFirst(ops, a, p, at, BLOCK) == AddBlock(ops, a, p, at)
  {
    forall j | 0 <= j < 25
      ensures AddFirst(ops, a, p, at, BLOCK)[j] == AddBlock(ops, a, p, at)[j]
    {
      if j < 17 {
        AddFirstLane(ops, a, p, at, BLOCK, j);
      } else {
        AddFirstKeepsCapacity(ops, a, p, at, BLOCK, j);
      }
    }
  }

  // ---------- streaming is the sponge ----------

  function Fresh<W>(ops: Words<W>): (s: State<W>)
    ensures s.Valid()
  {
    State(Zeros(ops), 0)
  }

  lemma NextOffset(n: nat)
    ensures n % BLOCK + 1 == BLOCK ==> (n + 1) / BLOCK == n / BLOCK + 1 && (n + 1) % BLOCK == 0
    ensures n % BLOCK + 1 < BLOCK ==> (n + 1) / BLOCK == n / BLOCK && (n + 1) % BLOCK == n % BLOCK + 1
    ensures n == BLOCK * (n / BLOCK) + n % BLOCK
  {
  }

  /** What the state holds after `n` bytes: every full block absorbed, the rest added to the lanes. */
  function Streamed<W(!new)>(ops: Words<W>, m: seq<bv8>, n: nat): State<W>
    requires Lawful(ops) && n <= |m|
  {
    NextOffset(n);
    State(AddFirst(ops, AbsorbBlocks(ops, m, n / BLOCK), m, BLOCK * (n / BLOCK), n % BLOCK), n % BLOCK)
  }

  lemma StreamedGrows<W(!new)>(ops: Words<W>, m: seq<bv8>, n: nat)
    requires Lawful(ops) && n < |m|
    ensures Streamed(ops, m, n).Valid() && Update(ops, Streamed(ops, m, n), m[n]) == Streamed(ops, m, n + 1)
  {
    NextOffset(n);
    if n % BLOCK + 1 == BLOCK {
      AddFirstIsAddBlock(ops, AbsorbBlocks(ops, m, n / BLOCK), m, BLOCK * (n / BLOCK));
    }
  }

  /** The byte-wise state after `n` bytes is the streamed one. */
  ghost predicate StreamsTo<W(!new)>(ops: Words<W>, m: seq<bv8>, n: nat)
    requires Lawful(ops) && n <= |m|
  {
    UpdateFirst(ops, Fresh(ops), m, n) == Streamed(ops, m, n)
  }

  lemma StreamStarts<W(!new)>(ops: Words<W>, m: seq<bv8>)
    requires Lawful(ops)
    ensures StreamsTo(ops, m, 0)
  {
  }

  lemma StreamStep<W(!new)>(ops: Words<W>, m: seq<bv8>, n: nat)
    requires Lawful(ops) && n < |m| && StreamsTo(ops, m, n)
    ensures StreamsTo(ops, m, n + 1)
  {
    StreamedGrows(ops, m, n);
  }

  lemma {:induction false} UpdateStreams<W(!new)>(ops: Words<W>, m: seq<bv8>, n: nat)
    requires Lawful(ops) && n <= |m|
    ensures StreamsTo(ops, m, n)
  {
    if n == 0 {
      StreamStarts(ops, m);
    } else {
      UpdateStreams(ops, m, n - 1);
      StreamStep(ops, m, n - 1);
    }
  }

  lemma {:induction false} SamePrefixAdds<W>(ops: Words<W>, a: seq<W>, m: seq<bv8>, p: seq<bv8>, at: nat, n: nat)
    requires |a| == 25 && n <= BLOCK && at + n <= |m| && m <= p
    ensures AddFirst(ops, a, m, at, n) == AddFirst(ops, a, p, at, n)
  {
    if n > 0 {
      SamePrefixAdds(ops, a, m, p, at, n - 1);
    }
  }

  lemma {:induction false} SamePrefixAbsorbs<W(!new)>(ops: Words<W>, m: seq<bv8>, p: seq<bv8>, k: nat)
    requires Lawful(ops) && BLOCK * k <= |m| && m <= p
    ensures AbsorbBlocks(ops, m, k) == AbsorbBlocks(ops, p, k)
  {
    if k > 0 {
      SamePrefixAbsorbs(ops, m, p, k - 1);
      var a, at := AbsorbBlocks(ops, m, k - 1), BLOCK * (k - 1);
      SamePrefixAdds(ops, a, m, p, at, BLOCK);
      AddFirstIsAddBlock(ops, a, m, at);
      AddFirstIsAddBlock(ops, a, p, at);
    }
  }

  lemma AddZeroByte<W(!new)>(ops: Words<W>, a: seq<W>, off: nat)
    requires Lawful(ops) && |a| == 25 && off < BLOCK
    ensures AddByte(ops, a, off, 0) == a
  {
  }

  lemma {:induction false} ZerosAddNothing<W(!new)>(ops: Words<W>, a: seq<W>, p: seq<bv8>, at: nat, lo: nat, n: nat)
    requires Lawful(ops) && |a| == 25 && lo <= n <= BLOCK && at + n <= |p|
    requires forall i :: at + lo <= i < at + n ==> p[i] == 0
    ensures AddFirst(ops, a, p, at, n) == AddFirst(ops, a, p, at, lo)
  {
    if lo < n {
      ZerosAddNothing(ops, a, p, at, lo, n - 1);
      AddZeroByte(ops, AddFirst(ops, a, p, at, n - 1), n - 1);
    }
  }

  lemma PadBytes(m: seq<bv8>)
    ensures m <= Pad(m)
    ensures var o, p := |m| % BLOCK, Pad(m);
            if o == BLOCK - 1 then p[|m|] == 0x81
            else p[|m|] == 0x01 && p[|p| - 1] == 0x80 && forall i :: |m| < i < |p| - 1 ==> p[i] == 0
  {
  }

  lemma AddBothBits<W(!new)>(ops: Words<W>, a: seq<W>)
    requires Lawful(ops) && |a| == 25
    ensures AddByte(ops, AddByte(ops, a, BLOCK - 1, 0x01), BLOCK - 1, 0x80) == AddByte(ops, a, BLOCK - 1, 0x81)
  {
    assert Regrouped(a[16], ops.place(0x01, 7), ops.place(0x80, 7));
    assert ops.add(ops.place(0x01, 7), ops.place(0x80, 7)) == ops.place(0x81, 7);
  }

  lemma FullTail<W(!new)>(ops: Words<W>, a: seq<W>, p: seq<bv8>, at: nat)
    requires Lawful(ops) && |a| == 25 && at + BLOCK <= |p| && p[at + BLOCK - 1] == 0x81
    ensures AddFirst(ops, a, p, at, BLOCK) == Padded(ops, State(AddFirst(ops, a, p, at, BLOCK - 1), BLOCK - 1))
  {
    AddBothBits(ops, AddFirst(ops, a, p, at, BLOCK - 1));
  }

  lemma ShortTail<W(!new)>(ops: Words<W>, a: seq<W>, p: seq<bv8>, at: nat, o: nat)
    requires Lawful(ops) && |a| == 25 && at + BLOCK <= |p| && o < BLOCK - 1
    requires p[at + o] == 0x01 && p[at + BLOCK - 1] == 0x80
    requires forall i :: at + o < i < at + BLOCK - 1 ==> p[i] == 0
    ensures AddFirst(ops, a, p, at, BLOCK) == Padded(ops, State(AddFirst(ops, a, p, at, o), o))
  {
    ZerosAddNothing(ops, a, p, at, o + 1, BLOCK - 1);
    var b := AddFirst(ops, a, p, at, BLOCK - 1);
    assert b == AddByte(ops, AddFirst(ops, a, p, at, o), o, 0x01);
    assert AddFirst(ops, a, p, at, BLOCK) == AddByte(ops, b, BLOCK - 1, 0x80);
  }

  /** The last block of the padded message, added byte by byte, is the tail with both padding bits. */
  lemma LastBlock<W(!new)>(ops: Words<W>, a: seq<W>, m: seq<bv8>)
    requires Lawful(ops) && |a| == 25
    ensures var at, o := BLOCK * (|m| / BLOCK), |m| % BLOCK;
            AddFirst(ops, a, Pad(m), at, BLOCK) == Padded(ops, State(AddFirst(ops, a, Pad(m), at, o), o))
  {
    PadBytes(m);
    NextOffset(|m|);
    if |m| % BLOCK == BLOCK - 1 {
      FullTail(ops, a, Pad(m), BLOCK * (|m| / BLOCK));
    } else {
      ShortTail(ops, a, Pad(m), BLOCK * (|m| / BLOCK), |m| % BLOCK);
    }
  }

  /** Hashing a message byte by byte gives the sponge's digest of the padded message. */
  lemma StreamingIsSponge<W(!new)>(ops: Words<W>, m: seq<bv8>)
    requires Lawful(ops)
    ensures Finalize(ops, UpdateAll(ops, Fresh(ops), m)) == Hash(ops, m)
  {
    var k := |m| / BLOCK;
    var at, o, p := BLOCK * k, |m| % BLOCK, Pad(m);
    NextOffset(|m|);
    PadBytes(m);
    UpdateStreams(ops, m, |m|);
    SamePrefixAbsorbs(ops, m, p, k);
    var a := AbsorbBlocks(ops, p, k);
    SamePrefixAdds(ops, a, m, p, at, o);
    LastBlock(ops, a, m);
    AddFirstIsAddBlock(ops, a, p, at);
  }

  lemma {:induction false} UpdatePrefix<W(!new)>(ops: Words<W>, s: State<W>, a: seq<bv8>, b: seq<bv8>, n: nat)
    requires Lawful(ops) && s.Valid() && n <= |a|
    ensures UpdateFirst(ops, s, a + b, n) == UpdateFirst(ops, s, a, n)
  {
    if n > 0 {
      UpdatePrefix(ops, s, a, b, n - 1);
    }
  }

  lemma {:induction false} UpdateSuffix<W(!new)>(ops: Words<W>, s: State<W>, a: seq<bv8>, b: seq<bv8>, n: nat)
    requires Lawful(ops) && s.Valid() && n <= |b|
    ensures UpdateFirst(ops, s, a + b, |a| + n) == UpdateFirst(ops, UpdateAll(ops, s, a), b, n)
  {
    if n == 0 {
      UpdatePrefix(ops, s, a, b, |a|);
    } else {
      UpdateSuffix(ops, s, a, b, n - 1);
    }
  }

  /** However the input is cut into chunks, the state is the same. */
  lemma ChunksDoNotMatter<W(!new)>(ops: Words<W>, s: State<W>, a: seq<bv8>, b: seq<bv8>)
    requires Lawful(ops) && s.Valid()
    ensures UpdateAll(ops, UpdateAll(ops, s, a), b) == UpdateAll(ops, s, a + b)
  {
    UpdateSuffix(ops, s, a, b, |b|);
  }

  /** The length of a padded message's tail can be read back: the last nonzero byte ends it. */
  lemma PadInjective(m: seq<bv8>, m': seq<bv8>)
    requires Pad(m) == Pad(m')
    ensures m == m'
  {
    PadBytes(m);
    PadBytes(m');
    if |m| < |m'| {
      PadDiffers(m, m');
    } else if |m'| < |m| {
      PadDiffers(m', m);
    }
  }

  lemma PadDiffers(m: seq<bv8>, m': seq<bv8>)
    requires |m| < |m'|
    ensures Pad(m) != Pad(m')
  {
    PadBytes(m);
    PadBytes(m');
  }
}
