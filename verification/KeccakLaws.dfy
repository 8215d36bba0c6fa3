/** The permutation and the sponge in the terms of FIPS 202, lane by lane and byte by byte. */
module KeccakLaws {
  import opened KeccakPermutation
  import K = Keccak
  import S = Sponge

  // ---------- one round ----------

  /** A rotation to the left doubles, and brings back what leaves at the top. */
  lemma RotatesLeft(w: bv64, n: bv8)
    requires n < 64
    ensures Rotl(w, 0) == w && Rotl(w, 1) == w + w + (w >> 63)
    ensures 0 < n ==> Rotl(w, n) == (w << n) | (w >> (64 - n))
  {
  }

  /** The partial sums of column x, from nothing to all five lanes. */
  predicate IsParity(a: Lanes, x: nat, sums: seq<bv64>)
    requires x < 5
  {
    |sums| == 6 && sums[0] == 0 && forall y :: 0 <= y < 5 ==> sums[y + 1] == sums[y] ^ a[x + 5 * y]
  }

  /** FIPS 202 section 3.2.1: each lane takes up the parities of the column to its left and of the column
      to its right, the latter rotated by one. */
  predicate ThetaLane(a: Lanes, left: bv64, right: bv64, t: Lanes, x: nat, y: nat)
    requires x < 5 && y < 5
  {
    t[x + 5 * y] == a[x + 5 * y] ^ (left ^ Rotl(right, 1))
  }

  /** Sections 3.2.2 and 3.2.3: lane (x, y) is rotated and goes to (y, 2x + 3y). */
  predicate RhoPiLane(t: Lanes, b: Lanes, x: nat, y: nat)
    requires x < 5 && y < 5
  {
    b[y + 5 * ((2 * x + 3 * y) % 5)] == Rotl(t[x + 5 * y], Offset(x, y))
  }

  /** Section 3.2.4. */
  predicate ChiLaneOf(b: Lanes, r: Lanes, x: nat, y: nat)
    requires x < 5 && y < 5
  {
    r[x + 5 * y] == b[x + 5 * y] ^ (!b[(x + 1) % 5 + 5 * y] & b[(x + 2) % 5 + 5 * y])
  }

  lemma {:induction false} ParityIsSum(a: Lanes, x: nat, sums: seq<bv64>, n: nat)
    requires x < 5 && n <= 5 && IsParity(a, x, sums)
    ensures ColumnSum(a, x, n) == sums[n]
  {
    if n > 0 {
      ParityIsSum(a, x, sums, n - 1);
      assert sums[n - 1 + 1] == sums[n - 1] ^ a[x + 5 * (n - 1)];
    }
  }

  lemma SumsAreParities(a: Lanes, x: nat, sums: seq<bv64>)
    requires x < 5 && IsParity(a, x, sums)
    ensures ColumnSums(a)[x] == sums[5]
  {
    ParityIsSum(a, x, sums, 5);
  }

  lemma ThetaIsFips(a: Lanes, x: nat, y: nat, left: seq<bv64>, right: seq<bv64>)
    requires x < 5 && y < 5 && IsParity(a, (x + 4) % 5, left) && IsParity(a, (x + 1) % 5, right)
    ensures ThetaLane(a, left[5], right[5], Theta(a), x, y)
  {
    AddSumsAt(a, ColumnSums(a), x, y);
    SumsAreParities(a, (x + 4) % 5, left);
    SumsAreParities(a, (x + 1) % 5, right);
  }

  lemma RhoPiIsFips(t: Lanes, x: nat, y: nat)
    requires x < 5 && y < 5
    ensures RhoPiLane(t, Pi(Rho(t)), x, y)
  {
    PiInverts(x, y);
    PiLane(Rho(t), y, (2 * x + 3 * y) % 5);
    RhoLane(t, x, y);
  }

  lemma ChiIsFips(b: Lanes, x: nat, y: nat)
    requires x < 5 && y < 5
    ensures ChiLaneOf(b, Chi(b), x, y)
  {
    ChiLane(b, x, y);
  }

  // ---------- all rounds ----------

  const CONSTANTS := EARLY + MIDDLE + LATE

  /** A round that ends by adding a constant to lane (0, 0). */
  function RoundWith(a: Lanes, k: bv64): Lanes {
    AddFirstLane(Chi(Pi(Rho(Theta(a)))), k)
  }

  function AddFirstLane(a: Lanes, k: bv64): Lanes {
    a[0 := a[0] ^ k]
  }

  /** One round for every constant, in order. */
  function Fold(a: Lanes, constants: seq<bv64>): Lanes {
    if constants == [] then a
    else RoundWith(Fold(a, constants[..|constants| - 1]), constants[|constants| - 1])
  }

  lemma RoundIsRoundWith(a: Lanes, i: nat)
    requires i < 24
    ensures Round(a, i) == RoundWith(a, CONSTANTS[i])
  {
    IotaIsConstant(Chi(Pi(Rho(Theta(a)))), i);
  }

  lemma IotaIsConstant(a: Lanes, i: nat)
    requires i < 24
    ensures Iota(a, i) == AddFirstLane(a, CONSTANTS[i])
  {
    IotaAddsPublished(a, i);
    ConstantsArePublished(i);
  }

  lemma ConstantsArePublished(i: nat)
    requires i < 24
    ensures |CONSTANTS| == 24 && CONSTANTS[i] == Published(i)
  {
  }

  lemma {:induction false} RoundsAreFold(a: Lanes, constants: seq<bv64>)
    requires |constants| <= 24 == |CONSTANTS| && forall i :: 0 <= i < |constants| ==> constants[i] == CONSTANTS[i]
    ensures Rounds(a, |constants|) == Fold(a, constants)
  {
    if constants != [] {
      var n := |constants| - 1;
      RoundsAreFold(a, constants[..n]);
      RoundIsRoundWith(Rounds(a, n), n);
    }
  }

  /** The permutation runs one round for each of the published constants, all 24 of them in order. */
  lemma PermutationIsFold(a: Lanes, constants: seq<bv64>)
    requires constants == EARLY + MIDDLE + LATE
    ensures |constants| == 24 && KeccakF(a) == Fold(a, constants)
  {
    ConstantsArePublished(0);
    RoundsAreFold(a, constants);
  }

  // ---------- the sponge ----------

  /** The padded message: whole blocks of 136 bytes, the message in front, then a 1 bit, zeros, and a 1 bit
      as the last. The two bits share a byte when only one is left. */
  lemma PadExactly(m: seq<bv8>, k: nat)
    ensures var p := S.Pad(m);
      && |p| % 136 == 0 && |m| < |p| <= |m| + 136 && p[..|m|] == m
      && (|m| <= k < |p| ==>
            p[k] == if k == |m| == |p| - 1 then 0x81 else if k == |m| then 0x01 else if k == |p| - 1 then 0x80 else 0)
  {
  }

  /** The state with block `k` of `p` added: seventeen words read little-endian, the last eight lanes kept. */
  ghost predicate IsAdded(a: seq<bv64>, p: seq<bv8>, k: nat, r: seq<bv64>) {
    && |a| == |r| == 25 && 136 * (k + 1) <= |p|
    && (forall j :: 0 <= j < 17 ==> LaneAdded(a, p, 136 * k, r, j))
    && (forall j :: 17 <= j < 25 ==> r[j] == a[j])
  }

  predicate LaneAdded(a: seq<bv64>, p: seq<bv8>, at: nat, r: seq<bv64>, j: nat)
    requires j < |a| == |r| && at + 8 * j + 8 <= |p|
  {
    var i := at + 8 * j;
    r[j] == K.Xor(a[j], K.Word(p[i], p[i + 1], p[i + 2], p[i + 3], p[i + 4], p[i + 5], p[i + 6], p[i + 7]))
  }

  lemma AddedIsBlock(a: seq<bv64>, p: seq<bv8>, k: nat, r: seq<bv64>)
    requires IsAdded(a, p, k, r)
    ensures S.AddBlock(K.WORDS, a, p, 136 * k) == r
  {
    forall j | 0 <= j < 25
      ensures S.AddBlock(K.WORDS, a, p, 136 * k)[j] == r[j]
    {
      if j < 17 {
        assert LaneAdded(a, p, 136 * k, r, j);
        K.BlocksAreLittleEndian(p, 136 * k + 8 * j);
      }
    }
  }

  /** Absorbing starts from zero, and takes up every block by adding it and running the permutation. */
  lemma AbsorbsByBlocks(p: seq<bv8>, k: nat, r: seq<bv64>)
    requires S.Lawful(K.WORDS) && 136 * (k + 1) <= |p|
    requires IsAdded(S.AbsorbBlocks(K.WORDS, p, k), p, k, r)
    ensures S.AbsorbBlocks(K.WORDS, p, 0) == seq(25, _ => 0)
    ensures S.AbsorbBlocks(K.WORDS, p, k + 1) == KeccakF(r)
  {
    AddedIsBlock(S.AbsorbBlocks(K.WORDS, p, k), p, k, r);
  }

  /** The digest is taken after the last block of the padded message. */
  lemma DigestIsAfterLast(m: seq<bv8>)
    requires S.Lawful(K.WORDS)
    ensures |S.Hash(K.WORDS, m)| == 32
    ensures S.Hash(K.WORDS, m) == S.Digest(K.WORDS, S.AbsorbBlocks(K.WORDS, S.Pad(m), |S.Pad(m)| / 136))
  {
    assert |S.Pad(m)| / 136 == |m| / S.BLOCK + 1;
  }
}
