/** The Keccak-f[1600] permutation, once as the step mappings of FIPS 202 section 3.2 on a sequence of
    lanes, and once as the source's in-place loops. Lane (x, y) sits at position x + 5 * y. */
module KeccakPermutation {

  type Lanes = s: seq<bv64> | |s| == 25 witness seq(25, _ => 0)

  function At(a: Lanes, x: nat, y: nat): bv64
    requires x < 5 && y < 5
  {
    a[x + 5 * y]
  }

  /** A rotation by zero is the identity. */
  function Rotl(w: bv64, n: bv8): bv64
    requires n < 64
  {
    if n == 0 then w else (w << n) | (w >> (64 - n))
  }

  // ---------- the step mappings ----------

  /** The sum of the first `n` lanes of column x. */
  function ColumnSum(a: Lanes, x: nat, n: nat): bv64
    requires x < 5 && n <= 5
  {
    if n == 0 then 0 else ColumnSum(a, x, n - 1) ^ At(a, x, n - 1)
  }

  type Sums = s: seq<bv64> | |s| == 5 witness [0, 0, 0, 0, 0]

  function ColumnSums(a: Lanes): Sums {
    seq(5, x requires 0 <= x < 5 => ColumnSum(a, x, 5))
  }

  function ThetaAt(a: Lanes, c: Sums, x: nat, y: nat): bv64
    requires x < 5 && y < 5
  {
    At(a, x, y) ^ (c[(x + 4) % 5] ^ Rotl(c[(x + 1) % 5], 1))
  }

  function AddSums(a: Lanes, c: Sums): Lanes {
    seq(25, j requires 0 <= j < 25 => ThetaAt(a, c, j % 5, j / 5))
  }

  function Theta(a: Lanes): Lanes {
    AddSums(a, ColumnSums(a))
  }

  /** The row of rotation offsets of column x. */
  function OffsetRow(x: nat): (row: seq<bv8>)
    requires x < 5
    ensures |row| == 5 && forall y :: 0 <= y < 5 ==> row[y] < 64
  {
    match x
    case 0 => [0, 36, 3, 41, 18]
    case 1 => [1, 44, 10, 45, 2]
    case 2 => [62, 6, 43, 15, 61]
    case 3 => [28, 55, 25, 21, 56]
    case _ => [27, 20, 39, 8, 14]
  }

  function Offset(x: nat, y: nat): (r: bv8)
    requires x < 5 && y < 5
    ensures r < 64
  {
    OffsetRow(x)[y]
  }

  function Rho(a: Lanes): Lanes {
    seq(25, j requires 0 <= j < 25 => Rotl(a[j], Offset(j % 5, j / 5)))
  }

  /** The column whose lane the pi step moves to (x, y). */
  function Origin(x: nat, y: nat): (r: nat)
    requires x < 5 && y < 5
    ensures r < 5
  {
    (x + 3 * y) % 5
  }

  function Pi(a: Lanes): Lanes {
    seq(25, j requires 0 <= j < 25 => At(a, Origin(j % 5, j / 5), j % 5))
  }

  function ChiAt(a: Lanes, x: nat, y: nat): bv64
    requires x < 5 && y < 5
  {
    ChiMix(At(a, x, y), At(a, (x + 1) % 5, y), At(a, (x + 2) % 5, y))
  }

  function Chi(a: Lanes): Lanes {
    seq(25, j requires 0 <= j < 25 => ChiAt(a, j % 5, j / 5))
  }

  /** One step of the linear feedback shift register that drives the iota step. */
  function NextLfsr(r: bv8): bv8 {
    ((((r as bv16) << 1) ^ (((r as bv16) >> 7) * 0x171)) & 0xFF) as bv8
  }

  function Lfsr(r: bv8, n: nat): bv8 {
    if n == 0 then r else NextLfsr(Lfsr(r, n - 1))
  }

  /** The lowest bit of the register, moved to position 2^j - 1. */
  function IotaBit(r: bv8, j: nat): bv64
    requires j < 7
  {
    var bit := (r & 1) as bv64;
    match j
    case 0 => bit
    case 1 => bit << 1
    case 2 => bit << 3
    case 3 => bit << 7
    case 4 => bit << 15
    case 5 => bit << 31
    case _ => bit << 63
  }

  /** What the first `j` steps of one round's iota loop add to lane (0, 0). */
  function IotaBits(r: bv8, j: nat): bv64
    requires j <= 7
  {
    if j == 0 then 0 else IotaBits(r, j - 1) ^ IotaBit(Lfsr(r, j - 1), j - 1)
  }

  /** The register at the start of round `i`; it starts at 1 and takes seven steps a round. */
  function Register(i: nat): bv8 {
    if i == 0 then 1 else Lfsr(Register(i - 1), 7)
  }

  function Iota(a: Lanes, i: nat): Lanes {
    a[0 := a[0] ^ IotaBits(Register(i), 7)]
  }

  function Round(a: Lanes, i: nat): Lanes
  {
    Iota(Chi(Pi(Rho(Theta(a)))), i)
  }

  /** The first `n` rounds. */
  function Rounds(a: Lanes, n: nat): Lanes
  {
    if n == 0 then a else Round(Rounds(a, n - 1), n - 1)
  }

  function KeccakF(a: Lanes): Lanes {
    Rounds(a, 24)
  }

  // ---------- the rotation table and the round constants ----------

  type Lane = p: (nat, nat) | p.0 < 5 && p.1 < 5 witness (0, 0)

  function Onward(p: Lane): Lane {
    (p.1, (2 * p.0 + 3 * p.1) % 5)
  }

  /** The walk from lane (1, 0) that FIPS 202 section 3.2.2 uses to define the rotation offsets. */
  predicate IsWalk(walk: seq<Lane>) {
    |walk| == 24 && walk[0] == (1, 0) && forall t :: 0 < t < 24 ==> walk[t] == Onward(walk[t - 1])
  }

  /** The walk reaches every lane but the origin. */
  lemma WalkReaches(walk: seq<Lane>, p: Lane)
    requires IsWalk(walk) && p != (0, 0)
    ensures p in walk
  {
    assert walk[1] == (0, 2);
    assert walk[2] == (2, 1);
    assert walk[3] == (1, 2);
    assert walk[4] == (2, 3);
    assert walk[5] == (3, 3);
    assert walk[6] == (3, 0);
    assert walk[7] == (0, 1);
    assert walk[8] == (1, 3);
    assert walk[9] == (3, 1);
    assert walk[10] == (1, 4);
    assert walk[11] == (4, 4);
    assert walk[12] == (4, 0);
    assert walk[13] == (0, 3);
    assert walk[14] == (3, 4);
    assert walk[15] == (4, 3);
    assert walk[16] == (3, 2);
    assert walk[17] == (2, 2);
    assert walk[18] == (2, 0);
    assert walk[19] == (0, 4);
    assert walk[20] == (4, 2);
    assert walk[21] == (2, 4);
    assert walk[22] == (4, 1);
    assert walk[23] == (1, 1);
  }

  lemma OffsetAlongWalk(walk: seq<Lane>, t: nat)
    requires IsWalk(walk) && t < 24
    ensures Offset(walk[t].0, walk[t].1) as nat == (t + 1) * (t + 2) / 2 % 64
  {
    assert walk[1] == (0, 2);
    assert walk[2] == (2, 1);
    assert walk[3] == (1, 2);
    assert walk[4] == (2, 3);
    assert walk[5] == (3, 3);
    assert walk[6] == (3, 0);
    assert walk[7] == (0, 1);
    assert walk[8] == (1, 3);
    assert walk[9] == (3, 1);
    assert walk[10] == (1, 4);
    assert walk[11] == (4, 4);
    assert walk[12] == (4, 0);
    assert walk[13] == (0, 3);
    assert walk[14] == (3, 4);
    assert walk[15] == (4, 3);
    assert walk[16] == (3, 2);
    assert walk[17] == (2, 2);
    assert walk[18] == (2, 0);
    assert walk[19] == (0, 4);
    assert walk[20] == (4, 2);
    assert walk[21] == (2, 4);
    assert walk[22] == (4, 1);
    assert walk[23] == (1, 1);
  }

  /** The table holds the triangular numbers along the walk, which reaches every lane but the origin, and
      0 at the origin. */
  lemma RotationFollowsWalk(walk: seq<Lane>)
    requires IsWalk(walk)
    ensures forall t :: 0 <= t < 24 ==> Offset(walk[t].0, walk[t].1) as nat == (t + 1) * (t + 2) / 2 % 64
    ensures forall p: Lane :: p != (0, 0) ==> p in walk
    ensures Offset(0, 0) == 0
  {
    forall t | 0 <= t < 24
      ensures Offset(walk[t].0, walk[t].1) as nat == (t + 1) * (t + 2) / 2 % 64
    {
      OffsetAlongWalk(walk, t);
    }
    forall p: Lane | p != (0, 0)
      ensures p in walk
    {
      WalkReaches(walk, p);
    }
  }

  /** The registers at the starts of consecutive rounds, round 0 first. */
  predicate IsRegisterRun(rs: seq<bv8>) {
    |rs| == 25 && rs[0] == 1 && forall i :: 0 < i < 25 ==> rs[i] == Lfsr(rs[i - 1], 7)
  }

  lemma RegistersRun()
    ensures IsRegisterRun(seq(25, i requires 0 <= i => Register(i)))
  {
  }

  lemma EarlyConstants(rs: seq<bv8>)
    requires IsRegisterRun(rs)
    ensures IotaBits(rs[0], 7) == 0x0000000000000001
    ensures IotaBits(rs[1], 7) == 0x0000000000008082
    ensures IotaBits(rs[2], 7) == 0x800000000000808A
    ensures IotaBits(rs[3], 7) == 0x8000000080008000
    ensures IotaBits(rs[4], 7) == 0x000000000000808B
    ensures IotaBits(rs[5], 7) == 0x0000000080000001
    ensures IotaBits(rs[6], 7) == 0x8000000080008081
    ensures IotaBits(rs[7], 7) == 0x8000000000008009
    ensures rs[8] == 0xCA
  {
    assert rs[1] == 0x80;
    assert rs[2] == 0xD8;
    assert rs[3] == 0x1A;
    assert rs[4] == 0xDF;
    assert rs[5] == 0x09;
    assert rs[6] == 0x35;
    assert rs[7] == 0x4F;
    assert rs[8] == 0xCA;
  }

  lemma MiddleConstants(rs: seq<bv8>)
    requires IsRegisterRun(rs)
    ensures IotaBits(rs[8], 7) == 0x000000000000008A
    ensures IotaBits(rs[9], 7) == 0x0000000000000088
    ensures IotaBits(rs[10], 7) == 0x0000000080008009
    ensures IotaBits(rs[11], 7) == 0x000000008000000A
    ensures IotaBits(rs[12], 7) == 0x000000008000808B
    ensures IotaBits(rs[13], 7) == 0x800000000000008B
    ensures IotaBits(rs[14], 7) == 0x8000000000008089
    ensures IotaBits(rs[15], 7) == 0x8000000000008003
    ensures rs[16] == 0xAA
  {
    EarlyConstants(rs);
    assert rs[9] == 0x70;
    assert rs[10] == 0x41;
    assert rs[11] == 0xEC;
    assert rs[12] == 0xD5;
    assert rs[13] == 0xCD;
    assert rs[14] == 0x63;
    assert rs[15] == 0xAB;
    assert rs[16] == 0xAA;
  }

  lemma LateConstants(rs: seq<bv8>)
    requires IsRegisterRun(rs)
    ensures IotaBits(rs[16], 7) == 0x8000000000008002
    ensures IotaBits(rs[17], 7) == 0x8000000000000080
    ensures IotaBits(rs[18], 7) == 0x000000000000800A
    ensures IotaBits(rs[19], 7) == 0x800000008000000A
    ensures IotaBits(rs[20], 7) == 0x8000000080008081
    ensures IotaBits(rs[21], 7) == 0x8000000000008080
    ensures IotaBits(rs[22], 7) == 0x0000000080000001
    ensures IotaBits(rs[23], 7) == 0x8000000080008008
    ensures rs[24] == 0x8E
  {
    MiddleConstants(rs);
    assert rs[17] == 0x2A;
    assert rs[18] == 0xF2;
    assert rs[19] == 0xE8;
    assert rs[20] == 0x37;
    assert rs[21] == 0x3E;
    assert rs[22] == 0x0B;
    assert rs[23] == 0x44;
    assert rs[24] == 0x8E;
  }

  const EARLY: seq<bv64> := [
    0x0000000000000001, 0x0000000000008082, 0x800000000000808A, 0x8000000080008000,
    0x000000000000808B, 0x0000000080000001, 0x8000000080008081, 0x8000000000008009]

  const MIDDLE: seq<bv64> := [
    0x000000000000008A, 0x0000000000000088, 0x0000000080008009, 0x000000008000000A,
    0x000000008000808B, 0x800000000000008B, 0x8000000000008089, 0x8000000000008003]

  const LATE: seq<bv64> := [
    0x8000000000008002, 0x8000000000000080, 0x000000000000800A, 0x800000008000000A,
    0x8000000080008081, 0x8000000000008080, 0x0000000080000001, 0x8000000080008008]

  /** The round constants that FIPS 202 section 3.2.5 defines, as they are published. */
  function Published(i: nat): bv64
    requires i < 24
  {
    if i < 8 then EARLY[i] else if i < 16 then MIDDLE[i - 8] else LATE[i - 16]
  }

  lemma EarlyPublished(rs: seq<bv8>, i: nat)
    requires IsRegisterRun(rs) && 0 <= i < 8
    ensures IotaBits(rs[i], 7) == Published(i)
  {
    EarlyConstants(rs);
  }

  lemma MiddlePublished(rs: seq<bv8>, i: nat)
    requires IsRegisterRun(rs) && 8 <= i < 16
    ensures IotaBits(rs[i], 7) == Published(i)
  {
    MiddleConstants(rs);
  }

  lemma LatePublished(rs: seq<bv8>, i: nat)
    requires IsRegisterRun(rs) && 16 <= i < 24
    ensures IotaBits(rs[i], 7) == Published(i)
  {
    LateConstants(rs);
  }

  /** The iota step adds exactly the published constant of its round. */
  lemma IotaAddsPublished(a: Lanes, i: nat)
    requires i < 24
    ensures IotaBits(Register(i), 7) == Published(i)
    ensures Iota(a, i) == a[0 := a[0] ^ Published(i)]
  {
    var rs: seq<bv8> := seq(25, k requires 0 <= k => Register(k));
    RegistersRun();
    assert rs[i] == Register(i);
    if i < 8 {
      EarlyPublished(rs, i);
    } else if i < 16 {
      MiddlePublished(rs, i);
    } else {
      LatePublished(rs, i);
    }
  }

  // ---------- the loops ----------

  predicate Square(a: array2<bv64>) {
    a.Length0 == 5 && a.Length1 == 5
  }

  ghost function View(a: array2<bv64>): Lanes
    requires Square(a)
    reads a
  {
    seq(25, j requires 0 <= j < 25 reads a => a[j % 5, j / 5])
  }

  lemma ViewAt(a: array2<bv64>, x: nat, y: nat)
    requires Square(a) && x < 5 && y < 5
    ensures At(View(a), x, y) == a[x, y]
  {
    assert (x + 5 * y) % 5 == x && (x + 5 * y) / 5 == y;
  }

  /** The cells of `a` hold the lanes `s` in every column below `n`. */
  ghost predicate Holds(a: array2<bv64>, s: Lanes, n: nat)
    requires Square(a) && n <= 5
    reads a
  {
    forall x, y :: 0 <= x < n && 0 <= y < 5 ==> a[x, y] == At(s, x, y)
  }

  /** The cells of `a` hold the lanes `s` in every column from `n` on. */
  ghost predicate StillHolds(a: array2<bv64>, s: Lanes, n: nat)
    requires Square(a) && n <= 5
    reads a
  {
    forall x, y :: n <= x < 5 && 0 <= y < 5 ==> a[x, y] == At(s, x, y)
  }

  lemma HoldsView(a: array2<bv64>)
    requires Square(a)
    ensures StillHolds(a, View(a), 0)
  {
    forall x, y | 0 <= x < 5 && 0 <= y < 5
      ensures a[x, y] == At(View(a), x, y)
    {
      ViewAt(a, x, y);
    }
  }

  lemma ViewIs(a: array2<bv64>, s: Lanes)
    requires Square(a) && Holds(a, s, 5)
    ensures View(a) == s
  {
    forall j | 0 <= j < 25
      ensures View(a)[j] == s[j]
    {
      assert a[j % 5, j / 5] == At(s, j % 5, j / 5);
    }
  }

  /** Adds column x of `a` to `c[x]`. */
  method SumColumn(a: array2<bv64>, c: array<bv64>, x: nat)
    requires Square(a) && c.Length == 5 && x < 5 && c[x] == 0
    modifies c
    ensures c[x] == ColumnSum(View(a), x, 5)
    ensures forall u :: 0 <= u < 5 && u != x ==> c[u] == old(c[u])
  {
    for y := 0 to 5
      invariant c[x] == ColumnSum(View(a), x, y)
      invariant forall u :: 0 <= u < 5 && u != x ==> c[u] == old(c[u])
    {
      ViewAt(a, x, y);
      c[x] := c[x] ^ a[x, y];
    }
  }

  method Columns(a: array2<bv64>) returns (c: array<bv64>)
    requires Square(a)
    ensures c.Length == 5 && fresh(c)
    ensures c[..] == ColumnSums(View(a))
  {
    c := new bv64[5](_ => 0);
    ghost var sums := ColumnSums(View(a));
    for x := 0 to 5
      invariant ColumnSums(View(a)) == sums
      invariant forall u :: 0 <= u < x ==> c[u] == sums[u]
      invariant forall u :: x <= u < 5 ==> c[u] == 0
    {
      SumColumn(a, c, x);
    }
  }

  method AddToColumn(a: array2<bv64>, x: nat, d: bv64)
    requires Square(a) && x < 5
    modifies a
    ensures forall y :: 0 <= y < 5 ==> a[x, y] == old(a[x, y]) ^ d
    ensures forall x', y :: 0 <= x' < 5 && 0 <= y < 5 && x' != x ==> a[x', y] == old(a[x', y])
  {
    for y := 0 to 5
      invariant forall y' :: 0 <= y' < y ==> a[x, y'] == old(a[x, y']) ^ d
      invariant forall y' :: y <= y' < 5 ==> a[x, y'] == old(a[x, y'])
      invariant forall x', y' :: 0 <= x' < 5 && 0 <= y' < 5 && x' != x ==> a[x', y'] == old(a[x', y'])
    {
      a[x, y] := a[x, y] ^ d;
    }
  }

  lemma AddSumsAt(a: Lanes, c: Sums, x: nat, y: nat)
    requires x < 5 && y < 5
    ensures At(AddSums(a, c), x, y) == ThetaAt(a, c, x, y)
  {
    assert (x + 5 * y) % 5 == x && (x + 5 * y) / 5 == y;
  }

  method AddColumns(a: array2<bv64>, c: array<bv64>)
    requires Square(a) && c.Length == 5
    modifies a
    ensures View(a) == AddSums(old(View(a)), c[..])
  {
    ghost var was := View(a);
    ghost var sums := c[..];
    HoldsView(a);
    for x := 0 to 5
      invariant c[..] == sums
      invariant Holds(a, AddSums(was, sums), x) && StillHolds(a, was, x)
    {
      AddToColumn(a, x, c[(x + 4) % 5] ^ Rotl(c[(x + 1) % 5], 1));
      forall y | 0 <= y < 5
        ensures a[x, y] == At(AddSums(was, sums), x, y)
      {
        AddSumsAt(was, sums, x, y);
      }
    }
    ViewIs(a, AddSums(was, sums));
  }

  method ThetaStep(a: array2<bv64>)
    requires Square(a)
    modifies a
    ensures View(a) == Theta(old(View(a)))
  {
    var c := Columns(a);
    AddColumns(a, c);
  }

  lemma RemainderIs(n: int, k: int, r: nat)
    requires n == 5 * k + r && r < 5
    ensures n % 5 == r
  {
  }

  /** The target index of the source's combined rho and pi loop inverts the index of the pi mapping. */
  lemma PiInverts(x: nat, y: nat)
    requires x < 5 && y < 5
    ensures (2 * Origin(x, y) + 3 * x) % 5 == y
    ensures Origin(y, (2 * x + 3 * y) % 5) == x
  {
    var p, q := (x + 3 * y) / 5, (2 * x + 3 * y) / 5;
    RemainderIs(2 * Origin(x, y) + 3 * x, x + y - 2 * p, y);
    RemainderIs(y + 3 * ((2 * x + 3 * y) % 5), x + 2 * y - 3 * q, x);
  }

  lemma RhoLane(a: Lanes, x: nat, y: nat)
    requires x < 5 && y < 5
    ensures At(Rho(a), x, y) == Rotl(At(a, x, y), Offset(x, y))
  {
    assert (x + 5 * y) % 5 == x && (x + 5 * y) / 5 == y;
  }

  lemma PiLane(a: Lanes, x: nat, y: nat)
    requires x < 5 && y < 5
    ensures At(Pi(a), x, y) == At(a, Origin(x, y), x)
  {
    assert (x + 5 * y) % 5 == x && (x + 5 * y) / 5 == y;
  }

  /** Where the combined rho and pi loop stores lane (x, y): row of column y. */
  function Target(x: nat, y: nat): (v: nat)
    requires x < 5 && y < 5
    ensures v < 5
  {
    (2 * x + 3 * y) % 5
  }

  method RhoPiColumn(a: array2<bv64>, b: array2<bv64>, x: nat)
    requires Square(a) && Square(b) && a != b && x < 5
    modifies b
    ensures forall y :: 0 <= y < 5 ==> b[y, Target(x, y)] == Rotl(a[x, y], Offset(x, y))
    ensures forall u, v :: 0 <= u < 5 && 0 <= v < 5 && v != Target(x, u) ==> b[u, v] == old(b[u, v])
  {
    for y := 0 to 5
      invariant forall y' :: 0 <= y' < y ==> b[y', Target(x, y')] == Rotl(a[x, y'], Offset(x, y'))
      invariant forall u, v :: 0 <= u < 5 && 0 <= v < 5 && v != Target(x, u) ==> b[u, v] == old(b[u, v])
    {
      b[y, Target(x, y)] := Rotl(a[x, y], Offset(x, y));
    }
  }

  /** The cells of `b` that receive the columns of `a` below `n` hold the lanes `s`. */
  ghost predicate Received(b: array2<bv64>, s: Lanes, n: nat)
    requires Square(b) && n <= 5
    reads b
  {
    forall x, y :: 0 <= x < n && 0 <= y < 5 ==> b[y, Target(x, y)] == At(s, y, Target(x, y))
  }

  lemma TargetsDiffer(x: nat, x': nat, y: nat)
    requires x < x' < 5 && y < 5
    ensures Target(x, y) != Target(x', y)
  {
    PiInverts(x, y);
    PiInverts(x', y);
  }

  lemma ReceivedAll(b: array2<bv64>, s: Lanes)
    requires Square(b) && Received(b, s, 5)
    ensures Holds(b, s, 5)
  {
    forall u, v | 0 <= u < 5 && 0 <= v < 5
      ensures b[u, v] == At(s, u, v)
    {
      PiInverts(u, v);
      assert Target(Origin(u, v), u) == v;
    }
  }

  method RhoPiStep(a: array2<bv64>) returns (b: array2<bv64>)
    requires Square(a)
    ensures Square(b) && fresh(b)
    ensures View(b) == Pi(Rho(View(a)))
  {
    b := new bv64[5, 5];
    ghost var was := View(a);
    HoldsView(a);
    for x := 0 to 5
      invariant StillHolds(a, was, 0)
      invariant Received(b, Pi(Rho(was)), x)
    {
      label before:
      RhoPiColumn(a, b, x);
      forall x', y | 0 <= x' <= x && 0 <= y < 5
        ensures b[y, Target(x', y)] == At(Pi(Rho(was)), y, Target(x', y))
      {
        if x' < x {
          TargetsDiffer(x', x, y);
          assert b[y, Target(x', y)] == old@before(b[y, Target(x', y)]);
        } else {
          PiInverts(x, y);
          RhoLane(was, x, y);
          PiLane(Rho(was), y, Target(x, y));
        }
      }
    }
    ReceivedAll(b, Pi(Rho(was)));
    ViewIs(b, Pi(Rho(was)));
  }

  lemma ChiLane(a: Lanes, x: nat, y: nat)
    requires x < 5 && y < 5
    ensures At(Chi(a), x, y) == ChiAt(a, x, y)
  {
    assert (x + 5 * y) % 5 == x && (x + 5 * y) / 5 == y;
  }

  function ChiMix(u: bv64, v: bv64, w: bv64): bv64 {
    u ^ (!v & w)
  }

  method ChiCell(a: array2<bv64>, b: array2<bv64>, x: nat, y: nat)
    requires Square(a) && Square(b) && a != b && x < 5 && y < 5
    modifies a
    ensures a[x, y] == ChiMix(b[x, y], b[(x + 1) % 5, y], b[(x + 2) % 5, y])
    ensures forall u, v :: 0 <= u < 5 && 0 <= v < 5 && (u != x || v != y) ==> a[u, v] == old(a[u, v])
  {
    a[x, y] := b[x, y] ^ (!b[(x + 1) % 5, y] & b[(x + 2) % 5, y]);
  }

  method ChiColumn(a: array2<bv64>, b: array2<bv64>, x: nat, ghost s: Lanes)
    requires Square(a) && Square(b) && a != b && x < 5 && StillHolds(b, s, 0)
    modifies a
    ensures forall y :: 0 <= y < 5 ==> a[x, y] == ChiAt(s, x, y)
    ensures forall u, v :: 0 <= u < 5 && 0 <= v < 5 && u != x ==> a[u, v] == old(a[u, v])
  {
    for y := 0 to 5
      invariant StillHolds(b, s, 0)
      invariant forall v :: 0 <= v < y ==> a[x, v] == ChiAt(s, x, v)
      invariant forall u, v :: 0 <= u < 5 && 0 <= v < 5 && u != x ==> a[u, v] == old(a[u, v])
    {
      ChiCell(a, b, x, y);
    }
  }

  method ChiStep(a: array2<bv64>, b: array2<bv64>)
    requires Square(a) && Square(b) && a != b
    modifies a
    ensures View(a) == Chi(View(b))
  {
    ghost var from := View(b);
    HoldsView(b);
    for x := 0 to 5
      invariant StillHolds(b, from, 0)
      invariant Holds(a, Chi(from), x)
    {
      ChiColumn(a, b, x, from);
      forall y | 0 <= y < 5
        ensures a[x, y] == At(Chi(from), x, y)
      {
        ChiLane(from, x, y);
      }
    }
    ViewIs(a, Chi(from));
  }

  lemma XorAssociates(u: bv64, v: bv64, w: bv64)
    ensures (u ^ v) ^ w == u ^ (v ^ w)
    ensures u ^ 0 == u
  {
  }

  /** Lane (0, 0) after the first `n` steps of the iota loop. */
  function IotaLane(w: bv64, r: bv8, n: nat): bv64
    requires n <= 7
  {
    if n == 0 then w else IotaLane(w, r, n - 1) ^ IotaBit(Lfsr(r, n - 1), n - 1)
  }

  lemma {:induction false} IotaLaneAdds(w: bv64, r: bv8, n: nat)
    requires n <= 7
    ensures IotaLane(w, r, n) == w ^ IotaBits(r, n)
  {
    if n == 0 {
      XorAssociates(w, 0, 0);
    } else {
      IotaLaneAdds(w, r, n - 1);
      XorAssociates(w, IotaBits(r, n - 1), IotaBit(Lfsr(r, n - 1), n - 1));
    }
  }

  /** Every cell but (0, 0) of `a` holds its lane of `s`. */
  ghost predicate HoldsElsewhere(a: array2<bv64>, s: Lanes)
    requires Square(a)
    reads a
  {
    forall x, y :: 0 <= x < 5 && 0 <= y < 5 && 0 < x + y ==> a[x, y] == At(s, x, y)
  }

  /** Lane (0, 0) and the register as the first `j` steps of the iota loop leave them. */
  ghost predicate AfterTicks(a: array2<bv64>, s: Lanes, r: bv8, j: nat, r': bv8)
    requires Square(a) && j <= 7
    reads a
  {
    r' == Lfsr(r, j) && a[0, 0] == IotaLane(s[0], r, j)
  }

  lemma TickValue(w: bv64, r: bv8, j: nat, w': bv64, rj: bv8)
    requires j < 7 && w' == IotaLane(w, r, j) && rj == Lfsr(r, j)
    ensures w' ^ IotaBit(rj, j) == IotaLane(w, r, j + 1) && NextLfsr(rj) == Lfsr(r, j + 1)
  {
  }

  method IotaTick(a: array2<bv64>, ghost s: Lanes, ghost r: bv8, j: nat, rj: bv8) returns (r': bv8)
    requires Square(a) && j < 7 && AfterTicks(a, s, r, j, rj) && HoldsElsewhere(a, s)
    modifies a
    ensures AfterTicks(a, s, r, j + 1, r') && HoldsElsewhere(a, s)
  {
    TickValue(s[0], r, j, a[0, 0], rj);
    a[0, 0] := a[0, 0] ^ IotaBit(rj, j);
    r' := NextLfsr(rj);
  }

  method IotaLoop(a: array2<bv64>, r: bv8, n: nat, ghost s: Lanes) returns (r': bv8)
    requires Square(a) && n <= 7 && a[0, 0] == s[0] && HoldsElsewhere(a, s)
    modifies a
    ensures AfterTicks(a, s, r, n, r') && HoldsElsewhere(a, s)
  {
    r' := r;
    for j := 0 to n
      invariant AfterTicks(a, s, r, j, r') && HoldsElsewhere(a, s)
    {
      r' := IotaTick(a, s, r, j, r');
    }
  }

  lemma IotaView(a: array2<bv64>, s: Lanes, w: bv64)
    requires Square(a) && a[0, 0] == w && HoldsElsewhere(a, s)
    ensures View(a) == s[0 := w]
  {
    ViewIs(a, s[0 := w]);
  }

  method IotaStep(a: array2<bv64>, ghost i: nat, r: bv8) returns (r': bv8)
    requires Square(a) && r == Register(i)
    modifies a
    ensures View(a) == Iota(old(View(a)), i)
    ensures r' == Register(i + 1)
  {
    ghost var s := View(a);
    HoldsView(a);
    r' := IotaLoop(a, r, 7, s);
    IotaView(a, s, IotaLane(s[0], r, 7));
    IotaLaneAdds(s[0], r, 7);
  }

  method RoundStep(a: array2<bv64>, ghost i: nat, r: bv8) returns (r': bv8)
    requires Square(a) && r == Register(i)
    modifies a
    ensures View(a) == Round(old(View(a)), i)
    ensures r' == Register(i + 1)
  {
    ThetaStep(a);
    var b := RhoPiStep(a);
    ChiStep(a, b);
    r' := IotaStep(a, i, r);
  }

  /** The source's 24 rounds of in-place loops are the permutation. */
  method Permute(a: array2<bv64>)
    requires Square(a)
    modifies a
    ensures View(a) == KeccakF(old(View(a)))
  {
    var r: bv8 := 1;
    ghost var was := View(a);
    for i := 0 to 24
      invariant r == Register(i)
      invariant View(a) == Rounds(was, i)
    {
      r := RoundStep(a, i, r);
    }
  }
}
