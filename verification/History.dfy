/** Recent history: the last blocks with their mountain ranges. */
module History {
  import opened Prelude
  import opened MountainRange

  /** The size of recent history, in blocks. */
  const HISTORY_SIZE := 8

  datatype BlockInfo = BlockInfo(headerHash: Hash, mmr: Peaks, stateRoot: Hash, reported: seq<Hash>)

  datatype Input = Input(headerHash: Hash, parentStateRoot: Hash, accumulateRoot: Hash, workPackages: seq<Hash>)

  /** The block transition: drop the oldest record when full, complete the newest one with the state
      root that only its child knows, and append a record of this block. */
  function Next(h: PairHash, beta: seq<BlockInfo>, input: Input): seq<BlockInfo> {
    var kept := if |beta| >= HISTORY_SIZE then beta[1..] else beta;
    var completed := if kept == [] then []
                     else kept[|kept| - 1 := kept[|kept| - 1].(stateRoot := input.parentStateRoot)];
    var mmr := if beta == [] then [] else beta[|beta| - 1].mmr;
    completed + [BlockInfo(input.headerHash, Append(h, mmr, input.accumulateRoot), 0, input.workPackages)]
  }

  method Transition(h: PairHash, beta: seq<BlockInfo>, input: Input) returns (beta': seq<BlockInfo>)
    ensures beta' == Next(h, beta, input)
  {
    beta' := if |beta| >= HISTORY_SIZE then beta[1..] else beta;
    if beta' != [] {
      var last := |beta'| - 1;
      beta' := beta'[last := beta'[last].(stateRoot := input.parentStateRoot)];
    }
    var mmr: Peaks := [];
    if beta != [] {
      mmr := beta[|beta| - 1].mmr;
    }
    var mmr', calls := AppendPeak(h, mmr, input.accumulateRoot);
    beta' := beta' + [BlockInfo(input.headerHash, mmr', 0, input.workPackages)];
  }

  /** The history after a run of blocks from an empty one. */
  function After(h: PairHash, blocks: seq<Input>): seq<BlockInfo> {
    if blocks == [] then [] else Next(h, After(h, blocks[..|blocks| - 1]), blocks[|blocks| - 1])
  }

  function Roots(blocks: seq<Input>): (r: seq<Hash>)
    ensures |r| == |blocks|
  {
    seq(|blocks|, i requires 0 <= i < |blocks| => blocks[i].accumulateRoot)
  }

  /** What the history should say about block `i`: its own data, the range over all accumulate roots
      up to it, and the state root that the next block reports for it, once there is one. */
  function Record(h: PairHash, blocks: seq<Input>, i: nat): BlockInfo
    requires i < |blocks|
  {
    BlockInfo(blocks[i].headerHash, Range(h, Roots(blocks[..i + 1])),
              if i + 1 < |blocks| then blocks[i + 1].parentStateRoot else 0,
              blocks[i].workPackages)
  }

  /** The records of the last blocks, at most as many as the history holds. */
  function Recent(h: PairHash, blocks: seq<Input>): seq<BlockInfo> {
    var k := if |blocks| < HISTORY_SIZE then |blocks| else HISTORY_SIZE;
    seq(k, j requires 0 <= j < k => Record(h, blocks, |blocks| - k + j))
  }

  /** A record does not change any more once its block has a child. */
  lemma RecordIsFinal(h: PairHash, blocks: seq<Input>, i: nat)
    requires i + 2 < |blocks| + 1
    ensures var front := blocks[..|blocks| - 1];
      && (i + 1 < |front| ==> Record(h, blocks, i) == Record(h, front, i))
      && (i + 1 == |front| ==>
            Record(h, blocks, i) == Record(h, front, i).(stateRoot := blocks[|blocks| - 1].parentStateRoot))
  {
    assert blocks[..|blocks| - 1][..i + 1] == blocks[..i + 1];
  }

  lemma RangeOfLast(h: PairHash, blocks: seq<Input>)
    requires blocks != []
    ensures var n := |blocks| - 1;
      Range(h, Roots(blocks)) == Append(h, Range(h, Roots(blocks[..n])), blocks[n].accumulateRoot)
  {
    var n := |blocks| - 1;
    assert Roots(blocks)[..n] == Roots(blocks[..n]);
  }

  lemma NewestRecord(h: PairHash, blocks: seq<Input>)
    requires blocks != []
    ensures var n := |blocks| - 1;
      var got := Next(h, Recent(h, blocks[..n]), blocks[n]);
      got[|got| - 1] == Record(h, blocks, n)
  {
    var n := |blocks| - 1;
    var front := blocks[..n];
    var beta := Recent(h, front);
    RangeOfLast(h, blocks);
    assert blocks[..n + 1] == blocks && front[..n] == front;
    if n > 0 {
      assert beta[|beta| - 1] == Record(h, front, n - 1);
    } else {
      assert Roots(front) == [];
    }
  }

  /** Which record stands at position `j` of the history before the last block. */
  lemma RecordBefore(h: PairHash, blocks: seq<Input>, j: nat)
    requires blocks != [] && j + 1 < |Recent(h, blocks)|
    ensures var front, i := blocks[..|blocks| - 1], |blocks| - |Recent(h, blocks)| + j;
      var beta := Recent(h, front);
      var kept := if |beta| >= HISTORY_SIZE then beta[1..] else beta;
      |kept| + 1 == |Recent(h, blocks)| && i < |front| && kept[j] == Record(h, front, i)
  {
  }

  lemma OlderRecord(h: PairHash, blocks: seq<Input>, j: nat)
    requires blocks != [] && j + 1 < |Recent(h, blocks)|
    ensures var n := |blocks| - 1;
      var got := Next(h, Recent(h, blocks[..n]), blocks[n]);
      j < |got| && got[j] == Recent(h, blocks)[j]
  {
    RecordBefore(h, blocks, j);
    RecordIsFinal(h, blocks, |blocks| - |Recent(h, blocks)| + j);
  }

  /** After any number of blocks from an empty history, the history is exactly the records of the last
      eight blocks, or of all of them when there are fewer. */
  lemma {:induction false} HistoryIsRecent(h: PairHash, blocks: seq<Input>)
    ensures After(h, blocks) == Recent(h, blocks)
    decreases |blocks|
  {
    if blocks != [] {
      var n := |blocks| - 1;
      HistoryIsRecent(h, blocks[..n]);
      var want, got := Recent(h, blocks), Next(h, Recent(h, blocks[..n]), blocks[n]);
      assert |got| == |want|;
      forall j | 0 <= j < |want| ensures got[j] == want[j] {
        if j + 1 == |want| {
          NewestRecord(h, blocks);
        } else {
          OlderRecord(h, blocks, j);
        }
      }
    }
  }

  /** The same in plain terms: after any run from an empty history there are as many records as blocks, but
      no more than eight, and they belong to the last blocks. Each holds its block's header hash and work
      packages, the range over all accumulate roots up to it, and the state root that its child reported,
      which is zero for the newest. */
  lemma {:induction false} HoldsLastEight(h: PairHash, blocks: seq<Input>, roots: seq<Hash>,
                                          beta: seq<BlockInfo>, i: nat)
    requires beta == After(h, blocks)
    requires |roots| == |blocks| && forall x :: 0 <= x < |blocks| ==> roots[x] == blocks[x].accumulateRoot
    requires |blocks| < i + 9 && i < |blocks|
    ensures var first := if |blocks| < 8 then 0 else |blocks| - 8;
      && |beta| == |blocks| - first
      && beta[i - first].headerHash == blocks[i].headerHash
      && beta[i - first].reported == blocks[i].workPackages
      && beta[i - first].mmr == Range(h, roots[..i + 1])
      && beta[i - first].stateRoot == if i + 1 < |blocks| then blocks[i + 1].parentStateRoot else 0
  {
    HistoryIsRecent(h, blocks);
    RecentAt(h, blocks, i);
    assert Roots(blocks[..i + 1]) == roots[..i + 1];
  }

  lemma RecentAt(h: PairHash, blocks: seq<Input>, i: nat)
    requires |blocks| < i + 9 && i < |blocks|
    ensures var first := if |blocks| < 8 then 0 else |blocks| - 8;
      |Recent(h, blocks)| == |blocks| - first && Recent(h, blocks)[i - first] == Record(h, blocks, i)
  {
  }

  /** From any history whatever: the oldest record goes only when there are eight or more, the newest gets
      its state root, the others stay, and the new one continues the newest record's range. */
  lemma NextExactly(h: PairHash, beta: seq<BlockInfo>, input: Input)
    ensures var next := Next(h, beta, input);
      var gone, n := if |beta| < 8 then 0 else 1, |next| - 1;
      && n == |beta| - gone
      && (forall i :: 0 <= i < n - 1 ==> next[i] == beta[i + gone])
      && (n > 0 ==> next[n - 1] == beta[|beta| - 1].(stateRoot := input.parentStateRoot))
      && next[n].headerHash == input.headerHash && next[n].reported == input.workPackages
      && next[n].stateRoot == 0
      && next[n].mmr == Append(h, if beta == [] then [] else beta[|beta| - 1].mmr, input.accumulateRoot)
  {
  }
}
