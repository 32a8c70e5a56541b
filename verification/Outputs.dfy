// Where one epoch's output blocks live: in device memory, in the host's table, and as hashes.
module Outputs {
  import opened Certificate
  import opened BarrierPlan
  import opened Barrier
  import opened SerialOracle

  type Key = (nat, nat)

  // What one epoch's work produces.
  datatype Work = Work(h: Hash, seed: nat, epoch: nat, blocks: nat)

  function Output(w: Work, tile: nat, block: nat): Block {
    OutputBytes(w.seed, w.epoch, tile, block)
  }

  function OutputHash(w: Work, tile: nat, block: nat): Digest {
    w.h(Output(w, tile, block))
  }

  function Hashes(w: Work, tile: nat, blocks: nat): (ds: seq<Digest>)
    ensures |ds| == blocks && forall b :: 0 <= b < blocks ==> ds[b] == OutputHash(w, tile, b)
  {
    seq(blocks, b requires 0 <= b < blocks => OutputHash(w, tile, b))
  }

  function Address(block: nat): nat {
    OUTPUT + block * 64
  }

  // The first `blocks` outputs of a tile are in its memory.
  ghost predicate Committed(w: Work, memory: Memory, tile: nat, blocks: nat) {
    tile < |memory| && forall b :: 0 <= b < blocks ==>
      Address(b) in memory[tile] && memory[tile][Address(b)] == Output(w, tile, b)
  }

  ghost predicate Tabled(w: Work, values: map<Key, Block>, tile: nat, blocks: nat) {
    forall b :: 0 <= b < blocks ==> (tile, b) in values && values[(tile, b)] == Output(w, tile, b)
  }

  // Other tiles' memories and table entries are as before.
  ghost predicate OthersKept(before: Memory, after: Memory, tiles: set<nat>) {
    |before| == |after| && forall t :: 0 <= t < |before| && t !in tiles ==> after[t] == before[t]
  }

  // Barriers write only at certificate addresses.
  lemma CommittedThroughBarrier(w: Work, before: Memory, after: Memory, tile: nat, blocks: nat)
    requires OutputsKept(before, after) && Committed(w, before, tile, blocks) && blocks <= MAX_BLOCKS
    ensures Committed(w, after, tile, blocks)
  {
    assert SameBelow(before[tile], after[tile]);
    forall b | 0 <= b < blocks
      ensures Address(b) in after[tile] && after[tile][Address(b)] == Output(w, tile, b)
    {
      assert Address(b) < LEAF;
    }
  }

  function Grid(tiles: set<nat>, blocks: nat): set<Key> {
    set t, b | t in tiles && 0 <= b < blocks :: (t, b)
  }

  function Row(tile: nat, blocks: nat): set<Key> {
    set b | 0 <= b < blocks :: (tile, b)
  }

  lemma {:induction false} RowSize(tile: nat, blocks: nat)
    ensures |Row(tile, blocks)| == blocks
  {
    if blocks > 0 {
      RowSize(tile, blocks - 1);
      assert Row(tile, blocks) == Row(tile, blocks - 1) + {(tile, blocks - 1)};
    }
  }

  lemma GridSplit(tiles: set<nat>, t: nat, blocks: nat)
    requires t in tiles
    ensures Grid(tiles, blocks) == Grid(tiles - {t}, blocks) + Row(t, blocks)
    ensures Grid(tiles - {t}, blocks) !! Row(t, blocks)
  {
  }

  lemma GridOfNone(blocks: nat)
    ensures Grid({}, blocks) == {}
  {
  }

  lemma OneMoreRow(n: nat, blocks: nat)
    ensures (n + 1) * blocks == n * blocks + blocks
  {
  }

  lemma {:induction false} GridSize(tiles: set<nat>, blocks: nat)
    ensures |Grid(tiles, blocks)| == |tiles| * blocks
    decreases |tiles|
  {
    hide Grid, Row;
    if tiles == {} {
      GridOfNone(blocks);
    } else {
      var t :| t in tiles;
      var rest := tiles - {t};
      GridSize(rest, blocks);
      RowSize(t, blocks);
      GridSplit(tiles, t, blocks);
      OneMoreRow(|rest|, blocks);
    }
  }

  function Tiles(r: seq<nat>): set<nat> {
    set t | t in r
  }

  lemma {:induction false} TilesSize(a: nat, b: nat)
    requires a <= b
    ensures |Tiles(Range(a, b))| == b - a
    ensures forall t :: t in Tiles(Range(a, b)) <==> a <= t < b
    decreases b - a
  {
    var r := Range(a, b);
    forall t
      ensures t in r <==> a <= t < b
    {
      if a <= t < b {
        assert r[t - a] == t;
      }
    }
    if a < b {
      TilesSize(a, b - 1);
      assert Tiles(r) == Tiles(Range(a, b - 1)) + {b - 1};
    }
  }
}
