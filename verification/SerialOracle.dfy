// The BSP workload without barriers: every tile's output blocks, epoch by epoch, and the reduction that seeds the
// next epoch.
module SerialOracle {
  import opened Bytes
  import opened Certificate

  // Eight 64-bit lanes, wrapping.
  function Lane(seed: nat, epoch: nat, tile: nat, block: nat, lane: nat): u64 {
    (seed * 3 + (epoch + 1) * 1009 + tile * 131 + block * 17 + lane) % WORD64
  }

  function OutputBytes(seed: nat, epoch: nat, tile: nat, block: nat): Block {
    PackWords(seq(8, i requires 0 <= i < 8 => Lane(seed, epoch, tile, block, i)))
  }

  function TileBlocks(seed: nat, epoch: nat, tile: nat, blocks: nat): (bs: seq<Block>)
    ensures |bs| == blocks && forall b :: 0 <= b < blocks ==> bs[b] == OutputBytes(seed, epoch, tile, b)
  {
    seq(blocks, b requires 0 <= b < blocks => OutputBytes(seed, epoch, tile, b))
  }

  function EpochBlocks(seed: nat, epoch: nat, tiles: nat, blocks: nat): seq<Block> {
    if tiles == 0 then [] else EpochBlocks(seed, epoch, tiles - 1, blocks) + TileBlocks(seed, epoch, tiles - 1, blocks)
  }

  function SumOf(bs: seq<Block>): nat {
    if bs == [] then 0 else SumOf(bs[..|bs| - 1]) + Sum(UnpackWords(bs[|bs| - 1]))
  }

  function JoinBlocks(bs: seq<Block>): (r: seq<u8>)
    ensures |r| == 64 * |bs| && |r| % 8 == 0
  {
    if bs == [] then [] else JoinBlocks(bs[..|bs| - 1]) + bs[|bs| - 1]
  }

  lemma {:induction false} SumConcat(a: seq<u64>, b: seq<u64>)
    ensures Sum(a + b) == Sum(a) + Sum(b)
  {
    if b == [] {
      assert a + b == a;
    } else {
      var n := |b| - 1;
      SumConcat(a, b[..n]);
      assert (a + b)[..|a| + n] == a + b[..n];
    }
  }

  lemma UnpackConcat(a: seq<u8>, b: seq<u8>)
    requires |a| % 8 == 0 && |b| % 8 == 0
    ensures UnpackWords(a + b) == UnpackWords(a) + UnpackWords(b)
  {
    var u, v := UnpackWords(a + b), UnpackWords(a) + UnpackWords(b);
    forall i | 0 <= i < |u|
      ensures u[i] == v[i]
    {
      if i < |a| / 8 {
        assert (a + b)[8 * i..8 * i + 8] == a[8 * i..8 * i + 8];
      } else {
        var j := i - |a| / 8;
        assert (a + b)[8 * i..8 * i + 8] == b[8 * j..8 * j + 8];
      }
    }
  }

  // Summing the lanes of the joined bytes is summing block by block.
  lemma {:induction false} JoinedSum(bs: seq<Block>)
    ensures Sum(UnpackWords(JoinBlocks(bs))) == SumOf(bs)
  {
    if bs != [] {
      var n := |bs| - 1;
      JoinedSum(bs[..n]);
      UnpackConcat(JoinBlocks(bs[..n]), bs[n]);
      SumConcat(UnpackWords(JoinBlocks(bs[..n])), UnpackWords(bs[n]));
    }
  }

  // The seed of an epoch is the previous epoch's reduction; the first is 7.
  function SeedOf(tiles: nat, blocks: nat, epoch: nat): u64 {
    if epoch == 0 then 7
    else SumOf(EpochBlocks(SeedOf(tiles, blocks, epoch - 1), epoch - 1, tiles, blocks)) % WORD64
  }

  datatype Entry = Entry(reduction: u64, sha: Digest)

  function EntryOf(h: Hash, tiles: nat, blocks: nat, epoch: nat): Entry {
    Entry(SeedOf(tiles, blocks, epoch + 1),
          h(JoinBlocks(EpochBlocks(SeedOf(tiles, blocks, epoch), epoch, tiles, blocks))))
  }

  method ValuesOf(seed: nat, epoch: nat, tiles: nat, blocks: nat) returns (values: seq<Block>)
    ensures values == EpochBlocks(seed, epoch, tiles, blocks)
  {
    values := [];
    for tile := 0 to tiles
      invariant values == EpochBlocks(seed, epoch, tile, blocks)
    {
      ghost var before := values;
      for block := 0 to blocks
        invariant values == before + TileBlocks(seed, epoch, tile, block)
      {
        assert TileBlocks(seed, epoch, tile, block + 1)
            == TileBlocks(seed, epoch, tile, block) + [OutputBytes(seed, epoch, tile, block)];
        values := values + [OutputBytes(seed, epoch, tile, block)];
      }
    }
  }

  lemma NextEntry(h: Hash, tiles: nat, blocks: nat, epoch: nat, values: seq<Block>)
    requires values == EpochBlocks(SeedOf(tiles, blocks, epoch), epoch, tiles, blocks)
    ensures SumOf(values) % WORD64 == SeedOf(tiles, blocks, epoch + 1)
    ensures Entry(SeedOf(tiles, blocks, epoch + 1), h(JoinBlocks(values))) == EntryOf(h, tiles, blocks, epoch)
  {
  }

  method TotalOf(values: seq<Block>) returns (total: nat)
    ensures total == SumOf(values)
  {
    total := 0;
    for i := 0 to |values|
      invariant total == SumOf(values[..i])
    {
      assert values[..i + 1][..i] == values[..i];
      total := total + Sum(UnpackWords(values[i]));
    }
    assert values[..|values|] == values;
  }

  method Run(h: Hash, tiles: nat, blocks: nat, steps: nat) returns (expected: seq<Entry>)
    ensures |expected| == steps && forall e :: 0 <= e < steps ==> expected[e] == EntryOf(h, tiles, blocks, e)
  {
    hide EntryOf, JoinBlocks, SumOf, EpochBlocks;
    var seed: u64 := 7;
    expected := [];
    for epoch := 0 to steps
      invariant seed == SeedOf(tiles, blocks, epoch) && |expected| == epoch
      invariant forall e :: 0 <= e < epoch ==> expected[e] == EntryOf(h, tiles, blocks, e)
    {
      var values := ValuesOf(seed, epoch, tiles, blocks);
      var total := TotalOf(values);
      NextEntry(h, tiles, blocks, epoch, values);
      seed := total % WORD64;
      expected := expected + [Entry(seed, h(JoinBlocks(values)))];
    }
  }
}
