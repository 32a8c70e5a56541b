// The epoch loop: write every tile's outputs, pass the barrier, and after a rejected receipt redo only the faulty
// tile's group.
module BspRun {
  import opened Wrappers
  import opened Bytes
  import opened Certificate
  import opened BarrierPlan
  import opened Barrier
  import opened SerialOracle
  import opened Outputs

  datatype Config = Config(devices: nat, blocks: nat, mode: Mode, fault: Option<Fault>)

  predicate Injectable(fault: Fault) {
    fault.MissingRecord? || fault.StaleEpoch? || fault.WrongTile? || fault.CorruptDigest?
  }

  ghost predicate ConfigOk(c: Config) {
    0 < c.devices <= MAX_TILES && 0 < c.blocks <= MAX_BLOCKS && (c.fault.Some? ==> Injectable(c.fault.value))
  }

  datatype Step = Step(epoch: nat, initialOutputWrites: nat, retryOutputWrites: nat, retryTiles: seq<nat>,
                       preservedBlocksChecked: nat, barrier: Metrics, reduction: u64, sha: Digest)

  datatype CellError = OutputMismatch | FaultAccepted | Misattributed | ReleasedEarly | LostEvidence | SiblingChanged
    | OracleDisagrees | BarrierFailed(failure: Failure)

  // Of the host's ways to fail, the comparison with the serial run, an early release and a fault that cannot be
  // packed never happen, whatever the devices answer.
  predicate DeviceCaused(e: CellError) {
    !e.OracleDisagrees? && !e.ReleasedEarly? && e != BarrierFailed(Refused)
  }

  // What an epoch left behind.
  datatype Kept = Kept(memory: Memory, values: map<Key, Block>)

  // Device memories and table hold the serial run's bytes of that epoch, and the table nothing else.
  ghost predicate HoldsSerial(k: Kept, n: nat, blocks: nat, epoch: nat) {
    && |k.memory| == n && k.values.Keys == Grid(Tiles(Range(0, n)), blocks)
    && forall t, b :: 0 <= t < n && 0 <= b < blocks ==>
         var bytes := OutputBytes(SeedOf(n, blocks, epoch), epoch, t, b);
         && Address(b) in k.memory[t] && k.memory[t][Address(b)] == bytes
         && (t, b) in k.values && k.values[(t, b)] == bytes
  }

  ghost predicate ReleasesBefore(events: seq<Event>, epoch: nat) {
    forall i :: 0 <= i < |events| && events[i].Release? ==> events[i].epoch < epoch
  }

  // A tile's outputs are in its memory, in the table and among the hashes.
  ghost predicate Done(w: Work, memory: Memory, values: map<Key, Block>, hashes: seq<seq<Digest>>, tile: nat) {
    && Committed(w, memory, tile, w.blocks) && Tabled(w, values, tile, w.blocks)
    && tile < |hashes| && hashes[tile] == Hashes(w, tile, w.blocks)
  }

  ghost predicate RowsKept(before: map<Key, Block>, after: map<Key, Block>, tiles: set<nat>) {
    forall k :: k in before && k.0 !in tiles ==> k in after && after[k] == before[k]
  }

  ghost predicate HashesKept(before: seq<seq<Digest>>, after: seq<seq<Digest>>, tiles: set<nat>) {
    |before| == |after| && forall t :: 0 <= t < |before| && t !in tiles ==> after[t] == before[t]
  }

  class CellRun {
    const h: Hash
    const sim: Simulator
    const log: EventLog
    const cell: Config
    var values: map<Key, Block>
    var hashes: seq<seq<Digest>>
    var dataWrites: nat

    ghost predicate Valid()
      reads this, sim`memory
    {
      ConfigOk(cell) && |sim.memory| == |hashes| == cell.devices
    }

    constructor (h: Hash, sim: Simulator, log: EventLog, cell: Config)
      requires ConfigOk(cell) && |sim.memory| == cell.devices
      ensures Valid() && this.h == h && this.sim == sim && this.log == log && this.cell == cell
    {
      this.h, this.sim, this.log, this.cell := h, sim, log, cell;
      values, hashes, dataWrites := map[], seq(cell.devices, i => []), 0;
    }

    // Publish one output block, read it back and record it; the dropped record of the injected loss still has its
    // output committed.
    method WorkBlock(w: Work, tile: nat, block: nat, retry: bool) returns (ok: bool)
      requires Valid() && tile < cell.devices && w.h == h
      requires ReleasesBefore(log.events, w.epoch)
      modifies sim, log`events, this`values, this`hashes, this`dataWrites
      ensures Valid() && ReleasesBefore(log.events, w.epoch)
      ensures sim.memory == Stored(old(sim.memory), tile, Address(block), Output(w, tile, block))
      ensures ok ==> values == old(values)[(tile, block) := Output(w, tile, block)]
      ensures ok ==> hashes == old(hashes)[tile := old(hashes)[tile] + [OutputHash(w, tile, block)]]
      ensures ok ==> dataWrites == old(dataWrites) + 1
      ensures sim.Honest() ==> ok
    {
      var data := OutputBytes(w.seed, w.epoch, tile, block);
      sim.Publish(tile, Address(block), data);
      var received := sim.Consume(tile, Address(block));
      if received != data {
        return false;
      }
      values := values[(tile, block) := received];
      var sha := h(received);
      hashes := hashes[tile := hashes[tile] + [sha]];
      dataWrites := dataWrites + 1;
      var missing := cell.fault == Some(MissingRecord) && w.epoch == 1 && tile == cell.devices - 1
        && block == cell.blocks - 1 && !retry;
      log.events := log.events + [OutputRecord(missing, w.epoch, tile, block, retry, received, sha)];
      ok := true;
    }

    method WorkTile(w: Work, tile: nat, retry: bool) returns (ok: bool)
      requires Valid() && tile < cell.devices && w.h == h && w.blocks == cell.blocks
      requires ReleasesBefore(log.events, w.epoch)
      modifies sim, log`events, this`values, this`hashes, this`dataWrites
      ensures Valid() && ReleasesBefore(log.events, w.epoch)
      ensures ok ==> Done(w, sim.memory, values, hashes, tile)
      ensures ok ==> OthersKept(old(sim.memory), sim.memory, {tile}) && RowsKept(old(values), values, {tile})
      ensures ok ==> HashesKept(old(hashes), hashes, {tile}) && values.Keys == old(values.Keys) + Row(tile, w.blocks)
      ensures ok ==> dataWrites == old(dataWrites) + w.blocks
      ensures sim.Honest() ==> ok
    {
      hashes := hashes[tile := []];
      for block := 0 to cell.blocks
        invariant Valid() && ReleasesBefore(log.events, w.epoch)
        invariant Committed(w, sim.memory, tile, block) && Tabled(w, values, tile, block)
        invariant hashes[tile] == Hashes(w, tile, block)
        invariant OthersKept(old(sim.memory), sim.memory, {tile}) && RowsKept(old(values), values, {tile})
        invariant HashesKept(old(hashes), hashes, {tile}) && values.Keys == old(values.Keys) + Row(tile, block)
        invariant dataWrites == old(dataWrites) + block
      {
        OneMoreBlock(w, sim.memory, values, hashes, tile, block);
        ok := WorkBlock(w, tile, block, retry);
        if !ok {
          return;
        }
      }
      ok := true;
    }

    method WorkAll(w: Work, tiles: seq<nat>, retry: bool) returns (ok: bool)
      requires Valid() && w.h == h && w.blocks == cell.blocks && forall i :: 0 <= i < |tiles| ==> tiles[i] < cell.devices
      requires ReleasesBefore(log.events, w.epoch)
      modifies sim, log`events, this`values, this`hashes, this`dataWrites
      ensures Valid() && ReleasesBefore(log.events, w.epoch)
      ensures ok ==> forall t :: t in Tiles(tiles) ==> Done(w, sim.memory, values, hashes, t)
      ensures ok ==> OthersKept(old(sim.memory), sim.memory, Tiles(tiles)) && RowsKept(old(values), values, Tiles(tiles))
      ensures ok ==> HashesKept(old(hashes), hashes, Tiles(tiles))
      ensures ok ==> values.Keys == old(values.Keys) + Grid(Tiles(tiles), w.blocks)
      ensures ok ==> dataWrites == old(dataWrites) + |tiles| * w.blocks
      ensures sim.Honest() ==> ok
    {
      for i := 0 to |tiles|
        invariant Valid() && ReleasesBefore(log.events, w.epoch)
        invariant forall t :: t in Tiles(tiles[..i]) ==> Done(w, sim.memory, values, hashes, t)
        invariant OthersKept(old(sim.memory), sim.memory, Tiles(tiles[..i]))
        invariant RowsKept(old(values), values, Tiles(tiles[..i]))
        invariant HashesKept(old(hashes), hashes, Tiles(tiles[..i]))
        invariant values.Keys == old(values.Keys) + Grid(Tiles(tiles[..i]), w.blocks)
        invariant dataWrites == old(dataWrites) + i * w.blocks
      {
        OneMoreTile(tiles, i, w.blocks);
        ghost var memory0, values0, hashes0 := sim.memory, values, hashes;
        ok := WorkTile(w, tiles[i], retry);
        if !ok {
          return;
        }
        forall t | t in Tiles(tiles[..i + 1])
          ensures Done(w, sim.memory, values, hashes, t)
        {
          if t != tiles[i] {
            StillDone(w, memory0, values0, hashes0, sim.memory, values, hashes, tiles[i], t);
          }
        }
      }
      assert tiles[..|tiles|] == tiles;
      ok := true;
    }

    ghost predicate AllDone(w: Work)
      reads this, sim`memory
    {
      Valid() && w.h == h && w.blocks == cell.blocks
        && forall t :: 0 <= t < cell.devices ==> Done(w, sim.memory, values, hashes, t)
    }

    method InitialWork(w: Work) returns (ok: bool)
      requires Valid() && w.h == h && w.blocks == cell.blocks && ReleasesBefore(log.events, w.epoch)
      modifies sim, log`events, this`values, this`hashes, this`dataWrites
      ensures Valid() && ReleasesBefore(log.events, w.epoch)
      ensures ok ==> AllDone(w) && values.Keys == Grid(Tiles(Range(0, cell.devices)), cell.blocks)
      ensures ok ==> dataWrites == cell.devices * cell.blocks
      ensures sim.Honest() ==> ok
    {
      values, hashes, dataWrites := map[], seq(cell.devices, i => []), 0;
      TilesSize(0, cell.devices);
      ok := WorkAll(w, Range(0, cell.devices), false);
    }

    ghost function SetupNow(w: Work, fault: Option<Fault>): (s: Setup)
      requires AllDone(w) && w.epoch < 0x1_0000_0000
      reads this, sim`memory
      ensures forall t :: 0 <= t < s.n ==> |s.hashes[t]| == cell.blocks
    {
      Sized(w, sim.memory, values, hashes, cell.devices);
      Inputs(h, cell.devices, w.epoch, cell.mode, hashes, fault)
    }

    // A fresh barrier over the current hashes.
    method RunBarrier(w: Work, fault: Option<Fault>) returns (r: Result<Metrics, Failure>, released: bool)
      requires AllDone(w) && w.epoch < 0x1_0000_0000 && ReleasesBefore(log.events, w.epoch)
      modifies sim, log`events
      ensures AllDone(w) && OutputsKept(old(sim.memory), sim.memory)
      ensures r.Ok? ==> ReleasesBefore(log.events, w.epoch + 1)
      ensures r.Err? && r.error.Mismatch? ==> ReleasesBefore(log.events, w.epoch)
      ensures released <==> r.Ok?
      ensures var s := SetupNow(w, fault);
              && (r.Ok? ==> r.value == Count(Plan(s)).(released := true))
              && (r.Err? && r.error.Refused? ==> Verdict(s) == Some(Refused))
              && (sim.Honest() ==> if Verdict(s).None? then r.Ok? else r == Err(Verdict(s).value))
    {
      hide Plan, Verdict, Stopped, Count;
      Sized(w, sim.memory, values, hashes, cell.devices);
      var s: Setup := Inputs(h, cell.devices, w.epoch, cell.mode, hashes, fault);
      ghost var before := sim.memory;
      var barrier := new Barrier(sim, log, s);
      r := barrier.Execute();
      released := barrier.metrics.released;
      StillAllDone(w, before, sim.memory, values, hashes, cell.devices);
      NoRelease(s, barrier.trace, r);
      NeverReleased(barrier.trace);
    }

    // The host's check that a failed barrier left no release behind.
    predicate ReleaseSeen(epoch: nat)
      reads log
    {
      exists i :: 0 <= i < |log.events| && log.events[i].Release? && log.events[i].epoch == epoch
    }

    // Read every kept block back and compare.
    method CheckSiblings(w: Work, preserved: map<Key, Block>) returns (ok: bool)
      requires AllDone(w)
      requires forall k :: k in preserved ==> k.0 < cell.devices && k.1 < w.blocks && preserved[k] == Output(w, k.0, k.1)
      modifies sim`consumed
      ensures sim.Honest() ==> ok
    {
      var rest := preserved.Keys;
      while rest != {}
        invariant rest <= preserved.Keys
      {
        var k :| k in rest;
        assert Done(w, sim.memory, values, hashes, k.0);
        assert Address(k.1) in sim.memory[k.0];
        var again := sim.Consume(k.0, Address(k.1));
        if again != preserved[k] {
          return false;
        }
        rest := rest - {k};
      }
      ok := true;
    }

    // next(g for g in groups if the last tile is in g)
    method FaultyGroup() returns (g: seq<nat>)
      requires Valid()
      ensures g == LastGroup(cell.devices, cell.mode)
    {
      var groups := GroupsFor(cell.devices, cell.mode);
      GroupsPartition(cell.devices, cell.mode);
      var k := 0;
      while cell.devices - 1 !in groups[k]
        invariant k < |groups|
        decreases |groups| - k
      {
        k := k + 1;
      }
      g := groups[k];
    }

    // Redo some tiles, check that the others' outputs have not moved, and run the barrier again without a fault.
    method Redo(w: Work, tiles: seq<nat>) returns (r: Result<(nat, Metrics), CellError>)
      requires AllDone(w) && w.epoch < 0x1_0000_0000 && ReleasesBefore(log.events, w.epoch)
      requires values.Keys == Grid(Tiles(Range(0, cell.devices)), cell.blocks)
      requires forall i :: 0 <= i < |tiles| ==> tiles[i] < cell.devices
      modifies sim, log`events, this`values, this`hashes, this`dataWrites
      ensures Valid() && (r.Ok? ==> AllDone(w) && ReleasesBefore(log.events, w.epoch + 1))
      ensures r.Ok? ==> SiblingsKept(old(sim.memory), sim.memory, Tiles(tiles))
      ensures r.Ok? ==> dataWrites == old(dataWrites) + |tiles| * cell.blocks
      ensures r.Ok? ==> r.value.0 == |Grid(Tiles(Range(0, cell.devices)) - Tiles(tiles), cell.blocks)|
      ensures r.Ok? ==> r.value.1 == Count(Plan(SetupNow(w, None))).(released := true)
      ensures r.Ok? ==> values.Keys == Grid(Tiles(Range(0, cell.devices)), cell.blocks)
      ensures r.Err? ==> DeviceCaused(r.error)
      ensures sim.Honest() ==> r.Ok?
    {
      hide Plan, Count, Grid, Verdict, Tiles, SiblingsKept, Done, ReleasesBefore;
      GridInside(tiles, cell.devices, cell.blocks);
      var preserved := map k | k in values && k.0 !in tiles :: values[k];
      Preserved(w, sim.memory, values, hashes, tiles, preserved, cell.devices);
      var ok := WorkAll(w, tiles, true);
      if !ok {
        return Err(OutputMismatch);
      }
      ghost var worked := sim.memory;
      AllDoneAgain(w, old(sim.memory), old(values), old(hashes), sim.memory, values, hashes, Tiles(tiles), cell.devices);
      ok := CheckSiblings(w, preserved);
      if !ok {
        return Err(SiblingChanged);
      }
      NoFaultNoFailure(SetupNow(w, None));
      var again, _ := RunBarrier(w, None);
      if again.Err? {
        return Err(BarrierFailed(again.error));
      }
      SiblingsThroughBarrier(old(sim.memory), worked, sim.memory, Tiles(tiles));
      r := Ok((|preserved|, again.value));
    }

    // The report must name the injected fault on the last tile, nothing may have been released, and the tile's last
    // output must still be there.
    method CheckRejection(w: Work, fault: Option<Fault>, e: BarrierError, released: bool) returns (r: Option<CellError>)
      requires AllDone(w) && ReleasesBefore(log.events, w.epoch)
      modifies sim`consumed
      ensures r.None? ==> fault == Some(e.fault) && e.tile == cell.devices - 1 && !released
      ensures r.Some? && !released ==> DeviceCaused(r.value)
      ensures sim.Honest() && fault == Some(e.fault) && e.tile == cell.devices - 1 && !released ==> r.None?
    {
      if fault.None? || e.fault != fault.value || e.tile != cell.devices - 1 {
        return Some(Misattributed);
      }
      var seen := ReleaseSeen(w.epoch);
      if released || seen {
        return Some(ReleasedEarly);
      }
      var target, last := cell.devices - 1, cell.blocks - 1;
      assert Done(w, sim.memory, values, hashes, target);
      assert Address(last) in sim.memory[target] && (target, last) in values;
      var committed := sim.Consume(target, Address(last));
      r := if committed != values[(target, last)] then Some(LostEvidence) else None;
    }

    // A rejected epoch: once the report is right, the faulty tile's group is redone.
    method Recover(w: Work, fault: Option<Fault>, e: BarrierError, released: bool)
      returns (r: Result<Recovery, CellError>)
      requires AllDone(w) && w.epoch < 0x1_0000_0000 && ReleasesBefore(log.events, w.epoch)
      requires values.Keys == Grid(Tiles(Range(0, cell.devices)), cell.blocks)
      modifies sim, log`events, this`values, this`hashes, this`dataWrites
      ensures r.Ok? ==> fault == Some(e.fault) && e.tile == cell.devices - 1 && !released
      ensures Valid() && (r.Ok? ==> AllDone(w) && ReleasesBefore(log.events, w.epoch + 1))
      ensures var g := LastGroup(cell.devices, cell.mode);
              r.Ok? ==>
                && r.value.retryTiles == g && r.value.preserved == OutsideBlocks(cell.devices, g, cell.blocks)
                && r.value.completionOnlyWouldRelease
                && SiblingsKept(old(sim.memory), sim.memory, Tiles(g))
                && dataWrites == old(dataWrites) + |g| * cell.blocks
      ensures r.Ok? ==> r.value.barrier == Count(Plan(SetupNow(w, None))).(released := true)
      ensures r.Ok? ==> values.Keys == Grid(Tiles(Range(0, cell.devices)), cell.blocks)
      ensures r.Err? && !released ==> DeviceCaused(r.error)
      ensures sim.Honest() && fault == Some(e.fault) && e.tile == cell.devices - 1 && !released ==> r.Ok?
    {
      hide Plan, Count, Grid, SiblingsKept, ReleasesBefore, OutsideBlocks;
      var rejected := CheckRejection(w, fault, e, released);
      if rejected.Some? {
        return Err(rejected.value);
      }
      GroupTiles(cell.devices, cell.mode, cell.blocks);
      var completionOnly := |values| == cell.devices * cell.blocks;
      assert |values| == |values.Keys|;
      var tiles := FaultyGroup();
      var redone := Redo(w, tiles);
      if redone.Err? {
        return Err(redone.error);
      }
      r := Ok(Recovery(tiles, redone.value.0, redone.value.1, completionOnly));
    }

    // The table's blocks in tile and block order.
    method JoinTable(w: Work) returns (joined: seq<Block>)
      requires AllDone(w)
      ensures joined == EpochBlocks(w.seed, w.epoch, cell.devices, cell.blocks)
    {
      joined := [];
      for tile := 0 to cell.devices
        invariant joined == EpochBlocks(w.seed, w.epoch, tile, cell.blocks)
      {
        ghost var before := joined;
        assert Done(w, sim.memory, values, hashes, tile);
        for block := 0 to cell.blocks
          invariant joined == before + TileBlocks(w.seed, w.epoch, tile, block)
        {
          assert (tile, block) in values && values[(tile, block)] == Output(w, tile, block);
          assert TileBlocks(w.seed, w.epoch, tile, block + 1)
              == TileBlocks(w.seed, w.epoch, tile, block) + [OutputBytes(w.seed, w.epoch, tile, block)];
          joined := joined + [values[(tile, block)]];
        }
      }
    }

    // Reduce and hash the epoch's outputs, and hold them against the serial run.
    method Finish(w: Work, entry: Entry) returns (r: Option<Entry>)
      requires AllDone(w)
      ensures var blocks := EpochBlocks(w.seed, w.epoch, cell.devices, cell.blocks);
              r == if entry == Entry(SumOf(blocks) % WORD64, h(JoinBlocks(blocks))) then Some(entry) else None
    {
      hide UnpackWords, JoinBlocks, SumOf, EpochBlocks;
      var joined := JoinTable(w);
      var actual := JoinBlocks(joined);
      JoinedSum(joined);
      var seed := Sum(UnpackWords(actual)) % WORD64;
      var sha := h(actual);
      r := if sha != entry.sha || seed != entry.reduction then None else Some(Entry(seed, sha));
    }

    // One epoch, entered with the serial run's seed.
    method RunEpoch(epoch: nat, seed: u64, entry: Entry) returns (r: Result<Step, CellError>)
      requires Valid() && epoch < 0x1_0000_0000 && ReleasesBefore(log.events, epoch)
      modifies sim, log`events, this`values, this`hashes, this`dataWrites
      ensures Valid()
      ensures r.Ok? ==> ReleasesBefore(log.events, epoch + 1) && StepRight(epoch, r.value)
      ensures r.Ok? ==> Entry(r.value.reduction, r.value.sha) == entry
      ensures r.Ok? ==> AllDone(Work(h, seed, epoch, cell.blocks))
      ensures r.Ok? ==> values.Keys == Grid(Tiles(Range(0, cell.devices)), cell.blocks)
      ensures var blocks := EpochBlocks(seed, epoch, cell.devices, cell.blocks);
              entry == Entry(SumOf(blocks) % WORD64, h(JoinBlocks(blocks))) ==>
                && (r.Err? ==> DeviceCaused(r.error)) && (sim.Honest() ==> r.Ok?)
    {
      hide Plan, Count, SumOf, JoinBlocks, EpochBlocks, Verdict, Group, GroupCount;
      var w := Work(h, seed, epoch, cell.blocks);
      var ok := InitialWork(w);
      if !ok {
        return Err(OutputMismatch);
      }
      var initial := dataWrites;
      var fault := if epoch == 1 then cell.fault else None;
      FaultVerdict(SetupNow(w, fault));
      BarrierCounts(SetupNow(w, fault), cell.blocks);
      var barrier, released := RunBarrier(w, fault);
      var recovery := Recovery([], 0, Metrics(0, 0, 0, 0, 0, false), true);
      if barrier.Ok? {
        if fault.Some? {
          return Err(FaultAccepted);
        }
        recovery := Recovery([], 0, barrier.value, true);
      } else {
        if barrier.error.Refused? {
          return Err(BarrierFailed(Refused));
        }
        var redone := Recover(w, fault, barrier.error.error, released);
        if redone.Err? {
          return Err(redone.error);
        }
        BarrierCounts(SetupNow(w, None), cell.blocks);
        recovery := redone.value;
      }
      var result := Finish(w, entry);
      if result.None? {
        return Err(OracleDisagrees);
      }
      r := Ok(Step(epoch, initial, dataWrites - initial, recovery.retryTiles, recovery.preserved, recovery.barrier,
                   result.value.reduction, result.value.sha));
    }

    // What an accepted step must report: every block written once, and in the faulted epoch exactly the last group
    // rewritten and everything else checked; a released barrier with the mode's reads and writes.
    ghost predicate StepRight(epoch: nat, step: Step)
      requires ConfigOk(cell)
    {
      var n, blocks := cell.devices, cell.blocks;
      var g := LastGroup(n, cell.mode);
      var faulted := epoch == 1 && cell.fault.Some?;
      && step.epoch == epoch && step.initialOutputWrites == n * blocks
      && step.retryTiles == (if faulted then g else [])
      && step.retryOutputWrites == (if faulted then |g| * blocks else 0)
      && step.preservedBlocksChecked == (if faulted then OutsideBlocks(n, g, blocks) else 0)
      && ReleasedMetrics(step.barrier, n, blocks, cell.mode)
    }

    // The whole cell. Whatever fault was injected and whatever the devices did, a run that passes left in every
    // epoch the serial run's bytes in every device memory and in the table, with its reduction and digest, and the
    // final comparison never was what stopped a run; on honest devices it always passes.
    method Run(steps: nat) returns (r: Result<seq<Step>, CellError>, ghost kept: seq<Kept>)
      requires Valid() && steps <= 0x1_0000_0000 && log.events == []
      modifies sim, log`events, this`values, this`hashes, this`dataWrites
      ensures r.Ok? ==>
                && |r.value| == |kept| == steps
                && (steps > 0 ==> kept[steps - 1] == Kept(sim.memory, values))
                && forall e :: 0 <= e < steps ==>
                     && StepRight(e, r.value[e])
                     && HoldsSerial(kept[e], cell.devices, cell.blocks, e)
                     && Entry(r.value[e].reduction, r.value[e].sha) == EntryOf(h, cell.devices, cell.blocks, e)
      ensures r.Err? ==> DeviceCaused(r.error)
      ensures sim.Honest() ==> r.Ok?
    {
      hide StepRight, EpochBlocks, SumOf, JoinBlocks, HoldsSerial;
      var oracle := SerialOracle.Run(h, cell.devices, cell.blocks, steps);
      var seed: u64 := 7;
      var done: seq<Step> := [];
      kept := [];
      for epoch := 0 to steps
        invariant Valid() && ReleasesBefore(log.events, epoch) && |done| == |kept| == epoch
        invariant seed == SeedOf(cell.devices, cell.blocks, epoch)
        invariant epoch > 0 ==> kept[epoch - 1] == Kept(sim.memory, values)
        invariant forall e :: 0 <= e < epoch ==>
                    && StepRight(e, done[e]) && HoldsSerial(kept[e], cell.devices, cell.blocks, e)
                    && Entry(done[e].reduction, done[e].sha) == oracle[e]
      {
        var step := RunEpoch(epoch, seed, oracle[epoch]);
        if step.Err? {
          return Err(step.error), kept;
        }
        DoneHoldsSerial(Work(h, seed, epoch, cell.blocks), sim.memory, values, hashes, cell.devices);
        kept := kept + [Kept(sim.memory, values)];
        done, seed := done + [step.value], step.value.reduction;
      }
      r := Ok(done);
    }
  }

  lemma DoneHoldsSerial(w: Work, memory: Memory, values: map<Key, Block>, hashes: seq<seq<Digest>>, n: nat)
    requires |memory| == n && values.Keys == Grid(Tiles(Range(0, n)), w.blocks)
    requires w.seed == SeedOf(n, w.blocks, w.epoch)
    requires forall t :: 0 <= t < n ==> Done(w, memory, values, hashes, t)
    ensures HoldsSerial(Kept(memory, values), n, w.blocks, w.epoch)
  {
    hide Grid, OutputBytes, SeedOf, Hashes;
    forall t, b | 0 <= t < n && 0 <= b < w.blocks
      ensures Address(b) in memory[t] && memory[t][Address(b)] == Output(w, t, b)
      ensures (t, b) in values && values[(t, b)] == Output(w, t, b)
    {
      assert Done(w, memory, values, hashes, t);
    }
  }

  ghost predicate ReleasedMetrics(m: Metrics, n: nat, blocks: nat, mode: Mode) {
    var root, group := RootReads(n, blocks, mode), GroupReads(n, mode);
    m == Metrics(root, group, root + group, 64 * (root + group), 64 * (root + group), true)
  }

  lemma BarrierCounts(s: Setup, blocks: nat)
    requires forall t :: 0 <= t < s.n ==> |s.hashes[t]| == blocks
    ensures ReleasedMetrics(Count(Plan(s)).(released := true), s.n, blocks, s.mode)
  {
    ReleasedAccounting(s, blocks);
  }

  // Every fault that can be injected really is, once there is an epoch before and a block to lose.
  lemma FaultVerdict(s: Setup)
    requires s.fault.Some? ==> Injectable(s.fault.value) && s.epoch > 0 && |s.hashes[s.n - 1]| > 0
    ensures Verdict(s) == if s.fault.None? then None
                          else Some(Mismatch(BarrierError(s.n - 1, s.epoch, Stage(s.mode), s.fault.value)))
  {
    hide LeafAt;
    if s.fault.Some? {
      var blocks := BlocksOf(s, s.n - 1);
      TargetCorrupts(s, |blocks| - 1);
    }
  }

  lemma TargetCorrupts(s: Setup, i: nat)
    requires s.fault.Some? && Injectable(s.fault.value) && s.epoch > 0 && |s.hashes[s.n - 1]| > 0
    requires i < |BlocksOf(s, s.n - 1)|
    ensures Corrupt(LeafAt(s, s.n - 1, i).cert, s.fault.value).Some?
  {
    hide Pack, Unpack;
    var t, hs := s.n - 1, BlocksOf(s, s.n - 1)[i];
    MaskBound([t], MAX_TILES);
    Pow2At64();
    UnpackPacked(Cert(MAGIC, s.epoch, if s.mode.EventMode? then 0 else 1, t, Mask([t]), Summary(s.h, hs), |hs|));
  }

  datatype Recovery = Recovery(retryTiles: seq<nat>, preserved: nat, barrier: Metrics, completionOnlyWouldRelease: bool)

  function LastGroup(n: nat, mode: Mode): seq<nat>
    requires n > 0
  {
    Group(n, mode, GroupCount(n, mode) - 1)
  }

  function OutsideBlocks(n: nat, g: seq<nat>, blocks: nat): int {
    (n - |g|) * blocks
  }

  // The last group's tiles, and how many blocks lie outside it.
  lemma GroupTiles(n: nat, mode: Mode, blocks: nat)
    requires n > 0
    ensures var g := LastGroup(n, mode); var all := Tiles(Range(0, n));
            && (forall i :: 0 <= i < |g| ==> g[i] < n)
            && |Grid(all - Tiles(g), blocks)| == OutsideBlocks(n, g, blocks) && |Grid(all, blocks)| == n * blocks
  {
    hide GroupCount, Grid;
    var k := GroupCount(n, mode) - 1;
    GroupStart(n, mode, k);
    LastTile(n, mode, k);
    var g, start := LastGroup(n, mode), Start(n, mode, k);
    assert g == Range(start, n);
    TilesSize(0, n);
    TilesSize(start, n);
    TilesSize(0, start);
    assert Tiles(Range(0, n)) - Tiles(g) == Tiles(Range(0, start));
    GridSize(Tiles(Range(0, start)), blocks);
    GridSize(Tiles(Range(0, n)), blocks);
  }

  ghost predicate SiblingsKept(before: Memory, after: Memory, tiles: set<nat>) {
    |before| == |after| && forall t :: 0 <= t < |before| && t !in tiles ==> SameBelow(before[t], after[t])
  }

  lemma SiblingsThroughBarrier(before: Memory, worked: Memory, after: Memory, tiles: set<nat>)
    requires OthersKept(before, worked, tiles) && OutputsKept(worked, after)
    ensures SiblingsKept(before, after, tiles)
  {
    forall t | 0 <= t < |before| && t !in tiles
      ensures SameBelow(before[t], after[t])
    {
      assert SameBelow(worked[t], after[t]);
    }
  }

  lemma GridInside(tiles: seq<nat>, n: nat, blocks: nat)
    requires forall i :: 0 <= i < |tiles| ==> tiles[i] < n
    ensures Grid(Tiles(Range(0, n)), blocks) + Grid(Tiles(tiles), blocks) == Grid(Tiles(Range(0, n)), blocks)
  {
    TilesSize(0, n);
  }

  lemma NoFaultNoFailure(s: Setup)
    requires s.fault.None?
    ensures Verdict(s).None?
  {
  }

  lemma Preserved(w: Work, memory: Memory, values: map<Key, Block>, hashes: seq<seq<Digest>>, tiles: seq<nat>,
                  preserved: map<Key, Block>, n: nat)
    requires preserved == map k | k in values && k.0 !in tiles :: values[k]
    requires values.Keys == Grid(Tiles(Range(0, n)), w.blocks)
    requires forall t :: 0 <= t < n ==> Done(w, memory, values, hashes, t)
    ensures preserved.Keys == Grid(Tiles(Range(0, n)) - Tiles(tiles), w.blocks)
    ensures forall k :: k in preserved ==> k.0 < n && k.1 < w.blocks && preserved[k] == Output(w, k.0, k.1)
  {
    TilesSize(0, n);
    forall k | k in values
      ensures k.0 < n && k.1 < w.blocks && values[k] == Output(w, k.0, k.1)
    {
      assert k in Grid(Tiles(Range(0, n)), w.blocks);
      assert Done(w, memory, values, hashes, k.0);
      assert Tabled(w, values, k.0, w.blocks);
      assert (k.0, k.1) == k;
    }
    forall k: Key
      ensures k in preserved <==> k in Grid(Tiles(Range(0, n)) - Tiles(tiles), w.blocks)
    {
      assert k in preserved <==> k in values.Keys && k.0 !in tiles;
    }
  }

  lemma AllDoneAgain(w: Work, memory0: Memory, values0: map<Key, Block>, hashes0: seq<seq<Digest>>, memory: Memory,
                     values: map<Key, Block>, hashes: seq<seq<Digest>>, tiles: set<nat>, n: nat)
    requires forall t :: 0 <= t < n ==> Done(w, memory0, values0, hashes0, t)
    requires forall t :: t in tiles ==> Done(w, memory, values, hashes, t)
    requires OthersKept(memory0, memory, tiles) && RowsKept(values0, values, tiles) && HashesKept(hashes0, hashes, tiles)
    ensures forall t :: 0 <= t < n ==> Done(w, memory, values, hashes, t)
  {
    forall t | 0 <= t < n && t !in tiles
      ensures Done(w, memory, values, hashes, t)
    {
      assert Done(w, memory0, values0, hashes0, t);
    }
  }

  lemma NeverReleased(trace: seq<Event>)
    ensures !Count(trace).released
  {
    CountConcat(trace, []);
  }

  lemma StillAllDone(w: Work, before: Memory, after: Memory, values: map<Key, Block>, hashes: seq<seq<Digest>>, n: nat)
    requires OutputsKept(before, after) && w.blocks <= MAX_BLOCKS
    requires forall t :: 0 <= t < n ==> Done(w, before, values, hashes, t)
    ensures forall t :: 0 <= t < n ==> Done(w, after, values, hashes, t)
  {
    forall t | 0 <= t < n
      ensures Done(w, after, values, hashes, t)
    {
      assert Done(w, before, values, hashes, t);
      CommittedThroughBarrier(w, before, after, t, w.blocks);
    }
  }

  lemma Sized(w: Work, memory: Memory, values: map<Key, Block>, hashes: seq<seq<Digest>>, n: nat)
    requires n == |hashes| && w.blocks <= MAX_BLOCKS && forall t :: 0 <= t < n ==> Done(w, memory, values, hashes, t)
    ensures forall t :: 0 <= t < n ==> |hashes[t]| == w.blocks
  {
    forall t | 0 <= t < n
      ensures |hashes[t]| == w.blocks
    {
      assert Done(w, memory, values, hashes, t);
    }
  }

  // ---------------------------------------------------------------- barriers release only at the end

  ghost predicate ReleaseFree(events: seq<Event>) {
    forall i :: 0 <= i < |events| ==> !events[i].Release?
  }

  lemma {:induction false} ConcatReleaseFree(parts: seq<seq<Event>>)
    requires forall i :: 0 <= i < |parts| ==> ReleaseFree(parts[i])
    ensures ReleaseFree(Concat(parts))
  {
    if parts != [] {
      ConcatReleaseFree(parts[..|parts| - 1]);
    }
  }

  lemma PlanReleaseFree(s: Setup)
    ensures ReleaseFree(Plan(s))
  {
    hide Parent, LeafAt;
    if Nested(s.mode) {
      var plans := GroupPlans(s, GroupCount(s.n, s.mode));
      forall i | 0 <= i < |plans|
        ensures ReleaseFree(plans[i])
      {
        assert plans[i] == GroupPlan(s, i);
      }
      ConcatReleaseFree(plans);
    }
  }

  lemma NoRelease(s: Setup, trace: seq<Event>, r: Result<Metrics, Failure>)
    requires r.Ok? ==> trace == Plan(s)
    requires r.Err? && r.error.Mismatch? ==> Stopped(Plan(s), trace, r.error.error)
    ensures r.Ok? || r.error.Mismatch? ==> ReleaseFree(trace)
  {
    hide Plan, CheckCertificate;
    PlanReleaseFree(s);
    if r.Err? && r.error.Mismatch? {
      var m := |trace| - 1;
      forall i | 0 <= i < |trace|
        ensures !trace[i].Release?
      {
        if i < m {
          assert trace[i] == trace[..m][i] == Plan(s)[..m][i];
        }
      }
    }
  }

  lemma OneMoreBlock(w: Work, memory: Memory, values: map<Key, Block>, hashes: seq<seq<Digest>>, tile: nat, block: nat)
    requires tile < |memory| == |hashes| && hashes[tile] == Hashes(w, tile, block)
    requires Committed(w, memory, tile, block) && Tabled(w, values, tile, block)
    ensures Committed(w, Stored(memory, tile, Address(block), Output(w, tile, block)), tile, block + 1)
    ensures Tabled(w, values[(tile, block) := Output(w, tile, block)], tile, block + 1)
    ensures hashes[tile] + [OutputHash(w, tile, block)] == Hashes(w, tile, block + 1)
    ensures Row(tile, block) + {(tile, block)} == Row(tile, block + 1)
  {
  }

  lemma OneMoreTile(tiles: seq<nat>, i: nat, blocks: nat)
    requires i < |tiles|
    ensures Tiles(tiles[..i + 1]) == Tiles(tiles[..i]) + {tiles[i]}
    ensures Grid(Tiles(tiles[..i + 1]), blocks) == Grid(Tiles(tiles[..i]), blocks) + Row(tiles[i], blocks)
    ensures (i + 1) * blocks == i * blocks + blocks
  {
    assert tiles[..i + 1] == tiles[..i] + [tiles[i]];
  }

  lemma StillDone(w: Work, memory0: Memory, values0: map<Key, Block>, hashes0: seq<seq<Digest>>, memory: Memory,
                  values: map<Key, Block>, hashes: seq<seq<Digest>>, tile: nat, t: nat)
    requires Done(w, memory0, values0, hashes0, t) && t != tile
    requires OthersKept(memory0, memory, {tile}) && RowsKept(values0, values, {tile})
    requires HashesKept(hashes0, hashes, {tile})
    ensures Done(w, memory, values, hashes, t)
  {
  }
}
