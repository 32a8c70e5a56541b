// The barrier controller over device memories that may return anything: release, attribution, and what happens on
// honest devices with and without an injected fault.
module Barrier {
  import opened Wrappers
  import opened Certificate
  import opened BarrierPlan

  type Memory = seq<map<nat, Block>>

  // Refused: a changed field no longer packs, or the fault is not one of the four that can be injected.
  datatype Failure = Mismatch(error: BarrierError) | Refused

  // ---------------------------------------------------------------- devices

  class EventLog {
    var events: seq<Event>

    constructor ()
      ensures events == []
    {
      events := [];
    }
  }

  // One memory per tile, in 64-byte cells. The k-th read may be answered with something else.
  class Simulator {
    const tamper: nat -> Option<Block>
    var memory: Memory
    var consumed: nat

    constructor (n: nat, tamper: nat -> Option<Block>)
      ensures |memory| == n && this.tamper == tamper
    {
      this.tamper, memory, consumed := tamper, seq(n, i => map[]), 0;
    }

    ghost predicate Honest() {
      forall k :: tamper(k).None?
    }

    method DeviceWrite(tile: nat, offset: nat, data: Block)
      requires tile < |memory|
      modifies this`memory
      ensures memory == Stored(old(memory), tile, offset, data)
    {
      memory := Stored(memory, tile, offset, data);
    }

    // The host's view of the same memory.
    method Publish(tile: nat, offset: nat, data: Block)
      requires tile < |memory|
      modifies this`memory
      ensures memory == Stored(old(memory), tile, offset, data)
    {
      memory := Stored(memory, tile, offset, data);
    }

    method Consume(tile: nat, offset: nat) returns (data: Block)
      requires tile < |memory| && offset in memory[tile]
      modifies this`consumed
      ensures consumed == old(consumed) + 1
      ensures data == if tamper(old(consumed)).Some? then tamper(old(consumed)).value else memory[tile][offset]
    {
      var answer := tamper(consumed);
      data := if answer.Some? then answer.value else memory[tile][offset];
      consumed := consumed + 1;
    }
  }

  function Stored(memory: Memory, tile: nat, offset: nat, data: Block): Memory
    requires tile < |memory|
  {
    var cells: map<nat, Block> := memory[tile][offset := data];
    memory[tile := cells]
  }

  // ---------------------------------------------------------------- certificates in memory

  ghost predicate Present(memory: Memory, l: Leaf) {
    l.tile < |memory| && l.offset in memory[l.tile]
  }

  ghost function Content(memory: Memory, l: Leaf): Block
    requires Present(memory, l)
  {
    memory[l.tile][l.offset]
  }

  ghost predicate AllPresent(memory: Memory, leaves: seq<Leaf>) {
    forall k :: 0 <= k < |leaves| ==> Present(memory, leaves[k])
  }

  ghost predicate Agrees(memory: Memory, l: Leaf) {
    Present(memory, l) && Content(memory, l) == l.cert
  }

  ghost predicate AsWritten(s: Setup, memory: Memory, leaves: seq<Leaf>)
  {
    forall k :: 0 <= k < |leaves| ==> Present(memory, leaves[k]) && Content(memory, leaves[k]) == Written(s, leaves[k])
  }

  // Nothing below the certificate regions has moved.
  ghost predicate OutputsKept(before: Memory, after: Memory) {
    |before| == |after| && forall t :: 0 <= t < |before| ==> SameBelow(before[t], after[t])
  }

  ghost predicate SameBelow(before: map<nat, Block>, after: map<nat, Block>) {
    forall o :: o < LEAF ==> (o in before <==> o in after) && (o in before ==> before[o] == after[o])
  }

  lemma StoreKeeps(start: Memory, memory: Memory, tile: nat, offset: nat, data: Block)
    requires OutputsKept(start, memory) && tile < |memory| && offset >= LEAF
    ensures OutputsKept(start, Stored(memory, tile, offset, data))
  {
    var after := Stored(memory, tile, offset, data);
    forall t | 0 <= t < |start|
      ensures SameBelow(start[t], after[t])
    {
      assert SameBelow(start[t], memory[t]);
    }
  }

  lemma OutputsKeptStays(a: Memory, b: Memory, c: Memory)
    requires OutputsKept(a, b) && OutputsKept(b, c)
    ensures OutputsKept(a, c)
  {
    forall t | 0 <= t < |a|
      ensures SameBelow(a[t], c[t])
    {
      assert SameBelow(a[t], b[t]) && SameBelow(b[t], c[t]);
    }
  }

  lemma StoreElsewhere(s: Setup, memory: Memory, leaves: seq<Leaf>, tile: nat, offset: nat, data: Block)
    requires AsWritten(s, memory, leaves) && tile < |memory|
    requires forall k :: 0 <= k < |leaves| ==> leaves[k].tile != tile || leaves[k].offset != offset
    ensures AsWritten(s, Stored(memory, tile, offset, data), leaves)
  {
  }

  // ---------------------------------------------------------------- what an injected fault must lead to

  ghost predicate Sabotaged(s: Setup, l: Leaf)
  {
    Hit(s, l) && Corrupt(l.cert, s.fault.value).Some?
  }

  // A leaf as written fails its check exactly when it was sabotaged, and then under the fault's own name.
  lemma WrittenCheck(s: Setup, l: Leaf, role: Role)
    ensures CheckCertificate(Written(s, l), l.cert, l.tile, s.epoch, role)
              == if Sabotaged(s, l) then Some(BarrierError(s.n - 1, s.epoch, role, s.fault.value)) else None
  {
    hide CheckCertificate;
    if Sabotaged(s, l) {
      FaultIsAttributed(l.cert, s.fault.value, l.tile, s.epoch, role);
    }
  }

  function Stage(mode: Mode): Role {
    if Nested(mode) then GroupRole else RootRole
  }

  // No failure without a fault or without any certificate to put it on.
  function Verdict(s: Setup): Option<Failure>
  {
    var blocks := BlocksOf(s, s.n - 1);
    if s.fault.None? || blocks == [] then None
    else if Corrupt(LeafAt(s, s.n - 1, |blocks| - 1).cert, s.fault.value).None? then Some(Refused)
    else Some(Mismatch(BarrierError(s.n - 1, s.epoch, Stage(s.mode), s.fault.value)))
  }

  ghost predicate Broke(before: seq<Event>, plan: seq<Event>, after: seq<Event>, e: BarrierError) {
    |before| <= |after| && after[..|before|] == before && Stopped(plan, after[|before|..], e)
  }

  lemma BrokeEarly(before: seq<Event>, a: seq<Event>, b: seq<Event>, after: seq<Event>, e: BarrierError)
    requires Broke(before, a, after, e)
    ensures Broke(before, a + b, after, e)
  {
    StoppedEarly(a, b, after[|before|..], e);
  }

  lemma BrokeLater(before: seq<Event>, a: seq<Event>, b: seq<Event>, after: seq<Event>, e: BarrierError)
    requires Broke(before + a, b, after, e)
    ensures Broke(before, a + b, after, e)
  {
    var tail := after[|before + a|..];
    StoppedLater(a, b, tail, e);
    assert after == before + a + tail;
    assert after[|before|..] == a + tail;
  }

  lemma ReadOneMore(s: Setup, leaves: seq<Leaf>, k: nat, role: Role, before: seq<Event>)
    requires k < |leaves|
    ensures var l := leaves[k];
            before + ReadEvents(s, leaves[..k], role)
              + [CertificateRead(s.epoch, l.tile, l.offset, role, l.cert, l.cert)]
              == before + ReadEvents(s, leaves[..k + 1], role)
    ensures var l := leaves[k];
            ReadEvents(s, leaves[..k], role) + [CertificateRead(s.epoch, l.tile, l.offset, role, l.cert, l.cert)]
              == ReadEvents(s, leaves[..k + 1], role)
    ensures ReadEvents(s, leaves[..k + 1], role) <= ReadEvents(s, leaves, role)
    ensures Certs(leaves[..k + 1]) == Certs(leaves[..k]) + [leaves[k].cert]
  {
    var l := leaves[k];
    assert ReadEvents(s, leaves[..k], role) + [CertificateRead(s.epoch, l.tile, l.offset, role, l.cert, l.cert)]
        == ReadEvents(s, leaves[..k + 1], role);
  }

  lemma BrokeInside(s: Setup, leaves: seq<Leaf>, k: nat, role: Role, before: seq<Event>, after: seq<Event>,
                    e: BarrierError)
    requires k < |leaves|
    requires var l := leaves[k];
             Broke(before + ReadEvents(s, leaves[..k], role),
                   [CertificateRead(s.epoch, l.tile, l.offset, role, l.cert, l.cert)], after, e)
    ensures Broke(before, ReadEvents(s, leaves, role), after, e)
  {
    var l := leaves[k];
    ReadOneMore(s, leaves, k, role, before);
    var one, all := ReadEvents(s, leaves[..k + 1], role), ReadEvents(s, leaves, role);
    BrokeLater(before, ReadEvents(s, leaves[..k], role),
               [CertificateRead(s.epoch, l.tile, l.offset, role, l.cert, l.cert)], after, e);
    assert all == one + all[|one|..];
    BrokeEarly(before, one, all[|one|..], after, e);
  }

  // Certificates written so far sit at addresses before (tile, LEAF + i * 64).
  ghost predicate Earlier(leaves: seq<Leaf>, tile: nat, i: nat) {
    forall k :: 0 <= k < |leaves| ==>
      leaves[k].tile < tile || (leaves[k].tile == tile && leaves[k].offset < LEAF + i * 64)
  }

  lemma WriteOneMore(s: Setup, leaves: seq<Leaf>, l: Leaf)
    ensures WriteEvents(s, leaves + [l])
              == WriteEvents(s, leaves) + [CertificateWrite(s.epoch, l.tile, l.offset, LeafRole, Written(s, l))]
  {
  }

  lemma StoreLeaf(s: Setup, memory: Memory, leaves: seq<Leaf>, tile: nat, i: nat)
    requires tile < s.n == |memory| && i < |BlocksOf(s, tile)|
    requires AsWritten(s, memory, leaves) && Earlier(leaves, tile, i)
    ensures var l := LeafAt(s, tile, i);
            && AsWritten(s, Stored(memory, tile, l.offset, Written(s, l)), leaves + [l])
            && Earlier(leaves + [l], tile, i + 1)
  {
    var l := LeafAt(s, tile, i);
    StoreElsewhere(s, memory, leaves, tile, l.offset, Written(s, l));
  }

  lemma TargetIsHit(s: Setup, tile: nat, i: nat)
    requires tile < s.n && i < |BlocksOf(s, tile)|
    ensures Hit(s, LeafAt(s, tile, i)) <==> Target(s, tile, i)
  {
    assert LeafAt(s, tile, i).tile == tile && LeafAt(s, tile, i).offset == LEAF + i * 64;
  }

  // The verdict is about the one target certificate.
  lemma TargetVerdict(s: Setup, tile: nat, i: nat)
    requires tile < s.n && i < |BlocksOf(s, tile)| && Target(s, tile, i)
    ensures Verdict(s) == if Sabotaged(s, LeafAt(s, tile, i))
                          then Some(Mismatch(BarrierError(s.n - 1, s.epoch, Stage(s.mode), s.fault.value)))
                          else Some(Refused)
  {
    hide Certify;
    TargetIsHit(s, tile, i);
  }

  lemma {:induction false} LeafOf(s: Setup, t: nat, k: nat) returns (tile: nat, i: nat)
    requires t <= s.n && k < |LeavesTo(s, t)|
    ensures tile < t && i < |BlocksOf(s, tile)| && LeavesTo(s, t)[k] == LeafAt(s, tile, i)
  {
    hide LeafAt;
    var front := LeavesTo(s, t - 1);
    if k < |front| {
      tile, i := LeafOf(s, t - 1, k);
    } else {
      tile, i := t - 1, k - |front|;
    }
  }

  // A blamed certificate read from honest memory was the sabotaged one.
  lemma HonestBlame(s: Setup, memory: Memory, l: Leaf, role: Role, e: BarrierError, tile: nat, i: nat)
    requires tile < s.n && i < |BlocksOf(s, tile)| && l == LeafAt(s, tile, i) && role == Stage(s.mode)
    requires AsWritten(s, memory, [l])
    requires CheckCertificate(Content(memory, [l][0]), l.cert, l.tile, s.epoch, role) == Some(e)
    ensures Verdict(s) == Some(Mismatch(e))
  {
    WrittenCheck(s, l, role);
    TargetIsHit(s, tile, i);
    TargetVerdict(s, tile, i);
  }

  // Had the target certificate read back right, nothing was sabotaged.
  lemma HonestTarget(s: Setup, memory: Memory, l: Leaf)
    requires Verdict(s) != Some(Refused) && BlocksOf(s, s.n - 1) != []
    requires l == LeafAt(s, s.n - 1, |BlocksOf(s, s.n - 1)| - 1)
    requires AsWritten(s, memory, [l]) && Content(memory, [l][0]) == l.cert
    ensures Verdict(s) == None
  {
    hide Certify, CheckCertificate, Corrupt;
    var n := |BlocksOf(s, s.n - 1)|;
    if s.fault.Some? {
      TargetVerdict(s, s.n - 1, n - 1);
      WrittenCheck(s, l, RootRole);
    }
  }

  lemma TileLeavesNext(s: Setup, tile: nat, i: nat, before: seq<Leaf>)
    requires tile < s.n && i < |BlocksOf(s, tile)|
    ensures before + TileLeaves(s, tile, i) + [LeafAt(s, tile, i)] == before + TileLeaves(s, tile, i + 1)
  {
    assert TileLeaves(s, tile, i) + [LeafAt(s, tile, i)] == TileLeaves(s, tile, i + 1);
  }

  class Barrier {
    const sim: Simulator
    const log: EventLog
    const setup: Setup
    var metrics: Metrics
    ghost var base: seq<Event>
    ghost var trace: seq<Event>

    ghost predicate Valid()
      reads this, sim`memory, log
    {
      setup.n == |sim.memory| && log.events == base + trace && metrics == Count(trace)
    }

    constructor (sim: Simulator, log: EventLog, setup: Setup)
      requires setup.n == |sim.memory|
      ensures Valid() && this.sim == sim && this.log == log && this.setup == setup
      ensures trace == [] && base == log.events
    {
      this.sim, this.log, this.setup := sim, log, setup;
      metrics, base, trace := Metrics(0, 0, 0, 0, 0, false), log.events, [];
    }

    method Put(tile: nat, offset: nat, data: Block, role: Role)
      requires Valid() && tile < setup.n
      modifies sim`memory, log`events, this`metrics, this`trace
      ensures Valid() && sim.memory == Stored(old(sim.memory), tile, offset, data)
      ensures trace == old(trace) + [CertificateWrite(setup.epoch, tile, offset, role, data)]
    {
      sim.DeviceWrite(tile, offset, data);
      metrics := metrics.(certificateWrites := metrics.certificateWrites + 1,
                          certificateBytesWritten := metrics.certificateBytesWritten + 64);
      ghost var e := CertificateWrite(setup.epoch, tile, offset, role, data);
      log.events := log.events + [CertificateWrite(setup.epoch, tile, offset, role, data)];
      assert (trace + [e])[..|trace|] == trace;
      trace := trace + [e];
    }

    method Get(tile: nat, offset: nat, expected: Block, role: Role, owner: nat) returns (r: Result<Block, BarrierError>)
      requires Valid() && Present(sim.memory, Leaf(tile, offset, expected)) && !role.LeafRole? && owner == tile
      modifies sim`consumed, log`events, this`metrics, this`trace
      ensures Valid()
      ensures r.Ok? ==> r.value == expected
      ensures r.Ok? ==>
                trace == old(trace) + [CertificateRead(setup.epoch, tile, offset, role, expected, expected)]
      ensures r.Err? ==>
                Broke(old(trace), [CertificateRead(setup.epoch, tile, offset, role, expected, expected)], trace, r.error)
      ensures sim.Honest() ==>
                var check := CheckCertificate(sim.memory[tile][offset], expected, owner, setup.epoch, role);
                if check.None? then r.Ok? else r == Err(check.value)
    {
      hide CheckCertificate;
      var actual := sim.Consume(tile, offset);
      metrics := if role.RootRole? then metrics.(rootReads := metrics.rootReads + 1)
                 else metrics.(groupReads := metrics.groupReads + 1);
      metrics := metrics.(certificateBytesRead := metrics.certificateBytesRead + 64);
      ghost var e := CertificateRead(setup.epoch, tile, offset, role, actual, expected);
      log.events := log.events + [CertificateRead(setup.epoch, tile, offset, role, actual, expected)];
      assert (trace + [e])[..|trace|] == trace && (trace + [e])[|trace|..] == [e];
      trace := trace + [e];
      var check := CheckCertificate(actual, expected, owner, setup.epoch, role);
      r := if check.None? then Ok(actual) else Err(check.value);
    }

    // Read back and check a list of certificates, each owned by the tile it is read from.
    method GetAll(leaves: seq<Leaf>, role: Role) returns (r: Result<seq<Block>, BarrierError>, ghost at: nat)
      requires Valid() && AllPresent(sim.memory, leaves) && !role.LeafRole?
      modifies sim`consumed, log`events, this`metrics, this`trace
      ensures Valid()
      ensures r.Ok? ==> r.value == Certs(leaves) && trace == old(trace) + ReadEvents(setup, leaves, role)
      ensures r.Err? ==> Broke(old(trace), ReadEvents(setup, leaves, role), trace, r.error)
      ensures sim.Honest() && r.Ok? ==> forall k :: 0 <= k < |leaves| ==> Agrees(sim.memory, leaves[k])
      ensures sim.Honest() && r.Err? ==> at < |leaves| && Blames(leaves[at], role, r.error)
    {
      hide CheckCertificate, Broke, ReadEvents;
      var certs := [];
      at := 0;
      for k := 0 to |leaves|
        invariant Valid() && certs == Certs(leaves[..k])
        invariant trace == old(trace) + ReadEvents(setup, leaves[..k], role)
        invariant sim.Honest() ==> forall j :: 0 <= j < k ==> Agrees(sim.memory, leaves[j])
      {
        ReadOneMore(setup, leaves, k, role, old(trace));
        var l := leaves[k];
        assert Present(sim.memory, l);
        var got := Get(l.tile, l.offset, l.cert, role, l.tile);
        if got.Err? {
          BrokeInside(setup, leaves, k, role, old(trace), trace, got.error);
          return Err(got.error), k;
        }
        certs := certs + [got.value];
      }
      assert leaves[..|leaves|] == leaves;
      r := Ok(certs);
    }

    ghost predicate Blames(l: Leaf, role: Role, e: BarrierError)
      reads sim`memory
    {
      Present(sim.memory, l)
        && CheckCertificate(Content(sim.memory, l), l.cert, l.tile, setup.epoch, role) == Some(e)
    }

    // Write certificate i of a tile, corrupted when it is the one the fault is for.
    method WriteOne(tile: nat, i: nat, ghost leaves: seq<Leaf>) returns (ok: bool, l: Leaf)
      requires Valid() && tile < setup.n && i < |BlocksOf(setup, tile)| && trace == WriteEvents(setup, leaves)
      requires AsWritten(setup, sim.memory, leaves) && Earlier(leaves, tile, i)
      modifies sim`memory, log`events, this`metrics, this`trace
      ensures Valid() && OutputsKept(old(sim.memory), sim.memory)
      ensures l == LeafAt(setup, tile, i)
      ensures !ok ==> Verdict(setup) == Some(Refused)
      ensures ok ==> trace == WriteEvents(setup, leaves + [l]) && AsWritten(setup, sim.memory, leaves + [l])
      ensures ok ==> Earlier(leaves + [l], tile, i + 1)
      ensures ok && Target(setup, tile, i) ==> Verdict(setup) != Some(Refused)
    {
      hide Certify, Verdict;
      l := LeafAt(setup, tile, i);
      var actual := l.cert;
      TargetIsHit(setup, tile, i);
      ok := true;
      if setup.fault.Some? && tile == setup.n - 1 && i == |BlocksOf(setup, tile)| - 1 {
        TargetVerdict(setup, tile, i);
        var corrupted := Corrupt(actual, setup.fault.value);
        if corrupted.None? {
          ok := false;
          return;
        }
        actual := corrupted.value;
      }
      StoreLeaf(setup, sim.memory, leaves, tile, i);
      StoreKeeps(sim.memory, sim.memory, tile, l.offset, actual);
      WriteOneMore(setup, leaves, l);
      Put(tile, l.offset, actual, LeafRole);
    }

    method WriteTile(tile: nat, leaves0: seq<Leaf>) returns (ok: bool, leaves: seq<Leaf>)
      requires Valid() && tile < setup.n && trace == WriteEvents(setup, leaves0)
      requires AsWritten(setup, sim.memory, leaves0) && Earlier(leaves0, tile, 0)
      modifies sim`memory, log`events, this`metrics, this`trace
      ensures Valid() && OutputsKept(old(sim.memory), sim.memory)
      ensures !ok ==> Verdict(setup) == Some(Refused)
      ensures ok ==> leaves == leaves0 + TileLeaves(setup, tile, |BlocksOf(setup, tile)|)
      ensures ok ==> trace == WriteEvents(setup, leaves) && AsWritten(setup, sim.memory, leaves)
      ensures ok ==> Earlier(leaves, tile + 1, 0) && (tile == setup.n - 1 ==> Verdict(setup) != Some(Refused))
    {
      hide Certify;
      leaves, ok := leaves0, true;
      var blocks := BlocksOf(setup, tile);
      for i := 0 to |blocks|
        invariant Valid() && OutputsKept(old(sim.memory), sim.memory)
        invariant leaves == leaves0 + TileLeaves(setup, tile, i)
        invariant trace == WriteEvents(setup, leaves)
        invariant AsWritten(setup, sim.memory, leaves) && Earlier(leaves, tile, i)
        invariant i == |blocks| && tile == setup.n - 1 ==> Verdict(setup) != Some(Refused)
      {
        ghost var before := sim.memory;
        var l;
        ok, l := WriteOne(tile, i, leaves);
        OutputsKeptStays(old(sim.memory), before, sim.memory);
        if !ok {
          return;
        }
        TileLeavesNext(setup, tile, i, leaves0);
        leaves := leaves + [l];
      }
      ok := true;
    }

    method WriteLeaves() returns (ok: bool, leaves: seq<Leaf>)
      requires Valid() && trace == []
      modifies sim`memory, log`events, this`metrics, this`trace
      ensures Valid() && OutputsKept(old(sim.memory), sim.memory)
      ensures ok <==> Verdict(setup) != Some(Refused)
      ensures ok ==> leaves == LeavesTo(setup, setup.n) && trace == WriteEvents(setup, leaves)
      ensures ok ==> AsWritten(setup, sim.memory, leaves)
    {
      hide Verdict, LeafAt;
      leaves, ok := [], true;
      for tile := 0 to setup.n
        invariant Valid() && OutputsKept(old(sim.memory), sim.memory)
        invariant leaves == LeavesTo(setup, tile) && trace == WriteEvents(setup, leaves)
        invariant AsWritten(setup, sim.memory, leaves) && Earlier(leaves, tile, 0)
        invariant tile == setup.n ==> Verdict(setup) != Some(Refused)
      {
        ghost var before := sim.memory;
        ok, leaves := WriteTile(tile, leaves);
        OutputsKeptStays(old(sim.memory), before, sim.memory);
        if !ok {
          return;
        }
      }
      ok := true;
    }

    method CheckMembers(leaves: seq<Leaf>, k: nat) returns (certs: Result<seq<Block>, BarrierError>)
      requires Valid() && Nested(setup.mode) && k < GroupCount(setup.n, setup.mode)
      requires leaves == LeavesTo(setup, setup.n) && AsWritten(setup, sim.memory, leaves)
      requires Verdict(setup) != Some(Refused)
      modifies sim`consumed, log`events, this`metrics, this`trace
      ensures Valid()
      ensures var mine := GroupLeaves(setup, k);
              certs.Ok? ==> certs.value == Certs(mine) && trace == old(trace) + ReadEvents(setup, mine, GroupRole)
      ensures certs.Err? ==> Broke(old(trace), GroupPlan(setup, k), trace, certs.error)
      ensures sim.Honest() && certs.Err? ==> Verdict(setup) == Some(Mismatch(certs.error))
      ensures sim.Honest() && certs.Ok? && k == GroupCount(setup.n, setup.mode) - 1 ==> Verdict(setup) == None
    {
      hide Certify, Parent, GroupPlan, Broke, Verdict, LeafAt, ReadEvents, AsWritten;
      var members := Group(setup.n, setup.mode, k);
      GroupRises(setup, k);
      NestedLeaves(setup, setup.n);
      var mine := seq(|members|, j requires 0 <= j < |members| => leaves[members[j]]);
      assert mine == GroupLeaves(setup, k);
      MembersWritten(setup, sim.memory, k);
      ghost var at;
      certs, at := GetAll(mine, GroupRole);
      if certs.Err? {
        GroupPlanIs(setup, k, old(trace));
        BrokeEarly(old(trace), ReadEvents(setup, mine, GroupRole), [ParentWrite(setup, k)], trace, certs.error);
      }
      if sim.Honest() {
        if certs.Err? {
          MemberBlamed(setup, sim.memory, k, at, certs.error);
        } else if k == GroupCount(setup.n, setup.mode) - 1 {
          LastGroupAgrees(setup, sim.memory);
        }
      }
    }

    // The group's certificate, from the members' certificates as read.
    method CertifyGroup(k: nat, certs: seq<Block>)
      requires Valid() && Nested(setup.mode) && k < GroupCount(setup.n, setup.mode)
      requires certs == Certs(GroupLeaves(setup, k))
      modifies sim`memory, log`events, this`metrics, this`trace
      ensures Valid() && trace == old(trace) + [ParentWrite(setup, k)]
      ensures sim.memory == Stored(old(sim.memory), Representative(setup, k), GROUP, Parent(setup, k))
    {
      var members := Group(setup.n, setup.mode, k);
      GroupRises(setup, k);
      var representative := members[setup.epoch % |members|];
      var parent := Certify(setup.h, setup.epoch, 2, representative, members, HashAll(setup.h, certs),
                            CountHashes(setup, members));
      Put(representative, GROUP, parent, GroupRole);
    }

    // Check a group's members, then certify the group at its representative.
    method ReadGroup(leaves: seq<Leaf>, k: nat) returns (r: Option<BarrierError>)
      requires Valid() && Nested(setup.mode) && k < GroupCount(setup.n, setup.mode)
      requires leaves == LeavesTo(setup, setup.n) && AsWritten(setup, sim.memory, leaves)
      requires Verdict(setup) != Some(Refused)
      modifies sim, log`events, this`metrics, this`trace
      ensures Valid()
      ensures r.None? ==> trace == old(trace) + GroupPlan(setup, k)
      ensures r.None? ==> sim.memory == Stored(old(sim.memory), Representative(setup, k), GROUP, Parent(setup, k))
      ensures r.Some? ==> sim.memory == old(sim.memory) && Broke(old(trace), GroupPlan(setup, k), trace, r.value)
      ensures sim.Honest() && r.Some? ==> Verdict(setup) == Some(Mismatch(r.value))
      ensures sim.Honest() && r.None? && k == GroupCount(setup.n, setup.mode) - 1 ==> Verdict(setup) == None
    {
      hide Parent, GroupPlan, Verdict, Broke;
      var certs := CheckMembers(leaves, k);
      if certs.Err? {
        return Some(certs.error);
      }
      GroupPlanIs(setup, k, old(trace));
      CertifyGroup(k, certs.value);
      r := None;
    }

    method ReadGroups(leaves: seq<Leaf>) returns (r: Option<BarrierError>, parents: seq<Leaf>)
      requires Valid() && Nested(setup.mode) && leaves == LeavesTo(setup, setup.n)
      requires AsWritten(setup, sim.memory, leaves) && Verdict(setup) != Some(Refused)
      modifies sim, log`events, this`metrics, this`trace
      ensures Valid() && OutputsKept(old(sim.memory), sim.memory)
      ensures var groups := GroupCount(setup.n, setup.mode);
              r.None? ==>
                && trace == old(trace) + Concat(GroupPlans(setup, groups)) && parents == ParentLeaves(setup, groups)
                && ParentsAgree(setup, sim.memory, groups)
      ensures r.Some? ==> Broke(old(trace), ReadPlan(setup), trace, r.value)
      ensures sim.Honest() ==> Verdict(setup) == if r.None? then None else Some(Mismatch(r.value))
    {
      hide Parent, GroupPlan, ReadPlan, Verdict;
      var groups := GroupCount(setup.n, setup.mode);
      parents := [];
      ghost var all := GroupPlans(setup, groups);
      for k := 0 to groups
        invariant Valid() && OutputsKept(old(sim.memory), sim.memory) && AsWritten(setup, sim.memory, leaves)
        invariant trace == old(trace) + Concat(all[..k])
        invariant parents == ParentLeaves(setup, k) && ParentsAgree(setup, sim.memory, k)
        invariant sim.Honest() && k == groups ==> Verdict(setup) == None
      {
        TraceStep(setup, k, old(trace));
        StoreParent(setup, old(sim.memory), sim.memory, k);
        var failed := ReadGroup(leaves, k);
        if failed.Some? {
          BrokeInGroup(setup, k, old(trace), trace, failed.value);
          r := failed;
          return;
        }
        ParentLeavesNext(setup, k);
        parents := parents + [ParentLeaf(setup, k)];
      }
      assert all[..groups] == all;
      r := None;
    }

    method ReadRoots(parents: seq<Leaf>) returns (r: Option<BarrierError>)
      requires Valid() && Nested(setup.mode) && parents == ParentLeaves(setup, GroupCount(setup.n, setup.mode))
      requires ParentsAgree(setup, sim.memory, |parents|)
      modifies sim`consumed, log`events, this`metrics, this`trace
      ensures Valid()
      ensures r.None? ==> trace == old(trace) + ReadEvents(setup, parents, RootRole)
      ensures r.Some? ==> Broke(old(trace), ReadEvents(setup, parents, RootRole), trace, r.value)
      ensures sim.Honest() ==> r.None?
    {
      var got;
      ghost var at;
      assert forall j :: 0 <= j < |parents| ==> Agrees(sim.memory, parents[j]);
      got, at := GetAll(parents, RootRole);
      r := if got.Ok? then None else Some(got.error);
    }

    // All groups, then their certificates at the root.
    method ReadNested(leaves: seq<Leaf>) returns (r: Option<BarrierError>)
      requires Valid() && Nested(setup.mode) && leaves == LeavesTo(setup, setup.n)
      requires AsWritten(setup, sim.memory, leaves) && Verdict(setup) != Some(Refused)
      modifies sim, log`events, this`metrics, this`trace
      ensures Valid() && OutputsKept(old(sim.memory), sim.memory)
      ensures r.None? ==> trace == old(trace) + ReadPlan(setup)
      ensures r.Some? ==> Broke(old(trace), ReadPlan(setup), trace, r.value)
      ensures sim.Honest() ==> Verdict(setup) == if r.None? then None else Some(Mismatch(r.value))
    {
      hide Parent, GroupPlan, ReadPlan, Verdict, Broke;
      var parents;
      r, parents := ReadGroups(leaves);
      if r.None? {
        r := ReadRoots(parents);
        RootsLast(setup, old(trace), trace, r);
      }
    }

    method ReadFlat(leaves: seq<Leaf>) returns (r: Option<BarrierError>)
      requires Valid() && !Nested(setup.mode) && leaves == LeavesTo(setup, setup.n)
      requires AsWritten(setup, sim.memory, leaves) && Verdict(setup) != Some(Refused)
      modifies sim`consumed, log`events, this`metrics, this`trace
      ensures Valid()
      ensures r.None? ==> trace == old(trace) + ReadPlan(setup)
      ensures r.Some? ==> Broke(old(trace), ReadPlan(setup), trace, r.value)
      ensures sim.Honest() ==> Verdict(setup) == if r.None? then None else Some(Mismatch(r.value))
    {
      var got;
      ghost var at;
      got, at := GetAll(leaves, RootRole);
      if sim.Honest() {
        if got.Err? {
          LeafBlamed(setup, sim.memory, at, got.error);
        } else {
          AllAgree(setup, sim.memory);
        }
      }
      r := if got.Ok? then None else Some(got.error);
    }

    method ReadBack(leaves: seq<Leaf>) returns (r: Option<BarrierError>)
      requires Valid() && leaves == LeavesTo(setup, setup.n) && trace == WriteEvents(setup, leaves)
      requires AsWritten(setup, sim.memory, leaves) && Verdict(setup) != Some(Refused)
      modifies sim, log`events, this`metrics, this`trace
      ensures Valid() && OutputsKept(old(sim.memory), sim.memory)
      ensures if r.None? then trace == Plan(setup) else Stopped(Plan(setup), trace, r.value)
      ensures sim.Honest() ==> Verdict(setup) == if r.None? then None else Some(Mismatch(r.value))
    {
      hide Parent, GroupPlan, ReadPlan, Verdict, Broke;
      if Nested(setup.mode) {
        r := ReadNested(leaves);
      } else {
        r := ReadFlat(leaves);
      }
      if r.Some? {
        BrokeWhole(WriteEvents(setup, leaves), ReadPlan(setup), trace, r.value);
      }
    }

    // Released exactly by a complete run in which every receipt equalled the expected certificate; otherwise the
    // run stopped at the first receipt that did not, blaming its tile and first differing field, or refused to
    // write the fault. On honest devices the outcome is the one the fault demands.
    method Execute() returns (r: Result<Metrics, Failure>)
      requires Valid() && trace == []
      modifies sim, log`events, this`metrics, this`trace
      ensures setup.n == |sim.memory| && OutputsKept(old(sim.memory), sim.memory)
      ensures r.Ok? ==>
                && trace == Plan(setup) && metrics == r.value == Count(trace).(released := true)
                && log.events == old(log.events) + trace
                                   + [Release(setup.epoch, setup.epoch % setup.n, Range(0, setup.n))]
      ensures r.Err? ==> log.events == old(log.events) + trace && metrics == Count(trace)
      ensures r.Err? && r.error.Mismatch? ==> Stopped(Plan(setup), trace, r.error.error)
      ensures r.Err? && r.error.Refused? ==> Verdict(setup) == Some(Refused)
      ensures sim.Honest() ==> if Verdict(setup).None? then r.Ok? else r == Err(Verdict(setup).value)
    {
      hide Verdict, Plan, Stopped;
      assert base == old(log.events);
      var ok, leaves := WriteLeaves();
      if !ok {
        return Err(Refused);
      }
      ghost var before := sim.memory;
      var failed := ReadBack(leaves);
      OutputsKeptStays(old(sim.memory), before, sim.memory);
      if failed.Some? {
        return Err(Mismatch(failed.value));
      }
      metrics := metrics.(released := true);
      log.events := log.events + [Release(setup.epoch, setup.epoch % setup.n, Range(0, setup.n))];
      r := Ok(metrics);
    }
  }

  lemma BrokeWhole(a: seq<Event>, b: seq<Event>, after: seq<Event>, e: BarrierError)
    requires Broke(a, b, after, e)
    ensures Stopped(a + b, after, e)
  {
    StoppedLater(a, b, after[|a|..], e);
    assert after == a + after[|a|..];
  }

  lemma Assoc(a: seq<Event>, b: seq<Event>, c: seq<Event>)
    ensures a + b + c == a + (b + c)
  {
  }

  lemma ParentLeavesNext(s: Setup, k: nat)
    requires Nested(s.mode) && k < GroupCount(s.n, s.mode)
    ensures ParentLeaves(s, k) + [ParentLeaf(s, k)] == ParentLeaves(s, k + 1)
  {
    hide Parent;
  }

  lemma {:induction false} ConcatSplit(ps: seq<seq<Event>>, j: nat)
    requires j <= |ps|
    ensures Concat(ps) == Concat(ps[..j]) + Concat(ps[j..])
  {
    if j == |ps| {
      assert ps[..j] == ps;
    } else {
      var n := |ps| - 1;
      ConcatSplit(ps[..n], j);
      assert ps[..n][..j] == ps[..j] && ps[..n][j..] == ps[j..][..n - j] && ps[j..][n - j] == ps[n];
    }
  }

  lemma ConcatStep(ps: seq<seq<Event>>, k: nat)
    requires k < |ps|
    ensures Concat(ps[..k]) + ps[k] == Concat(ps[..k + 1])
  {
    assert ps[..k + 1][..k] == ps[..k];
  }

  lemma TraceStep(s: Setup, k: nat, before: seq<Event>)
    requires Nested(s.mode) && k < GroupCount(s.n, s.mode)
    ensures var all := GroupPlans(s, GroupCount(s.n, s.mode));
            before + Concat(all[..k]) + GroupPlan(s, k) == before + Concat(all[..k + 1])
  {
    var all := GroupPlans(s, GroupCount(s.n, s.mode));
    ConcatStep(all, k);
    assert all[k] == GroupPlan(s, k);
    Assoc(before, Concat(all[..k]), GroupPlan(s, k));
  }

  lemma BrokeInGroup(s: Setup, k: nat, before: seq<Event>, after: seq<Event>, e: BarrierError)
    requires Nested(s.mode) && k < GroupCount(s.n, s.mode)
    requires Broke(before + Concat(GroupPlans(s, GroupCount(s.n, s.mode))[..k]), GroupPlan(s, k), after, e)
    ensures Broke(before, ReadPlan(s), after, e)
  {
    var groups := GroupCount(s.n, s.mode);
    var all := GroupPlans(s, groups);
    BrokeInConcat(all, k, ReadEvents(s, ParentLeaves(s, groups), RootRole), before, after, e);
  }

  lemma AroundPart(ps: seq<seq<Event>>, k: nat, rest: seq<Event>)
    requires k < |ps|
    ensures Concat(ps) + rest == (Concat(ps[..k]) + ps[k]) + (Concat(ps[k + 1..]) + rest)
  {
    var done, more := Concat(ps[..k + 1]), Concat(ps[k + 1..]);
    ConcatSplit(ps, k + 1);
    ConcatStep(ps, k);
    Assoc(done, more, rest);
  }

  lemma BrokeInConcat(ps: seq<seq<Event>>, k: nat, rest: seq<Event>, before: seq<Event>, after: seq<Event>,
                      e: BarrierError)
    requires k < |ps| && Broke(before + Concat(ps[..k]), ps[k], after, e)
    ensures Broke(before, Concat(ps) + rest, after, e)
  {
    var done, part := Concat(ps[..k]), ps[k];
    AroundPart(ps, k, rest);
    BrokeLater(before, done, part, after, e);
    BrokeEarly(before, done + part, Concat(ps[k + 1..]) + rest, after, e);
  }

  lemma RootsLast(s: Setup, before: seq<Event>, after: seq<Event>, r: Option<BarrierError>)
    requires Nested(s.mode)
    requires var groups := GroupCount(s.n, s.mode);
             var mid, roots := before + Concat(GroupPlans(s, groups)), ReadEvents(s, ParentLeaves(s, groups), RootRole);
             if r.None? then after == mid + roots else Broke(mid, roots, after, r.value)
    ensures r.None? ==> after == before + ReadPlan(s)
    ensures r.Some? ==> Broke(before, ReadPlan(s), after, r.value)
  {
    var groups := GroupCount(s.n, s.mode);
    var all, roots := Concat(GroupPlans(s, groups)), ReadEvents(s, ParentLeaves(s, groups), RootRole);
    Assoc(before, all, roots);
    if r.Some? {
      BrokeLater(before, all, roots, after, r.value);
    }
  }

  ghost predicate ParentsAgree(s: Setup, memory: Memory, k: nat)
    requires Nested(s.mode) && k <= GroupCount(s.n, s.mode)
  {
    forall j :: 0 <= j < k ==> Agrees(memory, ParentLeaf(s, j))
  }

  lemma RepresentativesDiffer(s: Setup, j: nat, k: nat)
    requires Nested(s.mode) && j < k < GroupCount(s.n, s.mode)
    ensures Representative(s, j) < Representative(s, k)
  {
    GroupRises(s, j);
    GroupRises(s, k);
    GroupStart(s.n, s.mode, j);
  }

  lemma StoreParentAgrees(s: Setup, memory: Memory, k: nat)
    requires Nested(s.mode) && k < GroupCount(s.n, s.mode) && s.n == |memory|
    requires ParentsAgree(s, memory, k)
    ensures ParentsAgree(s, Stored(memory, Representative(s, k), GROUP, Parent(s, k)), k + 1)
  {
    var after := Stored(memory, Representative(s, k), GROUP, Parent(s, k));
    forall j | 0 <= j < k + 1
      ensures Agrees(after, ParentLeaf(s, j))
    {
      StoredParent(s, memory, j, k);
    }
  }

  lemma StoredParent(s: Setup, memory: Memory, j: nat, k: nat)
    requires Nested(s.mode) && j <= k < GroupCount(s.n, s.mode) && s.n == |memory|
    requires j < k ==> Agrees(memory, ParentLeaf(s, j))
    ensures Agrees(Stored(memory, Representative(s, k), GROUP, Parent(s, k)), ParentLeaf(s, j))
  {
    hide Parent;
    if j < k {
      RepresentativesDiffer(s, j, k);
      StillAgrees(memory, ParentLeaf(s, j), Representative(s, k), GROUP, Parent(s, k));
    }
  }

  lemma StillAgrees(memory: Memory, l: Leaf, tile: nat, offset: nat, data: Block)
    requires tile < |memory| && Agrees(memory, l) && l.tile != tile
    ensures Agrees(Stored(memory, tile, offset, data), l)
  {
  }

  lemma StoreParent(s: Setup, start: Memory, memory: Memory, k: nat)
    requires Nested(s.mode) && k < GroupCount(s.n, s.mode) && s.n == |memory|
    requires ParentsAgree(s, memory, k) && AsWritten(s, memory, LeavesTo(s, s.n)) && OutputsKept(start, memory)
    ensures var after := Stored(memory, Representative(s, k), GROUP, Parent(s, k));
            && ParentsAgree(s, after, k + 1) && AsWritten(s, after, LeavesTo(s, s.n)) && OutputsKept(start, after)
  {
    NotAtGroup(s);
    StoreParentAgrees(s, memory, k);
    StoreElsewhere(s, memory, LeavesTo(s, s.n), Representative(s, k), GROUP, Parent(s, k));
    StoreKeeps(start, memory, Representative(s, k), GROUP, Parent(s, k));
  }

  lemma NotAtGroup(s: Setup)
    requires Nested(s.mode)
    ensures forall k :: 0 <= k < |LeavesTo(s, s.n)| ==> LeavesTo(s, s.n)[k].offset != GROUP
  {
    NestedLeaves(s, s.n);
  }

  lemma LeafBlamed(s: Setup, memory: Memory, k: nat, e: BarrierError)
    requires !Nested(s.mode) && k < |LeavesTo(s, s.n)| && AsWritten(s, memory, LeavesTo(s, s.n))
    requires var l := LeavesTo(s, s.n)[k];
             CheckCertificate(Content(memory, l), l.cert, l.tile, s.epoch, RootRole) == Some(e)
    ensures Verdict(s) == Some(Mismatch(e))
  {
    var tile, i := LeafOf(s, s.n, k);
    HonestBlame(s, memory, LeavesTo(s, s.n)[k], RootRole, e, tile, i);
  }

  lemma AllAgree(s: Setup, memory: Memory)
    requires Verdict(s) != Some(Refused) && AsWritten(s, memory, LeavesTo(s, s.n))
    requires forall k :: 0 <= k < |LeavesTo(s, s.n)| ==> Agrees(memory, LeavesTo(s, s.n)[k])
    ensures Verdict(s) == None
  {
    hide Certify, LeafAt;
    var all := LeavesTo(s, s.n);
    if BlocksOf(s, s.n - 1) != [] {
      LastLeaf(s);
      assert Agrees(memory, all[|all| - 1]);
      HonestTarget(s, memory, all[|all| - 1]);
    }
  }

  lemma LastLeaf(s: Setup)
    requires BlocksOf(s, s.n - 1) != []
    ensures var all := LeavesTo(s, s.n);
            all != [] && all[|all| - 1] == LeafAt(s, s.n - 1, |BlocksOf(s, s.n - 1)| - 1)
  {
    var mine := TileLeaves(s, s.n - 1, |BlocksOf(s, s.n - 1)|);
    assert LeavesTo(s, s.n) == LeavesTo(s, s.n - 1) + mine;
    assert mine[|mine| - 1] == LeafAt(s, s.n - 1, |mine| - 1);
  }

  ghost function GroupLeaves(s: Setup, k: nat): (ls: seq<Leaf>)
    requires Nested(s.mode) && k < GroupCount(s.n, s.mode)
    ensures |ls| == |Group(s.n, s.mode, k)|
  {
    GroupRises(s, k);
    MemberLeaves(s, Group(s.n, s.mode, k))
  }

  ghost function ParentWrite(s: Setup, k: nat): Event
    requires Nested(s.mode) && k < GroupCount(s.n, s.mode)
  {
    CertificateWrite(s.epoch, Representative(s, k), GROUP, GroupRole, Parent(s, k))
  }

  lemma GroupPlanIs(s: Setup, k: nat, before: seq<Event>)
    requires Nested(s.mode) && k < GroupCount(s.n, s.mode)
    ensures GroupPlan(s, k) == ReadEvents(s, GroupLeaves(s, k), GroupRole) + [ParentWrite(s, k)]
    ensures before + ReadEvents(s, GroupLeaves(s, k), GroupRole) + [ParentWrite(s, k)] == before + GroupPlan(s, k)
  {
  }

  lemma MembersWritten(s: Setup, memory: Memory, k: nat)
    requires Nested(s.mode) && k < GroupCount(s.n, s.mode) && AsWritten(s, memory, LeavesTo(s, s.n))
    ensures AsWritten(s, memory, GroupLeaves(s, k)) && AllPresent(memory, GroupLeaves(s, k))
  {
    GroupRises(s, k);
    NestedLeaves(s, s.n);
    var mine, members := GroupLeaves(s, k), Group(s.n, s.mode, k);
    forall j | 0 <= j < |mine|
      ensures Present(memory, mine[j]) && Content(memory, mine[j]) == Written(s, mine[j])
    {
      assert mine[j] == LeavesTo(s, s.n)[members[j]];
    }
  }

  lemma MemberBlamed(s: Setup, memory: Memory, k: nat, j: nat, e: BarrierError)
    requires Nested(s.mode) && k < GroupCount(s.n, s.mode) && j < |GroupLeaves(s, k)|
    requires AsWritten(s, memory, GroupLeaves(s, k))
    requires var l := GroupLeaves(s, k)[j];
             CheckCertificate(Content(memory, l), l.cert, l.tile, s.epoch, GroupRole) == Some(e)
    ensures Verdict(s) == Some(Mismatch(e))
  {
    GroupRises(s, k);
    HonestBlame(s, memory, GroupLeaves(s, k)[j], GroupRole, e, Group(s.n, s.mode, k)[j], 0);
  }

  lemma LastGroupAgrees(s: Setup, memory: Memory)
    requires Nested(s.mode) && Verdict(s) != Some(Refused)
    requires var mine := GroupLeaves(s, GroupCount(s.n, s.mode) - 1);
             AsWritten(s, memory, mine) && forall j :: 0 <= j < |mine| ==> Agrees(memory, mine[j])
    ensures Verdict(s) == None
  {
    hide Certify;
    var k := GroupCount(s.n, s.mode) - 1;
    GroupRises(s, k);
    LastTile(s.n, s.mode, k);
    var mine := GroupLeaves(s, k);
    var l := mine[|mine| - 1];
    assert Agrees(memory, l);
    assert l == LeafAt(s, s.n - 1, 0);
    HonestTarget(s, memory, l);
  }
}
