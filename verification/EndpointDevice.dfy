// The endpoint as it runs: registers, log array, job buffers and device RAM updated in place by MMIO writes and
// timer callbacks, with one link shared by every device. Each method refines its value in module EndpointGate.
module EndpointDevice {
  import opened Bytes
  import opened Wrappers
  import opened LinkSchedule
  import opened EndpointGate
  import opened EndpointInvariant

  // The one output link of the process.
  class Link {
    var freeNs: nat

    constructor ()
      ensures freeNs == 0
    {
      freeNs := 0;
    }
  }

  method StoreLE64(a: array<u8>, at: nat, v: u64)
    requires at + 8 <= a.Length
    modifies a
    ensures a[at..at + 8] == ToLE(v, 8)
    ensures forall i :: 0 <= i < a.Length && !(at <= i < at + 8) ==> a[i] == old(a[i])
  {
    var rest: nat := v;
    ghost var le := ToLE(v, 8);
    for k := 0 to 8
      invariant rest >= 0 && le[k..] == ToLE(rest, 8 - k)
      invariant forall i :: 0 <= i < k ==> a[at + i] == le[i]
      invariant forall i :: 0 <= i < a.Length && !(at <= i < at + k) ==> a[i] == old(a[i])
    {
      assert le[k] == ToLE(rest, 8 - k)[0];
      a[at + k] := rest % 256;
      rest := rest / 256;
      assert le[k + 1..] == le[k..][1..];
    }
  }

  method LoadLE64(a: array<u8>, at: nat) returns (v: u64)
    requires at + 8 <= a.Length
    ensures v == FromLE(a[at..at + 8])
  {
    var r: nat, k := 0, 8;
    ToFromLE(a[at..at + 8]);
    Pow256Values();
    while k > 0
      invariant 0 <= k <= 8 && r == FromLE(a[at + k..at + 8])
    {
      k := k - 1;
      assert a[at + k..at + 8][1..] == a[at + k + 1..at + 8];
      r := a[at + k] + 256 * r;
    }
    v := r;
  }

  // The compute loop over little-endian words.
  method RunKernel(input: array<u8>, output: array<u8>, words: nat, scalar: u64)
    requires input != output && input.Length == output.Length == 8 * words
    modifies output
    ensures output[..] == Kernel(input[..], scalar)
  {
    hide ToLE, PackWords, KernelWords;
    ghost var data := input[..];
    ghost var ws := KernelWords(UnpackWords(data), scalar);
    PackNone(ws);
    for i := 0 to words
      invariant input[..] == data
      invariant output[..8 * i] == PackWords(ws[..i])
    {
      var x := LoadLE64(input, 8 * i);
      assert input[8 * i..8 * i + 8] == data[8 * i..8 * i + 8];
      var y: u64 := (3 * x + scalar + i) % WORD64;
      KernelWordAt(data, scalar, i);
      PackNext(ws, i);
      ghost var done := output[..8 * i];
      StoreLE64(output, 8 * i, y);
      assert output[..8 * i] == done;
      assert output[..8 * (i + 1)] == output[..8 * i] + output[8 * i..8 * i + 8];
    }
    assert output[..8 * words] == output[..] && ws[..words] == ws;
  }

  lemma PackNone(ws: seq<u64>)
    ensures PackWords(ws[..0]) == []
  {
  }

  lemma PackNext(ws: seq<u64>, i: nat)
    requires i < |ws|
    ensures PackWords(ws[..i + 1]) == PackWords(ws[..i]) + ToLE(ws[i], 8)
  {
    assert ws[..i + 1][..i] == ws[..i];
  }

  lemma KernelWordAt(data: seq<u8>, scalar: u64, i: nat)
    requires |data| % 8 == 0 && 8 * i + 8 <= |data|
    ensures KernelWords(UnpackWords(data), scalar)[i]
              == (3 * FromLE(data[8 * i..8 * i + 8]) + scalar + i) % WORD64
  {
  }

  class Device {
    const cfg: Config
    const serial: nat
    const ram: array<u8>
    const log: array<Record>
    const link: Link

    var state: State
    var error: Error
    var epoch: u64
    var desc: Descriptor
    var capacity: u64
    var count: nat
    var committed: nat
    var times: Timing
    var tally: Tally
    var phase: Phase
    var input: array<u8>
    var output: array<u8>
    var failure: Option<Record>
    var deadline: Option<nat>

    ghost predicate Valid()
      reads this
    {
      && log.Length == MAX_RECORDS && count <= capacity <= MAX_RECORDS
      && ram != input && ram != output && input != output
    }

    ghost function Abs(): Gate
      requires Valid()
      reads this, ram, log, input, output
    {
      Gate(serial, state, error, epoch, desc, capacity, log[..count], committed, times, tally, phase,
           input[..], output[..], failure, ram[..], deadline)
    }

    constructor (cfg: Config, serial: nat, ram: array<u8>, link: Link)
      ensures Valid() && Abs() == Initial(serial, ram[..])
      ensures this.cfg == cfg && this.ram == ram && this.link == link
      ensures fresh(log) && fresh(input) && fresh(output)
    {
      this.cfg, this.serial, this.ram, this.link := cfg, serial, ram, link;
      var blank := Record(0, 0, 0, 0, 0, 0, 0, 0, 0, 0, 0, 0, Absent);
      log := new Record[MAX_RECORDS](_ => blank);
      state, error, epoch, desc, capacity, count := Idle, NoError, 1, Descriptor(0, 0, 0, 0, 0, 0, 0, 0), MAX_RECORDS, 0;
      committed, times, tally, phase := 0, NO_TIMES, Tally(0, 0, 0, 0, 0), ComputeEnd;
      input, output, failure, deadline := new u8[0], new u8[0], None, None;
    }

    method FailJob(e: Error, now: nat)
      requires Valid()
      modifies this`error, this`state, this`times, this`tally, this`failure, this`deadline
      ensures Abs() == Fail(old(Abs()), e, now)
    {
      if committed != 0 {
        FailCommitted(e, now);
      } else {
        FailUncommitted(e, now);
      }
    }

    // The output is out; only its completion is missing.
    method FailCommitted(e: Error, now: nat)
      requires Valid() && committed != 0
      modifies this`error, this`state, this`times, this`tally, this`failure, this`deadline
      ensures Abs() == Fail(old(Abs()), e, now)
    {
      hide MakeRecord;
      ghost var g := Abs();
      failure := Some(MakeRecord(4, serial, epoch, count + 1, desc, now, committed, Sha256(output[..])));
      error, state, deadline, times := e, PostFail, None, times.(finished := now);
      tally := tally.(failures := tally.failures + 1, postFailures := tally.postFailures + 1);
      assert ram[..] == g.ram && log[..count] == g.log && input[..] == g.input && output[..] == g.output;
    }

    method FailUncommitted(e: Error, now: nat)
      requires Valid() && committed == 0
      modifies this`error, this`state, this`times, this`tally, this`failure, this`deadline
      ensures Abs() == Fail(old(Abs()), e, now)
    {
      hide MakeRecord;
      ghost var g := Abs();
      failure := Some(MakeRecord(3, serial, epoch, count + 1, desc, now, committed, Absent));
      error, state, deadline, times := e, PreFail, None, times.(finished := now);
      tally := tally.(failures := tally.failures + 1);
      assert ram[..] == g.ram && log[..count] == g.log && input[..] == g.input && output[..] == g.output;
    }

    // Write the next record of the log in place.
    method Append(kind: nat, now: nat, data: array<u8>)
      requires Valid() && count < capacity
      modifies this`count, log
      ensures Valid() && Abs() == old(Abs()).(log := old(Abs()).log + [Snapshot(old(Abs()), kind, now, Sha256(data[..]))])
    {
      log[count] := MakeRecord(kind, serial, epoch, count + 1, desc, now, committed, Sha256(data[..]));
      count := count + 1;
    }

    method Callback(now: nat)
      requires Valid() && JobOk(Abs(), cfg)
      modifies this, ram, output, log, link
      ensures Valid() && (Abs(), link.freeNs) == old(Complete(Abs(), cfg, now, link.freeNs))
    {
      match phase
      case ComputeEnd => Serialize(now);
      case LinkEnd => Commit(now);
      case RecordEnd => Conclude(now);
    }

    // Compute deadline: produce the output and queue for the shared link.
    method Serialize(now: nat)
      requires Valid() && JobOk(Abs(), cfg) && phase.ComputeEnd?
      modifies this`times, this`phase, this`deadline, output, link
      ensures Valid() && (Abs(), link.freeNs) == old(Complete(Abs(), cfg, now, link.freeNs))
    {
      hide Kernel;
      RunKernel(input, output, desc.words, desc.scalar);
      var linkStart := Max(now, link.freeNs);
      link.freeNs := linkStart + Occupancy(desc.words, cfg);
      var linkEnd := link.freeNs + cfg.linkNs;
      times := times.(linkStart := linkStart, queueWait := linkStart - now, linkEnd := linkEnd);
      phase := LinkEnd;
      deadline := Some(linkEnd);
    }

    // Link deadline: publish the output.
    method Commit(now: nat)
      requires Valid() && JobOk(Abs(), cfg) && phase.LinkEnd?
      modifies this`committed, this`phase, this`deadline, ram
      ensures Valid() && Abs() == Complete(old(Abs()), cfg, now, 0).0
    {
      CopyBack();
      committed := 1;
      phase := RecordEnd;
      deadline := Some(now + if cfg.enforce then cfg.recordNs else 0);
    }

    // The last callback: lose the completion record on request, or write it and report success.
    method Conclude(now: nat)
      requires Valid() && JobOk(Abs(), cfg) && phase.RecordEnd?
      modifies this`state, this`error, this`times, this`tally, this`failure, this`deadline, this`count, log
      ensures Valid() && Abs() == Complete(old(Abs()), cfg, now, 0).0
    {
      hide Kernel;
      if cfg.enforce && (desc.fault / 2) % 2 == 1 {
        FailJob(CompletionLost, now);
        return;
      }
      if cfg.enforce {
        Append(2, now, output);
        tally := tally.(completions := tally.completions + 1);
      }
      times := times.(finished := now);
      state := Done;
      deadline := None;
    }

    // The commit copy into device RAM.
    method CopyBack()
      requires Valid() && desc.dst + output.Length <= ram.Length
      modifies ram
      ensures ram[..] == Splice(old(ram[..]), desc.dst, output[..])
    {
      ghost var was := ram[..];
      for i := 0 to output.Length
        invariant forall k :: 0 <= k < i ==> ram[desc.dst + k] == output[k]
        invariant forall k :: 0 <= k < ram.Length && !(desc.dst <= k < desc.dst + i) ==> ram[k] == was[k]
      {
        ram[desc.dst + i] := output[i];
      }
      assert ram[..] == Splice(was, desc.dst, output[..]);
    }

    method Submit(now: nat)
      requires Valid() && state != Busy && deadline == None
      modifies this, log
      ensures Valid() && Abs() == EndpointGate.Submit(old(Abs()), cfg, now)
    {
      hide Kernel;
      ghost var g := Abs();
      committed, error, times, failure := 0, NoError, NO_TIMES, None;
      assert Abs() == Cleared(g);
      if desc.jobEpoch != epoch {
        FailJob(BadEpoch, now);
        return;
      }
      if desc.words == 0 || desc.words > MAX_WORDS || desc.fault > 3 || desc.release < now
         || desc.release - now > ONE_SECOND {
        FailJob(BadDescriptor, now);
        return;
      }
      var bytes := desc.words * 8;
      if !RangeValid(ram.Length, desc.src, bytes) || !RangeValid(ram.Length, desc.dst, bytes) {
        FailJob(BadRange, now);
        return;
      }
      if cfg.enforce && count + 2 > capacity {
        FailJob(NoCapacity, now);
        return;
      }
      if cfg.enforce && desc.fault % 2 == 1 {
        FailJob(RequestLost, now);
        return;
      }
      Admit(now);
    }

    // Everything after the last guard of a doorbell.
    method Admit(now: nat)
      requires Valid() && Abs() == Cleared(Abs()) && Admission(Abs(), cfg, now) == NoError
      modifies this, log
      ensures Valid() && Abs() == EndpointGate.Submit(old(Abs()), cfg, now)
    {
      AllocateBuffers();
      if cfg.enforce {
        Append(1, now, input);
        tally := tally.(requests := tally.requests + 1);
      }
      Arm();
    }

    // Declare the compute interval and set the timer for its end.
    method Arm()
      requires Valid()
      modifies this`times, this`phase, this`state, this`deadline
      ensures var g := old(Abs()); var j := JobOf(g, 0);
              Abs() == g.(times := g.times.(computeStart := StartOf(j, cfg), computeEnd := EndOf(j, cfg)),
                          phase := ComputeEnd, state := Busy, deadline := Some(EndOf(j, cfg)))
    {
      var start := desc.release + if cfg.enforce then cfg.recordNs else 0;
      var end := start + desc.words * cfg.computeNs;
      times := times.(computeStart := start, computeEnd := end);
      phase := ComputeEnd;
      state := Busy;
      deadline := Some(end);
    }

    // Snapshot the input and allocate the output buffer.
    method AllocateBuffers()
      requires Valid() && desc.src + 8 * desc.words <= ram.Length
      modifies this`input, this`output
      ensures Valid() && fresh(input) && fresh(output)
      ensures Abs() == old(Abs()).(input := old(ram[desc.src..desc.src + 8 * desc.words]),
                                   output := seq(8 * desc.words, i => 0))
    {
      var bytes, at, data := desc.words * 8, desc.src, ram;
      input := new u8[bytes](i requires 0 <= i && at + i < data.Length reads data => data[at + i]);
      output := new u8[bytes](_ => 0);
      assert input[..] == ram[desc.src..desc.src + 8 * desc.words];
      assert output[..] == seq(8 * desc.words, i => 0);
    }

    method Refuse()
      requires Valid()
      modifies this`tally
      ensures Abs() == Reject(old(Abs()))
    {
      tally := tally.(rejected := tally.rejected + 1);
    }

    method MmioWrite(addr: u64, v: u64, size: nat, now: nat)
      requires Valid() && (state != Busy ==> deadline == None)
      modifies this, log
      ensures Valid() && Abs() == Write(old(Abs()), cfg, now, addr, v, size)
    {
      hide EndpointGate.Submit;
      if size != 8 || addr % 8 != 0 || state == Busy {
        Refuse();
        return;
      }
      match addr {
        case 0x18 => WriteEpoch(v, now);
        case 0x60 => WriteCapacity(v, now);
        case 0xa8 =>
          if v == 1 && state != PreFail && state != PostFail {
            Submit(now);
          } else {
            Refuse();
          }
        case _ => WriteDescriptor(addr, v, now);
      }
    }

    // Only a strictly larger epoch is taken; it empties the log and clears any failure.
    method WriteEpoch(v: u64, ghost now: nat)
      requires Valid() && state != Busy
      modifies this`epoch, this`count, this`state, this`error, this`committed, this`failure, this`tally
      ensures Valid() && Abs() == Write(old(Abs()), cfg, now, 0x18, v, 8)
    {
      if v <= epoch {
        Refuse();
        return;
      }
      epoch := v;
      count, state, error, committed, failure := 0, Idle, NoError, 0, None;
    }

    method WriteCapacity(v: u64, ghost now: nat)
      requires Valid() && state != Busy
      modifies this`capacity, this`tally
      ensures Valid() && Abs() == Write(old(Abs()), cfg, now, 0x60, v, 8)
    {
      if v < count || v > MAX_RECORDS {
        Refuse();
        return;
      }
      capacity := v;
    }

    // The plain descriptor registers; no other offset is writable.
    method WriteDescriptor(addr: u64, v: u64, ghost now: nat)
      requires Valid() && state != Busy && addr % 8 == 0 && addr !in {0x18, 0x60, 0xa8}
      modifies this`desc, this`tally
      ensures Abs() == Write(old(Abs()), cfg, now, addr, v, 8)
    {
      match addr {
        case 0x20 => desc := desc.(jobEpoch := v);
        case 0x28 => desc := desc.(job := v);
        case 0x30 => desc := desc.(src := v);
        case 0x38 => desc := desc.(dst := v);
        case 0x40 => desc := desc.(words := v);
        case 0x48 => desc := desc.(scalar := v);
        case 0x50 => desc := desc.(release := v);
        case 0x58 => desc := desc.(fault := v);
        case _ => Refuse();
      }
    }
  }
}
