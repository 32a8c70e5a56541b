// One endpoint gate as a value: its registers, log, failure record, job buffers and device RAM, and what
// a doorbell, a timer callback and an MMIO write do to them. The imperative device refines this.
module EndpointGate {
  import opened Bytes
  import opened Wrappers
  import opened LinkSchedule

  const MAX_RECORDS: nat := 1024
  const MAX_WORDS: nat := 65536
  const POLICY_ID: u64 := 0x534c_5547_0000_0001
  const ONE_SECOND: nat := 1_000_000_000

  datatype State = Idle | Busy | Done | PreFail | PostFail

  datatype Error = NoError | BadEpoch | BadRange | NoCapacity | RequestLost | CompletionLost | BadDescriptor

  // A digest is known only by what was hashed.
  datatype Digest = Absent | Sha256(content: seq<u8>)

  datatype Record = Record(kind: nat, serial: nat, epoch: u64, sequence: nat, job: u64, src: u64, dst: u64,
                           words: u64, scalar: u64, policy: u64, timeNs: nat, committed: nat, digest: Digest)

  // The job descriptor registers.
  datatype Descriptor = Descriptor(jobEpoch: u64, job: u64, src: u64, dst: u64, words: u64, scalar: u64,
                                   release: u64, fault: u64)

  // Event counters; `postFailures` is history, not a register.
  datatype Tally = Tally(rejected: nat, requests: nat, completions: nat, failures: nat, postFailures: nat)

  // `deadline` is the armed timer.
  datatype Gate = Gate(
    serial: nat, state: State, error: Error, epoch: u64, desc: Descriptor, capacity: u64, log: seq<Record>,
    committed: nat, times: Timing, tally: Tally, phase: Phase, input: seq<u8>, output: seq<u8>,
    failure: Option<Record>, ram: seq<u8>, deadline: Option<nat>)

  // The vector kernel y[i] = 3*x[i] + scalar + i over 64-bit words, as the host oracle computes it.
  function KernelWords(ws: seq<u64>, scalar: u64): (r: seq<u64>)
    ensures |r| == |ws|
  {
    seq(|ws|, i requires 0 <= i < |ws| => (3 * ws[i] + scalar + i) % WORD64)
  }

  function Kernel(data: seq<u8>, scalar: u64): (r: seq<u8>)
    requires |data| % 8 == 0
    ensures |r| == |data|
  {
    PackWords(KernelWords(UnpackWords(data), scalar))
  }

  function MakeRecord(kind: nat, serial: nat, epoch: u64, sequence: nat, d: Descriptor, now: nat,
                      committed: nat, digest: Digest): Record {
    Record(kind, serial, epoch, sequence, d.job, d.src, d.dst, d.words, d.scalar, POLICY_ID, now, committed, digest)
  }

  function Snapshot(g: Gate, kind: nat, now: nat, digest: Digest): Record {
    MakeRecord(kind, g.serial, g.epoch, |g.log| + 1, g.desc, now, g.committed, digest)
  }

  function Fail(g: Gate, error: Error, now: nat): Gate {
    if g.committed != 0 then
      g.(error := error, state := PostFail, times := g.times.(finished := now), deadline := None,
         tally := g.tally.(failures := g.tally.failures + 1, postFailures := g.tally.postFailures + 1),
         failure := Some(Snapshot(g, 4, now, Sha256(g.output))))
    else
      g.(error := error, state := PreFail, times := g.times.(finished := now), deadline := None,
         tally := g.tally.(failures := g.tally.failures + 1), failure := Some(Snapshot(g, 3, now, Absent)))
  }

  predicate RangeValid(size: nat, base: u64, bytes: nat) {
    base % 8 == 0 && base <= size && bytes <= size - base
  }

  predicate BitSet(v: u64, bit: nat)
    requires bit > 0
  {
    (v / bit) % 2 == 1
  }

  // The first guard a doorbell trips, NoError when the job is admitted.
  function Admission(g: Gate, c: Config, now: nat): Error {
    if g.desc.jobEpoch != g.epoch then BadEpoch
    else if g.desc.words == 0 || g.desc.words > MAX_WORDS || g.desc.fault > 3 || g.desc.release < now
            || g.desc.release - now > ONE_SECOND then BadDescriptor
    else if !RangeValid(|g.ram|, g.desc.src, g.desc.words * 8) || !RangeValid(|g.ram|, g.desc.dst, g.desc.words * 8) then BadRange
    else if c.enforce && |g.log| + 2 > g.capacity then NoCapacity
    else if c.enforce && BitSet(g.desc.fault, 1) then RequestLost
    else NoError
  }

  const NO_TIMES := Timing(0, 0, 0, 0, 0, 0)

  function Cleared(g: Gate): Gate {
    g.(committed := 0, error := NoError, times := NO_TIMES, failure := None)
  }

  function JobOf(g: Gate, tile: nat): Job {
    Job(tile, g.desc.release, g.desc.words)
  }

  function Submit(g: Gate, c: Config, now: nat): Gate {
    var error := Admission(g, c, now);
    if error != NoError then Fail(Cleared(g), error, now)
    else
      var data := g.ram[g.desc.src..g.desc.src + 8 * g.desc.words];
      var j := JobOf(g, 0);
      Cleared(g).(
        input := data, output := seq(8 * g.desc.words, i => 0),
        log := if c.enforce then g.log + [Snapshot(Cleared(g), 1, now, Sha256(data))] else g.log,
        tally := g.tally.(requests := g.tally.requests + if c.enforce then 1 else 0),
        times := NO_TIMES.(computeStart := StartOf(j, c), computeEnd := EndOf(j, c)),
        phase := ComputeEnd, state := Busy, deadline := Some(EndOf(j, c)))
  }

  function Splice(ram: seq<u8>, at: nat, data: seq<u8>): (r: seq<u8>)
    requires at + |data| <= |ram|
    ensures |r| == |ram|
  {
    ram[..at] + data + ram[at + |data|..]
  }

  // What a running job needs from the buffers it was admitted with.
  predicate Runnable(g: Gate) {
    && g.state == Busy
    && |g.input| == |g.output| == 8 * g.desc.words
    && g.desc.dst + 8 * g.desc.words <= |g.ram|
  }

  // The timer callback at time `now` with the link idle from `link`; returns the new gate and link.
  function Complete(g: Gate, c: Config, now: nat, link: nat): (r: (Gate, nat))
    requires Runnable(g)
  {
    match g.phase
    case ComputeEnd =>
      var start := Max(now, link);
      var free := start + Occupancy(g.desc.words, c);
      (g.(output := Kernel(g.input, g.desc.scalar), phase := LinkEnd, deadline := Some(free + c.linkNs),
          times := g.times.(linkStart := start, queueWait := start - now, linkEnd := free + c.linkNs)), free)
    case LinkEnd =>
      (g.(ram := Splice(g.ram, g.desc.dst, g.output), committed := 1, phase := RecordEnd,
          deadline := Some(now + RecordCost(c))), link)
    case RecordEnd =>
      if c.enforce && BitSet(g.desc.fault, 2) then (Fail(g, CompletionLost, now), link)
      else
        (g.(log := if c.enforce then g.log + [Snapshot(g, 2, now, Sha256(g.output))] else g.log,
            tally := g.tally.(completions := g.tally.completions + if c.enforce then 1 else 0),
            times := g.times.(finished := now), state := Done, deadline := None), link)
  }

  function Reject(g: Gate): Gate {
    g.(tally := g.tally.(rejected := g.tally.rejected + 1))
  }

  function Write(g: Gate, c: Config, now: nat, addr: u64, v: u64, size: nat): Gate {
    if size != 8 || addr % 8 != 0 || g.state == Busy then Reject(g)
    else match addr
      case 0x18 =>
        if v <= g.epoch then Reject(g)
        else g.(epoch := v, log := [], state := Idle, error := NoError, committed := 0, failure := None)
      case 0x20 => g.(desc := g.desc.(jobEpoch := v))
      case 0x28 => g.(desc := g.desc.(job := v))
      case 0x30 => g.(desc := g.desc.(src := v))
      case 0x38 => g.(desc := g.desc.(dst := v))
      case 0x40 => g.(desc := g.desc.(words := v))
      case 0x48 => g.(desc := g.desc.(scalar := v))
      case 0x50 => g.(desc := g.desc.(release := v))
      case 0x58 => g.(desc := g.desc.(fault := v))
      case 0x60 => if v < |g.log| || v > MAX_RECORDS then Reject(g) else g.(capacity := v)
      case 0xa8 => if v == 1 && g.state != PreFail && g.state != PostFail then Submit(g, c, now) else Reject(g)
      case _ => Reject(g)
  }

  // A host store into device RAM; out-of-range stores reach nothing.
  function HostWrite(g: Gate, at: nat, data: seq<u8>): Gate {
    if at + |data| <= |g.ram| then g.(ram := Splice(g.ram, at, data)) else g
  }

  function Initial(serial: nat, ram: seq<u8>): Gate {
    Gate(serial, Idle, NoError, 1, Descriptor(0, 0, 0, 0, 0, 0, 0, 0), MAX_RECORDS, [], 0, NO_TIMES,
         Tally(0, 0, 0, 0, 0), ComputeEnd, [], [], None, ram, None)
  }
}
