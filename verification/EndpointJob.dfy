// One job of the host's experiment on one endpoint of many: what the host writes before and with the doorbell, and
// what it finds when the job has settled.
module EndpointJob {
  import opened Bytes
  import opened Wrappers
  import opened LinkSchedule
  import opened EndpointGate
  import opened EndpointSystem
  import opened EndpointOutcome
  import opened EndpointDrain

  // What one endpoint is given in one round.
  datatype Share = Share(epoch: u64, scalar: u64, input: seq<u8>)

  predicate Sized(k: Share) {
    |k.input| % 8 == 0 && 0 < |k.input| / 8 <= MAX_WORDS
  }

  function Words(k: Share): nat {
    |k.input| / 8
  }

  // The kernel's output over the share's input.
  function Answer(k: Share): seq<u8>
    requires Sized(k)
  {
    Kernel(k.input, k.scalar)
  }

  // Device memory reaches past the output, and the log holds a job.
  ghost predicate Roomy(g: Gate, k: Share) {
    Sized(k) && DST + |k.input| <= |g.ram| && g.capacity >= 2
  }

  // ---------------------------------------------------------------- preparing

  function Filler(n: nat): (f: seq<u8>)
    ensures |f| == n
  {
    seq(n, _ => 0xaa)
  }

  // After the epoch write and the two host stores.
  function Prepared(g: Gate, k: Share): Gate
    requires DST + |k.input| <= |g.ram|
  {
    g.(epoch := k.epoch, log := [], state := Idle, error := NoError, committed := 0, failure := None,
       ram := Splice(Splice(g.ram, SRC, k.input), DST, Filler(|k.input|)))
  }

  // A register write or host store that neither starts nor fails a job changes only its gate.
  lemma QuietMmio(s: System, t: nat, addr: u64, v: u64)
    requires Good(s) && t < |s.gates| && s.gates[t].state != Busy
    requires var h := Write(s.gates[t], s.cfg, s.now, addr, v, 8);
             h.state != Busy && (h.state == PreFail ==> s.gates[t].state == PreFail)
    ensures Step(s, Mmio(t, addr, v, 8)) == s.(gates := s.gates[t := Write(s.gates[t], s.cfg, s.now, addr, v, 8)])
    ensures Good(Step(s, Mmio(t, addr, v, 8)))
  {
    StepGood(s, Mmio(t, addr, v, 8));
  }

  lemma QuietStore(s: System, t: nat, at: nat, data: seq<u8>)
    requires Good(s) && t < |s.gates| && at + |data| <= |s.gates[t].ram|
    ensures Step(s, Store(t, at, data)) == s.(gates := s.gates[t := HostWrite(s.gates[t], at, data)])
    ensures Good(Step(s, Store(t, at, data)))
  {
    StepGood(s, Store(t, at, data));
  }

  // The next epoch, the input, and a filler where the output will go.
  method Prepare(s: System, t: nat, k: Share) returns (r: System)
    requires Good(s) && t < |s.gates| && s.gates[t].state in {Idle, Done} && s.gates[t].epoch < k.epoch
    requires Roomy(s.gates[t], k)
    ensures Good(r) && r == s.(gates := s.gates[t := Prepared(s.gates[t], k)])
  {
    hide Good;
    var g := s.gates[t];
    QuietMmio(s, t, 0x18, k.epoch);
    r := Step(s, Mmio(t, 0x18, k.epoch, 8));
    QuietStore(r, t, SRC, k.input);
    r := Step(r, Store(t, SRC, k.input));
    QuietStore(r, t, DST, Filler(|k.input|));
    r := Step(r, Store(t, DST, Filler(|k.input|)));
  }

  // ---------------------------------------------------------------- submitting

  function JobDescriptor(k: Share, release: u64): Descriptor
    requires Sized(k)
  {
    Descriptor(k.epoch, k.epoch, SRC, DST, Words(k), k.scalar, release, 0)
  }

  // One descriptor register.
  method WriteRegister(s: System, t: nat, addr: u64, v: u64, ghost d: Descriptor) returns (r: System)
    requires Good(s) && t < |s.gates| && s.gates[t].state == Idle
    requires Write(s.gates[t], s.cfg, s.now, addr, v, 8) == s.gates[t].(desc := d)
    ensures Good(r) && r == s.(gates := s.gates[t := s.gates[t].(desc := d)])
  {
    hide Good, Write;
    QuietMmio(s, t, addr, v);
    r := Step(s, Mmio(t, addr, v, 8));
  }

  method Describe(s: System, t: nat, d: Descriptor) returns (r: System)
    requires Good(s) && t < |s.gates| && s.gates[t].state == Idle
    ensures Good(r) && r == s.(gates := s.gates[t := s.gates[t].(desc := d)])
  {
    hide Good;
    ghost var x := s.gates[t].desc;
    r := WriteRegister(s, t, 0x20, d.jobEpoch, x.(jobEpoch := d.jobEpoch));
    r := WriteRegister(r, t, 0x28, d.job, x.(jobEpoch := d.jobEpoch, job := d.job));
    r := WriteRegister(r, t, 0x30, d.src, x.(jobEpoch := d.jobEpoch, job := d.job, src := d.src));
    r := WriteRegister(r, t, 0x38, d.dst, d.(words := x.words, scalar := x.scalar, release := x.release, fault := x.fault));
    r := WriteRegister(r, t, 0x40, d.words, d.(scalar := x.scalar, release := x.release, fault := x.fault));
    r := WriteRegister(r, t, 0x48, d.scalar, d.(release := x.release, fault := x.fault));
    r := WriteRegister(r, t, 0x50, d.release, d.(fault := x.fault));
    r := WriteRegister(r, t, 0x58, d.fault, d);
  }

  // The system right after an admitted doorbell at gate t.
  function Admitted(s: System, t: nat): System
    requires t < |s.gates| == |s.track|
  {
    var g := s.gates[t];
    var j := JobOf(g, t);
    s.(gates := s.gates[t := EndpointGate.Submit(g, s.cfg, s.now)],
       queue := Insert(s.queue, Entry(EndOf(j, s.cfg), t, |s.jobs|, g.desc.words, ComputeEnd)),
       jobs := s.jobs + [j], track := s.track[t := Queued(|s.jobs|)])
  }

  lemma SubmitBusy(g: Gate, c: Config, now: nat)
    requires Admission(g, c, now) == NoError
    ensures var h := EndpointGate.Submit(g, c, now);
            h.state == Busy && h.phase == ComputeEnd && h.deadline == Some(EndOf(JobOf(g, 0), c)) && h.desc == g.desc
  {
  }

  lemma DoorbellDelivers(s: System, t: nat)
    requires Good(s) && t < |s.gates| && s.gates[t].state == Idle
    ensures Step(s, Mmio(t, 0xa8, 1, 8)) == Deliver(s, t, EndpointGate.Submit(s.gates[t], s.cfg, s.now))
  {
    hide GatesOk, QueueOk, LinkOk, TrackOk, EndpointGate.Submit, Deliver;
  }

  lemma DoorbellAdmits(s: System, t: nat)
    requires Good(s) && t < |s.gates| && s.gates[t].state == Idle && Admission(s.gates[t], s.cfg, s.now) == NoError
    ensures Step(s, Mmio(t, 0xa8, 1, 8)) == Admitted(s, t) && Good(Step(s, Mmio(t, 0xa8, 1, 8)))
  {
    hide GatesOk, QueueOk, LinkOk, TrackOk, EndpointGate.Submit, Admission, Step;
    StepGood(s, Mmio(t, 0xa8, 1, 8));
    DoorbellDelivers(s, t);
    SubmitBusy(s.gates[t], s.cfg, s.now);
  }

  // The gate a prepared endpoint's doorbell sees.
  function Rung(g: Gate, k: Share, release: u64): Gate
    requires Sized(k) && DST + |k.input| <= |g.ram|
  {
    Prepared(g, k).(desc := JobDescriptor(k, release))
  }

  // The gate of a share admitted when released.
  function Started(g: Gate, k: Share, c: Config, release: u64): Gate
    requires Sized(k) && DST + |k.input| <= |g.ram|
  {
    EndpointGate.Submit(Rung(g, k, release), c, release)
  }

  lemma RungIsAdmitted(g: Gate, c: Config, k: Share, now: u64)
    requires Roomy(g, k)
    ensures Admission(Rung(g, k, now), c, now) == NoError
    ensures var a := Rung(g, k, now);
            a.ram[SRC..SRC + |k.input|] == k.input && a.ram[DST..DST + |k.input|] == Filler(|k.input|)
  {
    var a, w := Rung(g, k, now), |k.input|;
    assert a.ram[SRC..SRC + w] == Splice(g.ram, SRC, k.input)[SRC..SRC + w] == k.input;
    assert a.ram[DST..DST + w] == Filler(w);
  }

  // Descriptor and doorbell, released as it is submitted.
  method SubmitJob(s: System, t: nat, ghost g: Gate, k: Share) returns (r: System)
    requires Good(s) && t < |s.gates| && Roomy(g, k) && s.now < WORD64 && s.gates[t] == Prepared(g, k)
    ensures Good(r) && r == Admitted(s.(gates := s.gates[t := Rung(g, k, s.now)]), t)
  {
    hide Good, EndpointGate.Submit, Admission, Splice;
    RungIsAdmitted(g, s.cfg, k, s.now);
    r := Describe(s, t, JobDescriptor(k, s.now));
    DoorbellAdmits(r, t);
    r := Step(r, Mmio(t, 0xa8, 1, 8));
  }

  // What the host looks at right after a doorbell: a running job, its request alone in the log, and nothing yet
  // where the output will go.
  lemma StartedLooks(g: Gate, k: Share, c: Config, release: u64)
    requires Roomy(g, k)
    ensures var a := Started(g, k, c, release);
            && a.state == Busy && |a.log| == (if c.enforce then 1 else 0)
            && |a.ram| == |g.ram| && a.ram[DST..DST + |k.input|] == Filler(|k.input|)
  {
    hide Splice, Kernel;
    RungIsAdmitted(g, c, k, release);
  }

  // ---------------------------------------------------------------- what a settled job leaves

  // Everything the host holds a settled endpoint to, its times aside.
  predicate Finished(h: Gate, c: Config, t: nat, k: Share, release: nat)
    requires Sized(k)
  {
    && h.state == Done && h.error == NoError && h.committed == 1
    && h.epoch == k.epoch && h.desc.words == Words(k) && h.desc.scalar == k.scalar
    && DST + |k.input| <= |h.ram| && h.ram[DST..DST + |k.input|] == Answer(k)
    && |h.log| == (if c.enforce then 2 else 0)
    && (c.enforce ==> ValidateRecords(h.log, t, k.epoch, k.epoch, k.input, Answer(k), k.scalar, release, h.times.finished))
  }

  // Serial number, capacity and memory size never change.
  predicate SameHardware(g: Gate, h: Gate) {
    h.serial == g.serial && h.capacity == g.capacity && |h.ram| == |g.ram|
  }

  lemma JobFinishes(g: Gate, h: Gate, c: Config, t: nat, k: Share, release: u64)
    requires Roomy(g, k) && g.serial == 201 + t
    requires Runnable(Started(g, k, c, release)) && Settled(Started(g, k, c, release), h, c)
    ensures Finished(h, c, t, k, release) && SameHardware(g, h)
  {
    hide Kernel, ValidateRecords, Scrub, Fate, Splice, EndpointGate.Submit, Admission, Extends, Runnable;
    var a, u := Started(g, k, c, release), Rung(g, k, release);
    RungIsAdmitted(g, c, k, release);
    StartedFacts(g, k, c, release);
    FateFields(a, h, c);
    OutputInPlace(a.ram, Answer(k));
    if c.enforce {
      FreshJobRecords(u, a, h, c, release, t);
      assert HostAccepts(u, h, t);
      AcceptedSize(h, t, k, release);
    }
  }

  lemma AcceptedSize(h: Gate, t: nat, k: Share, release: nat)
    requires Sized(k)
    requires ValidateRecords(h.log, t, k.epoch, k.epoch, k.input, Answer(k), k.scalar, release, h.times.finished)
    ensures |h.log| == 2
  {
    hide RecordMatches;
  }

  lemma OutputInPlace(ram: seq<u8>, output: seq<u8>)
    requires DST + |output| <= |ram|
    ensures Splice(ram, DST, output)[DST..DST + |output|] == output
  {
  }

  lemma StartedFacts(g: Gate, k: Share, c: Config, release: u64)
    requires Roomy(g, k)
    ensures var a, u := Started(g, k, c, release), Rung(g, k, release);
            && a.input == k.input && a.phase == ComputeEnd && a.error == NoError && a.desc == u.desc
            && a.epoch == k.epoch && a.ram == u.ram && a.serial == g.serial && a.capacity == g.capacity
            && (!c.enforce ==> a.log == [])
  {
    hide Splice, Kernel;
    RungIsAdmitted(g, c, k, release);
  }

  // A job without fault settles DONE.
  lemma FateFields(a: Gate, h: Gate, c: Config)
    requires Runnable(a) && Scrub(h) == Fate(a, c) && a.desc.fault == 0 && a.error == NoError
    ensures h.state == Done && h.error == NoError && h.committed == 1
    ensures h.desc == a.desc && h.epoch == a.epoch && h.serial == a.serial && h.capacity == a.capacity
    ensures !c.enforce && a.log == [] ==> h.log == []
  {
    hide Kernel, Splice;
    assert Scrub(h).state == Done;
    assert |h.log| == |Scrub(h).log|;
  }
}
