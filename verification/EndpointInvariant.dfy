// What every MMIO write, host store, callback and passage of time keeps about one gate.
module EndpointInvariant {
  import opened Bytes
  import opened Wrappers
  import opened LinkSchedule
  import opened EndpointGate

  ghost predicate SameJob(a: Record, b: Record) {
    a.job == b.job && a.src == b.src && a.dst == b.dst && a.words == b.words && a.scalar == b.scalar
  }

  // b is evidence of what the kernel makes of the input that a is evidence of.
  ghost predicate Answers(a: Record, b: Record) {
    && SameJob(a, b)
    && a.digest.Sha256? && |a.digest.content| == 8 * a.words
    && b.digest == Sha256(Kernel(a.digest.content, a.scalar))
  }

  // The i-th record of an epoch: requests at even places, each answered by the completion behind it.
  ghost predicate RecordOk(g: Gate, i: nat, now: nat)
    requires i < |g.log|
  {
    var r := g.log[i];
    && r.serial == g.serial && r.epoch == g.epoch && r.policy == POLICY_ID
    && r.sequence == i + 1 && r.kind == 1 + i % 2 && r.committed == i % 2
    && r.timeNs <= now && (i > 0 ==> g.log[i - 1].timeNs <= r.timeNs)
    && (i % 2 == 0 ==> r.digest.Sha256? && |r.digest.content| == 8 * r.words)
    && (i % 2 == 1 ==> Answers(g.log[i - 1], r))
  }

  ghost predicate LogOk(g: Gate, now: nat) {
    forall i :: 0 <= i < |g.log| ==> RecordOk(g, i, now)
  }

  // The job in flight, frozen since its admission.
  ghost predicate JobOk(g: Gate, c: Config) {
    && Runnable(g) && g.deadline.Some?
    && 0 < g.desc.words <= MAX_WORDS && g.desc.jobEpoch == g.epoch && g.desc.fault <= 3
    && RangeValid(|g.ram|, g.desc.src, 8 * g.desc.words) && RangeValid(|g.ram|, g.desc.dst, 8 * g.desc.words)
    && g.error == NoError && g.failure == None
    && g.times.computeStart == StartOf(JobOf(g, 0), c) && g.times.computeEnd == EndOf(JobOf(g, 0), c)
    && (g.phase.ComputeEnd? ==> g.deadline == Some(g.times.computeEnd))
    && (!g.phase.ComputeEnd? ==> g.output == Kernel(g.input, g.desc.scalar))
    && (g.phase.LinkEnd? ==> g.deadline == Some(g.times.linkEnd))
    && g.committed == (if g.phase.RecordEnd? then 1 else 0)
    && (c.enforce ==> !BitSet(g.desc.fault, 1) && OpenRequest(g) && |g.log| + 1 <= g.capacity)
  }

  ghost predicate OpenRequest(g: Gate) {
    && |g.log| > 0
    && SameJob(g.log[|g.log| - 1], Snapshot(g, 1, 0, Absent))
    && g.log[|g.log| - 1].digest == Sha256(g.input)
  }

  ghost predicate OutcomeOk(g: Gate, c: Config) {
    match g.state
    case Idle => g.log == [] && g.error == NoError && g.failure == None && g.deadline == None
    case Busy => JobOk(g, c)
    case Done => g.error == NoError && g.failure == None && g.committed == 1 && g.deadline == None
                 && (c.enforce ==> |g.log| >= 2)
    case PreFail => g.error != NoError && g.error != CompletionLost && g.committed == 0 && g.deadline == None
                    && g.failure.Some? && g.failure.value.kind == 3 && g.failure.value.committed == 0
                    && g.failure.value.digest == Absent && g.failure.value.epoch == g.epoch
    case PostFail => c.enforce && g.error == CompletionLost && g.committed == 1 && g.deadline == None
                     && g.failure.Some? && g.failure.value.kind == 4 && g.failure.value.committed == 1
                     && g.failure.value.epoch == g.epoch
                     && |g.log| > 0 && Answers(g.log[|g.log| - 1], g.failure.value)
  }

  ghost predicate Inv(g: Gate, c: Config, now: nat) {
    && |g.log| <= g.capacity <= MAX_RECORDS
    && LogOk(g, now)
    && OutcomeOk(g, c)
    && (!c.enforce ==> g.log == [] && g.tally.requests == g.tally.completions == g.tally.postFailures == 0)
    && (c.enforce ==> (|g.log| % 2 == 1 <==> g.state == Busy || g.state == PostFail))
    && (c.enforce ==> g.tally.requests == g.tally.completions + g.tally.postFailures + if g.state == Busy then 1 else 0)
  }

  lemma InvInitial(serial: nat, ram: seq<u8>, c: Config, now: nat)
    ensures Inv(Initial(serial, ram), c, now)
  {
  }

  lemma InvTime(g: Gate, c: Config, now: nat, later: nat)
    requires Inv(g, c, now) && now <= later
    ensures Inv(g, c, later)
  {
    forall i | 0 <= i < |g.log|
      ensures RecordOk(g, i, later)
    {
      assert RecordOk(g, i, now);
    }
  }

  // Registers outside the record history do not matter to it.
  lemma LogKept(g: Gate, h: Gate, now: nat)
    requires LogOk(g, now) && h.log == g.log && h.serial == g.serial && h.epoch == g.epoch
    ensures LogOk(h, now)
  {
    forall i | 0 <= i < |h.log|
      ensures RecordOk(h, i, now)
    {
      assert RecordOk(g, i, now);
    }
  }

  lemma LogGrows(g: Gate, h: Gate, r: Record, now: nat)
    requires LogOk(g, now) && h.log == g.log + [r] && h.serial == g.serial && h.epoch == g.epoch
    requires RecordOk(h, |g.log|, now)
    ensures LogOk(h, now)
  {
    forall i | 0 <= i < |h.log|
      ensures RecordOk(h, i, now)
    {
      if i < |g.log| {
        assert RecordOk(g, i, now);
      }
    }
  }

  lemma InvSubmit(g: Gate, c: Config, now: nat)
    requires Inv(g, c, now) && (g.state == Idle || g.state == Done)
    ensures Inv(Submit(g, c, now), c, now)
  {
    var error := Admission(g, c, now);
    if error != NoError {
      InvRefused(g, error, c, now);
    } else {
      InvAdmitted(g, c, now);
    }
  }

  lemma InvRefused(g: Gate, error: Error, c: Config, now: nat)
    requires Inv(g, c, now) && (g.state == Idle || g.state == Done)
    requires error != NoError && error != CompletionLost
    ensures Inv(Fail(Cleared(g), error, now), c, now)
  {
    LogKept(g, Fail(Cleared(g), error, now), now);
  }

  lemma InvAdmitted(g: Gate, c: Config, now: nat)
    requires Inv(g, c, now) && (g.state == Idle || g.state == Done) && Admission(g, c, now) == NoError
    ensures Inv(Submit(g, c, now), c, now)
  {
    hide Kernel;
    var h := Submit(g, c, now);
    if c.enforce {
      LogRequest(g, h, now);
    } else {
      LogKept(g, h, now);
    }
  }

  lemma LogRequest(g: Gate, h: Gate, now: nat)
    requires LogOk(g, now) && |g.log| % 2 == 0 && h.serial == g.serial && h.epoch == g.epoch
    requires |h.input| == 8 * g.desc.words
    requires h.log == g.log + [Snapshot(Cleared(g), 1, now, Sha256(h.input))]
    ensures LogOk(h, now)
  {
    var n := |g.log|;
    if n > 0 {
      assert RecordOk(g, n - 1, now);
    }
    LogGrows(g, h, h.log[n], now);
  }

  // Descriptor registers, counters and capacity are free while no job is in flight.
  lemma InvRegisters(g: Gate, h: Gate, c: Config, now: nat)
    requires Inv(g, c, now) && g.state != Busy
    requires h == g.(desc := h.desc, tally := g.tally.(rejected := h.tally.rejected), capacity := h.capacity)
    requires |g.log| <= h.capacity <= MAX_RECORDS
    ensures Inv(h, c, now)
  {
    LogKept(g, h, now);
  }

  lemma InvReject(g: Gate, c: Config, now: nat)
    requires Inv(g, c, now)
    ensures Inv(Reject(g), c, now)
  {
    LogKept(g, Reject(g), now);
  }

  lemma InvEpoch(g: Gate, c: Config, now: nat, v: u64)
    requires Inv(g, c, now) && g.state != Busy
    ensures Inv(g.(epoch := v, log := [], state := Idle, error := NoError, committed := 0, failure := None), c, now)
  {
  }

  lemma InvWrite(g: Gate, c: Config, now: nat, addr: u64, v: u64, size: nat)
    requires Inv(g, c, now)
    ensures Inv(Write(g, c, now, addr, v, size), c, now)
  {
    InvReject(g, c, now);
    if size != 8 || addr % 8 != 0 || g.state == Busy {
    } else {
      match addr
      case 0x18 => InvEpoch(g, c, now, v);
      case 0x20 => InvRegisters(g, g.(desc := g.desc.(jobEpoch := v)), c, now);
      case 0x28 => InvRegisters(g, g.(desc := g.desc.(job := v)), c, now);
      case 0x30 => InvRegisters(g, g.(desc := g.desc.(src := v)), c, now);
      case 0x38 => InvRegisters(g, g.(desc := g.desc.(dst := v)), c, now);
      case 0x40 => InvRegisters(g, g.(desc := g.desc.(words := v)), c, now);
      case 0x48 => InvRegisters(g, g.(desc := g.desc.(scalar := v)), c, now);
      case 0x50 => InvRegisters(g, g.(desc := g.desc.(release := v)), c, now);
      case 0x58 => InvRegisters(g, g.(desc := g.desc.(fault := v)), c, now);
      case 0x60 =>
        if |g.log| <= v <= MAX_RECORDS {
          InvRegisters(g, g.(capacity := v), c, now);
        }
      case 0xa8 =>
        if v == 1 && g.state != PreFail && g.state != PostFail {
          InvSubmit(g, c, now);
        }
      case _ =>
    }
  }

  lemma InvHostWrite(g: Gate, c: Config, now: nat, at: nat, data: seq<u8>)
    requires Inv(g, c, now)
    ensures Inv(HostWrite(g, at, data), c, now)
  {
    LogKept(g, HostWrite(g, at, data), now);
  }

  lemma InvComplete(g: Gate, c: Config, now: nat, link: nat)
    requires Inv(g, c, now) && g.state == Busy
    ensures Runnable(g) && Inv(Complete(g, c, now, link).0, c, now)
  {
    match g.phase
    case ComputeEnd => LogKept(g, Complete(g, c, now, link).0, now);
    case LinkEnd => LogKept(g, Complete(g, c, now, link).0, now);
    case RecordEnd => InvRecordEnd(g, c, now, link);
  }

  lemma InvRecordEnd(g: Gate, c: Config, now: nat, link: nat)
    requires Inv(g, c, now) && g.state == Busy && g.phase.RecordEnd?
    ensures Inv(Complete(g, c, now, link).0, c, now)
  {
    if c.enforce && BitSet(g.desc.fault, 2) {
      InvCompletionLost(g, c, now);
    } else if c.enforce {
      InvCompletionRecorded(g, c, now);
    } else {
      LogKept(g, Complete(g, c, now, link).0, now);
    }
  }

  lemma InvCompletionLost(g: Gate, c: Config, now: nat)
    requires Inv(g, c, now) && g.state == Busy && g.phase.RecordEnd? && c.enforce
    ensures Inv(Fail(g, CompletionLost, now), c, now)
  {
    assert RecordOk(g, |g.log| - 1, now);
    LogKept(g, Fail(g, CompletionLost, now), now);
  }

  lemma InvCompletionRecorded(g: Gate, c: Config, now: nat)
    requires Inv(g, c, now) && g.state == Busy && g.phase.RecordEnd? && c.enforce
    ensures Inv(g.(log := g.log + [Snapshot(g, 2, now, Sha256(g.output))], tally := g.tally.(completions := g.tally.completions + 1),
                   times := g.times.(finished := now), state := Done, deadline := None), c, now)
  {
    hide Kernel;
    var r := Snapshot(g, 2, now, Sha256(g.output));
    var h := g.(log := g.log + [r], tally := g.tally.(completions := g.tally.completions + 1),
                times := g.times.(finished := now), state := Done, deadline := None);
    LogCompletion(g, h, c, now);
  }

  lemma LogCompletion(g: Gate, h: Gate, c: Config, now: nat)
    requires LogOk(g, now) && JobOk(g, c) && g.phase.RecordEnd? && c.enforce && |g.log| % 2 == 1
    requires h.serial == g.serial && h.epoch == g.epoch
    requires h.log == g.log + [Snapshot(g, 2, now, Sha256(g.output))]
    ensures LogOk(h, now)
  {
    var n := |g.log|;
    assert RecordOk(g, n - 1, now);
    assert h.log[n - 1] == g.log[n - 1];
    LogGrows(g, h, h.log[n], now);
  }
}
