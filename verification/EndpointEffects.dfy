// What a job or a refused doorbell does to device memory over a whole run, byte by byte.
module EndpointEffects {
  import opened Bytes
  import opened Wrappers
  import opened LinkSchedule
  import opened EndpointGate
  import opened EndpointInvariant
  import opened EndpointSystem
  import opened EndpointOutcome

  // The host never stores over byte i of endpoint t's memory.
  ghost predicate Untouched(actions: seq<Action>, t: nat, i: nat) {
    forall k :: 0 <= k < |actions| ==> Spares(actions[k], t, i)
  }

  ghost predicate Spares(a: Action, t: nat, i: nat) {
    a.Store? && a.target == t ==> !(a.at <= i < a.at + |a.data|)
  }

  // Byte i once the job running at g has committed, and before.
  ghost function ByteAt(g: Gate, i: nat, committed: bool): u8
    requires Runnable(g) && i < |g.ram|
  {
    if committed && g.desc.dst <= i < g.desc.dst + 8 * g.desc.words then Kernel(g.input, g.desc.scalar)[i - g.desc.dst]
    else g.ram[i]
  }

  lemma StoredByte(ram: seq<u8>, at: nat, data: seq<u8>, i: nat)
    requires at + |data| <= |ram| && i < |ram|
    ensures Splice(ram, at, data)[i] == if at <= i < at + |data| then data[i - at] else ram[i]
  {
  }

  // One step of a running job.
  lemma StepByte(g: Gate, h: Gate, c: Config, now: nat, link: nat, a: Action, t: nat, i: nat)
    requires Seen(g, h, c, now, link, a, t) && JobOk(g, c) && Spares(a, t, i) && i < |g.ram|
    ensures |h.ram| == |g.ram|
    ensures h.ram[i] == ByteAt(g, i, g.phase.LinkEnd? && h.phase.RecordEnd?)
    ensures g.phase.RecordEnd? ==> h.phase.RecordEnd?
    ensures h.phase.RecordEnd? ==> !g.phase.ComputeEnd?
  {
    hide Kernel, Splice;
    match a
    case Mmio(k, addr, v, size) =>
    case Store(k, at, data) =>
      if k == t && at + |data| <= |g.ram| {
        StoredByte(g.ram, at, data, i);
      }
    case Wait(until) =>
    case Tick =>
      if h != g && g.phase.LinkEnd? {
        StoredByte(g.ram, g.desc.dst, g.output, i);
      }
  }

  // While a job is in flight its endpoint's memory is as the host left it until the commit, which writes the
  // kernel's output over [dst, dst + 8*words) and nothing else, whatever peers and the endpoint's own page do.
  lemma {:induction false} MemoryInFlight(s: System, actions: seq<Action>, t: nat, i: nat)
    requires Good(s) && t < |s.gates| && InFlight(s, actions, t) && !s.gates[t].phase.RecordEnd?
    requires Untouched(actions, t, i) && i < |s.gates[t].ram|
    ensures Runnable(s.gates[t])
    ensures var h := Run(s, actions).gates[t];
            |h.ram| == |s.gates[t].ram| && h.ram[i] == ByteAt(s.gates[t], i, h.phase.RecordEnd?)
  {
    hide Good, Step, Kernel;
    BusyAtEnds(s, actions, t);
    if actions != [] {
      var n := |actions| - 1;
      ShorterFlight(s, actions, t);
      BusyAtEnds(s, actions[..n], t);
      MemoryInFlight(s, actions[..n], t, i);
      FrozenRun(s, actions[..n], t);
      var r := Run(s, actions[..n]);
      StepSeen(r, actions[n], t);
      StepByte(r.gates[t], Step(r, actions[n]).gates[t], r.cfg, r.now, r.link, actions[n], t, i);
    }
  }

  // And when the job is over the output is out, whether or not its completion was recorded.
  lemma MemoryAtEnd(s: System, actions: seq<Action>, t: nat, i: nat)
    requires Good(s) && t < |s.gates| && Ends(s, actions, t) && !s.gates[t].phase.RecordEnd?
    requires Untouched(actions, t, i) && i < |s.gates[t].ram|
    ensures Runnable(s.gates[t])
    ensures var h := Ending(s, actions, t);
            |h.ram| == |s.gates[t].ram| && h.ram[i] == ByteAt(s.gates[t], i, true) && h.committed == 1
  {
    hide Good, Step, Kernel;
    MemoryInFlight(s, actions, t, i);
    BusyAtEnds(s, actions, t);
    var r := Run(s, actions);
    StepSeen(r, Tick, t);
    var g := r.gates[t];
    LastCallback(g, r.cfg, g.deadline.value, r.link);
    LastCallbackKeeps(g, r.cfg, g.deadline.value, r.link);
  }

  lemma LastCallbackKeeps(g: Gate, c: Config, now: nat, link: nat)
    requires JobOk(g, c) && g.phase.RecordEnd?
    ensures var h := Complete(g, c, now, link).0; h.ram == g.ram && h.committed == 1
  {
  }

  // ---------------------------------------------------------------- refused doorbells

  // A gate that has failed before commit, as the refusal of g's doorbell left it.
  ghost predicate Refused(g: Gate, h: Gate, e: Error) {
    && h.state == PreFail && h.error == e && h.log == g.log && h.committed == 0 && h.deadline == None
    && h.failure.Some? && h.failure.value.kind == 3 && h.failure.value.digest == Absent && h.epoch == g.epoch
  }

  lemma RefusedStep(g: Gate, h: Gate, c: Config, now: nat, link: nat, a: Action, t: nat, i: nat)
    requires Seen(g, h, c, now, link, a, t) && g.state == PreFail && g.deadline == None
    requires Spares(a, t, i) && i < |g.ram|
    ensures |h.ram| == |g.ram| && h.ram[i] == g.ram[i]
  {
    hide Kernel, Splice;
    if a.Store? && a.target == t && a.at + |a.data| <= |g.ram| {
      StoredByte(g.ram, a.at, a.data, i);
    }
  }

  lemma DoorbellRefused(s: System, t: nat)
    requires Good(s) && t < |s.gates| && s.gates[t].state in {Idle, Done}
    requires Admission(s.gates[t], s.cfg, s.now) != NoError
    ensures var r := Step(s, Mmio(t, 0xa8, 1, 8)); var e := Admission(s.gates[t], s.cfg, s.now);
            && Good(r) && Refused(s.gates[t], r.gates[t], e) && r.gates[t].ram == s.gates[t].ram
            && r.queue == s.queue && r.link == s.link && r.now == s.now && r.jobs == s.jobs
            && forall u :: 0 <= u < |s.gates| && u != t ==> r.gates[u] == s.gates[u]
  {
    hide TracksOk, LinkOk, QueueOk;
    StepGood(s, Mmio(t, 0xa8, 1, 8));
    assert Inv(s.gates[t], s.cfg, s.now);
    DoorbellOutcome(s.gates[t], s.cfg, s.now);
  }

  // A refused doorbell leaves a diagnostic and nothing else: no timer, no peer, no record, and until a larger epoch
  // is written no byte of memory that the host does not store itself.
  lemma {:induction false} RefusalHasNoEffect(s: System, after: seq<Action>, t: nat, i: nat)
    requires Good(s) && t < |s.gates| && s.gates[t].state in {Idle, Done}
    requires Admission(s.gates[t], s.cfg, s.now) != NoError && Untouched(after, t, i) && i < |s.gates[t].ram|
    ensures Good(Step(s, Mmio(t, 0xa8, 1, 8)))
    ensures var g, h := s.gates[t], Run(Step(s, Mmio(t, 0xa8, 1, 8)), after).gates[t];
            || h.epoch > g.epoch
            || (Refused(g, h, Admission(g, s.cfg, s.now)) && |h.ram| == |g.ram| && h.ram[i] == g.ram[i])
  {
    hide Good, Step, Admission;
    DoorbellRefused(s, t);
    if after != [] {
      var n, r := |after| - 1, Step(s, Mmio(t, 0xa8, 1, 8));
      RefusalHasNoEffect(s, after[..n], t, i);
      var u := Run(r, after[..n]);
      var g, h := u.gates[t], Step(u, after[n]).gates[t];
      StepSeen(u, after[n], t);
      SeenEpoch(g, h, u.cfg, u.now, u.link, after[n], t);
      if g.epoch == s.gates[t].epoch {
        SeenSticky(g, h, u.cfg, u.now, u.link, after[n], t);
        RefusedStep(g, h, u.cfg, u.now, u.link, after[n], t, i);
      }
    }
  }
}
