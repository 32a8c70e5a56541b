// What a job can come to, whatever its peers, its host and its own MMIO page do meanwhile.
module EndpointOutcome {
  import opened Bytes
  import opened Wrappers
  import opened LinkSchedule
  import opened EndpointGate
  import opened EndpointInvariant
  import opened EndpointSystem

  // ---------------------------------------------------------------- doorbells and sticky failures

  // A doorbell that is heard either admits the job or fails it before any effect: no timer, no store, no record.
  lemma DoorbellOutcome(g: Gate, c: Config, now: nat)
    requires g.state in {Idle, Done} && g.deadline == None
    ensures var h := Write(g, c, now, 0xa8, 1, 8);
            && h.ram == g.ram && h.tally.completions == g.tally.completions && h.committed == 0
            && (Admission(g, c, now) == NoError <==> h.state == Busy)
            && (h.state == Busy ==> h.tally.failures == g.tally.failures && h.input == g.ram[g.desc.src..g.desc.src + 8 * g.desc.words])
            && (h.state != Busy ==>
                  && h.state == PreFail && h.error == Admission(g, c, now) && h.tally.failures == g.tally.failures + 1
                  && h.log == g.log && h.tally.requests == g.tally.requests && h.deadline == None
                  && h.failure.Some? && h.failure.value.kind == 3 && h.failure.value.digest == Absent)
  {
  }

  ghost predicate Sticky(g: Gate, h: Gate) {
    || h.epoch > g.epoch
    || (h.epoch == g.epoch && h.state == g.state && h.error == g.error && h.failure == g.failure
        && h.log == g.log && h.committed == g.committed && h.deadline == g.deadline)
  }

  lemma StickyWrite(g: Gate, c: Config, now: nat, addr: u64, v: u64, size: nat)
    requires g.state in {PreFail, PostFail}
    ensures Sticky(g, Write(g, c, now, addr, v, size))
  {
  }

  lemma EpochGrows(g: Gate, c: Config, now: nat, addr: u64, v: u64, size: nat)
    ensures Write(g, c, now, addr, v, size).epoch >= g.epoch
  {
  }

  // One step of the whole system, seen by gate t.
  ghost predicate Seen(g: Gate, h: Gate, c: Config, now: nat, link: nat, a: Action, t: nat) {
    match a
    case Mmio(k, addr, v, size) => h == if k == t then Write(g, c, now, addr, v, size) else g
    case Store(k, at, data) => h == if k == t then HostWrite(g, at, data) else g
    case Wait(until) => h == g
    case Tick => h == g || (g.deadline.Some? && Runnable(g) && h == Complete(g, c, g.deadline.value, link).0)
  }

  lemma StepSeen(s: System, a: Action, t: nat)
    requires Good(s) && t < |s.gates|
    ensures Seen(s.gates[t], Step(s, a).gates[t], s.cfg, s.now, s.link, a, t)
  {
    if a == Tick && s.queue != [] {
      HeadFires(s);
      FireSeen(s, t);
    }
  }

  lemma FireSeen(s: System, t: nat)
    requires Good(s) && t < |s.gates| && s.queue != [] && Armed(s, s.queue[0])
    requires Runnable(s.gates[s.queue[0].tile])
    ensures var e := s.queue[0];
            Step(s, Tick).gates[t]
            == if t == e.tile then Complete(s.gates[t], s.cfg, e.deadline, s.link).0 else s.gates[t]
  {
  }

  lemma SeenSticky(g: Gate, h: Gate, c: Config, now: nat, link: nat, a: Action, t: nat)
    requires Seen(g, h, c, now, link, a, t) && g.state in {PreFail, PostFail}
    ensures Sticky(g, h)
  {
    match a
    case Mmio(k, addr, v, size) => StickyWrite(g, c, now, addr, v, size);
    case Store(k, at, data) =>
    case Wait(until) =>
    case Tick =>
  }

  lemma SeenEpoch(g: Gate, h: Gate, c: Config, now: nat, link: nat, a: Action, t: nat)
    requires Seen(g, h, c, now, link, a, t)
    ensures h.epoch >= g.epoch
  {
    match a
    case Mmio(k, addr, v, size) => EpochGrows(g, c, now, addr, v, size);
    case Store(k, at, data) =>
    case Wait(until) =>
    case Tick =>
  }

  // A failed endpoint stays failed, diagnostic and log untouched, until a strictly larger epoch is written.
  lemma {:induction false} FailurePersists(s: System, actions: seq<Action>, t: nat)
    requires Good(s) && t < |s.gates| && s.gates[t].state in {PreFail, PostFail}
    ensures Sticky(s.gates[t], Run(s, actions).gates[t])
  {
    if actions != [] {
      var n := |actions| - 1;
      FailurePersists(s, actions[..n], t);
      var r := Run(s, actions[..n]);
      var g, h := r.gates[t], Step(r, actions[n]).gates[t];
      StepSeen(r, actions[n], t);
      SeenEpoch(g, h, r.cfg, r.now, r.link, actions[n], t);
      if g.epoch == s.gates[t].epoch {
        SeenSticky(g, h, r.cfg, r.now, r.link, actions[n], t);
      }
    }
  }

  // ---------------------------------------------------------------- one job, undisturbed

  // The commit callback stores exactly the kernel's output in [dst, dst + 8*words) and nothing else; no other
  // callback stores anything.
  lemma CommitWrites(g: Gate, c: Config, now: nat, link: nat, i: nat)
    requires JobOk(g, c) && i < |g.ram|
    ensures var h := Complete(g, c, now, link).0;
            && |h.ram| == |g.ram|
            && (if g.phase.LinkEnd? && g.desc.dst <= i < g.desc.dst + 8 * g.desc.words
                then h.ram[i] == Kernel(g.input, g.desc.scalar)[i - g.desc.dst] else h.ram[i] == g.ram[i])
            && (h.committed != g.committed ==> g.phase.LinkEnd? && h.committed == 1)
  {
  }

  function Timeless(log: seq<Record>): seq<Record> {
    seq(|log|, i requires 0 <= i < |log| => log[i].(timeNs := 0))
  }

  // Everything about a gate except link times, record times, rejected writes and RAM.
  function Scrub(g: Gate): Gate {
    g.(times := g.times.(linkStart := 0, linkEnd := 0, queueWait := 0, finished := 0),
       tally := g.tally.(rejected := 0), ram := [], log := Timeless(g.log),
       failure := if g.failure.Some? then Some(g.failure.value.(timeNs := 0)) else None)
  }

  // What admission fixed: the outcome of the same job alone on an idle link.
  function Fate(g: Gate, c: Config): Gate
    requires Runnable(g)
  {
    var done := g.(phase := RecordEnd, output := Kernel(g.input, g.desc.scalar), committed := 1);
    Scrub(Complete(done, c, 0, 0).0)
  }

  // The gate still runs the job it ran at g.
  ghost predicate Frozen(g: Gate, h: Gate) {
    && h.state == Busy && |h.ram| == |g.ram|
    && h == g.(phase := h.phase, output := h.output, committed := h.committed, deadline := h.deadline, ram := h.ram,
               times := g.times.(linkStart := h.times.linkStart, linkEnd := h.times.linkEnd,
                                 queueWait := h.times.queueWait),
               tally := g.tally.(rejected := h.tally.rejected))
  }

  ghost predicate InFlight(s: System, actions: seq<Action>, t: nat)
    requires Good(s) && t < |s.gates|
  {
    forall i :: 0 <= i <= |actions| ==> Run(s, actions[..i]).gates[t].state == Busy
  }

  lemma FrozenStep(g: Gate, h: Gate, c: Config, now: nat, link: nat, a: Action, t: nat)
    requires Seen(g, h, c, now, link, a, t) && g.state == Busy && h.state == Busy
    ensures Frozen(g, h)
  {
    match a
    case Mmio(k, addr, v, size) =>
    case Store(k, at, data) =>
    case Wait(until) =>
    case Tick =>
  }

  lemma {:induction false} FrozenRun(s: System, actions: seq<Action>, t: nat)
    requires Good(s) && t < |s.gates| && InFlight(s, actions, t)
    ensures Frozen(s.gates[t], Run(s, actions).gates[t])
  {
    BusyAtEnds(s, actions, t);
    if actions != [] {
      var n := |actions| - 1;
      ShorterFlight(s, actions, t);
      FrozenRun(s, actions[..n], t);
      FrozenNext(s.gates[t], Run(s, actions[..n]), actions[n], t);
    }
  }

  lemma FrozenNext(g: Gate, r: System, a: Action, t: nat)
    requires Good(r) && t < |r.gates| && Frozen(g, r.gates[t]) && Step(r, a).gates[t].state == Busy
    ensures Frozen(g, Step(r, a).gates[t])
  {
    StepSeen(r, a, t);
    FrozenStep(r.gates[t], Step(r, a).gates[t], r.cfg, r.now, r.link, a, t);
  }

  lemma ShorterFlight(s: System, actions: seq<Action>, t: nat)
    requires Good(s) && t < |s.gates| && InFlight(s, actions, t) && actions != []
    ensures InFlight(s, actions[..|actions| - 1], t)
  {
    var n := |actions| - 1;
    forall i | 0 <= i <= n
      ensures Run(s, actions[..n][..i]).gates[t].state == Busy
    {
      assert actions[..n][..i] == actions[..i];
    }
  }

  lemma BusyAtEnds(s: System, actions: seq<Action>, t: nat)
    requires Good(s) && t < |s.gates| && InFlight(s, actions, t)
    ensures s.gates[t].state == Busy && Run(s, actions).gates[t].state == Busy
    ensures JobOk(s.gates[t], s.cfg) && JobOk(Run(s, actions).gates[t], s.cfg)
  {
    assert actions[..|actions|] == actions;
    assert actions[..0] == [];
    assert Run(s, actions[..0]).gates[t].state == Busy;
    assert Inv(s.gates[t], s.cfg, s.now);
    var r := Run(s, actions);
    assert Inv(r.gates[t], r.cfg, r.now);
  }

  lemma FateOfRecordEnd(g: Gate, h: Gate, c: Config, now: nat, link: nat)
    requires Runnable(g) && Frozen(g, h) && JobOk(h, c) && h.phase.RecordEnd?
    ensures Scrub(Complete(h, c, now, link).0) == Fate(g, c)
  {
    var done := g.(phase := RecordEnd, output := Kernel(g.input, g.desc.scalar), committed := 1);
    var a, b := Complete(h, c, now, link).0, Complete(done, c, 0, 0).0;
    assert Timeless(a.log) == Timeless(b.log);
  }

  // The job runs through the given actions and the callback after them ends it.
  ghost predicate Ends(s: System, actions: seq<Action>, t: nat)
    requires Good(s) && t < |s.gates|
  {
    InFlight(s, actions, t) && Ending(s, actions, t).state != Busy
  }

  ghost function Ending(s: System, actions: seq<Action>, t: nat): Gate
    requires Good(s) && t < |s.gates|
  {
    Step(Run(s, actions), Tick).gates[t]
  }

  // From admission to its end, nothing outside decides what a job commits or records.
  lemma JobMeetsItsFate(s: System, actions: seq<Action>, t: nat)
    requires Good(s) && t < |s.gates| && Ends(s, actions, t)
    ensures Runnable(s.gates[t])
    ensures Scrub(Ending(s, actions, t)) == Fate(s.gates[t], s.cfg)
    ensures Extends(s.gates[t], Ending(s, actions, t))
  {
    FrozenRun(s, actions, t);
    BusyAtEnds(s, actions, t);
    var r := Run(s, actions);
    StepSeen(r, Tick, t);
    var now := r.gates[t].deadline.value;
    LastCallback(r.gates[t], r.cfg, now, r.link);
    FateOfRecordEnd(s.gates[t], r.gates[t], s.cfg, now, r.link);
  }

  // The log grew by at most one record, stamped with the finishing time.
  ghost predicate Extends(g: Gate, h: Gate) {
    g.log <= h.log && |h.log| <= |g.log| + 1 && (|h.log| > |g.log| ==> h.log[|g.log|].timeNs == h.times.finished)
  }

  lemma LastCallback(g: Gate, c: Config, now: nat, link: nat)
    requires JobOk(g, c) && Complete(g, c, now, link).0.state != Busy
    ensures g.phase.RecordEnd?
    ensures Extends(g, Complete(g, c, now, link).0)
  {
  }

  // Two runs from the same admission, with any MMIO writes to the endpoint, host stores to its memory and peer
  // activity in either: the endings differ at most in link times, record times, rejected writes and RAM.
  lemma NonInterference(s: System, one: seq<Action>, two: seq<Action>, t: nat)
    requires Good(s) && t < |s.gates| && Ends(s, one, t) && Ends(s, two, t)
    ensures Scrub(Ending(s, one, t)) == Scrub(Ending(s, two, t))
  {
    JobMeetsItsFate(s, one, t);
    JobMeetsItsFate(s, two, t);
  }

  // ---------------------------------------------------------------- the host's record check

  const SRC: u64 := 0x400000
  const DST: u64 := 0x800000

  predicate RecordMatches(r: Record, index: nat, tile: nat, epoch: u64, job: u64, data: seq<u8>, scalar: u64,
                          kind: nat, committed: nat, time: nat)
  {
    && r.kind == kind && r.serial == 201 + tile && r.epoch == epoch
    && r.sequence == index + 1 && r.job == job && r.src == SRC && r.dst == DST
    && r.words == |data| / 8 && r.scalar == scalar && r.policy == 0x534c_5547_0000_0001
    && r.timeNs == time && r.committed == committed && r.digest == Sha256(data)
  }

  predicate ValidateRecords(records: seq<Record>, tile: nat, epoch: u64, job: u64, input: seq<u8>,
                            output: seq<u8>, scalar: u64, release: nat, finished: nat)
  {
    && |records| == 2
    && RecordMatches(records[0], 0, tile, epoch, job, input, scalar, 1, 0, release)
    && RecordMatches(records[1], 1, tile, epoch, job, output, scalar, 2, 1, finished)
  }

  // A doorbell that starts a fresh log at the driver's addresses, released as it is submitted, and is admitted.
  ghost predicate FreshJob(g: Gate, c: Config, now: nat, t: nat) {
    && c.enforce && g.state in {Idle, Done} && g.log == [] && g.serial == 201 + t
    && g.desc.src == SRC && g.desc.dst == DST && g.desc.release == now && Admission(g, c, now) == NoError
  }

  // The host accepts the log, with the kernel's output over the input resident at the doorbell.
  ghost predicate HostAccepts(g: Gate, h: Gate, t: nat) {
    && g.desc.src + 8 * g.desc.words <= |g.ram|
    && var input := g.ram[g.desc.src..g.desc.src + 8 * g.desc.words];
       ValidateRecords(h.log, t, g.epoch, g.desc.job, input, Kernel(input, g.desc.scalar), g.desc.scalar, g.desc.release, h.times.finished)
  }

  // Every fresh job of g, whose doorbell led to the system s, ends in DONE with a log the host accepts; its
  // only other ending is the completion failure it asked for.
  lemma DriverAcceptsEveryDone(g: Gate, s: System, t: nat, actions: seq<Action>)
    requires Good(s) && t < |s.gates| && Ends(s, actions, t)
    requires FreshJob(g, s.cfg, s.now, t) && s.gates[t] == Submit(g, s.cfg, s.now)
    ensures var h := Ending(s, actions, t);
            if BitSet(g.desc.fault, 2) then h.state == PostFail else h.state == Done && HostAccepts(g, h, t)
  {
    JobMeetsItsFate(s, actions, t);
    FreshJobRecords(g, s.gates[t], Ending(s, actions, t), s.cfg, s.now, t);
  }

  lemma FreshJobRecords(g: Gate, a: Gate, h: Gate, c: Config, now: nat, t: nat)
    requires FreshJob(g, c, now, t) && a == Submit(g, c, now) && Runnable(a) && Scrub(h) == Fate(a, c)
    requires Extends(a, h)
    ensures if BitSet(g.desc.fault, 2) then h.state == PostFail else h.state == Done && HostAccepts(g, h, t)
  {
    assert Scrub(h).state == h.state;
    if h.state == Done {
      assert |Scrub(h).log| == |h.log| == 2;
      assert h.log[0] == a.log[0];
      assert Scrub(h).log[1] == h.log[1].(timeNs := 0);
      assert h.log[1] == Scrub(h).log[1].(timeNs := h.times.finished);
    }
  }
}
