// Stepping the clock until nothing is armed: it ends, and every job in flight comes to what its admission fixed.
module EndpointDrain {
  import opened Bytes
  import opened Wrappers
  import opened LinkSchedule
  import opened EndpointGate
  import opened EndpointInvariant
  import opened EndpointSystem
  import opened EndpointOutcome

  // Callbacks an armed timer still stands for.
  function Left(p: Phase): nat {
    match p
    case ComputeEnd => 3
    case LinkEnd => 2
    case RecordEnd => 1
  }

  function Callbacks(q: seq<Entry>): (n: nat)
    ensures n <= 3 * |q|
    ensures q != [] ==> n > 0
  {
    if q == [] then 0 else Left(q[0].phase) + Callbacks(q[1..])
  }

  lemma {:induction false} CallbacksInsert(q: seq<Entry>, e: Entry)
    ensures Callbacks(Insert(q, e)) == Callbacks(q) + Left(e.phase)
  {
    if q != [] {
      if e.deadline < q[0].deadline {
        assert ([e] + q)[1..] == q;
      } else {
        CallbacksInsert(q[1..], e);
        assert ([q[0]] + Insert(q[1..], e))[1..] == Insert(q[1..], e);
      }
    }
  }

  // Each clock step is one callback less.
  lemma TickLess(s: System)
    requires Good(s) && s.queue != []
    ensures Callbacks(Step(s, Tick).queue) + 1 == Callbacks(s.queue)
  {
    hide Inv, LinkOk, TracksOk;
    HeadFires(s);
    var e := s.queue[0];
    var g := s.gates[e.tile];
    var h := Complete(g, s.cfg, e.deadline, s.link).0;
    if h.deadline.Some? {
      CallbacksInsert(s.queue[1..], Entry(h.deadline.value, e.tile, e.job, e.words, h.phase));
    }
  }

  function Drained(s: System): (r: System)
    requires Good(s)
    ensures Good(r) && r.queue == [] && |r.gates| == |s.gates| && r.cfg == s.cfg
    decreases Callbacks(s.queue)
  {
    if s.queue == [] then s
    else
      StepGood(s, Tick);
      TickLess(s);
      Drained(Step(s, Tick))
  }

  // ---------------------------------------------------------------- draining is a run

  lemma {:induction false} RunConcat(s: System, a: seq<Action>, b: seq<Action>)
    requires Good(s)
    ensures Run(s, a + b) == Run(Run(s, a), b)
  {
    hide Good, Step;
    if b == [] {
      assert a + b == a;
    } else {
      var n := |b| - 1;
      RunConcat(s, a, b[..n]);
      assert (a + b)[..|a| + n] == a + b[..n];
    }
  }

  function Ticks(n: nat): seq<Action> {
    seq(n, _ => Tick)
  }

  lemma {:induction false} DrainIsRun(s: System)
    requires Good(s)
    ensures Drained(s) == Run(s, Ticks(Callbacks(s.queue)))
    decreases Callbacks(s.queue)
  {
    hide Good, Step;
    var n := Callbacks(s.queue);
    if s.queue != [] {
      StepGood(s, Tick);
      TickLess(s);
      DrainIsRun(Step(s, Tick));
      assert Ticks(n) == [Tick] + Ticks(n - 1);
      RunConcat(s, [Tick], Ticks(n - 1));
      assert Run(s, [Tick][..0]) == s;
    }
  }

  // ---------------------------------------------------------------- it ends, with every endpoint settled

  function TilesOf(q: seq<Entry>): set<nat> {
    set e | e in q :: e.tile
  }

  lemma {:induction false} DistinctSize(q: seq<Entry>, n: nat)
    requires DistinctTiles(q) && forall e :: e in q ==> e.tile < n
    ensures |q| == |TilesOf(q)| <= n
  {
    if q == [] {
      assert TilesOf(q) == {};
    } else {
      DistinctSize(q[1..], n);
      assert TilesOf(q) == TilesOf(q[1..]) + {q[0].tile};
      BelowSize(TilesOf(q), n);
    }
  }

  lemma {:induction false} BelowSize(s: set<nat>, n: nat)
    requires forall x :: x in s ==> x < n
    ensures |s| <= n
  {
    if n > 0 {
      BelowSize(s - {n - 1}, n - 1);
    } else {
      assert s == {};
    }
  }

  // However many jobs are in flight, at most three clock steps apiece settle every endpoint and leave the link idle.
  lemma DrainSettles(s: System)
    requires Good(s)
    ensures Callbacks(s.queue) <= 3 * |s.gates|
    ensures var r := Run(s, Ticks(Callbacks(s.queue)));
            r.queue == [] && r.link <= r.now && forall t :: 0 <= t < |r.gates| ==> r.gates[t].state != Busy
  {
    assert forall e :: e in s.queue ==> Armed(s, e);
    DistinctSize(s.queue, |s.gates|);
    DrainIsRun(s);
    var r := Drained(s);
    forall t | 0 <= t < |r.gates|
      ensures r.gates[t].state != Busy
    {
    }
  }

  // ---------------------------------------------------------------- what becomes of each job

  // Device RAM once the job has committed.
  function FinalRam(g: Gate): seq<u8>
    requires Runnable(g)
  {
    if g.phase.RecordEnd? then g.ram else Splice(g.ram, g.desc.dst, Kernel(g.input, g.desc.scalar))
  }

  lemma FateFrozen(g: Gate, h: Gate, c: Config)
    requires Runnable(g) && Frozen(g, h) && Runnable(h)
    ensures Fate(h, c) == Fate(g, c)
  {
    hide Kernel;
    var a := g.(phase := RecordEnd, output := Kernel(g.input, g.desc.scalar), committed := 1);
    var b := h.(phase := RecordEnd, output := Kernel(h.input, h.desc.scalar), committed := 1);
    assert Timeless(Complete(a, c, 0, 0).0.log) == Timeless(Complete(b, c, 0, 0).0.log);
  }

  // A settled job as its admission fixed it.
  ghost predicate Settled(g: Gate, h: Gate, c: Config)
    requires Runnable(g)
  {
    h.state != Busy && Scrub(h) == Fate(g, c) && Extends(g, h) && h.ram == FinalRam(g)
  }

  lemma CallbackSettles(g: Gate, c: Config, now: nat, link: nat)
    requires JobOk(g, c)
    ensures var h := Complete(g, c, now, link).0;
            if h.state == Busy then Frozen(g, h) && Runnable(h) && FinalRam(h) == FinalRam(g) && h.log == g.log
            else Settled(g, h, c) && h.times.finished == now
  {
    hide Kernel;
    var h := Complete(g, c, now, link).0;
    if h.state != Busy {
      FateOfRecordEnd(g, g, c, now, link);
    }
  }

  lemma OneTick(s: System, t: nat)
    requires Good(s) && s.queue != [] && t < |s.gates|
    ensures var e, h := s.queue[0], Step(s, Tick).gates[t];
            if t == e.tile then Runnable(s.gates[t]) && h == Complete(s.gates[t], s.cfg, e.deadline, s.link).0
            else h == s.gates[t]
    ensures Step(s, Tick).now == s.queue[0].deadline
  {
    hide Inv, LinkOk, TracksOk, Complete;
    HeadFires(s);
  }

  lemma {:induction false} DrainFate(s: System, t: nat)
    requires Good(s) && t < |s.gates|
    ensures var g, h := s.gates[t], Drained(s).gates[t];
            if g.state == Busy then Runnable(g) && Settled(g, h, s.cfg) && h.times.finished <= Drained(s).now else h == g
    ensures s.now <= Drained(s).now
    decreases Callbacks(s.queue)
  {
    hide Good, Complete, Fate, Scrub, FinalRam, Frozen;
    GateFacts(s, t);
    if s.queue != [] {
      StepGood(s, Tick);
      TickLess(s);
      OneTick(s, t);
      NowGrows(s);
      var u, g := Step(s, Tick), s.gates[t];
      DrainFate(u, t);
      if g.state == Busy && t == s.queue[0].tile {
        CallbackSettles(g, s.cfg, s.queue[0].deadline, s.link);
        if u.gates[t].state == Busy {
          FateFrozen(g, u.gates[t], s.cfg);
        }
      }
    }
  }

  lemma GateFacts(s: System, t: nat)
    requires Good(s) && t < |s.gates|
    ensures s.gates[t].state == Busy ==> JobOk(s.gates[t], s.cfg) && s.queue != []
    ensures s.queue != [] && t == s.queue[0].tile ==> s.gates[t].state == Busy
  {
    assert Inv(s.gates[t], s.cfg, s.now);
    if s.queue != [] {
      assert Armed(s, s.queue[0]) by { assert s.queue[0] in s.queue; }
    }
  }

  lemma NowGrows(s: System)
    requires Good(s) && s.queue != []
    ensures s.now <= s.queue[0].deadline
  {
    assert s.queue[0] in s.queue;
    assert Armed(s, s.queue[0]);
  }

  // The clock stops at the moment the last job finishes.
  lemma {:induction false} DrainEndsAtFinish(s: System) returns (t: nat)
    requires Good(s) && s.queue != []
    ensures t < |s.gates| && s.gates[t].state == Busy && Drained(s).gates[t].times.finished == Drained(s).now
    decreases Callbacks(s.queue)
  {
    hide Good, Complete;
    StepGood(s, Tick);
    TickLess(s);
    var u := Step(s, Tick);
    if u.queue == [] {
      t := s.queue[0].tile;
      HeadSettles(s);
    } else {
      t := DrainEndsAtFinish(u);
      GateFacts(u, t);
      HeadTile(s);
      OneTick(s, t);
      GateFacts(s, t);
    }
  }

  lemma HeadTile(s: System)
    requires Good(s) && s.queue != []
    ensures s.queue[0].tile < |s.gates| && s.gates[s.queue[0].tile].state == Busy
  {
    HeadFires(s);
  }

  lemma HeadSettles(s: System)
    requires Good(s) && s.queue != [] && Step(s, Tick).queue == []
    ensures var t := s.queue[0].tile;
            t < |s.gates| && s.gates[t].state == Busy && Step(s, Tick).gates[t].times.finished == Step(s, Tick).now
  {
    hide Good, Complete;
    HeadTile(s);
    var t := s.queue[0].tile;
    OneTick(s, t);
    GateFacts(s, t);
    StepGood(s, Tick);
    GateFacts(Step(s, Tick), t);
    CallbackSettles(s.gates[t], s.cfg, s.queue[0].deadline, s.link);
  }

  // ---------------------------------------------------------------- the host's drain loop

  ghost predicate Rising(times: seq<nat>) {
    forall i, j :: 0 <= i < j < |times| ==> times[i] < times[j]
  }

  // No gate has started since s.
  ghost predicate NoneStarted(s: System, r: System) {
    |r.gates| == |s.gates| && forall t :: 0 <= t < |r.gates| && r.gates[t].state == Busy ==> s.gates[t].state == Busy
  }

  // r is somewhere along the draining of s.
  ghost predicate Draining(s: System, r: System) {
    Good(s) && Good(r) && Drained(r) == Drained(s) && NoneStarted(s, r) && s.now <= r.now
  }

  lemma TickDraining(s: System, r: System)
    requires Draining(s, r) && r.queue != []
    ensures Draining(s, Step(r, Tick)) && Callbacks(Step(r, Tick).queue) < Callbacks(r.queue)
    ensures Step(r, Tick).now == r.queue[0].deadline
  {
    hide Good, Complete;
    StepGood(r, Tick);
    TickLess(r);
    NowGrows(r);
    var u := Step(r, Tick);
    forall t | 0 <= t < |u.gates| && u.gates[t].state == Busy
      ensures r.gates[t].state == Busy
    {
      OneTick(r, t);
      GateFacts(r, t);
    }
    OneTick(r, r.queue[0].tile) by { HeadTile(r); }
  }

  // clock_step: forward to the earliest deadline, running every callback due there.
  method ClockStep(s: System) returns (r: System)
    requires Good(s) && s.queue != []
    ensures Draining(s, r) && Callbacks(r.queue) < Callbacks(s.queue)
    ensures r.now == s.queue[0].deadline && (r.queue != [] ==> r.now < r.queue[0].deadline)
  {
    hide Good, Step, Drained, Callbacks;
    TickDraining(s, s);
    r := Step(s, Tick);
    while r.queue != [] && r.queue[0].deadline <= r.now
      invariant Draining(s, r) && Callbacks(r.queue) < Callbacks(s.queue) && r.now == s.queue[0].deadline
      decreases Callbacks(r.queue)
    {
      NowGrows(r);
      TickDraining(s, r);
      r := Step(r, Tick);
    }
  }

  const MOST_STEPS := 1000

  lemma NoneBusy(r: System)
    requires Good(r)
    ensures r.queue == [] <==> forall t :: 0 <= t < |r.gates| ==> r.gates[t].state != Busy
  {
    hide Inv, LinkOk, TracksOk;
    if r.queue != [] {
      HeadTile(r);
    }
  }

  // Step until none of the given endpoints is busy, up to a thousand times. When no other is busy either this
  // drains everything, and it gives up only with more callbacks than that outstanding.
  method Drain(s: System, tiles: seq<nat>) returns (r: Option<System>, steps: seq<nat>)
    requires Good(s) && forall t :: 0 <= t < |s.gates| && s.gates[t].state == Busy ==> t in tiles
    requires forall t :: t in tiles ==> t < |s.gates|
    ensures r.None? ==> Callbacks(s.queue) > MOST_STEPS
    ensures r.Some? ==> r.value == Drained(s)
    ensures Rising(steps)
    ensures s.queue != [] && s.now < s.queue[0].deadline ==> forall x :: x in steps ==> s.now < x
    ensures r.Some? ==> if s.queue == [] then steps == [] else steps != [] && steps[|steps| - 1] == r.value.now
  {
    hide Good, Step, Callbacks;
    var u := s;
    steps := [];
    while exists t :: t in tiles && u.gates[t].state == Busy
      invariant Draining(s, u) && Callbacks(u.queue) + |steps| <= Callbacks(s.queue)
      invariant if steps == [] then u == s else steps[|steps| - 1] == u.now >= s.queue[0].deadline
      invariant steps != [] ==> s.queue != [] && s.queue[0].deadline <= steps[0]
      invariant steps != [] && u.queue != [] ==> u.now < u.queue[0].deadline
      invariant Rising(steps)
      decreases Callbacks(u.queue)
    {
      NoneBusy(u);
      NowGrows(u);
      var v := ClockStep(u);
      StepsRise(steps, u.now, v.now);
      u, steps := v, steps + [v.now];
      if |steps| > MOST_STEPS {
        return None, steps;
      }
    }
    NoneBusy(u);
    NoneBusy(s);
    r := Some(u);
  }

  lemma StepsRise(steps: seq<nat>, last: nat, next: nat)
    requires Rising(steps) && (steps != [] ==> steps[|steps| - 1] == last < next)
    ensures Rising(steps + [next])
  {
    var more := steps + [next];
    forall i, j | 0 <= i < j < |more|
      ensures more[i] < more[j]
    {
      if j == |steps| && i < |steps| - 1 {
        assert steps[i] < steps[|steps| - 1];
      }
    }
  }

  lemma {:induction false} DrainKeepsJobs(s: System)
    requires Good(s)
    ensures Drained(s).jobs == s.jobs
    decreases Callbacks(s.queue)
  {
    hide Good, Complete;
    if s.queue != [] {
      StepGood(s, Tick);
      TickLess(s);
      DrainKeepsJobs(Step(s, Tick));
    }
  }
}
