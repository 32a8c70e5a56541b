// One round of the host's experiment: every endpoint prepared, one job submitted to each in some order, serially or
// all at once, and the clock stepped until all have settled.
module EndpointRound {
  import opened Bytes
  import opened Wrappers
  import opened LinkSchedule
  import opened EndpointGate
  import opened EndpointSystem
  import opened EndpointOutcome
  import opened EndpointDrain
  import opened EndpointJob

  datatype Schedule = Serial | Concurrent

  // One round: every endpoint gets the same number of words.
  datatype Round = Round(epoch: u64, scalar: u64, words: nat, data: seq<seq<u8>>, schedule: Schedule)

  datatype RoundError = DidNotComplete | AssertionFailed

  // One job's time with the link to itself.
  function Span(words: nat, c: Config): nat {
    2 * RecordCost(c) + words * c.computeNs + Occupancy(words, c) + c.linkNs
  }

  // When the k-th job of a round is released.
  function ReleaseAt(schedule: Schedule, start: nat, span: nat, k: nat): nat {
    if schedule.Serial? then start + k * span else start
  }

  predicate Shaped(rd: Round) {
    0 < rd.words <= MAX_WORDS && forall t :: 0 <= t < |rd.data| ==> |rd.data[t]| == 8 * rd.words
  }

  function ShareOf(rd: Round, t: nat): (k: Share)
    requires Shaped(rd) && t < |rd.data|
    ensures Sized(k) && Words(k) == rd.words && |k.input| == 8 * rd.words
  {
    Share(rd.epoch, rd.scalar, rd.data[t])
  }

  // A permutation of the endpoints.
  ghost predicate Shuffled(order: seq<nat>, n: nat) {
    && |order| == n && (forall k :: 0 <= k < n ==> order[k] < n)
    && (forall j, k :: 0 <= j < k < n ==> order[j] != order[k])
    && forall t :: 0 <= t < n ==> t in order
  }

  // Endpoints ready for their next epoch.
  ghost predicate Usable(g: Gate, t: nat, epoch: nat, words: nat) {
    g.state in {Idle, Done} && g.epoch < epoch && g.serial == 201 + t && g.capacity >= 2 && DST + 8 * words <= |g.ram|
  }

  ghost predicate Fits(s: System, rd: Round) {
    && Shaped(rd) && |rd.data| == |s.gates| > 0
    && forall t :: 0 <= t < |s.gates| ==> Usable(s.gates[t], t, rd.epoch, rd.words)
  }

  // ---------------------------------------------------------------- the declared jobs

  function JobsTo(order: seq<nat>, schedule: Schedule, start: nat, words: nat, c: Config, i: nat): (js: seq<Job>)
    requires i <= |order|
    ensures |js| == i
    ensures forall k :: 0 <= k < i ==> js[k] == Job(order[k], ReleaseAt(schedule, start, Span(words, c), k), words)
  {
    seq(i, k requires 0 <= k < i => Job(order[k], ReleaseAt(schedule, start, Span(words, c), k), words))
  }

  lemma NextRelease(start: nat, span: nat, k: nat)
    ensures ReleaseAt(Serial, start, span, k + 1) == ReleaseAt(Serial, start, span, k) + span
  {
    assert (k + 1) * span == k * span + span;
  }

  lemma LastRelease(schedule: Schedule, start: nat, span: nat, k: nat, n: nat)
    requires k <= n
    ensures start <= ReleaseAt(schedule, start, span, k) <= start + n * span
  {
    assert n * span == k * span + (n - k) * span;
    assert k * span >= 0 && (n - k) * span >= 0;
  }

  lemma SpanOfJob(j: Job, c: Config)
    ensures j.release + Span(j.words, c)
         == EndOf(j, c) + Occupancy(j.words, c) + c.linkNs + RecordCost(c)
  {
  }

  lemma SerialJobs(order: seq<nat>, start: nat, words: nat, c: Config, i: nat)
    requires i <= |order|
    ensures SerialReleases(JobsTo(order, Serial, start, words, c, i), c)
  {
    hide Span, Occupancy, EndOf;
    var js := JobsTo(order, Serial, start, words, c, i);
    forall k | 0 < k < i
      ensures js[k].release >= EndOf(js[k - 1], c) + Occupancy(js[k - 1].words, c) + c.linkNs + RecordCost(c)
    {
      NextRelease(start, Span(words, c), k - 1);
      SpanOfJob(js[k - 1], c);
    }
  }

  // ---------------------------------------------------------------- submitting a round

  // Releases fit the 64-bit register.
  ghost predicate InTime(s0: System, rd: Round) {
    s0.now + |s0.gates| * Span(rd.words, s0.cfg) < WORD64
  }

  lemma ReleaseFits(s0: System, rd: Round, k: nat)
    requires InTime(s0, rd) && k <= |s0.gates|
    ensures s0.now <= ReleaseAt(rd.schedule, s0.now, Span(rd.words, s0.cfg), k) < WORD64
  {
    LastRelease(rd.schedule, s0.now, Span(rd.words, s0.cfg), k, |s0.gates|);
  }

  ghost predicate Setting(s0: System, rd: Round, order: seq<nat>) {
    Fits(s0, rd) && Shuffled(order, |s0.gates|) && InTime(s0, rd)
  }

  // The gate of the k-th submitted endpoint right after its doorbell.
  ghost function StartedAt(s0: System, rd: Round, order: seq<nat>, k: nat): Gate
    requires Setting(s0, rd, order) && k < |order|
  {
    ReleaseFits(s0, rd, k);
    var t := order[k];
    Started(s0.gates[t], ShareOf(rd, t), s0.cfg, ReleaseAt(rd.schedule, s0.now, Span(rd.words, s0.cfg), k))
  }

  // One endpoint's gate has settled from its admission.
  ghost predicate SettledAt(s0: System, rd: Round, order: seq<nat>, s: System, k: nat)
    requires Setting(s0, rd, order) && k < |order| && |s.gates| == |s0.gates|
  {
    var a, h := StartedAt(s0, rd, order, k), s.gates[order[k]];
    Runnable(a) && Settled(a, h, s0.cfg) && h.times.finished <= s.now
  }

  // The first i endpoints of the order have been submitted: all still running, or in a serial round all settled.
  ghost predicate Submitted(s0: System, rd: Round, order: seq<nat>, s: System, i: nat)
    requires Setting(s0, rd, order) && i <= |order|
  {
    && Good(s) && s.cfg == s0.cfg && |s.gates| == |s0.gates|
    && s.now == ReleaseAt(rd.schedule, s0.now, Span(rd.words, s0.cfg), i)
    && s.jobs == JobsTo(order, rd.schedule, s0.now, rd.words, s0.cfg, i)
    && (forall k :: i <= k < |order| ==> s.gates[order[k]] == Prepared(s0.gates[order[k]], ShareOf(rd, order[k])))
    && (forall k :: 0 <= k < i ==>
          if rd.schedule.Serial? then SettledAt(s0, rd, order, s, k)
          else s.gates[order[k]] == StartedAt(s0, rd, order, k))
    && (rd.schedule.Serial? && i > 0 ==> s.gates[order[i - 1]].times.finished == s.now)
  }

  // Right after the i-th doorbell.
  ghost predicate Ringing(s0: System, rd: Round, order: seq<nat>, s: System, r: System, i: nat)
    requires Setting(s0, rd, order) && i < |order|
  {
    && Submitted(s0, rd, order, s, i) && Good(r)
    && s.now < WORD64
    && r == Admitted(s.(gates := s.gates[order[i] := Rung(s0.gates[order[i]], ShareOf(rd, order[i]), s.now)]), order[i])
  }

  lemma RingFacts(s0: System, rd: Round, order: seq<nat>, s: System, r: System, i: nat)
    requires Setting(s0, rd, order) && i < |order| && Ringing(s0, rd, order, s, r, i)
    ensures r.cfg == s0.cfg && r.now == s.now && |r.gates| == |s0.gates| == |s.gates|
    ensures Good(r) && r.gates == s.gates[order[i] := StartedAt(s0, rd, order, i)]
    ensures r.gates[order[i]].state == Busy
    ensures r.jobs == JobsTo(order, rd.schedule, s0.now, rd.words, s0.cfg, i + 1)
  {
    hide Good, Rung, EndpointGate.Submit, Insert, EndOf, SettledAt, Prepared;
    var t, k := order[i], ShareOf(rd, order[i]);
    StartedLooks(s0.gates[t], k, s0.cfg, s.now);
    RungFields(s0.gates[t], k, s.now);
    assert r.jobs == s.jobs + [Job(t, s.now, rd.words)];
  }

  lemma RungFields(g: Gate, k: Share, release: u64)
    requires Roomy(g, k)
    ensures JobOf(Rung(g, k, release), 0) == Job(0, release, Words(k))
    ensures forall t :: JobOf(Rung(g, k, release), t) == Job(t, release, Words(k))
  {
    hide Splice;
  }

  lemma ConcurrentStep(s0: System, rd: Round, order: seq<nat>, s: System, r: System, i: nat)
    requires Setting(s0, rd, order) && i < |order| && Ringing(s0, rd, order, s, r, i) && rd.schedule.Concurrent?
    ensures Submitted(s0, rd, order, r, i + 1)
  {
    hide Good, Rung, StartedAt, Admitted, Prepared, SettledAt;
    RingFacts(s0, rd, order, s, r, i);
  }

  // In a serial round nothing else runs.
  lemma AloneRunning(s0: System, rd: Round, order: seq<nat>, s: System, r: System, i: nat)
    requires Setting(s0, rd, order) && i < |order| && Ringing(s0, rd, order, s, r, i) && rd.schedule.Serial?
    ensures s.queue == [] && r.queue != [] && r.now < r.queue[0].deadline
    ensures forall t :: 0 <= t < |r.gates| ==> (r.gates[t].state == Busy <==> t == order[i])
  {
    hide Good, Rung, StartedAt, Scrub, Fate, FinalRam, Extends, Insert, EndpointGate.Submit;
    RingFacts(s0, rd, order, s, r, i);
    NoneRunning(s0, rd, order, s, i);
    NoneBusy(s);
    NoneBusy(r);
    RungFields(s0.gates[order[i]], ShareOf(rd, order[i]), s.now);
    LaterEnd(Job(order[i], s.now, rd.words), s.cfg);
    OneTimer(Entry(EndOf(Job(order[i], s.now, rd.words), s.cfg), order[i], |s.jobs|, rd.words, ComputeEnd));
  }

  lemma OneTimer(e: Entry)
    ensures Insert([], e) == [e]
  {
  }

  lemma LaterEnd(j: Job, c: Config)
    requires j.words > 0
    ensures j.release < EndOf(j, c)
  {
    assert j.words * c.computeNs > 0;
  }

  lemma NoneRunning(s0: System, rd: Round, order: seq<nat>, s: System, i: nat)
    requires Setting(s0, rd, order) && i <= |order| && Submitted(s0, rd, order, s, i) && rd.schedule.Serial?
    ensures forall t :: 0 <= t < |s.gates| ==> s.gates[t].state != Busy
  {
    hide Good, StartedAt, Scrub, Fate, FinalRam, Extends, Splice;
    forall t | 0 <= t < |s.gates|
      ensures s.gates[t].state != Busy
    {
      assert t in order;
      var k :| 0 <= k < |order| && order[k] == t;
      if k < i {
        assert SettledAt(s0, rd, order, s, k);
      }
    }
  }

  // ---------------------------------------------------------------- settling

  lemma Settles(s0: System, rd: Round, order: seq<nat>, r: System, k: nat)
    requires Setting(s0, rd, order) && k < |order| && Good(r) && r.cfg == s0.cfg && |r.gates| == |s0.gates|
    requires r.gates[order[k]] == StartedAt(s0, rd, order, k)
    ensures |Drained(r).gates| == |s0.gates| && SettledAt(s0, rd, order, Drained(r), k)
  {
    hide Good, Rung, EndpointGate.Submit, Settled;
    ReleaseFits(s0, rd, k);
    var t := order[k];
    StartedLooks(s0.gates[t], ShareOf(rd, t), s0.cfg, ReleaseAt(rd.schedule, s0.now, Span(rd.words, s0.cfg), k));
    DrainFate(r, t);
  }

  lemma SettledFinishes(s0: System, rd: Round, order: seq<nat>, s: System, k: nat)
    requires Setting(s0, rd, order) && k < |order| && |s.gates| == |s0.gates| && SettledAt(s0, rd, order, s, k)
    ensures var t, release := order[k], ReleaseAt(rd.schedule, s0.now, Span(rd.words, s0.cfg), k);
            && Finished(s.gates[t], s0.cfg, t, ShareOf(rd, t), release) && SameHardware(s0.gates[t], s.gates[t])
            && s.gates[t].times.finished <= s.now
  {
    hide Good, Started, Runnable, Settled, Finished, SameHardware;
    ReleaseFits(s0, rd, k);
    var t := order[k];
    JobFinishes(s0.gates[t], s.gates[t], s0.cfg, t, ShareOf(rd, t),
                ReleaseAt(rd.schedule, s0.now, Span(rd.words, s0.cfg), k));
  }

  // Its six timing registers are the schedule oracle's.
  lemma FinishedTimes(s0: System, rd: Round, order: seq<nat>, s: System, k: nat, i: nat)
    requires Setting(s0, rd, order) && k < i <= |order| && |s.gates| == |s0.gates| && SettledAt(s0, rd, order, s, k)
    requires Good(s) && s.cfg == s0.cfg && s.jobs == JobsTo(order, rd.schedule, s0.now, rd.words, s0.cfg, i)
    ensures order[k] in Oracle(s.jobs, s.cfg) && Oracle(s.jobs, s.cfg)[order[k]] == s.gates[order[k]].times
  {
    hide Good, SettledAt, Oracle, ValidateRecords;
    SettledFinishes(s0, rd, order, s, k);
    assert s.jobs[k] in s.jobs && s.jobs[k].tile == order[k];
    SettledTiming(s, order[k]);
  }

  lemma OthersStay(r: System, t: nat)
    requires Good(r) && t < |r.gates| && r.gates[t].state != Busy
    ensures Drained(r).gates[t] == r.gates[t] && r.now <= Drained(r).now
  {
    hide Good, Settled;
    DrainFate(r, t);
  }

  // A serial job finishes its own span after its release: the next one's release.
  lemma SerialFinish(s0: System, rd: Round, order: seq<nat>, s: System, r: System, i: nat)
    requires Setting(s0, rd, order) && i < |order| && Ringing(s0, rd, order, s, r, i) && rd.schedule.Serial?
    ensures |Drained(r).gates| == |s0.gates| && SettledAt(s0, rd, order, Drained(r), i)
    ensures Drained(r).jobs == JobsTo(order, rd.schedule, s0.now, rd.words, s0.cfg, i + 1)
    ensures Drained(r).now == ReleaseAt(rd.schedule, s0.now, Span(rd.words, s0.cfg), i + 1)
         == Drained(r).gates[order[i]].times.finished
  {
    hide Good, SettledAt, Submitted, Admitted, StartedAt, Oracle, EndOf, Occupancy, SerialReleases, Prepared;
    RingFacts(s0, rd, order, s, r, i);
    AloneRunning(s0, rd, order, s, r, i);
    Settles(s0, rd, order, r, i);
    DrainKeepsJobs(r);
    var d := Drained(r);
    FinishedTimes(s0, rd, order, d, i, i + 1);
    SerialJobs(order, s0.now, rd.words, s0.cfg, i + 1);
    SerialNeverQueues(d.jobs, d.cfg, i);
    NextRelease(s0.now, Span(rd.words, s0.cfg), i);
    var t := DrainEndsAtFinish(r);
  }

  lemma SerialStep(s0: System, rd: Round, order: seq<nat>, s: System, r: System, i: nat)
    requires Setting(s0, rd, order) && i < |order| && Ringing(s0, rd, order, s, r, i) && rd.schedule.Serial?
    ensures Submitted(s0, rd, order, Drained(r), i + 1)
  {
    hide Good, Admitted, StartedAt, Prepared, Settled, Runnable;
    RingFacts(s0, rd, order, s, r, i);
    AloneRunning(s0, rd, order, s, r, i);
    SerialFinish(s0, rd, order, s, r, i);
    forall t | 0 <= t < |r.gates| && t != order[i]
      ensures Drained(r).gates[t] == s.gates[t] && r.now <= Drained(r).now
    {
      OthersStay(r, t);
    }
    forall k | 0 <= k < i
      ensures SettledAt(s0, rd, order, Drained(r), k)
    {
      assert SettledAt(s0, rd, order, s, k);
    }
  }

  // ---------------------------------------------------------------- a whole round's submissions

  // Every endpoint of the order has settled, the last of them just now.
  ghost predicate AllSettled(s0: System, rd: Round, order: seq<nat>, s: System)
    requires Setting(s0, rd, order)
  {
    && Good(s) && s.queue == [] && s.cfg == s0.cfg && |s.gates| == |s0.gates|
    && s.jobs == JobsTo(order, rd.schedule, s0.now, rd.words, s0.cfg, |order|)
    && (forall k :: 0 <= k < |order| ==> SettledAt(s0, rd, order, s, k))
    && (exists t :: 0 <= t < |s.gates| && s.gates[t].times.finished == s.now)
    && s.now <= s0.now + |s0.gates| * Span(rd.words, s0.cfg)
  }

  lemma SerialDone(s0: System, rd: Round, order: seq<nat>, s: System)
    requires Setting(s0, rd, order) && rd.schedule.Serial? && Submitted(s0, rd, order, s, |order|)
    ensures AllSettled(s0, rd, order, s)
  {
    hide Good, SettledAt;
    NoneRunning(s0, rd, order, s, |order|);
    NoneBusy(s);
  }

  lemma Multiples(k: nat, n: nat, x: nat)
    requires k <= n
    ensures k * x <= n * x
  {
    assert n * x == k * x + (n - k) * x;
  }

  lemma MakespanFits(base: nat, x: nat, k: nat, n: nat)
    requires k < n
    ensures base + (k + 1) * x <= n * (base + x)
  {
    Multiples(1, n, base);
    Multiples(k + 1, n, x);
    assert n * (base + x) == n * base + n * x;
  }

  // The k-th of the concurrent jobs finishes within the round's bound.
  lemma BatchFinish(s0: System, rd: Round, order: seq<nat>, s: System, k: nat)
    requires Setting(s0, rd, order) && rd.schedule.Concurrent? && k < |order|
    requires Good(s) && s.cfg == s0.cfg && |s.gates| == |s0.gates| && SettledAt(s0, rd, order, s, k)
    requires s.jobs == JobsTo(order, rd.schedule, s0.now, rd.words, s0.cfg, |order|)
    ensures s.gates[order[k]].times.finished <= s0.now + |order| * Span(rd.words, s0.cfg)
  {
    hide Good, SettledAt, Oracle, Occupancy;
    FinishedTimes(s0, rd, order, s, k, |order|);
    EqualBatchTiming(s.jobs, s.cfg, rd.words, s0.now, k);
    MakespanFits(2 * RecordCost(s0.cfg) + rd.words * s0.cfg.computeNs + s0.cfg.linkNs, Occupancy(rd.words, s0.cfg), k,
                 |order|);
  }

  lemma ConcurrentDone(s0: System, rd: Round, order: seq<nat>, s: System)
    requires Setting(s0, rd, order) && rd.schedule.Concurrent? && Submitted(s0, rd, order, s, |order|)
    ensures AllSettled(s0, rd, order, Drained(s))
  {
    hide Good, SettledAt, StartedAt;
    var d := Drained(s);
    DrainKeepsJobs(s);
    forall k | 0 <= k < |order|
      ensures SettledAt(s0, rd, order, d, k)
    {
      Settles(s0, rd, order, s, k);
    }
    AllStarted(s0, rd, order, s);
    NoneBusy(s);
    var t := DrainEndsAtFinish(s);
    assert t in order;
    var k :| 0 <= k < |order| && order[k] == t;
    BatchFinish(s0, rd, order, d, k);
  }

  lemma AllStarted(s0: System, rd: Round, order: seq<nat>, s: System)
    requires Setting(s0, rd, order) && rd.schedule.Concurrent? && Submitted(s0, rd, order, s, |order|)
    ensures s.gates[order[0]].state == Busy
  {
    hide Good, Rung, EndpointGate.Submit, SettledAt;
    assert s.gates[order[0]] == StartedAt(s0, rd, order, 0);
    ReleaseFits(s0, rd, 0);
    StartedLooks(s0.gates[order[0]], ShareOf(rd, order[0]), s0.cfg,
                 ReleaseAt(rd.schedule, s0.now, Span(rd.words, s0.cfg), 0));
  }

  // Every endpoint's epoch, input and filler.
  method PrepareAll(s0: System, rd: Round, ghost order: seq<nat>) returns (s: System)
    requires Start(s0) && Setting(s0, rd, order)
    ensures Submitted(s0, rd, order, s, 0)
  {
    hide Good, Prepared;
    StartGood(s0);
    s := s0;
    for t := 0 to |s0.gates|
      invariant Good(s) && |s.gates| == |s0.gates| && s == s0.(gates := s.gates)
      invariant forall k :: t <= k < |s.gates| ==> s.gates[k] == s0.gates[k]
      invariant forall k :: 0 <= k < t ==> s.gates[k] == Prepared(s0.gates[k], ShareOf(rd, k))
    {
      s := Prepare(s, t, ShareOf(rd, t));
    }
    assert 0 * Span(rd.words, s0.cfg) == 0;
  }

  // One endpoint's descriptor and doorbell, and the host's look at it.
  method SubmitOne(ghost s0: System, rd: Round, order: seq<nat>, s: System, i: nat) returns (r: Result<System, RoundError>)
    requires Setting(s0, rd, order) && i < |order| && Submitted(s0, rd, order, s, i)
    ensures r.Ok? && Ringing(s0, rd, order, s, r.value, i)
  {
    hide Good, Admitted, SettledAt, StartedAt, Prepared, Rung;
    ReleaseFits(s0, rd, i);
    var t := order[i];
    var u := SubmitJob(s, t, s0.gates[t], ShareOf(rd, t));
    RingFacts(s0, rd, order, s, u, i);
    LooksStarted(s0, rd, order, u, i);
    var g := u.gates[t];
    if g.state != Busy || |g.log| != (if s.cfg.enforce then 1 else 0) || DST + 8 > |g.ram|
       || g.ram[DST..DST + 8] != Filler(8) {
      return Err(AssertionFailed);
    }
    r := Ok(u);
  }

  lemma LooksStarted(s0: System, rd: Round, order: seq<nat>, u: System, i: nat)
    requires Setting(s0, rd, order) && i < |order| && |u.gates| == |s0.gates|
    requires u.gates[order[i]] == StartedAt(s0, rd, order, i)
    ensures var g := u.gates[order[i]];
            && g.state == Busy && |g.log| == (if s0.cfg.enforce then 1 else 0)
            && DST + 8 <= |g.ram| && g.ram[DST..DST + 8] == Filler(8)
  {
    hide Rung, EndpointGate.Submit;
    ReleaseFits(s0, rd, i);
    var g := u.gates[order[i]];
    StartedLooks(s0.gates[order[i]], ShareOf(rd, order[i]), s0.cfg,
                 ReleaseAt(rd.schedule, s0.now, Span(rd.words, s0.cfg), i));
    assert g.ram[DST..DST + 8] == g.ram[DST..DST + 8 * rd.words][..8];
  }

  function Endpoints(n: nat): (ts: seq<nat>)
    ensures |ts| == n && forall t :: 0 <= t < n ==> ts[t] == t
  {
    seq(n, t requires 0 <= t < n => t)
  }

  lemma StepsJoin(a: seq<nat>, b: seq<nat>, last: nat)
    requires Rising(a) && Rising(b) && (a != [] ==> a[|a| - 1] == last) && forall x :: x in b ==> last < x
    ensures Rising(a + b)
  {
    var c := a + b;
    forall i, j | 0 <= i < j < |c|
      ensures c[i] < c[j]
    {
      if i < |a| <= j {
        assert a[i] <= a[|a| - 1];
        assert c[j] in b;
      }
    }
  }

  // The submissions in order, each drained before the next in a serial round, otherwise all drained together.
  method SubmitAll(ghost s0: System, rd: Round, order: seq<nat>, prepared: System)
    returns (r: Result<System, RoundError>, jobs: seq<Job>, steps: seq<nat>)
    requires Setting(s0, rd, order) && Submitted(s0, rd, order, prepared, 0)
    ensures r.Ok? ==> AllSettled(s0, rd, order, r.value) && jobs == r.value.jobs
    ensures r.Ok? ==> Rising(steps) && steps != [] && steps[|steps| - 1] == r.value.now
    ensures r.Err? ==> r.error == DidNotComplete && rd.schedule.Concurrent? && 3 * |order| > MOST_STEPS
  {
    hide Good, SettledAt, StartedAt, Prepared, AllSettled, Setting, Submitted, Ringing, Drained;
    var s := prepared;
    jobs, steps := [], [];
    SubmittedFacts(s0, rd, order, s, 0);
    for i := 0 to |order|
      invariant Submitted(s0, rd, order, s, i) && jobs == s.jobs
      invariant Rising(steps)
      invariant if rd.schedule.Serial? && i > 0 then steps != [] && steps[|steps| - 1] == s.now else steps == []
    {
      var rung := SubmitOne(s0, rd, order, s, i);
      jobs := jobs + [Job(order[i], s.now, rd.words)];
      RingJobs(s0, rd, order, s, rung.value, i);
      if rd.schedule.Serial? {
        AloneRunning(s0, rd, order, s, rung.value, i);
        SerialStep(s0, rd, order, s, rung.value, i);
        SubmittedFacts(s0, rd, order, Drained(rung.value), i + 1);
        FewCallbacks(rung.value);
        AloneCallbacks(rung.value, order[i]);
        var drained, more := Drain(rung.value, [order[i]]);
        StepsJoin(steps, more, s.now);
        s, steps := drained.value, steps + more;
      } else {
        ConcurrentStep(s0, rd, order, s, rung.value, i);
        s := rung.value;
      }
    }
    if rd.schedule.Concurrent? {
      ConcurrentDone(s0, rd, order, s);
      ConcurrentFacts(s0, rd, order, s);
      FewCallbacks(s);
      var drained;
      drained, steps := Drain(s, Endpoints(|order|));
      if drained.None? {
        return Err(DidNotComplete), jobs, steps;
      }
      s := drained.value;
    } else {
      SerialDone(s0, rd, order, s);
      OrderNotEmpty(s0, rd, order);
    }
    r := Ok(s);
  }

  lemma OrderNotEmpty(s0: System, rd: Round, order: seq<nat>)
    requires Setting(s0, rd, order)
    ensures |order| == |s0.gates| > 0
  {
  }

  lemma SubmittedFacts(s0: System, rd: Round, order: seq<nat>, s: System, i: nat)
    requires Setting(s0, rd, order) && i <= |order| && Submitted(s0, rd, order, s, i)
    ensures Good(s) && |s.gates| == |s0.gates| == |order| && s.cfg == s0.cfg
    ensures s.jobs == JobsTo(order, rd.schedule, s0.now, rd.words, s0.cfg, i)
    ensures i < |order| ==> order[i] < |s.gates|
  {
    hide Good, SettledAt, StartedAt;
  }

  lemma RingJobs(s0: System, rd: Round, order: seq<nat>, s: System, r: System, i: nat)
    requires Setting(s0, rd, order) && i < |order| && Ringing(s0, rd, order, s, r, i)
    ensures Good(r) && r.now == s.now && order[i] < |r.gates| && r.jobs == s.jobs + [Job(order[i], s.now, rd.words)]
  {
    hide Good, SettledAt, StartedAt, Prepared;
    RingFacts(s0, rd, order, s, r, i);
    RungFields(s0.gates[order[i]], ShareOf(rd, order[i]), s.now);
  }

  lemma FewCallbacks(s: System)
    requires Good(s)
    ensures Callbacks(s.queue) <= 3 * |s.gates|
  {
    DrainSettles(s);
  }

  lemma ConcurrentFacts(s0: System, rd: Round, order: seq<nat>, s: System)
    requires Setting(s0, rd, order) && rd.schedule.Concurrent? && Submitted(s0, rd, order, s, |order|)
    ensures Good(s) && |s.gates| == |order| && s.queue != [] && Drained(s).jobs == s.jobs
    ensures forall t :: 0 <= t < |s.gates| ==> t in Endpoints(|order|)
  {
    hide Good, SettledAt, StartedAt, Prepared, JobsTo, Drained;
    AllStarted(s0, rd, order, s);
    NoneBusy(s);
    DrainKeepsJobs(s);
    EndpointsAll(|order|);
  }

  lemma EndpointsAll(n: nat)
    ensures forall t :: 0 <= t < n ==> t in Endpoints(n)
  {
    forall t | 0 <= t < n
      ensures t in Endpoints(n)
    {
      assert Endpoints(n)[t] == t;
    }
  }

  lemma AtMostOne(r: System, t: nat)
    requires Good(r) && forall k :: 0 <= k < |r.gates| && r.gates[k].state == Busy ==> k == t
    ensures |r.queue| <= 1
  {
    hide GatesOk, LinkOk, TracksOk, Sorted;
    forall e | e in r.queue
      ensures e.tile == t < |r.gates|
    {
      assert Armed(r, e);
    }
    DistinctSize(r.queue, |r.gates|);
    if r.queue != [] {
      assert r.queue[0] in r.queue;
      assert TilesOf(r.queue) == {t};
    }
  }

  lemma AloneCallbacks(r: System, t: nat)
    requires Good(r) && forall k :: 0 <= k < |r.gates| && r.gates[k].state == Busy ==> k == t
    ensures Callbacks(r.queue) <= 3 && Drained(r).jobs == r.jobs
  {
    AtMostOne(r, t);
    DrainKeepsJobs(r);
  }
}
