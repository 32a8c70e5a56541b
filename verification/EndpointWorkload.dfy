// The host's experiment: three rounds, each scaled by the reduction of the one before, and the validation of what
// was recorded. On the modelled endpoints none of its assertions can fail.
module EndpointWorkload {
  import opened Bytes
  import opened Wrappers
  import opened LinkSchedule
  import opened EndpointGate
  import opened EndpointInvariant
  import opened EndpointSystem
  import opened EndpointOutcome
  import opened EndpointDrain
  import opened EndpointJob
  import opened EndpointRound

  // What is recorded of a round.
  datatype Row = Row(epoch: u64, scalar: u64, startNs: nat, endNs: nat, jobs: seq<Job>, steps: seq<nat>,
                     reduction: u64, devices: seq<Gate>)

  // ---------------------------------------------------------------- checking the devices

  predicate HasJob(jobs: seq<Job>, t: nat) {
    exists j :: j in jobs && j.tile == t
  }

  // The release declared first for a tile.
  function ReleaseOf(jobs: seq<Job>, t: nat): nat
    requires HasJob(jobs, t)
  {
    if jobs[0].tile == t then jobs[0].release else ReleaseOf(jobs[1..], t)
  }

  lemma {:induction false} ReleaseOfAt(jobs: seq<Job>, k: nat)
    requires k < |jobs| && forall i, j :: 0 <= i < j < |jobs| ==> jobs[i].tile != jobs[j].tile
    ensures jobs[k] in jobs && ReleaseOf(jobs, jobs[k].tile) == jobs[k].release
  {
    if k > 0 {
      ReleaseOfAt(jobs[1..], k - 1);
    }
  }

  // Outcome, output and log of the tile's share, and the timing the oracle declares for its job.
  predicate DeviceRight(h: Gate, c: Config, t: nat, k: Share, jobs: seq<Job>)
    requires Sized(k) && HasJob(jobs, t)
  {
    Finished(h, c, t, k, ReleaseOf(jobs, t)) && t in Oracle(jobs, c) && Oracle(jobs, c)[t] == h.times
  }

  // The sum of the first n tiles' output words, as the kernel defines them.
  function TotalTo(rd: Round, n: nat): nat
    requires Shaped(rd) && n <= |rd.data|
  {
    if n == 0 then 0 else TotalTo(rd, n - 1) + Sum(KernelWords(UnpackWords(rd.data[n - 1]), rd.scalar))
  }

  function Reduction(rd: Round): u64
    requires Shaped(rd)
  {
    TotalTo(rd, |rd.data|) % WORD64
  }

  lemma AnswerWords(k: Share)
    requires Sized(k)
    ensures UnpackWords(Answer(k)) == KernelWords(UnpackWords(k.input), k.scalar)
  {
    UnpackPack(KernelWords(UnpackWords(k.input), k.scalar));
  }

  lemma AddWrapped(a: nat, b: nat)
    ensures (a % WORD64 + b) % WORD64 == (a + b) % WORD64
  {
  }

  // The host's pass over every device: each must be right, and their outputs are summed modulo 2^64.
  method CheckDevices(devices: seq<Gate>, c: Config, jobs: seq<Job>, rd: Round) returns (r: Option<u64>)
    requires Shaped(rd) && |rd.data| == |devices| && forall t :: 0 <= t < |devices| ==> HasJob(jobs, t)
    ensures r.Some? <==> forall t :: 0 <= t < |devices| ==> DeviceRight(devices[t], c, t, ShareOf(rd, t), jobs)
    ensures r.Some? ==> r.value == Reduction(rd)
  {
    hide Oracle, ValidateRecords, KernelWords, UnpackWords, Kernel, Sum, ReleaseOf;
    var expected := ScheduleOracle(jobs, c);
    var total: u64 := 0;
    for t := 0 to |devices|
      invariant forall k :: 0 <= k < t ==> DeviceRight(devices[k], c, k, ShareOf(rd, k), jobs)
      invariant total == TotalTo(rd, t) % WORD64
    {
      var h, k := devices[t], ShareOf(rd, t);
      if !Finished(h, c, t, k, ReleaseOf(jobs, t)) || t !in expected || expected[t] != h.times {
        return None;
      }
      var output := h.ram[DST..DST + |k.input|];
      AnswerWords(k);
      AddWrapped(TotalTo(rd, t), Sum(UnpackWords(output)));
      total := (total + Sum(UnpackWords(output))) % WORD64;
    }
    r := Some(total);
  }

  // ---------------------------------------------------------------- validating a recorded round

  // Every tile once, of the declared size, released at the start or in a serial round one span after another.
  predicate JobsRight(jobs: seq<Job>, rd: Round, start: nat, c: Config) {
    && |jobs| == |rd.data| && (forall t :: 0 <= t < |rd.data| ==> HasJob(jobs, t))
    && forall k :: 0 <= k < |jobs| ==>
         jobs[k].words == rd.words && jobs[k].release == ReleaseAt(rd.schedule, start, Span(rd.words, c), k)
  }

  predicate LatestFinish(devices: seq<Gate>, at: nat) {
    && (forall t :: 0 <= t < |devices| ==> devices[t].times.finished <= at)
    && exists t :: 0 <= t < |devices| && devices[t].times.finished == at
  }

  // What is demanded of the record of a round that started at `start`.
  ghost predicate ValidRow(c: Config, rd: Round, start: nat, row: Row)
    requires Shaped(rd)
  {
    && row.epoch == rd.epoch && row.scalar == rd.scalar && row.startNs == start
    && JobsRight(row.jobs, rd, start, c) && |row.devices| == |rd.data|
    && (forall t :: 0 <= t < |rd.data| ==> DeviceRight(row.devices[t], c, t, ShareOf(rd, t), row.jobs))
    && row.reduction == Reduction(rd)
    && LatestFinish(row.devices, row.endNs)
    && Rising(row.steps) && row.steps != [] && row.steps[|row.steps| - 1] == row.endNs
  }

  // The walk along the declared jobs, each release against the one before.
  method CheckReleases(jobs: seq<Job>, rd: Round, start: nat, c: Config) returns (ok: bool)
    ensures ok <==> JobsRight(jobs, rd, start, c)
  {
    hide Span, HasJob;
    if |jobs| != |rd.data| || exists t :: 0 <= t < |rd.data| && !HasJob(jobs, t) {
      return false;
    }
    var previous := start;
    for k := 0 to |jobs|
      invariant forall i :: 0 <= i < k ==>
                  jobs[i].words == rd.words && jobs[i].release == ReleaseAt(rd.schedule, start, Span(rd.words, c), i)
      invariant rd.schedule.Serial? ==> previous == ReleaseAt(Serial, start, Span(rd.words, c), k)
    {
      var j := jobs[k];
      if j.words != rd.words || j.release != (if rd.schedule.Concurrent? then start else previous) {
        return false;
      }
      NextRelease(start, Span(rd.words, c), k);
      previous := j.release + Span(rd.words, c);
    }
    ok := true;
  }

  method ValidateRow(c: Config, rd: Round, start: nat, row: Row) returns (ok: bool)
    requires Shaped(rd)
    ensures ok <==> ValidRow(c, rd, start, row)
  {
    hide DeviceRight, Reduction, LatestFinish;
    if row.epoch != rd.epoch || row.scalar != rd.scalar || row.startNs != start || |row.devices| != |rd.data| {
      return false;
    }
    ok := CheckReleases(row.jobs, rd, start, c);
    if !ok {
      return;
    }
    var total := CheckDevices(row.devices, c, row.jobs, rd);
    ok := total.Some? && row.reduction == total.value && LatestFinish(row.devices, row.endNs)
      && (forall i, j :: 0 <= i < j < |row.steps| ==> row.steps[i] < row.steps[j])
      && row.steps != [] && row.steps[|row.steps| - 1] == row.endNs;
  }

  // ---------------------------------------------------------------- one round

  // The history of jobs starts over; no register changes.
  function Refreshed(s: System): System {
    s.(jobs := [], served := [], track := seq(|s.gates|, _ => NoJob))
  }

  lemma RefreshStarts(s: System)
    requires Good(s) && s.queue == []
    ensures Start(Refreshed(s))
  {
    hide Inv, LogOk;
    NoneBusy(s);
  }

  // Settled endpoints, ready for any later epoch.
  ghost predicate Reusable(s0: System, s: System, rd: Round, spent: nat) {
    && Start(s) && s.cfg == s0.cfg && |s.gates| == |s0.gates| && s.now <= s0.now + spent
    && forall t :: 0 <= t < |s.gates| ==>
         s.gates[t].state == Done && s.gates[t].epoch == rd.epoch && SameHardware(s0.gates[t], s.gates[t])
  }

  lemma SettledDevices(s0: System, rd: Round, order: seq<nat>, s: System)
    requires Setting(s0, rd, order) && AllSettled(s0, rd, order, s)
    ensures |s.gates| == |s0.gates| == |rd.data| && Good(s) && s.queue == [] && s.cfg == s0.cfg
    ensures forall t :: 0 <= t < |s.gates| ==>
      && HasJob(s.jobs, t) && DeviceRight(s.gates[t], s0.cfg, t, ShareOf(rd, t), s.jobs)
      && SameHardware(s0.gates[t], s.gates[t]) && s.gates[t].times.finished <= s.now
  {
    hide Good, SettledAt, Finished, SameHardware, Oracle, DeviceRight;
    forall t | 0 <= t < |s.gates|
      ensures HasJob(s.jobs, t) && DeviceRight(s.gates[t], s0.cfg, t, ShareOf(rd, t), s.jobs)
      ensures SameHardware(s0.gates[t], s.gates[t]) && s.gates[t].times.finished <= s.now
    {
      assert t in order;
      var k :| 0 <= k < |order| && order[k] == t;
      SettledDevice(s0, rd, order, s, k);
    }
  }

  lemma SettledDevice(s0: System, rd: Round, order: seq<nat>, s: System, k: nat)
    requires Setting(s0, rd, order) && AllSettled(s0, rd, order, s) && k < |order|
    ensures var t := order[k];
      && HasJob(s.jobs, t) && DeviceRight(s.gates[t], s0.cfg, t, ShareOf(rd, t), s.jobs)
      && SameHardware(s0.gates[t], s.gates[t]) && s.gates[t].times.finished <= s.now
  {
    hide Good, SettledAt, Finished, SameHardware, Oracle;
    ReleaseOfAt(s.jobs, k);
    SettledFinishes(s0, rd, order, s, k);
    FinishedTimes(s0, rd, order, s, k, |order|);
  }

  lemma SettledJobs(s0: System, rd: Round, order: seq<nat>, s: System)
    requires Setting(s0, rd, order) && AllSettled(s0, rd, order, s)
    ensures JobsRight(s.jobs, rd, s0.now, s0.cfg)
  {
    hide Good, SettledAt, Finished, SameHardware, Oracle, DeviceRight, Span;
    SettledDevices(s0, rd, order, s);
  }

  lemma SettledReusable(s0: System, rd: Round, order: seq<nat>, s: System)
    requires Setting(s0, rd, order) && AllSettled(s0, rd, order, s)
    ensures Reusable(s0, Refreshed(s), rd, |s0.gates| * Span(rd.words, s0.cfg))
    ensures Refreshed(s).now == s.now
  {
    hide Good, SettledAt, Oracle, Span, ValidateRecords, Answer, ReleaseOf, Start, SameHardware, HasJob;
    SettledDevices(s0, rd, order, s);
    RefreshStarts(s);
  }

  // Prepare, submit, drain, check, reduce.
  method RunRound(s0: System, rd: Round, order: seq<nat>) returns (r: Result<(System, Row), RoundError>)
    requires Start(s0) && Setting(s0, rd, order)
    ensures r.Ok? ==>
              && ValidRow(s0.cfg, rd, s0.now, r.value.1) && r.value.0.now == r.value.1.endNs
              && Reusable(s0, r.value.0, rd, |s0.gates| * Span(rd.words, s0.cfg))
    ensures r.Err? ==> r.error == DidNotComplete && rd.schedule.Concurrent? && 3 * |s0.gates| > MOST_STEPS
  {
    hide AllSettled, Submitted, Reusable, DeviceRight, Start, JobsRight, LatestFinish, Reduction, HasJob, Refreshed;
    OrderNotEmpty(s0, rd, order);
    var before := s0.now;
    var prepared := PrepareAll(s0, rd, order);
    var outcome, jobs, steps := SubmitAll(s0, rd, order, prepared);
    if outcome.Err? {
      return Err(outcome.error);
    }
    var s := outcome.value;
    SettledDevices(s0, rd, order, s);
    var total := CheckDevices(s.gates, s.cfg, jobs, rd);
    if total.None? {
      return Err(AssertionFailed);
    }
    var row := Row(rd.epoch, rd.scalar, before, s.now, jobs, steps, total.value, s.gates);
    RoundFinished(s0, rd, order, s);
    SettledJobs(s0, rd, order, s);
    SettledReusable(s0, rd, order, s);
    r := Ok((Refreshed(s), row));
  }

  lemma RoundFinished(s0: System, rd: Round, order: seq<nat>, s: System)
    requires Setting(s0, rd, order) && AllSettled(s0, rd, order, s)
    ensures LatestFinish(s.gates, s.now)
  {
    hide Good, SettledAt, DeviceRight;
    SettledDevices(s0, rd, order, s);
  }

  // ---------------------------------------------------------------- three dependent rounds

  const ROUNDS := 3

  function RoundAt(e: nat, scalar: u64, words: nat, data: seq<seq<u8>>, schedule: Schedule): Round
    requires e < ROUNDS
  {
    Round(e + 2, scalar, words, data, schedule)
  }

  // The first scalar is 1, each later one the reduction of the round before.
  function ScalarFor(rows: seq<Row>, e: nat): u64
    requires e <= |rows|
  {
    if e == 0 then 1 else rows[e - 1].reduction
  }

  function StartFor(rows: seq<Row>, e: nat, start: nat): nat
    requires e <= |rows|
  {
    if e == 0 then start else rows[e - 1].endNs
  }

  // What is demanded of a whole record: three rounds back to back, each seeded by the one before.
  ghost predicate ValidRun(c: Config, words: nat, data: seq<seq<u8>>, schedule: Schedule, start: nat, rows: seq<Row>) {
    && |rows| == ROUNDS
    && forall e :: 0 <= e < ROUNDS ==> RowFollows(c, words, data, schedule, start, rows, e)
  }

  ghost predicate RowFollows(c: Config, words: nat, data: seq<seq<u8>>, schedule: Schedule, start: nat,
                             rows: seq<Row>, e: nat)
    requires e < |rows| && e < ROUNDS
  {
    var rd := RoundAt(e, ScalarFor(rows, e), words, data, schedule);
    Shaped(rd) && ValidRow(c, rd, StartFor(rows, e, start), rows[e])
  }

  method ValidateRun(c: Config, words: nat, data: seq<seq<u8>>, schedule: Schedule, rows: seq<Row>) returns (ok: bool)
    requires Shaped(RoundAt(0, 1, words, data, schedule))
    ensures ok <==> ValidRun(c, words, data, schedule, 0, rows)
  {
    hide ValidRow;
    if |rows| != ROUNDS {
      return false;
    }
    var scalar: u64, lastEnd := 1, 0;
    for e := 0 to ROUNDS
      invariant scalar == ScalarFor(rows, e) && lastEnd == StartFor(rows, e, 0)
      invariant forall k :: 0 <= k < e ==> RowFollows(c, words, data, schedule, 0, rows, k)
    {
      ok := ValidateRow(c, RoundAt(e, scalar, words, data, schedule), lastEnd, rows[e]);
      if !ok {
        assert !RowFollows(c, words, data, schedule, 0, rows, e);
        return;
      }
      scalar, lastEnd := rows[e].reduction, rows[e].endNs;
    }
    ok := true;
  }

  ghost predicate Shuffles(orders: seq<seq<nat>>, n: nat) {
    |orders| == ROUNDS && forall e :: 0 <= e < ROUNDS ==> Shuffled(orders[e], n)
  }

  // Ready for round e after e rounds of at most `span` each.
  ghost predicate RoundReady(s0: System, u: System, e: nat, words: nat, spent: nat) {
    && Start(u) && u.cfg == s0.cfg && |u.gates| == |s0.gates| && u.now <= s0.now + spent
    && forall t :: 0 <= t < |u.gates| ==> Usable(u.gates[t], t, e + 2, words)
  }

  lemma NextReady(s0: System, u: System, v: System, e: nat, rd: Round, span: nat)
    requires RoundReady(s0, u, e, rd.words, e * span) && Reusable(u, v, rd, span) && rd.epoch == e + 2
    ensures RoundReady(s0, v, e + 1, rd.words, (e + 1) * span)
  {
    assert (e + 1) * span == e * span + span;
  }

  lemma TimeLeft(now: nat, start: nat, e: nat, span: nat)
    requires now <= start + e * span && e < ROUNDS && start + ROUNDS * span < WORD64
    ensures now + span < WORD64
  {
  }

  method Workload(s0: System, words: nat, data: seq<seq<u8>>, schedule: Schedule, orders: seq<seq<nat>>)
    returns (r: Result<seq<Row>, RoundError>)
    requires Start(s0) && Fits(s0, RoundAt(0, 1, words, data, schedule)) && Shuffles(orders, |s0.gates|)
    requires s0.now + ROUNDS * (|s0.gates| * Span(words, s0.cfg)) < WORD64
    ensures r.Ok? ==> ValidRun(s0.cfg, words, data, schedule, s0.now, r.value)
    ensures r.Err? ==> r.error == DidNotComplete && schedule.Concurrent? && 3 * |s0.gates| > MOST_STEPS
  {
    hide ValidRow, Reusable, Start, Span, Usable;
    var u := s0;
    var rows: seq<Row> := [];
    var scalar: u64 := 1;
    ghost var span := |s0.gates| * Span(words, s0.cfg);
    FirstReady(s0, RoundAt(0, 1, words, data, schedule));
    for e := 0 to ROUNDS
      invariant |rows| == e && scalar == ScalarFor(rows, e) && u.now == StartFor(rows, e, s0.now)
      invariant RoundReady(s0, u, e, words, e * span)
      invariant forall k :: 0 <= k < e ==> RowFollows(s0.cfg, words, data, schedule, s0.now, rows, k)
    {
      var rd := RoundAt(e, scalar, words, data, schedule);
      TimeLeft(u.now, s0.now, e, span);
      var round := RunRound(u, rd, orders[e]);
      if round.Err? {
        return Err(round.error);
      }
      NextReady(s0, u, round.value.0, e, rd, span);
      ghost var was := rows;
      rows := rows + [round.value.1];
      EarlierRows(s0.cfg, words, data, schedule, s0.now, was, round.value.1);
      u, scalar := round.value.0, round.value.1.reduction;
    }
    r := Ok(rows);
  }

  lemma FirstReady(s0: System, rd: Round)
    requires Start(s0) && Fits(s0, rd) && rd.epoch == 2
    ensures RoundReady(s0, s0, 0, rd.words, 0)
  {
  }

  lemma EarlierRows(c: Config, words: nat, data: seq<seq<u8>>, schedule: Schedule, start: nat, rows: seq<Row>, row: Row)
    requires |rows| < ROUNDS
    requires forall k :: 0 <= k < |rows| ==> RowFollows(c, words, data, schedule, start, rows, k)
    ensures forall k :: 0 <= k < |rows| ==> RowFollows(c, words, data, schedule, start, rows + [row], k)
  {
    hide ValidRow;
    forall k | 0 <= k < |rows|
      ensures RowFollows(c, words, data, schedule, start, rows + [row], k)
    {
      assert RowFollows(c, words, data, schedule, start, rows, k);
    }
  }

  // ---------------------------------------------------------------- from power-on

  function PowerOn(c: Config, rams: seq<seq<u8>>): System {
    System(c, 0, 0, seq(|rams|, t requires 0 <= t < |rams| => Initial(201 + t, rams[t])), [], [], [],
           seq(|rams|, _ => NoJob))
  }

  lemma PowerOnStarts(c: Config, rams: seq<seq<u8>>)
    ensures Start(PowerOn(c, rams))
  {
    hide Inv;
    forall t | 0 <= t < |rams|
      ensures Inv(Initial(201 + t, rams[t]), c, 0)
    {
      InvInitial(201 + t, rams[t], c, 0);
    }
  }

  // Fresh endpoints, three rounds, validation. For any number of endpoints, words, inputs, configuration, schedule
  // and submission orders, the run ends with every assertion met and its record validates; only a concurrent drain
  // of more than 333 endpoints may be given up.
  method Experiment(c: Config, rams: seq<seq<u8>>, words: nat, data: seq<seq<u8>>, schedule: Schedule, orders: seq<seq<nat>>)
    returns (r: Result<seq<Row>, RoundError>, valid: bool)
    requires 0 < |rams| == |data| && Shaped(RoundAt(0, 1, words, data, schedule)) && Shuffles(orders, |rams|)
    requires forall t :: 0 <= t < |rams| ==> DST + 8 * words <= |rams[t]|
    requires ROUNDS * (|rams| * Span(words, c)) < WORD64
    ensures r.Ok? ==> valid && ValidRun(c, words, data, schedule, 0, r.value)
    ensures r.Err? ==> r.error == DidNotComplete && schedule.Concurrent? && 3 * |rams| > MOST_STEPS
  {
    hide ValidRun, Start, Span, Shuffled;
    PowerOnStarts(c, rams);
    r := Workload(PowerOn(c, rams), words, data, schedule, orders);
    valid := false;
    if r.Ok? {
      valid := ValidateRun(c, words, data, schedule, r.value);
    }
  }
}
