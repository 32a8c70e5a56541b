// The fabric's event loop: CPU-backed commands retire when dispatched, the others wait for their IP's done line,
// which is left entirely open.
module Fabric {
  import opened Wrappers
  import opened CpuSchedule

  const IP_CYCLE_BUDGET := 4096

  datatype RunReport = RunReport(totalCycles: nat, perIpCycles: map<IpId, nat>, completions: nat)

  datatype FabricError = TokenResolutionStuck(pending: nat) | DispatchTimeout(ip: IpId, cycles: nat)

  datatype InFlight = InFlight(ip: IpId, cmd: Cmd, cyclesElapsed: nat)

  function Bump(per: map<IpId, nat>, ip: IpId, n: nat): map<IpId, nat> {
    per[ip := (if ip in per then per[ip] else 0) + n]
  }

  function Cmds(flights: seq<InFlight>): seq<Cmd> {
    if flights == [] then [] else Cmds(flights[..|flights| - 1]) + [flights[|flights| - 1].cmd]
  }

  // Ticks left before every command in flight would have timed out.
  function Credit(flights: seq<InFlight>): nat {
    if flights == [] then 0
    else
      var fl := flights[|flights| - 1];
      Credit(flights[..|flights| - 1]) + if fl.cyclesElapsed <= IP_CYCLE_BUDGET then 1 + IP_CYCLE_BUDGET - fl.cyclesElapsed else 0
  }

  function Oldest(flights: seq<InFlight>): nat {
    if flights == [] then 0 else flights[0].cyclesElapsed
  }

  // ---------------------------------------------------------------- what every step keeps

  ghost predicate AllCpu(stream: seq<Cmd>) {
    forall c :: c in stream ==> CpuBacked(c.ip)
  }

  ghost predicate Flying(fl: InFlight, retired: set<nat>, ips: set<IpId>) {
    fl.ip == fl.cmd.ip && !CpuBacked(fl.ip) && fl.ip in ips && fl.cmd.tokenIn in retired
      && fl.cyclesElapsed <= IP_CYCLE_BUDGET
  }

  ghost predicate AllFlying(flights: seq<InFlight>, retired: set<nat>, ips: set<IpId>) {
    forall k :: 0 <= k < |flights| ==> Flying(flights[k], retired, ips)
  }

  // Nothing is lost or retired unforced, and nothing is retired before the token it awaits.
  ghost predicate Accounted(stream: seq<Cmd>, waiting: seq<Cmd>, retired: set<nat>, log: seq<Cmd>) {
    Sound(stream, Scan(waiting, retired, log)) && Causal(log) && retired == Tokens(log)
  }

  // Every tick is charged to a completed command or to the one longest in flight.
  ghost predicate Charged(report: RunReport, flights: seq<InFlight>, log: seq<Cmd>) {
    report.completions == |log| && report.totalCycles <= (IP_CYCLE_BUDGET + 1) * |log| + Oldest(flights)
  }

  ghost predicate CpuReport(report: RunReport, log: seq<Cmd>) {
    && report.totalCycles == TotalCost(log)
    && report.perIpCycles == if log == [] then map[] else map[PtxEmulationCore := TotalCost(log)]
  }

  lemma RetireOne(stream: seq<Cmd>, waiting: seq<Cmd>, rest: seq<Cmd>, retired: set<nat>, log: seq<Cmd>, c: Cmd)
    requires Accounted(stream, waiting, retired, log) && c.tokenIn in retired
    requires multiset(rest) + multiset{c} == multiset(waiting)
    ensures Accounted(stream, rest, retired + {c.tokenOut}, log + [c])
  {
    RetireSound(stream, Scan(waiting, retired, log), Scan(rest, retired + {c.tokenOut}, log + [c]), c);
    CausalStep(log, c);
  }

  lemma Rearranged(stream: seq<Cmd>, waiting: seq<Cmd>, other: seq<Cmd>, retired: set<nat>, log: seq<Cmd>)
    requires Accounted(stream, waiting, retired, log) && multiset(other) == multiset(waiting)
    ensures Accounted(stream, other, retired, log)
  {
  }

  // ---------------------------------------------------------------- dispatch

  // Moving command i out of the pending list.
  lemma TakenOut(pending: seq<Cmd>, i: nat, fly: seq<Cmd>)
    requires i < |pending|
    ensures multiset(SwapRemove(pending, i) + fly) + multiset{pending[i]} == multiset(pending + fly)
    ensures multiset(SwapRemove(pending, i) + (fly + [pending[i]])) == multiset(pending + fly)
  {
    SwapRemoveMultiset(pending, i);
  }

  lemma FromStream(stream: seq<Cmd>, waiting: seq<Cmd>, retired: set<nat>, log: seq<Cmd>, i: nat)
    requires Accounted(stream, waiting, retired, log) && i < |waiting|
    ensures waiting[i] in stream
  {
    InStream(stream, Scan(waiting, retired, log), waiting[i]);
  }

  ghost predicate Live(stream: seq<Cmd>, pending: seq<Cmd>, flights: seq<InFlight>, retired: set<nat>,
                       report: RunReport, log: seq<Cmd>, ips: set<IpId>) {
    && Accounted(stream, pending + Cmds(flights), retired, log)
    && AllFlying(flights, retired, ips) && Charged(report, flights, log)
    && (AllCpu(stream) ==> flights == [] && CpuReport(report, log))
  }

  function Paid(report: RunReport, ip: IpId, cost: nat): RunReport {
    RunReport(report.totalCycles + cost, Bump(report.perIpCycles, ip, cost), report.completions + 1)
  }

  lemma PaidReport(report: RunReport, flights: seq<InFlight>, log: seq<Cmd>, c: Cmd)
    requires Charged(report, flights, log) && CpuBacked(c.ip)
    ensures var paid := Paid(report, c.ip, CycleCost(c.opcode));
            Charged(paid, flights, log + [c]) && (CpuReport(report, log) ==> CpuReport(paid, log + [c]))
  {
    assert (log + [c])[..|log|] == log;
  }

  lemma CpuStep(stream: seq<Cmd>, pending: seq<Cmd>, flights: seq<InFlight>, retired: set<nat>, report: RunReport,
                log: seq<Cmd>, ips: set<IpId>, i: nat)
    requires Live(stream, pending, flights, retired, report, log, ips)
    requires i < |pending| && pending[i].tokenIn in retired && CpuBacked(pending[i].ip)
    ensures var c := pending[i];
            Live(stream, SwapRemove(pending, i), flights, retired + {c.tokenOut},
                 Paid(report, c.ip, CycleCost(c.opcode)), log + [c], ips)
  {
    var c := pending[i];
    TakenOut(pending, i, Cmds(flights));
    RetireOne(stream, pending + Cmds(flights), SwapRemove(pending, i) + Cmds(flights), retired, log, c);
    PaidReport(report, flights, log, c);
  }

  lemma IpStep(stream: seq<Cmd>, pending: seq<Cmd>, flights: seq<InFlight>, retired: set<nat>, report: RunReport,
               log: seq<Cmd>, ips: set<IpId>, i: nat)
    requires Live(stream, pending, flights, retired, report, log, ips)
    requires i < |pending| && pending[i].tokenIn in retired && !CpuBacked(pending[i].ip)
    ensures !AllCpu(stream)
    ensures var c := pending[i];
            Live(stream, SwapRemove(pending, i), flights + [InFlight(c.ip, c, 0)], retired, report, log, ips + {c.ip})
  {
    hide Cmds;
    var c := pending[i];
    assert (pending + Cmds(flights))[i] == c;
    FromStream(stream, pending + Cmds(flights), retired, log, i);
    TakenOut(pending, i, Cmds(flights));
    var more := flights + [InFlight(c.ip, c, 0)];
    Appended(flights, InFlight(c.ip, c, 0));
    Rearranged(stream, pending + Cmds(flights), SwapRemove(pending, i) + Cmds(more), retired, log);
  }

  // ---------------------------------------------------------------- one clock

  lemma {:induction false} CmdsFirst(flights: seq<InFlight>)
    requires flights != []
    ensures Cmds(flights) == [flights[0].cmd] + Cmds(flights[1..])
  {
    var n := |flights| - 1;
    if n > 0 {
      CmdsFirst(flights[..n]);
      assert flights[..n][1..] == flights[1..][..n - 1];
    }
  }

  lemma Suffix(flights: seq<InFlight>, k: nat)
    requires k < |flights|
    ensures flights[k..] != [] && flights[k..][0] == flights[k] && flights[k..][1..] == flights[k + 1..]
  {
  }

  // Commands up to k have been polled this clock, the survivors among them are still, the rest have not.
  ghost predicate Polling(stream: seq<Cmd>, pending: seq<Cmd>, still: seq<InFlight>, rest: seq<InFlight>,
                          retired: set<nat>, log: seq<Cmd>, ips: set<IpId>) {
    && Accounted(stream, pending + Cmds(still) + Cmds(rest), retired, log)
    && AllFlying(still, retired, ips) && AllFlying(rest, retired, ips)
  }

  lemma LandStep(stream: seq<Cmd>, pending: seq<Cmd>, still: seq<InFlight>, rest: seq<InFlight>, retired: set<nat>,
                 log: seq<Cmd>, ips: set<IpId>)
    requires Polling(stream, pending, still, rest, retired, log, ips) && rest != []
    ensures var c := rest[0].cmd;
            Polling(stream, pending, still, rest[1..], retired + {c.tokenOut}, log + [c], ips)
  {
    CmdsFirst(rest);
    var w, w' := pending + Cmds(still) + Cmds(rest), pending + Cmds(still) + Cmds(rest[1..]);
    assert multiset(w') + multiset{rest[0].cmd} == multiset(w);
    RetireOne(stream, w, w', retired, log, rest[0].cmd);
  }

  lemma Appended(flights: seq<InFlight>, fl: InFlight)
    ensures Cmds(flights + [fl]) == Cmds(flights) + [fl.cmd]
    ensures fl.cyclesElapsed <= IP_CYCLE_BUDGET ==>
              Credit(flights + [fl]) == Credit(flights) + 1 + IP_CYCLE_BUDGET - fl.cyclesElapsed
  {
    assert (flights + [fl])[..|flights|] == flights;
  }

  lemma Regroup(a: seq<Cmd>, b: seq<Cmd>, c: Cmd, d: seq<Cmd>)
    ensures a + b + ([c] + d) == a + (b + [c]) + d
  {
  }

  lemma StayStep(stream: seq<Cmd>, pending: seq<Cmd>, still: seq<InFlight>, rest: seq<InFlight>, retired: set<nat>,
                 log: seq<Cmd>, ips: set<IpId>, fl: InFlight)
    requires Polling(stream, pending, still, rest, retired, log, ips) && rest != []
    requires fl == rest[0].(cyclesElapsed := rest[0].cyclesElapsed + 1) && fl.cyclesElapsed <= IP_CYCLE_BUDGET
    ensures Polling(stream, pending, still + [fl], rest[1..], retired, log, ips)
    ensures Credit(still + [fl]) == Credit(still) + IP_CYCLE_BUDGET - rest[0].cyclesElapsed
  {
    hide Accounted;
    CmdsFirst(rest);
    Appended(still, fl);
    Regroup(pending, Cmds(still), fl.cmd, Cmds(rest[1..]));
  }

  lemma CreditUpTo(flights: seq<InFlight>, k: nat)
    requires k < |flights| && flights[k].cyclesElapsed <= IP_CYCLE_BUDGET
    ensures Credit(flights[..k + 1]) == Credit(flights[..k]) + 1 + IP_CYCLE_BUDGET - flights[k].cyclesElapsed
  {
    assert flights[..k + 1][..k] == flights[..k];
  }

  // The first command polled has either landed or is still the oldest.
  ghost predicate FirstPolled(flights: seq<InFlight>, still: seq<InFlight>, done: nat) {
    done > 0 || (flights != [] && still != [] && still[0].cyclesElapsed == flights[0].cyclesElapsed + 1)
  }

  ghost predicate Midway(stream: seq<Cmd>, pending: seq<Cmd>, flights: seq<InFlight>, k: nat, still: seq<InFlight>,
                         retired: set<nat>, log: seq<Cmd>, landed: nat, ips: set<IpId>) {
    && k <= |flights| && Polling(stream, pending, still, flights[k..], retired, log, ips)
    && Credit(still) + k <= Credit(flights[..k]) && (if k == 0 then still == [] else FirstPolled(flights, still, landed))
  }

  lemma MidwayLand(stream: seq<Cmd>, pending: seq<Cmd>, flights: seq<InFlight>, k: nat, still: seq<InFlight>,
                   retired: set<nat>, log: seq<Cmd>, landed: nat, ips: set<IpId>)
    requires Midway(stream, pending, flights, k, still, retired, log, landed, ips) && k < |flights|
    ensures var c := flights[k].cmd;
            Midway(stream, pending, flights, k + 1, still, retired + {c.tokenOut}, log + [c], landed + 1, ips)
  {
    Suffix(flights, k);
    assert Flying(flights[k..][0], retired, ips);
    CreditUpTo(flights, k);
    LandStep(stream, pending, still, flights[k..], retired, log, ips);
  }

  lemma MidwayStay(stream: seq<Cmd>, pending: seq<Cmd>, flights: seq<InFlight>, k: nat, still: seq<InFlight>,
                   retired: set<nat>, log: seq<Cmd>, landed: nat, ips: set<IpId>, fl: InFlight)
    requires Midway(stream, pending, flights, k, still, retired, log, landed, ips) && k < |flights|
    requires fl == flights[k].(cyclesElapsed := flights[k].cyclesElapsed + 1) && fl.cyclesElapsed <= IP_CYCLE_BUDGET
    ensures Midway(stream, pending, flights, k + 1, still + [fl], retired, log, landed, ips)
  {
    Suffix(flights, k);
    CreditUpTo(flights, k);
    StayStep(stream, pending, still, flights[k..], retired, log, ips, fl);
  }

  ghost predicate TimedOut(stream: seq<Cmd>, e: FabricError) {
    e.DispatchTimeout? && e.cycles == IP_CYCLE_BUDGET + 1
      && exists c :: c in stream && c.ip == e.ip && !CpuBacked(c.ip)
  }

  lemma LateIsFromStream(stream: seq<Cmd>, pending: seq<Cmd>, still: seq<InFlight>, rest: seq<InFlight>,
                         retired: set<nat>, log: seq<Cmd>, ips: set<IpId>)
    requires Polling(stream, pending, still, rest, retired, log, ips) && rest != []
    requires rest[0].cyclesElapsed + 1 > IP_CYCLE_BUDGET
    ensures TimedOut(stream, DispatchTimeout(rest[0].ip, rest[0].cyclesElapsed + 1)) && Causal(log)
  {
    CmdsFirst(rest);
    var w := pending + Cmds(still) + Cmds(rest);
    assert w[|pending + Cmds(still)|] == rest[0].cmd;
    FromStream(stream, w, retired, log, |pending + Cmds(still)|);
  }

  lemma MidwayLate(stream: seq<Cmd>, pending: seq<Cmd>, flights: seq<InFlight>, k: nat, still: seq<InFlight>,
                   retired: set<nat>, log: seq<Cmd>, landed: nat, ips: set<IpId>)
    requires Midway(stream, pending, flights, k, still, retired, log, landed, ips) && k < |flights|
    requires flights[k].cyclesElapsed + 1 > IP_CYCLE_BUDGET
    ensures TimedOut(stream, DispatchTimeout(flights[k].ip, flights[k].cyclesElapsed + 1)) && Causal(log)
  {
    Suffix(flights, k);
    LateIsFromStream(stream, pending, still, flights[k..], retired, log, ips);
  }

  lemma PollStart(stream: seq<Cmd>, pending: seq<Cmd>, flights: seq<InFlight>, retired: set<nat>,
                  report: RunReport, log: seq<Cmd>, ips: set<IpId>)
    requires Live(stream, pending, flights, retired, report, log, ips) && flights != []
    ensures Midway(stream, pending, flights, 0, [], retired, log, 0, ips) && !AllCpu(stream)
    ensures report.totalCycles <= (IP_CYCLE_BUDGET + 1) * |log| + flights[0].cyclesElapsed
    ensures flights[0].cyclesElapsed <= IP_CYCLE_BUDGET && report.completions == |log|
  {
    assert flights[0..] == flights;
    assert pending + Cmds([]) + Cmds(flights) == pending + Cmds(flights);
    assert Flying(flights[0], retired, ips);
  }

  lemma PollEnd(stream: seq<Cmd>, pending: seq<Cmd>, flights: seq<InFlight>, still: seq<InFlight>, retired: set<nat>,
                report: RunReport, log: seq<Cmd>, done: nat, ips: set<IpId>)
    requires Midway(stream, pending, flights, |flights|, still, retired, log, done, ips) && !AllCpu(stream)
    requires flights != [] && flights[0].cyclesElapsed <= IP_CYCLE_BUDGET
    requires done <= |log| == report.completions
    requires report.totalCycles <= (IP_CYCLE_BUDGET + 1) * (|log| - done) + flights[0].cyclesElapsed + 1
    ensures Live(stream, pending, still, retired, report, log, ips) && Credit(still) < Credit(flights)
  {
    assert flights[..|flights|] == flights && flights[|flights|..] == [];
    assert pending + Cmds(still) + Cmds([]) == pending + Cmds(still);
    if done > 0 {
      assert (IP_CYCLE_BUDGET + 1) * (|log| - done) <= (IP_CYCLE_BUDGET + 1) * (|log| - 1);
    }
  }

  // ---------------------------------------------------------------- the whole run

  lemma LiveStart(stream: seq<Cmd>, ips: set<IpId>)
    ensures Live(stream, stream, [], {0}, RunReport(0, map[], 0), [], ips)
  {
    assert stream + Cmds([]) == stream;
  }

  // The global cap, 4 * 4096 * (1 + n), is never reached.
  lemma WithinGlobalBudget(stream: seq<Cmd>, pending: seq<Cmd>, flights: seq<InFlight>, retired: set<nat>,
                           report: RunReport, log: seq<Cmd>, ips: set<IpId>)
    requires Live(stream, pending, flights, retired, report, log, ips)
    ensures |pending| + |flights| + report.completions == |stream|
    ensures report.totalCycles <= (IP_CYCLE_BUDGET + 1) * |stream| <= 4 * IP_CYCLE_BUDGET * (1 + |stream|)
  {
    hide Causal, Tokens, Cmds;
    NothingLost(stream, pending + Cmds(flights), log);
    CmdsLength(flights);
    if flights != [] {
      assert Flying(flights[0], retired, ips);
    }
    BudgetArithmetic(|log|, |stream|, report.totalCycles, if flights == [] then 0 else 1);
  }

  lemma NothingLost(stream: seq<Cmd>, waiting: seq<Cmd>, log: seq<Cmd>)
    requires multiset(waiting) + multiset(log) == multiset(stream)
    ensures |waiting| + |log| == |stream|
  {
    assert |multiset(waiting)| == |waiting| && |multiset(log)| == |log| && |multiset(stream)| == |stream|;
  }

  lemma BudgetArithmetic(done: nat, n: nat, total: nat, flying: nat)
    requires done + flying <= n && total <= (IP_CYCLE_BUDGET + 1) * done + flying * IP_CYCLE_BUDGET
    requires flying <= 1
    ensures total <= (IP_CYCLE_BUDGET + 1) * n <= 4 * IP_CYCLE_BUDGET * (1 + n)
  {
  }

  lemma {:induction false} CmdsLength(flights: seq<InFlight>)
    ensures |Cmds(flights)| == |flights|
  {
    if flights != [] {
      CmdsLength(flights[..|flights| - 1]);
    }
  }

  // Nothing in flight and nothing left that could be fired.
  lemma Halted(stream: seq<Cmd>, pending: seq<Cmd>, retired: set<nat>, report: RunReport, log: seq<Cmd>,
               ips: set<IpId>)
    requires Live(stream, pending, [], retired, report, log, ips) && Blocked(pending, retired)
    ensures |pending| == |RunCpu(stream).pending|
    ensures pending == [] ==> multiset(log) == multiset(stream)
    ensures pending == [] && AllCpu(stream) ==> report.totalCycles == TotalCost(stream)
  {
    assert pending + Cmds([]) == pending;
    SameVerdict(stream, Scan(pending, retired, log));
    if pending == [] {
      CostByMultiset(log, stream);
    }
  }

  lemma PassHalts(s: Scan)
    requires ScanFrom(s, 0) == s
    ensures RunPasses(s) == s
  {
  }

  class Fabric {
    var ips: set<IpId>

    constructor ()
      ensures ips == {}
    {
      ips := {};
    }

    method EnsureIp(ip: IpId)
      modifies this`ips
      ensures ips == old(ips) + {ip}
    {
      ips := ips + {ip};
    }

    // One scan of the pending list, firing whatever its token allows.
    method Launch(ghost stream: seq<Cmd>, pending0: seq<Cmd>, flights0: seq<InFlight>, retired0: set<nat>,
                  report0: RunReport, ghost log0: seq<Cmd>)
      returns (pending: seq<Cmd>, flights: seq<InFlight>, retired: set<nat>, report: RunReport, launched: bool,
               ghost log: seq<Cmd>)
      requires Live(stream, pending0, flights0, retired0, report0, log0, ips)
      modifies this`ips
      ensures Live(stream, pending, flights, retired, report, log, ips)
      ensures launched ==> |pending| < |pending0|
      ensures !launched ==> pending == pending0 && flights == flights0 && retired == retired0 && log == log0
      ensures !launched ==> Blocked(pending, retired)
      ensures AllCpu(stream) ==> flights == [] && Scan(pending, retired, log) == ScanFrom(Scan(pending0, retired0, log0), 0)
    {
      hide CycleCost, Paid;
      pending, flights, retired, report, launched, log := pending0, flights0, retired0, report0, false, log0;
      var i := 0;
      while i < |pending|
        invariant i <= |pending| <= |pending0|
        invariant Live(stream, pending, flights, retired, report, log, ips)
        invariant launched ==> |pending| < |pending0|
        invariant !launched ==> pending == pending0 && flights == flights0 && retired == retired0 && log == log0
        invariant !launched ==> Blocked(pending[..i], retired)
        invariant AllCpu(stream) ==>
                    ScanFrom(Scan(pending, retired, log), i) == ScanFrom(Scan(pending0, retired0, log0), 0)
        decreases |pending|, |pending| - i
      {
        if pending[i].tokenIn !in retired {
          assert pending[..i + 1] == pending[..i] + [pending[i]];
          i := i + 1;
          continue;
        }
        var cmd := pending[i];
        if CpuBacked(cmd.ip) {
          CpuStep(stream, pending, flights, retired, report, log, ips, i);
          report := Paid(report, cmd.ip, CycleCost(cmd.opcode));
          retired, log := retired + {cmd.tokenOut}, log + [cmd];
        } else {
          IpStep(stream, pending, flights, retired, report, log, ips, i);
          EnsureIp(cmd.ip);
          flights := flights + [InFlight(cmd.ip, cmd, 0)];
        }
        pending, launched := SwapRemove(pending, i), true;
      }
      assert pending[..|pending|] == pending;
    }

    // One clock for every IP in use, then one poll per command in flight; done(p) is the answer to poll p.
    method Clock(ghost stream: seq<Cmd>, ghost pending: seq<Cmd>, flights: seq<InFlight>, retired0: set<nat>,
                 report0: RunReport, ghost log0: seq<Cmd>, done: nat -> bool, polls0: nat)
      returns (failed: Option<FabricError>, still: seq<InFlight>, retired: set<nat>, report: RunReport,
               polls: nat, ghost log: seq<Cmd>)
      requires Live(stream, pending, flights, retired0, report0, log0, ips) && flights != []
      ensures failed.Some? ==> TimedOut(stream, failed.value) && Causal(log)
      ensures failed.None? ==> Live(stream, pending, still, retired, report, log, ips)
      ensures failed.None? ==> Credit(still) < Credit(flights)
    {
      failed, still, retired, polls, log := None, [], retired0, polls0, log0;
      report := report0.(totalCycles := report0.totalCycles + 1);
      PollStart(stream, pending, flights, retired0, report0, log0, ips);
      var k := 0;
      while k < |flights|
        invariant failed.None? && report.completions == |log| >= |log0|
        invariant report.totalCycles == report0.totalCycles + 1
        invariant Midway(stream, pending, flights, k, still, retired, log, |log| - |log0|, ips)
      {
        var fl := flights[k].(cyclesElapsed := flights[k].cyclesElapsed + 1);
        report := report.(perIpCycles := Bump(report.perIpCycles, fl.ip, 1));
        if done(polls) {
          MidwayLand(stream, pending, flights, k, still, retired, log, |log| - |log0|, ips);
          retired, log := retired + {fl.cmd.tokenOut}, log + [fl.cmd];
          report := report.(completions := report.completions + 1);
        } else if fl.cyclesElapsed > IP_CYCLE_BUDGET {
          MidwayLate(stream, pending, flights, k, still, retired, log, |log| - |log0|, ips);
          failed := Some(DispatchTimeout(fl.ip, fl.cyclesElapsed));
          return;
        } else {
          MidwayStay(stream, pending, flights, k, still, retired, log, |log| - |log0|, ips, fl);
          still := still + [fl];
        }
        polls, k := polls + 1, k + 1;
      }
      PollEnd(stream, pending, flights, still, retired, report, log, |log| - |log0|, ips);
    }

    // Run a stream against any IP behaviour. It always ends, within 4097 cycles a command; unless some IP misses
    // its deadline it ends well exactly when the stream alone, scanned as if CPU-backed, resolves every token,
    // and otherwise reports how many commands never can be. On CPU-backed streams it is that scan.
    method Run(stream: seq<Cmd>, done: nat -> bool) returns (r: Result<RunReport, FabricError>, ghost log: seq<Cmd>)
      modifies this`ips
      ensures Causal(log)
      ensures r.Ok? ==>
                && RunCpu(stream).pending == [] && multiset(log) == multiset(stream)
                && r.value.completions == |stream| && r.value.totalCycles <= (IP_CYCLE_BUDGET + 1) * |stream|
      ensures r.Err? ==>
                TimedOut(stream, r.error) || r.error == TokenResolutionStuck(|RunCpu(stream).pending|)
      ensures r.Err? && r.error.TokenResolutionStuck? ==> r.error.pending > 0
      ensures AllCpu(stream) ==> log == RunCpu(stream).fired
      ensures AllCpu(stream) && r.Ok? ==> CpuReport(r.value, log) && r.value.totalCycles == TotalCost(stream)
    {
      var pending, flights, retired, report := stream, [], {0}, RunReport(0, map[], 0);
      var polls := 0;
      log := [];
      var globalBudget := 4 * IP_CYCLE_BUDGET * (1 + |pending|);
      LiveStart(stream, ips);
      while pending != [] || flights != []
        invariant Live(stream, pending, flights, retired, report, log, ips)
        invariant AllCpu(stream) ==> RunPasses(Scan(pending, retired, log)) == RunCpu(stream)
        decreases |pending|, Credit(flights)
      {
        var launched;
        pending, flights, retired, report, launched, log := Launch(stream, pending, flights, retired, report, log);
        if flights == [] {
          if !launched && pending != [] {
            if AllCpu(stream) {
              PassHalts(Scan(pending, retired, log));
            }
            Halted(stream, pending, retired, report, log, ips);
            r := Err(TokenResolutionStuck(|pending|));
            return;
          }
          continue;
        }
        var failed;
        failed, flights, retired, report, polls, log :=
          Clock(stream, pending, flights, retired, report, log, done, polls);
        if failed.Some? {
          r := Err(failed.value);
          return;
        }
        WithinGlobalBudget(stream, pending, flights, retired, report, log, ips);
        if report.totalCycles > globalBudget {
          assert false;
        }
      }
      WithinGlobalBudget(stream, pending, flights, retired, report, log, ips);
      Halted(stream, pending, retired, report, log, ips);
      r := Ok(report);
    }
  }
}
