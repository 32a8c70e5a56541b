// What the log of an enforced endpoint proves to its host, in every state of every run.
module EndpointEvidence {
  import opened Wrappers
  import opened LinkSchedule
  import opened EndpointGate
  import opened EndpointInvariant
  import opened EndpointSystem

  // Record k: requests at even places, completions at odd ones, each completion for the job before it and
  // carrying the digest of the kernel's output on that job's input.
  ghost predicate PairedAt(g: Gate, k: nat)
    requires k < |g.log|
  {
    var r := g.log[k];
    && r.kind == (if k % 2 == 0 then 1 else 2) && r.sequence == k + 1
    && r.epoch == g.epoch && r.serial == g.serial && r.policy == POLICY_ID
    && (k % 2 == 1 ==>
          && SameJob(g.log[k - 1], r) && g.log[k - 1].digest.Sha256?
          && |g.log[k - 1].digest.content| == 8 * r.words
          && r.digest == Sha256(Kernel(g.log[k - 1].digest.content, r.scalar)))
  }

  // (request completion)*, with one more request exactly while a job runs or after its completion was lost.
  ghost predicate Paired(g: Gate) {
    && (|g.log| % 2 == 1 <==> g.state == Busy || g.state == PostFail)
    && forall k :: 0 <= k < |g.log| ==> PairedAt(g, k)
  }

  ghost predicate Ordered(log: seq<Record>, now: nat) {
    (forall i, j :: 0 <= i <= j < |log| ==> log[i].timeNs <= log[j].timeNs)
    && forall i :: 0 <= i < |log| ==> log[i].timeNs <= now
  }

  // What each terminal state is worth.
  ghost predicate Worth(g: Gate) {
    match g.state
    case Done => |g.log| >= 2 && g.committed == 1 && g.failure == None
                 && Answers(g.log[|g.log| - 2], g.log[|g.log| - 1])
    case PreFail => g.committed == 0 && g.failure.Some? && g.failure.value.kind == 3
    case PostFail => g.committed == 1 && g.failure.Some? && g.failure.value.kind == 4 && g.failure.value.committed == 1
                     && |g.log| > 0 && g.log[|g.log| - 1].kind == 1 && Answers(g.log[|g.log| - 1], g.failure.value)
    case Busy => |g.log| + 1 <= g.capacity
    case Idle => g.log == []
  }

  lemma {:induction false} TimesRise(g: Gate, now: nat, i: nat, j: nat)
    requires LogOk(g, now) && i <= j < |g.log|
    ensures g.log[i].timeNs <= g.log[j].timeNs
  {
    if i < j {
      assert RecordOk(g, j, now);
      TimesRise(g, now, i, j - 1);
    }
  }

  lemma InvPaired(g: Gate, c: Config, now: nat)
    requires Inv(g, c, now) && c.enforce
    ensures Paired(g)
  {
    hide Kernel, OutcomeOk;
    forall k | 0 <= k < |g.log|
      ensures PairedAt(g, k)
    {
      assert RecordOk(g, k, now);
      if k > 0 {
        assert RecordOk(g, k - 1, now);
      }
    }
  }

  lemma InvOrdered(g: Gate, c: Config, now: nat)
    requires Inv(g, c, now)
    ensures Ordered(g.log, now)
  {
    forall i, j | 0 <= i <= j < |g.log|
      ensures g.log[i].timeNs <= g.log[j].timeNs <= now
    {
      assert RecordOk(g, j, now);
      TimesRise(g, now, i, j);
    }
  }

  lemma InvWorth(g: Gate, c: Config, now: nat)
    requires Inv(g, c, now) && c.enforce
    ensures Worth(g)
  {
    hide Kernel;
    if g.state == Done || g.state == PostFail {
      assert RecordOk(g, |g.log| - 1, now);
    }
  }

  // Whatever is written, stored or waited for, and however many peers share the link.
  lemma EvidenceAlways(s: System, actions: seq<Action>, t: nat)
    requires Start(s) && t < |s.gates| && s.cfg.enforce
    ensures Good(s)
    ensures var r := Run(s, actions); var g := r.gates[t];
            && |g.log| <= g.capacity <= MAX_RECORDS
            && Paired(g) && Ordered(g.log, r.now) && Worth(g)
            && g.tally.requests == g.tally.completions + g.tally.postFailures + (if g.state == Busy then 1 else 0)
  {
    StartGood(s);
    var r := Run(s, actions);
    assert Inv(r.gates[t], r.cfg, r.now);
    InvPaired(r.gates[t], r.cfg, r.now);
    InvOrdered(r.gates[t], r.cfg, r.now);
    InvWorth(r.gates[t], r.cfg, r.now);
  }
}
