// The declared-work schedule: a stable sort of the admitted jobs by compute deadline, served by one
// FIFO output link. The same ordered insertion also models the emulator's timer list.
module LinkSchedule {

  datatype RawConfig = Config(enforce: bool, recordNs: nat, computeNs: nat, bandwidth: nat, linkNs: nat)

  // Device realisation refuses a zero bandwidth or a zero compute cost.
  type Config = c: RawConfig | c.bandwidth > 0 && c.computeNs > 0 witness Config(true, 64, 8, 16, 200)

  datatype Job = Job(tile: nat, release: nat, words: nat)

  datatype Phase = ComputeEnd | LinkEnd | RecordEnd

  // An armed timer. `job` and `words` are history only; the emulator's list holds deadline and device.
  datatype Entry = Entry(deadline: nat, tile: nat, job: nat, words: nat, phase: Phase)

  datatype Timing = Timing(computeStart: nat, computeEnd: nat, linkStart: nat, linkEnd: nat,
                           queueWait: nat, finished: nat)

  function Max(a: nat, b: nat): nat {
    if a < b then b else a
  }

  function RecordCost(c: Config): nat {
    if c.enforce then c.recordNs else 0
  }

  function StartOf(j: Job, c: Config): nat {
    j.release + RecordCost(c)
  }

  function EndOf(j: Job, c: Config): nat {
    StartOf(j, c) + j.words * c.computeNs
  }

  // Link occupancy: whole nanoseconds, rounded up.
  function Occupancy(words: nat, c: Config): nat {
    (words * 8 + c.bandwidth - 1) / c.bandwidth
  }

  // ---------------------------------------------------------------- ordered insertion

  // Every entry may precede everything behind it.
  ghost predicate Sorted(q: seq<Entry>) {
    q == [] || (Sorted(q[1..]) && forall x :: x in q[1..] ==> q[0].deadline <= x.deadline)
  }

  // Insert before the first strictly later deadline, so equal deadlines keep their arming order.
  function Insert(q: seq<Entry>, e: Entry): (r: seq<Entry>)
    ensures |r| == |q| + 1
  {
    if q == [] then [e]
    else if e.deadline < q[0].deadline then [e] + q
    else [q[0]] + Insert(q[1..], e)
  }

  lemma {:induction false} InsertMembers(q: seq<Entry>, e: Entry, x: Entry)
    ensures x in Insert(q, e) <==> x == e || x in q
  {
    if q != [] {
      assert x in q <==> x == q[0] || x in q[1..];
      InsertMembers(q[1..], e, x);
    }
  }

  lemma {:induction false} InsertSorted(q: seq<Entry>, e: Entry)
    requires Sorted(q)
    ensures Sorted(Insert(q, e))
  {
    if q != [] {
      var r := Insert(q, e);
      if e.deadline < q[0].deadline {
        assert r[1..] == q;
      } else {
        InsertSorted(q[1..], e);
        assert r[1..] == Insert(q[1..], e);
        forall x | x in r[1..]
          ensures q[0].deadline <= x.deadline
        {
          InsertMembers(q[1..], e, x);
        }
      }
    }
  }

  lemma {:induction false} InsertPastPrefix(a: seq<Entry>, b: seq<Entry>, e: Entry)
    requires forall x :: x in a ==> x.deadline <= e.deadline
    ensures Insert(a + b, e) == a + Insert(b, e)
  {
    if a == [] {
      assert a + b == b;
    } else {
      assert (a + b)[1..] == a[1..] + b;
      InsertPastPrefix(a[1..], b, e);
    }
  }

  // The compute deadlines still pending in a timer list.
  function Computing(q: seq<Entry>): seq<Entry> {
    if q == [] then []
    else if q[0].phase.ComputeEnd? then [q[0]] + Computing(q[1..])
    else Computing(q[1..])
  }

  lemma {:induction false} ComputingMembers(q: seq<Entry>, x: Entry)
    ensures x in Computing(q) <==> x in q && x.phase.ComputeEnd?
  {
    if q != [] {
      assert x in q <==> x == q[0] || x in q[1..];
      ComputingMembers(q[1..], x);
    }
  }

  // Selecting the compute deadlines commutes with arming a timer.
  lemma {:induction false} ComputingOfInsert(q: seq<Entry>, e: Entry)
    requires Sorted(q)
    ensures Computing(Insert(q, e)) == if e.phase.ComputeEnd? then Insert(Computing(q), e) else Computing(q)
  {
    if q == [] {
    } else if e.deadline < q[0].deadline {
      assert Insert(q, e)[1..] == q;
      var c := Computing(q);
      if c != [] {
        ComputingMembers(q, c[0]);
        assert c[0] == q[0] || c[0] in q[1..];
      }
    } else {
      assert Insert(q, e)[1..] == Insert(q[1..], e);
      ComputingOfInsert(q[1..], e);
      var c := Computing(q[1..]);
      if q[0].phase.ComputeEnd? {
        assert ([q[0]] + c)[1..] == c;
      }
    }
  }

  // ---------------------------------------------------------------- the schedule oracle

  function SlotOf(jobs: seq<Job>, k: nat, c: Config): Entry
    requires k < |jobs|
  {
    Entry(EndOf(jobs[k], c), jobs[k].tile, k, jobs[k].words, ComputeEnd)
  }

  // Jobs in (compute deadline, submission) order.
  function Order(jobs: seq<Job>, c: Config): (r: seq<Entry>)
    ensures |r| == |jobs|
  {
    if jobs == [] then []
    else Insert(Order(jobs[..|jobs| - 1], c), SlotOf(jobs, |jobs| - 1, c))
  }

  lemma {:induction false} OrderMembers(jobs: seq<Job>, c: Config, e: Entry)
    ensures e in Order(jobs, c) <==> e.job < |jobs| && e == SlotOf(jobs, e.job, c)
  {
    if jobs != [] {
      var n := |jobs| - 1;
      OrderMembers(jobs[..n], c, e);
      InsertMembers(Order(jobs[..n], c), SlotOf(jobs, n, c), e);
    }
  }

  ghost predicate Before(a: Entry, b: Entry) {
    a.deadline < b.deadline || (a.deadline == b.deadline && a.job < b.job)
  }

  ghost predicate Chain(q: seq<Entry>) {
    q == [] || (Chain(q[1..]) && forall x :: x in q[1..] ==> Before(q[0], x))
  }

  lemma {:induction false} ChainAt(q: seq<Entry>, i: nat, j: nat)
    requires Chain(q) && i < j < |q|
    ensures Before(q[i], q[j])
  {
    if i == 0 {
      assert q[1..][j - 1] in q[1..];
    } else {
      ChainAt(q[1..], i - 1, j - 1);
    }
  }

  lemma {:induction false} InsertLatest(q: seq<Entry>, e: Entry)
    requires Chain(q)
    requires forall x :: x in q ==> x.job < e.job
    ensures Chain(Insert(q, e))
  {
    if q != [] {
      var r := Insert(q, e);
      if e.deadline < q[0].deadline {
        assert r[1..] == q;
        assert forall x :: x in q ==> x == q[0] || x in q[1..];
      } else {
        InsertLatest(q[1..], e);
        assert r[1..] == Insert(q[1..], e);
        assert q[0] in q;
        forall x | x in r[1..]
          ensures Before(q[0], x)
        {
          InsertMembers(q[1..], e, x);
        }
      }
    }
  }

  lemma {:induction false} OrderChain(jobs: seq<Job>, c: Config)
    ensures Chain(Order(jobs, c))
  {
    if jobs != [] {
      var n := |jobs| - 1;
      OrderChain(jobs[..n], c);
      forall x | x in Order(jobs[..n], c)
        ensures x.job < n
      {
        OrderMembers(jobs[..n], c, x);
      }
      InsertLatest(Order(jobs[..n], c), SlotOf(jobs, n, c));
    }
  }

  // What sorted(enumerate(jobs), key=(compute_end, index)) promises: every job exactly once, in strict
  // lexicographic order of (compute deadline, submission index).
  lemma OrderIsStableSort(jobs: seq<Job>, c: Config)
    ensures var r := Order(jobs, c);
            && |r| == |jobs|
            && (forall i, j :: 0 <= i < j < |r| ==> Before(r[i], r[j]))
            && (forall e :: e in r <==> e.job < |jobs| && e == SlotOf(jobs, e.job, c))
  {
    OrderChain(jobs, c);
    var r := Order(jobs, c);
    forall e
      ensures e in r <==> e.job < |jobs| && e == SlotOf(jobs, e.job, c)
    {
      OrderMembers(jobs, c, e);
    }
    forall i, j | 0 <= i < j < |r|
      ensures Before(r[i], r[j])
    {
      ChainAt(r, i, j);
    }
  }

  // When the link is next idle after the first p compute deadlines have been served in turn.
  function FreeAfter(order: seq<Entry>, p: nat, c: Config): nat
    requires p <= |order|
  {
    if p == 0 then 0
    else Max(order[p - 1].deadline, FreeAfter(order, p - 1, c)) + Occupancy(order[p - 1].words, c)
  }

  function LinkStart(order: seq<Entry>, p: nat, c: Config): nat
    requires p < |order|
  {
    Max(order[p].deadline, FreeAfter(order, p, c))
  }

  // The timing the oracle declares for the job served in position p.
  function TimingAt(jobs: seq<Job>, order: seq<Entry>, p: nat, c: Config): Timing
    requires p < |order| && order[p].job < |jobs|
  {
    var j := jobs[order[p].job];
    var free := FreeAfter(order, p + 1, c);
    Timing(StartOf(j, c), EndOf(j, c), LinkStart(order, p, c), free + c.linkNs,
           LinkStart(order, p, c) - order[p].deadline, free + c.linkNs + RecordCost(c))
  }

  // Serving order and timings depend only on what was served before.
  lemma {:induction false} FreeAfterPrefix(a: seq<Entry>, b: seq<Entry>, p: nat, c: Config)
    requires p <= |a|
    ensures FreeAfter(a + b, p, c) == FreeAfter(a, p, c)
  {
    if p > 0 {
      FreeAfterPrefix(a, b, p - 1, c);
    }
  }

  function OracleUpTo(jobs: seq<Job>, c: Config, p: nat): map<nat, Timing>
    requires p <= |jobs|
  {
    if p == 0 then map[]
    else
      var order := Order(jobs, c);
      OrderMembers(jobs, c, order[p - 1]);
      OracleUpTo(jobs, c, p - 1)[order[p - 1].tile := TimingAt(jobs, order, p - 1, c)]
  }

  // Expected timing by tile.
  function Oracle(jobs: seq<Job>, c: Config): map<nat, Timing> {
    OracleUpTo(jobs, c, |jobs|)
  }

  method ScheduleOracle(jobs: seq<Job>, c: Config) returns (expected: map<nat, Timing>)
    ensures expected == Oracle(jobs, c)
  {
    hide Order;
    var r := RecordCost(c);
    var pending := Order(jobs, c);
    var free := 0;
    expected := map[];
    for p := 0 to |pending|
      invariant free == FreeAfter(pending, p, c)
      invariant expected == OracleUpTo(jobs, c, p)
    {
      OrderMembers(jobs, c, pending[p]);
      var j := jobs[pending[p].job];
      var start := j.release + r;
      var computeEnd := start + j.words * c.computeNs;
      var linkStart := Max(computeEnd, free);
      free := linkStart + Occupancy(j.words, c);
      var timing := Timing(start, computeEnd, linkStart, free + c.linkNs,
                           linkStart - computeEnd, free + c.linkNs + r);
      assert timing == TimingAt(jobs, pending, p, c);
      expected := expected[j.tile := timing];
    }
  }

  // A tile's entry is the one it was given last.
  lemma {:induction false} OracleUpToAt(jobs: seq<Job>, c: Config, p: nat, n: nat)
    requires p < n <= |jobs|
    requires var o := Order(jobs, c); forall q :: p < q < n ==> o[q].tile != o[p].tile
    ensures Order(jobs, c)[p].job < |jobs|
    ensures var o := Order(jobs, c);
            o[p].tile in OracleUpTo(jobs, c, n) && OracleUpTo(jobs, c, n)[o[p].tile] == TimingAt(jobs, o, p, c)
  {
    OrderMembers(jobs, c, Order(jobs, c)[p]);
    if p < n - 1 {
      OracleUpToAt(jobs, c, p, n - 1);
    }
  }

  // Served in turn, serialization intervals are disjoint, and each starts at its own deadline or as the one before
  // it ends.
  lemma {:induction false} SharedLinkDiscipline(order: seq<Entry>, c: Config, p: nat, q: nat)
    requires p < q < |order|
    ensures LinkStart(order, p, c) + Occupancy(order[p].words, c) <= LinkStart(order, q, c)
    ensures LinkStart(order, q, c) == order[q].deadline
         || LinkStart(order, q, c) == LinkStart(order, q - 1, c) + Occupancy(order[q - 1].words, c)
  {
    if p < q - 1 {
      SharedLinkDiscipline(order, c, p, q - 1);
    }
  }

  ghost predicate DeadlinesInOrder(jobs: seq<Job>, c: Config) {
    forall i, k :: 0 <= i < k < |jobs| ==> EndOf(jobs[i], c) <= EndOf(jobs[k], c)
  }

  lemma {:induction false} OrderOfOrdered(jobs: seq<Job>, c: Config)
    requires DeadlinesInOrder(jobs, c)
    ensures forall k :: 0 <= k < |jobs| ==> Order(jobs, c)[k] == SlotOf(jobs, k, c)
  {
    hide EndOf, Sorted;
    if jobs != [] {
      var n := |jobs| - 1;
      OrderOfOrdered(jobs[..n], c);
      var o, e := Order(jobs[..n], c), SlotOf(jobs, n, c);
      forall x | x in o
        ensures x.deadline <= e.deadline
      {
        OrderMembers(jobs[..n], c, x);
      }
      InsertPastPrefix(o, [], e);
      assert o + [] == o;
      assert Order(jobs, c) == o + [e];
      assert forall k :: 0 <= k < n ==> SlotOf(jobs[..n], k, c) == SlotOf(jobs, k, c);
    }
  }

  lemma {:induction false} BatchFree(jobs: seq<Job>, c: Config, w: nat, t: nat, p: nat)
    requires forall k :: 0 <= k < |jobs| ==> jobs[k].words == w && jobs[k].release == t
    requires p <= |jobs|
    ensures Order(jobs, c) == seq(|jobs|, k requires 0 <= k < |jobs| => SlotOf(jobs, k, c))
    ensures FreeAfter(Order(jobs, c), p, c)
         == if p == 0 then 0 else t + RecordCost(c) + w * c.computeNs + p * Occupancy(w, c)
  {
    OrderOfOrdered(jobs, c);
    if p > 0 {
      BatchFree(jobs, c, w, t, p - 1);
      var x := Occupancy(w, c);
      assert p * x == (p - 1) * x + x;
      assert (p - 1) * x >= 0;
    }
  }

  // n equal jobs released together, one per tile: the k-th submission waits k serializations, so the last
  // waits (n-1) of them and the makespan is 2r + w*compute + n*ceil(8w/bandwidth) + link.
  lemma EqualBatchTiming(jobs: seq<Job>, c: Config, w: nat, t: nat, k: nat)
    requires forall i :: 0 <= i < |jobs| ==> jobs[i].words == w && jobs[i].release == t
    requires forall i, j :: 0 <= i < j < |jobs| ==> jobs[i].tile != jobs[j].tile
    requires k < |jobs|
    ensures jobs[k].tile in Oracle(jobs, c)
    ensures Oracle(jobs, c)[jobs[k].tile].queueWait == k * Occupancy(w, c)
    ensures Oracle(jobs, c)[jobs[k].tile].finished
         == t + 2 * RecordCost(c) + w * c.computeNs + (k + 1) * Occupancy(w, c) + c.linkNs
  {
    BatchFree(jobs, c, w, t, k);
    BatchFree(jobs, c, w, t, k + 1);
    OracleUpToAt(jobs, c, k, |jobs|);
    assert k * Occupancy(w, c) >= 0;
  }

  // What validate_run demands of a serial schedule: no job is released before its predecessor finished.
  ghost predicate SerialReleases(jobs: seq<Job>, c: Config) {
    forall k :: 0 < k < |jobs| ==>
      jobs[k].release >= EndOf(jobs[k - 1], c) + Occupancy(jobs[k - 1].words, c) + c.linkNs + RecordCost(c)
  }

  lemma {:induction false} SerialDeadlines(jobs: seq<Job>, c: Config, i: nat, k: nat)
    requires SerialReleases(jobs, c)
    requires i < k < |jobs|
    ensures EndOf(jobs[i], c) <= EndOf(jobs[k], c)
  {
    assert jobs[k].words * c.computeNs >= 0;
    if i < k - 1 {
      SerialDeadlines(jobs, c, i, k - 1);
    }
  }

  lemma {:induction false} SerialFree(jobs: seq<Job>, c: Config, p: nat)
    requires SerialReleases(jobs, c) && p <= |jobs|
    ensures Order(jobs, c) == seq(|jobs|, k requires 0 <= k < |jobs| => SlotOf(jobs, k, c))
    ensures FreeAfter(Order(jobs, c), p, c)
         == if p == 0 then 0 else EndOf(jobs[p - 1], c) + Occupancy(jobs[p - 1].words, c)
  {
    hide Insert;
    forall i, k | 0 <= i < k < |jobs|
      ensures EndOf(jobs[i], c) <= EndOf(jobs[k], c)
    {
      SerialDeadlines(jobs, c, i, k);
    }
    OrderOfOrdered(jobs, c);
    if p > 0 {
      SerialFree(jobs, c, p - 1);
      assert jobs[p - 1].words * c.computeNs >= 0;
    }
  }

  // Serial admission never queues, and each job finishes exactly where validate_run says the next may start.
  lemma SerialNeverQueues(jobs: seq<Job>, c: Config, k: nat)
    requires SerialReleases(jobs, c)
    requires forall i, j :: 0 <= i < j < |jobs| ==> jobs[i].tile != jobs[j].tile
    requires k < |jobs|
    ensures jobs[k].tile in Oracle(jobs, c)
    ensures Oracle(jobs, c)[jobs[k].tile].queueWait == 0
    ensures Oracle(jobs, c)[jobs[k].tile].finished
         == jobs[k].release + 2 * RecordCost(c) + jobs[k].words * c.computeNs
            + Occupancy(jobs[k].words, c) + c.linkNs
  {
    hide SerialReleases, Occupancy, Insert;
    SerialLinkIdle(jobs, c, k);
    OracleUpToAt(jobs, c, k, |jobs|);
  }

  lemma SerialLinkIdle(jobs: seq<Job>, c: Config, k: nat)
    requires SerialReleases(jobs, c) && k < |jobs|
    ensures Order(jobs, c) == seq(|jobs|, i requires 0 <= i < |jobs| => SlotOf(jobs, i, c))
    ensures FreeAfter(Order(jobs, c), k, c) <= EndOf(jobs[k], c)
    ensures FreeAfter(Order(jobs, c), k + 1, c) == EndOf(jobs[k], c) + Occupancy(jobs[k].words, c)
  {
    hide Order, FreeAfter, Occupancy;
    SerialFree(jobs, c, k);
    SerialFree(jobs, c, k + 1);
    EndAfterRelease(jobs[k], c);
  }

  lemma EndAfterRelease(j: Job, c: Config)
    ensures EndOf(j, c) >= j.release
  {
    assert j.words * c.computeNs >= 0;
  }
}
