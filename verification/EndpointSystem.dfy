// Any number of endpoint gates on one virtual clock, one timer list and one shared output link, driven by an
// arbitrary interleaving of MMIO writes, host stores, idle waits and timer callbacks.
module EndpointSystem {
  import opened Bytes
  import opened Wrappers
  import opened LinkSchedule
  import opened EndpointGate
  import opened EndpointInvariant

  // History: the job whose timings a gate's registers currently report.
  datatype Track = NoJob | Queued(job: nat) | Served(pos: nat)

  // `jobs` lists admitted jobs in submission order, `served` the compute deadlines in firing order.
  datatype System = System(cfg: Config, now: nat, link: nat, gates: seq<Gate>, queue: seq<Entry>,
                           jobs: seq<Job>, served: seq<Entry>, track: seq<Track>)

  datatype Action =
    | Mmio(tile: nat, addr: u64, value: u64, size: nat)
    | Store(target: nat, at: nat, data: seq<u8>)
    | Wait(until: nat)
    | Tick

  ghost predicate DistinctTiles(q: seq<Entry>) {
    q == [] || (DistinctTiles(q[1..]) && forall x :: x in q[1..] ==> x.tile != q[0].tile)
  }

  lemma {:induction false} InsertDistinct(q: seq<Entry>, e: Entry)
    requires DistinctTiles(q) && forall x :: x in q ==> x.tile != e.tile
    ensures DistinctTiles(Insert(q, e))
  {
    if q != [] {
      var r := Insert(q, e);
      if e.deadline < q[0].deadline {
        assert r[1..] == q;
      } else {
        InsertDistinct(q[1..], e);
        assert r[1..] == Insert(q[1..], e);
        assert q[0] in q;
        forall x | x in r[1..]
          ensures x.tile != q[0].tile
        {
          InsertMembers(q[1..], e, x);
        }
      }
    }
  }

  // An armed timer agrees with the gate it will call back.
  ghost predicate Armed(s: System, e: Entry) {
    && e.tile < |s.gates| && s.now <= e.deadline
    && var g := s.gates[e.tile];
       g.state == Busy && g.deadline == Some(e.deadline) && g.phase == e.phase && g.desc.words == e.words
  }

  ghost predicate QueueOk(s: System) {
    && Sorted(s.queue) && DistinctTiles(s.queue)
    && (forall e :: e in s.queue ==> Armed(s, e))
    && (forall t :: 0 <= t < |s.gates| && s.gates[t].state == Busy ==> exists e :: e in s.queue && e.tile == t)
  }

  ghost predicate TrackOk(s: System, t: nat)
    requires t < |s.gates| == |s.track|
  {
    var g := s.gates[t];
    match s.track[t]
    case NoJob =>
      g.state != Busy && ((forall j :: j in s.jobs ==> j.tile != t) || g.state == Idle || g.state == PreFail)
    case Queued(k) =>
      && g.state == Busy && g.phase.ComputeEnd?
      && k < |s.jobs| && s.jobs[k] == JobOf(g, t)
      && (forall e :: e in s.queue && e.tile == t ==> e.job == k)
    case Served(p) =>
      && p < |s.served| && s.served[p].tile == t && s.served[p].job < |s.jobs|
      && (forall q :: p < q < |s.served| ==> s.served[q].tile != t)
      && (g.state == Busy ==> !g.phase.ComputeEnd?)
      && var tm := TimingAt(s.jobs, s.served, p, s.cfg);
         && g.times.(finished := tm.finished) == tm
         && (g.state != Busy ==> g.times.finished == tm.finished)
         && (g.state == Busy && g.phase.RecordEnd? ==> g.deadline == Some(tm.finished))
  }

  ghost predicate GatesOk(s: System) {
    forall t :: 0 <= t < |s.gates| ==> Inv(s.gates[t], s.cfg, s.now)
  }

  // What was served and what is still computing is the oracle's order, and the link is where it says.
  ghost predicate LinkOk(s: System) {
    && s.served + Computing(s.queue) == Order(s.jobs, s.cfg)
    && (forall e :: e in s.served ==> e.deadline <= s.now)
    && (if s.served == [] then s.link <= s.now else s.link == FreeAfter(s.served, |s.served|, s.cfg))
    && (s.link <= s.now || exists e :: e in s.queue && s.link <= e.deadline)
  }

  ghost predicate TracksOk(s: System) {
    |s.track| == |s.gates| && forall t :: 0 <= t < |s.gates| ==> TrackOk(s, t)
  }

  ghost predicate Good(s: System) {
    GatesOk(s) && QueueOk(s) && LinkOk(s) && TracksOk(s)
  }

  // ---------------------------------------------------------------- steps

  // A write has turned gate t into h.
  function Deliver(s: System, t: nat, h: Gate): (r: System)
    requires t < |s.gates| == |s.track|
    ensures |r.gates| == |s.gates| && r.cfg == s.cfg
  {
    var g := s.gates[t];
    var u := s.(gates := s.gates[t := h]);
    if g.state != Busy && h.state == Busy && h.deadline.Some? then
      u.(queue := Insert(s.queue, Entry(h.deadline.value, t, |s.jobs|, h.desc.words, h.phase)),
         jobs := s.jobs + [JobOf(h, t)], track := s.track[t := Queued(|s.jobs|)])
    else if g.state != PreFail && h.state == PreFail then u.(track := s.track[t := NoJob])
    else u
  }

  // The clock has jumped to the earliest deadline, whose callback left its gate as h and the link at `link`.
  function Fire(s: System, h: Gate, link: nat): (r: System)
    requires s.queue != [] && s.queue[0].tile < |s.gates| == |s.track|
    ensures |r.gates| == |s.gates| && r.cfg == s.cfg
  {
    var e := s.queue[0];
    s.(now := e.deadline, link := link, gates := s.gates[e.tile := h],
       queue := if h.deadline.Some? then
                  Insert(s.queue[1..], Entry(h.deadline.value, e.tile, e.job, e.words, h.phase))
                else s.queue[1..],
       served := if e.phase.ComputeEnd? then s.served + [e] else s.served,
       track := if e.phase.ComputeEnd? then s.track[e.tile := Served(|s.served|)] else s.track)
  }

  // The gate behind the earliest deadline is waiting for it.
  lemma HeadFires(s: System)
    requires GatesOk(s) && QueueOk(s) && s.queue != []
    ensures Armed(s, s.queue[0]) && Runnable(s.gates[s.queue[0].tile])
  {
    assert s.queue[0] in s.queue;
  }

  function Step(s: System, a: Action): (r: System)
    requires Good(s)
    ensures |r.gates| == |s.gates| && r.cfg == s.cfg
  {
    match a
    case Mmio(t, addr, v, size) =>
      if t < |s.gates| then Deliver(s, t, Write(s.gates[t], s.cfg, s.now, addr, v, size)) else s
    case Store(t, at, data) => if t < |s.gates| then Deliver(s, t, HostWrite(s.gates[t], at, data)) else s
    case Wait(until) =>
      if s.now <= until && (s.queue == [] || until <= s.queue[0].deadline) then s.(now := until) else s
    case Tick =>
      if s.queue == [] then s
      else
        var e := s.queue[0];
        HeadFires(s);
        var (h, link) := Complete(s.gates[e.tile], s.cfg, e.deadline, s.link);
        Fire(s, h, link)
  }

  function Run(s: System, actions: seq<Action>): (r: System)
    requires Good(s)
    ensures Good(r) && |r.gates| == |s.gates| && r.cfg == s.cfg
  {
    if actions == [] then s
    else
      var n := |actions| - 1;
      StepGood(Run(s, actions[..n]), actions[n]);
      Step(Run(s, actions[..n]), actions[n])
  }

  // ---------------------------------------------------------------- preservation

  lemma StepGood(s: System, a: Action)
    requires Good(s)
    ensures Good(Step(s, a))
  {
    match a
    case Mmio(t, addr, v, size) => if t < |s.gates| { MmioGood(s, t, addr, v, size); }
    case Store(t, at, data) => if t < |s.gates| { StoreGood(s, t, at, data); }
    case Wait(until) => WaitGood(s, until);
    case Tick => if s.queue != [] { TickGood(s); }
  }

  lemma WaitGood(s: System, until: nat)
    requires Good(s)
    ensures Good(Step(s, Wait(until)))
  {
    var u := Step(s, Wait(until));
    forall t | 0 <= t < |u.gates|
      ensures Inv(u.gates[t], u.cfg, u.now) && TrackOk(u, t)
    {
      InvTime(s.gates[t], s.cfg, s.now, u.now);
      assert TrackOk(s, t);
    }
    forall e | e in u.queue
      ensures Armed(u, e)
    {
      assert Armed(s, e);
      assert e == s.queue[0] || e in s.queue[1..];
    }
  }

  lemma StoreGood(s: System, t: nat, at: nat, data: seq<u8>)
    requires Good(s) && t < |s.gates|
    ensures Good(Deliver(s, t, HostWrite(s.gates[t], at, data)))
  {
    InvHostWrite(s.gates[t], s.cfg, s.now, at, data);
    DeliverGood(s, t, HostWrite(s.gates[t], at, data));
  }

  // The timer list stays in step when no gate's state, deadline, phase or size changes.
  lemma SameQueue(s: System, u: System)
    requires QueueOk(s) && u.queue == s.queue && u.now == s.now && |u.gates| == |s.gates|
    requires forall t :: 0 <= t < |s.gates| ==>
      && s.gates[t].state == u.gates[t].state == Busy ==>
           (s.gates[t].deadline == u.gates[t].deadline && s.gates[t].phase == u.gates[t].phase
            && s.gates[t].desc.words == u.gates[t].desc.words)
    requires forall t :: 0 <= t < |s.gates| ==> (s.gates[t].state == Busy <==> u.gates[t].state == Busy)
    ensures QueueOk(u)
  {
    forall e | e in u.queue
      ensures Armed(u, e)
    {
      assert Armed(s, e);
    }
  }

  // A doorbell either admits the job or fails it; every other write leaves the timing registers alone.
  lemma WriteCases(g: Gate, c: Config, now: nat, addr: u64, v: u64, size: nat)
    ensures var h := Write(g, c, now, addr, v, size);
            || h == Reject(g)
            || (g.state != Busy && h.times == g.times && (h.state == g.state || h.state == Idle))
            || (g.state in {Idle, Done} && h == Submit(g, c, now))
  {
  }

  lemma SubmitCases(g: Gate, c: Config, now: nat)
    ensures var h := Submit(g, c, now);
            || h.state == PreFail
            || (h.state == Busy && h.phase.ComputeEnd? && h.deadline == Some(EndOf(JobOf(h, 0), c))
                && now <= h.deadline.value)
  {
    assert g.desc.words * c.computeNs >= 0;
  }

  lemma MmioGood(s: System, t: nat, addr: u64, v: u64, size: nat)
    requires Good(s) && t < |s.gates|
    ensures Good(Deliver(s, t, Write(s.gates[t], s.cfg, s.now, addr, v, size)))
  {
    var g := s.gates[t];
    InvWrite(g, s.cfg, s.now, addr, v, size);
    WriteCases(g, s.cfg, s.now, addr, v, size);
    SubmitCases(g, s.cfg, s.now);
    DeliverGood(s, t, Write(g, s.cfg, s.now, addr, v, size));
  }

  // What WriteCases, SubmitCases and a host store leave possible.
  ghost predicate Written(g: Gate, h: Gate, c: Config, now: nat) {
    || h == g.(tally := h.tally, ram := h.ram)
    || (g.state != Busy && h.times == g.times && (h.state == g.state || h.state == Idle))
    || (g.state in {Idle, Done} && h.state == PreFail)
    || (g.state in {Idle, Done} && h.state == Busy && h.phase.ComputeEnd?
        && h.deadline == Some(EndOf(JobOf(h, 0), c)) && now <= h.deadline.value)
  }

  lemma DeliverGood(s: System, t: nat, h: Gate)
    requires Good(s) && t < |s.gates| && Inv(h, s.cfg, s.now) && Written(s.gates[t], h, s.cfg, s.now)
    ensures Good(Deliver(s, t, h))
  {
    var g, u := s.gates[t], Deliver(s, t, h);
    if g.state != Busy && h.state == Busy {
      AdmitGood(s, t, h, u);
    } else {
      QuietGood(s, t, h, u);
    }
  }

  ghost predicate Quiet(g: Gate, h: Gate) {
    || h == g.(tally := h.tally, ram := h.ram)
    || (g.state != Busy && h.times == g.times && (h.state == g.state || h.state == Idle))
    || (g.state in {Idle, Done} && h.state == PreFail)
  }

  lemma QuietGood(s: System, t: nat, h: Gate, u: System)
    requires Good(s) && t < |s.gates| && Inv(h, s.cfg, s.now) && Quiet(s.gates[t], h)
    requires u == s.(gates := s.gates[t := h],
                     track := if s.gates[t].state != PreFail && h.state == PreFail then s.track[t := NoJob]
                              else s.track)
    ensures Good(u)
  {
    SameQueue(s, u);
    QuietTracks(s, t, h, u);
  }

  lemma QuietTracks(s: System, t: nat, h: Gate, u: System)
    requires TracksOk(s) && t < |s.gates| && Quiet(s.gates[t], h)
    requires u == s.(gates := s.gates[t := h],
                     track := if s.gates[t].state != PreFail && h.state == PreFail then s.track[t := NoJob]
                              else s.track)
    ensures TracksOk(u)
  {
    forall k | 0 <= k < |u.gates|
      ensures TrackOk(u, k)
    {
      assert TrackOk(s, k);
    }
  }

  lemma AdmitGood(s: System, t: nat, h: Gate, u: System)
    requires GatesOk(s) && QueueOk(s) && LinkOk(s) && TracksOk(s) && t < |s.gates| && s.gates[t].state != Busy
    requires Inv(h, s.cfg, s.now) && h.state == Busy && h.phase.ComputeEnd?
    requires h.deadline == Some(EndOf(JobOf(h, t), s.cfg)) && s.now <= h.deadline.value
    requires u == s.(gates := s.gates[t := h],
                     queue := Insert(s.queue, Entry(h.deadline.value, t, |s.jobs|, h.desc.words, ComputeEnd)),
                     jobs := s.jobs + [JobOf(h, t)], track := s.track[t := Queued(|s.jobs|)])
    ensures Good(u)
  {
    AdmitQueue(s, t, h, u);
    AdmitLink(s, t, h, u);
    AdmitTracks(s, t, h, u);
  }

  lemma AdmitQueue(s: System, t: nat, h: Gate, u: System)
    requires QueueOk(s) && t < |s.gates| && s.gates[t].state != Busy
    requires h.state == Busy && h.phase.ComputeEnd?
    requires h.deadline.Some? && s.now <= h.deadline.value
    requires u.now == s.now && u.gates == s.gates[t := h]
    requires exists k :: u.queue == Insert(s.queue, Entry(h.deadline.value, t, k, h.desc.words, ComputeEnd))
    ensures QueueOk(u)
  {
    var k :| u.queue == Insert(s.queue, Entry(h.deadline.value, t, k, h.desc.words, ComputeEnd));
    var e := Entry(h.deadline.value, t, k, h.desc.words, ComputeEnd);
    forall x | x in s.queue
      ensures x.tile != t
    {
      assert Armed(s, x);
    }
    InsertSorted(s.queue, e);
    InsertDistinct(s.queue, e);
    forall x
      ensures x in u.queue <==> x == e || x in s.queue
    {
      InsertMembers(s.queue, e, x);
    }
    forall x | x in u.queue
      ensures Armed(u, x)
    {
      if x != e { assert Armed(s, x); }
    }
    assert e in u.queue;
    forall k | 0 <= k < |u.gates| && u.gates[k].state == Busy
      ensures exists x :: x in u.queue && x.tile == k
    {
      if k != t {
        var x :| x in s.queue && x.tile == k;
        assert x in u.queue;
      }
    }
  }

  lemma AdmitLink(s: System, t: nat, h: Gate, u: System)
    requires LinkOk(s) && Sorted(s.queue)
    requires h.deadline == Some(EndOf(JobOf(h, t), s.cfg)) && s.now <= h.deadline.value
    requires u.cfg == s.cfg && u.now == s.now && u.link == s.link && u.served == s.served
    requires u.queue == Insert(s.queue, Entry(h.deadline.value, t, |s.jobs|, h.desc.words, ComputeEnd))
    requires u.jobs == s.jobs + [JobOf(h, t)]
    ensures LinkOk(u)
  {
    var e := Entry(h.deadline.value, t, |s.jobs|, h.desc.words, ComputeEnd);
    ComputingOfInsert(s.queue, e);
    InsertPastPrefix(s.served, Computing(s.queue), e);
    assert u.jobs[..|s.jobs|] == s.jobs;
    assert SlotOf(u.jobs, |s.jobs|, s.cfg) == e;
    forall x | x in s.queue
      ensures x in u.queue
    {
      InsertMembers(s.queue, e, x);
    }
  }

  lemma AdmitTracks(s: System, t: nat, h: Gate, u: System)
    requires TracksOk(s) && t < |s.gates| && h.state == Busy && h.phase.ComputeEnd?
    requires forall x :: x in s.queue ==> Armed(s, x)
    requires s.gates[t].state != Busy
    requires u.cfg == s.cfg && u.gates == s.gates[t := h] && u.served == s.served
    requires exists d :: u.queue == Insert(s.queue, Entry(d, t, |s.jobs|, h.desc.words, ComputeEnd))
    requires u.jobs == s.jobs + [JobOf(h, t)] && u.track == s.track[t := Queued(|s.jobs|)]
    ensures TracksOk(u)
  {
    var d :| u.queue == Insert(s.queue, Entry(d, t, |s.jobs|, h.desc.words, ComputeEnd));
    forall x
      ensures x in u.queue <==> x == Entry(d, t, |s.jobs|, h.desc.words, ComputeEnd) || x in s.queue
    {
      InsertMembers(s.queue, Entry(d, t, |s.jobs|, h.desc.words, ComputeEnd), x);
    }
    forall x | x in s.queue
      ensures x.tile != t
    {
      assert Armed(s, x);
    }
    forall k | 0 <= k < |u.gates|
      ensures TrackOk(u, k)
    {
      assert TrackOk(s, k);
    }
  }

  // What a callback running at its deadline does to the gate's timings and to the link.
  ghost predicate Callback(g: Gate, h: Gate, c: Config, now: nat, link: nat, link': nat) {
    && g.state == Busy && g.deadline == Some(now)
    && h.desc.words == g.desc.words && (h.state == Busy <==> h.deadline.Some?)
    && match g.phase
       case ComputeEnd =>
         var start := Max(now, link);
         && h.state == Busy && h.phase.LinkEnd? && link' == start + Occupancy(g.desc.words, c)
         && h.times == g.times.(linkStart := start, queueWait := start - now, linkEnd := link' + c.linkNs)
         && h.deadline == Some(h.times.linkEnd)
       case LinkEnd =>
         && h.state == Busy && h.phase.RecordEnd? && link' == link && h.times == g.times
         && h.deadline == Some(now + RecordCost(c))
       case RecordEnd =>
         h.state in {Done, PostFail} && link' == link && h.times == g.times.(finished := now)
  }

  lemma CallbackFacts(g: Gate, c: Config, now: nat, link: nat)
    requires g.state == Busy && Runnable(g) && g.deadline == Some(now)
    requires g.committed == (if g.phase.RecordEnd? then 1 else 0)
    ensures var (h, link') := Complete(g, c, now, link); Callback(g, h, c, now, link, link')
  {
  }

  lemma TickGood(s: System)
    requires Good(s) && s.queue != []
    ensures Good(Step(s, Tick))
  {
    HeadFires(s);
    var e := s.queue[0];
    var g := s.gates[e.tile];
    var (h, link) := Complete(g, s.cfg, e.deadline, s.link);
    CallbackFacts(g, s.cfg, e.deadline, s.link);
    InvTime(g, s.cfg, s.now, e.deadline);
    InvComplete(g, s.cfg, e.deadline, s.link);
    FireGood(s, h, link);
  }

  ghost predicate Firing(s: System, h: Gate, link: nat) {
    && s.queue != [] && Armed(s, s.queue[0]) && |s.track| == |s.gates|
    && Callback(s.gates[s.queue[0].tile], h, s.cfg, s.queue[0].deadline, s.link, link)
  }

  lemma FireGood(s: System, h: Gate, link: nat)
    requires Good(s) && Firing(s, h, link) && Inv(h, s.cfg, s.queue[0].deadline)
    requires JobOk(s.gates[s.queue[0].tile], s.cfg)
    ensures Good(Fire(s, h, link))
  {
    FireQueue(s, h, link);
    FireLink(s, h, link);
    FireTracks(s, h, link);
    var u, e := Fire(s, h, link), s.queue[0];
    forall t | 0 <= t < |u.gates|
      ensures Inv(u.gates[t], u.cfg, u.now)
    {
      if t != e.tile { InvTime(s.gates[t], s.cfg, s.now, u.now); }
    }
  }

  // The timer list after a callback: the rest, plus the firing tile's new timer if it set one.
  lemma FireMembers(s: System, h: Gate, link: nat, x: Entry)
    requires Firing(s, h, link)
    ensures var e, u := s.queue[0], Fire(s, h, link);
            x in u.queue <==>
              (x in s.queue[1..]
               || (h.deadline.Some? && x == Entry(h.deadline.value, e.tile, e.job, e.words, h.phase)))
  {
    if h.deadline.Some? {
      var e := s.queue[0];
      InsertMembers(s.queue[1..], Entry(h.deadline.value, e.tile, e.job, e.words, h.phase), x);
    }
  }

  lemma FireQueue(s: System, h: Gate, link: nat)
    requires QueueOk(s) && Firing(s, h, link)
    ensures QueueOk(Fire(s, h, link))
  {
    var u, e := Fire(s, h, link), s.queue[0];
    var rest := s.queue[1..];
    forall x | x in rest
      ensures Armed(u, x) && x.tile != e.tile
    {
      assert x in s.queue;
      assert Armed(s, x);
    }
    if h.deadline.Some? {
      var f := Entry(h.deadline.value, e.tile, e.job, e.words, h.phase);
      InsertSorted(rest, f);
      InsertDistinct(rest, f);
    }
    forall x | x in u.queue
      ensures Armed(u, x)
    {
      FireMembers(s, h, link, x);
    }
    forall t | 0 <= t < |u.gates| && u.gates[t].state == Busy
      ensures exists x :: x in u.queue && x.tile == t
    {
      if t == e.tile {
        FireMembers(s, h, link, Entry(h.deadline.value, e.tile, e.job, e.words, h.phase));
      } else {
        var x :| x in s.queue && x.tile == t;
        assert x in rest;
        FireMembers(s, h, link, x);
      }
    }
  }

  lemma FireLink(s: System, h: Gate, link: nat)
    requires Sorted(s.queue) && LinkOk(s) && Firing(s, h, link)
    ensures LinkOk(Fire(s, h, link))
  {
    hide Insert, Occupancy, Order;
    var u, e := Fire(s, h, link), s.queue[0];
    var rest := s.queue[1..];
    var f := Entry(if h.deadline.Some? then h.deadline.value else 0, e.tile, e.job, e.words, h.phase);
    if h.deadline.Some? {
      ComputingOfInsert(rest, f);
    }
    assert Computing(u.queue) == Computing(rest);
    if e.phase.ComputeEnd? {
      assert s.served + ([e] + Computing(rest)) == u.served + Computing(rest);
      FreeAfterPrefix(s.served, [e], |s.served|, s.cfg);
      FireMembers(s, h, link, f);
      assert f in u.queue && u.link <= f.deadline;
    } else if s.link > u.now {
      var x :| x in s.queue && s.link <= x.deadline;
      assert x in rest;
      FireMembers(s, h, link, x);
    }
  }

  lemma TimingPrefix(jobs: seq<Job>, served: seq<Entry>, e: Entry, p: nat, c: Config)
    requires p < |served| && served[p].job < |jobs|
    ensures TimingAt(jobs, served + [e], p, c) == TimingAt(jobs, served, p, c)
  {
    FreeAfterPrefix(served, [e], p, c);
    FreeAfterPrefix(served, [e], p + 1, c);
  }

  lemma FireTracks(s: System, h: Gate, link: nat)
    requires Sorted(s.queue) && LinkOk(s) && TracksOk(s) && Firing(s, h, link)
    requires JobOk(s.gates[s.queue[0].tile], s.cfg)
    ensures TracksOk(Fire(s, h, link))
  {
    var u, e := Fire(s, h, link), s.queue[0];
    forall t | 0 <= t < |s.gates|
      ensures TrackOk(u, t)
    {
      if t != e.tile {
        FireOther(s, h, link, t);
      } else if e.phase.ComputeEnd? {
        FireCompute(s, h, link);
      } else {
        FireLater(s, h, link);
      }
    }
  }

  lemma FireOther(s: System, h: Gate, link: nat, t: nat)
    requires TracksOk(s) && Firing(s, h, link)
    requires t < |s.gates| && t != s.queue[0].tile
    ensures TrackOk(Fire(s, h, link), t)
  {
    var u, e := Fire(s, h, link), s.queue[0];
    assert TrackOk(s, t);
    match s.track[t]
    case NoJob =>
    case Queued(k) =>
      forall x | x in u.queue && x.tile == t
        ensures x.job == k
      {
        FireMembers(s, h, link, x);
        assert x in s.queue;
      }
    case Served(p) =>
      TimingPrefix(s.jobs, s.served, e, p, s.cfg);
  }

  lemma FireLater(s: System, h: Gate, link: nat)
    requires TracksOk(s) && Firing(s, h, link) && !s.queue[0].phase.ComputeEnd?
    requires JobOk(s.gates[s.queue[0].tile], s.cfg)
    ensures TrackOk(Fire(s, h, link), s.queue[0].tile)
  {
    assert TrackOk(s, s.queue[0].tile);
  }

  lemma FireCompute(s: System, h: Gate, link: nat)
    requires LinkOk(s) && TracksOk(s) && Firing(s, h, link) && s.queue[0].phase.ComputeEnd?
    requires JobOk(s.gates[s.queue[0].tile], s.cfg)
    ensures TrackOk(Fire(s, h, link), s.queue[0].tile)
  {
    var u, e := Fire(s, h, link), s.queue[0];
    var g, p := s.gates[e.tile], |s.served|;
    assert TrackOk(s, e.tile);
    assert e in s.queue;
    assert s.track[e.tile] == Queued(e.job);
    ComputingMembers(s.queue, e);
    assert e in s.served + Computing(s.queue);
    OrderMembers(s.jobs, s.cfg, e);
    FreeAfterPrefix(s.served, [e], p, s.cfg);
    assert u.served[p] == e;
    assert LinkStart(u.served, p, s.cfg) == Max(e.deadline, s.link);
    assert FreeAfter(u.served, p + 1, s.cfg) == link;
  }

  // ---------------------------------------------------------------- the refinement

  // A quiet system: nothing armed, link idle, empty history.
  ghost predicate Start(s: System) {
    && |s.track| == |s.gates| && s.queue == [] && s.jobs == [] && s.served == [] && s.link <= s.now
    && forall t :: 0 <= t < |s.gates| ==>
         s.track[t] == NoJob && s.gates[t].state != Busy && Inv(s.gates[t], s.cfg, s.now)
  }

  lemma StartGood(s: System)
    requires Start(s)
    ensures Good(s)
  {
  }

  // Headline: from any quiet system, under any interleaving, whenever a tile that was given work is in a
  // terminal state its six timing registers are what the schedule oracle derives from the declared jobs in
  // submission order.
  lemma RefinesScheduleOracle(s: System, actions: seq<Action>, t: nat)
    requires Start(s) && t < |s.gates|
    ensures Good(s)
    ensures var r := Run(s, actions);
            && |r.gates| == |s.gates| && r.cfg == s.cfg
            && (r.gates[t].state in {Done, PostFail} && (exists j :: j in r.jobs && j.tile == t) ==>
                  t in Oracle(r.jobs, r.cfg) && Oracle(r.jobs, r.cfg)[t] == r.gates[t].times)
  {
    StartGood(s);
    var r := Run(s, actions);
    if r.gates[t].state in {Done, PostFail} && exists j :: j in r.jobs && j.tile == t {
      SettledTiming(r, t);
    }
  }

  lemma SettledTiming(r: System, t: nat)
    requires Good(r) && t < |r.gates| && r.gates[t].state in {Done, PostFail}
    requires exists j :: j in r.jobs && j.tile == t
    ensures t in Oracle(r.jobs, r.cfg) && Oracle(r.jobs, r.cfg)[t] == r.gates[t].times
  {
    assert TrackOk(r, t);
    var p := r.track[t].pos;
    var o := Order(r.jobs, r.cfg);
    var waiting := Computing(r.queue);
    forall q | p < q < |o|
      ensures o[q].tile != t
    {
      if q >= |r.served| {
        assert o[q] == waiting[q - |r.served|];
        ComputingMembers(r.queue, o[q]);
        assert Armed(r, o[q]);
      }
    }
    OracleUpToAt(r.jobs, r.cfg, p, |r.jobs|);
    FreeAfterPrefix(r.served, waiting, p, r.cfg);
    FreeAfterPrefix(r.served, waiting, p + 1, r.cfg);
  }

  // Once drained, the link is idle again, so the next round may start its oracle from an idle link.
  lemma DrainedLinkIdle(s: System, actions: seq<Action>)
    requires Start(s)
    ensures Good(s)
    ensures var r := Run(s, actions);
            (forall t :: 0 <= t < |r.gates| ==> r.gates[t].state != Busy) ==>
              && r.queue == [] && r.link <= r.now
              && Start(r.(jobs := [], served := [], track := seq(|r.gates|, i => NoJob)))
  {
    StartGood(s);
    var r := Run(s, actions);
    if forall t :: 0 <= t < |r.gates| ==> r.gates[t].state != Busy {
      if r.queue != [] {
        HeadFires(r);
      }
      var next := r.(jobs := [], served := [], track := seq(|r.gates|, i => NoJob));
      assert forall t :: 0 <= t < |next.gates| ==> Inv(next.gates[t], next.cfg, next.now);
    }
  }

  // ---------------------------------------------------------------- one link for all

  // Gate t's link registers report the transfer of its latest job.
  ghost predicate Sent(r: System, t: nat)
    requires t < |r.gates|
  {
    var g := r.gates[t];
    if g.state == Busy then !g.phase.ComputeEnd?
    else g.state in {Done, PostFail} && exists j :: j in r.jobs && j.tile == t
  }

  // They are those of some place in the order of service.
  lemma SentAt(r: System, t: nat) returns (p: nat)
    requires Good(r) && t < |r.gates| && Sent(r, t)
    ensures var o := Order(r.jobs, r.cfg); var times := r.gates[t].times;
            && p < |o| && o[p].tile == t && times.computeEnd == o[p].deadline && times.linkStart == LinkStart(o, p, r.cfg)
            && times.linkEnd == LinkStart(o, p, r.cfg) + Occupancy(o[p].words, r.cfg) + r.cfg.linkNs
  {
    assert TrackOk(r, t);
    p := r.track[t].pos;
    var o, e := Order(r.jobs, r.cfg), r.served[p];
    assert o[p] == e;
    OrderMembers(r.jobs, r.cfg, e);
    FreeAfterPrefix(r.served, Computing(r.queue), p, r.cfg);
    FreeAfterPrefix(r.served, Computing(r.queue), p + 1, r.cfg);
  }

  // Whatever two endpoints report of the link after any run: their transfers do not overlap, and the one whose
  // computation was due first went first.
  lemma LinkIsShared(s: System, actions: seq<Action>, t: nat, u: nat)
    requires Start(s) && t < |s.gates| && u < |s.gates| && t != u
    ensures Good(s)
    ensures var r := Run(s, actions); var a, b := r.gates[t].times, r.gates[u].times;
            Sent(r, t) && Sent(r, u) ==>
              || (a.linkEnd - r.cfg.linkNs <= b.linkStart && a.computeEnd <= b.computeEnd)
              || (b.linkEnd - r.cfg.linkNs <= a.linkStart && b.computeEnd <= a.computeEnd)
  {
    hide Order, Occupancy, LinkStart, Start;
    StartGood(s);
    var r := Run(s, actions);
    if Sent(r, t) && Sent(r, u) {
      var p := SentAt(r, t);
      var q := SentAt(r, u);
      OrderIsStableSort(r.jobs, r.cfg);
      if p < q {
        SharedLinkDiscipline(Order(r.jobs, r.cfg), r.cfg, p, q);
      } else {
        SharedLinkDiscipline(Order(r.jobs, r.cfg), r.cfg, q, p);
      }
    }
  }

  // And a transfer starts when its computation ends, or the moment the transfer served before it does.
  lemma LinkNeverIdles(s: System, actions: seq<Action>, t: nat)
    requires Start(s) && t < |s.gates|
    ensures Good(s)
    ensures var r := Run(s, actions); var times, o := r.gates[t].times, Order(r.jobs, r.cfg);
            Sent(r, t) ==>
              || times.linkStart == times.computeEnd
              || exists p :: 0 < p < |o| && o[p].tile == t && times.computeEnd == o[p].deadline
                             && times.linkStart == LinkStart(o, p - 1, r.cfg) + Occupancy(o[p - 1].words, r.cfg)
  {
    hide Order, Occupancy, LinkStart, Start;
    StartGood(s);
    var r := Run(s, actions);
    if Sent(r, t) {
      var p := SentAt(r, t);
      var o := Order(r.jobs, r.cfg);
      if p > 0 {
        SharedLinkDiscipline(o, r.cfg, p - 1, p);
      } else {
        FirstTransfer(o, r.cfg);
      }
    }
  }

  lemma FirstTransfer(order: seq<Entry>, c: Config)
    requires order != []
    ensures LinkStart(order, 0, c) == order[0].deadline
  {
  }
}
