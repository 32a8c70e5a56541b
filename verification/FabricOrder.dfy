// Token-numbered streams on the fabric: awaiting only the largest predecessor token still respects every edge.
module FabricOrder {
  import opened Wrappers
  import opened TokenOrder
  import opened AssignTokens
  import opened CpuSchedule
  import Fabric

  // ---------------------------------------------------------------- dispatch of a numbered function

  function OrZero(t: Option<nat>): nat {
    if t.None? then 0 else t.value
  }

  // Everything that is not an emulation op shares one opcode.
  function Opcode(op: Op): nat {
    if op.Emu? then op.opcode else 253
  }

  function Dispatch(op: Op, meta: OpMeta): Cmd {
    Cmd(PtxEmulationCore, Opcode(op), OrZero(meta.tokenIn), OrZero(meta.tokenOut))
  }

  function Dispatches(ops: map<OpId, Op>, order: seq<OpId>, meta: map<OpId, OpMeta>): (r: seq<Cmd>)
    requires forall v :: v in order ==> v in ops && v in meta
    ensures |r| == |order| && forall i :: 0 <= i < |r| ==> r[i] == Dispatch(ops[order[i]], meta[order[i]])
  {
    if order == [] then []
    else
      var n := |order| - 1;
      Dispatches(ops, order[..n], meta) + [Dispatch(ops[order[n]], meta[order[n]])]
  }

  // Every op bound to the emulation core; an order naming an op the function lacks stops the dispatcher.
  method EmitDispatches(f: Function) returns (out: Option<seq<Cmd>>)
    ensures out.Some? <==> forall v :: v in f.order ==> v in f.ops && v in f.meta
    ensures out.Some? ==> out.value == Dispatches(f.ops, f.order, f.meta)
  {
    var stream: seq<Cmd> := [];
    for i := 0 to |f.order|
      invariant forall v :: v in f.order[..i] ==> v in f.ops && v in f.meta
      invariant stream == Dispatches(f.ops, f.order[..i], f.meta)
    {
      var id := f.order[i];
      if id !in f.ops || id !in f.meta {
        return None;
      }
      assert f.order[..i + 1][..i] == f.order[..i];
      stream := stream + [Dispatch(f.ops[id], f.meta[id])];
    }
    assert f.order[..|f.order|] == f.order;
    out := Some(stream);
  }

  // ---------------------------------------------------------------- token-numbered streams

  // Command i retires token i + 1, waits for one of the tokens before it, and waits never go down.
  ghost predicate TokenStream(stream: seq<Cmd>) {
    && (forall i :: 0 <= i < |stream| ==> stream[i].tokenOut == i + 1 && stream[i].tokenIn <= i)
    && (forall i, j :: 0 <= i < j < |stream| ==> stream[i].tokenIn <= stream[j].tokenIn)
  }

  // Not just the awaited token but every token up to it.
  ghost predicate UpTo(retired: set<nat>, t: nat) {
    forall x: nat :: x <= t ==> x in retired
  }

  ghost predicate InOrder(fired: seq<Cmd>) {
    forall k :: 0 <= k < |fired| ==> UpTo(Tokens(fired[..k]), fired[k].tokenIn)
  }

  ghost predicate Orderly(s: Scan) {
    s.retired == Tokens(s.fired) && InOrder(s.fired)
  }

  lemma FireOrderly(s: Scan, i: nat)
    requires Orderly(s) && i < |s.pending| && UpTo(s.retired, s.pending[i].tokenIn)
    ensures Orderly(FireAt(s, i))
  {
    var more := s.fired + [s.pending[i]];
    assert more[..|s.fired|] == s.fired;
    forall k | 0 <= k < |more|
      ensures UpTo(Tokens(more[..k]), more[k].tokenIn)
    {
      assert more[..k] == s.fired[..k];
      if k == |s.fired| {
        assert s.fired[..k] == s.fired;
      }
    }
  }

  ghost predicate Below(pending: seq<Cmd>, i: nat, limit: nat) {
    forall j :: i <= j < |pending| ==> pending[j].tokenIn <= limit
  }

  ghost predicate Offered(pending: seq<Cmd>, i: nat, t: nat) {
    exists j :: i <= j < |pending| && pending[j].tokenOut == t
  }

  lemma SwapKeeps(p: seq<Cmd>, i: nat, limit: nat)
    requires i < |p| && Below(p, i, limit)
    ensures Below(SwapRemove(p, i), i, limit) && SwapRemove(p, i)[..i] == p[..i]
    ensures forall t :: Offered(p, i, t) <==> t == p[i].tokenOut || Offered(SwapRemove(p, i), i, t)
  {
    var q, n := SwapRemove(p, i), |p| - 1;
    assert forall j :: i < j < n ==> q[j] == p[j];
    assert i < n ==> q[i] == p[n];
    forall t
      ensures Offered(p, i, t) <==> t == p[i].tokenOut || Offered(q, i, t)
    {
      if j :| i <= j < |p| && p[j].tokenOut == t {
        if i < j {
          assert q[if j == n then i else j].tokenOut == t;
        }
      }
      if j :| i <= j < |q| && q[j].tokenOut == t {
        assert p[if j == i then n else j].tokenOut == t;
      }
    }
  }

  // Once all tokens up to a limit are out, a pass fires everything ahead of it that waits for no more.
  lemma {:induction false} Flood(s: Scan, i: nat, limit: nat)
    requires Orderly(s) && i <= |s.pending| && UpTo(s.retired, limit) && Below(s.pending, i, limit)
    ensures var t := ScanFrom(s, i);
            && Orderly(t) && t.pending == s.pending[..i]
            && forall x :: x in t.retired <==> x in s.retired || Offered(s.pending, i, x)
    decreases |s.pending|
  {
    if i < |s.pending| {
      FireOrderly(s, i);
      SwapKeeps(s.pending, i, limit);
      Flood(FireAt(s, i), i, limit);
    }
  }

  // The commands from m on, last first.
  function Desc(stream: seq<Cmd>, m: nat): (d: seq<Cmd>)
    requires m <= |stream|
    ensures |d| == |stream| - m && forall i :: 0 <= i < |d| ==> d[i] == stream[|stream| - 1 - i]
  {
    seq(|stream| - m, i requires 0 <= i < |stream| - m => stream[|stream| - 1 - i])
  }

  // Exactly the first m commands are done and the rest wait in reverse.
  ghost predicate Settled(stream: seq<Cmd>, s: Scan, m: nat) {
    && m <= |stream| && Orderly(s) && s.pending == Desc(stream, m)
    && forall x: nat :: x in s.retired <==> x <= m
  }

  // A later pass skips down to the first command it can fire and takes all below it.
  lemma {:induction false} NextPass(stream: seq<Cmd>, s: Scan, m: nat, i: nat) returns (m': nat)
    requires TokenStream(stream) && Settled(stream, s, m) && i < |s.pending|
    ensures m < m' && Settled(stream, ScanFrom(s, i), m')
    decreases |s.pending| - i
  {
    var r := |stream| - 1 - i;
    if s.pending[i].tokenIn !in s.retired {
      assert r > m;
      m' := NextPass(stream, s, m, i + 1);
    } else {
      m' := r + 1;
      Flood(s, i, m);
      assert s.pending[..i] == Desc(stream, m');
      forall x: nat
        ensures x in ScanFrom(s, i).retired <==> x <= m'
      {
        if m < x <= m' {
          assert s.pending[|stream| - x].tokenOut == x;
        }
      }
    }
  }

  // During the first pass: commands below l done, from r on skipped in reverse, the others still in order.
  ghost predicate FirstPass(stream: seq<Cmd>, s: Scan, l: nat, r: nat) {
    && l <= r <= |stream| && Orderly(s) && s.pending == Desc(stream, r) + stream[l..r]
    && forall x: nat :: x in s.retired <==> x <= l
  }

  // Swap-removal at the end of a prefix d followed by more.
  lemma SwapAfter(d: seq<Cmd>, a: seq<Cmd>)
    requires a != []
    ensures (d + a)[|d|] == a[0]
    ensures SwapRemove(d + a, |d|) == d + if |a| == 1 then [] else [a[|a| - 1]] + a[1..|a| - 1]
  {
    var p, n := d + a, |d + a| - 1;
    assert p[..|d|] == d;
    if |a| > 1 {
      assert p[n] == a[|a| - 1];
      assert p[|d| + 1..n] == a[1..|a| - 1];
    }
  }

  lemma SliceMiddle(stream: seq<Cmd>, l: nat, r: nat)
    requires l + 1 < r <= |stream|
    ensures stream[l..r][1..r - l - 1] == stream[l + 1..r - 1] && stream[l..r][r - l - 1] == stream[r - 1]
  {
    var a, b := stream[l..r][1..r - l - 1], stream[l + 1..r - 1];
    assert forall k :: 0 <= k < r - l - 2 ==> a[k] == stream[l..r][k + 1] == b[k];
  }

  lemma FirstFire(stream: seq<Cmd>, s: Scan, l: nat, r: nat)
    requires TokenStream(stream) && FirstPass(stream, s, l, r) && l < r
    ensures var i := |stream| - r; var t := FireAt(s, i);
            && ScanFrom(s, i) == ScanFrom(t, i) && Orderly(t) && (forall x: nat :: x in t.retired <==> x <= l + 1)
            && t.pending == Desc(stream, r) + if l + 1 == r then [] else [stream[r - 1]] + stream[l + 1..r - 1]
  {
    SwapAfter(Desc(stream, r), stream[l..r]);
    if l + 1 < r {
      SliceMiddle(stream, l, r);
    }
    FireOrderly(s, |stream| - r);
  }

  lemma FirstSkip(stream: seq<Cmd>, t: Scan, l: nat, r: nat)
    requires l < r <= |stream| && Orderly(t) && (forall x: nat :: x in t.retired <==> x <= l)
    requires t.pending == Desc(stream, r) + ([stream[r - 1]] + stream[l..r - 1]) && stream[r - 1].tokenIn > l
    ensures FirstPass(stream, t, l, r - 1)
    ensures ScanFrom(t, |stream| - r) == ScanFrom(t, |stream| - r + 1)
  {
    assert Desc(stream, r - 1) == Desc(stream, r) + [stream[r - 1]];
    assert t.pending[|stream| - r] == stream[r - 1];
  }

  // In the queue d, then command r - 1, then commands l to r - 2, all from |d| on may fire once l tokens are out.
  lemma RestOffered(stream: seq<Cmd>, d: seq<Cmd>, l: nat, r: nat)
    requires TokenStream(stream) && l < r <= |stream| && stream[r - 1].tokenIn <= l
    ensures var p := d + ([stream[r - 1]] + stream[l..r - 1]);
            Below(p, |d|, l) && forall x: nat :: Offered(p, |d|, x) <==> l < x <= r
  {
    var a := [stream[r - 1]] + stream[l..r - 1];
    var p := d + a;
    forall j | |d| <= j < |p|
      ensures p[j].tokenIn <= l && l < p[j].tokenOut <= r
    {
      assert p[j] == a[j - |d|];
      assert p[j] == stream[r - 1] || p[j] == stream[l + j - |d| - 1];
    }
    forall x: nat | l < x <= r
      ensures Offered(p, |d|, x)
    {
      var k := if x == r then 0 else x - l;
      assert a[k] == stream[x - 1];
      assert p[|d| + k].tokenOut == x;
    }
  }

  lemma FirstFlood(stream: seq<Cmd>, t: Scan, l: nat, r: nat)
    requires TokenStream(stream) && l < r <= |stream| && Orderly(t) && (forall x: nat :: x in t.retired <==> x <= l)
    requires t.pending == Desc(stream, r) + ([stream[r - 1]] + stream[l..r - 1]) && stream[r - 1].tokenIn <= l
    ensures Settled(stream, ScanFrom(t, |stream| - r), r)
  {
    var d := Desc(stream, r);
    RestOffered(stream, d, l, r);
    FloodPrefix(t, d, l, r);
  }

  lemma FloodPrefix(t: Scan, d: seq<Cmd>, l: nat, r: nat)
    requires l <= r && Orderly(t) && (forall x: nat :: x in t.retired <==> x <= l)
    requires d <= t.pending && Below(t.pending, |d|, l)
    requires forall x: nat :: Offered(t.pending, |d|, x) <==> l < x <= r
    ensures var u := ScanFrom(t, |d|);
            Orderly(u) && u.pending == d && forall x: nat :: x in u.retired <==> x <= r
  {
    Flood(t, |d|, l);
    forall x: nat
      ensures x in ScanFrom(t, |d|).retired <==> x <= r
    {
      assert x in ScanFrom(t, |d|).retired <==> x in t.retired || Offered(t.pending, |d|, x);
    }
  }

  // The first pass alternately fires the lowest remaining command and skips the highest, until one of the
  // highest can fire; then everything between goes.
  lemma {:induction false} FirstPassSettles(stream: seq<Cmd>, s: Scan, l: nat, r: nat) returns (m: nat)
    requires TokenStream(stream) && FirstPass(stream, s, l, r)
    ensures l <= m && (l < r ==> l < m) && Settled(stream, ScanFrom(s, |stream| - r), m)
    decreases r - l, 1
  {
    var i := |stream| - r;
    if l == r {
      m := l;
      assert s.pending == Desc(stream, r);
      return;
    }
    var t := FireAt(s, i);
    FirstFire(stream, s, l, r);
    if l + 1 == r {
      m := r;
      assert t.pending == Desc(stream, r);
    } else if stream[r - 1].tokenIn <= l + 1 {
      m := r;
      FirstFlood(stream, t, l + 1, r);
    } else {
      m := FirstSettlesAfterSkip(stream, t, l + 1, r);
    }
  }

  lemma {:induction false} FirstSettlesAfterSkip(stream: seq<Cmd>, t: Scan, l: nat, r: nat) returns (m: nat)
    requires TokenStream(stream) && l < r <= |stream| && Orderly(t) && (forall x: nat :: x in t.retired <==> x <= l)
    requires t.pending == Desc(stream, r) + ([stream[r - 1]] + stream[l..r - 1]) && stream[r - 1].tokenIn > l
    ensures l <= m && Settled(stream, ScanFrom(t, |stream| - r), m)
    decreases r - l, 0
  {
    FirstSkip(stream, t, l, r);
    m := FirstPassSettles(stream, t, l, r - 1);
  }

  lemma {:induction false} LaterPasses(stream: seq<Cmd>, s: Scan, m: nat)
    requires TokenStream(stream) && Settled(stream, s, m) && m < |stream|
    ensures var t := RunPasses(s); t.pending == [] && Orderly(t)
    decreases |stream| - m
  {
    var m' := NextPass(stream, s, m, 0);
    if m' < |stream| {
      LaterPasses(stream, ScanFrom(s, 0), m');
    }
  }

  // A token-numbered CPU stream never gets stuck: every command fires, exactly once, with every token up to its
  // own token_in already retired, at the total cost of the stream.
  lemma NumberedStreamCompletes(stream: seq<Cmd>)
    requires TokenStream(stream)
    ensures var r := RunCpu(stream);
            && r.pending == [] && multiset(r.fired) == multiset(stream) && InOrder(r.fired)
            && TotalCost(r.fired) == TotalCost(stream)
  {
    var s := Start(stream);
    PassesSound(stream, s);
    assert s.pending == Desc(stream, |stream|) + stream[0..|stream|];
    var m := FirstPassSettles(stream, s, 0, |stream|);
    if 0 < m < |stream| {
      LaterPasses(stream, ScanFrom(s, 0), m);
    }
    CostByMultiset(RunCpu(stream).fired, stream);
  }

  // ---------------------------------------------------------------- from the graph to the run

  // A Kahn order of everything the sort sees that names declared ops only.
  ghost predicate Dispatchable(ops: map<OpId, Op>, edges: seq<Edge>, order: seq<OpId>) {
    KahnOrder(Nodes(ops, edges), edges, order) && forall v :: v in order ==> v in ops
  }

  lemma OrderCovered(ops: map<OpId, Op>, edges: seq<Edge>, order: seq<OpId>, meta: map<OpId, OpMeta>)
    ensures forall v :: v in order ==> v in Renumber(edges, order, |order|, meta)
  {
    forall v | v in order
      ensures v in Renumber(edges, order, |order|, meta)
    {
      var i :| 0 <= i < |order| && order[i] == v;
    }
  }

  // What the dispatcher emits for a function numbered along such an order.
  function StreamOf(ops: map<OpId, Op>, edges: seq<Edge>, order: seq<OpId>, meta: map<OpId, OpMeta>): (stream: seq<Cmd>)
    requires Dispatchable(ops, edges, order)
    ensures |stream| == |order|
  {
    OrderCovered(ops, edges, order, meta);
    Dispatches(ops, order, Renumber(edges, order, |order|, meta))
  }

  // It waits only on earlier tokens, and never on an earlier one than the command before.
  lemma NumberedOrderIsTokenStream(ops: map<OpId, Op>, edges: seq<Edge>, order: seq<OpId>, meta: map<OpId, OpMeta>)
    requires Dispatchable(ops, edges, order)
    ensures TokenStream(StreamOf(ops, edges, order, meta))
  {
    var all := Renumber(edges, order, |order|, meta);
    forall i | 0 <= i < |order|
      ensures all[order[i]] == OpMeta(Some(TokenIn(edges, order, order[i])), Some(i + 1))
      ensures TokenIn(edges, order, order[i]) <= i
    {
      RenumberAt(edges, order, |order|, meta, i);
      assert Ready(edges, order[..i], order[i]);
      PrefixPos(edges, order, i, order[i]);
    }
  }

  datatype CompileError = TokenGraphCycle(left: set<OpId>) | MissingOp

  // Every declared op is listed, and nothing else.
  ghost predicate Compiles(ops: map<OpId, Op>, edges: seq<Edge>) {
    var nodes := Nodes(ops, edges);
    Extra(ops.Keys, nodes, edges) == {} && Lost(ops.Keys, nodes, edges) == {}
  }

  // Token numbering followed by dispatch. Refused when the undeclared ids that get listed are not as many as the
  // declared ops left out, stopped in the dispatcher when they are but there are some, and otherwise a numbered
  // stream; with known endpoints, refused exactly on a cyclic graph.
  method Compile(f: Function) returns (r: Result<seq<Cmd>, CompileError>, ghost listed: seq<OpId>)
    modifies f`order, f`meta
    ensures Lists(f.ops, f.edges, listed)
    ensures r.Err? && r.error.TokenGraphCycle? <==> !Accepted(f.ops, f.edges)
    ensures r.Ok? <==> Compiles(f.ops, f.edges)
    ensures r.Ok? ==> Dispatchable(f.ops, f.edges, listed) && f.ops.Keys == set v | v in listed
    ensures r.Ok? ==> TokenStream(r.value) && r.value == StreamOf(f.ops, f.edges, listed, old(f.meta))
    ensures r.Err? && r.error.TokenGraphCycle? ==> r.error.left == Lost(f.ops.Keys, Nodes(f.ops, f.edges), f.edges)
    ensures Known(f.ops.Keys, f.edges) ==> (r.Ok? <==> Acyclic(f.edges)) && r != Err(MissingOp)
  {
    hide KahnOrder, TokenStream, Renumber, Trapped, Acyclic;
    var outcome;
    outcome, listed := AssignTokens.Run(f);
    WhatIsListed(f.ops, f.edges, listed);
    if outcome.TokenGraphCycle? {
      return Err(CompileError.TokenGraphCycle(outcome.cycle)), listed;
    }
    OrderCovered(f.ops, f.edges, listed, old(f.meta));
    var stream := EmitDispatches(f);
    if stream.None? {
      return Err(MissingOp), listed;
    }
    NumberedOrderIsTokenStream(f.ops, f.edges, listed, old(f.meta));
    r := Ok(stream.value);
  }

  lemma WhatIsListed(ops: map<OpId, Op>, edges: seq<Edge>, listed: seq<OpId>)
    requires Lists(ops, edges, listed)
    ensures Compiles(ops, edges) ==> Accepted(ops, edges)
    ensures Accepted(ops, edges) ==> (Compiles(ops, edges) <==> forall v :: v in listed ==> v in ops)
    ensures Compiles(ops, edges) ==> ops.Keys == set v | v in listed
    ensures Known(ops.Keys, edges) ==> Extra(ops.Keys, Nodes(ops, edges), edges) == {}
  {
    hide KahnOrder, TokenOrder.Blocked;
    var nodes := Nodes(ops, edges);
    var extra := Extra(ops.Keys, nodes, edges);
    assert forall v :: v in extra <==> v in listed && v !in ops;
    assert extra == {} <==> |extra| == 0;
  }

  // Token t is retired before token u.
  ghost predicate Precedes(fired: seq<Cmd>, t: nat, u: nat) {
    exists j, k :: 0 <= j < k < |fired| && fired[j].tokenOut == t && fired[k].tokenOut == u
  }

  lemma PrecedesFrom(fired: seq<Cmd>, k: nat, t: nat)
    requires InOrder(fired) && k < |fired| && 0 < t <= fired[k].tokenIn
    ensures Precedes(fired, t, fired[k].tokenOut)
  {
    TokensMembers(fired[..k], t);
    var j :| 0 <= j < k && fired[..k][j].tokenOut == t;
    assert fired[j].tokenOut == t;
  }

  // Every edge of the graph is respected by the run, although only one token per command is ever tested.
  lemma EveryEdgeIsRespected(ops: map<OpId, Op>, edges: seq<Edge>, order: seq<OpId>, meta: map<OpId, OpMeta>, e: Edge)
    requires Dispatchable(ops, edges, order)
    requires e in edges && e.to in order
    ensures var stream := StreamOf(ops, edges, order, meta);
            && RunCpu(stream).pending == []
            && Precedes(RunCpu(stream).fired, Pos(order, e.from), Pos(order, e.to))
  {
    hide KahnOrder, StreamOf, TokenStream, Precedes, RunCpu;
    NumberedOrderIsTokenStream(ops, edges, order, meta);
    EdgeTokens(ops, edges, order, meta, e);
    StreamRespects(StreamOf(ops, edges, order, meta), Pos(order, e.to) - 1, Pos(order, e.from));
  }

  // A numbered stream's run retires every token up to a command's token_in before that command.
  lemma StreamRespects(stream: seq<Cmd>, p: nat, t: nat)
    requires TokenStream(stream) && p < |stream| && 0 < t <= stream[p].tokenIn
    ensures RunCpu(stream).pending == [] && Precedes(RunCpu(stream).fired, t, stream[p].tokenOut)
  {
    hide TokenStream, Precedes, RunCpu;
    NumberedStreamCompletes(stream);
    FiredSomewhere(stream, RunCpu(stream).fired, p, t);
  }

  lemma EdgeTokens(ops: map<OpId, Op>, edges: seq<Edge>, order: seq<OpId>, meta: map<OpId, OpMeta>, e: Edge)
    requires Dispatchable(ops, edges, order)
    requires e in edges && e.to in order
    ensures var c := StreamOf(ops, edges, order, meta)[Pos(order, e.to) - 1];
            c.tokenOut == Pos(order, e.to) && 0 < Pos(order, e.from) <= c.tokenIn
  {
    var p := Pos(order, e.to) - 1;
    RenumberAt(edges, order, |order|, meta, p);
    TokenInBounds(edges, order, e.to);
    assert Ready(edges, order[..p], order[p]);
  }

  lemma FiredSomewhere(stream: seq<Cmd>, fired: seq<Cmd>, p: nat, t: nat)
    requires multiset(fired) == multiset(stream) && InOrder(fired) && p < |stream| && 0 < t <= stream[p].tokenIn
    ensures Precedes(fired, t, stream[p].tokenOut)
  {
    assert stream[p] in multiset(stream);
    assert stream[p] in fired;
    var k :| 0 <= k < |fired| && fired[k] == stream[p];
    PrecedesFrom(fired, k, t);
  }

  // A kernel whose ops all go to the emulation core: it runs exactly when the sort lists every declared op and no
  // undeclared one, and then completes every op, at the summed cost of the ops, and retires each after all its
  // predecessors. With known endpoints that is every acyclic kernel.
  method CompileAndRun(f: Function, fabric: Fabric.Fabric, done: nat -> bool)
    returns (r: Result<Result<Fabric.RunReport, Fabric.FabricError>, CompileError>, ghost listed: seq<OpId>,
             ghost log: seq<Cmd>)
    modifies f`order, f`meta, fabric`ips
    ensures r.Ok? <==> Compiles(f.ops, f.edges)
    ensures Known(f.ops.Keys, f.edges) ==> (r.Ok? <==> Acyclic(f.edges))
    ensures r.Ok? ==> r.value.Ok? && r.value.value.completions == |f.ops| == |listed| == |log|
    ensures r.Ok? ==> r.value.value.totalCycles == TotalCost(log)
    ensures r.Ok? ==> forall v :: v in f.ops.Keys <==> v in listed
    ensures r.Ok? ==> forall e :: e in f.edges && e.to in f.ops ==> Precedes(log, Pos(listed, e.from), Pos(listed, e.to))
  {
    hide Acyclic, Compiles, Accepted;
    var stream;
    stream, listed := Compile(f);
    log := [];
    if stream.Err? {
      r := Err(stream.error);
      return;
    }
    AsManyAsOps(f.ops, f.edges, listed);
    NumberedStreamCompletes(stream.value);
    ghost var meta := old(f.meta);
    forall e | e in f.edges && e.to in f.ops
      ensures Precedes(RunCpu(stream.value).fired, Pos(listed, e.from), Pos(listed, e.to))
    {
      EveryEdgeIsRespected(f.ops, f.edges, listed, meta, e);
    }
    OrderCovered(f.ops, f.edges, listed, meta);
    DispatchesAreCpu(stream.value, f.ops, listed, Renumber(f.edges, listed, |listed|, meta));
    var report;
    report, log := fabric.Run(stream.value, done);
    SameSize(log, stream.value);
    r := Ok(report);
  }

  lemma AsManyAsOps(ops: map<OpId, Op>, edges: seq<Edge>, order: seq<OpId>)
    requires Dispatchable(ops, edges, order) && ops.Keys == set v | v in order
    ensures |order| == |ops|
  {
    Listing(order, ops.Keys);
  }

  lemma DispatchesAreCpu(stream: seq<Cmd>, ops: map<OpId, Op>, order: seq<OpId>, meta: map<OpId, OpMeta>)
    requires forall v :: v in order ==> v in ops && v in meta
    requires stream == Dispatches(ops, order, meta)
    ensures Fabric.AllCpu(stream)
  {
  }

  lemma SameSize(a: seq<Cmd>, b: seq<Cmd>)
    ensures multiset(a) == multiset(b) ==> |a| == |b|
  {
    assert |multiset(a)| == |a| && |multiset(b)| == |b|;
  }
}
