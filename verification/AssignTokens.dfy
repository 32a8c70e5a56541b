// The token-assignment pass: Kahn's sort with an in-degree map and a FIFO queue, then one token per listed op.
module AssignTokens {
  import opened Wrappers
  import opened TokenOrder

  // An emulation op carries its own opcode; anything else is bound to the catch-all.
  datatype Op = Emu(opcode: nat) | Other

  datatype OpMeta = OpMeta(tokenIn: Option<nat>, tokenOut: Option<nat>)

  datatype Outcome = Assigned | TokenGraphCycle(cycle: set<OpId>)

  class Function {
    var ops: map<OpId, Op>
    var edges: seq<Edge>
    var meta: map<OpId, OpMeta>
    var order: seq<OpId>

    constructor (ops: map<OpId, Op>, edges: seq<Edge>)
      ensures this.ops == ops && this.edges == edges && this.meta == map[] && this.order == []
    {
      this.ops, this.edges, meta, order := ops, edges, map[], [];
    }
  }

  function Dsts(edges: seq<Edge>): set<OpId> {
    set e | e in edges :: e.to
  }

  // ---------------------------------------------------------------- sorting ids

  function InsertId(s: seq<OpId>, x: OpId): (r: seq<OpId>)
    ensures multiset(r) == multiset(s) + multiset{x}
  {
    if s == [] then [x]
    else
      var n := |s| - 1;
      assert s == s[..n] + [s[n]];
      if s[n] <= x then s + [x] else InsertId(s[..n], x) + [s[n]]
  }

  function SortIds(s: seq<OpId>): (r: seq<OpId>)
    ensures multiset(r) == multiset(s)
  {
    if s == [] then []
    else
      var n := |s| - 1;
      assert s == s[..n] + [s[n]];
      InsertId(SortIds(s[..n]), s[n])
  }

  ghost predicate Ascending(s: seq<OpId>) {
    forall i, j :: 0 <= i < j < |s| ==> s[i] <= s[j]
  }

  lemma {:induction false} InsertIdAscending(s: seq<OpId>, x: OpId)
    requires Ascending(s)
    ensures Ascending(InsertId(s, x))
  {
    if s != [] {
      var n := |s| - 1;
      if x < s[n] {
        InsertIdAscending(s[..n], x);
        InsertIdBelow(s[..n], x, s[n]);
        AppendAscending(InsertId(s[..n], x), s[n]);
      } else {
        AppendAscending(s, x);
      }
    }
  }

  lemma AppendAscending(s: seq<OpId>, x: OpId)
    requires Ascending(s) && forall y :: y in s ==> y <= x
    ensures Ascending(s + [x])
  {
    var t := s + [x];
    forall i, j | 0 <= i < j < |t|
      ensures t[i] <= t[j]
    {
      assert s[i] in s;
    }
  }

  lemma InsertIdBelow(s: seq<OpId>, x: OpId, top: OpId)
    requires x <= top && forall y :: y in s ==> y <= top
    ensures forall y :: y in InsertId(s, x) ==> y <= top
  {
    forall y | y in InsertId(s, x)
      ensures y <= top
    {
      assert y in multiset(InsertId(s, x));
      assert y == x || y in s;
    }
  }

  lemma {:induction false} SortIdsAscending(s: seq<OpId>)
    ensures Ascending(SortIds(s))
  {
    if s != [] {
      SortIdsAscending(s[..|s| - 1]);
      InsertIdAscending(SortIds(s[..|s| - 1]), s[|s| - 1]);
    }
  }

  lemma SameMembers(a: seq<OpId>, b: seq<OpId>)
    requires multiset(a) == multiset(b)
    ensures forall x :: x in a <==> x in b
  {
    forall x
      ensures x in a <==> x in b
    {
      assert x in a <==> x in multiset(a);
      assert x in b <==> x in multiset(b);
    }
  }

  // ---------------------------------------------------------------- the sort's invariant

  ghost predicate KahnState(nodes: set<OpId>, edges: seq<Edge>, topo: seq<OpId>, queue: seq<OpId>) {
    var s := topo + queue;
    && NoDup(s) && (forall v :: v in s ==> v in nodes)
    && Grounded(edges, topo) && (forall v :: v in queue ==> Ready(edges, topo, v))
    && (forall i, j :: 0 <= i < j < |s| ==> Lex(TokenIn(edges, topo, s[i]), s[i], TokenIn(edges, topo, s[j]), s[j]))
    && (forall v :: v in nodes && Ready(edges, topo, v) ==> v in s)
  }

  ghost predicate StrictlyAscending(s: seq<OpId>) {
    forall i, j :: 0 <= i < j < |s| ==> s[i] < s[j]
  }

  // A node's sources all lie in topo once it is in topo or queued.
  lemma SourcesListed(nodes: set<OpId>, edges: seq<Edge>, topo: seq<OpId>, queue: seq<OpId>, v: OpId)
    requires KahnState(nodes, edges, topo, queue) && v in topo + queue
    ensures Ready(edges, topo, v)
  {
    if v in topo {
      var i :| 0 <= i < |topo| && topo[i] == v;
      assert Ready(edges, topo[..i], v);
      assert forall x :: x in topo[..i] ==> x in topo;
    }
  }

  // What listing id makes ready, in id order.
  ghost predicate Pushes(nodes: set<OpId>, edges: seq<Edge>, topo: seq<OpId>, queue: seq<OpId>, pushes: seq<OpId>)
    requires queue != []
  {
    && StrictlyAscending(pushes)
    && forall v :: v in pushes <==> v in nodes && v !in topo + queue && Ready(edges, topo + [queue[0]], v)
  }

  // Tokens in stay put for what is queued and equal the new token for what is pushed.
  lemma StepTokens(nodes: set<OpId>, edges: seq<Edge>, topo: seq<OpId>, queue: seq<OpId>, pushes: seq<OpId>, v: OpId)
    requires KahnState(nodes, edges, topo, queue) && queue != [] && Pushes(nodes, edges, topo, queue, pushes)
    requires v in topo + queue || v in pushes
    ensures var topo' := topo + [queue[0]];
            && Ready(edges, topo', v)
            && (v in topo + queue ==> TokenIn(edges, topo', v) == TokenIn(edges, topo, v) <= |topo|)
            && (v in pushes ==> TokenIn(edges, topo', v) == |topo'|)
  {
    hide TokenIn, Grounded, Pos, Lex;
    var topo' := topo + [queue[0]];
    assert topo' == (topo + queue)[..|topo'|];
    assert topo'[..|topo|] == topo;
    if v in topo + queue {
      SourcesListed(nodes, edges, topo, queue, v);
      PrefixPos(edges, topo', |topo|, v);
    } else {
      TokenInBounds(edges, topo', v);
      assert !Ready(edges, topo, v);
      var e :| e in edges && e.to == v && e.from !in topo;
      assert e.from in topo';
      PosUnique(topo', |topo|);
    }
  }

  // Listing the head of the queue and queueing, in id order, what it makes ready.
  lemma KahnStep(nodes: set<OpId>, edges: seq<Edge>, topo: seq<OpId>, queue: seq<OpId>, pushes: seq<OpId>)
    requires KahnState(nodes, edges, topo, queue) && queue != [] && Pushes(nodes, edges, topo, queue, pushes)
    ensures KahnState(nodes, edges, topo + [queue[0]], queue[1..] + pushes)
  {
    var topo', queue' := topo + [queue[0]], queue[1..] + pushes;
    var s, s' := topo + queue, topo' + queue';
    assert s' == s + pushes;
    forall v | v in s'
      ensures v in nodes && Ready(edges, topo', v)
    {
      assert v in s || v in pushes;
      StepTokens(nodes, edges, topo, queue, pushes, v);
    }
    forall i, j | 0 <= i < j < |s'|
      ensures Lex(TokenIn(edges, topo', s'[i]), s'[i], TokenIn(edges, topo', s'[j]), s'[j]) && s'[i] != s'[j]
    {
      StepTokens(nodes, edges, topo, queue, pushes, s'[i]);
      StepTokens(nodes, edges, topo, queue, pushes, s'[j]);
      StepLex(edges, topo', s, pushes, i, j);
    }
    StepGrounded(nodes, edges, topo, queue);
  }

  lemma StepLex(edges: seq<Edge>, topo': seq<OpId>, s: seq<OpId>, pushes: seq<OpId>, i: nat, j: nat)
    requires i < j < |s + pushes| && StrictlyAscending(pushes) && topo' != []
    requires j < |s| ==> Lex(TokenIn(edges, topo', s[i]), s[i], TokenIn(edges, topo', s[j]), s[j])
    requires i < |s| <= j ==> TokenIn(edges, topo', s[i]) < |topo'|
    requires i >= |s| ==> TokenIn(edges, topo', pushes[i - |s|]) == |topo'|
    requires j >= |s| ==> TokenIn(edges, topo', pushes[j - |s|]) == |topo'|
    ensures var t := s + pushes; Lex(TokenIn(edges, topo', t[i]), t[i], TokenIn(edges, topo', t[j]), t[j])
  {
  }

  lemma StepGrounded(nodes: set<OpId>, edges: seq<Edge>, topo: seq<OpId>, queue: seq<OpId>)
    requires KahnState(nodes, edges, topo, queue) && queue != []
    ensures Grounded(edges, topo + [queue[0]])
  {
    var topo' := topo + [queue[0]];
    forall i | 0 <= i < |topo'|
      ensures Ready(edges, topo'[..i], topo'[i])
    {
      assert topo'[..i] == topo[..i];
      if i == |topo| {
        assert topo[..i] == topo;
      }
    }
  }

  lemma KahnDone(nodes: set<OpId>, edges: seq<Edge>, topo: seq<OpId>)
    requires KahnState(nodes, edges, topo, [])
    ensures KahnOrder(nodes, edges, topo)
  {
    assert topo + [] == topo;
  }

  // The ids whose remaining in-degree is zero, sorted: the initial queue.
  lemma KahnStart(nodes: set<OpId>, edges: seq<Edge>, queue: seq<OpId>)
    requires StrictlyAscending(queue)
    requires forall v :: v in queue <==> v in nodes && Ready(edges, [], v)
    ensures KahnState(nodes, edges, [], queue)
  {
    hide TokenIn, Pos, HasEdge, Ready;
    var none: seq<OpId> := [];
    assert none + queue == queue;
    assert Grounded(edges, none);
    forall i, j | 0 <= i < j < |queue|
      ensures Lex(TokenIn(edges, none, queue[i]), queue[i], TokenIn(edges, none, queue[j]), queue[j])
    {
    }
  }

  // ---------------------------------------------------------------- the pass

  function Nodes(ops: map<OpId, Op>, edges: seq<Edge>): set<OpId> {
    ops.Keys + Dsts(edges)
  }

  lemma DstsGrow(edges: seq<Edge>, i: nat)
    requires i < |edges|
    ensures Dsts(edges[..i + 1]) == Dsts(edges[..i]) + {edges[i].to}
  {
    assert edges[..i + 1] == edges[..i] + [edges[i]];
    forall v
      ensures v in Dsts(edges[..i + 1]) <==> v in Dsts(edges[..i]) || v == edges[i].to
    {
      if v in Dsts(edges[..i + 1]) {
        var e :| e in edges[..i + 1] && e.to == v;
        assert e in edges[..i] || e == edges[i];
      }
      if v in Dsts(edges[..i]) {
        var e :| e in edges[..i] && e.to == v;
        assert e in edges[..i + 1];
      }
      assert edges[i] in edges[..i + 1];
    }
  }

  function Lookup(adj: map<OpId, seq<OpId>>, u: OpId): seq<OpId> {
    if u in adj then adj[u] else []
  }

  ghost predicate GraphOf(ops: map<OpId, Op>, edges: seq<Edge>, indeg: map<OpId, nat>, adj: map<OpId, seq<OpId>>) {
    && indeg.Keys == Nodes(ops, edges)
    && (forall v :: (if v in indeg then indeg[v] else 0) == Pending(edges, v, {}))
    && (forall u :: Lookup(adj, u) == Targets(edges, u))
  }

  lemma GraphStep(ops: map<OpId, Op>, edges: seq<Edge>, i: nat, indeg: map<OpId, nat>, adj: map<OpId, seq<OpId>>)
    requires i < |edges| && GraphOf(ops, edges[..i], indeg, adj)
    ensures var e := edges[i];
            GraphOf(ops, edges[..i + 1], indeg[e.to := (if e.to in indeg then indeg[e.to] else 0) + 1],
                    adj[e.from := Lookup(adj, e.from) + [e.to]])
  {
    hide Dsts;
    DstsGrow(edges, i);
    var more := edges[..i + 1];
    assert more[..i] == edges[..i] && more[i] == edges[i];
    forall u
      ensures Targets(more, u) == if edges[i].from == u then Targets(edges[..i], u) + [edges[i].to]
                                  else Targets(edges[..i], u)
      ensures Pending(more, u, {}) == Pending(edges[..i], u, {}) + if edges[i].to == u then 1 else 0
    {
    }
  }

  // Adjacency lists and in-degrees, one entry per edge.
  method BuildGraph(ops: map<OpId, Op>, edges: seq<Edge>)
    returns (indeg: map<OpId, nat>, adj: map<OpId, seq<OpId>>)
    ensures GraphOf(ops, edges, indeg, adj)
  {
    indeg := map k | k in ops.Keys :: 0;
    adj := map[];
    for i := 0 to |edges|
      invariant GraphOf(ops, edges[..i], indeg, adj)
    {
      var e := edges[i];
      GraphStep(ops, edges, i, indeg, adj);
      adj := adj[e.from := Lookup(adj, e.from) + [e.to]];
      indeg := indeg[e.to := (if e.to in indeg then indeg[e.to] else 0) + 1];
    }
    assert edges[..|edges|] == edges;
  }

  // The zero-in-degree ids in whatever order the map yields them.
  method CollectReady(indeg: map<OpId, nat>) returns (ready: seq<OpId>)
    ensures NoDup(ready)
    ensures forall v :: v in ready <==> v in indeg && indeg[v] == 0
  {
    ready := [];
    var rest := set v | v in indeg.Keys && indeg[v] == 0;
    while rest != {}
      invariant NoDup(ready)
      invariant forall v :: v in ready ==> v !in rest
      invariant forall v :: v in ready || v in rest <==> v in indeg && indeg[v] == 0
      decreases rest
    {
      var v :| v in rest;
      ready, rest := ready + [v], rest - {v};
    }
  }

  lemma SortedReady(ready: seq<OpId>)
    requires NoDup(ready)
    ensures StrictlyAscending(SortIds(ready))
    ensures forall v :: v in SortIds(ready) <==> v in ready
  {
    SortIdsAscending(ready);
    SameMembers(SortIds(ready), ready);
    MultiplicityOne(ready);
    var r := SortIds(ready);
    forall i, j | 0 <= i < j < |r|
      ensures r[i] < r[j]
    {
      if r[i] == r[j] {
        TwoPlaces(r, i, j);
      }
    }
  }

  lemma TwoPlaces(r: seq<OpId>, i: nat, j: nat)
    requires i < j < |r| && r[i] == r[j]
    ensures multiset(r)[r[j]] >= 2
  {
    assert r == r[..j] + r[j..];
    assert r[..j][i] in r[..j] && r[j..][0] in r[j..];
  }

  lemma {:induction false} MultiplicityOne(s: seq<OpId>)
    requires NoDup(s)
    ensures forall x :: multiset(s)[x] <= 1
  {
    if s != [] {
      var n := |s| - 1;
      MultiplicityOne(s[..n]);
      PrefixFresh(s, n);
      assert s == s[..n] + [s[n]];
    }
  }

  lemma PendingReady(edges: seq<Edge>, topo: seq<OpId>, visited: set<OpId>, v: OpId)
    requires forall x :: x in visited <==> x in topo
    ensures Pending(edges, v, visited) == 0 <==> Ready(edges, topo, v)
  {
    PendingZero(edges, v, visited);
  }

  // After the first j successors: what remains of each in-degree, and who has reached zero.
  ghost predicate Releasing(nodes: set<OpId>, edges: seq<Edge>, now: set<OpId>, succ: seq<OpId>, j: nat,
                            indeg: map<OpId, nat>, pushes: seq<OpId>)
    requires j <= |succ|
  {
    && indeg.Keys == nodes && StrictlyAscending(pushes)
    && (forall v :: v in nodes ==> indeg[v] == Pending(edges, v, now) + multiset(succ[j..])[v])
    && (forall v :: v in pushes <==> v in succ[..j] && v !in succ[j..] && Pending(edges, v, now) == 0)
  }

  lemma ReleaseStep(nodes: set<OpId>, edges: seq<Edge>, now: set<OpId>, succ: seq<OpId>, j: nat,
                    indeg: map<OpId, nat>, pushes: seq<OpId>)
    requires j < |succ| && Ascending(succ) && succ[j] in nodes
    requires Releasing(nodes, edges, now, succ, j, indeg, pushes)
    ensures indeg[succ[j]] > 0
    ensures Releasing(nodes, edges, now, succ, j + 1, indeg[succ[j] := indeg[succ[j]] - 1],
                      if indeg[succ[j]] == 1 then pushes + [succ[j]] else pushes)
  {
    hide Pending, Ascending, StrictlyAscending;
    SuccSplit(succ, j);
    PushesNext(edges, now, succ, j, pushes, indeg[succ[j]] == 1);
    PushesBelow(succ, j, pushes);
  }

  lemma SuccSplit(succ: seq<OpId>, j: nat)
    requires j < |succ|
    ensures multiset(succ[j..]) == multiset(succ[j + 1..]) + multiset{succ[j]}
    ensures succ[j] in succ[j + 1..] <==> multiset(succ[j + 1..])[succ[j]] > 0
  {
    assert succ[j..] == [succ[j]] + succ[j + 1..];
  }

  lemma PushesNext(edges: seq<Edge>, now: set<OpId>, succ: seq<OpId>, j: nat, pushes: seq<OpId>, last: bool)
    requires j < |succ|
    requires forall v :: v in pushes <==> v in succ[..j] && v !in succ[j..] && Pending(edges, v, now) == 0
    requires last <==> succ[j] !in succ[j + 1..] && Pending(edges, succ[j], now) == 0
    ensures var more := if last then pushes + [succ[j]] else pushes;
            forall v :: v in more <==> v in succ[..j + 1] && v !in succ[j + 1..] && Pending(edges, v, now) == 0
  {
    assert succ[j..] == [succ[j]] + succ[j + 1..];
    assert succ[..j + 1] == succ[..j] + [succ[j]];
  }

  lemma PushesBelow(succ: seq<OpId>, j: nat, pushes: seq<OpId>)
    requires j < |succ| && Ascending(succ) && StrictlyAscending(pushes)
    requires forall v :: v in pushes ==> v in succ[..j] && v !in succ[j..]
    ensures StrictlyAscending(pushes + [succ[j]])
  {
    forall i | 0 <= i < |pushes|
      ensures pushes[i] < succ[j]
    {
      assert pushes[i] in pushes;
      var k :| 0 <= k < j && succ[..j][k] == pushes[i];
      assert succ[j..][0] == succ[j];
      assert pushes[i] != succ[j];
    }
  }

  // Drop one in-edge per successor of id, queueing each successor whose last in-edge goes.
  method Release(ghost nodes: set<OpId>, ghost edges: seq<Edge>, indeg0: map<OpId, nat>, succ: seq<OpId>,
                 ghost id: OpId, ghost visited: set<OpId>)
    returns (indeg: map<OpId, nat>, pushes: seq<OpId>)
    requires indeg0.Keys == nodes && id !in visited && Ascending(succ)
    requires multiset(succ) == multiset(Targets(edges, id))
    requires forall e :: e in edges ==> e.to in nodes
    requires forall v :: v in nodes ==> indeg0[v] == Pending(edges, v, visited)
    ensures indeg.Keys == nodes && StrictlyAscending(pushes)
    ensures forall v :: v in nodes ==> indeg[v] == Pending(edges, v, visited + {id})
    ensures forall v :: v in pushes <==> HasEdge(edges, id, v) && Pending(edges, v, visited + {id}) == 0
  {
    ghost var now := visited + {id};
    SameMembers(succ, Targets(edges, id));
    forall v
      ensures Pending(edges, v, visited) == Pending(edges, v, now) + multiset(succ)[v]
      ensures v in succ <==> HasEdge(edges, id, v)
    {
      PendingStep(edges, v, visited, id);
      TargetsMembers(edges, id, v);
    }
    indeg, pushes := indeg0, [];
    assert succ[0..] == succ;
    for j := 0 to |succ|
      invariant Releasing(nodes, edges, now, succ, j, indeg, pushes)
    {
      var s := succ[j];
      assert s in succ;
      ReleaseStep(nodes, edges, now, succ, j, indeg, pushes);
      indeg := indeg[s := indeg[s] - 1];
      if indeg[s] == 0 {
        pushes := pushes + [s];
      }
    }
    assert succ[..|succ|] == succ;
  }

  ghost predicate Counted(nodes: set<OpId>, edges: seq<Edge>, visited: set<OpId>, indeg: map<OpId, nat>,
                          adj: map<OpId, seq<OpId>>) {
    && indeg.Keys == nodes && (forall v :: v in nodes ==> indeg[v] == Pending(edges, v, visited))
    && (forall u :: u !in visited ==> Lookup(adj, u) == Targets(edges, u))
  }

  lemma CountedStart(ops: map<OpId, Op>, edges: seq<Edge>, indeg: map<OpId, nat>, adj: map<OpId, seq<OpId>>)
    requires GraphOf(ops, edges, indeg, adj)
    ensures Counted(Nodes(ops, edges), edges, {}, indeg, adj)
    ensures forall v :: v in indeg ==> (indeg[v] == 0 <==> Ready(edges, [], v))
    ensures forall e :: e in edges ==> e.to in Nodes(ops, edges)
  {
    forall v | v in indeg
      ensures indeg[v] == 0 <==> Ready(edges, [], v)
    {
      PendingReady(edges, [], {}, v);
    }
  }

  // One turn of the loop keeps the queue and the counts in step.
  lemma KahnTurn(nodes: set<OpId>, edges: seq<Edge>, topo: seq<OpId>, queue: seq<OpId>, visited: set<OpId>,
                 indeg: map<OpId, nat>, adj: map<OpId, seq<OpId>>, pushes: seq<OpId>)
    requires KahnState(nodes, edges, topo, queue) && queue != [] && StrictlyAscending(pushes)
    requires visited == (set x | x in topo) && queue[0] !in topo && indeg.Keys == nodes
    requires forall e :: e in edges ==> e.to in nodes
    requires forall v :: v in nodes ==> indeg[v] == Pending(edges, v, visited + {queue[0]})
    requires forall u :: u !in visited ==> Lookup(adj, u) == Targets(edges, u)
    requires forall v :: v in pushes <==> HasEdge(edges, queue[0], v) && Pending(edges, v, visited + {queue[0]}) == 0
    ensures KahnState(nodes, edges, topo + [queue[0]], queue[1..] + pushes)
    ensures visited + {queue[0]} == set x | x in topo + [queue[0]]
    ensures Counted(nodes, edges, visited + {queue[0]}, indeg, adj - {queue[0]})
  {
    PushesMatch(nodes, edges, topo, queue, visited + {queue[0]}, pushes);
    KahnStep(nodes, edges, topo, queue, pushes);
  }

  // The FIFO loop. The queue never holds an id twice, so the branch for an id seen before is dead.
  method Kahn(ops: map<OpId, Op>, edges: seq<Edge>) returns (topo: seq<OpId>)
    ensures KahnOrder(Nodes(ops, edges), edges, topo)
  {
    ghost var nodes := Nodes(ops, edges);
    var indeg, adj := BuildGraph(ops, edges);
    CountedStart(ops, edges, indeg, adj);
    var ready := CollectReady(indeg);
    SortedReady(ready);
    var queue := SortIds(ready);
    var visited: set<OpId> := {};
    topo := [];
    KahnStart(nodes, edges, queue);
    while queue != []
      invariant KahnState(nodes, edges, topo, queue)
      invariant visited == set x | x in topo
      invariant Counted(nodes, edges, visited, indeg, adj)
      decreases nodes - visited
    {
      var id := queue[0];
      HeadIsNew(nodes, edges, topo, queue);
      if id in visited {
        assert false;
        return;
      }
      var succ := SortIds(Lookup(adj, id));
      SortIdsAscending(Lookup(adj, id));
      var pushes;
      indeg, pushes := Release(nodes, edges, indeg, succ, id, visited);
      KahnTurn(nodes, edges, topo, queue, visited, indeg, adj, pushes);
      visited, adj := visited + {id}, adj - {id};
      topo, queue := topo + [id], queue[1..] + pushes;
    }
    KahnDone(nodes, edges, topo);
  }

  lemma HeadIsNew(nodes: set<OpId>, edges: seq<Edge>, topo: seq<OpId>, queue: seq<OpId>)
    requires KahnState(nodes, edges, topo, queue) && queue != []
    ensures queue[0] in nodes && queue[0] !in topo
  {
    var s := topo + queue;
    assert s[|topo|] == queue[0] && s[..|topo|] == topo;
    PrefixFresh(s, |topo|);
  }

  lemma PushesMatch(nodes: set<OpId>, edges: seq<Edge>, topo: seq<OpId>, queue: seq<OpId>, visited: set<OpId>,
                    pushes: seq<OpId>)
    requires KahnState(nodes, edges, topo, queue) && queue != [] && StrictlyAscending(pushes)
    requires visited == (set x | x in topo) + {queue[0]} && queue[0] !in topo
    requires forall e :: e in edges ==> e.to in nodes
    requires forall v :: v in pushes <==> HasEdge(edges, queue[0], v) && Pending(edges, v, visited) == 0
    ensures Pushes(nodes, edges, topo, queue, pushes)
  {
    var topo' := topo + [queue[0]];
    forall v
      ensures v in pushes <==> v in nodes && v !in topo + queue && Ready(edges, topo', v)
    {
      PendingReady(edges, topo', visited, v);
      if v in topo + queue {
        SourcesListed(nodes, edges, topo, queue, v);
      } else if v in nodes && Ready(edges, topo', v) {
        assert !Ready(edges, topo, v);
        var e :| e in edges && e.to == v && e.from !in topo;
        assert e.from == queue[0];
      }
    }
  }

  // Both token registers of every listed op, in listing order.
  function Renumber(edges: seq<Edge>, order: seq<OpId>, n: nat, meta: map<OpId, OpMeta>): (r: map<OpId, OpMeta>)
    requires n <= |order|
    ensures forall i :: 0 <= i < n ==> order[i] in r
  {
    if n == 0 then meta
    else
      var id := order[n - 1];
      Renumber(edges, order, n - 1, meta)[id := OpMeta(Some(TokenIn(edges, order, id)), Some(n))]
  }

  // An op's tokens: the largest predecessor token, and its own one-based place.
  lemma {:induction false} RenumberAt(edges: seq<Edge>, order: seq<OpId>, n: nat, meta: map<OpId, OpMeta>, i: nat)
    requires NoDup(order) && i < n <= |order|
    ensures order[i] in Renumber(edges, order, n, meta)
    ensures Renumber(edges, order, n, meta)[order[i]] == OpMeta(Some(TokenIn(edges, order, order[i])), Some(i + 1))
  {
    if i < n - 1 {
      RenumberAt(edges, order, n - 1, meta, i);
    }
  }

  ghost predicate TokenTable(tokOut: map<OpId, nat>, order: seq<OpId>) {
    forall x :: (if x in tokOut then tokOut[x] else 0) == Pos(order, x)
  }

  method MaxPredecessorToken(edges: seq<Edge>, tokOut: map<OpId, nat>, ghost order: seq<OpId>, id: OpId)
    returns (t: nat)
    requires TokenTable(tokOut, order)
    ensures t == TokenIn(edges, order, id)
  {
    t := 0;
    for j := 0 to |edges|
      invariant t == TokenIn(edges[..j], order, id)
    {
      assert edges[..j + 1][..j] == edges[..j];
      if edges[j].to == id && edges[j].from in tokOut && tokOut[edges[j].from] > t {
        t := tokOut[edges[j].from];
      }
    }
    assert edges[..|edges|] == edges;
  }

  // token_out counts up along the order; token_in is the largest token among the predecessors.
  method NumberTokens(f: Function, order: seq<OpId>)
    requires NoDup(order) && Grounded(f.edges, order)
    modifies f`meta
    ensures f.meta == Renumber(f.edges, order, |order|, old(f.meta))
  {
    hide TokenIn;
    var tokOut: map<OpId, nat> := map[];
    for i := 0 to |order|
      invariant TokenTable(tokOut, order[..i])
      invariant f.meta == Renumber(f.edges, order, i, old(f.meta))
    {
      var id := order[i];
      var t := MaxPredecessorToken(f.edges, tokOut, order[..i], id);
      TableStep(f.edges, tokOut, order, i);
      tokOut := tokOut[id := i + 1];
      f.meta := f.meta[id := OpMeta(Some(t), Some(i + 1))];
    }
  }

  lemma TableStep(edges: seq<Edge>, tokOut: map<OpId, nat>, order: seq<OpId>, i: nat)
    requires NoDup(order) && Grounded(edges, order) && i < |order| && TokenTable(tokOut, order[..i])
    ensures TokenTable(tokOut[order[i] := i + 1], order[..i + 1])
    ensures TokenIn(edges, order[..i], order[i]) == TokenIn(edges, order, order[i])
  {
    assert Ready(edges, order[..i], order[i]);
    PrefixPos(edges, order, i, order[i]);
    assert order[..i + 1][..i] == order[..i];
  }

  ghost predicate Accepted(ops: map<OpId, Op>, edges: seq<Edge>) {
    var nodes := Nodes(ops, edges);
    |Extra(ops.Keys, nodes, edges)| == |Lost(ops.Keys, nodes, edges)|
  }

  // What the sort lists: everything it sees that is not on or behind a cycle or behind an undeclared source.
  ghost predicate Lists(ops: map<OpId, Op>, edges: seq<Edge>, listed: seq<OpId>) {
    var nodes := Nodes(ops, edges);
    KahnOrder(nodes, edges, listed) && forall v :: v in listed <==> v in nodes && !Blocked(nodes, edges, v)
  }

  // Succeeds exactly when the undeclared ids that get listed are as many as the declared ops that do not; the order
  // is then the unique Kahn order and everything listed has its tokens. Otherwise nothing changes and exactly the
  // declared ops left out are reported. With known endpoints that means: success exactly on acyclic graphs, and a
  // report of exactly the ops on or behind a cycle.
  method Run(f: Function) returns (r: Outcome, ghost listed: seq<OpId>)
    modifies f`order, f`meta
    ensures Lists(f.ops, f.edges, listed)
    ensures r.Assigned? <==> Accepted(f.ops, f.edges)
    ensures r.Assigned? ==> f.order == listed && f.meta == Renumber(f.edges, listed, |listed|, old(f.meta))
    ensures !r.Assigned? ==> f.order == old(f.order) && f.meta == old(f.meta)
    ensures !r.Assigned? ==> r.cycle == Lost(f.ops.Keys, Nodes(f.ops, f.edges), f.edges)
    ensures Known(f.ops.Keys, f.edges) ==>
              && (r.Assigned? <==> Acyclic(f.edges))
              && (!r.Assigned? ==> forall v :: v in r.cycle <==> v in f.ops.Keys && Trapped(f.edges, v))
  {
    hide Acyclic, Trapped, Blocked, Extra, KahnOrder, Nodes, Known;
    var topo := Kahn(f.ops, f.edges);
    listed := topo;
    ghost var nodes := Nodes(f.ops, f.edges);
    NodesSeen(f.ops, f.edges);
    KahnNoDup(nodes, f.edges, topo);
    LeftOutIsBlocked(nodes, f.edges, topo);
    AcceptedExactly(f.ops.Keys, nodes, f.edges, topo);
    KnownVerdict(f.ops, f.edges, topo);
    if |topo| != |f.ops| {
      r := TokenGraphCycle(set v | v in f.ops.Keys && v !in topo);
      assert f.ops.Keys <= nodes;
      assert r.cycle == Lost(f.ops.Keys, nodes, f.edges);
      return;
    }
    f.order := topo;
    NumberTokens(f, topo);
    r := Assigned;
  }

  lemma KnownVerdict(ops: map<OpId, Op>, edges: seq<Edge>, topo: seq<OpId>)
    requires KahnOrder(Nodes(ops, edges), edges, topo)
    ensures Known(ops.Keys, edges) ==> (|topo| == |ops| <==> Acyclic(edges))
    ensures Known(ops.Keys, edges) ==> forall v :: v in ops.Keys ==> (v !in topo <==> Trapped(edges, v))
  {
    hide KahnOrder, Acyclic, Trapped;
    if Known(ops.Keys, edges) {
      assert Nodes(ops, edges) == ops.Keys;
      CompleteIffAcyclic(ops.Keys, edges, topo);
    }
  }

  lemma NodesSeen(ops: map<OpId, Op>, edges: seq<Edge>)
    ensures Sees(ops.Keys, Nodes(ops, edges), edges)
  {
  }

  ghost predicate Numbered(f: Function, meta: map<OpId, OpMeta>)
    reads f
  {
    Accepted(f.ops, f.edges) && Lists(f.ops, f.edges, f.order) && f.meta == Renumber(f.edges, f.order, |f.order|, meta)
  }

  // The functions of a module in turn, each numbered from 1; the first refusal ends the pass.
  method RunModule(fs: seq<Function>) returns (r: Outcome, ghost stopped: nat)
    requires forall i, j :: 0 <= i < j < |fs| ==> fs[i] != fs[j]
    modifies fs
    ensures forall f :: f in fs ==> f.ops == old(f.ops) && f.edges == old(f.edges)
    ensures stopped <= |fs| && (r.Assigned? <==> stopped == |fs|)
    ensures forall i :: 0 <= i < stopped ==> Numbered(fs[i], old(fs[i].meta))
    ensures forall i :: stopped <= i < |fs| ==> fs[i].order == old(fs[i].order) && fs[i].meta == old(fs[i].meta)
    ensures !r.Assigned? ==>
              var f := fs[stopped];
              !Accepted(f.ops, f.edges) && r.cycle == Lost(f.ops.Keys, Nodes(f.ops, f.edges), f.edges)
  {
    hide Accepted, Lists, Lost, Renumber, Nodes, Known;
    for i := 0 to |fs|
      invariant forall f :: f in fs ==> f.ops == old(f.ops) && f.edges == old(f.edges)
      invariant forall k :: 0 <= k < i ==> Numbered(fs[k], old(fs[k].meta))
      invariant forall k :: i <= k < |fs| ==> fs[k].order == old(fs[k].order) && fs[k].meta == old(fs[k].meta)
    {
      ghost var listed;
      r, listed := Run(fs[i]);
      if r.TokenGraphCycle? {
        stopped := i;
        return;
      }
    }
    r, stopped := Assigned, |fs|;
  }
}
