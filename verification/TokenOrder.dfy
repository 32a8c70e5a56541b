// Token numbering as a specification: what the FIFO topological sort leaves behind, independent of how its hash
// maps are walked.
module TokenOrder {

  type OpId = nat

  datatype Edge =
    | Data(from: OpId, to: OpId)    // consumes the source's value
    | Token(from: OpId, to: OpId)   // waits for the source's retirement

  // Out-neighbours of u, once per edge, in edge order.
  function Targets(edges: seq<Edge>, u: OpId): seq<OpId> {
    if edges == [] then []
    else
      var n := |edges| - 1;
      if edges[n].from == u then Targets(edges[..n], u) + [edges[n].to] else Targets(edges[..n], u)
  }

  // Edges into v whose source is not done yet, counted with multiplicity.
  ghost function Pending(edges: seq<Edge>, v: OpId, done: set<OpId>): nat {
    if edges == [] then 0
    else
      var n := |edges| - 1;
      Pending(edges[..n], v, done) + if edges[n].to == v && edges[n].from !in done then 1 else 0
  }

  lemma {:induction false} PendingZero(edges: seq<Edge>, v: OpId, done: set<OpId>)
    ensures Pending(edges, v, done) == 0 <==> forall e :: e in edges && e.to == v ==> e.from in done
  {
    if edges != [] {
      var n := |edges| - 1;
      PendingZero(edges[..n], v, done);
      assert forall e :: e in edges <==> e in edges[..n] || e == edges[n];
    }
  }

  // Finishing u releases exactly its edges.
  lemma {:induction false} PendingStep(edges: seq<Edge>, v: OpId, done: set<OpId>, u: OpId)
    requires u !in done
    ensures Pending(edges, v, done) == Pending(edges, v, done + {u}) + multiset(Targets(edges, u))[v]
  {
    if edges != [] {
      PendingStep(edges[..|edges| - 1], v, done, u);
    }
  }

  lemma {:induction false} TargetsMembers(edges: seq<Edge>, u: OpId, v: OpId)
    ensures v in Targets(edges, u) <==> HasEdge(edges, u, v)
  {
    if edges != [] {
      var n := |edges| - 1;
      TargetsMembers(edges[..n], u, v);
      assert forall e :: e in edges <==> e in edges[..n] || e == edges[n];
    }
  }

  ghost predicate HasEdge(edges: seq<Edge>, u: OpId, v: OpId) {
    exists e :: e in edges && e.from == u && e.to == v
  }

  // One-based position, 0 when absent: the token a listed op retires.
  function Pos(order: seq<OpId>, x: OpId): (p: nat)
    ensures p <= |order|
    ensures p == 0 <==> x !in order
    ensures p > 0 ==> order[p - 1] == x
  {
    if order == [] then 0
    else
      var n := |order| - 1;
      assert order == order[..n] + [order[n]];
      if order[n] == x then n + 1 else Pos(order[..n], x)
  }

  // The largest token among the listed predecessors of v, 0 without any.
  function TokenIn(edges: seq<Edge>, order: seq<OpId>, v: OpId): (t: nat)
    ensures t <= |order|
  {
    if edges == [] then 0
    else
      var n := |edges| - 1;
      var rest := TokenIn(edges[..n], order, v);
      if edges[n].to == v && rest < Pos(order, edges[n].from) then Pos(order, edges[n].from) else rest
  }

  lemma {:induction false} TokenInBounds(edges: seq<Edge>, order: seq<OpId>, v: OpId)
    ensures forall e :: e in edges && e.to == v ==> Pos(order, e.from) <= TokenIn(edges, order, v)
    ensures TokenIn(edges, order, v) > 0 ==>
              exists e :: e in edges && e.to == v && Pos(order, e.from) == TokenIn(edges, order, v)
  {
    if edges != [] {
      var n := |edges| - 1;
      TokenInBounds(edges[..n], order, v);
      assert forall e :: e in edges <==> e in edges[..n] || e == edges[n];
    }
  }

  // Listing more ops does not move the tokens of v's predecessors.
  lemma {:induction false} TokenInPrefix(edges: seq<Edge>, a: seq<OpId>, b: seq<OpId>, v: OpId)
    requires forall e :: e in edges && e.to == v ==> Pos(b, e.from) == Pos(a, e.from)
    ensures TokenIn(edges, b, v) == TokenIn(edges, a, v)
  {
    if edges != [] {
      var n := |edges| - 1;
      assert edges[n] in edges;
      assert forall e :: e in edges[..n] ==> e in edges;
      TokenInPrefix(edges[..n], a, b, v);
    }
  }

  ghost predicate NoDup(s: seq<OpId>) {
    forall i, j :: 0 <= i < j < |s| ==> s[i] != s[j]
  }

  lemma {:induction false} PosUnique(order: seq<OpId>, i: nat)
    requires NoDup(order) && i < |order|
    ensures Pos(order, order[i]) == i + 1
  {
  }

  ghost predicate Lex(t: nat, x: OpId, u: nat, y: OpId) {
    t < u || (t == u && x < y)
  }

  // Every listed op's sources are listed before it.
  ghost predicate Grounded(edges: seq<Edge>, order: seq<OpId>) {
    forall i :: 0 <= i < |order| ==> Ready(edges, order[..i], order[i])
  }

  // Strictly increasing in (token_in, op).
  ghost predicate Increasing(edges: seq<Edge>, order: seq<OpId>) {
    forall i, j :: 0 <= i < j < |order| ==>
      Lex(TokenIn(edges, order, order[i]), order[i], TokenIn(edges, order, order[j]), order[j])
  }

  // Every source of v is listed.
  ghost predicate Ready(edges: seq<Edge>, order: seq<OpId>, v: OpId) {
    forall e :: e in edges && e.to == v ==> e.from in order
  }

  // Nothing more can be listed.
  ghost predicate Saturated(nodes: set<OpId>, edges: seq<Edge>, order: seq<OpId>) {
    forall v :: v in nodes && Ready(edges, order, v) ==> v in order
  }

  ghost predicate KahnOrder(nodes: set<OpId>, edges: seq<Edge>, order: seq<OpId>) {
    && NoDup(order) && (forall v :: v in order ==> v in nodes)
    && Grounded(edges, order) && Increasing(edges, order) && Saturated(nodes, edges, order)
  }

  // The order is determined by the graph alone: no hash-map iteration order, no edge order, no duplicate
  // edge can change it.
  lemma KahnOrderUnique(nodes: set<OpId>, e1: seq<Edge>, e2: seq<Edge>, a: seq<OpId>, b: seq<OpId>)
    requires KahnOrder(nodes, e1, a) && KahnOrder(nodes, e2, b)
    requires forall u, v :: HasEdge(e1, u, v) <==> HasEdge(e2, u, v)
    ensures a == b
  {
    NoLonger(nodes, e1, e2, a, b);
    NoLonger(nodes, e2, e1, b, a);
    AgreeUpTo(nodes, e1, e2, a, b, |a|);
    assert a[..|a|] == a && b[..|b|] == b;
  }

  lemma PrefixFresh(a: seq<OpId>, k: nat)
    requires NoDup(a) && k < |a|
    ensures a[k] !in a[..k]
  {
    forall i | 0 <= i < k
      ensures a[..k][i] != a[k]
    {
    }
  }

  lemma EdgeMove(e1: seq<Edge>, e2: seq<Edge>, e: Edge) returns (f: Edge)
    requires forall u, v :: HasEdge(e1, u, v) <==> HasEdge(e2, u, v)
    requires e in e1
    ensures f in e2 && f.from == e.from && f.to == e.to
  {
    assert HasEdge(e1, e.from, e.to);
    f :| f in e2 && f.from == e.from && f.to == e.to;
  }

  lemma ReadyMoves(e1: seq<Edge>, e2: seq<Edge>, order: seq<OpId>, v: OpId)
    requires forall u, w :: HasEdge(e1, u, w) <==> HasEdge(e2, u, w)
    requires Ready(e1, order, v)
    ensures Ready(e2, order, v)
  {
    forall e | e in e2 && e.to == v
      ensures e.from in order
    {
      assert HasEdge(e2, e.from, v);
      var f :| f in e1 && f.from == e.from && f.to == v;
    }
  }

  // What b lists right after all of a was ready for a as well.
  lemma NoLonger(nodes: set<OpId>, e1: seq<Edge>, e2: seq<Edge>, a: seq<OpId>, b: seq<OpId>)
    requires KahnOrder(nodes, e1, a) && KahnOrder(nodes, e2, b)
    requires forall u, v :: HasEdge(e1, u, v) <==> HasEdge(e2, u, v)
    ensures |b| <= |a|
  {
    if |a| < |b| {
      AgreeUpTo(nodes, e1, e2, a, b, |a|);
      assert a[..|a|] == a;
      ReadyMoves(e2, e1, a, b[|a|]);
      PrefixFresh(b, |a|);
    }
  }

  // Tokens in come from the common prefix, so the two orders must agree on who is next.
  lemma {:induction false} AgreeUpTo(nodes: set<OpId>, e1: seq<Edge>, e2: seq<Edge>, a: seq<OpId>, b: seq<OpId>, k: nat)
    requires KahnOrder(nodes, e1, a) && KahnOrder(nodes, e2, b)
    requires forall u, v :: HasEdge(e1, u, v) <==> HasEdge(e2, u, v)
    requires k <= |a| && k <= |b|
    ensures a[..k] == b[..k]
  {
    if k > 0 {
      AgreeUpTo(nodes, e1, e2, a, b, k - 1);
      var x, y := a[k - 1], b[k - 1];
      if x != y {
        NextIsSmaller(nodes, e1, e2, a, b, k - 1);
        NextIsSmaller(nodes, e2, e1, b, a, k - 1);
      }
      assert a[..k] == a[..k - 1] + [x] && b[..k] == b[..k - 1] + [y];
    }
  }

  lemma GroundedAt(edges: seq<Edge>, a: seq<OpId>, k: nat)
    requires Grounded(edges, a) && k < |a|
    ensures Ready(edges, a[..k], a[k])
  {
  }

  // Everything a lists next is below whatever b lists in its place.
  lemma NextIsSmaller(nodes: set<OpId>, e1: seq<Edge>, e2: seq<Edge>, a: seq<OpId>, b: seq<OpId>, k: nat)
    requires KahnOrder(nodes, e1, a) && KahnOrder(nodes, e2, b)
    requires forall u, v :: HasEdge(e1, u, v) <==> HasEdge(e2, u, v)
    requires k < |a| && k < |b| && a[..k] == b[..k] && a[k] != b[k]
    ensures Lex(TokenIn(e1, a[..k], a[k]), a[k], TokenIn(e1, a[..k], b[k]), b[k])
    ensures TokenIn(e1, a[..k], a[k]) == TokenIn(e2, b[..k], a[k])
    ensures TokenIn(e1, a[..k], b[k]) == TokenIn(e2, b[..k], b[k])
  {
    hide TokenIn, Pos, HasEdge, Grounded;
    var p, x, y := a[..k], a[k], b[k];
    PrefixFresh(b, k);
    GroundedAt(e1, a, k);
    GroundedAt(e2, b, k);
    ReadyMoves(e2, e1, p, y);
    ReadyIsListed(nodes, e1, a, k, y);
    var j :| k <= j < |a| && a[j] == y;
    PrefixPos(e1, a, k, x);
    PrefixPos(e1, a, k, y);
    TokenInSame(e1, e2, p, x);
    TokenInSame(e1, e2, p, y);
  }

  // A node all of whose sources are listed is itself listed, past the prefix holding them.
  lemma ReadyIsListed(nodes: set<OpId>, edges: seq<Edge>, a: seq<OpId>, k: nat, y: OpId)
    requires KahnOrder(nodes, edges, a) && k <= |a| && y in nodes && y !in a[..k]
    requires Ready(edges, a[..k], y)
    ensures exists j :: k <= j < |a| && a[j] == y
  {
    hide Increasing, Grounded;
    assert a == a[..k] + a[k..];
    assert Ready(edges, a, y);
    assert y in a[k..];
    var i :| 0 <= i < |a[k..]| && a[k..][i] == y;
    assert a[k + i] == y;
  }

  lemma PrefixPos(edges: seq<Edge>, a: seq<OpId>, k: nat, v: OpId)
    requires NoDup(a) && k <= |a|
    requires Ready(edges, a[..k], v)
    ensures TokenIn(edges, a, v) == TokenIn(edges, a[..k], v)
  {
    forall e | e in edges && e.to == v
      ensures Pos(a, e.from) == Pos(a[..k], e.from)
    {
      var i :| 0 <= i < k && a[..k][i] == e.from;
      PosUnique(a, i);
      PosUnique(a[..k], i);
    }
    TokenInPrefix(edges, a[..k], a, v);
  }

  lemma TokenInSame(e1: seq<Edge>, e2: seq<Edge>, order: seq<OpId>, v: OpId)
    requires forall u, w :: HasEdge(e1, u, w) <==> HasEdge(e2, u, w)
    ensures TokenIn(e1, order, v) == TokenIn(e2, order, v)
  {
    TokenInAtMost(e1, e2, order, v);
    TokenInAtMost(e2, e1, order, v);
  }

  lemma TokenInAtMost(e1: seq<Edge>, e2: seq<Edge>, order: seq<OpId>, v: OpId)
    requires forall u, w :: HasEdge(e1, u, w) <==> HasEdge(e2, u, w)
    ensures TokenIn(e1, order, v) <= TokenIn(e2, order, v)
  {
    TokenInBounds(e1, order, v);
    TokenInBounds(e2, order, v);
    if TokenIn(e1, order, v) > 0 {
      var e :| e in e1 && e.to == v && Pos(order, e.from) == TokenIn(e1, order, v);
      var f := EdgeMove(e1, e2, e);
    }
  }

  // ---------------------------------------------------------------- cycles

  ghost predicate Known(ops: set<OpId>, edges: seq<Edge>) {
    forall e :: e in edges ==> e.from in ops && e.to in ops
  }

  ghost predicate Walk(edges: seq<Edge>, w: seq<OpId>) {
    |w| > 0 && forall i :: 0 <= i < |w| - 1 ==> HasEdge(edges, w[i], w[i + 1])
  }

  ghost predicate Acyclic(edges: seq<Edge>) {
    forall w :: Walk(edges, w) && |w| > 1 ==> w[0] != w[|w| - 1]
  }

  ghost predicate Repeats(w: seq<OpId>) {
    exists i, j :: 0 <= i < j < |w| && w[i] == w[j]
  }

  // v lies on a cycle or is reachable from one.
  ghost predicate Trapped(edges: seq<Edge>, v: OpId) {
    exists w :: Walk(edges, w) && Repeats(w) && w[|w| - 1] == v
  }

  // v is an id the sort never saw, or reachable from one.
  ghost predicate Orphaned(nodes: set<OpId>, edges: seq<Edge>, v: OpId) {
    exists w :: Walk(edges, w) && w[0] !in nodes && w[|w| - 1] == v
  }

  ghost predicate Blocked(nodes: set<OpId>, edges: seq<Edge>, v: OpId) {
    Trapped(edges, v) || Orphaned(nodes, edges, v)
  }

  // A walk into a listed op runs through the list in order.
  lemma {:induction false} WalkIsListed(edges: seq<Edge>, order: seq<OpId>, w: seq<OpId>)
    requires NoDup(order) && Grounded(edges, order) && Walk(edges, w) && w[|w| - 1] in order
    ensures forall i :: 0 <= i < |w| ==> w[i] in order
    ensures forall i, j :: 0 <= i < j < |w| ==> Pos(order, w[i]) < Pos(order, w[j])
  {
    var n := |w| - 1;
    if n > 0 {
      var front := w[..n];
      StepIsListed(edges, order, w[n - 1], w[n]);
      WalkFront(edges, w);
      WalkIsListed(edges, order, front);
      forall i, j | 0 <= i < j < |w|
        ensures Pos(order, w[i]) < Pos(order, w[j])
      {
        if j == n && i < n - 1 {
          assert Pos(order, front[i]) < Pos(order, front[n - 1]);
        } else if j < n {
          assert Pos(order, front[i]) < Pos(order, front[j]);
        }
      }
      forall i | 0 <= i < |w|
        ensures w[i] in order
      {
        if i < n { assert front[i] in order; }
      }
    }
  }

  lemma WalkFront(edges: seq<Edge>, w: seq<OpId>)
    requires Walk(edges, w) && |w| > 1
    ensures Walk(edges, w[..|w| - 1])
    ensures HasEdge(edges, w[|w| - 2], w[|w| - 1])
  {
    var front := w[..|w| - 1];
    forall i | 0 <= i < |front| - 1
      ensures HasEdge(edges, front[i], front[i + 1])
    {
      assert HasEdge(edges, w[i], w[i + 1]);
    }
    assert HasEdge(edges, w[|w| - 2], w[|w| - 2 + 1]);
  }

  lemma StepIsListed(edges: seq<Edge>, order: seq<OpId>, u: OpId, v: OpId)
    requires NoDup(order) && Grounded(edges, order) && HasEdge(edges, u, v) && v in order
    ensures 0 < Pos(order, u) < Pos(order, v)
  {
    var p := Pos(order, v) - 1;
    var e :| e in edges && e.from == u && e.to == v;
    assert Ready(edges, order[..p], order[p]);
    var q :| 0 <= q < p && order[..p][q] == u;
    PosUnique(order, q);
  }

  lemma ListedNotBlocked(nodes: set<OpId>, edges: seq<Edge>, order: seq<OpId>, v: OpId)
    requires NoDup(order) && Grounded(edges, order) && (forall x :: x in order ==> x in nodes) && v in order
    ensures !Blocked(nodes, edges, v)
  {
    forall w | Walk(edges, w) && w[|w| - 1] == v
      ensures !Repeats(w) && w[0] in nodes
    {
      WalkIsListed(edges, order, w);
      forall i, j | 0 <= i < j < |w|
        ensures w[i] != w[j]
      {
        assert Pos(order, w[i]) < Pos(order, w[j]);
      }
    }
  }

  ghost predicate Outside(nodes: set<OpId>, order: seq<OpId>, w: seq<OpId>) {
    forall x :: x in w ==> x in nodes && x !in order
  }

  ghost predicate Back(nodes: set<OpId>, edges: seq<Edge>, order: seq<OpId>, w: seq<OpId>, v: OpId, n: nat) {
    Walk(edges, w) && |w| == n + 1 && w[n] == v && Outside(nodes, order, w)
  }

  // Backwards from an unlisted id one reaches an id the sort never saw, or goes on among the unlisted for ever.
  lemma {:induction false} BackwardWalk(nodes: set<OpId>, edges: seq<Edge>, order: seq<OpId>, v: OpId, n: nat)
    requires Saturated(nodes, edges, order) && v in nodes && v !in order
    ensures Orphaned(nodes, edges, v) || exists w :: Back(nodes, edges, order, w, v, n)
    decreases n
  {
    if n == 0 {
      assert Back(nodes, edges, order, [v], v, 0);
    } else {
      assert !Ready(edges, order, v);
      var e :| e in edges && e.to == v && e.from !in order;
      if e.from !in nodes {
        WalkExtends(edges, [e.from], v);
        assert Walk(edges, [e.from] + [v]) && ([e.from] + [v])[0] !in nodes;
      } else {
        BackwardWalk(nodes, edges, order, e.from, n - 1);
        if Orphaned(nodes, edges, e.from) {
          OrphanedOn(nodes, edges, e);
        } else {
          var front :| Back(nodes, edges, order, front, e.from, n - 1);
          WalkExtends(edges, front, v);
          assert Back(nodes, edges, order, front + [v], v, n);
        }
      }
    }
  }

  lemma OrphanedOn(nodes: set<OpId>, edges: seq<Edge>, e: Edge)
    requires e in edges && Orphaned(nodes, edges, e.from)
    ensures Orphaned(nodes, edges, e.to)
  {
    var w :| Walk(edges, w) && w[0] !in nodes && w[|w| - 1] == e.from;
    WalkExtends(edges, w, e.to);
    assert Walk(edges, w + [e.to]) && (w + [e.to])[0] !in nodes;
  }

  lemma WalkExtends(edges: seq<Edge>, w: seq<OpId>, v: OpId)
    requires Walk(edges, w) && HasEdge(edges, w[|w| - 1], v)
    ensures Walk(edges, w + [v])
  {
    var x := w + [v];
    forall i | 0 <= i < |x| - 1
      ensures HasEdge(edges, x[i], x[i + 1])
    {
      if i < |w| - 1 {
        assert HasEdge(edges, w[i], w[i + 1]);
      }
    }
  }

  lemma {:induction false} Pigeonhole(w: seq<OpId>, s: set<OpId>)
    requires |w| > |s| && forall x :: x in w ==> x in s
    ensures Repeats(w)
  {
    var n := |w| - 1;
    var front := w[..n];
    if w[n] in front {
      var i :| 0 <= i < n && front[i] == w[n];
      assert w[i] == w[n];
    } else {
      assert forall x :: x in front ==> x in w && x != w[n];
      assert w[n] in s;
      Pigeonhole(front, s - {w[n]});
      var i, j :| 0 <= i < j < n && front[i] == front[j];
      assert w[i] == w[j];
    }
  }

  lemma UnlistedBlocked(nodes: set<OpId>, edges: seq<Edge>, order: seq<OpId>, v: OpId)
    requires Saturated(nodes, edges, order) && v in nodes && v !in order
    ensures Blocked(nodes, edges, v)
  {
    BackwardWalk(nodes, edges, order, v, |nodes|);
    if !Orphaned(nodes, edges, v) {
      var w :| Back(nodes, edges, order, w, v, |nodes|);
      Pigeonhole(w, nodes);
    }
  }

  // What the sort leaves out is exactly what lies on or behind a cycle, or behind an id that is neither declared
  // nor any edge's target.
  lemma LeftOutIsBlocked(nodes: set<OpId>, edges: seq<Edge>, order: seq<OpId>)
    requires KahnOrder(nodes, edges, order)
    ensures forall v :: v in order <==> v in nodes && !Blocked(nodes, edges, v)
  {
    forall v
      ensures v in order <==> v in nodes && !Blocked(nodes, edges, v)
    {
      if v in order {
        ListedNotBlocked(nodes, edges, order, v);
      } else if v in nodes {
        UnlistedBlocked(nodes, edges, order, v);
      }
    }
  }

  // With every endpoint declared there is nothing to be orphaned by.
  lemma KnownNotOrphaned(ops: set<OpId>, edges: seq<Edge>, v: OpId)
    requires Known(ops, edges) && v in ops
    ensures !Orphaned(ops, edges, v)
  {
    forall w | Walk(edges, w) && w[|w| - 1] == v
      ensures w[0] in ops
    {
      if |w| > 1 {
        assert HasEdge(edges, w[0], w[0 + 1]);
      }
    }
  }

  lemma {:induction false} Listing(order: seq<OpId>, s: set<OpId>)
    requires NoDup(order) && forall v :: v in order ==> v in s
    ensures |order| == |s| <==> forall v :: v in s ==> v in order
    ensures |order| <= |s|
  {
    if order == [] {
      if s != {} {
        var v :| v in s;
        assert v !in order;
      }
    } else {
      var n := |order| - 1;
      var front, t := order[..n], s - {order[n]};
      PrefixFresh(order, n);
      assert forall v :: v in order <==> v in front || v == order[n];
      Listing(front, t);
      assert |s| == |t| + 1;
    }
  }

  // Cutting a repeating walk at the repetition leaves a closed one.
  lemma TrappedHasCycle(edges: seq<Edge>, v: OpId)
    requires Trapped(edges, v)
    ensures !Acyclic(edges)
  {
    var w :| Walk(edges, w) && Repeats(w) && w[|w| - 1] == v;
    var i, j :| 0 <= i < j < |w| && w[i] == w[j];
    var loop := w[i..j + 1];
    forall k | 0 <= k < |loop| - 1
      ensures HasEdge(edges, loop[k], loop[k + 1])
    {
      assert HasEdge(edges, w[i + k], w[i + k + 1]);
    }
    assert Walk(edges, loop) && |loop| > 1 && loop[0] == loop[|loop| - 1];
  }

  lemma CycleTraps(edges: seq<Edge>) returns (v: OpId)
    requires !Acyclic(edges)
    ensures Trapped(edges, v) && exists e :: e in edges && e.to == v
  {
    var w :| Walk(edges, w) && |w| > 1 && w[0] == w[|w| - 1];
    v := w[|w| - 1];
    WalkFront(edges, w);
    var e :| e in edges && e.from == w[|w| - 2] && e.to == v;
    assert Repeats(w);
  }

  // ---------------------------------------------------------------- what the length test accepts

  // Everything the sort sees: the declared ops and every edge's target.
  ghost predicate Sees(ops: set<OpId>, nodes: set<OpId>, edges: seq<Edge>) {
    ops <= nodes && forall e :: e in edges ==> e.to in nodes
  }

  // Undeclared targets that get listed, and declared ops that do not.
  ghost function Extra(ops: set<OpId>, nodes: set<OpId>, edges: seq<Edge>): set<OpId> {
    set v | v in nodes && v !in ops && !Blocked(nodes, edges, v)
  }

  ghost function Lost(ops: set<OpId>, nodes: set<OpId>, edges: seq<Edge>): set<OpId> {
    set v | v in ops && Blocked(nodes, edges, v)
  }

  // The length test passes exactly when the undeclared ids listed are as many as the declared ops left out.
  lemma AcceptedExactly(ops: set<OpId>, nodes: set<OpId>, edges: seq<Edge>, order: seq<OpId>)
    requires Sees(ops, nodes, edges) && KahnOrder(nodes, edges, order)
    ensures |order| == |ops| <==> |Extra(ops, nodes, edges)| == |Lost(ops, nodes, edges)|
  {
    hide Blocked, KahnOrder;
    LeftOutIsBlocked(nodes, edges, order);
    var kept := ops - Lost(ops, nodes, edges);
    var all := kept + Extra(ops, nodes, edges);
    assert |order| == |all| by {
      assert NoDup(order) by { KahnNoDup(nodes, edges, order); }
      Listing(order, all);
    }
    assert |ops| == |kept| + |Lost(ops, nodes, edges)| by {
      assert ops == kept + Lost(ops, nodes, edges);
    }
  }

  lemma KahnNoDup(nodes: set<OpId>, edges: seq<Edge>, order: seq<OpId>)
    requires KahnOrder(nodes, edges, order)
    ensures NoDup(order)
  {
  }

  // When passing the test means what it should, that every declared op has its place: no undeclared id is listed,
  // or some op is lost and the two numbers differ.
  lemma LengthTestIsRight(ops: set<OpId>, nodes: set<OpId>, edges: seq<Edge>, order: seq<OpId>)
    requires Sees(ops, nodes, edges) && KahnOrder(nodes, edges, order)
    ensures var extra, lost := Extra(ops, nodes, edges), Lost(ops, nodes, edges);
            ((|order| == |ops|) <==> (forall v :: v in ops ==> v in order))
            <==> (extra == {} || (lost != {} && |extra| != |lost|))
  {
    hide Blocked, KahnOrder;
    AcceptedExactly(ops, nodes, edges, order);
    LeftOutIsBlocked(nodes, edges, order);
    var extra, lost := Extra(ops, nodes, edges), Lost(ops, nodes, edges);
    assert lost == {} <==> forall v :: v in ops ==> v in order by {
      assert forall v :: v in lost <==> v in ops && v !in order;
    }
    assert extra == {} <==> |extra| == 0;
    assert lost == {} <==> |lost| == 0;
  }

  // When passing the test coincides with being acyclic. Without a cycle only orphaned ops can be lost.
  lemma AcceptedIffAcyclic(ops: set<OpId>, nodes: set<OpId>, edges: seq<Edge>, order: seq<OpId>)
    requires Sees(ops, nodes, edges) && KahnOrder(nodes, edges, order)
    ensures var extra := |Extra(ops, nodes, edges)|;
            ((|order| == |ops|) <==> Acyclic(edges))
            <==> (if exists v :: v in nodes && Trapped(edges, v) then extra != |Lost(ops, nodes, edges)|
                  else extra == |set v | v in ops && Orphaned(nodes, edges, v)|)
  {
    hide KahnOrder, Acyclic, Trapped, Orphaned;
    AcceptedExactly(ops, nodes, edges, order);
    if v :| v in nodes && Trapped(edges, v) {
      TrappedHasCycle(edges, v);
    } else {
      if !Acyclic(edges) {
        var v := CycleTraps(edges);
      }
      assert Lost(ops, nodes, edges) == set v | v in ops && Orphaned(nodes, edges, v);
    }
  }

  // With every endpoint declared, all ops are listed exactly when the graph has no cycle.
  lemma CompleteIffAcyclic(ops: set<OpId>, edges: seq<Edge>, order: seq<OpId>)
    requires Known(ops, edges) && KahnOrder(ops, edges, order)
    ensures |order| == |ops| <==> Acyclic(edges)
    ensures forall v :: v in ops ==> (v !in order <==> Trapped(edges, v))
  {
    hide KahnOrder, Acyclic, Trapped, Orphaned;
    LeftOutIsBlocked(ops, edges, order);
    forall v | v in ops
      ensures !Orphaned(ops, edges, v)
    {
      KnownNotOrphaned(ops, edges, v);
    }
    AcceptedIffAcyclic(ops, ops, edges, order);
    assert Extra(ops, ops, edges) == {};
    assert (set v | v in ops && Orphaned(ops, edges, v)) == {};
    if v :| v in ops && Trapped(edges, v) {
      assert v in Lost(ops, ops, edges);
    }
  }

  lemma NinthListed(edges: seq<Edge>)
    requires edges == [Data(0, 9), Data(1, 1)]
    ensures KahnOrder({0, 1, 9}, edges, [0, 9])
  {
    hide Walk, Acyclic;
    var one := edges[..1];
    assert one == [Data(0, 9)] && one[..0] == [];
    assert [0, 9][..1] == [0] && [0, 9][..0] == [];
    assert Pos([0, 9], 0) == 1;
    assert TokenIn(one, [0, 9], 0) == 0 && TokenIn(one, [0, 9], 9) == 1;
    assert TokenIn(edges, [0, 9], 0) == 0 && TokenIn(edges, [0, 9], 9) == 1;
    assert edges[1] == Data(1, 1) && Data(1, 1) in edges;
    assert !Ready(edges, [0, 9], 1);
  }

  // Undeclared endpoints can hide a cycle: op 1 waits for itself, yet whatever the hash maps do as many ids are
  // listed as there are ops, and op 1 is not among them.
  lemma UnknownEndpointHidesCycle(order: seq<OpId>)
    requires KahnOrder({0, 1, 9}, [Data(0, 9), Data(1, 1)], order)
    ensures order == [0, 9] && |order| == |{0, 1}| && !Acyclic([Data(0, 9), Data(1, 1)])
  {
    hide KahnOrder;
    var edges := [Data(0, 9), Data(1, 1)];
    NinthListed(edges);
    KahnOrderUnique({0, 1, 9}, edges, edges, order, [0, 9]);
    assert edges[1] == Data(1, 1) && HasEdge(edges, 1, 1);
    assert Walk(edges, [1, 1]) && [1, 1][0] == [1, 1][1];
  }
}
