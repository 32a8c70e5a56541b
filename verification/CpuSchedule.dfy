// What the fabric's dispatch scan does to a stream of CPU-backed commands: a list scanned in passes, each fired
// command replaced by the list's last, tokens retired on the spot.
module CpuSchedule {

  datatype IpId = SystolicArray4x4 | SystolicArray16x16 | SystolicArray32x32 | NpuArrayV4SeedG | NpuClusterV4
    | NoCMesh | GemmIp | PtxEmulationCore | SlugCxl4x4

  predicate CpuBacked(ip: IpId) {
    ip.PtxEmulationCore?
  }

  datatype Cmd = Cmd(ip: IpId, opcode: nat, tokenIn: nat, tokenOut: nat)

  // Simulated cycles of one emulated opcode.
  function CycleCost(opcode: nat): (c: nat)
    ensures c <= 4
  {
    if 17 <= opcode <= 23 then 4 else if opcode == 254 then 0 else 1
  }

  function TotalCost(cmds: seq<Cmd>): nat {
    if cmds == [] then 0 else TotalCost(cmds[..|cmds| - 1]) + CycleCost(cmds[|cmds| - 1].opcode)
  }

  function SwapRemove(s: seq<Cmd>, i: nat): (r: seq<Cmd>)
    requires i < |s|
    ensures |r| == |s| - 1
  {
    var n := |s| - 1;
    if i == n then s[..n] else s[..i] + [s[n]] + s[i + 1..n]
  }

  lemma SwapRemoveMultiset(s: seq<Cmd>, i: nat)
    requires i < |s|
    ensures multiset(SwapRemove(s, i)) + multiset{s[i]} == multiset(s)
  {
    var n := |s| - 1;
    assert s == s[..n] + [s[n]];
    if i < n {
      assert s[..n] == s[..i] + [s[i]] + s[i + 1..n];
    }
  }

  // `fired` is the order of retirement.
  datatype Scan = Scan(pending: seq<Cmd>, retired: set<nat>, fired: seq<Cmd>)

  // One pass from position i; a slot just refilled is examined again.
  function ScanFrom(s: Scan, i: nat): (r: Scan)
    ensures |r.pending| <= |s.pending|
    decreases |s.pending|, |s.pending| - i
  {
    if i >= |s.pending| then s
    else if s.pending[i].tokenIn !in s.retired then ScanFrom(s, i + 1)
    else ScanFrom(FireAt(s, i), i)
  }

  function FireAt(s: Scan, i: nat): Scan
    requires i < |s.pending|
  {
    Scan(SwapRemove(s.pending, i), s.retired + {s.pending[i].tokenOut}, s.fired + [s.pending[i]])
  }

  // Passes until nothing is pending or a pass fires nothing.
  function RunPasses(s: Scan): (r: Scan)
    decreases |s.pending|
  {
    var t := ScanFrom(s, 0);
    if t.pending == [] || |t.pending| == |s.pending| then t else RunPasses(t)
  }

  function Start(stream: seq<Cmd>): Scan {
    Scan(stream, {0}, [])
  }

  function RunCpu(stream: seq<Cmd>): Scan {
    RunPasses(Start(stream))
  }

  // ---------------------------------------------------------------- any CPU stream: the least fixpoint

  ghost predicate Closed(stream: seq<Cmd>, s: set<nat>) {
    0 in s && forall c :: c in stream && c.tokenIn in s ==> c.tokenOut in s
  }

  // Everything retired so far is forced, and nothing is lost.
  ghost predicate Sound(stream: seq<Cmd>, s: Scan) {
    && multiset(s.pending) + multiset(s.fired) == multiset(stream)
    && 0 in s.retired
    && (forall c :: c in s.fired ==> c.tokenIn in s.retired && c.tokenOut in s.retired)
    && (forall k :: Closed(stream, k) ==> s.retired <= k)
  }

  lemma InStream(stream: seq<Cmd>, s: Scan, c: Cmd)
    requires multiset(s.pending) + multiset(s.fired) == multiset(stream)
    ensures c in stream <==> c in s.pending || c in s.fired
  {
    assert c in stream <==> c in multiset(stream);
    assert c in s.pending <==> c in multiset(s.pending);
    assert c in s.fired <==> c in multiset(s.fired);
  }

  // Retiring one waiting command whose token is out; the others may move about.
  lemma RetireSound(stream: seq<Cmd>, s: Scan, t: Scan, c: Cmd)
    requires Sound(stream, s) && multiset(t.pending) + multiset{c} == multiset(s.pending) && c.tokenIn in s.retired
    requires t.retired == s.retired + {c.tokenOut} && t.fired == s.fired + [c]
    ensures Sound(stream, t)
  {
    assert c in multiset(s.pending);
    InStream(stream, s, c);
    forall k | Closed(stream, k)
      ensures t.retired <= k
    {
      assert s.retired <= k;
    }
  }

  lemma FireSound(stream: seq<Cmd>, s: Scan, i: nat)
    requires Sound(stream, s) && i < |s.pending| && s.pending[i].tokenIn in s.retired
    ensures Sound(stream, FireAt(s, i))
  {
    SwapRemoveMultiset(s.pending, i);
    RetireSound(stream, s, FireAt(s, i), s.pending[i]);
  }

  lemma {:induction false} ScanSound(stream: seq<Cmd>, s: Scan, i: nat)
    requires Sound(stream, s)
    ensures Sound(stream, ScanFrom(s, i))
    decreases |s.pending|, |s.pending| - i
  {
    if i < |s.pending| {
      if s.pending[i].tokenIn !in s.retired {
        ScanSound(stream, s, i + 1);
      } else {
        FireSound(stream, s, i);
        ScanSound(stream, FireAt(s, i), i);
      }
    }
  }

  // A pass that fires nothing has looked at everything.
  lemma {:induction false} ScanStuck(s: Scan, i: nat)
    requires i <= |s.pending| && |ScanFrom(s, i).pending| == |s.pending|
    ensures ScanFrom(s, i) == s
    ensures forall j :: i <= j < |s.pending| ==> s.pending[j].tokenIn !in s.retired
    decreases |s.pending| - i
  {
    if i < |s.pending| && s.pending[i].tokenIn !in s.retired {
      ScanStuck(s, i + 1);
    }
  }

  lemma {:induction false} PassesSound(stream: seq<Cmd>, s: Scan)
    requires Sound(stream, s)
    ensures var r := RunPasses(s);
            Sound(stream, r) && forall c :: c in r.pending ==> c.tokenIn !in r.retired
    decreases |s.pending|
  {
    ScanSound(stream, s, 0);
    var t := ScanFrom(s, 0);
    if t.pending == [] {
    } else if |t.pending| == |s.pending| {
      ScanStuck(s, 0);
    } else {
      PassesSound(stream, t);
    }
  }

  // Commands whose token_in lies outside a set of tokens.
  function Outside(stream: seq<Cmd>, s: set<nat>): nat {
    if stream == [] then 0
    else
      var n := |stream| - 1;
      Outside(stream[..n], s) + if stream[n].tokenIn in s then 0 else 1
  }

  lemma Cancel(x: multiset<Cmd>, y: multiset<Cmd>, c: Cmd)
    requires x + multiset{c} == y + multiset{c}
    ensures x == y
  {
    assert x == (x + multiset{c}) - multiset{c};
    assert y == (y + multiset{c}) - multiset{c};
  }

  lemma PickOut(b: seq<Cmd>, i: nat)
    requires i < |b|
    ensures b == b[..i] + [b[i]] + b[i + 1..]
    ensures multiset(b) == multiset(b[..i] + b[i + 1..]) + multiset{b[i]}
  {
    var l, r := b[..i], b[i + 1..];
    assert b == l + [b[i]] + r;
    assert multiset(l + [b[i]] + r) == multiset(l) + multiset{b[i]} + multiset(r);
    assert multiset(l + r) == multiset(l) + multiset(r);
  }

  // Somewhere in any rearrangement of a sits a's last command; the others rearrange the rest.
  lemma WithoutLast(a: seq<Cmd>, b: seq<Cmd>) returns (i: nat)
    requires multiset(a) == multiset(b) && a != []
    ensures i < |b| && b[i] == a[|a| - 1] && b == b[..i] + [b[i]] + b[i + 1..]
    ensures multiset(a[..|a| - 1]) == multiset(b[..i] + b[i + 1..])
  {
    var n := |a| - 1;
    PickOut(a, n);
    assert a[..n] + a[n + 1..] == a[..n];
    assert a[n] in multiset(b);
    i :| 0 <= i < |b| && b[i] == a[n];
    PickOut(b, i);
    Cancel(multiset(a[..n]), multiset(b[..i] + b[i + 1..]), a[n]);
  }

  lemma {:induction false} OutsideByMultiset(a: seq<Cmd>, b: seq<Cmd>, s: set<nat>)
    requires multiset(a) == multiset(b)
    ensures Outside(a, s) == Outside(b, s)
    decreases |a|
  {
    if a == [] {
      assert |multiset(b)| == 0;
    } else {
      var n := |a| - 1;
      var i := WithoutLast(a, b);
      OutsideByMultiset(a[..n], b[..i] + b[i + 1..], s);
      OutsideConcat(b[..i], b[i + 1..], s);
      OutsideConcat(b[..i] + [b[i]], b[i + 1..], s);
      assert (b[..i] + [b[i]])[..i] == b[..i];
    }
  }

  lemma {:induction false} OutsideConcat(a: seq<Cmd>, b: seq<Cmd>, s: set<nat>)
    ensures Outside(a + b, s) == Outside(a, s) + Outside(b, s)
  {
    if b == [] {
      assert a + b == a;
    } else {
      var n := |b| - 1;
      OutsideConcat(a, b[..n], s);
      assert (a + b)[..|a| + n] == a + b[..n];
    }
  }

  lemma {:induction false} OutsideAll(a: seq<Cmd>, s: set<nat>, inside: bool)
    requires forall c :: c in a ==> (c.tokenIn in s <==> inside)
    ensures Outside(a, s) == if inside then 0 else |a|
  {
    if a != [] {
      var n := |a| - 1;
      assert a[n] in a;
      assert forall c :: c in a[..n] ==> c in a;
      OutsideAll(a[..n], s, inside);
    }
  }

  ghost predicate Blocked(pending: seq<Cmd>, retired: set<nat>) {
    forall j :: 0 <= j < |pending| ==> pending[j].tokenIn !in retired
  }

  // However a run got here, once nothing that waits can be fired its tokens are the least closed set and what
  // waits is what lies outside it.
  lemma BlockedIsFixpoint(stream: seq<Cmd>, s: Scan)
    requires Sound(stream, s) && Blocked(s.pending, s.retired)
    ensures Closed(stream, s.retired) && |s.pending| == Outside(stream, s.retired)
    ensures forall c :: c in s.pending <==> c in stream && c.tokenIn !in s.retired
  {
    forall c
      ensures c in stream <==> c in s.pending || c in s.fired
    {
      InStream(stream, s, c);
    }
    assert multiset(s.pending + s.fired) == multiset(stream);
    OutsideByMultiset(s.pending + s.fired, stream, s.retired);
    OutsideConcat(s.pending, s.fired, s.retired);
    OutsideAll(s.pending, s.retired, false);
    OutsideAll(s.fired, s.retired, true);
  }

  // Whatever the scan order, the retired tokens are the least set holding token 0 and closed under the stream's
  // token_in -> token_out rule; the run completes exactly when it covers every command, and otherwise exactly
  // the commands outside it are stuck.
  lemma RetiredIsLeastFixpoint(stream: seq<Cmd>)
    ensures var r := RunCpu(stream);
            && Closed(stream, r.retired) && (forall k :: Closed(stream, k) ==> r.retired <= k)
            && multiset(r.pending) + multiset(r.fired) == multiset(stream)
            && (forall c :: c in r.pending <==> c in stream && c.tokenIn !in r.retired)
            && |r.pending| == Outside(stream, r.retired)
  {
    PassesSound(stream, Start(stream));
    BlockedIsFixpoint(stream, RunCpu(stream));
  }

  // Any other way of running the stream to a halt agrees with the plain scan.
  lemma SameVerdict(stream: seq<Cmd>, s: Scan)
    requires Sound(stream, s) && Blocked(s.pending, s.retired)
    ensures s.retired == RunCpu(stream).retired && |s.pending| == |RunCpu(stream).pending|
  {
    BlockedIsFixpoint(stream, s);
    RetiredIsLeastFixpoint(stream);
  }

  // ---------------------------------------------------------------- tokens of a retirement log

  function Tokens(fired: seq<Cmd>): set<nat> {
    if fired == [] then {0} else Tokens(fired[..|fired| - 1]) + {fired[|fired| - 1].tokenOut}
  }

  lemma {:induction false} TokensMembers(fired: seq<Cmd>, t: nat)
    ensures t in Tokens(fired) <==> t == 0 || exists i :: 0 <= i < |fired| && fired[i].tokenOut == t
  {
    if fired != [] {
      var n := |fired| - 1;
      TokensMembers(fired[..n], t);
      if i :| 0 <= i < n && fired[..n][i].tokenOut == t {
        assert fired[i].tokenOut == t;
      }
      if i :| 0 <= i < n && fired[i].tokenOut == t {
        assert fired[..n][i].tokenOut == t;
      }
    }
  }

  // Every command was retired after the token it awaits.
  ghost predicate Causal(fired: seq<Cmd>) {
    forall k :: 0 <= k < |fired| ==> fired[k].tokenIn in Tokens(fired[..k])
  }

  lemma CausalStep(fired: seq<Cmd>, c: Cmd)
    requires Causal(fired) && c.tokenIn in Tokens(fired)
    ensures Causal(fired + [c]) && Tokens(fired + [c]) == Tokens(fired) + {c.tokenOut}
  {
    var more := fired + [c];
    assert more[..|fired|] == fired;
    forall k | 0 <= k < |more|
      ensures more[k].tokenIn in Tokens(more[..k])
    {
      assert more[..k] == fired[..k];
      if k == |fired| {
        assert fired[..k] == fired;
      }
    }
  }

  // ---------------------------------------------------------------- cost

  lemma {:induction false} CostByMultiset(a: seq<Cmd>, b: seq<Cmd>)
    requires multiset(a) == multiset(b)
    ensures TotalCost(a) == TotalCost(b)
    decreases |a|
  {
    if a == [] {
      assert |multiset(b)| == 0;
    } else {
      var n := |a| - 1;
      var i := WithoutLast(a, b);
      CostByMultiset(a[..n], b[..i] + b[i + 1..]);
      CostConcat(b[..i], b[i + 1..]);
      CostConcat(b[..i] + [b[i]], b[i + 1..]);
      assert (b[..i] + [b[i]])[..i] == b[..i];
    }
  }

  lemma {:induction false} CostConcat(a: seq<Cmd>, b: seq<Cmd>)
    ensures TotalCost(a + b) == TotalCost(a) + TotalCost(b)
  {
    if b == [] {
      assert a + b == a;
    } else {
      var n := |b| - 1;
      CostConcat(a, b[..n]);
      assert (a + b)[..|a| + n] == a + b[..n];
    }
  }
}
