// What one barrier writes and reads, and in which order, when every receipt matches.
module BarrierPlan {
  import opened Wrappers
  import opened Bytes
  import opened Certificate

  const OUTPUT := 0x800000
  const LEAF := 0x1000000
  const GROUP := 0x1200000

  datatype Event =
    | OutputRecord(missing: bool, epoch: nat, tile: nat, block: nat, retry: bool, payload: Block, sha: Digest)
    | CertificateWrite(epoch: nat, tile: nat, offset: nat, role: Role, data: Block)
    | CertificateRead(epoch: nat, tile: nat, offset: nat, role: Role, data: Block, expected: Block)
    | Release(epoch: nat, logicalRoot: nat, participants: seq<nat>)

  datatype Metrics = Metrics(rootReads: nat, groupReads: nat, certificateWrites: nat, certificateBytesRead: nat,
                             certificateBytesWritten: nat, released: bool)

  function Tally(m: Metrics, e: Event): Metrics {
    match e
    case CertificateWrite(_, _, _, _, _) =>
      m.(certificateWrites := m.certificateWrites + 1, certificateBytesWritten := m.certificateBytesWritten + 64)
    case CertificateRead(_, _, _, role, _, _) =>
      var read := m.(certificateBytesRead := m.certificateBytesRead + 64);
      if role.RootRole? then read.(rootReads := m.rootReads + 1)
      else if role.GroupRole? then read.(groupReads := m.groupReads + 1) else read
    case _ => m
  }

  function Count(trace: seq<Event>): Metrics {
    if trace == [] then Metrics(0, 0, 0, 0, 0, false)
    else Tally(Count(trace[..|trace| - 1]), trace[|trace| - 1])
  }

  // ---------------------------------------------------------------- one barrier's inputs

  datatype Inputs = Inputs(h: Hash, n: nat, epoch: u32, mode: Mode, hashes: seq<seq<Digest>>, fault: Option<Fault>)

  // Every member fits the mask and every tile's outputs end before the first certificate.
  type Setup = s: Inputs |
    0 < s.n <= MAX_TILES && |s.hashes| == s.n && forall t :: 0 <= t < s.n ==> |s.hashes[t]| <= MAX_BLOCKS
    witness Inputs(x => ZERO_DIGEST, 1, 0, EventMode, [[]], None)

  datatype Leaf = Leaf(tile: nat, offset: nat, cert: Block)

  // One certificate a block in event mode, one a tile otherwise.
  function BlocksOf(s: Setup, tile: nat): (bs: seq<seq<Digest>>)
    requires tile < s.n
    ensures forall i :: 0 <= i < |bs| ==> |bs[i]| <= MAX_BLOCKS
  {
    var hs := s.hashes[tile];
    if s.mode.EventMode? then seq(|hs|, i requires 0 <= i < |hs| => [hs[i]]) else [hs]
  }

  function LeafAt(s: Setup, tile: nat, i: nat): (l: Leaf)
    requires tile < s.n && i < |BlocksOf(s, tile)|
    ensures l.tile == tile && l.offset == LEAF + i * 64
  {
    var hs := BlocksOf(s, tile)[i];
    Leaf(tile, LEAF + i * 64, Certify(s.h, s.epoch, if s.mode.EventMode? then 0 else 1, tile, [tile], hs, |hs|))
  }

  function TileLeaves(s: Setup, tile: nat, i: nat): (ls: seq<Leaf>)
    requires tile < s.n && i <= |BlocksOf(s, tile)|
    ensures |ls| == i && forall k :: 0 <= k < i ==> ls[k] == LeafAt(s, tile, k)
  {
    seq(i, k requires 0 <= k < i => LeafAt(s, tile, k))
  }

  function LeavesTo(s: Setup, t: nat): seq<Leaf>
    requires t <= s.n
  {
    if t == 0 then [] else LeavesTo(s, t - 1) + TileLeaves(s, t - 1, |BlocksOf(s, t - 1)|)
  }

  // The fault lands on the last certificate of the last tile.
  function Target(s: Setup, tile: nat, i: nat): bool
    requires tile < s.n
  {
    s.fault.Some? && tile == s.n - 1 && i + 1 == |BlocksOf(s, tile)|
  }

  ghost predicate Hit(s: Setup, l: Leaf)
  {
    s.fault.Some? && l.tile == s.n - 1 && l.offset + 64 == LEAF + |BlocksOf(s, s.n - 1)| * 64
  }

  ghost function Written(s: Setup, l: Leaf): Block
  {
    if Hit(s, l) && Corrupt(l.cert, s.fault.value).Some? then Corrupt(l.cert, s.fault.value).value else l.cert
  }

  ghost function WriteEvents(s: Setup, leaves: seq<Leaf>): (es: seq<Event>)
    ensures |es| == |leaves|
  {
    seq(|leaves|, k requires 0 <= k < |leaves| =>
      CertificateWrite(s.epoch, leaves[k].tile, leaves[k].offset, LeafRole, Written(s, leaves[k])))
  }

  ghost function ReadEvents(s: Setup, leaves: seq<Leaf>, role: Role): (es: seq<Event>)
    ensures |es| == |leaves|
  {
    seq(|leaves|, k requires 0 <= k < |leaves| =>
      CertificateRead(s.epoch, leaves[k].tile, leaves[k].offset, role, leaves[k].cert, leaves[k].cert))
  }

  // ---------------------------------------------------------------- nested modes

  predicate Nested(mode: Mode) {
    mode.Nested2? || mode.Nested4?
  }

  lemma {:induction false} NestedLeaves(s: Setup, t: nat)
    requires Nested(s.mode) && t <= s.n
    ensures |LeavesTo(s, t)| == t && forall i :: 0 <= i < t ==> LeavesTo(s, t)[i] == LeafAt(s, i, 0)
  {
    if t > 0 {
      NestedLeaves(s, t - 1);
    }
  }

  function MemberLeaves(s: Setup, members: seq<nat>): (ls: seq<Leaf>)
    requires !s.mode.EventMode? && forall j :: 0 <= j < |members| ==> members[j] < s.n
    ensures |ls| == |members| && forall j :: 0 <= j < |ls| ==> ls[j] == LeafAt(s, members[j], 0)
  {
    seq(|members|, j requires 0 <= j < |members| => LeafAt(s, members[j], 0))
  }

  function Certs(leaves: seq<Leaf>): (cs: seq<Block>)
    ensures |cs| == |leaves| && forall i :: 0 <= i < |cs| ==> cs[i] == leaves[i].cert
  {
    seq(|leaves|, i requires 0 <= i < |leaves| => leaves[i].cert)
  }

  function CountHashes(s: Setup, members: seq<nat>): (c: nat)
    requires forall j :: 0 <= j < |members| ==> members[j] < s.n
    ensures c <= |members| * MAX_BLOCKS
  {
    if members == [] then 0
    else CountHashes(s, members[..|members| - 1]) + |s.hashes[members[|members| - 1]]|
  }

  function Representative(s: Setup, k: nat): (r: nat)
    requires k < GroupCount(s.n, s.mode)
    ensures r in Group(s.n, s.mode, k) && r < s.n
  {
    var g := Group(s.n, s.mode, k);
    g[s.epoch % |g|]
  }

  lemma GroupRises(s: Setup, k: nat)
    requires k < GroupCount(s.n, s.mode)
    ensures var g := Group(s.n, s.mode, k);
            Rising(g, s.n) && |g| <= MAX_TILES && forall j :: 0 <= j < |g| ==> g[j] == Start(s.n, s.mode, k) + j
  {
    GroupStart(s.n, s.mode, k);
  }

  // The certificate of a group: its exact members, their certificates' hashes in order, and the block count.
  function Parent(s: Setup, k: nat): Block
    requires Nested(s.mode) && k < GroupCount(s.n, s.mode)
  {
    GroupRises(s, k);
    var g := Group(s.n, s.mode, k);
    Certify(s.h, s.epoch, 2, Representative(s, k), g, HashAll(s.h, Certs(MemberLeaves(s, g))), CountHashes(s, g))
  }

  ghost function GroupPlan(s: Setup, k: nat): seq<Event>
    requires Nested(s.mode) && k < GroupCount(s.n, s.mode)
  {
    GroupRises(s, k);
    ReadEvents(s, MemberLeaves(s, Group(s.n, s.mode, k)), GroupRole)
      + [CertificateWrite(s.epoch, Representative(s, k), GROUP, GroupRole, Parent(s, k))]
  }

  function Concat(parts: seq<seq<Event>>): seq<Event> {
    if parts == [] then [] else Concat(parts[..|parts| - 1]) + parts[|parts| - 1]
  }

  ghost function GroupPlans(s: Setup, k: nat): (ps: seq<seq<Event>>)
    requires Nested(s.mode) && k <= GroupCount(s.n, s.mode)
    ensures |ps| == k && forall i :: 0 <= i < k ==> ps[i] == GroupPlan(s, i)
  {
    seq(k, i requires 0 <= i < k => GroupPlan(s, i))
  }

  function ParentLeaf(s: Setup, k: nat): Leaf
    requires Nested(s.mode) && k < GroupCount(s.n, s.mode)
  {
    Leaf(Representative(s, k), GROUP, Parent(s, k))
  }

  ghost function ParentLeaves(s: Setup, k: nat): (ls: seq<Leaf>)
    requires Nested(s.mode) && k <= GroupCount(s.n, s.mode)
    ensures |ls| == k && forall j :: 0 <= j < k ==> ls[j] == ParentLeaf(s, j)
  {
    seq(k, j requires 0 <= j < k => ParentLeaf(s, j))
  }

  // ---------------------------------------------------------------- the whole barrier

  ghost function ReadPlan(s: Setup): seq<Event>
  {
    if Nested(s.mode) then
      var k := GroupCount(s.n, s.mode);
      Concat(GroupPlans(s, k)) + ReadEvents(s, ParentLeaves(s, k), RootRole)
    else ReadEvents(s, LeavesTo(s, s.n), RootRole)
  }

  ghost function Plan(s: Setup): seq<Event>
  {
    WriteEvents(s, LeavesTo(s, s.n)) + ReadPlan(s)
  }

  // The plan up to a read whose receipt differed, attributed to that tile and the first differing field.
  ghost predicate Stopped(plan: seq<Event>, trace: seq<Event>, e: BarrierError) {
    0 < |trace| <= |plan| &&
    var m := |trace| - 1;
    && trace[..m] == plan[..m] && plan[m].CertificateRead? && trace[m].CertificateRead?
    && trace[m] == plan[m].(data := trace[m].data)
    && CheckCertificate(trace[m].data, plan[m].expected, plan[m].tile, plan[m].epoch, plan[m].role) == Some(e)
  }

  lemma StoppedEarly(a: seq<Event>, b: seq<Event>, trace: seq<Event>, e: BarrierError)
    requires Stopped(a, trace, e)
    ensures Stopped(a + b, trace, e)
  {
    var m := |trace| - 1;
    assert (a + b)[..m] == a[..m];
  }

  lemma StoppedLater(a: seq<Event>, b: seq<Event>, trace: seq<Event>, e: BarrierError)
    requires Stopped(b, trace, e)
    ensures Stopped(a + b, a + trace, e)
  {
    var m := |trace| - 1;
    assert (a + trace)[..|a| + m] == a + trace[..m];
    assert (a + b)[..|a| + m] == a + b[..m];
  }

  // ---------------------------------------------------------------- accounting

  lemma {:induction false} CountConcat(a: seq<Event>, b: seq<Event>)
    ensures var x, y, z := Count(a), Count(b), Count(a + b);
            && z.rootReads == x.rootReads + y.rootReads && z.groupReads == x.groupReads + y.groupReads
            && z.certificateWrites == x.certificateWrites + y.certificateWrites
            && z.certificateBytesRead == x.certificateBytesRead + y.certificateBytesRead
            && z.certificateBytesWritten == x.certificateBytesWritten + y.certificateBytesWritten
            && !x.released && !y.released && !z.released
  {
    if b == [] {
      assert a + b == a;
      if a != [] {
        CountConcat(a[..|a| - 1], []);
        assert a[..|a| - 1] + [] == a[..|a| - 1];
      }
    } else {
      CountConcat(a, b[..|b| - 1]);
      assert (a + b)[..|a + b| - 1] == a + b[..|b| - 1];
    }
  }

  lemma {:induction false} CountWrites(s: Setup, leaves: seq<Leaf>)
    ensures Count(WriteEvents(s, leaves)) == Metrics(0, 0, |leaves|, 0, 64 * |leaves|, false)
  {
    if leaves != [] {
      CountWrites(s, leaves[..|leaves| - 1]);
      assert WriteEvents(s, leaves)[..|leaves| - 1] == WriteEvents(s, leaves[..|leaves| - 1]);
    }
  }

  lemma {:induction false} CountReads(s: Setup, leaves: seq<Leaf>, role: Role)
    requires !role.LeafRole?
    ensures Count(ReadEvents(s, leaves, role))
              == Metrics(if role.RootRole? then |leaves| else 0, if role.RootRole? then 0 else |leaves|, 0,
                         64 * |leaves|, 0, false)
  {
    if leaves != [] {
      CountReads(s, leaves[..|leaves| - 1], role);
      assert ReadEvents(s, leaves, role)[..|leaves| - 1] == ReadEvents(s, leaves[..|leaves| - 1], role);
    }
  }

  // A plan per group, each reading its members' certificates and writing one.
  lemma {:induction false} CountGroups(plans: seq<seq<Event>>, sizes: seq<nat>)
    requires |plans| == |sizes|
    requires forall i :: 0 <= i < |plans| ==> Count(plans[i]) == Metrics(0, sizes[i], 1, 64 * sizes[i], 64, false)
    ensures Count(Concat(plans)) == Metrics(0, Sum(sizes), |plans|, 64 * Sum(sizes), 64 * |plans|, false)
  {
    if plans != [] {
      var n := |plans| - 1;
      CountGroups(plans[..n], sizes[..n]);
      CountConcat(Concat(plans[..n]), plans[n]);
    }
  }

  function GroupSizes(n: nat, mode: Mode, k: nat): (ss: seq<nat>)
    requires n > 0 && k <= GroupCount(n, mode)
    ensures |ss| == k && forall i :: 0 <= i < k ==> ss[i] == |Group(n, mode, i)|
  {
    seq(k, i requires 0 <= i < k => |Group(n, mode, i)|)
  }

  lemma {:induction false} SizesAdd(n: nat, mode: Mode, k: nat)
    requires n > 0 && k <= GroupCount(n, mode)
    ensures Sum(GroupSizes(n, mode, k)) == Min(n, Start(n, mode, k))
  {
    if k > 0 {
      SizesAdd(n, mode, k - 1);
      GroupStart(n, mode, k - 1);
      assert GroupSizes(n, mode, k)[..k - 1] == GroupSizes(n, mode, k - 1);
    }
  }

  lemma CountGroup(s: Setup, k: nat)
    requires Nested(s.mode) && k < GroupCount(s.n, s.mode)
    ensures var m := |Group(s.n, s.mode, k)|; Count(GroupPlan(s, k)) == Metrics(0, m, 1, 64 * m, 64, false)
  {
    GroupRises(s, k);
    var front := ReadEvents(s, MemberLeaves(s, Group(s.n, s.mode, k)), GroupRole);
    CountReads(s, MemberLeaves(s, Group(s.n, s.mode, k)), GroupRole);
    assert GroupPlan(s, k)[..|front|] == front;
  }

  lemma {:induction false} LeafCount(s: Setup, blocks: nat, t: nat)
    requires t <= s.n && forall i :: 0 <= i < s.n ==> |s.hashes[i]| == blocks
    ensures |LeavesTo(s, t)| == if s.mode.EventMode? then t * blocks else t
  {
    if t > 0 {
      LeafCount(s, blocks, t - 1);
      assert t * blocks == (t - 1) * blocks + blocks;
    }
  }

  lemma MemberAccounting(s: Setup)
    requires Nested(s.mode)
    ensures var k := GroupCount(s.n, s.mode);
            Count(Concat(GroupPlans(s, k))) == Metrics(0, s.n, k, 64 * s.n, 64 * k, false)
  {
    var k := GroupCount(s.n, s.mode);
    forall i | 0 <= i < k
      ensures var m := |Group(s.n, s.mode, i)|; Count(GroupPlan(s, i)) == Metrics(0, m, 1, 64 * m, 64, false)
    {
      CountGroup(s, i);
    }
    CountGroups(GroupPlans(s, k), GroupSizes(s.n, s.mode, k));
    SizesAdd(s.n, s.mode, k);
    GroupStart(s.n, s.mode, k);
  }

  lemma NestedAccounting(s: Setup)
    requires Nested(s.mode)
    ensures var k := GroupCount(s.n, s.mode);
            Count(ReadPlan(s)) == Metrics(k, s.n, k, 64 * (s.n + k), 64 * k, false)
  {
    var k := GroupCount(s.n, s.mode);
    MemberAccounting(s);
    CountReads(s, ParentLeaves(s, k), RootRole);
    CountConcat(Concat(GroupPlans(s, k)), ReadEvents(s, ParentLeaves(s, k), RootRole));
  }

  function RootReads(n: nat, blocks: nat, mode: Mode): nat {
    match mode
    case EventMode => n * blocks
    case TileMode => n
    case Nested2 => (n + 1) / 2
    case Nested4 => (n + 3) / 4
  }

  function GroupReads(n: nat, mode: Mode): nat {
    if Nested(mode) then n else 0
  }

  lemma ReadAccounting(s: Setup, blocks: nat)
    requires forall i :: 0 <= i < s.n ==> |s.hashes[i]| == blocks
    ensures var r, g := RootReads(s.n, blocks, s.mode), GroupReads(s.n, s.mode);
            Count(ReadPlan(s)) == Metrics(r, g, if Nested(s.mode) then r else 0, 64 * (r + g),
                                          if Nested(s.mode) then 64 * r else 0, false)
  {
    if Nested(s.mode) {
      NestedAccounting(s);
    } else {
      LeafTotal(s, blocks);
      CountReads(s, LeavesTo(s, s.n), RootRole);
    }
  }

  lemma LeafTotal(s: Setup, blocks: nat)
    requires forall i :: 0 <= i < s.n ==> |s.hashes[i]| == blocks
    ensures |LeavesTo(s, s.n)| == if Nested(s.mode) then s.n else RootReads(s.n, blocks, s.mode)
  {
    LeafCount(s, blocks, s.n);
  }

  // A released barrier over n tiles of equally many blocks: n * blocks, n or one per group root reads by mode, n
  // group reads exactly when nested, a write for every read, and 64 bytes for each.
  lemma ReleasedAccounting(s: Setup, blocks: nat)
    requires forall i :: 0 <= i < s.n ==> |s.hashes[i]| == blocks
    ensures var m := Count(Plan(s));
            && m.rootReads == RootReads(s.n, blocks, s.mode) && m.groupReads == GroupReads(s.n, s.mode)
            && m.certificateWrites == m.rootReads + m.groupReads
            && m.certificateBytesRead == 64 * (m.rootReads + m.groupReads)
            && m.certificateBytesWritten == 64 * m.certificateWrites
  {
    LeafTotal(s, blocks);
    CountWrites(s, LeavesTo(s, s.n));
    ReadAccounting(s, blocks);
    CountConcat(WriteEvents(s, LeavesTo(s, s.n)), ReadPlan(s));
  }

  // ---------------------------------------------------------------- what the root certificate binds

  // Every string hashed below a group's certificate: its own message, its members' certificates and theirs.
  function HashedBy(s: Setup, k: nat): set<seq<u8>>
    requires Nested(s.mode) && k < GroupCount(s.n, s.mode)
  {
    GroupRises(s, k);
    var g := Group(s.n, s.mode, k);
    {Message(s.h, HashAll(s.h, Certs(MemberLeaves(s, g))))} + (set t | t in g :: LeafAt(s, t, 0).cert)
      + (set t | t in g :: Message(s.h, s.hashes[t]))
  }

  // The two groups certify the same epoch, members and, for every member, ordered output hashes.
  ghost predicate SameWork(a: Setup, i: nat, b: Setup, j: nat)
    requires i < GroupCount(a.n, a.mode) && j < GroupCount(b.n, b.mode)
  {
    && a.epoch == b.epoch && Group(a.n, a.mode, i) == Group(b.n, b.mode, j)
    && forall t :: t in Group(a.n, a.mode, i) ==> t < a.n && t < b.n && a.hashes[t] == b.hashes[t]
  }

  // Two nested barriers of any shape with the same certificate for a group did the same work there, or two
  // colliding strings are handed back, one hashed below each certificate.
  lemma ParentBinds(a: Setup, i: nat, b: Setup, j: nat) returns (x: seq<u8>, y: seq<u8>)
    requires Nested(a.mode) && i < GroupCount(a.n, a.mode)
    requires Nested(b.mode) && j < GroupCount(b.n, b.mode)
    requires a.h == b.h && Parent(a, i) == Parent(b, j)
    ensures a.epoch == b.epoch && Group(a.n, a.mode, i) == Group(b.n, b.mode, j)
    ensures SameWork(a, i, b, j) || (x in HashedBy(a, i) && y in HashedBy(b, j) && Collide(a.h, x, y))
  {
    hide Certify, Message, CountHashes, Group, Representative, LeafAt, Collide;
    GroupRises(a, i);
    GroupRises(b, j);
    var g, g' := Group(a.n, a.mode, i), Group(b.n, b.mode, j);
    var ds, ds' := HashAll(a.h, Certs(MemberLeaves(a, g))), HashAll(b.h, Certs(MemberLeaves(b, g')));
    CertifyBinds(a.h, a.epoch, 2, Representative(a, i), g, ds, CountHashes(a, g),
                 b.epoch, 2, Representative(b, j), g', ds', CountHashes(b, g'));
    x, y := Message(a.h, ds), Message(b.h, ds');
    if ds == ds' && exists t :: t in g && a.hashes[t] != b.hashes[t] {
      var t :| t in g && a.hashes[t] != b.hashes[t];
      var m :| 0 <= m < |g| && g[m] == t;
      assert ds[m] == ds'[m];
      x, y := MemberBinds(a, b, t);
    }
  }

  // One member: equal certificates or certificate hashes leave a collision at the first level that differs.
  lemma MemberBinds(a: Setup, b: Setup, t: nat) returns (x: seq<u8>, y: seq<u8>)
    requires Nested(a.mode) && Nested(b.mode) && t < a.n && t < b.n && a.h == b.h
    requires a.h(LeafAt(a, t, 0).cert) == b.h(LeafAt(b, t, 0).cert) && a.hashes[t] != b.hashes[t]
    ensures x in {LeafAt(a, t, 0).cert, Message(a.h, a.hashes[t])}
    ensures y in {LeafAt(b, t, 0).cert, Message(b.h, b.hashes[t])}
    ensures Collide(a.h, x, y)
  {
    x, y := LeafAt(a, t, 0).cert, LeafAt(b, t, 0).cert;
    if x == y {
      LeafBinds(a, b, t);
      x, y := Message(a.h, a.hashes[t]), Message(b.h, b.hashes[t]);
    }
  }

  lemma LeafBinds(a: Setup, b: Setup, t: nat)
    requires !a.mode.EventMode? && !b.mode.EventMode? && t < a.n && t < b.n && a.h == b.h
    requires LeafAt(a, t, 0).cert == LeafAt(b, t, 0).cert
    ensures a.epoch == b.epoch
    ensures a.hashes[t] == b.hashes[t] || Collide(a.h, Message(a.h, a.hashes[t]), Message(b.h, b.hashes[t]))
  {
    CertifyBinds(a.h, a.epoch, 1, t, [t], a.hashes[t], |a.hashes[t]|, b.epoch, 1, t, [t], b.hashes[t], |b.hashes[t]|);
  }

  ghost predicate InjectiveOn(h: Hash, xs: set<seq<u8>>) {
    forall x, y :: x in xs && y in xs ==> !Collide(h, x, y)
  }

  // When the hash separates the strings the two certificates hash, they are equal exactly for the same work.
  lemma ParentIdentifies(a: Setup, i: nat, b: Setup, j: nat)
    requires Nested(a.mode) && i < GroupCount(a.n, a.mode)
    requires Nested(b.mode) && j < GroupCount(b.n, b.mode)
    requires a.h == b.h && InjectiveOn(a.h, HashedBy(a, i) + HashedBy(b, j))
    ensures Parent(a, i) == Parent(b, j) <==> SameWork(a, i, b, j)
  {
    hide Certify, HashedBy, Parent;
    if Parent(a, i) == Parent(b, j) {
      var x, y := ParentBinds(a, i, b, j);
    }
    if SameWork(a, i, b, j) {
      SameParent(a, i, b, j);
    }
  }

  lemma SameParent(a: Setup, i: nat, b: Setup, j: nat)
    requires Nested(a.mode) && i < GroupCount(a.n, a.mode)
    requires Nested(b.mode) && j < GroupCount(b.n, b.mode)
    requires a.h == b.h && SameWork(a, i, b, j)
    ensures Parent(a, i) == Parent(b, j)
  {
    hide Certify, Group, Message;
    GroupRises(a, i);
    GroupRises(b, j);
    var g := Group(a.n, a.mode, i);
    assert forall m :: 0 <= m < |g| ==> g[m] in g;
    SameCount(a, b, g);
    assert forall m :: 0 <= m < |g| ==> LeafAt(a, g[m], 0).cert == LeafAt(b, g[m], 0).cert;
    assert Certs(MemberLeaves(a, g)) == Certs(MemberLeaves(b, g));
  }

  lemma {:induction false} SameCount(a: Setup, b: Setup, members: seq<nat>)
    requires forall m :: 0 <= m < |members| ==>
      members[m] < a.n && members[m] < b.n && a.hashes[members[m]] == b.hashes[members[m]]
    ensures CountHashes(a, members) == CountHashes(b, members)
  {
    if members != [] {
      var n := |members| - 1;
      SameCount(a, b, members[..n]);
    }
  }
}
