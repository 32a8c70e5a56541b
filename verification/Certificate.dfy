// 64-byte barrier certificates: packing, the four injected faults, attribution of a mismatch, tile groups, and
// what a nested root certificate binds. The hash is an arbitrary function to 32 bytes.
module Certificate {
  import opened Wrappers
  import opened Bytes

  type Digest = d: seq<u8> | |d| == 32 witness seq(32, i => 0)
  type Block = b: seq<u8> | |b| == 64 witness seq(64, i => 0)
  type Hash = seq<u8> -> Digest

  const ZERO_DIGEST: Digest := seq(32, i => 0)

  const MAGIC: u32 := 0x53425350
  const POLICY_TEXT := "slugarch-bsp-v1;exact-membership;epoch;ordered-hashes;mod64-reduction"
  const MAX_TILES := 64       // the membership mask is one 64-bit word
  const MAX_BLOCKS := 0x20000 // output region up to the first certificate

  datatype Cert = Cert(magic: u32, epoch: u32, kind: u32, owner: u32, membership: u64, digest: Digest, count: u64)

  datatype Fault = BadMagic | StaleEpoch | WrongKind | WrongTile | WrongMembership | CorruptDigest | MissingRecord

  datatype Mode = EventMode | TileMode | Nested2 | Nested4

  datatype Role = LeafRole | GroupRole | RootRole

  datatype BarrierError = BarrierError(tile: nat, epoch: nat, stage: Role, fault: Fault)

  // ---------------------------------------------------------------- the 64-byte form

  function Pack(c: Cert): Block {
    ToLE(c.magic, 4) + ToLE(c.epoch, 4) + ToLE(c.kind, 4) + ToLE(c.owner, 4) + ToLE(c.membership, 8) + c.digest
      + ToLE(c.count, 8)
  }

  function Field32(b: Block, at: nat): u32
    requires at + 4 <= 64
  {
    ToFromLE(b[at..at + 4]);
    Pow256Values();
    FromLE(b[at..at + 4])
  }

  function Field64(b: Block, at: nat): u64
    requires at + 8 <= 64
  {
    ToFromLE(b[at..at + 8]);
    Pow256Values();
    FromLE(b[at..at + 8])
  }

  function Unpack(b: Block): Cert {
    Cert(Field32(b, 0), Field32(b, 4), Field32(b, 8), Field32(b, 12), Field64(b, 16), b[24..56], Field64(b, 56))
  }

  lemma LE32(x: u32)
    ensures FromLE(ToLE(x, 4)) == x
  {
    FromToLE(x, 4);
    Pow256Values();
  }

  lemma LE64(x: u64)
    ensures FromLE(ToLE(x, 8)) == x
  {
    FromToLE(x, 8);
    Pow256Values();
  }

  lemma PackSlices(c: Cert)
    ensures var b := Pack(c);
            && b[0..4] == ToLE(c.magic, 4) && b[4..8] == ToLE(c.epoch, 4) && b[8..12] == ToLE(c.kind, 4)
            && b[12..16] == ToLE(c.owner, 4) && b[16..24] == ToLE(c.membership, 8) && b[24..56] == c.digest
            && b[56..64] == ToLE(c.count, 8)
  {
  }

  lemma UnpackPacked(c: Cert)
    ensures Unpack(Pack(c)) == c
  {
    PackSlices(c);
    LE32(c.magic);
    LE32(c.epoch);
    LE32(c.kind);
    LE32(c.owner);
    LE64(c.membership);
    LE64(c.count);
  }

  lemma PackUnpacked(b: Block)
    ensures Pack(Unpack(b)) == b
  {
    hide ToLE, FromLE;
    ToFromLE(b[0..4]);
    ToFromLE(b[4..8]);
    ToFromLE(b[8..12]);
    ToFromLE(b[12..16]);
    ToFromLE(b[16..24]);
    ToFromLE(b[56..64]);
    assert b == b[0..4] + b[4..8] + b[8..12] + b[12..16] + b[16..24] + b[24..56] + b[56..64];
  }

  // ---------------------------------------------------------------- faults and their attribution

  function FlipLow(d: Digest): Digest {
    [if d[0] % 2 == 0 then d[0] + 1 else d[0] - 1] + d[1..]
  }

  // None where packing the changed fields, or the fault's name itself, is refused.
  function Corrupt(cert: Block, fault: Fault): Option<Block> {
    var v := Unpack(cert);
    match fault
    case MissingRecord => if v.count == 0 then None else Some(Pack(v.(count := v.count - 1)))
    case StaleEpoch => if v.epoch == 0 then None else Some(Pack(v.(epoch := v.epoch - 1)))
    case WrongTile => if v.owner == 0xFFFF_FFFF then None else Some(Pack(v.(owner := v.owner + 1)))
    case CorruptDigest => Some(Pack(v.(digest := FlipLow(v.digest))))
    case _ => None
  }

  // The first field, in layout order, in which the two differ.
  function CheckCertificate(actual: Block, expected: Block, tile: nat, epoch: nat, stage: Role): (r: Option<BarrierError>)
    ensures r.None? <==> actual == expected
    ensures r.Some? ==> r.value.tile == tile && r.value.epoch == epoch && r.value.stage == stage
  {
    if actual == expected then None
    else
      var a, e := Unpack(actual), Unpack(expected);
      var fault :=
        if a.magic != e.magic then BadMagic
        else if a.epoch != e.epoch then StaleEpoch
        else if a.kind != e.kind then WrongKind
        else if a.owner != e.owner then WrongTile
        else if a.membership != e.membership then WrongMembership
        else if a.digest != e.digest then CorruptDigest
        else MissingRecord;
      Some(BarrierError(tile, epoch, stage, fault))
  }

  // The field a fault is about, in layout order.
  function Layout(fault: Fault): nat {
    match fault
    case BadMagic => 0
    case StaleEpoch => 1
    case WrongKind => 2
    case WrongTile => 3
    case WrongMembership => 4
    case CorruptDigest => 5
    case MissingRecord => 6
  }

  ghost predicate Differs(fault: Fault, a: Cert, e: Cert) {
    match fault
    case BadMagic => a.magic != e.magic
    case StaleEpoch => a.epoch != e.epoch
    case WrongKind => a.kind != e.kind
    case WrongTile => a.owner != e.owner
    case WrongMembership => a.membership != e.membership
    case CorruptDigest => a.digest != e.digest
    case MissingRecord => a.count != e.count
  }

  // Any two different certificates are told apart by a field, and the report names the first such field.
  lemma FirstDifference(actual: Block, expected: Block, tile: nat, epoch: nat, stage: Role, fault: Fault)
    requires actual != expected
    ensures var a, e := Unpack(actual), Unpack(expected);
            (CheckCertificate(actual, expected, tile, epoch, stage) == Some(BarrierError(tile, epoch, stage, fault)))
            <==> (Differs(fault, a, e) && forall f :: Layout(f) < Layout(fault) ==> !Differs(f, a, e))
  {
    hide Pack, Unpack;
    PackUnpacked(actual);
    PackUnpacked(expected);
    var found := CheckCertificate(actual, expected, tile, epoch, stage).value.fault;
    assert Differs(found, Unpack(actual), Unpack(expected));
    assert fault != found ==> Layout(fault) != Layout(found);
  }

  // Each injected fault is caught and reported under its own name.
  lemma FaultIsAttributed(cert: Block, fault: Fault, tile: nat, epoch: nat, stage: Role)
    requires Corrupt(cert, fault).Some?
    ensures CheckCertificate(Corrupt(cert, fault).value, cert, tile, epoch, stage)
              == Some(BarrierError(tile, epoch, stage, fault))
  {
    hide Pack, Unpack;
    var v := Unpack(cert);
    match fault
    case MissingRecord => UnpackPacked(v.(count := v.count - 1));
    case StaleEpoch => UnpackPacked(v.(epoch := v.epoch - 1));
    case WrongTile => UnpackPacked(v.(owner := v.owner + 1));
    case CorruptDigest =>
      UnpackPacked(v.(digest := FlipLow(v.digest)));
      assert FlipLow(v.digest)[0] != v.digest[0];
    case _ =>
  }

  // ---------------------------------------------------------------- membership

  function Pow2(n: nat): (p: nat)
    ensures p > 0
  {
    if n == 0 then 1 else 2 * Pow2(n - 1)
  }

  lemma Pow2Eight(n: nat)
    ensures Pow2(n + 8) == 256 * Pow2(n)
  {
    assert Pow2(n + 2) == 4 * Pow2(n);
    assert Pow2(n + 4) == 4 * Pow2(n + 2);
    assert Pow2(n + 6) == 4 * Pow2(n + 4);
    assert Pow2(n + 8) == 4 * Pow2(n + 6);
  }

  lemma Pow2At64()
    ensures Pow2(64) == WORD64
  {
    Pow2Eight(0);
    Pow2Eight(8);
    Pow2Eight(16);
    Pow2Eight(24);
    Pow2Eight(32);
    Pow2Eight(40);
    Pow2Eight(48);
    Pow2Eight(56);
  }

  lemma {:induction false} Pow2Grows(a: nat, b: nat)
    requires a <= b
    ensures Pow2(a) <= Pow2(b)
  {
    if a < b {
      Pow2Grows(a, b - 1);
    }
  }

  function Mask(members: seq<nat>): nat {
    if members == [] then 0 else Mask(members[..|members| - 1]) + Pow2(members[|members| - 1])
  }

  ghost predicate Rising(members: seq<nat>, bound: nat) {
    && (forall i, j :: 0 <= i < j < |members| ==> members[i] < members[j])
    && (forall i :: 0 <= i < |members| ==> members[i] < bound)
  }

  lemma {:induction false} MaskBound(members: seq<nat>, bound: nat)
    requires Rising(members, bound)
    ensures Mask(members) < Pow2(bound)
    ensures members != [] ==> Pow2(members[|members| - 1]) <= Mask(members) < Pow2(members[|members| - 1] + 1)
  {
    if members != [] {
      var n := |members| - 1;
      MaskBound(members[..n], members[n]);
      Pow2Grows(members[n] + 1, bound);
    }
  }

  // The mask determines the members.
  lemma {:induction false} MaskInjective(a: seq<nat>, b: seq<nat>, bound: nat)
    requires Rising(a, bound) && Rising(b, bound) && Mask(a) == Mask(b)
    ensures a == b
  {
    MaskBound(a, bound);
    MaskBound(b, bound);
    if a != [] && b != [] {
      var m, n := |a| - 1, |b| - 1;
      if a[m] < b[n] {
        Pow2Grows(a[m] + 1, b[n]);
      }
      if b[n] < a[m] {
        Pow2Grows(b[n] + 1, a[m]);
      }
      MaskInjective(a[..m], b[..n], bound);
      assert a == a[..m] + [a[m]] && b == b[..n] + [b[n]];
    }
  }

  // ---------------------------------------------------------------- certificates over ordered hashes

  function Join(hashes: seq<Digest>): (bs: seq<u8>)
    ensures |bs| == 32 * |hashes|
  {
    if hashes == [] then [] else Join(hashes[..|hashes| - 1]) + hashes[|hashes| - 1]
  }

  lemma {:induction false} JoinInjective(a: seq<Digest>, b: seq<Digest>)
    requires Join(a) == Join(b)
    ensures a == b
  {
    assert 32 * |a| == 32 * |b|;
    if a != [] {
      var n := |a| - 1;
      assert Join(a)[..32 * n] == Join(a[..n]) && Join(a)[32 * n..] == a[n];
      assert Join(b)[..32 * n] == Join(b[..n]) && Join(b)[32 * n..] == b[n];
      JoinInjective(a[..n], b[..n]);
      assert a == a[..n] + [a[n]] && b == b[..n] + [b[n]];
    }
  }

  function PolicyBytes(): seq<u8> {
    seq(|POLICY_TEXT|, i requires 0 <= i < |POLICY_TEXT| => POLICY_TEXT[i] as int % 256)
  }

  // What a certificate's digest is the hash of.
  function Message(h: Hash, hashes: seq<Digest>): seq<u8> {
    h(PolicyBytes()) + Join(hashes)
  }

  function Summary(h: Hash, hashes: seq<Digest>): Digest {
    h(Message(h, hashes))
  }

  function Certify(h: Hash, epoch: u32, kind: u32, owner: u32, members: seq<nat>, hashes: seq<Digest>, count: u64): Block
    requires Rising(members, MAX_TILES)
  {
    MaskBound(members, MAX_TILES);
    Pow2At64();
    Pack(Cert(MAGIC, epoch, kind, owner, Mask(members), Summary(h, hashes), count))
  }

  // These very strings are a hash collision.
  ghost predicate Collide(h: Hash, x: seq<u8>, y: seq<u8>) {
    x != y && h(x) == h(y)
  }

  lemma SummaryBinds(h: Hash, a: seq<Digest>, b: seq<Digest>)
    requires Summary(h, a) == Summary(h, b)
    ensures a == b || Collide(h, Message(h, a), Message(h, b))
  {
    var p: seq<u8> := h(PolicyBytes());
    if p + Join(a) == p + Join(b) {
      assert (p + Join(a))[|p|..] == Join(a) && (p + Join(b))[|p|..] == Join(b);
      JoinInjective(a, b);
    }
  }

  // Equal certificates certify the same things, or the two digests' own messages collide.
  lemma CertifyBinds(h: Hash, epoch1: u32, kind1: u32, owner1: u32, members1: seq<nat>, hashes1: seq<Digest>, count1: u64,
                     epoch2: u32, kind2: u32, owner2: u32, members2: seq<nat>, hashes2: seq<Digest>, count2: u64)
    requires Rising(members1, MAX_TILES) && Rising(members2, MAX_TILES)
    requires Certify(h, epoch1, kind1, owner1, members1, hashes1, count1)
               == Certify(h, epoch2, kind2, owner2, members2, hashes2, count2)
    ensures epoch1 == epoch2 && kind1 == kind2 && owner1 == owner2 && members1 == members2 && count1 == count2
    ensures hashes1 == hashes2 || Collide(h, Message(h, hashes1), Message(h, hashes2))
  {
    MaskBound(members1, MAX_TILES);
    MaskBound(members2, MAX_TILES);
    Pow2At64();
    UnpackPacked(Cert(MAGIC, epoch1, kind1, owner1, Mask(members1), Summary(h, hashes1), count1));
    UnpackPacked(Cert(MAGIC, epoch2, kind2, owner2, Mask(members2), Summary(h, hashes2), count2));
    MaskInjective(members1, members2, MAX_TILES);
    SummaryBinds(h, hashes1, hashes2);
  }

  function HashAll(h: Hash, certs: seq<Block>): (ds: seq<Digest>)
    ensures |ds| == |certs| && forall i :: 0 <= i < |ds| ==> ds[i] == h(certs[i])
  {
    seq(|certs|, i requires 0 <= i < |certs| => h(certs[i]))
  }

  // ---------------------------------------------------------------- groups

  function GroupSize(n: nat, mode: Mode): nat {
    match mode
    case Nested2 => 2
    case Nested4 => 4
    case _ => n
  }

  function Range(a: nat, b: nat): (r: seq<nat>)
    requires a <= b
    ensures |r| == b - a && forall i :: 0 <= i < |r| ==> r[i] == a + i
  {
    seq(b - a, i requires 0 <= i < b - a => a + i)
  }

  function Min(a: nat, b: nat): nat {
    if a < b then a else b
  }

  // The k-th element of range(0, n, size), and how many there are.
  function Start(n: nat, mode: Mode, k: nat): nat {
    match mode
    case Nested2 => 2 * k
    case Nested4 => 4 * k
    case _ => n * k
  }

  function GroupCount(n: nat, mode: Mode): (c: nat)
    requires n > 0
    ensures c > 0
  {
    match mode
    case Nested2 => (n + 1) / 2
    case Nested4 => (n + 3) / 4
    case _ => 1
  }

  lemma GroupStart(n: nat, mode: Mode, k: nat)
    requires n > 0
    ensures k < GroupCount(n, mode) <==> Start(n, mode, k) < n
    ensures Start(n, mode, k + 1) == Start(n, mode, k) + GroupSize(n, mode)
  {
    if mode.EventMode? || mode.TileMode? {
      if k >= 1 { assert n * k >= n by { Sign(n, k); } }
    }
  }

  function Group(n: nat, mode: Mode, k: nat): (g: seq<nat>)
    requires n > 0 && k < GroupCount(n, mode)
    ensures g != []
  {
    GroupStart(n, mode, k);
    var i := Start(n, mode, k);
    Range(i, Min(n, i + GroupSize(n, mode)))
  }

  function GroupsFor(n: nat, mode: Mode): (gs: seq<seq<nat>>)
    requires n > 0
    ensures |gs| == GroupCount(n, mode) && forall k :: 0 <= k < |gs| ==> gs[k] == Group(n, mode, k)
  {
    seq(GroupCount(n, mode), k requires 0 <= k < GroupCount(n, mode) => Group(n, mode, k))
  }

  function Flatten(gs: seq<seq<nat>>): seq<nat> {
    if gs == [] then [] else Flatten(gs[..|gs| - 1]) + gs[|gs| - 1]
  }

  lemma RangesMeet(a: nat, b: nat, c: nat)
    requires a <= b <= c
    ensures Range(a, b) + Range(b, c) == Range(a, c)
  {
  }

  lemma {:induction false} FirstGroups(n: nat, mode: Mode, k: nat)
    requires n > 0 && k <= GroupCount(n, mode)
    ensures Flatten(GroupsFor(n, mode)[..k]) == Range(0, Min(n, Start(n, mode, k)))
  {
    var gs := GroupsFor(n, mode);
    if k == 0 {
      assert gs[..0] == [];
    } else {
      FirstGroups(n, mode, k - 1);
      GroupStart(n, mode, k - 1);
      var i := Start(n, mode, k - 1);
      FlattenNext(gs, k - 1);
      RangesMeet(0, i, Min(n, i + GroupSize(n, mode)));
    }
  }

  lemma FlattenNext(gs: seq<seq<nat>>, k: nat)
    requires k < |gs|
    ensures Flatten(gs[..k + 1]) == Flatten(gs[..k]) + gs[k]
  {
    assert gs[..k + 1][..k] == gs[..k];
  }

  // Only the last group holds the last tile.
  lemma LastTile(n: nat, mode: Mode, k: nat)
    requires n > 0 && k < GroupCount(n, mode)
    ensures n - 1 in Group(n, mode, k) <==> k == GroupCount(n, mode) - 1
    ensures k == GroupCount(n, mode) - 1 ==> Group(n, mode, k)[|Group(n, mode, k)| - 1] == n - 1
    ensures |Group(n, mode, k)| <= GroupSize(n, mode)
  {
    GroupStart(n, mode, k);
    GroupStart(n, mode, k + 1);
    var g := Group(n, mode, k);
    if k == GroupCount(n, mode) - 1 {
      assert g[|g| - 1] == n - 1;
    }
  }

  // The groups are consecutive runs of at most the mode's size and together are every tile once, in order; the
  // one holding the last tile is the last.
  lemma GroupsPartition(n: nat, mode: Mode)
    requires n > 0
    ensures var gs := GroupsFor(n, mode);
            && Flatten(gs) == Range(0, n)
            && (forall k :: 0 <= k < |gs| ==> 0 < |gs[k]| <= GroupSize(n, mode))
            && (forall k :: 0 <= k < |gs| ==> (n - 1 in gs[k] <==> k == |gs| - 1))
  {
    var gs := GroupsFor(n, mode);
    GroupStart(n, mode, |gs|);
    FirstGroups(n, mode, |gs|);
    assert gs[..|gs|] == gs;
    forall k | 0 <= k < |gs|
      ensures 0 < |gs[k]| <= GroupSize(n, mode) && (n - 1 in gs[k] <==> k == |gs| - 1)
    {
      LastTile(n, mode, k);
    }
  }
}
