// The guest's request handler: two 16x16 operand matrices, a lazily computed product, and three kinds of reply.
module Guest {
  import opened Wrappers
  import opened Bytes
  import opened Wire

  const DISPATCH_ADDR := 0x2000

  type Cells = s: seq<u8> | |s| == 256 witness seq(256, i => 0)
  type Sums = s: seq<u32> | |s| == 256 witness seq(256, i => 0)

  // Row-major 16x16 contents.
  datatype Slug = Slug(a: Cells, b: Cells, c: Sums, computed: bool)

  datatype Kind = Load | Compute | Read | Fail

  datatype Reply = Reply(state: Slug, out: Flit, kind: Kind)

  function Field(t: nat, low: nat, width: nat): nat
    requires low > 0 && width > 0
  {
    t / low % width
  }

  // ---------------------------------------------------------------- the product

  function Dot(a: Cells, b: Cells, r: nat, c: nat, k: nat): (s: nat)
    requires r < 16 && c < 16 && k <= 16
    ensures s <= k * 65025
  {
    if k == 0 then 0
    else
      Dot(a, b, r, c, k - 1) + Times(a[r * 16 + k - 1], b[(k - 1) * 16 + c])
  }

  function Times(x: int, y: int): (p: int)
    ensures 0 <= x <= 255 && 0 <= y <= 255 ==> 0 <= p <= 65025
  {
    assert 0 <= x <= 255 && 0 <= y ==> x * y <= 255 * y;
    x * y
  }

  function Product(a: Cells, b: Cells): Sums {
    seq(256, i requires 0 <= i < 256 => Dot(a, b, i / 16, i % 16, 16))
  }

  function Computed(s: Slug): Slug {
    if s.computed then s else s.(c := Product(s.a, s.b), computed := true)
  }

  // ---------------------------------------------------------------- one request

  function Value(v: u32): Data {
    ToLE(v, 4) + Zeros(28)
  }

  function Failed(s: Slug, tag: u16): Reply {
    Reply(s, Encode(S2MNDR(tag, DispatchFailed)), Fail)
  }

  function HandleWrite(s: Slug, token: u32, tag: u16): Reply {
    if Field(token, 4, 2) != 0 then
      var at, data := Field(token, 16, 256), Field(token, 4096, 256);
      var loaded := if Field(token, 8, 2) == 0 then s.(a := s.a[at := data]) else s.(b := s.b[at := data]);
      Reply(loaded, Encode(S2MNDR(tag, Cmp)), Load)
    else if Field(token, 0x10_0000, 2) != 0 then
      Reply(Computed(s), Encode(S2MNDR(tag, Cmp)), Compute)
    else Failed(s, tag)
  }

  function HandleRead(s: Slug, addr: u64, tag: u16): Reply {
    var base, token := addr % 0x1_0000_0000, addr / 0x1_0000_0000;
    if base == DISPATCH_ADDR && Field(token, 0x20_0000, 2) != 0 then
      var done := Computed(s);
      Reply(done, Encode(S2MDRS(tag, MemData, Value(done.c[Field(token, 0x40_0000, 256)]))), Read)
    else Failed(s, tag)
  }

  function Handle(s: Slug, f: Flit): Reply {
    if f[0] == 0x20 then HandleWrite(s, LowWord(f), Tag(f))
    else if f[0] == 0x10 then HandleRead(s, AddrField(f), Tag(f))
    else Failed(s, Tag(f))
  }

  // ---------------------------------------------------------------- the C code

  method Clear(out: array<u8>)
    requires out.Length == 64
    modifies out
    ensures out[..] == Zeros(64)
  {
    for i := 0 to 64
      invariant out[..i] == Zeros(i)
    {
      out[i] := 0;
    }
    assert out[..64] == out[..];
  }

  method PutHeader(out: array<u8>, head: u8, tag: u16)
    requires out.Length == 64
    modifies out
    ensures out[..] == [head] + ToLE(tag, 2) + Zeros(61)
  {
    Clear(out);
    out[0] := head;
    out[1] := tag % 256;
    out[2] := tag / 256;
    assert ToLE(tag, 2) == [tag % 256] + [tag / 256];
  }

  method EncodeCmp(out: array<u8>, tag: u16)
    requires out.Length == 64
    modifies out
    ensures out[..] == Encode(S2MNDR(tag, Cmp))
  {
    PutHeader(out, 0x40, tag);
    NdrBytes(0x40, tag, Cmp);
  }

  method EncodeDispatchFailed(out: array<u8>, tag: u16)
    requires out.Length == 64
    modifies out
    ensures out[..] == Encode(S2MNDR(tag, DispatchFailed))
  {
    PutHeader(out, 0x4f, tag);
    NdrBytes(0x4f, tag, DispatchFailed);
  }

  lemma NdrBytes(head: u8, tag: u16, op: S2MNDROp)
    requires head == Header(S2MNDR(tag, op))
    ensures [head] + ToLE(tag, 2) + Zeros(61) == Encode(S2MNDR(tag, op))
  {
    hide ToLE, Header;
    ZeroLE(8);
    assert Addr(S2MNDR(tag, op)) == 0 && Payload(S2MNDR(tag, op)) == None;
    assert Zeros(61) == Zeros(8) + NO_DATA + Zeros(21);
    var t := ToLE(tag, 2);
    assert [head] + t + (Zeros(8) + NO_DATA + Zeros(21)) == [head] + t + Zeros(8) + NO_DATA + Zeros(21);
  }

  method EncodeMemData(out: array<u8>, tag: u16, value: u32)
    requires out.Length == 64
    modifies out
    ensures out[..] == Encode(S2MDRS(tag, MemData, Value(value)))
  {
    PutHeader(out, 0x30, tag);
    CopyInto(out, OFFSET_DATA, ToLE(value, 4));
    DrsBytes(tag, value);
  }

  lemma DrsBytes(tag: u16, value: u32)
    ensures var z: seq<u8> := [0x30] + ToLE(tag, 2) + Zeros(61);
            z[..11] + ToLE(value, 4) + z[15..] == Encode(S2MDRS(tag, MemData, Value(value)))
  {
    hide ToLE;
    ZeroLE(8);
    var t, v := ToLE(tag, 2), ToLE(value, 4);
    assert ([0x30] + t + Zeros(61))[..11] == [0x30] + t + Zeros(8);
    assert ([0x30] + t + Zeros(61))[15..] == Zeros(28) + Zeros(21);
    assert [0x30] + t + Zeros(8) + v + (Zeros(28) + Zeros(21)) == [0x30] + t + Zeros(8) + (v + Zeros(28)) + Zeros(21);
  }

  class SlugState {
    const a: array<u8>
    const b: array<u8>
    const c: array<u32>
    var computed: bool
    var loads: nat
    var computes: nat
    var readsDone: nat
    var failed: nat

    ghost predicate Valid() {
      a.Length == b.Length == c.Length == 256 && a != b
    }

    ghost function Abs(): Slug
      requires Valid()
      reads this, a, b, c
    {
      Slug(a[..], b[..], c[..], computed)
    }

    constructor ()
      ensures Valid() && Abs() == Slug(Zeros(256), Zeros(256), Zeros(256), false)
      ensures fresh(a) && fresh(b) && fresh(c)
      ensures loads == computes == readsDone == failed == 0
    {
      a, b, c := new u8[256](i => 0), new u8[256](i => 0), new u32[256](i => 0);
      computed, loads, computes, readsDone, failed := false, 0, 0, 0, 0;
      new;
      assert a[..] == Zeros(256) && b[..] == Zeros(256) && c[..] == Zeros(256);
    }

    method ComputeIfNeeded()
      requires Valid()
      modifies this`computed, c
      ensures Valid() && Abs() == Computed(old(Abs()))
    {
      if computed {
        return;
      }
      ghost var was := Abs();
      ghost var product := Product(was.a, was.b);
      for r := 0 to 16
        invariant forall j :: 0 <= j < r * 16 ==> c[j] == product[j]
      {
        for col := 0 to 16
          invariant forall j :: 0 <= j < r * 16 + col ==> c[j] == product[j]
        {
          var sum: nat := 0;
          for k := 0 to 16
            invariant sum == Dot(was.a, was.b, r, col, k)
          {
            sum := sum + Times(a[r * 16 + k], b[k * 16 + col]);
          }
          assert (r * 16 + col) / 16 == r && (r * 16 + col) % 16 == col;
          c[r * 16 + col] := sum;
        }
      }
      assert c[..] == product;
      computed := true;
    }

    // Handle one request and write its reply; the counters follow the reply's kind.
    method HandleRequest(f: Flit, out: array<u8>) returns (rc: int)
      requires Valid() && out.Length == 64 && out != a && out != b
      modifies this, a, b, c, out
      ensures Valid() && Abs() == Handle(old(Abs()), f).state && out[..] == Handle(old(Abs()), f).out
      ensures rc == if Handle(old(Abs()), f).kind == Fail then -1 else 0
      ensures loads == old(loads) + (if Handle(old(Abs()), f).kind == Load then 1 else 0)
      ensures computes == old(computes) + (if Handle(old(Abs()), f).kind == Compute then 1 else 0)
      ensures readsDone == old(readsDone) + (if Handle(old(Abs()), f).kind == Read then 1 else 0)
      ensures failed == old(failed) + (if Handle(old(Abs()), f).kind == Fail then 1 else 0)
    {
      hide Encode, Product, LowWord, Tag, AddrField;
      ghost var was := Abs();
      var cls, op, tag := f[0] / 16, f[0] % 16, Tag(f);
      if cls == 2 && op == 0 {
        var token := LowWord(f);
        if Field(token, 4, 2) != 0 {
          var sel, addr, data := Field(token, 8, 2), Field(token, 16, 256), Field(token, 4096, 256);
          var row, col := addr / 16, addr % 16;
          if sel == 0 {
            a[row * 16 + col] := data;
          } else {
            b[row * 16 + col] := data;
          }
          loads := loads + 1;
          EncodeCmp(out, tag);
          return 0;
        }
        if Field(token, 0x10_0000, 2) != 0 {
          ComputeIfNeeded();
          computes := computes + 1;
          EncodeCmp(out, tag);
          return 0;
        }
      }
      if cls == 1 && op == 0 {
        var addr := AddrField(f);
        var base, token := addr % 0x1_0000_0000, addr / 0x1_0000_0000;
        if base == DISPATCH_ADDR && Field(token, 0x20_0000, 2) != 0 {
          ComputeIfNeeded();
          var readAddr := Field(token, 0x40_0000, 256);
          var row, col := readAddr / 16, readAddr % 16;
          readsDone := readsDone + 1;
          EncodeMemData(out, tag, c[row * 16 + col]);
          return 0;
        }
      }
      failed := failed + 1;
      EncodeDispatchFailed(out, tag);
      rc := -1;
    }
  }
}
