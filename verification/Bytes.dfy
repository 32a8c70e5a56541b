// Fixed-width unsigned integers and little-endian byte strings, shared by every other module.
module Bytes {
  const WORD64: nat := 0x1_0000_0000_0000_0000

  type u8 = x: int | 0 <= x < 256
  type u16 = x: int | 0 <= x < 0x1_0000
  type u32 = x: int | 0 <= x < 0x1_0000_0000
  type u64 = x: int | 0 <= x < 0x1_0000_0000_0000_0000

  function Pow256(n: nat): (p: nat)
    ensures p > 0
  {
    if n == 0 then 1 else 256 * Pow256(n - 1)
  }

  // The n low-order bytes of x, least significant first.
  function ToLE(x: nat, n: nat): (bs: seq<u8>)
    ensures |bs| == n
  {
    if n == 0 then [] else [x % 256] + ToLE(x / 256, n - 1)
  }

  function FromLE(bs: seq<u8>): nat {
    if bs == [] then 0 else bs[0] + 256 * FromLE(bs[1..])
  }

  lemma {:induction false} FromToLE(x: nat, n: nat)
    ensures FromLE(ToLE(x, n)) == x % Pow256(n)
  {
    if n > 0 {
      FromToLE(x / 256, n - 1);
      ModStep(x, Pow256(n - 1));
      assert ToLE(x, n)[1..] == ToLE(x / 256, n - 1);
    }
  }

  lemma ModStep(x: nat, m: nat)
    requires m > 0
    ensures x % (256 * m) == x % 256 + 256 * ((x / 256) % m)
  {
    var q, r := x / 256 / m, (x / 256) % m;
    assert x == 256 * (q * m + r) + x % 256;
    assert x == (256 * m) * q + (256 * r + x % 256) by { assert 256 * (q * m) == (256 * m) * q; }
    assert 256 * r + x % 256 < 256 * m;
    DivModUnique(x, 256 * m, q, 256 * r + x % 256);
  }

  lemma Sign(d: int, k: int)
    requires d > 0
    ensures k >= 1 ==> d * k >= d
    ensures k <= -1 ==> d * k <= -d
  {
  }

  lemma DivModUnique(x: nat, d: nat, q: nat, r: nat)
    requires d > 0 && r < d && x == d * q + r
    ensures x % d == r && x / d == q
  {
    var q', r' := x / d, x % d;
    assert d * (q - q') == r' - r;
    Sign(d, q - q');
  }

  lemma {:induction false} ToFromLE(bs: seq<u8>)
    ensures FromLE(bs) < Pow256(|bs|)
    ensures ToLE(FromLE(bs), |bs|) == bs
  {
    if bs != [] {
      ToFromLE(bs[1..]);
      assert FromLE(bs) / 256 == FromLE(bs[1..]);
    }
  }

  lemma Pow256Values()
    ensures Pow256(2) == 0x1_0000 && Pow256(4) == 0x1_0000_0000 && Pow256(8) == WORD64
  {
    assert Pow256(1) == 256 && Pow256(3) == 0x100_0000;
    assert Pow256(5) == 0x100_0000_0000 && Pow256(6) == 0x1_0000_0000_0000 && Pow256(7) == 0x100_0000_0000_0000;
  }

  function Sum(xs: seq<nat>): nat {
    if xs == [] then 0 else Sum(xs[..|xs| - 1]) + xs[|xs| - 1]
  }

  // struct.pack("<nQ", ...) and struct.unpack("<nQ", ...).
  function PackWords(ws: seq<u64>): (bs: seq<u8>)
    ensures |bs| == 8 * |ws|
  {
    if ws == [] then [] else PackWords(ws[..|ws| - 1]) + ToLE(ws[|ws| - 1], 8)
  }

  function UnpackWords(bs: seq<u8>): (ws: seq<u64>)
    requires |bs| % 8 == 0
    ensures |ws| == |bs| / 8
    ensures forall i :: 0 <= i < |ws| ==> ws[i] == WordAt(bs, i)
  {
    seq(|bs| / 8, i requires 0 <= i < |bs| / 8 => WordAt(bs, i))
  }

  function WordAt(bs: seq<u8>, i: nat): u64
    requires 8 * i + 8 <= |bs|
  {
    ToFromLE(bs[8 * i..8 * i + 8]);
    Pow256Values();
    FromLE(bs[8 * i..8 * i + 8])
  }

  lemma {:induction false} UnpackPack(ws: seq<u64>)
    ensures UnpackWords(PackWords(ws)) == ws
  {
    forall i | 0 <= i < |ws|
      ensures WordAt(PackWords(ws), i) == ws[i]
    {
      WordOfPack(ws, i);
    }
  }

  lemma SliceOfSum(a: seq<u8>, b: seq<u8>, i: nat, j: nat)
    requires i <= j <= |a + b|
    ensures j <= |a| ==> (a + b)[i..j] == a[i..j]
    ensures |a| <= i ==> (a + b)[i..j] == b[i - |a|..j - |a|]
  {
  }

  lemma {:induction false} WordOfPack(ws: seq<u64>, i: nat)
    requires i < |ws|
    ensures WordAt(PackWords(ws), i) == ws[i]
  {
    hide FromLE, ToLE;
    var n := |ws| - 1;
    var front, last := PackWords(ws[..n]), ToLE(ws[n], 8);
    SliceOfSum(front, last, 8 * i, 8 * i + 8);
    if i == n {
      assert last[0..8] == last;
      FromToLE(ws[n], 8);
      Pow256Values();
    } else {
      WordOfPack(ws[..n], i);
    }
  }
}
