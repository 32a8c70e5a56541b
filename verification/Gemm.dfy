// A 4x4 matrix product as 49 FLITs each way: the host's request stream, the guest's replies to it, and the host's
// validation of whatever comes back.
module Gemm {
  import opened Wrappers
  import opened Bytes
  import opened Wire
  import opened Guest

  type Matrix = m: seq<u8> | |m| == 16 witness seq(16, i => 0)

  // Row-major 4x4 operands.
  datatype GemmJob = GemmJob(a: Matrix, b: Matrix)

  const REQUESTS := 49
  const WRITES := 33

  // ---------------------------------------------------------------- request stream

  function LoadToken(sel: nat, addr: nat, data: nat): u32 {
    4 + (sel % 2) * 8 + (addr % 256) * 16 + (data % 256) * 4096
  }

  const COMPUTE_TOKEN: u32 := 0x10_0000

  function ReadToken(addr: nat): u32 {
    0x20_0000 + (addr % 256) * 0x40_0000
  }

  function PackToken(token: u32): Data {
    ToLE(token, 4) + Zeros(28)
  }

  // Cell i of a 4x4 matrix inside the 16x16 array.
  function Sub(i: nat): (s: nat)
    requires i < 16
    ensures s < 256
  {
    i / 4 * 16 + i % 4
  }

  function TagAt(first: u16, i: nat): u16 {
    (first + i) % 0x1_0000
  }

  function Write(tag: u16, token: u32): CxlMsg {
    M2SRwD(tag, MemWr, DISPATCH_ADDR, PackToken(token))
  }

  function ReadRequest(tag: u16, token: u32): CxlMsg {
    M2SReq(tag, MemRd, DISPATCH_ADDR + token * 0x1_0000_0000)
  }

  // Message i: 16 loads of A, 16 of B, the compute, 16 reads.
  function RequestAt(job: GemmJob, first: u16, i: nat): CxlMsg
    requires i < REQUESTS
  {
    var tag := TagAt(first, i);
    if i < 16 then Write(tag, LoadToken(0, Sub(i), job.a[i]))
    else if i < 32 then Write(tag, LoadToken(1, Sub(i - 16), job.b[i - 16]))
    else if i == 32 then Write(tag, COMPUTE_TOKEN)
    else ReadRequest(tag, ReadToken(Sub(i - WRITES)))
  }

  ghost predicate Built(job: GemmJob, first: u16, out: seq<CxlMsg>, tag: u16) {
    |out| <= REQUESTS && tag == TagAt(first, |out|) && forall i :: 0 <= i < |out| ==> out[i] == RequestAt(job, first, i)
  }

  function NextTag(tag: u16): u16 {
    (tag + 1) % 0x1_0000
  }

  lemma Push(job: GemmJob, first: u16, out: seq<CxlMsg>, tag: u16, m: CxlMsg)
    requires Built(job, first, out, tag) && |out| < REQUESTS && m == RequestAt(job, first, |out|)
    ensures Built(job, first, out + [m], NextTag(tag))
  {
    hide RequestAt;
  }

  // One operand, row by row.
  method PushLoads(job: GemmJob, ghost first: u16, sel: nat, m: Matrix, out0: seq<CxlMsg>, tag0: u16)
    returns (out: seq<CxlMsg>, tag: u16)
    requires sel < 2 && m == (if sel == 0 then job.a else job.b)
    requires Built(job, first, out0, tag0) && |out0| == 16 * sel
    ensures Built(job, first, out, tag) && |out| == 16 * sel + 16
  {
    hide LoadToken, Built;
    out, tag := out0, tag0;
    for row := 0 to 4
      invariant |out| == 16 * sel + row * 4 && Built(job, first, out, tag)
    {
      for col := 0 to 4
        invariant |out| == 16 * sel + row * 4 + col && Built(job, first, out, tag)
      {
        var msg := Write(tag, LoadToken(sel, row * 16 + col, m[row * 4 + col]));
        assert Sub(row * 4 + col) == row * 16 + col;
        BuiltTag(job, first, out, tag);
        Push(job, first, out, tag, msg);
        out, tag := out + [msg], NextTag(tag);
      }
    }
  }

  lemma BuiltTag(job: GemmJob, first: u16, out: seq<CxlMsg>, tag: u16)
    requires Built(job, first, out, tag)
    ensures tag == TagAt(first, |out|)
  {
  }

  // The four phases under one wrapping tag.
  method BuildDispatchStream(job: GemmJob, firstTag: u16) returns (out: seq<CxlMsg>)
    ensures |out| == REQUESTS && forall i :: 0 <= i < REQUESTS ==> out[i] == RequestAt(job, firstTag, i)
  {
    hide LoadToken, ReadToken;
    var tag: u16 := firstTag;
    out, tag := PushLoads(job, firstTag, 0, job.a, [], tag);
    out, tag := PushLoads(job, firstTag, 1, job.b, out, tag);
    Push(job, firstTag, out, tag, Write(tag, COMPUTE_TOKEN));
    out, tag := out + [Write(tag, COMPUTE_TOKEN)], NextTag(tag);
    for row := 0 to 4
      invariant |out| == WRITES + row * 4 && Built(job, firstTag, out, tag)
    {
      for col := 0 to 4
        invariant |out| == WRITES + row * 4 + col && Built(job, firstTag, out, tag)
      {
        var msg := ReadRequest(tag, ReadToken(row * 16 + col));
        assert Sub(row * 4 + col) == row * 16 + col;
        Push(job, firstTag, out, tag, msg);
        out, tag := out + [msg], NextTag(tag);
      }
    }
  }

  // Token fields do not overlap: each is read back as it was written.
  lemma LoadFields(sel: nat, addr: nat, data: nat)
    requires sel < 2 && addr < 256 && data < 256
    ensures var t := LoadToken(sel, addr, data);
            && Field(t, 4, 2) == 1 && Field(t, 8, 2) == sel && Field(t, 16, 256) == addr && Field(t, 4096, 256) == data
  {
    var t, high := LoadToken(sel, addr, data), addr + 256 * data;
    DivModUnique(t, 4, 1 + 2 * sel + 4 * high, 0);
    DivModUnique(t, 8, sel + 2 * high, 4);
    DivModUnique(t, 16, high, 4 + 8 * sel);
    DivModUnique(t, 4096, data, 4 + 8 * sel + 16 * addr);
    DivModUnique(1 + 2 * sel + 4 * high, 2, sel + 2 * high, 1);
    DivModUnique(sel + 2 * high, 2, high, sel);
    DivModUnique(high, 256, data, addr);
  }

  lemma ReadFields(addr: nat)
    requires addr < 256
    ensures var t := ReadToken(addr); Field(t, 0x20_0000, 2) == 1 && Field(t, 0x40_0000, 256) == addr
  {
    var t := ReadToken(addr);
    DivModUnique(t, 0x20_0000, 1 + 2 * addr, 0);
    DivModUnique(t, 0x40_0000, addr, 0x20_0000);
    DivModUnique(1 + 2 * addr, 2, addr, 1);
  }

  // ---------------------------------------------------------------- the product

  function RowTimesColumn(job: GemmJob, r: nat, c: nat, k: nat): (s: nat)
    requires r < 4 && c < 4 && k <= 4
    ensures s <= k * 65025
  {
    if k == 0 then 0
    else RowTimesColumn(job, r, c, k - 1) + Times(job.a[r * 4 + k - 1], job.b[(k - 1) * 4 + c])
  }

  // Entry i, row-major, of the product; always below 2^24.
  function Entry(job: GemmJob, i: nat): (e: u32)
    requires i < 16
    ensures e < 0x100_0000
  {
    RowTimesColumn(job, i / 4, i % 4, 4)
  }

  method Matmul(job: GemmJob) returns (out: array<u32>)
    ensures fresh(out) && out.Length == 16 && forall i :: 0 <= i < 16 ==> out[i] == Entry(job, i)
  {
    out := new u32[16](i => 0);
    for r := 0 to 4
      invariant forall i :: 0 <= i < r * 4 ==> out[i] == Entry(job, i)
    {
      for c := 0 to 4
        invariant forall i :: 0 <= i < r * 4 + c ==> out[i] == Entry(job, i)
      {
        var sum: nat := 0;
        for k := 0 to 4
          invariant sum == RowTimesColumn(job, r, c, k)
        {
          sum := sum + Times(job.a[r * 4 + k], job.b[k * 4 + c]);
        }
        assert (r * 4 + c) / 4 == r && (r * 4 + c) % 4 == c;
        assert sum == Entry(job, r * 4 + c);
        out[r * 4 + c] := sum;
      }
    }
  }

  // ---------------------------------------------------------------- reading the responses

  datatype HostError = DispatchFailure(tag: u16) | WireDecode(error: WireError)

  // Only three bytes of the accumulator are read back.
  function Low24(d: Data): u32 {
    var b0: nat, b1: nat, b2: nat := d[0], d[1], d[2];
    b0 + b1 * 256 + b2 * 65536
  }

  predicate IsMemData(m: CxlMsg) {
    m.S2MDRS? && m.drsOp.MemData?
  }

  // Sixteen MemData responses, cell by cell; the first of any other kind is an error under its tag.
  method DecodeResults(responses: seq<CxlMsg>) returns (r: Result<seq<u32>, HostError>)
    ensures r.Ok? <==> |responses| == 16 && forall i :: 0 <= i < 16 ==> IsMemData(responses[i])
    ensures r.Ok? ==> |r.value| == 16 && forall i :: 0 <= i < 16 ==> r.value[i] == Low24(responses[i].data)
    ensures r.Err? ==>
              || (|responses| != 16 && r.error == DispatchFailure(0))
              || exists i :: 0 <= i < 16 == |responses| && !IsMemData(responses[i])
                               && r.error == DispatchFailure(responses[i].tag)
                               && forall j :: 0 <= j < i ==> IsMemData(responses[j])
  {
    if |responses| != 16 {
      return Err(DispatchFailure(0));
    }
    var c := new u32[16](i => 0);
    for i := 0 to 16
      invariant forall j :: 0 <= j < i ==> IsMemData(responses[j]) && c[j] == Low24(responses[j].data)
    {
      if !IsMemData(responses[i]) {
        return Err(DispatchFailure(responses[i].tag));
      }
      c[i / 4 * 4 + i % 4] := Low24(responses[i].data);
    }
    r := Ok(c[..]);
  }

  datatype Summary = Summary(pass: bool, responseCount: nat, tagMismatches: nat, dispatchFailures: nat, result: seq<u32>)

  function FlitAt(bytes: seq<u8>, i: nat): Flit
    requires (i + 1) * 64 <= |bytes|
  {
    bytes[i * 64..(i + 1) * 64]
  }

  // The reply the host wants in place i.
  ghost predicate Good(job: GemmJob, i: nat, m: CxlMsg)
    requires i < REQUESTS
  {
    if i < WRITES then m == S2MNDR(TagAt(0, i), Cmp)
    else IsMemData(m) && m.tag == TagAt(0, i) && Low24(m.data) == Entry(job, i - WRITES)
  }

  // 49 FLITs: 33 completions and then the product's 16 entries, each under its request's tag.
  ghost predicate Conforms(job: GemmJob, bytes: seq<u8>) {
    |bytes| == REQUESTS * 64 && forall i :: 0 <= i < REQUESTS ==>
      Decode(FlitAt(bytes, i)).Ok? && Good(job, i, Decode(FlitAt(bytes, i)).value)
  }

  // What the host expects of kind and place, tags and values aside.
  predicate InPhase(i: nat, m: CxlMsg) {
    if i < WRITES then m.S2MNDR? && m.ndrOp.Cmp? else IsMemData(m)
  }

  method DecodeAll(bytes: seq<u8>) returns (r: Result<seq<CxlMsg>, HostError>)
    requires |bytes| % 64 == 0
    ensures r.Ok? ==> |r.value| == |bytes| / 64
    ensures r.Ok? ==> forall i :: 0 <= i < |r.value| ==> Decode(FlitAt(bytes, i)) == Ok(r.value[i])
    ensures r.Err? ==> exists i :: 0 <= i < |bytes| / 64 && Decode(FlitAt(bytes, i)).Err?
                                   && r.error == WireDecode(Decode(FlitAt(bytes, i)).error)
  {
    hide Decode;
    var decoded: seq<CxlMsg> := [];
    for i := 0 to |bytes| / 64
      invariant |decoded| == i
      invariant forall j :: 0 <= j < i ==> Decode(FlitAt(bytes, j)) == Ok(decoded[j])
    {
      var m := Decode(FlitAt(bytes, i));
      if m.Err? {
        return Err(WireDecode(m.error));
      }
      decoded := decoded + [m.value];
    }
    r := Ok(decoded);
  }

  // Count wrong tags and wrong kinds, and keep the read-backs.
  method Tally(requests: seq<CxlMsg>, decoded: seq<CxlMsg>)
    returns (tagMismatches: nat, dispatchFailures: nat, reads': seq<CxlMsg>)
    ensures tagMismatches == 0 <==> forall i :: 0 <= i < |decoded| && i < |requests| ==> decoded[i].tag == requests[i].tag
    ensures dispatchFailures == 0 <==> forall i :: 0 <= i < |decoded| ==> InPhase(i, decoded[i])
    ensures forall i :: 0 <= i < |reads'| ==> IsMemData(reads'[i])
    ensures dispatchFailures == 0 && |decoded| >= WRITES ==> reads' == decoded[WRITES..]
  {
    tagMismatches, dispatchFailures, reads' := 0, 0, [];
    for idx := 0 to |decoded|
      invariant tagMismatches == 0 <==> forall i :: 0 <= i < idx && i < |requests| ==> decoded[i].tag == requests[i].tag
      invariant dispatchFailures == 0 <==> forall i :: 0 <= i < idx ==> InPhase(i, decoded[i])
      invariant forall i :: 0 <= i < |reads'| ==> IsMemData(reads'[i])
      invariant dispatchFailures == 0 ==> reads' == if idx < WRITES then [] else decoded[WRITES..idx]
    {
      var response := decoded[idx];
      if idx < |requests| && response.tag != requests[idx].tag {
        tagMismatches := tagMismatches + 1;
      }
      if response.S2MNDR? && response.ndrOp.Cmp? && idx < WRITES {
      } else if IsMemData(response) && idx >= WRITES {
        reads' := reads' + [response];
      } else {
        dispatchFailures := dispatchFailures + 1;
      }
    }
  }

  // Read-back i carries its entry of the product.
  ghost predicate Carries(job: GemmJob, decoded: seq<CxlMsg>, i: nat)
    requires |decoded| == REQUESTS && i < 16
  {
    IsMemData(decoded[WRITES + i]) && Low24(decoded[WRITES + i].data) == Entry(job, i)
  }

  lemma PassMeansConforms(job: GemmJob, bytes: seq<u8>, decoded: seq<CxlMsg>)
    requires |bytes| % 64 == 0 && |decoded| == |bytes| / 64
    requires forall i :: 0 <= i < |decoded| ==> Decode(FlitAt(bytes, i)) == Ok(decoded[i])
    ensures Conforms(job, bytes) <==>
              && |decoded| == REQUESTS && (forall i :: 0 <= i < REQUESTS ==> decoded[i].tag == TagAt(0, i))
              && (forall i :: 0 <= i < REQUESTS ==> InPhase(i, decoded[i]))
              && (forall i :: 0 <= i < 16 ==> Carries(job, decoded, i))
  {
    hide Decode, Entry, Low24, TagAt;
    if Conforms(job, bytes) {
      forall i | 0 <= i < REQUESTS
        ensures Good(job, i, decoded[i])
      {
        assert Decode(FlitAt(bytes, i)).Ok?;
      }
      forall i | 0 <= i < 16
        ensures Carries(job, decoded, i)
      {
        assert Good(job, WRITES + i, decoded[WRITES + i]);
      }
    } else if |decoded| == REQUESTS {
      var i :| 0 <= i < REQUESTS && !Good(job, i, decoded[i]);
      if i >= WRITES {
        assert i == WRITES + (i - WRITES) && (decoded[i].tag == TagAt(0, i) ==> !Carries(job, decoded, i - WRITES));
      } else {
        assert decoded[i].tag == TagAt(0, i) ==> !InPhase(i, decoded[i]);
      }
    }
  }

  // Validation fails to report exactly on a ragged or undecodable file, and passes exactly the files that carry
  // this job's product in 49 well-tagged, well-phased replies.
  method ValidateResponses(job: GemmJob, bytes: seq<u8>) returns (r: Result<Summary, HostError>)
    ensures r.Ok? <==> |bytes| % 64 == 0 && forall i :: 0 <= i < |bytes| / 64 ==> Decode(FlitAt(bytes, i)).Ok?
    ensures r.Ok? ==> (r.value.pass <==> Conforms(job, bytes))
    ensures Conforms(job, bytes) ==> r.Ok?
  {
    hide Decode, Entry, Low24, TagAt, RequestAt, Conforms;
    if |bytes| % 64 != 0 {
      ConformsShape(job, bytes);
      return Err(DispatchFailure(0));
    }
    var requests := BuildDispatchStream(job, 0);
    var decoded := DecodeAll(bytes);
    if decoded.Err? {
      ConformsShape(job, bytes);
      return Err(decoded.error);
    }
    var tagMismatches, dispatchFailures, reads' := Tally(requests, decoded.value);
    var result := seq(16, i => 0);
    if |reads'| == 16 {
      var c := DecodeResults(reads');
      result := c.value;
    }
    var expected := Matmul(job);
    RequestTags(job, requests);
    PassMeansConforms(job, bytes, decoded.value);
    var pass := |decoded.value| == |requests| && tagMismatches == 0 && dispatchFailures == 0 && result == expected[..];
    if |decoded.value| == |requests| && tagMismatches == 0 && dispatchFailures == 0 {
      SameProduct(job, decoded.value, result, expected[..]);
    }
    r := Ok(Summary(pass, |decoded.value|, tagMismatches, dispatchFailures, result));
  }

  lemma ConformsShape(job: GemmJob, bytes: seq<u8>)
    ensures Conforms(job, bytes) ==> |bytes| % 64 == 0
                                       && forall i :: 0 <= i < |bytes| / 64 ==> Decode(FlitAt(bytes, i)).Ok?
  {
    hide Decode, Good;
    if Conforms(job, bytes) {
      assert |bytes| == 3136;
      forall i | 0 <= i < |bytes| / 64
        ensures Decode(FlitAt(bytes, i)).Ok?
      {
      }
    }
  }

  lemma RequestTags(job: GemmJob, requests: seq<CxlMsg>)
    requires |requests| == REQUESTS && forall i :: 0 <= i < REQUESTS ==> requests[i] == RequestAt(job, 0, i)
    ensures forall i :: 0 <= i < REQUESTS ==> requests[i].tag == TagAt(0, i)
  {
  }

  lemma SameProduct(job: GemmJob, decoded: seq<CxlMsg>, result: seq<u32>, expected: seq<u32>)
    requires |decoded| == REQUESTS && |result| == |expected| == 16
    requires forall i :: 0 <= i < 16 ==> IsMemData(decoded[WRITES..][i]) && result[i] == Low24(decoded[WRITES..][i].data)
    requires forall i :: 0 <= i < 16 ==> expected[i] == Entry(job, i)
    ensures result == expected <==> forall i :: 0 <= i < 16 ==> Carries(job, decoded, i)
  {
    hide Low24, Entry;
    forall i | 0 <= i < 16
      ensures Carries(job, decoded, i) <==> result[i] == expected[i]
    {
      assert decoded[WRITES..][i] == decoded[WRITES + i];
    }
  }
}
