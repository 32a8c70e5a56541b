// The whole loop: the host's stream, encoded, through the zeroed guest, back through validation.
module GemmRun {
  import opened Wrappers
  import opened Bytes
  import opened Wire
  import opened Guest
  import opened Gemm

  const FRESH: Slug := Slug(Zeros(256), Zeros(256), Zeros(256), false)

  function Request(job: GemmJob, i: nat): Flit
    requires i < REQUESTS
  {
    Encode(RequestAt(job, 0, i))
  }

  // The guest after i requests, and its reply to request i.
  function After(job: GemmJob, i: nat): Slug
    requires i <= REQUESTS
  {
    if i == 0 then FRESH else Handle(After(job, i - 1), Request(job, i - 1)).state
  }

  function Response(job: GemmJob, i: nat): Flit
    requires i < REQUESTS
  {
    Handle(After(job, i), Request(job, i)).out
  }

  // The guest's main loop over a stored request file.
  method Serve(requests: seq<Flit>) returns (responses: seq<Flit>, state: SlugState)
    ensures fresh(state) && state.Valid() && |responses| == |requests|
    ensures Served(FRESH, requests, responses, state.Abs())
  {
    hide Handle;
    state := new SlugState();
    responses := [];
    var out := new u8[64](i => 0);
    ghost var trail := [state.Abs()];
    for i := 0 to |requests|
      invariant state.Valid() && out != state.a && out != state.b && fresh(out) && fresh(state) && fresh(state.a)
                && fresh(state.b) && fresh(state.c)
      invariant |responses| == i && |trail| == i + 1 && trail[0] == FRESH && trail[i] == state.Abs()
      invariant Trail(trail, requests[..i], responses)
    {
      var _ := state.HandleRequest(requests[i], out);
      TrailStep(trail, requests, i, responses, state.Abs(), out[..]);
      trail := trail + [state.Abs()];
      responses := responses + [out[..]];
    }
    assert requests[..|requests|] == requests;
  }

  ghost predicate Trail(trail: seq<Slug>, requests: seq<Flit>, responses: seq<Flit>) {
    |trail| == |requests| + 1 == |responses| + 1 && forall i :: 0 <= i < |requests| ==>
      trail[i + 1] == Handle(trail[i], requests[i]).state && responses[i] == Handle(trail[i], requests[i]).out
  }

  lemma TrailStep(trail: seq<Slug>, requests: seq<Flit>, i: nat, responses: seq<Flit>, next: Slug, out: Flit)
    requires i < |requests| && Trail(trail, requests[..i], responses)
    requires next == Handle(trail[i], requests[i]).state && out == Handle(trail[i], requests[i]).out
    ensures Trail(trail + [next], requests[..i + 1], responses + [out])
  {
    hide Handle;
    var more := requests[..i + 1];
    assert forall j :: 0 <= j < i ==> more[j] == requests[..i][j];
  }

  // Some run of the handler from `start` answers the requests one by one.
  ghost predicate Served(start: Slug, requests: seq<Flit>, responses: seq<Flit>, end: Slug) {
    exists trail :: Trail(trail, requests, responses) && trail[0] == start && trail[|requests|] == end
  }

  // ---------------------------------------------------------------- what the guest holds while loading

  // A 16x16 array holding the first i cells of a 4x4 matrix in its corner.
  function Corner(m: Matrix, i: nat): (s: Cells)
    requires i <= 16
  {
    seq(256, j requires 0 <= j < 256 =>
      if j / 16 < 4 && j % 16 < 4 && j / 16 * 4 + j % 16 < i then m[j / 16 * 4 + j % 16] else 0)
  }

  lemma CornerStart(m: Matrix)
    ensures Corner(m, 0) == Zeros(256)
  {
  }

  lemma CornerNext(m: Matrix, i: nat)
    requires i < 16
    ensures Corner(m, i)[Sub(i) := m[i]] == Corner(m, i + 1)
  {
    var s, t := Corner(m, i)[Sub(i) := m[i]], Corner(m, i + 1);
    forall j | 0 <= j < 256
      ensures s[j] == t[j]
    {
      if j / 16 < 4 && j % 16 < 4 && j / 16 * 4 + j % 16 == i {
        assert j == Sub(i);
      }
    }
  }

  function Loaded(job: GemmJob, i: nat): Slug
    requires i <= 32
  {
    Slug(Corner(job.a, if i < 16 then i else 16), Corner(job.b, if i < 16 then 0 else i - 16), Zeros(256), false)
  }

  lemma RequestHeads(job: GemmJob, i: nat)
    requires i < REQUESTS
    ensures var f := Request(job, i);
            && Tag(f) == TagAt(0, i) && f[0] == (if i < WRITES then 0x20 else 0x10)
            && AddrField(f) == Addr(RequestAt(job, 0, i)) && f[11..43] == DataOr(Payload(RequestAt(job, 0, i)))
  {
    hide LoadToken, ReadToken, ToLE, Header, Encode, Tag, AddrField, PackToken;
    EncodedFields(RequestAt(job, 0, i));
    RequestHeader(RequestAt(job, 0, i));
  }

  lemma RequestHeader(m: CxlMsg)
    ensures m.M2SRwD? && m.rwdOp.MemWr? ==> Header(m) == 0x20
    ensures m.M2SReq? && m.reqOp.MemRd? ==> Header(m) == 0x10
  {
  }

  lemma TokenOf(f: Flit, token: u32)
    requires f[11..43] == PackToken(token)
    ensures LowWord(f) == token
  {
    FromToLE(token, 4);
    Pow256Values();
    assert f[11..15] == f[11..43][..4] == ToLE(token, 4);
  }

  lemma LoadStep(job: GemmJob, i: nat)
    requires i < 32
    ensures Handle(Loaded(job, i), Request(job, i))
              == Reply(Loaded(job, i + 1), Encode(S2MNDR(TagAt(0, i), Cmp)), Load)
  {
    hide Encode, LoadToken, LowWord, Tag, AddrField, Corner;
    RequestHeads(job, i);
    if i < 16 {
      LoadFields(0, Sub(i), job.a[i]);
      TokenOf(Request(job, i), LoadToken(0, Sub(i), job.a[i]));
      CornerNext(job.a, i);
    } else {
      LoadFields(1, Sub(i - 16), job.b[i - 16]);
      TokenOf(Request(job, i), LoadToken(1, Sub(i - 16), job.b[i - 16]));
      CornerNext(job.b, i - 16);
    }
  }

  function Finished(job: GemmJob): Slug {
    var s := Loaded(job, 32);
    Slug(s.a, s.b, Product(s.a, s.b), true)
  }

  lemma ComputeStep(job: GemmJob)
    ensures Handle(Loaded(job, 32), Request(job, 32))
              == Reply(Finished(job), Encode(S2MNDR(TagAt(0, 32), Cmp)), Compute)
  {
    hide Encode, LowWord, Tag, AddrField, Corner, Product;
    RequestHeads(job, 32);
    TokenOf(Request(job, 32), COMPUTE_TOKEN);
    assert COMPUTE_TOKEN / 4 % 2 == 0 && COMPUTE_TOKEN / 0x10_0000 % 2 == 1;
  }

  lemma ReadStep(job: GemmJob, i: nat)
    requires WRITES <= i < REQUESTS
    ensures Handle(Finished(job), Request(job, i))
              == Reply(Finished(job),
                       Encode(S2MDRS(TagAt(0, i), MemData, Value(Finished(job).c[Sub(i - WRITES)]))), Read)
  {
    hide Encode, LowWord, Tag, AddrField, Corner, Product, ReadToken, Value;
    RequestHeads(job, i);
    var token := ReadToken(Sub(i - WRITES));
    ReadFields(Sub(i - WRITES));
    SplitAddress(token);
  }

  lemma SplitAddress(token: u32)
    ensures (DISPATCH_ADDR + token * 0x1_0000_0000) % 0x1_0000_0000 == DISPATCH_ADDR
    ensures (DISPATCH_ADDR + token * 0x1_0000_0000) / 0x1_0000_0000 == token
  {
  }

  lemma {:induction false} StateAfter(job: GemmJob, i: nat)
    requires i <= REQUESTS
    ensures After(job, i) == if i <= 32 then Loaded(job, i) else Finished(job)
  {
    hide Handle, Request, Loaded, Finished;
    if i == 0 {
      FreshIsLoaded(job);
    } else {
      StateAfter(job, i - 1);
      if i <= 32 {
        LoadStep(job, i - 1);
      } else if i == WRITES {
        ComputeStep(job);
      } else {
        ReadStep(job, i - 1);
      }
    }
  }

  lemma FreshIsLoaded(job: GemmJob)
    ensures FRESH == Loaded(job, 0)
  {
    CornerStart(job.a);
    CornerStart(job.b);
  }

  // ---------------------------------------------------------------- the values read back

  // Cells beyond the corner are zero, so the 16x16 product has the 4x4 product in its corner.
  lemma {:induction false} CornerDot(job: GemmJob, r: nat, c: nat, k: nat)
    requires r < 4 && c < 4 && k <= 16
    ensures Dot(Corner(job.a, 16), Corner(job.b, 16), r, c, k) == RowTimesColumn(job, r, c, if k < 4 then k else 4)
  {
    hide Corner;
    if k > 0 {
      var a, b := Corner(job.a, 16), Corner(job.b, 16);
      CornerDot(job, r, c, k - 1);
      CornerCell(job.a, r, k - 1);
      CornerCell(job.b, k - 1, c);
      assert Dot(a, b, r, c, k) == Dot(a, b, r, c, k - 1) + Times(a[r * 16 + k - 1], b[(k - 1) * 16 + c]);
      if k > 4 {
        assert Times(a[r * 16 + k - 1], b[(k - 1) * 16 + c]) == 0;
      }
    }
  }

  lemma CornerCell(m: Matrix, r: nat, c: nat)
    requires r < 16 && c < 16
    ensures Corner(m, 16)[r * 16 + c] == if r < 4 && c < 4 then m[r * 4 + c] else 0
  {
    assert (r * 16 + c) / 16 == r && (r * 16 + c) % 16 == c;
  }

  lemma ProductCorner(job: GemmJob, i: nat)
    requires i < 16
    ensures Finished(job).c[Sub(i)] == Entry(job, i)
  {
    CornerDot(job, i / 4, i % 4, 16);
    assert Sub(i) / 16 == i / 4 && Sub(i) % 16 == i % 4;
  }

  lemma ValueReadBack(v: u32)
    requires v < 0x100_0000
    ensures Low24(Value(v)) == v
  {
    var w, x := v / 256, v / 256 / 256;
    assert ToLE(v, 4) == [v % 256] + ToLE(w, 3);
    assert ToLE(w, 3) == [w % 256] + ToLE(x, 2);
    assert ToLE(x, 2) == [x % 256] + ToLE(x / 256, 1);
    assert Value(v)[0] == v % 256 && Value(v)[1] == w % 256 && Value(v)[2] == x % 256;
  }

  // Every reply decodes to what the host wants in its place.
  lemma ResponseGood(job: GemmJob, i: nat)
    requires i < REQUESTS
    ensures Decode(Response(job, i)).Ok? && Good(job, i, Decode(Response(job, i)).value)
  {
    hide Encode, Decode, Handle, Loaded, Finished, Entry, Low24, Value;
    StateAfter(job, i);
    if i < 32 {
      LoadStep(job, i);
      DecodeEncode(S2MNDR(TagAt(0, i), Cmp));
    } else if i == 32 {
      ComputeStep(job);
      DecodeEncode(S2MNDR(TagAt(0, i), Cmp));
    } else {
      ReadStep(job, i);
      ProductCorner(job, i - WRITES);
      ValueReadBack(Entry(job, i - WRITES));
      DecodeEncode(S2MDRS(TagAt(0, i), MemData, Value(Entry(job, i - WRITES))));
    }
  }

  // The response file of a guest that answered the job's requests.
  function JoinFlits(flits: seq<Flit>): (bs: seq<u8>)
    ensures |bs| == 64 * |flits|
  {
    if flits == [] then [] else JoinFlits(flits[..|flits| - 1]) + flits[|flits| - 1]
  }

  lemma {:induction false} FlitOfJoin(flits: seq<Flit>, i: nat)
    requires i < |flits|
    ensures FlitAt(JoinFlits(flits), i) == flits[i]
  {
    var n := |flits| - 1;
    var front := JoinFlits(flits[..n]);
    if i < n {
      FlitOfJoin(flits[..n], i);
      assert JoinFlits(flits)[i * 64..(i + 1) * 64] == front[i * 64..(i + 1) * 64];
    }
  }

  lemma {:induction false} TrailIsAfter(job: GemmJob, trail: seq<Slug>, requests: seq<Flit>, responses: seq<Flit>, i: nat)
    requires |requests| == REQUESTS && forall j :: 0 <= j < REQUESTS ==> requests[j] == Request(job, j)
    requires Trail(trail, requests, responses) && trail[0] == FRESH && i <= REQUESTS
    ensures trail[i] == After(job, i) && (i < REQUESTS ==> responses[i] == Response(job, i))
  {
    hide Handle, Request;
    if i > 0 {
      TrailIsAfter(job, trail, requests, responses, i - 1);
      assert trail[i - 1 + 1] == Handle(trail[i - 1], requests[i - 1]).state;
    }
  }

  // For every job, whatever the zeroed guest answers to the job's encoded stream validates: the product comes back
  // through 24 bits without loss.
  lemma GuestRunConforms(job: GemmJob, requests: seq<Flit>, responses: seq<Flit>, end: Slug)
    requires |requests| == REQUESTS && forall i :: 0 <= i < REQUESTS ==> requests[i] == Encode(RequestAt(job, 0, i))
    requires Served(FRESH, requests, responses, end)
    ensures Conforms(job, JoinFlits(responses))
  {
    hide Encode, Decode, Good, Handle, RequestAt;
    var trail :| Trail(trail, requests, responses) && trail[0] == FRESH && trail[|requests|] == end;
    forall i | 0 <= i < REQUESTS
      ensures Decode(FlitAt(JoinFlits(responses), i)).Ok? && Good(job, i, Decode(FlitAt(JoinFlits(responses), i)).value)
    {
      FlitOfJoin(responses, i);
      TrailIsAfter(job, trail, requests, responses, i);
      ResponseGood(job, i);
    }
  }

  // Export, serve, validate.
  method RunJob(job: GemmJob) returns (r: Result<Summary, HostError>)
    ensures r.Ok? && r.value.pass
  {
    hide Encode, RequestAt, Conforms, Served;
    var stream := BuildDispatchStream(job, 0);
    var requests: seq<Flit> := [];
    for i := 0 to |stream|
      invariant |requests| == i && forall j :: 0 <= j < i ==> requests[j] == Encode(stream[j])
    {
      var flit := EncodeFlit(stream[i]);
      requests := requests + [flit[..]];
    }
    var responses, state := Serve(requests);
    GuestRunConforms(job, requests, responses, state.Abs());
    r := ValidateResponses(job, JoinFlits(responses));
  }
}
