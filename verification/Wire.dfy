// The 64-byte FLIT codec.
module Wire {
  import opened Wrappers
  import opened Bytes

  type Flit = f: seq<u8> | |f| == 64 witness seq(64, i => 0)
  type Data = d: seq<u8> | |d| == 32 witness seq(32, i => 0)

  const OFFSET_TAG := 1
  const OFFSET_ADDR := 3
  const OFFSET_DATA := 11
  const OFFSET_RESERVED := 43

  datatype MsgClass = ClsM2SReq | ClsM2SRwD | ClsS2MDRS | ClsS2MNDR | ClsD2HReq | ClsD2HResp | ClsH2DReq | ClsH2DResp

  datatype M2SReqOp = MemRd | MemRdData | MemInv
  datatype M2SRwDOp = MemWr | MemWrPtl | MemClnEvct
  datatype S2MDRSOp = MemData | MemDataNxm
  datatype S2MNDROp = Cmp | CmpS | CmpE | CmpI | MemPassDirty | DispatchFailed
  datatype D2HReqOp = RdShared | RdOwn | Inval
  datatype D2HRespOp = RspIFwdM | RspSFwdM | RspV
  datatype H2DReqOp = SnpData | SnpInv | SnpCur
  datatype H2DRespOp = GoWritePull | GoErr | Go

  datatype CxlMsg =
    | M2SReq(tag: u16, reqOp: M2SReqOp, addr: u64)
    | M2SRwD(tag: u16, rwdOp: M2SRwDOp, addr: u64, data: Data)
    | S2MDRS(tag: u16, drsOp: S2MDRSOp, data: Data)
    | S2MNDR(tag: u16, ndrOp: S2MNDROp)
    | D2HReq(tag: u16, d2hOp: D2HReqOp, addr: u64)
    | D2HResp(tag: u16, d2hRespOp: D2HRespOp, maybe: Option<Data>)
    | H2DReq(tag: u16, h2dOp: H2DReqOp, addr: u64)
    | H2DResp(tag: u16, h2dRespOp: H2DRespOp)

  datatype WireError = ReservedBitsSet | UnknownClass(nibble: u8) | UnknownOpcode(op: u8, cls: MsgClass)

  // ---------------------------------------------------------------- encoding

  function ClassCode(m: CxlMsg): u8 {
    match m
    case M2SReq(_, _, _) => 1
    case M2SRwD(_, _, _, _) => 2
    case S2MDRS(_, _, _) => 3
    case S2MNDR(_, _) => 4
    case D2HReq(_, _, _) => 5
    case D2HResp(_, _, _) => 6
    case H2DReq(_, _, _) => 7
    case H2DResp(_, _) => 8
  }

  function OpCode(m: CxlMsg): u8 {
    match m
    case M2SReq(_, op, _) => (match op case MemRd => 0 case MemRdData => 1 case MemInv => 2)
    case M2SRwD(_, op, _, _) => (match op case MemWr => 0 case MemWrPtl => 1 case MemClnEvct => 2)
    case S2MDRS(_, op, _) => (match op case MemData => 0 case MemDataNxm => 1)
    case S2MNDR(_, op) =>
      (match op
       case Cmp => 0
       case CmpS => 1
       case CmpE => 2
       case CmpI => 3
       case MemPassDirty => 4
       case DispatchFailed => 15)
    case D2HReq(_, op, _) => (match op case RdShared => 0 case RdOwn => 1 case Inval => 2)
    case D2HResp(_, op, _) => (match op case RspIFwdM => 0 case RspSFwdM => 1 case RspV => 2)
    case H2DReq(_, op, _) => (match op case SnpData => 0 case SnpInv => 1 case SnpCur => 2)
    case H2DResp(_, op) => (match op case GoWritePull => 0 case GoErr => 1 case Go => 2)
  }

  function Addr(m: CxlMsg): u64 {
    match m
    case M2SReq(_, _, addr) => addr
    case M2SRwD(_, _, addr, _) => addr
    case D2HReq(_, _, addr) => addr
    case H2DReq(_, _, addr) => addr
    case _ => 0
  }

  function Payload(m: CxlMsg): Option<Data> {
    match m
    case M2SRwD(_, _, _, data) => Some(data)
    case S2MDRS(_, _, data) => Some(data)
    case D2HResp(_, _, maybe) => maybe
    case _ => None
  }

  function Zeros(n: nat): (z: seq<u8>)
    ensures |z| == n && forall i :: 0 <= i < n ==> z[i] == 0
  {
    seq(n, i => 0)
  }

  const NO_DATA: Data := Zeros(32)

  function Header(m: CxlMsg): u8 {
    (ClassCode(m) * 16 + OpCode(m) % 16) % 256
  }

  function DataOr(d: Option<Data>): Data {
    match d
    case None => NO_DATA
    case Some(data) => data
  }

  // Header byte, tag, address, data or zeros, reserved zeros.
  function Encode(m: CxlMsg): Flit {
    [Header(m)] + ToLE(m.tag, 2) + ToLE(Addr(m), 8) + DataOr(Payload(m)) + Zeros(21)
  }

  method CopyInto(a: array<u8>, at: nat, bs: seq<u8>)
    requires at + |bs| <= a.Length
    modifies a
    ensures a[..] == old(a[..at]) + bs + old(a[at + |bs|..])
  {
    for i := 0 to |bs|
      invariant a[..at] == old(a[..at]) && a[at..at + i] == bs[..i] && a[at + i..] == old(a[at + i..])
    {
      a[at + i] := bs[i];
    }
  }

  // The encoder as written: fields copied into a zeroed buffer.
  method EncodeFlit(m: CxlMsg) returns (flit: array<u8>)
    ensures fresh(flit) && flit[..] == Encode(m)
  {
    hide Header, Payload, Addr, ToLE;
    flit := new u8[64](i => 0);
    assert flit[..] == Zeros(64);
    flit[0] := Header(m);
    assert flit[..] == [Header(m)] + Zeros(63);
    CopyInto(flit, OFFSET_TAG, ToLE(m.tag, 2));
    assert flit[..] == [Header(m)] + ToLE(m.tag, 2) + Zeros(61);
    CopyInto(flit, OFFSET_ADDR, ToLE(Addr(m), 8));
    assert flit[..] == [Header(m)] + ToLE(m.tag, 2) + ToLE(Addr(m), 8) + NO_DATA + Zeros(21);
    if Payload(m).Some? {
      CopyInto(flit, OFFSET_DATA, Payload(m).value);
      assert flit[..] == [Header(m)] + ToLE(m.tag, 2) + ToLE(Addr(m), 8) + Payload(m).value + Zeros(21);
    }
  }

  // ---------------------------------------------------------------- decoding

  function ClassOf(nibble: u8): Option<MsgClass> {
    if nibble == 1 then Some(ClsM2SReq)
    else if nibble == 2 then Some(ClsM2SRwD)
    else if nibble == 3 then Some(ClsS2MDRS)
    else if nibble == 4 then Some(ClsS2MNDR)
    else if nibble == 5 then Some(ClsD2HReq)
    else if nibble == 6 then Some(ClsD2HResp)
    else if nibble == 7 then Some(ClsH2DReq)
    else if nibble == 8 then Some(ClsH2DResp)
    else None
  }

  function Tag(f: Flit): u16 {
    ToFromLE(f[1..3]);
    Pow256Values();
    FromLE(f[1..3])
  }

  function AddrField(f: Flit): u64 {
    ToFromLE(f[3..11]);
    Pow256Values();
    FromLE(f[3..11])
  }

  // The word a dispatch request carries: the first four data bytes.
  function LowWord(f: Flit): u32 {
    ToFromLE(f[11..15]);
    Pow256Values();
    FromLE(f[11..15])
  }

  function Three<T>(op: u8, a: T, b: T, c: T): Option<T> {
    if op == 0 then Some(a) else if op == 1 then Some(b) else if op == 2 then Some(c) else None
  }

  function NdrOp(op: u8): Option<S2MNDROp> {
    if op == 0 then Some(Cmp)
    else if op == 1 then Some(CmpS)
    else if op == 2 then Some(CmpE)
    else if op == 3 then Some(CmpI)
    else if op == 4 then Some(MemPassDirty)
    else if op == 15 then Some(DispatchFailed)
    else None
  }

  function Message(cls: MsgClass, op: u8, tag: u16, addr: u64, data: Data): Option<CxlMsg> {
    match cls
    case ClsM2SReq =>
      var o := Three(op, MemRd, MemRdData, MemInv);
      if o.Some? then Some(M2SReq(tag, o.value, addr)) else None
    case ClsM2SRwD =>
      var o := Three(op, MemWr, MemWrPtl, MemClnEvct);
      if o.Some? then Some(M2SRwD(tag, o.value, addr, data)) else None
    case ClsS2MDRS =>
      if op == 0 then Some(S2MDRS(tag, MemData, data))
      else if op == 1 then Some(S2MDRS(tag, MemDataNxm, data)) else None
    case ClsS2MNDR =>
      var o := NdrOp(op);
      if o.Some? then Some(S2MNDR(tag, o.value)) else None
    case ClsD2HReq =>
      var o := Three(op, RdShared, RdOwn, Inval);
      if o.Some? then Some(D2HReq(tag, o.value, addr)) else None
    case ClsD2HResp =>
      var o := Three(op, RspIFwdM, RspSFwdM, RspV);
      if o.Some? then Some(D2HResp(tag, o.value, Some(data))) else None
    case ClsH2DReq =>
      var o := Three(op, SnpData, SnpInv, SnpCur);
      if o.Some? then Some(H2DReq(tag, o.value, addr)) else None
    case ClsH2DResp =>
      var o := Three(op, GoWritePull, GoErr, Go);
      if o.Some? then Some(H2DResp(tag, o.value)) else None
  }

  function Decode(f: Flit): Result<CxlMsg, WireError> {
    if exists i :: OFFSET_RESERVED <= i < 64 && f[i] != 0 then Err(ReservedBitsSet)
    else if ClassOf(f[0] / 16).None? then Err(UnknownClass(f[0] / 16))
    else
      var cls := ClassOf(f[0] / 16).value;
      var m := Message(cls, f[0] % 16, Tag(f), AddrField(f), f[11..43]);
      if m.None? then Err(UnknownOpcode(f[0] % 16, cls)) else Ok(m.value)
  }

  // ---------------------------------------------------------------- round trips

  lemma Slices(h: u8, t: seq<u8>, a: seq<u8>, d: seq<u8>, z: seq<u8>)
    requires |t| == 2 && |a| == 8 && |d| == 32 && |z| == 21
    ensures var f := [h] + t + a + d + z;
            f[0] == h && f[1..3] == t && f[3..11] == a && f[11..43] == d && f[43..] == z
  {
  }

  lemma EncodedFields(m: CxlMsg)
    ensures var f := Encode(m);
            && f[0] == Header(m) && Tag(f) == m.tag && AddrField(f) == Addr(m) && f[11..43] == DataOr(Payload(m))
            && f[1..3] == ToLE(m.tag, 2) && f[3..11] == ToLE(Addr(m), 8) && f[43..] == Zeros(21)
  {
    hide Header, Payload, Addr, ToLE;
    Slices(Header(m), ToLE(m.tag, 2), ToLE(Addr(m), 8), DataOr(Payload(m)), Zeros(21));
    FromToLE(m.tag, 2);
    FromToLE(Addr(m), 8);
    Pow256Values();
  }

  lemma HeaderCodes(m: CxlMsg)
    ensures Header(m) / 16 == ClassCode(m) && Header(m) % 16 == OpCode(m)
  {
    CodeBounds(m);
    hide ClassCode, OpCode;
    var c, o := ClassCode(m), OpCode(m);
    assert o % 16 == o && (c * 16 + o) % 256 == c * 16 + o;
    DivModUnique(c * 16 + o, 16, c, o);
  }

  lemma CodeBounds(m: CxlMsg)
    ensures ClassCode(m) <= 8 && OpCode(m) <= 15
  {
  }

  // Absent response data comes back as zeros; everything else comes back as it was.
  function Defaulted(m: CxlMsg): CxlMsg {
    if m.D2HResp? && m.maybe.None? then m.(maybe := Some(NO_DATA)) else m
  }

  lemma DecodeEncode(m: CxlMsg)
    ensures Decode(Encode(m)) == Ok(Defaulted(m))
  {
    hide Encode, Header, Tag, AddrField, ToLE;
    var f := Encode(m);
    EncodedFields(m);
    HeaderCodes(m);
    assert forall i :: OFFSET_RESERVED <= i < 64 ==> f[i] == f[43..][i - 43] == 0;
  }

  // Which bytes a class gives meaning to.
  predicate HasAddr(c: MsgClass) {
    c.ClsM2SReq? || c.ClsM2SRwD? || c.ClsD2HReq? || c.ClsH2DReq?
  }

  predicate HasData(c: MsgClass) {
    c.ClsM2SRwD? || c.ClsS2MDRS? || c.ClsD2HResp?
  }

  lemma DecodedCodes(f: Flit)
    requires Decode(f).Ok?
    ensures ClassOf(f[0] / 16).Some?
    ensures var m, cls := Decode(f).value, ClassOf(f[0] / 16).value;
            && ClassCode(m) == f[0] / 16 && OpCode(m) == f[0] % 16 && m.tag == Tag(f)
            && Addr(m) == (if HasAddr(cls) then AddrField(f) else 0)
            && Payload(m) == (if HasData(cls) then Some(f[11..43]) else None)
            && Defaulted(m) == m && f[43..] == Zeros(21)
  {
  }

  // Re-encoding an accepted FLIT clears exactly the fields its class ignores; so it changes nothing the second time,
  // and leaves a FLIT alone exactly when those fields were zero already.
  lemma EncodeDecode(f: Flit)
    requires Decode(f).Ok?
    ensures var g := Encode(Decode(f).value); var cls := ClassOf(f[0] / 16).value;
            && g[..3] == f[..3] && g[3..11] == (if HasAddr(cls) then f[3..11] else Zeros(8))
            && g[11..43] == (if HasData(cls) then f[11..43] else NO_DATA) && g[43..] == f[43..]
            && Decode(g) == Decode(f) && Encode(Decode(g).value) == g
            && (g == f <==> (HasAddr(cls) || f[3..11] == Zeros(8)) && (HasData(cls) || f[11..43] == NO_DATA))
  {
    hide Encode, Decode, Header, Tag, AddrField, ToLE, Payload, Addr;
    DecodedCodes(f);
    var m, cls := Decode(f).value, ClassOf(f[0] / 16).value;
    var g := Encode(m);
    EncodedFields(m);
    DecodeEncode(m);
    TagLE(f);
    HeaderCodes(m);
    ZeroLE(8);
    assert g[0] == f[0] by { assert g[0] == 16 * (g[0] / 16) + g[0] % 16; }
    assert g[..3] == [g[0]] + g[1..3] && f[..3] == [f[0]] + f[1..3];
    Whole(f);
    Whole(g);
  }

  lemma Whole(f: Flit)
    ensures f == f[..3] + f[3..11] + f[11..43] + f[43..]
  {
  }

  lemma TagLE(f: Flit)
    ensures ToLE(Tag(f), 2) == f[1..3] && ToLE(AddrField(f), 8) == f[3..11]
  {
    ToFromLE(f[1..3]);
    ToFromLE(f[3..11]);
  }

  lemma {:induction false} ZeroLE(n: nat)
    ensures ToLE(0, n) == Zeros(n)
  {
    if n > 0 {
      ZeroLE(n - 1);
      assert Zeros(n) == [0] + Zeros(n - 1);
    }
  }

  // ---------------------------------------------------------------- rejection

  ghost predicate KnownOpcode(c: MsgClass, op: u8) {
    match c
    case ClsS2MDRS => op <= 1
    case ClsS2MNDR => op <= 4 || op == 15
    case _ => op <= 2
  }

  // Rejected exactly for a nonzero reserved byte, else an unknown class, else an opcode the class lacks.
  lemma RejectsExactly(f: Flit)
    ensures var reserved := forall i :: 43 <= i < 64 ==> f[i] == 0;
            && (Decode(f) == Err(ReservedBitsSet) <==> !reserved)
            && (Decode(f) == Err(UnknownClass(f[0] / 16)) <==> reserved && !(1 <= f[0] / 16 <= 8))
            && (Decode(f).Ok? <==> reserved && ClassOf(f[0] / 16).Some?
                                   && KnownOpcode(ClassOf(f[0] / 16).value, f[0] % 16))
  {
  }

  // A FLIT is accepted exactly when some message has its header byte and its reserved bytes; the other bytes are
  // free.
  lemma AcceptedIffEncodable(f: Flit)
    ensures Decode(f).Ok? <==> exists m :: Encode(m)[0] == f[0] && Encode(m)[43..] == f[43..]
  {
    hide Encode, Decode, ClassOf;
    if Decode(f).Ok? {
      EncodeDecode(f);
      var m := Decode(f).value;
      var g := Encode(m);
      assert g[0] == g[..3][0] == f[..3][0];
      assert g[43..] == f[43..];
    }
    if m :| Encode(m)[0] == f[0] && Encode(m)[43..] == f[43..] {
      DecodeEncode(m);
      RejectsExactly(Encode(m));
      RejectsExactly(f);
      var g := Encode(m);
      assert forall i :: 43 <= i < 64 ==> f[i] == f[43..][i - 43] == g[43..][i - 43] == g[i];
    }
  }
}
