// The generated endpoint's clocked state machine and its pass-through monitor, under any environment.
module EndpointRtl {
  import opened Bytes
  import opened Wire

  const DISPATCH_BASE := 0x2000

  datatype Fsm = Idle | DriveCmd | AwaitDone | CmpSetup | CmpHold | DataSetup | DataHold | FailSetup | FailHold
    | DriveCmdNoDone

  // One clock's inputs.
  datatype Pins = Pins(inValid: bool, inData: Flit, outReady: bool, cmdReady: bool, doneValid: bool, tokenOut: nat,
                       metadataReady: bool)

  datatype Regs = Regs(fsm: Fsm, outValid: bool, outData: Flit, cmdValid: bool, tokenIn: u32, pendTag: u16,
                       pendIsRead: bool, pendReadData: nat)

  const RESET: Regs := Regs(Idle, false, Zeros(64), false, 0, 0, false, 0)

  // ---------------------------------------------------------------- what a request is

  datatype Kind = Load | Compute | Read | Unclaimed

  function Bit(t: nat, weight: nat): bool
    requires weight > 0
  {
    t / weight % 2 == 1
  }

  function KindOf(f: Flit): Kind {
    if AddrField(f) % 0x1_0000 != DISPATCH_BASE % 0x1_0000 then Unclaimed
    else if f[0] / 16 == 2 then
      if Bit(LowWord(f), 4) && !Bit(LowWord(f), 0x10_0000) && !Bit(LowWord(f), 0x20_0000) then Load else Compute
    else if f[0] / 16 == 1 then Read
    else Unclaimed
  }

  function TokenOf(f: Flit): u32 {
    if KindOf(f).Read? then AddrField(f) / 0x1_0000_0000 else LowWord(f)
  }

  function ReadData(d: nat): Data {
    [d % 256, d / 256 % 256, d / 65536 % 256] + Zeros(29)
  }

  function CmpFlit(tag: u16): Flit {
    Encode(S2MNDR(tag, Cmp))
  }

  function DataFlit(tag: u16, d: nat): Flit {
    Encode(S2MDRS(tag, MemData, ReadData(d)))
  }

  function FailFlit(tag: u16): Flit {
    Encode(S2MNDR(tag, DispatchFailed))
  }

  // ---------------------------------------------------------------- one clock edge

  function Accept(r: Regs, f: Flit): Regs {
    var tagged := r.(pendTag := Tag(f), cmdValid := false);
    match KindOf(f)
    case Load => tagged.(pendIsRead := false, tokenIn := TokenOf(f), fsm := DriveCmdNoDone)
    case Compute => tagged.(pendIsRead := false, tokenIn := TokenOf(f), fsm := DriveCmd)
    case Read => tagged.(pendIsRead := true, tokenIn := TokenOf(f), fsm := DriveCmd)
    case Unclaimed => tagged.(fsm := FailSetup)
  }

  function Next(r: Regs, p: Pins): Regs {
    match r.fsm
    case Idle =>
      var cleared := r.(cmdValid := false, outValid := r.outValid && !p.outReady);
      if p.inValid then Accept(cleared, p.inData) else cleared
    case DriveCmd => r.(cmdValid := true, fsm := if p.cmdReady then AwaitDone else DriveCmd)
    case DriveCmdNoDone =>
      if p.cmdReady then r.(cmdValid := false, fsm := CmpSetup) else r.(cmdValid := true)
    case AwaitDone =>
      if !p.doneValid then r.(cmdValid := false)
      else if r.pendIsRead then r.(cmdValid := false, pendReadData := p.tokenOut % 0x100_0000, fsm := DataSetup)
      else r.(cmdValid := false, fsm := CmpSetup)
    case CmpSetup => r.(outData := CmpFlit(r.pendTag), outValid := true, fsm := CmpHold)
    case DataSetup => r.(outData := DataFlit(r.pendTag, r.pendReadData), outValid := true, fsm := DataHold)
    case FailSetup => r.(outData := FailFlit(r.pendTag), outValid := true, fsm := FailHold)
    case CmpHold => if p.outReady then r.(outValid := false, fsm := Idle) else r
    case DataHold => if p.outReady then r.(outValid := false, fsm := Idle) else r
    case FailHold => if p.outReady then r.(outValid := false, fsm := Idle) else r
  }

  predicate InFire(r: Regs, p: Pins) {
    p.inValid && r.fsm.Idle?
  }

  predicate OutFire(r: Regs, p: Pins) {
    r.outValid && p.outReady
  }

  // ---------------------------------------------------------------- the always-block

  class Endpoint {
    var fsm: Fsm
    var outValid: bool
    var outData: Flit
    var cmdValid: bool
    var tokenIn: u32
    var pendTag: u16
    var pendIsRead: bool
    var pendReadData: nat

    ghost function Abs(): Regs
      reads this
    {
      Regs(fsm, outValid, outData, cmdValid, tokenIn, pendTag, pendIsRead, pendReadData)
    }

    constructor ()
      ensures Abs() == RESET
    {
      fsm, outValid, outData, cmdValid := Idle, false, Zeros(64), false;
      tokenIn, pendTag, pendIsRead, pendReadData := 0, 0, false, 0;
    }

    method Claim(f: Flit)
      requires fsm.Idle?
      modifies this`pendTag, this`pendIsRead, this`tokenIn, this`fsm
      ensures Abs() == Accept(old(Abs()).(cmdValid := false), f).(cmdValid := cmdValid)
    {
      hide Tag, AddrField, LowWord;
      pendTag := Tag(f);
      var matches := AddrField(f) % 0x1_0000 == DISPATCH_BASE % 0x1_0000;
      if matches && f[0] / 16 == 2 {
        var token := LowWord(f);
        pendIsRead, tokenIn := false, token;
        if Bit(token, 4) && !Bit(token, 0x10_0000) && !Bit(token, 0x20_0000) {
          fsm := DriveCmdNoDone;
        } else {
          fsm := DriveCmd;
        }
      } else if matches && f[0] / 16 == 1 {
        pendIsRead, tokenIn, fsm := true, AddrField(f) / 0x1_0000_0000, DriveCmd;
      } else {
        fsm := FailSetup;
      }
    }

    // Every register keeps its value unless the current state assigns it.
    method Clock(p: Pins)
      modifies this
      ensures Abs() == Next(old(Abs()), p)
    {
      hide Accept, CmpFlit, DataFlit, FailFlit;
      match fsm {
        case Idle =>
          cmdValid := false;
          if outValid && p.outReady {
            outValid := false;
          }
          if p.inValid {
            Claim(p.inData);
            AcceptCmd(old(Abs()).(cmdValid := false, outValid := outValid), p.inData);
          }
        case DriveCmd =>
          cmdValid := true;
          if p.cmdReady {
            fsm := AwaitDone;
          }
        case DriveCmdNoDone =>
          cmdValid := true;
          if p.cmdReady {
            cmdValid := false;
            fsm := CmpSetup;
          }
        case AwaitDone =>
          cmdValid := false;
          if p.doneValid {
            if pendIsRead {
              pendReadData := p.tokenOut % 0x100_0000;
              fsm := DataSetup;
            } else {
              fsm := CmpSetup;
            }
          }
        case CmpSetup =>
          outData, outValid, fsm := CmpFlit(pendTag), true, CmpHold;
        case DataSetup =>
          outData, outValid, fsm := DataFlit(pendTag, pendReadData), true, DataHold;
        case FailSetup =>
          outData, outValid, fsm := FailFlit(pendTag), true, FailHold;
        case CmpHold =>
          if p.outReady {
            outValid, fsm := false, Idle;
          }
        case DataHold =>
          if p.outReady {
            outValid, fsm := false, Idle;
          }
        case FailHold =>
          if p.outReady {
            outValid, fsm := false, Idle;
          }
      }
    }
  }

  lemma AcceptCmd(r: Regs, f: Flit)
    ensures Accept(r, f).cmdValid == false && Accept(r.(cmdValid := false), f) == Accept(r, f)
  {
  }

  // ---------------------------------------------------------------- the monitor

  datatype Counters = Counters(sampleCtr: u32, recordCount: u64, appFlitBytes: u64, stallCycles: u64, dropCount: u64)

  function Bump(x: u64, n: nat): u64 {
    (x + n) % WORD64
  }

  function Observe(m: Counters, stride: u32, inValid: bool, inReady: bool, outFire: bool, metadataReady: bool): Counters
    requires stride > 0
  {
    var stalled := if inValid && !inReady then m.(stallCycles := Bump(m.stallCycles, 1)) else m;
    if (inValid && inReady) || outFire then
      var counted := stalled.(appFlitBytes := Bump(m.appFlitBytes, 64),
                              sampleCtr := if m.sampleCtr == stride - 1 then 0 else (m.sampleCtr + 1) % 0x1_0000_0000);
      if m.sampleCtr != 0 then counted
      else
        counted.(recordCount := Bump(m.recordCount, 1),
                 dropCount := if metadataReady then m.dropCount else Bump(m.dropCount, 1))
    else stalled
  }

  class Pipeline {
    const stride: u32
    var sampleCtr: u32
    var recordCount: u64
    var appFlitBytes: u64
    var stallCycles: u64
    var dropCount: u64

    ghost function Abs(): Counters
      reads this
    {
      Counters(sampleCtr, recordCount, appFlitBytes, stallCycles, dropCount)
    }

    constructor (stride: u32)
      ensures Abs() == Counters(0, 0, 0, 0, 0) && this.stride == stride
    {
      this.stride := stride;
      sampleCtr, recordCount, appFlitBytes, stallCycles, dropCount := 0, 0, 0, 0, 0;
    }

    method Clock(inValid: bool, inReady: bool, outFire: bool, metadataReady: bool)
      requires stride > 0
      modifies this
      ensures Abs() == Observe(old(Abs()), stride, inValid, inReady, outFire, metadataReady)
    {
      var sampled := sampleCtr == 0;
      if inValid && !inReady {
        stallCycles := (stallCycles + 1) % WORD64;
      }
      if (inValid && inReady) || outFire {
        appFlitBytes := (appFlitBytes + 64) % WORD64;
        if sampleCtr == stride - 1 {
          sampleCtr := 0;
        } else {
          sampleCtr := (sampleCtr + 1) % 0x1_0000_0000;
        }
        if sampled {
          recordCount := (recordCount + 1) % WORD64;
          if !metadataReady {
            dropCount := (dropCount + 1) % WORD64;
          }
        }
      }
    }
  }

  // ---------------------------------------------------------------- traces

  // The registers plus what the two handshakes have let through, and the datum sampled for each request.
  datatype World = World(regs: Regs, counters: Counters, accepted: seq<Flit>, samples: seq<nat>, delivered: seq<Flit>,
                         stalls: nat, drops: nat)

  const START: World := World(RESET, Counters(0, 0, 0, 0, 0), [], [], [], 0, 0)

  function Samples(w: World, p: Pins): seq<nat> {
    if InFire(w.regs, p) then w.samples + [0]
    else if w.regs.fsm.AwaitDone? && p.doneValid && w.regs.pendIsRead && w.samples != [] then
      w.samples[..|w.samples| - 1] + [p.tokenOut % 0x100_0000]
    else w.samples
  }

  function Tick(w: World, stride: u32, p: Pins): World
    requires stride > 0
  {
    var r, m := w.regs, w.counters;
    World(Next(r, p), Observe(m, stride, p.inValid, r.fsm.Idle?, OutFire(r, p), p.metadataReady),
          if InFire(r, p) then w.accepted + [p.inData] else w.accepted, Samples(w, p),
          if OutFire(r, p) then w.delivered + [r.outData] else w.delivered,
          w.stalls + (if p.inValid && !r.fsm.Idle? then 1 else 0),
          w.drops + (if (InFire(r, p) || OutFire(r, p)) && m.sampleCtr == 0 && !p.metadataReady then 1 else 0))
  }

  function Run(stride: u32, trace: seq<Pins>): World
    requires stride > 0
  {
    if trace == [] then START else Tick(Run(stride, trace[..|trace| - 1]), stride, trace[|trace| - 1])
  }

  // The reply a request must get: its own tag, and for a read the datum sampled for it.
  function Answer(f: Flit, sample: nat): Flit {
    match KindOf(f)
    case Load => CmpFlit(Tag(f))
    case Compute => CmpFlit(Tag(f))
    case Read => DataFlit(Tag(f), sample)
    case Unclaimed => FailFlit(Tag(f))
  }

  predicate Holding(s: Fsm) {
    s.CmpHold? || s.DataHold? || s.FailHold?
  }

  // Where the machine is with the one request in flight.
  ghost predicate InFlight(r: Regs, f: Flit, sample: nat) {
    && r.pendTag == Tag(f)
    && (match r.fsm
        case Idle => false
        case DriveCmdNoDone => KindOf(f).Load?
        case DriveCmd => KindOf(f).Compute? || KindOf(f).Read?
        case AwaitDone => KindOf(f).Compute? || KindOf(f).Read?
        case CmpSetup => KindOf(f).Load? || KindOf(f).Compute?
        case DataSetup => KindOf(f).Read? && r.pendReadData == sample
        case FailSetup => KindOf(f).Unclaimed?
        case _ => true)
    && (!KindOf(f).Unclaimed? ==> r.tokenIn == TokenOf(f) && (r.pendIsRead <==> KindOf(f).Read?))
    && (r.outValid <==> Holding(r.fsm)) && (Holding(r.fsm) ==> r.outData == Answer(f, sample))
  }

  ghost predicate Inv(w: World) {
    var n := |w.delivered|;
    && |w.samples| == |w.accepted|
    && (forall k :: 0 <= k < n && k < |w.accepted| ==> w.delivered[k] == Answer(w.accepted[k], w.samples[k]))
    && if w.regs.fsm.Idle? then |w.accepted| == n && !w.regs.outValid
       else |w.accepted| == n + 1 && InFlight(w.regs, w.accepted[n], w.samples[n])
  }

  lemma AcceptInFlight(r: Regs, f: Flit)
    requires r.fsm.Idle? && !r.outValid
    ensures InFlight(Accept(r, f), f, 0) && !Accept(r, f).fsm.Idle?
  {
    hide Tag, TokenOf, KindOf;
  }

  lemma AdvanceInFlight(r: Regs, p: Pins, f: Flit, sample: nat)
    requires InFlight(r, f, sample) && !OutFire(r, p)
    ensures var s := if r.fsm.AwaitDone? && p.doneValid && r.pendIsRead then p.tokenOut % 0x100_0000 else sample;
            InFlight(Next(r, p), f, s) && !Next(r, p).fsm.Idle?
  {
    hide Tag, TokenOf, KindOf, CmpFlit, DataFlit, FailFlit;
  }

  lemma TickInv(w: World, stride: u32, p: Pins)
    requires stride > 0 && Inv(w)
    ensures Inv(Tick(w, stride, p))
  {
    hide InFlight, Answer, Observe, Accept, KindOf;
    var n := |w.delivered|;
    if w.regs.fsm.Idle? {
      if p.inValid {
        AcceptInFlight(w.regs.(cmdValid := false, outValid := false), p.inData);
      }
    } else if OutFire(w.regs, p) {
      DeliverStep(w, p);
    } else {
      AdvanceInFlight(w.regs, p, w.accepted[n], w.samples[n]);
    }
  }

  lemma DeliverStep(w: World, p: Pins)
    requires Inv(w) && OutFire(w.regs, p)
    ensures !w.regs.fsm.Idle? && Holding(w.regs.fsm) && Next(w.regs, p).fsm.Idle? && !Next(w.regs, p).outValid
    ensures w.regs.outData == Answer(w.accepted[|w.delivered|], w.samples[|w.delivered|])
  {
    hide KindOf, TokenOf, Answer, Tag;
  }

  lemma {:induction false} RunInv(stride: u32, trace: seq<Pins>)
    requires stride > 0
    ensures Inv(Run(stride, trace))
  {
    if trace != [] {
      RunInv(stride, trace[..|trace| - 1]);
      TickInv(Run(stride, trace[..|trace| - 1]), stride, trace[|trace| - 1]);
    }
  }

  // On every trace from reset: at most one request is in flight, exactly when the machine is not idle; reply k
  // answers request k under its tag; and the two handshakes never fire in the same clock.
  lemma SingleInFlight(stride: u32, trace: seq<Pins>)
    requires stride > 0
    ensures var w := Run(stride, trace);
            && |w.accepted| == |w.delivered| + (if w.regs.fsm.Idle? then 0 else 1)
            && |w.samples| == |w.accepted|
            && (forall k :: 0 <= k < |w.delivered| ==> w.delivered[k] == Answer(w.accepted[k], w.samples[k]))
            && !(w.regs.fsm.Idle? && w.regs.outValid)
  {
    hide Answer, KindOf;
    RunInv(stride, trace);
  }

  // A reply on offer stays on offer, unchanged, until it is taken.
  lemma OutputIsStable(stride: u32, trace: seq<Pins>, p: Pins)
    requires stride > 0 && Run(stride, trace).regs.outValid && !p.outReady
    ensures var w, v := Run(stride, trace), Run(stride, trace + [p]);
            v.regs.outValid && v.regs.outData == w.regs.outData && v.delivered == w.delivered && v.accepted == w.accepted
  {
    hide Answer, KindOf, Observe;
    RunInv(stride, trace);
    assert (trace + [p])[..|trace|] == trace;
  }

  // ---------------------------------------------------------------- how long a reply takes

  function Ticks(w: World, stride: u32, ps: seq<Pins>): World
    requires stride > 0
    decreases |ps|
  {
    if ps == [] then w else Ticks(Tick(w, stride, ps[0]), stride, ps[1..])
  }

  function Latency(k: Kind): nat {
    match k
    case Load => 3
    case Compute => 4
    case Read => 4
    case Unclaimed => 2
  }

  ghost predicate AlwaysReady(ps: seq<Pins>) {
    forall i :: 0 <= i < |ps| ==> ps[i].cmdReady && ps[i].doneValid && ps[i].outReady
  }

  // The machine is idle again and has delivered f's reply.
  ghost predicate Answered(w: World, v: World, f: Flit, sample: nat) {
    v.regs.fsm.Idle? && v.accepted == w.accepted + [f] && v.delivered == w.delivered + [Answer(f, sample)]
  }

  lemma UnclaimedAnswered(w: World, stride: u32, p: Pins, ps: seq<Pins>)
    requires stride > 0 && Inv(w) && InFire(w.regs, p) && KindOf(p.inData).Unclaimed? && |ps| == 2 && AlwaysReady(ps)
    ensures Answered(w, Ticks(Tick(w, stride, p), stride, ps), p.inData, 0)
  {
    hide KindOf, Observe, Tag, TokenOf, CmpFlit, DataFlit, FailFlit, Ticks, InFlight;
    var v0 := Tick(w, stride, p);
    TwoTicks(v0, stride, ps);
    NoTicks(Tick(Tick(v0, stride, ps[0]), stride, ps[1]), stride, ps[2..]);
  }

  lemma LoadAnswered(w: World, stride: u32, p: Pins, ps: seq<Pins>)
    requires stride > 0 && Inv(w) && InFire(w.regs, p) && KindOf(p.inData).Load? && |ps| == 3 && AlwaysReady(ps)
    ensures Answered(w, Ticks(Tick(w, stride, p), stride, ps), p.inData, 0)
  {
    hide KindOf, Observe, Tag, TokenOf, CmpFlit, DataFlit, FailFlit, Ticks, InFlight;
    var v0 := Tick(w, stride, p);
    TwoTicks(v0, stride, ps);
    OneTick(Tick(Tick(v0, stride, ps[0]), stride, ps[1]), stride, ps[2..]);
  }

  lemma DispatchAnswered(w: World, stride: u32, p: Pins, ps: seq<Pins>)
    requires stride > 0 && Inv(w) && InFire(w.regs, p) && |ps| == 4 && AlwaysReady(ps)
    requires KindOf(p.inData).Compute? || KindOf(p.inData).Read?
    ensures Answered(w, Ticks(Tick(w, stride, p), stride, ps), p.inData,
                     if KindOf(p.inData).Read? then ps[1].tokenOut % 0x100_0000 else 0)
  {
    hide KindOf, Observe, Tag, TokenOf, CmpFlit, DataFlit, FailFlit, Ticks, InFlight;
    var v0 := Tick(w, stride, p);
    TwoTicks(v0, stride, ps);
    var v2, rest := Tick(Tick(v0, stride, ps[0]), stride, ps[1]), ps[2..];
    TwoTicks(v2, stride, rest);
    NoTicks(Tick(Tick(v2, stride, rest[0]), stride, rest[1]), stride, rest[2..]);
  }

  // With wrapper and host always ready, a request is answered exactly this many clocks after it is taken; a read
  // carries what the wrapper showed in the second of them.
  lemma AnsweredInTime(w: World, stride: u32, p: Pins, ps: seq<Pins>)
    requires stride > 0 && Inv(w) && InFire(w.regs, p) && |ps| == Latency(KindOf(p.inData)) && AlwaysReady(ps)
    ensures Answered(w, Ticks(Tick(w, stride, p), stride, ps), p.inData,
                     if KindOf(p.inData).Read? then ps[1].tokenOut % 0x100_0000 else 0)
  {
    hide KindOf, Tick, Ticks, Inv, Answered, AlwaysReady;
    match KindOf(p.inData) {
      case Unclaimed => UnclaimedAnswered(w, stride, p, ps);
      case Load => LoadAnswered(w, stride, p, ps);
      case _ => DispatchAnswered(w, stride, p, ps);
    }
  }

  lemma NoTicks(w: World, stride: u32, ps: seq<Pins>)
    requires stride > 0 && |ps| == 0
    ensures Ticks(w, stride, ps) == w
  {
  }

  lemma OneTick(w: World, stride: u32, ps: seq<Pins>)
    requires stride > 0 && |ps| == 1
    ensures Ticks(w, stride, ps) == Tick(w, stride, ps[0])
  {
    NoTicks(Tick(w, stride, ps[0]), stride, ps[1..]);
  }

  lemma TwoTicks(w: World, stride: u32, ps: seq<Pins>)
    requires stride > 0 && |ps| >= 2
    ensures Ticks(w, stride, ps) == Ticks(Tick(Tick(w, stride, ps[0]), stride, ps[1]), stride, ps[2..])
  {
    hide Tick;
    assert ps[1..][1..] == ps[2..];
  }

  // ---------------------------------------------------------------- what the monitor counts

  // The least number of strides covering n.
  function Ceil(n: nat, stride: nat): nat
    requires stride > 0
  {
    (n + stride - 1) / stride
  }

  lemma NextStride(stride: nat, q: nat)
    ensures stride * (q + 1) == stride * q + stride
  {
  }

  lemma ModStride(n: nat, stride: nat)
    requires stride > 0
    ensures (n + 1) % stride == if n % stride == stride - 1 then 0 else n % stride + 1
  {
    var q, r := n / stride, n % stride;
    NextStride(stride, q);
    if r == stride - 1 {
      DivModUnique(n + 1, stride, q + 1, 0);
    } else {
      DivModUnique(n + 1, stride, q, r + 1);
    }
  }

  lemma CeilStep(n: nat, stride: nat)
    requires stride > 0
    ensures Ceil(n + 1, stride) == Ceil(n, stride) + if n % stride == 0 then 1 else 0
  {
    var q, r := n / stride, n % stride;
    NextStride(stride, q);
    DivModUnique(n + stride, stride, q + 1, r);
    if r == 0 {
      DivModUnique(n + stride - 1, stride, q, stride - 1);
    } else {
      DivModUnique(n + stride - 1, stride, q + 1, r - 1);
    }
  }

  lemma WrapStep(x: nat, n: nat)
    ensures Bump(x % WORD64, n) == (x + n) % WORD64
  {
    var q := x / WORD64;
    var y := x % WORD64 + n;
    assert x + n == WORD64 * q + y;
    assert y == WORD64 * (y / WORD64) + y % WORD64;
    assert x + n == WORD64 * (q + y / WORD64) + y % WORD64;
    DivModUnique(x + n, WORD64, q + y / WORD64, y % WORD64);
  }

  ghost predicate Counted(w: World, stride: u32)
    requires stride > 0
  {
    var fires := |w.accepted| + |w.delivered|;
    && w.counters.appFlitBytes == 64 * fires % WORD64 && w.counters.sampleCtr == fires % stride
    && w.counters.recordCount == Ceil(fires, stride) % WORD64
    && w.counters.stallCycles == w.stalls % WORD64 && w.counters.dropCount == w.drops % WORD64
    && w.drops <= Ceil(fires, stride)
  }

  lemma TickCounted(w: World, stride: u32, p: Pins)
    requires stride > 0 && Inv(w) && Counted(w, stride)
    ensures Counted(Tick(w, stride, p), stride)
  {
    hide Next, InFlight, Answer, Bump, Ceil;
    var fires := |w.accepted| + |w.delivered|;
    assert !(InFire(w.regs, p) && OutFire(w.regs, p));
    WrapStep(w.stalls, 1);
    if InFire(w.regs, p) || OutFire(w.regs, p) {
      CeilStep(fires, stride);
      ModStride(fires, stride);
      WrapStep(64 * fires, 64);
      WrapStep(Ceil(fires, stride), 1);
      WrapStep(w.drops, 1);
      var v := Tick(w, stride, p);
      assert |v.accepted| + |v.delivered| == fires + 1;
    }
  }

  // On every trace the monitor counts each FLIT once, in either direction: 64 bytes apiece, a record for the first
  // of every `stride`, every stalled clock, every dropped record, each wrapping at 64 bits only.
  lemma {:induction false} MonitorCounts(stride: u32, trace: seq<Pins>)
    requires stride > 0
    ensures Counted(Run(stride, trace), stride)
  {
    if trace == [] {
      assert Ceil(0, stride) == 0 by { DivModUnique(stride - 1, stride, 0, stride - 1); }
    } else {
      var front := trace[..|trace| - 1];
      MonitorCounts(stride, front);
      RunInv(stride, front);
      TickCounted(Run(stride, front), stride, trace[|trace| - 1]);
    }
  }

  // ---------------------------------------------------------------- the two blocks clocked together

  // Endpoint and monitor from reset over a trace, with what the handshakes let through.
  method Simulate(stride: u32, trace: seq<Pins>)
    returns (e: Endpoint, m: Pipeline, accepted: seq<Flit>, delivered: seq<Flit>, ghost w: World)
    requires stride > 0
    ensures w == Run(stride, trace) && e.Abs() == w.regs && m.Abs() == w.counters
    ensures |accepted| == |delivered| + (if e.fsm.Idle? then 0 else 1) == |w.samples|
    ensures forall k :: 0 <= k < |delivered| ==> delivered[k] == Answer(accepted[k], w.samples[k])
    ensures !(e.fsm.Idle? && e.outValid)
    ensures var fires := |accepted| + |delivered|;
            && m.appFlitBytes == 64 * fires % WORD64 && m.recordCount == Ceil(fires, stride) % WORD64
            && m.stallCycles == w.stalls % WORD64 && m.dropCount == w.drops % WORD64
  {
    hide Next, Observe, Samples, Answer, Ceil;
    e := new Endpoint();
    m := new Pipeline(stride);
    accepted, delivered, w := [], [], START;
    for i := 0 to |trace|
      invariant fresh(e) && fresh(m) && m.stride == stride
      invariant w == Run(stride, trace[..i]) && e.Abs() == w.regs && m.Abs() == w.counters
      invariant accepted == w.accepted && delivered == w.delivered
    {
      var p := trace[i];
      var inReady, outFire := e.fsm.Idle?, e.outValid && p.outReady;
      if p.inValid && inReady {
        accepted := accepted + [p.inData];
      }
      if outFire {
        delivered := delivered + [e.outData];
      }
      m.Clock(p.inValid, inReady, outFire, p.metadataReady);
      e.Clock(p);
      w := Tick(w, stride, p);
      assert trace[..i + 1][..i] == trace[..i];
    }
    assert trace[..|trace|] == trace;
    SingleInFlight(stride, trace);
    MonitorCounts(stride, trace);
  }
}
