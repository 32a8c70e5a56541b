// The read side of an endpoint's MMIO page, the 128-byte form of its records, and the host reading them back.
module EndpointMmio {
  import opened Bytes
  import opened Wrappers
  import opened LinkSchedule
  import opened EndpointGate
  import opened EndpointSystem
  import opened EndpointOutcome

  type Hash32 = d: seq<u8> | |d| == 32 witness seq(32, i => 0)
  type Hasher = seq<u8> -> Hash32

  const RECORD_SIZE := 128
  const LOG_BASE := 0x1000
  const FAILURE_BASE := 0x800

  // ---------------------------------------------------------------- records as bytes

  function ZeroHash(): Hash32 {
    seq(32, i => 0)
  }

  function DigestBytes(d: Digest, h: Hasher): Hash32 {
    match d
    case Absent => ZeroHash()
    case Sha256(content) => h(content)
  }

  // The twelve 64-bit fields in layout order.
  function Fields(r: Record): (ws: seq<u64>)
    ensures |ws| == 12
  {
    [r.kind % WORD64, r.serial % WORD64, r.epoch, r.sequence % WORD64, r.job, r.src, r.dst, r.words, r.scalar, r.policy,
     r.timeNs % WORD64, r.committed % WORD64]
  }

  function Image(r: Record, h: Hasher): (bs: seq<u8>)
    ensures |bs| == RECORD_SIZE
  {
    PackWords(Fields(r)) + DigestBytes(r.digest, h)
  }

  function LogImage(log: seq<Record>, h: Hasher): (bs: seq<u8>)
    ensures |bs| == RECORD_SIZE * |log|
  {
    if log == [] then [] else LogImage(log[..|log| - 1], h) + Image(log[|log| - 1], h)
  }

  lemma {:induction false} LogImageAt(log: seq<Record>, h: Hasher, i: nat)
    requires i < |log|
    ensures LogImage(log, h)[RECORD_SIZE * i..RECORD_SIZE * i + RECORD_SIZE] == Image(log[i], h)
  {
    hide Image;
    var n := |log| - 1;
    var front, last := LogImage(log[..n], h), Image(log[n], h);
    SliceOfSum(front, last, RECORD_SIZE * i, RECORD_SIZE * i + RECORD_SIZE);
    if i < n {
      LogImageAt(log[..n], h, i);
    }
  }

  // A cleared diagnostic reads as zeros.
  function FailureImage(g: Gate, h: Hasher): (bs: seq<u8>)
    ensures |bs| == RECORD_SIZE
  {
    if g.failure.Some? then Image(g.failure.value, h) else seq(RECORD_SIZE, i => 0)
  }

  // ---------------------------------------------------------------- reading

  function StateCode(s: State): u64 {
    match s
    case Idle => 0
    case Busy => 1
    case Done => 2
    case PreFail => 3
    case PostFail => 4
  }

  function ErrorCode(e: Error): u64 {
    match e
    case NoError => 0
    case BadEpoch => 1
    case BadRange => 2
    case NoCapacity => 3
    case RequestLost => 4
    case CompletionLost => 5
    case BadDescriptor => 6
  }

  function Register(g: Gate, c: Config, now: nat, addr: u64): u64 {
    match addr
    case 0x00 => 0x534c_5547_4152_4301
    case 0x08 => StateCode(g.state)
    case 0x10 => ErrorCode(g.error)
    case 0x18 => g.epoch
    case 0x20 => g.desc.jobEpoch
    case 0x28 => g.desc.job
    case 0x30 => g.desc.src
    case 0x38 => g.desc.dst
    case 0x40 => g.desc.words
    case 0x48 => g.desc.scalar
    case 0x50 => g.desc.release
    case 0x58 => g.desc.fault
    case 0x60 => g.capacity
    case 0x68 => |g.log| % WORD64
    case 0x70 => g.committed % WORD64
    case 0x78 => g.times.finished % WORD64
    case 0x80 => g.times.computeStart % WORD64
    case 0x88 => g.times.computeEnd % WORD64
    case 0x90 => g.times.linkStart % WORD64
    case 0x98 => g.times.linkEnd % WORD64
    case 0xa0 => g.times.queueWait % WORD64
    case 0xb0 => g.tally.rejected % WORD64
    case 0xb8 => POLICY_ID
    case 0xc0 => if c.enforce then 1 else 0
    case 0xc8 => c.recordNs % WORD64
    case 0xd0 => c.computeNs % WORD64
    case 0xd8 => c.bandwidth % WORD64
    case 0xe0 => c.linkNs % WORD64
    case 0xe8 => g.tally.requests % WORD64
    case 0xf0 => g.tally.completions % WORD64
    case 0xf8 => g.tally.failures % WORD64
    case 0x100 => now % WORD64
    case _ => 0
  }

  // The bytes behind an address, if it lies in the log or the diagnostic.
  function Window(g: Gate, h: Hasher, addr: u64): Option<(seq<u8>, nat)> {
    if addr >= LOG_BASE then Some((LogImage(g.log, h), addr - LOG_BASE))
    else if FAILURE_BASE <= addr < FAILURE_BASE + RECORD_SIZE then Some((FailureImage(g, h), addr - FAILURE_BASE))
    else None
  }

  // A read that would pass the written records yields 0.
  function Read(g: Gate, c: Config, h: Hasher, now: nat, addr: u64, size: nat): nat {
    var w := Window(g, h, addr);
    if w.Some? then
      var (data, offset) := w.value;
      if offset <= |data| && size <= |data| - offset then FromLE(data[offset..offset + size]) else 0
    else if addr % 8 != 0 || size != 8 then 0
    else Register(g, c, now, addr)
  }

  lemma {:induction false} FromLEAppend(bs: seq<u8>, b: u8)
    ensures FromLE(bs + [b]) == FromLE(bs) + Pow256(|bs|) * b
  {
    if bs == [] {
      assert [b][1..] == [];
    } else {
      FromLEAppend(bs[1..], b);
      assert (bs + [b])[1..] == bs[1..] + [b];
      Distribute(Pow256(|bs| - 1), b);
    }
  }

  lemma Distribute(p: nat, b: nat)
    ensures 256 * (p * b) == (256 * p) * b
  {
  }

  lemma NextPower(i: nat)
    ensures Pow256(i + 1) == 256 * Pow256(i) && Pow256(0) == 1
  {
  }

  // Bytes assembled one by one, least significant first.
  method Assemble(data: seq<u8>, offset: nat, size: nat) returns (value: nat)
    requires offset + size <= |data|
    ensures value == FromLE(data[offset..offset + size])
  {
    hide Pow256, FromLE;
    var weight: nat := 1;
    value := 0;
    NextPower(0);
    EmptyLE(data[offset..offset]);
    for i := 0 to size
      invariant value == FromLE(data[offset..offset + i]) && weight == Pow256(i)
    {
      assert data[offset..offset + i + 1] == data[offset..offset + i] + [data[offset + i]];
      FromLEAppend(data[offset..offset + i], data[offset + i]);
      NextPower(i);
      value, weight := value + weight * data[offset + i], 256 * weight;
    }
  }

  lemma EmptyLE(bs: seq<u8>)
    requires |bs| == 0
    ensures FromLE(bs) == 0
  {
  }

  method MmioRead(g: Gate, c: Config, h: Hasher, now: nat, addr: u64, size: nat) returns (value: nat)
    ensures value == Read(g, c, h, now, addr, size)
  {
    hide LogImage, FailureImage, Register;
    var w := Window(g, h, addr);
    if w.Some? {
      var (data, offset) := w.value;
      value := 0;
      if offset <= |data| && size <= |data| - offset {
        value := Assemble(data, offset, size);
      }
    } else if addr % 8 != 0 || size != 8 {
      value := 0;
    } else {
      value := Register(g, c, now, addr);
    }
  }

  // ---------------------------------------------------------------- the host reads the log back

  // A stretch of the page read in accesses of the given sizes, each value taken apart again.
  function ReadBytes(g: Gate, c: Config, h: Hasher, now: nat, addr: nat, sizes: seq<nat>): seq<u8>
    requires addr + Sum(sizes) < WORD64
  {
    if sizes == [] then []
    else
      var n := |sizes| - 1;
      ReadBytes(g, c, h, now, addr, sizes[..n])
        + ToLE(Read(g, c, h, now, addr + Sum(sizes[..n]), sizes[n]), sizes[n])
  }

  lemma OneAccess(g: Gate, c: Config, h: Hasher, now: nat, at: nat, size: nat)
    requires at + size <= RECORD_SIZE * |g.log| && RECORD_SIZE * |g.log| + LOG_BASE < WORD64
    ensures ToLE(Read(g, c, h, now, LOG_BASE + at, size), size) == LogImage(g.log, h)[at..at + size]
  {
    hide LogImage, Register, FailureImage, ToLE, FromLE;
    ToFromLE(LogImage(g.log, h)[at..at + size]);
  }

  // However the accesses are split, the log region reads as the records' bytes.
  lemma {:induction false} LogReadsBack(g: Gate, c: Config, h: Hasher, now: nat, sizes: seq<nat>)
    requires Sum(sizes) <= RECORD_SIZE * |g.log| && RECORD_SIZE * |g.log| + LOG_BASE < WORD64
    ensures ReadBytes(g, c, h, now, LOG_BASE, sizes) == LogImage(g.log, h)[..Sum(sizes)]
  {
    hide LogImage, Read;
    var image := LogImage(g.log, h);
    if sizes != [] {
      var n := |sizes| - 1;
      var at := Sum(sizes[..n]);
      LogReadsBack(g, c, h, now, sizes[..n]);
      OneAccess(g, c, h, now, at, sizes[n]);
      assert image[..at + sizes[n]] == image[..at] + image[at..at + sizes[n]];
    }
  }

  // A record as unpacked by the host.
  datatype Raw = Raw(words: seq<u64>, digest: seq<u8>)

  function RawOf(r: Record, h: Hasher): Raw {
    Raw(Fields(r), DigestBytes(r.digest, h))
  }

  function RawLog(log: seq<Record>, h: Hasher): (rs: seq<Raw>)
    ensures |rs| == |log| && forall i :: 0 <= i < |rs| ==> rs[i] == RawOf(log[i], h)
  {
    seq(|log|, i requires 0 <= i < |log| => RawOf(log[i], h))
  }

  lemma ImageParts(r: Record, h: Hasher)
    ensures var bs := Image(r, h);
            && UnpackWords(bs[..96]) == Fields(r) && bs[96..] == DigestBytes(r.digest, h)
            && PackWords(Fields(r)) + DigestBytes(r.digest, h) == bs
  {
    hide Fields;
    UnpackPack(Fields(r));
    assert Image(r, h)[..96] == PackWords(Fields(r));
  }

  // One record per 128 bytes read, from which those bytes can be packed again.
  method Records(g: Gate, c: Config, h: Hasher, now: nat, sizes: seq<nat>) returns (rs: seq<Raw>)
    requires Sum(sizes) == RECORD_SIZE * |g.log| && RECORD_SIZE * |g.log| + LOG_BASE < WORD64
    ensures rs == RawLog(g.log, h)
    ensures forall i :: 0 <= i < |rs| ==>
              PackWords(rs[i].words) + rs[i].digest == LogImage(g.log, h)[RECORD_SIZE * i..RECORD_SIZE * i + RECORD_SIZE]
  {
    hide Image, Fields, LogImage, Sum, UnpackWords, DigestBytes, ReadBytes, PackWords;
    var data := ReadBytes(g, c, h, now, LOG_BASE, sizes);
    LogReadsBack(g, c, h, now, sizes);
    assert data == LogImage(g.log, h);
    rs := [];
    for i := 0 to |g.log|
      invariant rs == RawLog(g.log, h)[..i]
      invariant forall k :: 0 <= k < i ==>
                  PackWords(rs[k].words) + rs[k].digest == LogImage(g.log, h)[RECORD_SIZE * k..RECORD_SIZE * k + RECORD_SIZE]
    {
      var raw := data[RECORD_SIZE * i..RECORD_SIZE * i + RECORD_SIZE];
      LogImageAt(g.log, h, i);
      ImageParts(g.log[i], h);
      rs := rs + [Raw(UnpackWords(raw[..96]), raw[96..])];
    }
  }

  // ---------------------------------------------------------------- the host's check on what it read

  predicate RawMatches(r: Raw, index: nat, tile: nat, epoch: u64, job: u64, data: seq<u8>, scalar: u64, kind: nat,
                       committed: nat, time: nat, h: Hasher)
  {
    && |r.words| == 12
    && r.words == [kind, 201 + tile, epoch, index + 1, job, SRC, DST, |data| / 8, scalar, POLICY_ID, time, committed]
    && r.digest == h(data)
  }

  predicate ValidateRaw(rs: seq<Raw>, tile: nat, epoch: u64, job: u64, input: seq<u8>, output: seq<u8>, scalar: u64,
                        release: nat, finished: nat, h: Hasher)
  {
    && |rs| == 2
    && RawMatches(rs[0], 0, tile, epoch, job, input, scalar, 1, 0, release, h)
    && RawMatches(rs[1], 1, tile, epoch, job, output, scalar, 2, 1, finished, h)
  }

  // The unbounded parts of a record fit their registers.
  ghost predicate Fits64(r: Record) {
    r.kind < WORD64 && r.serial < WORD64 && r.sequence < WORD64 && r.timeNs < WORD64 && r.committed < WORD64
  }

  // Two different strings with one digest, or a string whose digest is the blank.
  ghost predicate Confuses(h: Hasher, d: Digest, data: seq<u8>) {
    d != Sha256(data) && DigestBytes(d, h) == h(data)
  }

  lemma RecordPasses(r: Record, index: nat, tile: nat, epoch: u64, job: u64, data: seq<u8>, scalar: u64, kind: nat,
    committed: nat, time: nat, h: Hasher)
    requires Fits64(r)
    requires RecordMatches(r, index, tile, epoch, job, data, scalar, kind, committed, time)
    ensures RawMatches(RawOf(r, h), index, tile, epoch, job, data, scalar, kind, committed, time, h)
  {
  }

  lemma RawComesFrom(r: Record, index: nat, tile: nat, epoch: u64, job: u64, data: seq<u8>, scalar: u64, kind: nat,
    committed: nat, time: nat, h: Hasher)
    requires Fits64(r)
    requires RawMatches(RawOf(r, h), index, tile, epoch, job, data, scalar, kind, committed, time, h)
    ensures RecordMatches(r, index, tile, epoch, job, data, scalar, kind, committed, time) || Confuses(h, r.digest, data)
  {
    hide DigestBytes;
    var ws := Fields(r);
    assert ws[0] == kind && ws[1] == 201 + tile && ws[2] == epoch && ws[3] == index + 1 && ws[4] == job;
    assert ws[5] == SRC && ws[6] == DST && ws[7] == |data| / 8 && ws[8] == scalar && ws[9] == POLICY_ID;
    assert ws[10] == time && ws[11] == committed;
  }

  // On the bytes the host accepts exactly the logs it accepts as values, unless the hash confuses what a record
  // digests with what the host expected there.
  lemma BytesValidateAsValues(log: seq<Record>, tile: nat, epoch: u64, job: u64, input: seq<u8>, output: seq<u8>,
                              scalar: u64, release: nat, finished: nat, h: Hasher)
    requires forall i :: 0 <= i < |log| ==> Fits64(log[i])
    ensures ValidateRecords(log, tile, epoch, job, input, output, scalar, release, finished) ==>
              ValidateRaw(RawLog(log, h), tile, epoch, job, input, output, scalar, release, finished, h)
    ensures ValidateRaw(RawLog(log, h), tile, epoch, job, input, output, scalar, release, finished, h) ==>
              ValidateRecords(log, tile, epoch, job, input, output, scalar, release, finished)
              || Confuses(h, log[0].digest, input) || Confuses(h, log[1].digest, output)
  {
    hide RecordMatches, RawMatches, Fits64, Confuses;
    if ValidateRecords(log, tile, epoch, job, input, output, scalar, release, finished) {
      RecordPasses(log[0], 0, tile, epoch, job, input, scalar, 1, 0, release, h);
      RecordPasses(log[1], 1, tile, epoch, job, output, scalar, 2, 1, finished, h);
    }
    if ValidateRaw(RawLog(log, h), tile, epoch, job, input, output, scalar, release, finished, h) {
      RawComesFrom(log[0], 0, tile, epoch, job, input, scalar, 1, 0, release, h);
      RawComesFrom(log[1], 1, tile, epoch, job, output, scalar, 2, 1, finished, h);
    }
  }

  // The host accepts the bytes of e's log, with the kernel's output over the input resident at the doorbell.
  ghost predicate HostAcceptsBytes(g: Gate, e: Gate, t: nat, h: Hasher) {
    && g.desc.src + 8 * g.desc.words <= |g.ram|
    && var input := g.ram[g.desc.src..g.desc.src + 8 * g.desc.words];
       ValidateRaw(RawLog(e.log, h), t, g.epoch, g.desc.job, input, Kernel(input, g.desc.scalar), g.desc.scalar,
                   g.desc.release, e.times.finished, h)
  }

  lemma AcceptedAsBytes(g: Gate, e: Gate, t: nat, h: Hasher)
    requires HostAccepts(g, e, t) && 201 + t < WORD64 && e.times.finished < WORD64
    ensures HostAcceptsBytes(g, e, t, h)
  {
    hide Kernel, RawMatches;
    var input := g.ram[g.desc.src..g.desc.src + 8 * g.desc.words];
    BytesValidateAsValues(e.log, t, g.epoch, g.desc.job, input, Kernel(input, g.desc.scalar), g.desc.scalar,
                          g.desc.release, e.times.finished, h);
  }

  // Every fresh job of g, whose doorbell led to the system s, ends in DONE with a log whose bytes the host accepts;
  // its only other ending is the completion failure it asked for.
  lemma DriverAcceptsBytes(g: Gate, s: System, t: nat, actions: seq<Action>, h: Hasher)
    requires Good(s) && t < |s.gates| && Ends(s, actions, t) && 201 + t < WORD64
    requires FreshJob(g, s.cfg, s.now, t) && s.gates[t] == Submit(g, s.cfg, s.now)
    ensures var e := Ending(s, actions, t);
            if BitSet(g.desc.fault, 2) then e.state == PostFail
            else e.state == Done && (e.times.finished < WORD64 ==> HostAcceptsBytes(g, e, t, h))
  {
    hide Good, Submit, HostAcceptsBytes, HostAccepts;
    DriverAcceptsEveryDone(g, s, t, actions);
    if !BitSet(g.desc.fault, 2) && Ending(s, actions, t).times.finished < WORD64 {
      AcceptedAsBytes(g, Ending(s, actions, t), t, h);
    }
  }
}
