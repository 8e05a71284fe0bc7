/** `collect_remote_sample`: the host reads only the CPUs that the machine has, and of their event
rings only the first two words. */
module RemoteSample {
  import opened Wrappers
  import opened DebugState
  import opened Bytes
  import opened DebugAbi

  datatype ReadError = Unreadable | Malformed(error: AbiError) | WrongArch

  // --- Which bytes are read -----------------------------------------------------------------------------

  function CpusEnd(l: Layout, observed: nat): nat { HEADER_SIZE + observed * CpuSlotsSize(l) }

  function RingStart(l: Layout, c: nat): nat { CpusEnd(l, l.maxCpus) + c * CpuEventsSize(l) }

  predicate InRingHead(l: Layout, c: nat, k: nat) { RingStart(l, c) <= k < RingStart(l, c) + CPU_EVENTS_PREFIX }

  /** Byte `k` is read when the CPU records are and the first `rings` ring heads. */
  predicate IsRead(l: Layout, observed: nat, rings: nat, k: nat) {
    k < CpusEnd(l, observed) || exists c :: 0 <= c < rings && InRingHead(l, c, k)
  }

  ghost predicate Readable(memory: seq<U8>, l: Layout, observed: nat) {
    forall k: nat :: k < TotalSize(l) && IsRead(l, observed, observed, k) ==> k < |memory|
  }

  /** What the host decodes: the bytes it read, and zeros. */
  ghost function Sparse(memory: seq<U8>, l: Layout, observed: nat): (raw: seq<U8>)
    ensures |raw| == TotalSize(l)
  {
    seq(TotalSize(l), k requires 0 <= k < TotalSize(l) =>
      if k < |memory| && IsRead(l, observed, observed, k) then memory[k] else 0)
  }

  lemma {:induction false} Rounded(i: nat, j: nat, size: nat)
    requires i < j
    ensures i * size + size <= j * size
    decreases j
  {
    if i + 1 < j {
      Rounded(i, j - 1, size);
    }
    NextMultiple(j - 1, size);
  }

  lemma Extents(l: Layout, observed: nat)
    requires observed <= l.maxCpus
    ensures HEADER_SIZE <= CpusEnd(l, observed) <= CpusEnd(l, l.maxCpus) <= TotalSize(l)
  {
    if observed < l.maxCpus {
      Rounded(observed, l.maxCpus, CpuSlotsSize(l));
    }
  }

  lemma RingInside(l: Layout, c: nat)
    requires c < l.maxCpus
    ensures RingStart(l, c) + CpuEventsSize(l) <= TotalSize(l)
  {
    Rounded(c, l.maxCpus, CpuEventsSize(l));
  }

  /** `threads` CPUs are visible to the debugger, and the tool was told to expect `arch`. A read
      beyond `memory` fails. */
  ghost function LayoutRead(memory: seq<U8>, arch: U16, threads: nat): (r: Result<Layout, ReadError>)
    ensures r.Ok? ==> Sane(r.value)
  {
    if |memory| < HEADER_SIZE then Err(Unreadable)
    else
      match ParseLayout(memory[..HEADER_SIZE])
      case Err(e) => Err(Malformed(e))
      case Ok(l) =>
        if l.arch != arch then Err(WrongArch)
        else if !Readable(memory, l, Observed(l, threads)) then Err(Unreadable)
        else Ok(l)
  }

  /** What the light reading sees. */
  ghost function StateRead(memory: seq<U8>, arch: U16, threads: nat): Result<Decoded, ReadError> {
    match LayoutRead(memory, arch, threads)
    case Err(e) => Err(e)
    case Ok(l) => Ok(WithoutEvents(Sparse(memory, l, Observed(l, threads)), l))
  }

  /** `decode_state` with an event limit of zero. */
  function WithoutEvents(raw: seq<U8>, l: Layout): Decoded
    requires Sane(l) && |raw| == TotalSize(l)
  {
    Decoded(l, DecodeCpus(CpuBytes(raw, l), l), DecodeMeta(RingBytes(raw, l), l), [])
  }

  method ReadState(memory: seq<U8>, arch: U16, threads: nat) returns (r: Result<Decoded, ReadError>)
    ensures r == StateRead(memory, arch, threads)
  {
    var read := ReadRaw(memory, arch, threads);
    if read.Err? {
      return Err(read.error);
    }
    var decoded := DecodeState(read.value, 0);
    return Ok(decoded.value);
  }

  /** The checks and the reading, up to the first decoding. */
  method ReadRaw(memory: seq<U8>, arch: U16, threads: nat) returns (r: Result<seq<U8>, ReadError>)
    ensures match LayoutRead(memory, arch, threads)
            case Err(e) => r == Err(e)
            case Ok(l) =>
              && r == Ok(Sparse(memory, l, Observed(l, threads)))
              && Decode(r.value, 0) == Ok(WithoutEvents(r.value, l))
  {
    if |memory| < HEADER_SIZE {
      return Err(Unreadable);
    }
    var parsed := ParseLayout(memory[..HEADER_SIZE]);
    if parsed.Err? {
      return Err(Malformed(parsed.error));
    }
    var l := parsed.value;
    if l.arch != arch {
      return Err(WrongArch);
    }
    var raw := ReadSparse(memory, l, Observed(l, threads));
    if raw.None? {
      return Err(Unreadable);
    }
    SparseHeader(memory, l, Observed(l, threads));
    EventsAreSkipped(raw.value, l);
    return Ok(raw.value);
  }

  /** `raw[start : start + length]` becomes what memory holds there. */
  function Overwrite(raw: seq<U8>, memory: seq<U8>, start: nat, length: nat): (r: seq<U8>)
    requires start + length <= |raw| && start + length <= |memory|
    ensures |r| == |raw|
    ensures forall k :: 0 <= k < |r| ==> r[k] == if start <= k < start + length then memory[k] else raw[k]
  {
    raw[..start] + memory[start..start + length] + raw[start + length..]
  }

  method ReadSparse(memory: seq<U8>, l: Layout, observed: nat) returns (r: Option<seq<U8>>)
    requires observed <= l.maxCpus && HEADER_SIZE <= |memory|
    ensures r == if Readable(memory, l, observed) then Some(Sparse(memory, l, observed)) else None
  {
    Extents(l, observed);
    var cpuBytes := observed * CpuSlotsSize(l);
    if HEADER_SIZE + cpuBytes > |memory| {
      assert IsRead(l, observed, observed, HEADER_SIZE + cpuBytes - 1);
      return None;
    }
    var blank := seq(TotalSize(l), _ => 0);
    var raw := Overwrite(Overwrite(blank, memory, 0, HEADER_SIZE), memory, HEADER_SIZE, cpuBytes);
    r := ReadHeads(raw, memory, l, observed);
    if r.Some? {
      assert r.value == Sparse(memory, l, observed);
    }
  }

  method ReadHeads(cpus: seq<U8>, memory: seq<U8>, l: Layout, observed: nat) returns (r: Option<seq<U8>>)
    requires observed <= l.maxCpus && HasRead(cpus, memory, l, observed, 0)
    ensures r.Some? ==> HasRead(r.value, memory, l, observed, observed)
    ensures r.None? ==> !Readable(memory, l, observed)
  {
    var raw := cpus;
    for c := 0 to observed
      invariant HasRead(raw, memory, l, observed, c)
    {
      var start := RingStart(l, c);
      RingInside(l, c);
      if start + CPU_EVENTS_PREFIX > |memory| {
        var last := start + CPU_EVENTS_PREFIX - 1;
        assert InRingHead(l, c, last);
        assert last < TotalSize(l) && IsRead(l, observed, observed, last);
        return None;
      }
      var more := Overwrite(raw, memory, start, CPU_EVENTS_PREFIX);
      HeadRead(raw, more, memory, l, observed, c);
      raw := more;
    }
    return Some(raw);
  }

  ghost predicate HasRead(raw: seq<U8>, memory: seq<U8>, l: Layout, observed: nat, rings: nat) {
    && |raw| == TotalSize(l)
    && forall k :: 0 <= k < |raw| ==>
         if IsRead(l, observed, rings, k) then k < |memory| && raw[k] == memory[k] else raw[k] == 0
  }

  lemma HeadRead(before: seq<U8>, after: seq<U8>, memory: seq<U8>, l: Layout, observed: nat, c: nat)
    requires HasRead(before, memory, l, observed, c) && |after| == |before|
    requires RingStart(l, c) + CPU_EVENTS_PREFIX <= |memory|
    requires forall k :: 0 <= k < |after| ==> after[k] == if InRingHead(l, c, k) then memory[k] else before[k]
    ensures HasRead(after, memory, l, observed, c + 1)
  {
    forall k | 0 <= k < |after|
      ensures if IsRead(l, observed, c + 1, k) then k < |memory| && after[k] == memory[k] else after[k] == 0
    {
      assert IsRead(l, observed, c + 1, k) <==> IsRead(l, observed, c, k) || InRingHead(l, c, k);
    }
  }

  /** At least one CPU, at most as many as the layout has. */
  function Observed(l: Layout, threads: nat): (n: nat)
    requires Sane(l)
  {
    Min(l.maxCpus, if threads < 1 then 1 else threads)
  }

  /** All of memory being there, only another architecture or a bad header stops the reading. */
  lemma StateIsRead(memory: seq<U8>, l: Layout, threads: nat)
    requires |memory| >= TotalSize(l) && |memory| >= HEADER_SIZE && ParseLayout(memory[..HEADER_SIZE]) == Ok(l)
    ensures StateRead(memory, l.arch, threads) == Ok(WithoutEvents(Sparse(memory, l, Observed(l, threads)), l))
  {
  }

  lemma NoEventsAreRead(memory: seq<U8>, arch: U16, threads: nat)
    requires StateRead(memory, arch, threads).Ok?
    ensures StateRead(memory, arch, threads).value.events == []
  {
  }

  lemma SparseHeader(memory: seq<U8>, l: Layout, observed: nat)
    requires observed <= l.maxCpus && |memory| >= HEADER_SIZE
    ensures TotalSize(l) >= HEADER_SIZE && Sparse(memory, l, observed)[..HEADER_SIZE] == memory[..HEADER_SIZE]
  {
    Extents(l, observed);
  }

  lemma EventsAreSkipped(raw: seq<U8>, l: Layout)
    requires |raw| == TotalSize(l) >= HEADER_SIZE && ParseLayout(raw[..HEADER_SIZE]) == Ok(l)
    ensures Decode(raw, 0) == Ok(WithoutEvents(raw, l))
  {
    var rings := DecodeRings(RingBytes(raw, l), l, 0);
    assert forall c :: 0 <= c < |rings| ==> rings[c] == [];
    ConcatNothing(rings);
  }

  lemma {:induction false} ConcatNothing(rings: seq<seq<DecodedEvent>>)
    requires forall c :: 0 <= c < |rings| ==> rings[c] == []
    ensures Concat(rings) == []
  {
    if rings != [] {
      ConcatNothing(rings[..|rings| - 1]);
    }
  }

  // --- What the sparse bytes show ---------------------------------------------------------------------------

  lemma CpuExtent(l: Layout, c: nat)
    requires c < l.maxCpus
    ensures CpusEnd(l, c) + CpuSlotsSize(l) == CpusEnd(l, c + 1) <= CpusEnd(l, l.maxCpus) <= TotalSize(l)
  {
    NextMultiple(c, CpuSlotsSize(l));
    Extents(l, c + 1);
  }

  lemma CpuRecord(data: seq<U8>, l: Layout, c: nat)
    requires c < l.maxCpus && TotalSize(l) <= |data| && CpusEnd(l, c + 1) <= |data|
    ensures RecordAt(CpuBytes(data, l), l.maxCpus, CpuSlotsSize(l), c) == data[CpusEnd(l, c)..CpusEnd(l, c + 1)]
  {
    CpuExtent(l, c);
    SlotInside(c, l.maxCpus, CpuSlotsSize(l));
    SliceOfSlice(data, HEADER_SIZE, Area(l.maxCpus, CpuSlotsSize(l)), c * CpuSlotsSize(l), CpuSlotsSize(l));
  }

  lemma SliceOfSlice(data: seq<U8>, start: nat, length: nat, offset: nat, size: nat)
    requires start + length <= |data| && offset + size <= length
    ensures data[start..start + length][offset..offset + size] == data[start + offset..start + offset + size]
  {
    var a, b := data[start..start + length][offset..offset + size], data[start + offset..start + offset + size];
    assert |a| == |b| && forall i :: 0 <= i < size ==> a[i] == b[i];
  }

  lemma RingRecord(data: seq<U8>, l: Layout, c: nat)
    requires c < l.maxCpus && TotalSize(l) <= |data|
    ensures RingStart(l, c) + CpuEventsSize(l) <= TotalSize(l)
    ensures RecordAt(RingBytes(data, l), l.maxCpus, CpuEventsSize(l), c)
         == data[RingStart(l, c)..RingStart(l, c) + CpuEventsSize(l)]
  {
    RingInside(l, c);
    var size := CpuEventsSize(l);
    SlotInside(c, l.maxCpus, size);
    SliceOfSlice(data, CpusEnd(l, l.maxCpus), Area(l.maxCpus, size), c * size, size);
  }

  lemma CpuIsRead(memory: seq<U8>, l: Layout, observed: nat, c: nat)
    requires c < observed <= l.maxCpus && TotalSize(l) <= |memory|
    ensures RecordAt(CpuBytes(Sparse(memory, l, observed), l), l.maxCpus, CpuSlotsSize(l), c)
         == RecordAt(CpuBytes(memory, l), l.maxCpus, CpuSlotsSize(l), c)
  {
    var raw := Sparse(memory, l, observed);
    CpuExtent(l, c);
    CpuRecord(memory, l, c);
    CpuRecord(raw, l, c);
    InOrder(l, c + 1, observed);
    forall k | 0 <= k < CpusEnd(l, observed) && k < |raw| ensures raw[k] == memory[k] {
      assert IsRead(l, observed, observed, k);
    }
  }

  lemma InOrder(l: Layout, i: nat, j: nat)
    requires i <= j
    ensures CpusEnd(l, i) <= CpusEnd(l, j)
  {
    if i < j {
      Rounded(i, j, CpuSlotsSize(l));
    }
  }

  predicate AllZero(b: seq<U8>) { forall k :: 0 <= k < |b| ==> b[k] == 0 }

  lemma CpuIsBlank(memory: seq<U8>, l: Layout, observed: nat, c: nat)
    requires observed <= c < l.maxCpus
    ensures AllZero(RecordAt(CpuBytes(Sparse(memory, l, observed), l), l.maxCpus, CpuSlotsSize(l), c))
  {
    var raw := Sparse(memory, l, observed);
    CpuExtent(l, c);
    CpuRecord(raw, l, c);
    InOrder(l, observed, c);
    forall k | CpusEnd(l, c) <= k < CpusEnd(l, c + 1) ensures raw[k] == 0 {
      forall d | 0 <= d < observed ensures !InRingHead(l, d, k) {
        assert d * CpuEventsSize(l) >= 0;
      }
    }
  }

  /** A CPU slot whose bytes are all zero. */
  function BlankCpu(cpu: nat): DecodedCpu {
    DecodedCpu(cpu, 0, Core(0, 0, 0, 0, 0, 0, 0, 0, 0, 0, 0, 0, 0, 0, 0, [0, 0, 0, 0, 0], 0, 0, 0, 0, 0, 0, 0),
               LockRef(0, 0), [], false, 0)
  }

  lemma {:induction false} ZeroReads(b: seq<U8>, offset: nat, n: nat)
    requires AllZero(b) && offset + n <= |b|
    ensures ReadLE(b, offset, n) == 0
    decreases n
  {
    if n > 0 {
      ZeroReads(b, offset + 1, n - 1);
    }
  }

  lemma BlankState(b: seq<U8>, cpu: nat)
    requires AllZero(b) && |b| == CPU_STATE_SIZE
    ensures CpuStateAt(b, cpu, false, 0) == BlankCpu(cpu)
  {
    forall offset: nat, n: nat | offset + n <= |b| ensures ReadLE(b, offset, n) == 0 {
      ZeroReads(b, offset, n);
    }
  }

  lemma FirstSlot(b: seq<U8>, l: Layout)
    requires |b| == CpuSlotsSize(l) && Sane(l) && ReadU64(b, 0) == 0
    ensures PublishedSlot(b, l) == b[CPU_SLOTS_PREFIX..CPU_SLOTS_PREFIX + CPU_STATE_SIZE]
  {
    assert ReadU64(b, 0) % 2 * l.cpuStateSize == 0;
  }

  lemma BlankRecord(b: seq<U8>, l: Layout, cpu: nat)
    requires AllZero(b) && |b| == CpuSlotsSize(l) && Sane(l)
    ensures CpuAt(b, l, cpu) == BlankCpu(cpu)
  {
    BlankPrefix(b);
    FirstSlot(b, l);
    BlankState(PublishedSlot(b, l), cpu);
  }

  lemma BlankPrefix(b: seq<U8>)
    requires AllZero(b) && |b| >= CPU_SLOTS_PREFIX
    ensures ReadU64(b, 0) == 0 && b[8] == 0 && ReadU64(b, 16) == 0
  {
    ZeroReads(b, 0, 8);
    ZeroReads(b, 16, 8);
  }

  /** The sample shows every CPU that the machine has exactly as the whole memory does, and the others
      as blank. */
  lemma SampleShowsCpus(memory: seq<U8>, l: Layout, observed: nat, c: nat)
    requires Sane(l) && observed <= l.maxCpus && c < l.maxCpus && TotalSize(l) <= |memory|
    ensures DecodeCpus(CpuBytes(Sparse(memory, l, observed), l), l)[c]
         == if c < observed then DecodeCpus(CpuBytes(memory, l), l)[c] else BlankCpu(c)
  {
    if c < observed {
      CpuIsRead(memory, l, observed, c);
    } else {
      CpuIsBlank(memory, l, observed, c);
      BlankRecord(RecordAt(CpuBytes(Sparse(memory, l, observed), l), l.maxCpus, CpuSlotsSize(l), c), l, c);
    }
  }

  lemma HeadBytes(memory: seq<U8>, l: Layout, observed: nat, c: nat)
    requires c < observed <= l.maxCpus && TotalSize(l) <= |memory|
    ensures var start := RingStart(l, c);
            && start + CPU_EVENTS_PREFIX <= TotalSize(l)
            && Sparse(memory, l, observed)[start..start + CPU_EVENTS_PREFIX] == memory[start..start + CPU_EVENTS_PREFIX]
  {
    RingInside(l, c);
    forall k | RingStart(l, c) <= k < RingStart(l, c) + CPU_EVENTS_PREFIX ensures IsRead(l, observed, observed, k) {
      assert InRingHead(l, c, k);
    }
  }

  lemma HeadOfRing(data: seq<U8>, l: Layout, c: nat)
    requires c < l.maxCpus && TotalSize(l) <= |data| && RingStart(l, c) + CPU_EVENTS_PREFIX <= |data|
    ensures RecordAt(RingBytes(data, l), l.maxCpus, CpuEventsSize(l), c)[0..CPU_EVENTS_PREFIX]
         == data[RingStart(l, c)..RingStart(l, c) + CPU_EVENTS_PREFIX]
  {
    RingRecord(data, l, c);
    SliceOfSlice(data, RingStart(l, c), CpuEventsSize(l), 0, CPU_EVENTS_PREFIX);
  }

  /** The progress of the event rings is seen although their events are not. */
  lemma SampleShowsMeta(memory: seq<U8>, l: Layout, observed: nat, c: nat)
    requires Sane(l) && c < observed <= l.maxCpus && TotalSize(l) <= |memory|
    ensures DecodeMeta(RingBytes(Sparse(memory, l, observed), l), l)[c] == DecodeMeta(RingBytes(memory, l), l)[c]
  {
    HeadBytes(memory, l, observed, c);
    HeadOfRing(memory, l, c);
    HeadOfRing(Sparse(memory, l, observed), l, c);
    var a := RecordAt(RingBytes(Sparse(memory, l, observed), l), l.maxCpus, CpuEventsSize(l), c);
    var b := RecordAt(RingBytes(memory, l), l.maxCpus, CpuEventsSize(l), c);
    ReadIsLocal(a, 0, CPU_EVENTS_PREFIX, 0, 8);
    ReadIsLocal(a, 0, CPU_EVENTS_PREFIX, 8, 8);
    ReadIsLocal(b, 0, CPU_EVENTS_PREFIX, 0, 8);
    ReadIsLocal(b, 0, CPU_EVENTS_PREFIX, 8, 8);
  }
}
