/** The second reading of `collect_remote_sample`, which adds the event rings of all online CPUs, and the
check that guest and kernel image belong together. */
module FullSample {
  import opened Wrappers
  import opened DebugState
  import opened Bytes
  import opened DebugAbi
  import opened StallClass
  import opened RemoteSample
  import opened DebugRoundTrip

  // --- Which bytes are added -----------------------------------------------------------------------------

  predicate InRing(l: Layout, c: nat, k: nat) { RingStart(l, c) <= k < RingStart(l, c) + CpuEventsSize(l) }

  /** Byte `k` lies in the ring of one of the first `n` CPUs, and that CPU is online. */
  predicate InOnlineRing(l: Layout, cpus: seq<DecodedCpu>, n: nat, k: nat)
    requires n <= |cpus|
  {
    exists c :: 0 <= c < n && Online(cpus[c]) && InRing(l, c, k)
  }

  ghost predicate RingsReadable(memory: seq<U8>, l: Layout, cpus: seq<DecodedCpu>, n: nat)
    requires n <= |cpus|
  {
    forall k: nat :: InOnlineRing(l, cpus, n, k) ==> k < |memory|
  }

  /** `raw` with the rings of the first `n` CPUs that are online. */
  ghost function WithRings(raw: seq<U8>, memory: seq<U8>, l: Layout, cpus: seq<DecodedCpu>, n: nat): (full: seq<U8>)
    requires n <= |cpus|
    ensures |full| == |raw|
  {
    seq(|raw|, k requires 0 <= k < |raw| => if k < |memory| && InOnlineRing(l, cpus, n, k) then memory[k] else raw[k])
  }

  /** What the full reading decodes. */
  ghost function FullRead(memory: seq<U8>, arch: U16, threads: nat): Result<Decoded, ReadError> {
    match LayoutRead(memory, arch, threads)
    case Err(e) => Err(e)
    case Ok(l) =>
      var raw := Sparse(memory, l, Observed(l, threads));
      var cpus := DecodeCpus(CpuBytes(raw, l), l);
      if RingsReadable(memory, l, cpus, |cpus|) then Ok(WithEvents(WithRings(raw, memory, l, cpus, |cpus|), l))
      else Err(Unreadable)
  }

  /** `decode_state` with the whole ring as event limit. */
  function WithEvents(raw: seq<U8>, l: Layout): Decoded
    requires Sane(l) && |raw| == TotalSize(l)
  {
    Decoded(l, DecodeCpus(CpuBytes(raw, l), l), DecodeMeta(RingBytes(raw, l), l),
            SortEvents(Concat(DecodeRings(RingBytes(raw, l), l, l.capacity))))
  }

  method ReadFull(memory: seq<U8>, arch: U16, threads: nat) returns (r: Result<Decoded, ReadError>)
    ensures r == FullRead(memory, arch, threads)
  {
    var read := ReadRaw(memory, arch, threads);
    if read.Err? {
      return Err(read.error);
    }
    var first := DecodeState(read.value, 0);
    var l := first.value.layout;
    var raw := ReadRings(read.value, memory, l, first.value.cpus);
    if raw.None? {
      return Err(Unreadable);
    }
    RingsKeepHeader(read.value, memory, l, first.value.cpus);
    SparseHeader(memory, l, Observed(l, threads));
    var decoded := DecodeState(raw.value, l.capacity);
    return Ok(decoded.value);
  }

  method ReadRings(sparse: seq<U8>, memory: seq<U8>, l: Layout, cpus: seq<DecodedCpu>) returns (r: Option<seq<U8>>)
    requires |sparse| == TotalSize(l) && |cpus| == l.maxCpus
    ensures r == if RingsReadable(memory, l, cpus, |cpus|) then Some(WithRings(sparse, memory, l, cpus, |cpus|)) else None
  {
    var raw := sparse;
    NoRings(sparse, memory, l, cpus);
    for c := 0 to |cpus|
      invariant raw == WithRings(sparse, memory, l, cpus, c)
      invariant RingsReadable(memory, l, cpus, c)
    {
      if !Online(cpus[c]) {
        SkipRing(sparse, memory, l, cpus, c + 1);
        continue;
      }
      var start := RingStart(l, c);
      RingInside(l, c);
      if start + CpuEventsSize(l) > |memory| {
        var last := start + CpuEventsSize(l) - 1;
        assert InRing(l, c, last) && InOnlineRing(l, cpus, |cpus|, last);
        return None;
      }
      AddRing(sparse, memory, l, cpus, c + 1);
      raw := Overwrite(raw, memory, start, CpuEventsSize(l));
    }
    return Some(raw);
  }

  lemma NoRings(raw: seq<U8>, memory: seq<U8>, l: Layout, cpus: seq<DecodedCpu>)
    ensures WithRings(raw, memory, l, cpus, 0) == raw
  {
  }

  lemma NextRing(l: Layout, cpus: seq<DecodedCpu>, n: nat, k: nat)
    requires 0 < n <= |cpus|
    ensures InOnlineRing(l, cpus, n, k)
       <==> InOnlineRing(l, cpus, n - 1, k) || (Online(cpus[n - 1]) && InRing(l, n - 1, k))
  {
  }

  lemma SkipRing(raw: seq<U8>, memory: seq<U8>, l: Layout, cpus: seq<DecodedCpu>, n: nat)
    requires 0 < n <= |cpus| && !Online(cpus[n - 1])
    ensures WithRings(raw, memory, l, cpus, n) == WithRings(raw, memory, l, cpus, n - 1)
    ensures RingsReadable(memory, l, cpus, n - 1) ==> RingsReadable(memory, l, cpus, n)
  {
    forall k: nat ensures InOnlineRing(l, cpus, n, k) <==> InOnlineRing(l, cpus, n - 1, k) {
      NextRing(l, cpus, n, k);
    }
  }

  lemma AddRing(raw: seq<U8>, memory: seq<U8>, l: Layout, cpus: seq<DecodedCpu>, n: nat)
    requires 0 < n <= |cpus| && Online(cpus[n - 1]) && RingStart(l, n - 1) + CpuEventsSize(l) <= |memory|
    requires RingStart(l, n - 1) + CpuEventsSize(l) <= |raw|
    ensures WithRings(raw, memory, l, cpus, n)
         == Overwrite(WithRings(raw, memory, l, cpus, n - 1), memory, RingStart(l, n - 1), CpuEventsSize(l))
    ensures RingsReadable(memory, l, cpus, n - 1) ==> RingsReadable(memory, l, cpus, n)
  {
    forall k: nat ensures InOnlineRing(l, cpus, n, k) <==> InOnlineRing(l, cpus, n - 1, k) || InRing(l, n - 1, k) {
      NextRing(l, cpus, n, k);
    }
  }

  lemma RingsKeepHeader(raw: seq<U8>, memory: seq<U8>, l: Layout, cpus: seq<DecodedCpu>)
    requires |raw| == TotalSize(l) && HEADER_SIZE <= |raw|
    ensures var full := WithRings(raw, memory, l, cpus, |cpus|);
            && CpuBytes(full, l) == CpuBytes(raw, l) && full[..HEADER_SIZE] == raw[..HEADER_SIZE]
  {
    var full := WithRings(raw, memory, l, cpus, |cpus|);
    Extents(l, l.maxCpus);
    forall k: nat | k < CpusEnd(l, l.maxCpus) ensures full[k] == raw[k] {
      assert forall c: nat :: RingStart(l, c) >= CpusEnd(l, l.maxCpus);
    }
  }

  // --- What it shows ------------------------------------------------------------------------------------------

  lemma RingsApart(l: Layout, c: nat, d: nat, k: nat)
    requires c != d && InRing(l, c, k)
    ensures !InRing(l, d, k)
  {
    if c < d {
      Rounded(c, d, CpuEventsSize(l));
    } else {
      Rounded(d, c, CpuEventsSize(l));
    }
  }

  lemma OnlineRing(raw: seq<U8>, memory: seq<U8>, l: Layout, cpus: seq<DecodedCpu>, c: nat)
    requires |raw| == TotalSize(l) <= |memory| && |cpus| == l.maxCpus && c < l.maxCpus && Online(cpus[c])
    ensures RecordAt(RingBytes(WithRings(raw, memory, l, cpus, |cpus|), l), l.maxCpus, CpuEventsSize(l), c)
         == RecordAt(RingBytes(memory, l), l.maxCpus, CpuEventsSize(l), c)
  {
    var full := WithRings(raw, memory, l, cpus, |cpus|);
    RingRecord(full, l, c);
    RingRecord(memory, l, c);
    forall k | RingStart(l, c) <= k < RingStart(l, c) + CpuEventsSize(l) ensures full[k] == memory[k] {
      assert InRing(l, c, k);
    }
  }

  /** Of a CPU that is not online, at most the head of its ring is there. */
  lemma OfflineRing(memory: seq<U8>, l: Layout, observed: nat, cpus: seq<DecodedCpu>, c: nat)
    requires |cpus| == l.maxCpus && c < l.maxCpus && !Online(cpus[c]) && observed <= l.maxCpus
    ensures var full := WithRings(Sparse(memory, l, observed), memory, l, cpus, |cpus|);
            AllZero(RecordAt(RingBytes(full, l), l.maxCpus, CpuEventsSize(l), c)[CPU_EVENTS_PREFIX..])
  {
    var raw := Sparse(memory, l, observed);
    var full := WithRings(raw, memory, l, cpus, |cpus|);
    RingRecord(full, l, c);
    var start, size := RingStart(l, c), CpuEventsSize(l);
    forall k | start + CPU_EVENTS_PREFIX <= k < start + size ensures full[k] == 0 {
      OfflineByte(l, observed, cpus, c, k);
    }
  }

  lemma OfflineByte(l: Layout, observed: nat, cpus: seq<DecodedCpu>, c: nat, k: nat)
    requires |cpus| == l.maxCpus && c < l.maxCpus && !Online(cpus[c]) && observed <= l.maxCpus
    requires RingStart(l, c) + CPU_EVENTS_PREFIX <= k < RingStart(l, c) + CpuEventsSize(l)
    ensures !InOnlineRing(l, cpus, |cpus|, k) && !IsRead(l, observed, observed, k)
  {
    assert InRing(l, c, k);
    forall d | 0 <= d < l.maxCpus && d != c ensures !InRing(l, d, k) {
      RingsApart(l, c, d, k);
    }
    forall d | 0 <= d < observed ensures !InRingHead(l, d, k) {
      HeadInRing(l, d, k);
    }
    Extents(l, observed);
    RingsBehind(l, c);
  }

  lemma HeadInRing(l: Layout, c: nat, k: nat)
    ensures InRingHead(l, c, k) ==> InRing(l, c, k)
  {
  }

  lemma RingsBehind(l: Layout, c: nat)
    ensures RingStart(l, c) >= CpusEnd(l, l.maxCpus)
  {
  }

  /** Slots that are all zero carry no event, whatever the head of the ring says. */
  lemma {:induction false} ZeroSlots(b: seq<U8>, l: Layout, from: nat, next: nat)
    requires Sane(l) && |b| == CpuEventsSize(l) && AllZero(b[CPU_EVENTS_PREFIX..]) && from > 0
    ensures EventsFrom(b, l, from, next) == []
    decreases next - from
  {
    if from < next {
      ZeroSlots(b, l, from + 1, next);
      ZeroSlot(b[CPU_EVENTS_PREFIX..], l, from % l.capacity);
    }
  }

  lemma ZeroSlot(slots: seq<U8>, l: Layout, i: nat)
    requires Sane(l) && |slots| == Area(l.capacity, EventSlotSize(l)) && AllZero(slots) && i < l.capacity
    ensures ReadU64(RecordAt(slots, l.capacity, EventSlotSize(l), i), 0) == 0
  {
    SlotInside(i, l.capacity, EventSlotSize(l));
    ZeroReads(RecordAt(slots, l.capacity, EventSlotSize(l), i), 0, 8);
  }

  /** The events of all rings of which the CPU is online. */
  function OnlineEvents(rings: seq<seq<DecodedEvent>>, cpus: seq<DecodedCpu>): seq<seq<DecodedEvent>>
    requires |rings| == |cpus|
  {
    seq(|rings|, c requires 0 <= c < |rings| => if Online(cpus[c]) then rings[c] else [])
  }

  lemma RingIsRead(memory: seq<U8>, l: Layout, observed: nat, cpus: seq<DecodedCpu>, c: nat)
    requires Sane(l) && TotalSize(l) <= |memory| && observed <= l.maxCpus && |cpus| == l.maxCpus && c < l.maxCpus
    ensures var full := WithRings(Sparse(memory, l, observed), memory, l, cpus, |cpus|);
            DecodeRings(RingBytes(full, l), l, l.capacity)[c]
            == if Online(cpus[c]) then DecodeRings(RingBytes(memory, l), l, l.capacity)[c] else []
  {
    var full := WithRings(Sparse(memory, l, observed), memory, l, cpus, |cpus|);
    if Online(cpus[c]) {
      OnlineRing(Sparse(memory, l, observed), memory, l, cpus, c);
    } else {
      OfflineRing(memory, l, observed, cpus, c);
      var b := RecordAt(RingBytes(full, l), l.maxCpus, CpuEventsSize(l), c);
      ZeroSlots(b, l, WindowStart(ReadU64(b, 0), l.capacity, l.capacity), ReadU64(b, 0));
    }
  }

  /** The report shows the CPUs as the light sample does, and exactly the events that the rings of online
      CPUs hold in the whole memory. */
  lemma FullShowsEvents(memory: seq<U8>, l: Layout, threads: nat)
    requires HEADER_SIZE <= |memory| && TotalSize(l) <= |memory| && ParseLayout(memory[..HEADER_SIZE]) == Ok(l)
    ensures var first, r := StateRead(memory, l.arch, threads), FullRead(memory, l.arch, threads);
            && first.Ok? && r.Ok? && r.value.cpus == first.value.cpus && |first.value.cpus| == l.maxCpus
            && r.value.events
               == SortEvents(Concat(OnlineEvents(DecodeRings(RingBytes(memory, l), l, l.capacity), first.value.cpus)))
  {
    var observed := Observed(l, threads);
    var raw := Sparse(memory, l, observed);
    var cpus := DecodeCpus(CpuBytes(raw, l), l);
    var full := WithRings(raw, memory, l, cpus, |cpus|);
    StateIsRead(memory, l, threads);
    Extents(l, observed);
    RingsKeepHeader(raw, memory, l, cpus);
    forall k: nat | InOnlineRing(l, cpus, |cpus|, k) ensures k < |memory| {
      var c :| 0 <= c < |cpus| && Online(cpus[c]) && InRing(l, c, k);
      RingInside(l, c);
    }
    forall c | 0 <= c < l.maxCpus
      ensures DecodeRings(RingBytes(full, l), l, l.capacity)[c]
           == OnlineEvents(DecodeRings(RingBytes(memory, l), l, l.capacity), cpus)[c]
    {
      RingIsRead(memory, l, observed, cpus, c);
    }
    assert DecodeRings(RingBytes(full, l), l, l.capacity)
        == OnlineEvents(DecodeRings(RingBytes(memory, l), l, l.capacity), cpus);
  }

  // --- The whole of collect_remote_sample --------------------------------------------------------------------

  const REPLACEMENT: nat := 0xFFFD

  /** `decode("ascii", "replace")`. */
  function Ascii(id: seq<U8>): (text: seq<nat>)
    ensures |text| == |id|
  {
    seq(|id|, i requires 0 <= i < |id| => if id[i] < 128 then id[i] else REPLACEMENT)
  }

  /** Kernel image, guest and header name the same build; nothing read from the guest counts as none. */
  predicate SameBuild(local: seq<U8>, remote: Option<seq<U8>>, l: Layout) {
    && remote.Some? && remote.value != []
    && Ascii(UpToNul(remote.value)) == Ascii(UpToNul(local))
    && Ascii(UpToNul(remote.value)) == Ascii(l.buildId)
  }

  datatype CollectError = Failed(error: ReadError) | BuildMismatch

  method CollectSample(memory: seq<U8>, arch: U16, threads: nat, fullEvents: bool, local: seq<U8>, remote: Option<seq<U8>>)
    returns (r: Result<Decoded, CollectError>)
    ensures match (if fullEvents then FullRead(memory, arch, threads) else StateRead(memory, arch, threads))
            case Err(e) => r == Err(Failed(e))
            case Ok(d) => r == if SameBuild(local, remote, d.layout) then Ok(d) else Err(BuildMismatch)
  {
    var d: Result<Decoded, ReadError>;
    if fullEvents {
      d := ReadFull(memory, arch, threads);
    } else {
      d := ReadState(memory, arch, threads);
    }
    if d.Err? {
      return Err(Failed(d.error));
    }
    var guest := if remote.Some? && remote.value != [] then Some(Ascii(UpToNul(remote.value))) else None;
    if guest != Some(Ascii(UpToNul(local))) {
      return Err(BuildMismatch);
    }
    if guest != Some(Ascii(d.value.layout.buildId)) {
      return Err(BuildMismatch);
    }
    return Ok(d.value);
  }

  /** A kernel built with id `guest` is accepted for an image built with id `local` exactly when the first
      63 bytes agree, for ids of ASCII characters. */
  lemma BuildsAreTold(local: seq<U8>, guest: seq<U8>, l: Layout)
    requires l.buildId == UpToNul(BuildIdOf(guest))
    requires forall i :: 0 <= i < |local| ==> 0 < local[i] < 128
    requires forall i :: 0 <= i < |guest| ==> 0 < guest[i] < 128
    ensures SameBuild(BuildIdOf(local), Some(BuildIdOf(guest)), l)
       <==> local[..Min(|local|, 63)] == guest[..Min(|guest|, 63)]
  {
    BuildIdRoundTrip(local);
    BuildIdRoundTrip(guest);
    var a, b := local[..Min(|local|, 63)], guest[..Min(|guest|, 63)];
    assert forall i :: 0 <= i < |a| ==> Ascii(a)[i] == a[i];
    assert forall i :: 0 <= i < |b| ==> Ascii(b)[i] == b[i];
  }
}
