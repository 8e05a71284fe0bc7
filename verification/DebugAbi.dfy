/** The memory layout of `WATEROS_DEBUG_STATE` and its decoder.

The kernel side writes repr(C) records on a little-endian machine; every record is a whole
number of eight-byte rows. The host side reads the raw bytes at computed offsets.
*/
module DebugAbi {
  import opened Wrappers
  import opened DebugState
  import opened Bytes

  const DEBUG_MAGIC: U64 := 0x5741_5445_5244_4247
  const HEADER_SIZE := 96
  const CPU_SLOTS_PREFIX := 24
  const EVENT_SLOT_PREFIX := 8
  const CPU_EVENTS_PREFIX := 16
  const LOCK_SIZE := 16
  const CPU_STATE_SIZE := 328
  const EVENT_SIZE := 56

  datatype Event = Event(tick: U64, task: U64, kind: U16, cpu: U16, flags: U32,
                         callerPc: U64, arg0: U64, arg1: U64, arg2: U64)

  datatype CpuSlots = CpuSlots(published: U64, writing: bool, dropped: U64, slot0: CpuState, slot1: CpuState)
  datatype EventSlot = EventSlot(sequence: U64, event: Event)
  datatype EventRing = EventRing(next: U64, dropped: U64, slots: seq<EventSlot>)

  /** The whole diagnostic state: `cpus[i]` and `events[i]` belong to CPU `i`. */
  datatype Memory = Memory(arch: U16, buildId: seq<U8>, cpus: seq<CpuSlots>, events: seq<EventRing>)

  /** The compile-time parameters of a build. */
  ghost predicate Built(m: Memory, maxCpus: nat, capacity: nat) {
    && 1 <= maxCpus <= 256 && 1 <= capacity <= 4096
    && |m.buildId| == 64
    && |m.cpus| == |m.events| == maxCpus
    && forall c :: 0 <= c < maxCpus ==> |m.events[c].slots| == capacity
  }

  // --- The bytes the kernel lays out ---------------------------------------------------------

  function Unsigned8(x: I8): U8 { if x < 0 then x + 256 else x }
  function Signed8(x: U8): I8 { if x >= 128 then x - 256 else x }

  function KindRow(l: LockRef): Row { Row16(l.kind, 0, 0, 0) }

  function CpuStateRows(s: CpuState): (rows: seq<Row>)
    ensures |rows| == 41
  {
    LeadingRows(s) + MiddleRows(s) + LockRows(s.held)
  }

  function LeadingRows(s: CpuState): (rows: seq<Row>)
    ensures |rows| == 16
  {
    var c := s.core;
    [Row64(s.generation), Row64(c.flags), Row64(c.currentTask), Row64(c.addressSpace),
     Row64(c.timerTicks), Row64(c.contextSwitches), Row64(c.syscalls), Row64(c.traps),
     Row64(c.ipiSent), Row64(c.ipiReceived), Row64(c.lastTrapCause), Row64(c.lastTrapPc),
     Row64(c.lastTrapSp), Row64(c.lastFaultAddr), Row64(c.lastSyscallNr), Row64(c.lastSyscallPc)]
  }

  function MiddleRows(s: CpuState): (rows: seq<Row>)
    ensures |rows| == 9
  {
    var c := s.core;
    [Row32(c.runnable[0], c.runnable[1]), Row32(c.runnable[2], c.runnable[3]),
     Row32(c.runnable[4], c.lastScheduleReason),
     Row16(c.taskKind, c.taskState, c.schedPolicy, c.waitKind),
     Row64(c.waitValue), Row8(Unsigned8(c.nice)),
     KindRow(s.waiting), Row64(s.waiting.address), Row32(s.heldCount, 0)]
  }

  /** Two rows for each entry of the held-lock list. */
  function LockRows(held: HeldLocks): (rows: seq<Row>)
    ensures |rows| == 16
    ensures forall i :: 0 <= i < HELD_LOCK_CAPACITY ==>
              rows[2 * i] == KindRow(held[i]) && rows[2 * i + 1] == Row64(held[i].address)
  {
    [KindRow(held[0]), Row64(held[0].address), KindRow(held[1]), Row64(held[1].address),
     KindRow(held[2]), Row64(held[2].address), KindRow(held[3]), Row64(held[3].address),
     KindRow(held[4]), Row64(held[4].address), KindRow(held[5]), Row64(held[5].address),
     KindRow(held[6]), Row64(held[6].address), KindRow(held[7]), Row64(held[7].address)]
  }

  function CpuSlotsRows(p: CpuSlots): (rows: seq<Row>)
    ensures |rows| == 85
  {
    [Row64(p.published), Row8(if p.writing then 1 else 0), Row64(p.dropped)]
    + CpuStateRows(p.slot0) + CpuStateRows(p.slot1)
  }

  function EventSlotRows(s: EventSlot): (rows: seq<Row>)
    ensures |rows| == 8
  {
    [Row64(s.sequence)] + EventRows(s.event)
  }

  function EventRows(e: Event): (rows: seq<Row>)
    ensures |rows| == 7
  {
    [Row64(e.tick), Row64(e.task), Row1616_32(e.kind, e.cpu, e.flags),
     Row64(e.callerPc), Row64(e.arg0), Row64(e.arg1), Row64(e.arg2)]
  }

  function EventRingRows(r: EventRing): seq<Row> {
    [Row64(r.next), Row64(r.dropped)]
    + Concat(seq(|r.slots|, i requires 0 <= i < |r.slots| => EventSlotRows(r.slots[i])))
  }

  function IdRows(id: seq<U8>): (rows: seq<Row>)
    requires |id| == 64
    ensures |rows| == 8
  {
    seq(8, i requires 0 <= i < 8 => id[8 * i..8 * i + 8])
  }

  function HeaderRows(m: Memory, maxCpus: U16, capacity: U16): (rows: seq<Row>)
    requires |m.buildId| == 64
    ensures |rows| == 12
  {
    [Row64(DEBUG_MAGIC), Row32_1616(1, maxCpus, capacity), Row32(CPU_STATE_SIZE, EVENT_SIZE),
     Row32_1616(64, m.arch, 0)]
    + IdRows(m.buildId)
  }

  function CpuRegion(m: Memory): seq<Row> {
    Concat(seq(|m.cpus|, c requires 0 <= c < |m.cpus| => CpuSlotsRows(m.cpus[c])))
  }

  function EventRegion(m: Memory): seq<Row> {
    Concat(seq(|m.events|, c requires 0 <= c < |m.events| => EventRingRows(m.events[c])))
  }

  /** The bytes of the static, in address order. */
  function Image(m: Memory, maxCpus: U16, capacity: U16): seq<U8>
    requires |m.buildId| == 64
  {
    Flatten(HeaderRows(m, maxCpus, capacity) + CpuRegion(m) + EventRegion(m))
  }

  // --- The decoder -----------------------------------------------------------------------------

  datatype AbiError = Truncated | BadMagic | BadVersion | BadArch | BadCpuCount | BadCapacity
                    | BadRecordSize | BadBuildIdSize | Incomplete

  type AbiResult<T> = Result<T, AbiError>

  datatype Layout = Layout(version: U32, arch: U16, buildId: seq<U8>, maxCpus: U16, capacity: U16,
                           cpuStateSize: U32, eventSize: U32)

  function CpuSlotsSize(l: Layout): nat { CPU_SLOTS_PREFIX + 2 * l.cpuStateSize }
  function EventSlotSize(l: Layout): nat { EVENT_SLOT_PREFIX + l.eventSize }
  function CpuEventsSize(l: Layout): nat { CPU_EVENTS_PREFIX + Area(l.capacity, EventSlotSize(l)) }
  function TotalSize(l: Layout): nat {
    HEADER_SIZE + Area(l.maxCpus, CpuSlotsSize(l)) + Area(l.maxCpus, CpuEventsSize(l))
  }

  /** Bytes taken by `count` records of `size` bytes. */
  function Area(count: nat, size: nat): (a: nat)
    ensures a == count * size
  {
    if count == 0 then 0 else Area(count - 1, size) + size
  }

  predicate Sane(l: Layout) {
    l.cpuStateSize >= CPU_STATE_SIZE && l.eventSize >= EVENT_SIZE && l.capacity > 0
  }

  /** The bytes before the first NUL. */
  function UpToNul(s: seq<U8>): (r: seq<U8>)
    ensures |r| <= |s| && r == s[..|r|] && 0 !in r
    ensures |r| < |s| ==> s[|r|] == 0
  {
    if s == [] || s[0] == 0 then [] else [s[0]] + UpToNul(s[1..])
  }

  function ParseLayout(header: seq<U8>): (r: AbiResult<Layout>)
    ensures r.Ok? ==> Sane(r.value)
  {
    if |header| < HEADER_SIZE then Err(Truncated)
    else
      var version := ReadU32(header, 8);
      var maxCpus, capacity := ReadU16(header, 12), ReadU16(header, 14);
      var cpuSize, eventSize, buildIdSize := ReadU32(header, 16), ReadU32(header, 20), ReadU32(header, 24);
      var arch := ReadU16(header, 28);
      if ReadU64(header, 0) != DEBUG_MAGIC then Err(BadMagic)
      else if version != 1 then Err(BadVersion)
      else if arch != 1 && arch != 2 then Err(BadArch)
      else if !(1 <= maxCpus <= 256) then Err(BadCpuCount)
      else if !(1 <= capacity <= 4096) then Err(BadCapacity)
      else if cpuSize < 328 || eventSize < 56 then Err(BadRecordSize)
      else if buildIdSize != 64 then Err(BadBuildIdSize)
      else Ok(Layout(version, arch, UpToNul(header[32..96]), maxCpus, capacity, cpuSize, eventSize))
  }

  datatype DecodedCpu = DecodedCpu(cpu: nat, generation: U64, core: Core, waiting: LockRef, held: seq<LockRef>,
                                   writing: bool, dropped: U64)
  datatype DecodedEvent = DecodedEvent(sequence: nat, event: Event)
  datatype EventMeta = EventMeta(cpu: nat, next: U64, dropped: U64)
  datatype Decoded = Decoded(layout: Layout, cpus: seq<DecodedCpu>, meta: seq<EventMeta>, events: seq<DecodedEvent>)

  function LockAt(b: seq<U8>, offset: nat): LockRef requires offset + 16 <= |b| {
    LockRef(ReadU16(b, offset), ReadU64(b, offset + 8))
  }

  function RunnableAt(b: seq<U8>): RunnableCounts requires |b| == CPU_STATE_SIZE {
    [ReadU32(b, 128), ReadU32(b, 132), ReadU32(b, 136), ReadU32(b, 140), ReadU32(b, 144)]
  }

  function CoreAt(b: seq<U8>): Core requires |b| == CPU_STATE_SIZE {
    Core(
      ReadU64(b, 8), ReadU64(b, 16), ReadU64(b, 24), ReadU64(b, 32), ReadU64(b, 40), ReadU64(b, 48), ReadU64(b, 56),
      ReadU64(b, 64), ReadU64(b, 72), ReadU64(b, 80), ReadU64(b, 88), ReadU64(b, 96), ReadU64(b, 104),
      ReadU64(b, 112), ReadU64(b, 120), RunnableAt(b), ReadU32(b, 148), ReadU16(b, 152), ReadU16(b, 154),
      ReadU16(b, 156), ReadU16(b, 158), ReadU64(b, 160), Signed8(b[168]))
  }

  function HeldAt(b: seq<U8>): seq<LockRef> requires |b| == CPU_STATE_SIZE {
    var heldCount := Min(ReadU32(b, 192), HELD_LOCK_CAPACITY);
    seq(heldCount, i requires 0 <= i < heldCount => LockAt(b, 200 + i * LOCK_SIZE))
  }

  /** `_cpu_state`, on the bytes of the record. */
  function CpuStateAt(b: seq<U8>, cpu: nat, writing: bool, dropped: U64): DecodedCpu
    requires |b| == CPU_STATE_SIZE
  {
    DecodedCpu(cpu, ReadU64(b, 0), CoreAt(b), LockAt(b, 176), HeldAt(b), writing, dropped)
  }

  function EventAt(b: seq<U8>): Event
    requires |b| == EVENT_SIZE
  {
    Event(ReadU64(b, 0), ReadU64(b, 8), ReadU16(b, 16), ReadU16(b, 18), ReadU32(b, 20),
          ReadU64(b, 24), ReadU64(b, 32), ReadU64(b, 40), ReadU64(b, 48))
  }

  /** One iteration of the CPU loop, on the bytes of that CPU's slots. */
  function CpuAt(b: seq<U8>, l: Layout, cpu: nat): DecodedCpu
    requires |b| == CpuSlotsSize(l) && l.cpuStateSize >= CPU_STATE_SIZE
  {
    CpuStateAt(PublishedSlot(b, l), cpu, b[8] != 0, ReadU64(b, 16))
  }

  function PublishedSlot(b: seq<U8>, l: Layout): (r: seq<U8>)
    requires |b| == CpuSlotsSize(l) && l.cpuStateSize >= CPU_STATE_SIZE
    ensures |r| == CPU_STATE_SIZE
  {
    var offset := CPU_SLOTS_PREFIX + ReadU64(b, 0) % 2 * l.cpuStateSize;
    b[offset..offset + CPU_STATE_SIZE]
  }

  /** `max(1, next_sequence - min(event_limit, event_capacity))`. */
  function WindowStart(next: nat, limit: nat, capacity: nat): nat {
    if next - Min(limit, capacity) < 1 then 1 else next - Min(limit, capacity)
  }

  lemma SlotInside(index: nat, count: nat, size: nat)
    requires index < count
    ensures 0 <= index * size && index * size + size <= Area(count, size)
  {
    var rest := count - index - 1;
    assert rest * size >= 0;
    assert count * size == (index + 1 + rest) * size == index * size + size + rest * size;
  }

  /** Record `c` of a region that consists of `count` records. */
  function RecordAt(region: seq<U8>, count: nat, size: nat, c: nat): (r: seq<U8>)
    requires c < count && |region| == Area(count, size)
    ensures |r| == size
  {
    SlotInside(c, count, size);
    region[c * size..c * size + size]
  }

  function EventInSlot(slot: seq<U8>): Event
    requires |slot| >= EVENT_SLOT_PREFIX + EVENT_SIZE
  {
    EventAt(slot[EVENT_SLOT_PREFIX..EVENT_SLOT_PREFIX + EVENT_SIZE])
  }

  /** The events of sequences `from..next`, on the bytes of one CPU's ring. */
  function EventsFrom(b: seq<U8>, l: Layout, from: nat, next: nat): seq<DecodedEvent>
    requires |b| == CpuEventsSize(l) && l.eventSize >= EVENT_SIZE && l.capacity > 0
    decreases next - from
  {
    if from >= next then []
    else
      var rest := EventsFrom(b, l, from + 1, next);
      var slot := RecordAt(b[CPU_EVENTS_PREFIX..], l.capacity, EventSlotSize(l), from % l.capacity);
      if ReadU64(slot, 0) != from then rest
      else [DecodedEvent(from, EventInSlot(slot))] + rest
  }

  function CpuBytes(data: seq<U8>, l: Layout): (r: seq<U8>)
    requires TotalSize(l) <= |data|
    ensures |r| == Area(l.maxCpus, CpuSlotsSize(l))
  {
    data[HEADER_SIZE..HEADER_SIZE + Area(l.maxCpus, CpuSlotsSize(l))]
  }

  function RingBytes(data: seq<U8>, l: Layout): (r: seq<U8>)
    requires TotalSize(l) <= |data|
    ensures |r| == Area(l.maxCpus, CpuEventsSize(l))
  {
    var base := HEADER_SIZE + Area(l.maxCpus, CpuSlotsSize(l));
    data[base..base + Area(l.maxCpus, CpuEventsSize(l))]
  }

  function RingEvents(b: seq<U8>, l: Layout, limit: nat): seq<DecodedEvent>
    requires |b| == CpuEventsSize(l) && l.eventSize >= EVENT_SIZE && l.capacity > 0
  {
    EventsFrom(b, l, WindowStart(ReadU64(b, 0), limit, l.capacity), ReadU64(b, 0))
  }

  function DecodeCpus(region: seq<U8>, l: Layout): seq<DecodedCpu>
    requires Sane(l) && |region| == Area(l.maxCpus, CpuSlotsSize(l))
  {
    seq(l.maxCpus, c requires 0 <= c < l.maxCpus => CpuAt(RecordAt(region, l.maxCpus, CpuSlotsSize(l), c), l, c))
  }

  function MetaAt(b: seq<U8>, c: nat): EventMeta requires |b| >= 16 {
    EventMeta(c, ReadU64(b, 0), ReadU64(b, 8))
  }

  function DecodeMeta(region: seq<U8>, l: Layout): seq<EventMeta>
    requires Sane(l) && |region| == Area(l.maxCpus, CpuEventsSize(l))
  {
    seq(l.maxCpus, c requires 0 <= c < l.maxCpus => MetaAt(RecordAt(region, l.maxCpus, CpuEventsSize(l), c), c))
  }

  function DecodeRings(region: seq<U8>, l: Layout, limit: nat): seq<seq<DecodedEvent>>
    requires Sane(l) && |region| == Area(l.maxCpus, CpuEventsSize(l))
  {
    seq(l.maxCpus, c requires 0 <= c < l.maxCpus =>
      RingEvents(RecordAt(region, l.maxCpus, CpuEventsSize(l), c), l, limit))
  }

  // --- The final sort --------------------------------------------------------------------------

  /** Events are ordered by tick, then CPU, then sequence. */
  datatype Key = Key(tick: U64, cpu: U16, sequence: nat)

  function KeyOf(e: DecodedEvent): Key { Key(e.event.tick, e.event.cpu, e.sequence) }

  predicate NotAfter(a: Key, b: Key) {
    a.tick < b.tick || (a.tick == b.tick && (a.cpu < b.cpu || (a.cpu == b.cpu && a.sequence <= b.sequence)))
  }

  function Insert(e: DecodedEvent, s: seq<DecodedEvent>): seq<DecodedEvent> {
    if s == [] || NotAfter(KeyOf(e), KeyOf(s[0])) then [e] + s else [s[0]] + Insert(e, s[1..])
  }

  function SortEvents(s: seq<DecodedEvent>): seq<DecodedEvent> {
    if s == [] then [] else Insert(s[0], SortEvents(s[1..]))
  }

  ghost predicate Ordered(s: seq<DecodedEvent>) {
    forall i, j :: 0 <= i < j < |s| ==> NotAfter(KeyOf(s[i]), KeyOf(s[j]))
  }

  /** The events with one key, in their order. */
  function WithKey(s: seq<DecodedEvent>, k: Key): (r: seq<DecodedEvent>)
    ensures forall e :: e in r <==> e in s && KeyOf(e) == k
  {
    if s == [] then []
    else if KeyOf(s[0]) == k then [s[0]] + WithKey(s[1..], k)
    else WithKey(s[1..], k)
  }

  ghost predicate SameByKey(a: seq<DecodedEvent>, b: seq<DecodedEvent>) {
    forall k :: WithKey(a, k) == WithKey(b, k)
  }

  lemma FirstWithKey(x: DecodedEvent, s: seq<DecodedEvent>, k: Key)
    ensures WithKey([x] + s, k) == (if KeyOf(x) == k then [x] else []) + WithKey(s, k)
  {
    assert ([x] + s)[1..] == s;
  }

  lemma {:induction false} InsertKeeps(e: DecodedEvent, s: seq<DecodedEvent>)
    requires Ordered(s)
    ensures Ordered(Insert(e, s))
    ensures SameByKey(Insert(e, s), [e] + s)
    ensures forall x :: x in Insert(e, s) <==> x == e || x in s
  {
    if s != [] && !NotAfter(KeyOf(e), KeyOf(s[0])) {
      var rest := Insert(e, s[1..]);
      assert Ordered(s[1..]);
      InsertKeeps(e, s[1..]);
      assert s == [s[0]] + s[1..];
      forall k ensures WithKey([s[0]] + rest, k) == WithKey([e] + s, k) {
        FirstWithKey(s[0], rest, k);
        FirstWithKey(e, s[1..], k);
        FirstWithKey(s[0], s[1..], k);
        FirstWithKey(e, s, k);
      }
      assert forall j :: 0 <= j < |rest| ==> rest[j] in rest;
    } else {
      assert forall j :: 0 < j < |s| ==> NotAfter(KeyOf(s[0]), KeyOf(s[j]));
    }
  }

  /** Sorting orders the events and keeps those with equal keys, all of them, in their order. */
  lemma {:induction false} EventsAreSorted(s: seq<DecodedEvent>)
    ensures Ordered(SortEvents(s))
    ensures SameByKey(SortEvents(s), s)
  {
    if s != [] {
      EventsAreSorted(s[1..]);
      InsertKeeps(s[0], SortEvents(s[1..]));
      forall k ensures WithKey(SortEvents(s), k) == WithKey(s, k) {
        FirstWithKey(s[0], SortEvents(s[1..]), k);
        assert WithKey(SortEvents(s[1..]), k) == WithKey(s[1..], k);
      }
    }
  }

  lemma FirstIsDetermined(a: seq<DecodedEvent>, b: seq<DecodedEvent>)
    requires Ordered(a) && Ordered(b) && SameByKey(a, b) && a != [] && b != []
    ensures a[0] == b[0]
  {
    var k, q := KeyOf(a[0]), KeyOf(b[0]);
    FirstWithKey(a[0], a[1..], k);
    FirstWithKey(b[0], b[1..], q);
    assert a == [a[0]] + a[1..] && b == [b[0]] + b[1..];
    assert WithKey(a, k) == WithKey(b, k) && WithKey(a, q) == WithKey(b, q);
    assert a[0] in WithKey(b, k) && b[0] in WithKey(a, q);
    assert NotAfter(k, q) && NotAfter(q, k);
    assert a[0] == WithKey(a, k)[0] && b[0] == WithKey(b, k)[0];
  }

  lemma TailsAgree(a: seq<DecodedEvent>, b: seq<DecodedEvent>, x: DecodedEvent)
    requires SameByKey([x] + a, [x] + b)
    ensures SameByKey(a, b)
  {
    forall k ensures WithKey(a, k) == WithKey(b, k) {
      assert WithKey([x] + a, k) == WithKey([x] + b, k);
      FirstWithKey(x, a, k);
      FirstWithKey(x, b, k);
      var n := if KeyOf(x) == k then 1 else 0;
      assert WithKey(a, k) == WithKey([x] + a, k)[n..] && WithKey(b, k) == WithKey([x] + b, k)[n..];
    }
  }

  /** There is only one such order, whatever the sorting algorithm. */
  lemma {:induction false} OrderIsDetermined(a: seq<DecodedEvent>, b: seq<DecodedEvent>)
    requires Ordered(a) && Ordered(b) && SameByKey(a, b)
    ensures a == b
  {
    if a == [] || b == [] {
      assert a != [] ==> a[0] in WithKey(b, KeyOf(a[0]));
      assert b != [] ==> b[0] in WithKey(a, KeyOf(b[0]));
    } else {
      FirstIsDetermined(a, b);
      assert a == [a[0]] + a[1..] && b == [a[0]] + b[1..];
      TailsAgree(a[1..], b[1..], a[0]);
      OrderIsDetermined(a[1..], b[1..]);
    }
  }

  /** `decode_state`. */
  function Decode(data: seq<U8>, limit: nat): AbiResult<Decoded> {
    match ParseLayout(if |data| < HEADER_SIZE then data else data[..HEADER_SIZE])
    case Err(e) => Err(e)
    case Ok(l) =>
      if |data| < TotalSize(l) then Err(Incomplete)
      else Ok(Decoded(l, DecodeCpus(CpuBytes(data, l), l), DecodeMeta(RingBytes(data, l), l),
                      SortEvents(Concat(DecodeRings(RingBytes(data, l), l, limit)))))
  }

  /** The loops of `decode_state`. */
  method DecodeState(data: seq<U8>, limit: nat) returns (r: AbiResult<Decoded>)
    ensures r == Decode(data, limit)
  {
    var parsed := ParseLayout(if |data| < HEADER_SIZE then data else data[..HEADER_SIZE]);
    if parsed.Err? {
      return Err(parsed.error);
    }
    var l := parsed.value;
    if |data| < TotalSize(l) {
      return Err(Incomplete);
    }
    var cpus := CpuLoop(CpuBytes(data, l), l);
    var meta, events := RingLoop(RingBytes(data, l), l, limit);
    return Ok(Decoded(l, cpus, meta, SortEvents(events)));
  }

  method CpuLoop(region: seq<U8>, l: Layout) returns (cpus: seq<DecodedCpu>)
    requires Sane(l) && |region| == Area(l.maxCpus, CpuSlotsSize(l))
    ensures cpus == DecodeCpus(region, l)
  {
    cpus := [];
    ghost var goal := DecodeCpus(region, l);
    for c := 0 to l.maxCpus
      invariant cpus == goal[..c]
    {
      cpus := cpus + [CpuAt(RecordAt(region, l.maxCpus, CpuSlotsSize(l), c), l, c)];
    }
  }

  method RingLoop(region: seq<U8>, l: Layout, limit: nat) returns (meta: seq<EventMeta>, events: seq<DecodedEvent>)
    requires Sane(l) && |region| == Area(l.maxCpus, CpuEventsSize(l))
    ensures meta == DecodeMeta(region, l)
    ensures events == Concat(DecodeRings(region, l, limit))
  {
    meta, events := [], [];
    ghost var rings := DecodeRings(region, l, limit);
    for c := 0 to l.maxCpus
      invariant meta == DecodeMeta(region, l)[..c]
      invariant events == Concat(rings[..c])
    {
      var b := RecordAt(region, l.maxCpus, CpuEventsSize(l), c);
      events := AppendEvents(b, l, limit, events);
      meta := meta + [MetaAt(b, c)];
      assert rings[..c + 1][..c] == rings[..c];
    }
    assert rings[..l.maxCpus] == rings;
  }

  /** The inner loop over the sequences of one ring. */
  method AppendEvents(b: seq<U8>, l: Layout, limit: nat, before: seq<DecodedEvent>) returns (all: seq<DecodedEvent>)
    requires Sane(l) && |b| == CpuEventsSize(l)
    ensures all == before + RingEvents(b, l, limit)
  {
    var next := ReadU64(b, 0);
    var sequence := WindowStart(next, limit, l.capacity);
    all := before;
    while sequence < next
      invariant all + EventsFrom(b, l, sequence, next) == before + RingEvents(b, l, limit)
      decreases next - sequence
    {
      var slot := RecordAt(b[CPU_EVENTS_PREFIX..], l.capacity, EventSlotSize(l), sequence % l.capacity);
      if ReadU64(slot, 0) == sequence {
        all := all + [DecodedEvent(sequence, EventInSlot(slot))];
      }
      sequence := sequence + 1;
    }
  }
}
