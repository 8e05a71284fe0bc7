/** Decoding the bytes of any diagnostic state recovers exactly that state. */
module DebugRoundTrip {
  import opened Wrappers
  import opened DebugState
  import opened Bytes
  import opened DebugAbi

  function SelectedState(p: CpuSlots): CpuState { if p.published % 2 == 0 then p.slot0 else p.slot1 }

  /** What the host should see of one CPU. */
  function SeenCpu(p: CpuSlots, cpu: nat): DecodedCpu {
    var s := SelectedState(p);
    DecodedCpu(cpu, s.generation, s.core, s.waiting, HeldList(s), p.writing, p.dropped)
  }

  // --- One CPU state ---------------------------------------------------------------------------

  lemma RowsOfState(s: CpuState)
    ensures var rows, c := CpuStateRows(s), s.core;
            && rows[16] == Row32(c.runnable[0], c.runnable[1]) && rows[17] == Row32(c.runnable[2], c.runnable[3])
            && rows[18] == Row32(c.runnable[4], c.lastScheduleReason)
            && rows[19] == Row16(c.taskKind, c.taskState, c.schedPolicy, c.waitKind)
            && rows[20] == Row64(c.waitValue) && rows[21] == Row8(Unsigned8(c.nice))
            && rows[22] == KindRow(s.waiting) && rows[23] == Row64(s.waiting.address)
            && rows[24] == Row32(s.heldCount, 0)
    ensures forall i :: 0 <= i < HELD_LOCK_CAPACITY ==>
              CpuStateRows(s)[25 + 2 * i] == KindRow(s.held[i]) && CpuStateRows(s)[26 + 2 * i] == Row64(s.held[i].address)
  {
    forall i | 0 <= i < HELD_LOCK_CAPACITY
      ensures CpuStateRows(s)[25 + 2 * i] == KindRow(s.held[i]) && CpuStateRows(s)[26 + 2 * i] == Row64(s.held[i].address)
    {
      HeldRowsOfState(s, i);
    }
    assert CpuStateRows(s)[16..25] == MiddleRows(s);
    MiddleRowsOfState(CpuStateRows(s), MiddleRows(s));
  }

  lemma MiddleRowsOfState(rows: seq<Row>, middle: seq<Row>)
    requires |rows| == 41 && |middle| == 9 && rows[16..25] == middle
    ensures rows[16] == middle[0] && rows[17] == middle[1] && rows[18] == middle[2] && rows[19] == middle[3]
    ensures rows[20] == middle[4] && rows[21] == middle[5] && rows[22] == middle[6] && rows[23] == middle[7]
    ensures rows[24] == middle[8]
  {
  }

  lemma PartAt<T>(a: seq<T>, b: seq<T>, c: seq<T>, k: nat)
    ensures k < |a| ==> (a + b + c)[k] == a[k]
    ensures k < |b| ==> (a + b + c)[|a| + k] == b[k]
    ensures k < |c| ==> (a + b + c)[|a| + |b| + k] == c[k]
  {
  }

  lemma HeldRowsOfState(s: CpuState, i: nat)
    requires i < HELD_LOCK_CAPACITY
    ensures CpuStateRows(s)[25 + 2 * i] == KindRow(s.held[i]) && CpuStateRows(s)[26 + 2 * i] == Row64(s.held[i].address)
  {
    PartAt(LeadingRows(s), MiddleRows(s), LockRows(s.held), 2 * i);
    PartAt(LeadingRows(s), MiddleRows(s), LockRows(s.held), 2 * i + 1);
  }

  /** The sixteen leading words of a state, in the order of the record. */
  function LeadingWords(s: CpuState): seq<U64> {
    var c := s.core;
    [s.generation, c.flags, c.currentTask, c.addressSpace, c.timerTicks, c.contextSwitches, c.syscalls, c.traps,
     c.ipiSent, c.ipiReceived, c.lastTrapCause, c.lastTrapPc, c.lastTrapSp, c.lastFaultAddr, c.lastSyscallNr,
     c.lastSyscallPc]
  }

  lemma LeadingWordAt(s: CpuState, k: nat)
    requires k < 16
    ensures ReadU64(Flatten(CpuStateRows(s)), 8 * k) == LeadingWords(s)[k]
  {
    PartAt(LeadingRows(s), MiddleRows(s), LockRows(s.held), k);
    assert LeadingRows(s)[k] == Row64(LeadingWords(s)[k]);
    ReadRow64(CpuStateRows(s), k, LeadingWords(s)[k]);
  }

  lemma RunnableDecodes(rows: seq<Row>, b: seq<U8>, c: Core)
    requires |rows| == 41 && b == Flatten(rows)
    requires rows[16] == Row32(c.runnable[0], c.runnable[1]) && rows[17] == Row32(c.runnable[2], c.runnable[3])
    requires rows[18] == Row32(c.runnable[4], c.lastScheduleReason)
    ensures RunnableAt(b) == c.runnable && ReadU32(b, 148) == c.lastScheduleReason
  {
    ReadRow32(rows, 16, c.runnable[0], c.runnable[1]);
    ReadRow32(rows, 17, c.runnable[2], c.runnable[3]);
    ReadRow32(rows, 18, c.runnable[4], c.lastScheduleReason);
  }

  lemma SmallFieldsDecode(rows: seq<Row>, b: seq<U8>, c: Core)
    requires |rows| == 41 && b == Flatten(rows)
    requires rows[19] == Row16(c.taskKind, c.taskState, c.schedPolicy, c.waitKind)
    requires rows[20] == Row64(c.waitValue) && rows[21] == Row8(Unsigned8(c.nice))
    ensures ReadU16(b, 152) == c.taskKind && ReadU16(b, 154) == c.taskState
    ensures ReadU16(b, 156) == c.schedPolicy && ReadU16(b, 158) == c.waitKind
    ensures ReadU64(b, 160) == c.waitValue && Signed8(b[168]) == c.nice
  {
    ReadRow16(rows, 19, c.taskKind, c.taskState, c.schedPolicy, c.waitKind);
    ReadRow64(rows, 20, c.waitValue);
    ReadRow8(rows, 21, Unsigned8(c.nice));
  }

  lemma CoreDecodes(s: CpuState, b: seq<U8>)
    requires b == Flatten(CpuStateRows(s))
    ensures ReadU64(b, 0) == s.generation && CoreAt(b) == s.core
  {
    RowsOfState(s);
    RunnableDecodes(CpuStateRows(s), b, s.core);
    SmallFieldsDecode(CpuStateRows(s), b, s.core);
    LeadingWordAt(s, 0); LeadingWordAt(s, 1); LeadingWordAt(s, 2); LeadingWordAt(s, 3);
    LeadingWordAt(s, 4); LeadingWordAt(s, 5); LeadingWordAt(s, 6); LeadingWordAt(s, 7);
    LeadingWordAt(s, 8); LeadingWordAt(s, 9); LeadingWordAt(s, 10); LeadingWordAt(s, 11);
    LeadingWordAt(s, 12); LeadingWordAt(s, 13); LeadingWordAt(s, 14); LeadingWordAt(s, 15);
  }

  lemma LockDecodes(rows: seq<Row>, k: nat, l: LockRef)
    requires k + 1 < |rows| && rows[k] == KindRow(l) && rows[k + 1] == Row64(l.address)
    ensures LockAt(Flatten(rows), 8 * k) == l
  {
    ReadRow16(rows, k, l.kind, 0, 0, 0);
    ReadRow64(rows, k + 1, l.address);
    assert 8 * (k + 1) == 8 * k + 8;
  }

  lemma LocksDecode(rows: seq<Row>, b: seq<U8>, s: CpuState)
    requires |rows| == 41 && b == Flatten(rows)
    requires rows[22] == KindRow(s.waiting) && rows[23] == Row64(s.waiting.address)
    requires rows[24] == Row32(s.heldCount, 0)
    requires forall i :: 0 <= i < HELD_LOCK_CAPACITY ==>
               rows[25 + 2 * i] == KindRow(s.held[i]) && rows[26 + 2 * i] == Row64(s.held[i].address)
    ensures LockAt(b, 176) == s.waiting && HeldAt(b) == HeldList(s)
  {
    LockDecodes(rows, 22, s.waiting);
    ReadRow32(rows, 24, s.heldCount, 0);
    forall i | 0 <= i < HELD_LOCK_CAPACITY ensures LockAt(b, 200 + i * LOCK_SIZE) == s.held[i] {
      assert 8 * (25 + 2 * i) == 200 + i * LOCK_SIZE;
      LockDecodes(rows, 25 + 2 * i, s.held[i]);
    }
  }

  /** Every field of a CPU state comes back, and the held list is clamped to the array. */
  lemma StateRoundTrip(s: CpuState, cpu: nat, writing: bool, dropped: U64)
    ensures CpuStateAt(Flatten(CpuStateRows(s)), cpu, writing, dropped)
         == DecodedCpu(cpu, s.generation, s.core, s.waiting, HeldList(s), writing, dropped)
  {
    var b := Flatten(CpuStateRows(s));
    RowsOfState(s);
    CoreDecodes(s, b);
    LocksDecode(CpuStateRows(s), b, s);
  }

  // --- Regions of records ------------------------------------------------------------------------

  lemma Scaled(n: nat, size: nat)
    ensures n * (8 * size) == 8 * (n * size) && (n + 1) * size == n * size + size
  {
  }

  lemma ConcatBytes(chunks: seq<seq<Row>>, size: nat)
    requires forall j :: 0 <= j < |chunks| ==> |chunks[j]| == size
    ensures |Concat(chunks)| == |chunks| * size && |Flatten(Concat(chunks))| == Area(|chunks|, 8 * size)
  {
    ConcatLength(chunks, size);
    Scaled(|chunks|, size);
  }

  lemma RecordOfConcat(chunks: seq<seq<Row>>, size: nat, c: nat)
    requires forall j :: 0 <= j < |chunks| ==> |chunks[j]| == size
    requires c < |chunks|
    ensures |Flatten(Concat(chunks))| == Area(|chunks|, 8 * size)
    ensures RecordAt(Flatten(Concat(chunks)), |chunks|, 8 * size, c) == Flatten(chunks[c])
  {
    ConcatBytes(chunks, size);
    Scaled(c, size);
    ConcatChunk(chunks, size, c);
    FlattenSlice(Concat(chunks), c * size, c * size + size);
  }

  lemma SlotsPrefix(p: CpuSlots)
    ensures var b := Flatten(CpuSlotsRows(p));
            ReadU64(b, 0) == p.published && (b[8] != 0 <==> p.writing) && ReadU64(b, 16) == p.dropped
  {
    var rows := CpuSlotsRows(p);
    ReadRow64(rows, 0, p.published);
    ReadRow8(rows, 1, if p.writing then 1 else 0);
    ReadRow64(rows, 2, p.dropped);
  }

  lemma FlattenParts(a: seq<Row>, b: seq<Row>, c: seq<Row>)
    ensures Flatten(a + b + c) == Flatten(a) + Flatten(b) + Flatten(c)
  {
    FlattenAppend(a + b, c);
    FlattenAppend(a, b);
  }

  lemma SlotSlices(p: CpuSlots)
    ensures var b := Flatten(CpuSlotsRows(p));
            && |b| == 680
            && b[24..352] == Flatten(CpuStateRows(p.slot0)) && b[352..680] == Flatten(CpuStateRows(p.slot1))
  {
    var prefix := [Row64(p.published), Row8(if p.writing then 1 else 0), Row64(p.dropped)];
    FlattenParts(prefix, CpuStateRows(p.slot0), CpuStateRows(p.slot1));
    ThreeParts(Flatten(CpuSlotsRows(p)), Flatten(prefix), Flatten(CpuStateRows(p.slot0)), Flatten(CpuStateRows(p.slot1)));
  }

  /** The decoder picks the slot that `published` selects. */
  lemma SlotSelected(b: seq<U8>, l: Layout)
    requires |b| == 680 == CpuSlotsSize(l) && l.cpuStateSize == CPU_STATE_SIZE
    ensures PublishedSlot(b, l) == if ReadU64(b, 0) % 2 == 0 then b[24..352] else b[352..680]
  {
  }

  lemma SlotsRoundTrip(p: CpuSlots, l: Layout, cpu: nat)
    requires l.cpuStateSize == CPU_STATE_SIZE
    ensures |Flatten(CpuSlotsRows(p))| == CpuSlotsSize(l)
    ensures CpuAt(Flatten(CpuSlotsRows(p)), l, cpu) == SeenCpu(p, cpu)
  {
    var b := Flatten(CpuSlotsRows(p));
    SlotsPrefix(p);
    SlotSlices(p);
    SlotSelected(b, l);
    StateRoundTrip(SelectedState(p), cpu, p.writing, p.dropped);
  }

  function SeenCpus(m: Memory): seq<DecodedCpu> {
    seq(|m.cpus|, c requires 0 <= c < |m.cpus| => SeenCpu(m.cpus[c], c))
  }

  /** The CPU region of the image decodes to what every CPU published. */
  lemma CpusRoundTrip(m: Memory, l: Layout)
    requires l.maxCpus == |m.cpus| && l.cpuStateSize == CPU_STATE_SIZE && Sane(l)
    ensures |Flatten(CpuRegion(m))| == Area(l.maxCpus, CpuSlotsSize(l))
    ensures DecodeCpus(Flatten(CpuRegion(m)), l)
         == SeenCpus(m)
  {
    var chunks := seq(|m.cpus|, c requires 0 <= c < |m.cpus| => CpuSlotsRows(m.cpus[c]));
    ConcatLength(chunks, 85);
    assert l.maxCpus * (8 * 85) == 8 * (l.maxCpus * 85);
    RegionRoundTrip(m, l, chunks, Flatten(CpuRegion(m)));
  }

  lemma RegionRoundTrip(m: Memory, l: Layout, chunks: seq<seq<Row>>, region: seq<U8>)
    requires l.maxCpus == |m.cpus| && l.cpuStateSize == CPU_STATE_SIZE && Sane(l)
    requires chunks == seq(|m.cpus|, i requires 0 <= i < |m.cpus| => CpuSlotsRows(m.cpus[i]))
    requires region == Flatten(Concat(chunks)) && |region| == Area(l.maxCpus, CpuSlotsSize(l))
    ensures DecodeCpus(region, l) == SeenCpus(m)
  {
    forall c | 0 <= c < l.maxCpus
      ensures CpuAt(RecordAt(region, l.maxCpus, CpuSlotsSize(l), c), l, c) == SeenCpu(m.cpus[c], c)
    {
      CpuRoundTrip(m, l, chunks, c);
    }
  }

  lemma CpuRoundTrip(m: Memory, l: Layout, chunks: seq<seq<Row>>, c: nat)
    requires l.maxCpus == |m.cpus| && l.cpuStateSize == CPU_STATE_SIZE && c < |m.cpus|
    requires chunks == seq(|m.cpus|, i requires 0 <= i < |m.cpus| => CpuSlotsRows(m.cpus[i]))
    requires |Flatten(Concat(chunks))| == Area(l.maxCpus, CpuSlotsSize(l))
    ensures CpuAt(RecordAt(Flatten(Concat(chunks)), l.maxCpus, CpuSlotsSize(l), c), l, c) == SeenCpu(m.cpus[c], c)
  {
    RecordOfConcat(chunks, 85, c);
    SlotsRoundTrip(m.cpus[c], l, c);
  }

  // --- The event rings -----------------------------------------------------------------------------

  /** The events a reader accepts among sequences `from..next`. */
  function WindowEvents(r: EventRing, from: nat, next: nat): seq<DecodedEvent>
    requires |r.slots| > 0
    decreases next - from
  {
    if from >= next then []
    else
      var slot := r.slots[from % |r.slots|];
      var rest := WindowEvents(r, from + 1, next);
      if slot.sequence == from then [DecodedEvent(from, slot.event)] + rest else rest
  }

  lemma EventRoundTrip(s: EventSlot)
    ensures ReadU64(Flatten(EventSlotRows(s)), 0) == s.sequence
    ensures EventInSlot(Flatten(EventSlotRows(s))) == s.event
  {
    ReadRow64(EventSlotRows(s), 0, s.sequence);
    EventContents(EventSlotRows(s), s.event);
  }

  lemma EventContents(rows: seq<Row>, e: Event)
    requires |rows| == 8 && rows[1..] == EventRows(e)
    ensures EventInSlot(Flatten(rows)) == e
  {
    EventBody(rows);
    EventRowsRead(rows[1..8], e);
  }

  lemma EventBody(rows: seq<Row>)
    requires |rows| == 8
    ensures EventInSlot(Flatten(rows)) == EventAt(Flatten(rows[1..8]))
  {
    FlattenSlice(rows, 1, 8);
  }

  lemma EventRowsRead(tail: seq<Row>, e: Event)
    requires tail == EventRows(e)
    ensures EventAt(Flatten(tail)) == e
  {
    EventWordsRead(tail, Flatten(tail), e.tick, e.task, e.callerPc);
    EventArgumentsRead(tail, Flatten(tail), e.arg0, e.arg1, e.arg2);
    ReadRow1616_32(tail, 2, e.kind, e.cpu, e.flags);
  }

  lemma EventWordsRead(tail: seq<Row>, b: seq<U8>, tick: U64, task: U64, callerPc: U64)
    requires |tail| == 7 && b == Flatten(tail)
    requires tail[0] == Row64(tick) && tail[1] == Row64(task) && tail[3] == Row64(callerPc)
    ensures ReadU64(b, 0) == tick && ReadU64(b, 8) == task && ReadU64(b, 24) == callerPc
  {
    ReadRow64(tail, 0, tick);
    ReadRow64(tail, 1, task);
    ReadRow64(tail, 3, callerPc);
  }

  lemma EventArgumentsRead(tail: seq<Row>, b: seq<U8>, arg0: U64, arg1: U64, arg2: U64)
    requires |tail| == 7 && b == Flatten(tail)
    requires tail[4] == Row64(arg0) && tail[5] == Row64(arg1) && tail[6] == Row64(arg2)
    ensures ReadU64(b, 32) == arg0 && ReadU64(b, 40) == arg1 && ReadU64(b, 48) == arg2
  {
    ReadRow64(tail, 4, arg0);
    ReadRow64(tail, 5, arg1);
    ReadRow64(tail, 6, arg2);
  }

  function SlotChunks(r: EventRing): seq<seq<Row>> {
    seq(|r.slots|, i requires 0 <= i < |r.slots| => EventSlotRows(r.slots[i]))
  }

  lemma RingBytesShape(r: EventRing)
    ensures |EventRingRows(r)| == 2 + 8 * |r.slots|
    ensures var b := Flatten(EventRingRows(r));
            && |b| == CPU_EVENTS_PREFIX + Area(|r.slots|, 64)
            && b[CPU_EVENTS_PREFIX..] == Flatten(Concat(SlotChunks(r)))
            && ReadU64(b, 0) == r.next && ReadU64(b, 8) == r.dropped
  {
    var rows := EventRingRows(r);
    var prefix := [Row64(r.next), Row64(r.dropped)];
    ConcatLength(SlotChunks(r), 8);
    FlattenAppend(prefix, Concat(SlotChunks(r)));
    ReadRow64(rows, 0, r.next);
    ReadRow64(rows, 1, r.dropped);
  }

  lemma {:induction false} EventsRoundTrip(r: EventRing, l: Layout, from: nat, next: nat)
    requires Sane(l) && l.capacity == |r.slots| && l.eventSize == EVENT_SIZE
    ensures |Flatten(EventRingRows(r))| == CpuEventsSize(l)
    ensures EventsFrom(Flatten(EventRingRows(r)), l, from, next) == WindowEvents(r, from, next)
    decreases next - from
  {
    RingBytesShape(r);
    if from < next {
      EventsRoundTrip(r, l, from + 1, next);
      RecordOfConcat(SlotChunks(r), 8, from % l.capacity);
      EventRoundTrip(r.slots[from % l.capacity]);
    }
  }

  function SeenEvents(r: EventRing, limit: nat): seq<DecodedEvent>
    requires |r.slots| > 0
  {
    WindowEvents(r, WindowStart(r.next, limit, |r.slots|), r.next)
  }

  function RingChunks(m: Memory): seq<seq<Row>> {
    seq(|m.events|, c requires 0 <= c < |m.events| => EventRingRows(m.events[c]))
  }

  lemma OneRing(r: EventRing, l: Layout, limit: nat, c: nat)
    requires Sane(l) && l.eventSize == EVENT_SIZE && |r.slots| == l.capacity
    ensures |EventRingRows(r)| == 2 + 8 * l.capacity
    ensures |Flatten(EventRingRows(r))| == CpuEventsSize(l)
    ensures MetaAt(Flatten(EventRingRows(r)), c) == EventMeta(c, r.next, r.dropped)
    ensures RingEvents(Flatten(EventRingRows(r)), l, limit) == SeenEvents(r, limit)
  {
    RingBytesShape(r);
    EventsRoundTrip(r, l, WindowStart(r.next, limit, l.capacity), r.next);
  }

  lemma RingRecords(m: Memory, l: Layout, c: nat)
    requires Sane(l) && l.maxCpus == |m.events| && l.eventSize == EVENT_SIZE && c < |m.events|
    requires forall c :: 0 <= c < |m.events| ==> |m.events[c].slots| == l.capacity
    ensures |Flatten(EventRegion(m))| == Area(l.maxCpus, CpuEventsSize(l))
    ensures RecordAt(Flatten(EventRegion(m)), l.maxCpus, CpuEventsSize(l), c) == Flatten(EventRingRows(m.events[c]))
  {
    var chunks := RingChunks(m);
    var size := 2 + 8 * l.capacity;
    forall j | 0 <= j < |chunks| ensures |chunks[j]| == size {
      RingBytesShape(m.events[j]);
    }
    assert 8 * size == CpuEventsSize(l);
    RecordOfConcat(chunks, size, c);
  }

  lemma RingsRoundTrip(m: Memory, l: Layout, limit: nat)
    requires Sane(l) && 0 < l.maxCpus == |m.events| && l.eventSize == EVENT_SIZE
    requires forall c :: 0 <= c < |m.events| ==> |m.events[c].slots| == l.capacity
    ensures |Flatten(EventRegion(m))| == Area(l.maxCpus, CpuEventsSize(l))
    ensures DecodeMeta(Flatten(EventRegion(m)), l)
         == seq(|m.events|, c requires 0 <= c < |m.events| => EventMeta(c, m.events[c].next, m.events[c].dropped))
    ensures DecodeRings(Flatten(EventRegion(m)), l, limit)
         == seq(|m.events|, c requires 0 <= c < |m.events| => SeenEvents(m.events[c], limit))
  {
    RingRecords(m, l, 0);
    MetasDecode(m, l, Flatten(EventRegion(m)));
    RingsDecode(m, l, Flatten(EventRegion(m)), limit);
  }

  lemma MetasDecode(m: Memory, l: Layout, region: seq<U8>)
    requires Sane(l) && 0 < l.maxCpus == |m.events| && l.eventSize == EVENT_SIZE
    requires forall c :: 0 <= c < |m.events| ==> |m.events[c].slots| == l.capacity
    requires region == Flatten(EventRegion(m)) && |region| == Area(l.maxCpus, CpuEventsSize(l))
    ensures DecodeMeta(region, l)
         == seq(|m.events|, c requires 0 <= c < |m.events| => EventMeta(c, m.events[c].next, m.events[c].dropped))
  {
    forall c | 0 <= c < l.maxCpus
      ensures RecordAt(region, l.maxCpus, CpuEventsSize(l), c) == Flatten(EventRingRows(m.events[c]))
      ensures MetaAt(Flatten(EventRingRows(m.events[c])), c) == EventMeta(c, m.events[c].next, m.events[c].dropped)
    {
      RingRecords(m, l, c);
      OneRing(m.events[c], l, 0, c);
    }
  }

  lemma RingsDecode(m: Memory, l: Layout, region: seq<U8>, limit: nat)
    requires Sane(l) && 0 < l.maxCpus == |m.events| && l.eventSize == EVENT_SIZE
    requires forall c :: 0 <= c < |m.events| ==> |m.events[c].slots| == l.capacity
    requires region == Flatten(EventRegion(m)) && |region| == Area(l.maxCpus, CpuEventsSize(l))
    ensures DecodeRings(region, l, limit)
         == seq(|m.events|, c requires 0 <= c < |m.events| => SeenEvents(m.events[c], limit))
  {
    forall c | 0 <= c < l.maxCpus
      ensures RecordAt(region, l.maxCpus, CpuEventsSize(l), c) == Flatten(EventRingRows(m.events[c]))
      ensures RingEvents(Flatten(EventRingRows(m.events[c])), l, limit) == SeenEvents(m.events[c], limit)
    {
      RingRecords(m, l, c);
      OneRing(m.events[c], l, limit, c);
    }
  }

  // --- The header and the whole image ------------------------------------------------------------------

  function LayoutOf(m: Memory, maxCpus: U16, capacity: U16): Layout {
    Layout(1, m.arch, UpToNul(m.buildId), maxCpus, capacity, CPU_STATE_SIZE, EVENT_SIZE)
  }

  lemma IdRowsFlatten(id: seq<U8>)
    requires |id| == 64
    ensures Flatten(IdRows(id)) == id
  {
    var rows := IdRows(id);
    forall k | 0 <= k < 8 ensures Flatten(rows)[8 * k..8 * k + 8] == id[8 * k..8 * k + 8] {
      FlattenRow(rows, k);
    }
    EightParts(Flatten(rows), id);
  }

  lemma EightParts(a: seq<U8>, b: seq<U8>)
    requires |a| == |b| == 64
    requires forall k :: 0 <= k < 8 ==> a[8 * k..8 * k + 8] == b[8 * k..8 * k + 8]
    ensures a == b
  {
    forall i | 0 <= i < 64 ensures a[i] == b[i] {
      var k := i / 8;
      assert a[8 * k..8 * k + 8][i - 8 * k] == b[8 * k..8 * k + 8][i - 8 * k];
    }
  }

  lemma BuildIdBytes(fields: seq<Row>, id: seq<U8>)
    requires |fields| == 4 && |id| == 64
    ensures Flatten(fields + IdRows(id))[32..96] == id
  {
    FlattenAppend(fields, IdRows(id));
    IdRowsFlatten(id);
    TwoParts(Flatten(fields + IdRows(id)), Flatten(fields), id);
  }

  lemma TwoParts<T>(data: seq<T>, a: seq<T>, b: seq<T>)
    requires data == a + b
    ensures data[|a|..|a| + |b|] == b
  {
  }

  lemma HeaderFields(rows: seq<Row>, maxCpus: U16, capacity: U16, arch: U16)
    requires |rows| == 12 && rows[0] == Row64(DEBUG_MAGIC) && rows[1] == Row32_1616(1, maxCpus, capacity)
    requires rows[2] == Row32(CPU_STATE_SIZE, EVENT_SIZE) && rows[3] == Row32_1616(64, arch, 0)
    ensures var h := Flatten(rows);
            && ReadU64(h, 0) == DEBUG_MAGIC && ReadU32(h, 8) == 1 && ReadU16(h, 12) == maxCpus
            && ReadU16(h, 14) == capacity && ReadU32(h, 16) == CPU_STATE_SIZE && ReadU32(h, 20) == EVENT_SIZE
            && ReadU32(h, 24) == 64 && ReadU16(h, 28) == arch
  {
    ReadRow64(rows, 0, DEBUG_MAGIC);
    ReadRow32_1616(rows, 1, 1, maxCpus, capacity);
    ReadRow32(rows, 2, CPU_STATE_SIZE, EVENT_SIZE);
    ReadRow32_1616(rows, 3, 64, arch, 0);
  }

  lemma HeaderRoundTrip(m: Memory, maxCpus: U16, capacity: U16)
    requires Built(m, maxCpus, capacity)
    ensures ParseLayout(Flatten(HeaderRows(m, maxCpus, capacity)))
         == if m.arch == 1 || m.arch == 2 then Ok(LayoutOf(m, maxCpus, capacity)) else Err(BadArch)
  {
    HeaderFields(HeaderRows(m, maxCpus, capacity), maxCpus, capacity, m.arch);
    BuildIdBytes(HeaderRows(m, maxCpus, capacity)[..4], m.buildId);
    assert HeaderRows(m, maxCpus, capacity) == HeaderRows(m, maxCpus, capacity)[..4] + IdRows(m.buildId);
  }

  function Seen(m: Memory, maxCpus: U16, capacity: U16, limit: nat): Decoded
    requires forall c :: 0 <= c < |m.events| ==> |m.events[c].slots| > 0
  {
    Decoded(LayoutOf(m, maxCpus, capacity),
            SeenCpus(m),
            seq(|m.events|, c requires 0 <= c < |m.events| => EventMeta(c, m.events[c].next, m.events[c].dropped)),
            SortEvents(Concat(seq(|m.events|, c requires 0 <= c < |m.events| => SeenEvents(m.events[c], limit)))))
  }

  /** The round trip: for every CPU count, event capacity and contents, the image is exactly as long
      as the layout says and decodes to the published states, the held locks, the in-window
      events and the build id. Only an architecture other than the two supported ones is refused. */
  lemma ImageRoundTrip(m: Memory, maxCpus: U16, capacity: U16, limit: nat)
    requires Built(m, maxCpus, capacity)
    ensures |Image(m, maxCpus, capacity)| == TotalSize(LayoutOf(m, maxCpus, capacity))
    ensures Decode(Image(m, maxCpus, capacity), limit)
         == if m.arch == 1 || m.arch == 2 then Ok(Seen(m, maxCpus, capacity, limit)) else Err(BadArch)
  {
    var l := LayoutOf(m, maxCpus, capacity);
    ImageRegions(m, maxCpus, capacity);
    HeaderRoundTrip(m, maxCpus, capacity);
    CpusRoundTrip(m, l);
    RingsRoundTrip(m, l, limit);
  }

  /** Where the regions lie in the image. */
  lemma ImageRegions(m: Memory, maxCpus: U16, capacity: U16)
    requires Built(m, maxCpus, capacity)
    ensures var data, l := Image(m, maxCpus, capacity), LayoutOf(m, maxCpus, capacity);
            && |data| == TotalSize(l) >= HEADER_SIZE && data[..HEADER_SIZE] == Flatten(HeaderRows(m, maxCpus, capacity))
            && CpuBytes(data, l) == Flatten(CpuRegion(m)) && RingBytes(data, l) == Flatten(EventRegion(m))
  {
    var l := LayoutOf(m, maxCpus, capacity);
    var header, cpus, rings := HeaderRows(m, maxCpus, capacity), CpuRegion(m), EventRegion(m);
    FlattenParts(header, cpus, rings);
    CpusRoundTrip(m, l);
    RingsRoundTrip(m, l, 0);
    ThreeParts(Image(m, maxCpus, capacity), Flatten(header), Flatten(cpus), Flatten(rings));
  }

  // --- The embedded build id ---------------------------------------------------------------------------

  /** At most 63 bytes of the source, padded with zeros. */
  function BuildIdOf(source: seq<U8>): (id: seq<U8>)
    ensures |id| == 64
  {
    var n := Min(|source|, 63);
    source[..n] + seq(64 - n, _ => 0)
  }

  method BuildId(source: seq<U8>) returns (out: array<U8>)
    ensures fresh(out) && out[..] == BuildIdOf(source)
  {
    out := new U8[64](_ => 0);
    var i := 0;
    while i < |source| && i < out.Length - 1
      invariant 0 <= i <= Min(|source|, 63)
      invariant forall k :: 0 <= k < 64 ==> out[k] == if k < i then source[k] else 0
    {
      out[i] := source[i];
      i := i + 1;
    }
    assert forall k :: 0 <= k < 64 ==> out[..][k] == BuildIdOf(source)[k];
  }

  lemma {:induction false} UpToNulUnique(s: seq<U8>, n: nat)
    requires n < |s| && s[n] == 0 && 0 !in s[..n]
    ensures UpToNul(s) == s[..n]
  {
    if n > 0 {
      assert s[..n][0] == s[0] && s[1..][..n - 1] == s[..n][1..];
      UpToNulUnique(s[1..], n - 1);
    }
  }

  /** A build id without NUL bytes is read back up to its first 63 bytes, so the host can tell
      apart any two builds whose ids differ there. */
  lemma BuildIdRoundTrip(source: seq<U8>)
    requires 0 !in source
    ensures UpToNul(BuildIdOf(source)) == source[..Min(|source|, 63)]
  {
    var n := Min(|source|, 63);
    assert BuildIdOf(source)[..n] == source[..n];
    UpToNulUnique(BuildIdOf(source), n);
  }
}
