/** From a lock step in the kernel to the verdict on the host, through the bytes of the static. */
module EndToEnd {
  import opened Wrappers
  import opened DebugState
  import opened LockProtocol
  import opened LockInvariant
  import opened DeadlockVerdict
  import opened DebugAbi
  import opened DebugRoundTrip
  import opened VerdictCompleteness
  import opened StallClass
  import opened RemoteSample
  import opened FullSample

  /** What the watching host does with a stopped machine: take a sample, then name the stall. */
  method Classify(memory: seq<U8>, arch: U16, pcs: seq<Option<U64>>, local: seq<U8>, remote: Option<seq<U8>>,
                  baseline: Option<Sample>)
    returns (r: Result<StallResult, CollectError>)
    ensures match StateRead(memory, arch, |pcs|)
            case Err(e) => r == Err(Failed(e))
            case Ok(d) =>
              if SameBuild(local, remote, d.layout) then r.Ok? && Explains(Sample(Some(d), pcs), baseline, r.value)
              else r == Err(BuildMismatch)
  {
    var d := CollectSample(memory, arch, |pcs|, false, local, remote);
    if d.Err? {
      return Err(d.error);
    }
    var stall := ClassifyStall(Sample(Some(d.value), pcs), baseline);
    return Ok(stall);
  }

  predicate AllShaped(s: System) {
    forall c :: 0 <= c < |s.cpus| ==> Shape(s.cpus[c])
  }

  /** The diagnostic memory of a machine state; `dropped` is a 64-bit counter. */
  function MemoryOf(s: System, arch: U16, buildId: seq<U8>, events: seq<EventRing>): Memory
    requires AllShaped(s)
  {
    Memory(arch, buildId,
           seq(|s.cpus|, c requires 0 <= c < |s.cpus| => SlotsOf(s.cpus[c])),
           events)
  }

  function SlotsOf(u: Cpu): CpuSlots requires Shape(u) {
    CpuSlots(u.published, u.writing, u.dropped % 0x1_0000_0000_0000_0000, u.slots[0], u.slots[1])
  }

  /** CPUs that the debugger does not see have never run. */
  ghost predicate Unseen(s: System, threads: nat) {
    forall c :: 1 <= c < |s.cpus| && threads <= c ==> s.cpus[c] == INITIAL_CPU
  }

  /** A CPU records an injected fault of mode two, for which the host answers "lock-deadlock". */
  ghost predicate FaultInjected(s: System)
    requires AllShaped(s)
  {
    exists c :: 0 <= c < |s.cpus| && View(s.cpus[c]).core.lastScheduleReason == DEBUG_FAULT_REASON_BASE + 2
  }

  /** What classification needs of a CPU. */
  ghost predicate ShownAs(d: DecodedCpu, v: CpuState) {
    && d.waiting == v.waiting && d.held == HeldList(v)
    && (InjectedOn(d, 2) ==> v.core.lastScheduleReason == DEBUG_FAULT_REASON_BASE + 2)
  }

  lemma SeenIsShown(u: Cpu, c: nat)
    requires Shape(u)
    ensures ShownAs(SeenCpu(SlotsOf(u), c), View(u))
  {
    assert SelectedState(SlotsOf(u)) == View(u);
  }

  lemma BlankIsShown(c: nat)
    ensures ShownAs(BlankCpu(c), View(INITIAL_CPU))
  {
  }

  lemma DecodedParts(data: seq<U8>, limit: nat)
    requires Decode(data, limit).Ok?
    ensures var d := Decode(data, limit).value;
            && HEADER_SIZE <= TotalSize(d.layout) <= |data| && ParseLayout(data[..HEADER_SIZE]) == Ok(d.layout)
            && d.cpus == DecodeCpus(CpuBytes(data, d.layout), d.layout)
  {
    assert |data| >= HEADER_SIZE;
  }

  lemma ImageHeader(m: Memory, maxCpus: U16, capacity: U16)
    requires Built(m, maxCpus, capacity) && (m.arch == 1 || m.arch == 2)
    ensures var data, l := Image(m, maxCpus, capacity), LayoutOf(m, maxCpus, capacity);
            && |data| == TotalSize(l) >= HEADER_SIZE && ParseLayout(data[..HEADER_SIZE]) == Ok(l)
            && DecodeCpus(CpuBytes(data, l), l) == SeenCpus(m)
  {
    ImageRoundTrip(m, maxCpus, capacity, 0);
    DecodedParts(Image(m, maxCpus, capacity), 0);
  }

  lemma SampleShowsCpu(s: System, m: Memory, maxCpus: U16, capacity: U16, observed: nat, c: nat)
    requires AllShaped(s) && m == MemoryOf(s, m.arch, m.buildId, m.events) && Unseen(s, observed)
    requires Built(m, maxCpus, capacity) && (m.arch == 1 || m.arch == 2) && 1 <= observed <= maxCpus && c < maxCpus
    ensures var data, l := Image(m, maxCpus, capacity), LayoutOf(m, maxCpus, capacity);
            && |data| == TotalSize(l)
            && ShownAs(DecodeCpus(CpuBytes(Sparse(data, l, observed), l), l)[c], View(s.cpus[c]))
  {
    var data, l := Image(m, maxCpus, capacity), LayoutOf(m, maxCpus, capacity);
    ImageHeader(m, maxCpus, capacity);
    SampleShowsCpus(data, l, observed, c);
    if c < observed {
      SeenIsShown(s.cpus[c], c);
      assert SeenCpus(m)[c] == SeenCpu(m.cpus[c], c);
    } else {
      BlankIsShown(c);
    }
  }

  /** Every CPU is shown as it is published. */
  ghost predicate ShowsSystem(d: Decoded, s: System)
    requires AllShaped(s)
  {
    |d.cpus| == |s.cpus| && forall c :: 0 <= c < |s.cpus| ==> ShownAs(d.cpus[c], View(s.cpus[c]))
  }

  lemma SparseShowsSystem(s: System, m: Memory, maxCpus: U16, capacity: U16, observed: nat)
    requires AllShaped(s) && m == MemoryOf(s, m.arch, m.buildId, m.events) && Unseen(s, observed)
    requires Built(m, maxCpus, capacity) && (m.arch == 1 || m.arch == 2) && 1 <= observed <= maxCpus
    ensures var l := LayoutOf(m, maxCpus, capacity);
            ShowsSystem(WithoutEvents(Sparse(Image(m, maxCpus, capacity), l, observed), l), s)
  {
    var data, l := Image(m, maxCpus, capacity), LayoutOf(m, maxCpus, capacity);
    var d := WithoutEvents(Sparse(data, l, observed), l);
    assert |d.cpus| == |s.cpus|;
    forall c | 0 <= c < |s.cpus| ensures ShownAs(d.cpus[c], View(s.cpus[c])) {
      SampleShowsCpu(s, m, maxCpus, capacity, observed, c);
    }
  }

  /** What the host decodes of its sample. */
  ghost function SampleOf(m: Memory, maxCpus: U16, capacity: U16, threads: nat): Decoded
    requires Built(m, maxCpus, capacity)
  {
    var l := LayoutOf(m, maxCpus, capacity);
    WithoutEvents(Sparse(Image(m, maxCpus, capacity), l, Observed(l, threads)), l)
  }

  lemma ImageIsRead(m: Memory, maxCpus: U16, capacity: U16, threads: nat)
    requires Built(m, maxCpus, capacity) && (m.arch == 1 || m.arch == 2)
    ensures StateRead(Image(m, maxCpus, capacity), m.arch, threads) == Ok(SampleOf(m, maxCpus, capacity, threads))
  {
    ImageHeader(m, maxCpus, capacity);
    StateIsRead(Image(m, maxCpus, capacity), LayoutOf(m, maxCpus, capacity), threads);
  }

  /** The sample shows every CPU as it is published, although it contains only part of the bytes. */
  lemma SampleShowsSnapshot(s: System, m: Memory, maxCpus: U16, capacity: U16, threads: nat)
    requires AllShaped(s) && m == MemoryOf(s, m.arch, m.buildId, m.events) && Unseen(s, threads)
    requires Built(m, maxCpus, capacity) && (m.arch == 1 || m.arch == 2)
    ensures StateRead(Image(m, maxCpus, capacity), m.arch, threads) == Ok(SampleOf(m, maxCpus, capacity, threads))
    ensures ShowsSystem(SampleOf(m, maxCpus, capacity, threads), s)
  {
    ImageIsRead(m, maxCpus, capacity, threads);
    SparseShowsSystem(s, m, maxCpus, capacity, Observed(LayoutOf(m, maxCpus, capacity), threads));
  }

  lemma ShownViews(s: System, d: Decoded)
    requires AllShaped(s) && ShowsSystem(d, s)
    ensures Views(d.cpus) == Snapshot(s) && (Injected(d, 2) ==> FaultInjected(s))
  {
    forall c | 0 <= c < |s.cpus| ensures Views(d.cpus)[c] == Snapshot(s)[c] {
      assert ShownAs(d.cpus[c], View(s.cpus[c]));
    }
  }

  /** `r` is what the host answers when it samples a machine in state `s`. */
  ghost predicate Answers(s: System, arch: U16, buildId: seq<U8>, events: seq<EventRing>, maxCpus: U16, capacity: U16,
                          pcs: seq<Option<U64>>, baseline: Option<Sample>, r: StallResult)
    requires AllShaped(s)
  {
    && Unseen(s, |pcs|) && Built(MemoryOf(s, arch, buildId, events), maxCpus, capacity) && (arch == 1 || arch == 2)
    && var d := StateRead(Image(MemoryOf(s, arch, buildId, events), maxCpus, capacity), arch, |pcs|);
       d.Ok? ==> Explains(Sample(Some(d.value), pcs), baseline, r)
  }

  /** The sample can be read, and without an injected fault the answer is "lock-deadlock" exactly when
      the edges of the lock snapshot have a cycle. */
  lemma AnswerIsReport(s: System, arch: U16, buildId: seq<U8>, events: seq<EventRing>, maxCpus: U16, capacity: U16,
                       pcs: seq<Option<U64>>, baseline: Option<Sample>, r: StallResult)
    requires AllShaped(s) && Answers(s, arch, buildId, events, maxCpus, capacity, pcs, baseline, r)
    ensures StateRead(Image(MemoryOf(s, arch, buildId, events), maxCpus, capacity), arch, |pcs|).Ok?
    ensures !FaultInjected(s) ==> (r == Ok(LockDeadlock) <==> Reports(s))
  {
    var m := MemoryOf(s, arch, buildId, events);
    SampleShowsSnapshot(s, m, maxCpus, capacity, |pcs|);
    var d := SampleOf(m, maxCpus, capacity, |pcs|);
    ShownViews(s, d);
    DeadlockMeans(Sample(Some(d), pcs), baseline, r);
  }

  /** End to end: stop the machine anywhere in a run, sample its memory, and let the host classify it,
      with any earlier sample for comparison. If it says "lock-deadlock" and no such fault was injected,
      then a ring of CPUs is blocked from that state on, each on a lock that the next one holds,
      whatever happens after the stop. Until then, no handler may have contended inside a release
      window. */
  lemma VerdictFromBytes(states: seq<System>, i: nat, arch: U16, buildId: seq<U8>, events: seq<EventRing>,
                         maxCpus: U16, capacity: U16, pcs: seq<Option<U64>>, baseline: Option<Sample>, r: StallResult)
    requires AnyRun(states) && i < |states| && Run(states[..i + 1])
    ensures AllShaped(states[i])
    ensures Answers(states[i], arch, buildId, events, maxCpus, capacity, pcs, baseline, r)
            && !FaultInjected(states[i]) && r == Ok(LockDeadlock) ==>
              exists ring :: DeadlockedFrom(states, i, ring)
  {
    AnyRunKeepsMutexes(states, i);
    if Answers(states[i], arch, buildId, events, maxCpus, capacity, pcs, baseline, r)
       && !FaultInjected(states[i]) && r == Ok(LockDeadlock) {
      AnswerIsReport(states[i], arch, buildId, events, maxCpus, capacity, pcs, baseline, r);
      ReportIsFinal(states, i);
    }
  }

  /** And the answer is exact: in every run it says so if and only if there is a ring whose waits are
      all announced and whose locks are all listed, by nobody later than their owner. */
  lemma ExactFromBytes(states: seq<System>, i: nat, arch: U16, buildId: seq<U8>, events: seq<EventRing>,
                       maxCpus: U16, capacity: U16, pcs: seq<Option<U64>>, baseline: Option<Sample>, r: StallResult)
    requires Run(states) && i < |states|
    ensures AllShaped(states[i])
    ensures Answers(states[i], arch, buildId, events, maxCpus, capacity, pcs, baseline, r) && !FaultInjected(states[i]) ==>
              (r == Ok(LockDeadlock) <==>
                 exists ring :: Deadlocked(states[i], ring) && Named(ring) && Shown(states[i], ring))
  {
    RunKeeps(states, i);
    if Answers(states[i], arch, buildId, events, maxCpus, capacity, pcs, baseline, r) && !FaultInjected(states[i]) {
      AnswerIsReport(states[i], arch, buildId, events, maxCpus, capacity, pcs, baseline, r);
      VerdictIsExact(states, i);
    }
  }

  /** In runs whose handlers leave tracked locks alone and whose CPUs hold at most eight of them, all
      waits are announced and all locks listed, so only a half-done release can hide a ring. */
  lemma QuietExactFromBytes(states: seq<System>, i: nat, arch: U16, buildId: seq<U8>, events: seq<EventRing>,
                            maxCpus: U16, capacity: U16, pcs: seq<Option<U64>>, baseline: Option<Sample>, r: StallResult)
    requires ClassRun(states, maxCpus, false, false) && i < |states|
    ensures AllShaped(states[i])
    ensures Answers(states[i], arch, buildId, events, maxCpus, capacity, pcs, baseline, r) && !FaultInjected(states[i]) ==>
              (r == Ok(LockDeadlock) <==>
                 exists ring :: Deadlocked(states[i], ring) && Named(ring) && !Hidden(states[i], ring))
  {
    QuietRunKeeps(states, maxCpus, i);
    if Answers(states[i], arch, buildId, events, maxCpus, capacity, pcs, baseline, r) && !FaultInjected(states[i]) {
      AnswerIsReport(states[i], arch, buildId, events, maxCpus, capacity, pcs, baseline, r);
      QuietVerdictIsExact(states, maxCpus, i);
    }
  }

  /** A sample taken while watching holds no events, so the two stalls that are told from events are
      never named. */
  lemma WatchSeesNoEvents(memory: seq<U8>, arch: U16, pcs: seq<Option<U64>>, baseline: Option<Sample>, r: StallResult)
    requires StateRead(memory, arch, |pcs|).Ok?
    requires Explains(Sample(Some(StateRead(memory, arch, |pcs|).value), pcs), baseline, r)
    ensures r != Ok(TlbShootdownWait) && r != Ok(IpiDeliveryWait)
  {
    NoEventsAreRead(memory, arch, |pcs|);
    EventsAreNeeded(Sample(Some(StateRead(memory, arch, |pcs|).value), pcs), baseline, r);
  }
}
