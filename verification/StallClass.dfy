/** `classify_stall`: what the host calls a machine that has stopped making progress. */
module StallClass {
  import opened Wrappers
  import opened DebugState
  import opened DeadlockVerdict
  import opened DebugAbi

  /** What one remote sample has: the decoded state, if it could be read, and the program counters. */
  datatype Sample = Sample(debug: Option<Decoded>, pcs: seq<Option<U64>>)

  datatype Stall =
    | LockDeadlock
    | LockWaitStall
    | FixedPcLoop
    | InterruptOrTimerStall
    | SchedulerStarvation
    | TlbShootdownWait
    | IpiDeliveryWait
    | UnknownStall

  /** The baseline has no CPU of this number. */
  datatype Missing = Missing(cpu: nat)

  type StallResult = Result<Stall, Missing>

  const DEBUG_FAULT_REASON_BASE: U32 := 0xF017_0000
  const IPI_SEND: U16 := 11
  const IPI_RECEIVE: U16 := 12
  const TLB_SHOOTDOWN: U16 := 15

  function Views(cpus: seq<DecodedCpu>): seq<CpuView> {
    seq(|cpus|, c requires 0 <= c < |cpus| => CpuView(cpus[c].waiting, cpus[c].held))
  }

  predicate Online(c: DecodedCpu) { c.core.flags % 2 == 1 }

  predicate NeedsResched(c: DecodedCpu) { c.core.flags / 8 % 2 == 1 }

  // --- What the answer means ------------------------------------------------------------------------------

  ghost predicate Cyclic(d: Decoded) { HasCycle(WaitsFor(Views(d.cpus))) }

  ghost predicate Waits(d: Decoded) { exists c :: 0 <= c < |d.cpus| && d.cpus[c].waiting.kind != 0 }

  /** Some CPU records that a fault of this mode was injected. */
  ghost predicate Injected(d: Decoded, mode: nat) {
    exists c :: 0 <= c < |d.cpus| && InjectedOn(d.cpus[c], mode)
  }

  predicate InjectedOn(c: DecodedCpu, mode: nat) {
    mode < 0x1_0000 && c.core.lastScheduleReason == DEBUG_FAULT_REASON_BASE + mode
  }

  /** Some CPU has work queued and its request to reschedule is not served. */
  ghost predicate Starved(d: Decoded) { exists c :: 0 <= c < |d.cpus| && StarvedOn(d.cpus[c]) }

  predicate StarvedOn(c: DecodedCpu) { NeedsResched(c) && exists i :: 0 <= i < 5 && c.core.runnable[i] != 0 }

  /** An online CPU took no timer interrupt since the baseline. */
  ghost predicate TimerStopped(d: Decoded, earlier: Decoded) {
    exists c :: 0 <= c < |d.cpus| && c < |earlier.cpus| && Online(d.cpus[c])
                && d.cpus[c].core.timerTicks == earlier.cpus[c].core.timerTicks
  }

  ghost predicate NotInBaseline(d: Decoded, earlier: Decoded, c: nat) {
    |earlier.cpus| <= c < |d.cpus| && Online(d.cpus[c])
  }

  /** Among the latest sixteen events there is one of this kind. */
  ghost predicate Recent(d: Decoded, kind: U16) {
    exists i :: 0 <= i < |d.events| && |d.events| - 16 <= i && d.events[i].event.kind == kind
  }

  ghost predicate AtMostTwo(pcs: seq<Option<U64>>) { |set p | p in pcs| <= 2 }

  /** `r` is the answer: the first of these causes that applies, in the order of their authority. */
  ghost predicate Explains(sample: Sample, baseline: Option<Sample>, r: StallResult) {
    match sample.debug
    case None => r == Ok(ByRegisters(sample, baseline))
    case Some(d) =>
      if Cyclic(d) then r == Ok(LockDeadlock)
      else if Waits(d) then r == Ok(LockWaitStall)
      else if Injected(d, 1) then r == Ok(FixedPcLoop)
      else if Injected(d, 2) then r == Ok(LockDeadlock)
      else if Injected(d, 3) then r == Ok(InterruptOrTimerStall)
      else if Injected(d, 4) || Starved(d) then r == Ok(SchedulerStarvation)
      else if baseline.Some? && baseline.value.debug.Some? && TimerStopped(d, baseline.value.debug.value) then
        r == Ok(InterruptOrTimerStall)
      else if baseline.Some? && baseline.value.debug.Some? && exists c: nat :: NotInBaseline(d, baseline.value.debug.value, c) then
        r.Err? && NotInBaseline(d, baseline.value.debug.value, r.error.cpu)
        && forall c: nat :: NotInBaseline(d, baseline.value.debug.value, c) ==> r.error.cpu <= c
      else r == Ok(ByEvents(d, sample, baseline))
  }

  ghost function ByEvents(d: Decoded, sample: Sample, baseline: Option<Sample>): Stall {
    if Recent(d, TLB_SHOOTDOWN) then TlbShootdownWait
    else if Recent(d, IPI_SEND) && !Recent(d, IPI_RECEIVE) then IpiDeliveryWait
    else ByRegisters(sample, baseline)
  }

  ghost function ByRegisters(sample: Sample, baseline: Option<Sample>): Stall {
    if (baseline.Some? && baseline.value.pcs == sample.pcs) || AtMostTwo(sample.pcs) then FixedPcLoop else UnknownStall
  }

  // --- The loops --------------------------------------------------------------------------------------------

  /** The two lock verdicts, in their order. */
  method ClassifyLocks(d: Decoded) returns (r: Option<Stall>)
    ensures r == if Cyclic(d) then Some(LockDeadlock) else if Waits(d) then Some(LockWaitStall) else None
  {
    var edges := LockWaitEdges(Views(d.cpus));
    var deadlock := FindCycle(EdgeMap(edges));
    if deadlock {
      return Some(LockDeadlock);
    }
    for c := 0 to |d.cpus|
      invariant forall k :: 0 <= k < c ==> d.cpus[k].waiting.kind == 0
    {
      if d.cpus[c].waiting.kind != 0 {
        return Some(LockWaitStall);
      }
    }
    return None;
  }

  method FaultModes(cpus: seq<DecodedCpu>) returns (modes: set<nat>)
    ensures forall mode :: mode in modes <==> exists c :: 0 <= c < |cpus| && InjectedOn(cpus[c], mode)
  {
    modes := {};
    for c := 0 to |cpus|
      invariant forall mode :: mode in modes <==> exists k :: 0 <= k < c && InjectedOn(cpus[k], mode)
    {
      var reason := cpus[c].core.lastScheduleReason;
      if reason / 0x1_0000 * 0x1_0000 == DEBUG_FAULT_REASON_BASE {
        modes := modes + {reason % 0x1_0000};
      }
    }
  }

  method ClassifyFaults(d: Decoded) returns (r: Option<Stall>)
    ensures r == if Injected(d, 1) then Some(FixedPcLoop)
                 else if Injected(d, 2) then Some(LockDeadlock)
                 else if Injected(d, 3) then Some(InterruptOrTimerStall)
                 else if Injected(d, 4) || Starved(d) then Some(SchedulerStarvation)
                 else None
  {
    var modes := FaultModes(d.cpus);
    if 1 in modes {
      return Some(FixedPcLoop);
    }
    if 2 in modes {
      return Some(LockDeadlock);
    }
    if 3 in modes {
      return Some(InterruptOrTimerStall);
    }
    if 4 in modes {
      return Some(SchedulerStarvation);
    }
    for c := 0 to |d.cpus|
      invariant forall k :: 0 <= k < c ==> !StarvedOn(d.cpus[k])
    {
      if StarvedOn(d.cpus[c]) {
        return Some(SchedulerStarvation);
      }
    }
    return None;
  }

  /** The comparison with an earlier sample; it fails on the first online CPU that the baseline lacks. */
  method ClassifyTimer(d: Decoded, earlier: Decoded) returns (r: Option<StallResult>)
    ensures TimerStopped(d, earlier) ==> r == Some(Ok(InterruptOrTimerStall))
    ensures !TimerStopped(d, earlier) && (exists c: nat :: NotInBaseline(d, earlier, c)) ==>
              && r.Some? && r.value.Err? && NotInBaseline(d, earlier, r.value.error.cpu)
              && forall c: nat :: NotInBaseline(d, earlier, c) ==> r.value.error.cpu <= c
    ensures !TimerStopped(d, earlier) && !(exists c: nat :: NotInBaseline(d, earlier, c)) ==> r == None
  {
    for c := 0 to |d.cpus|
      invariant forall k :: 0 <= k < c && k < |earlier.cpus| && Online(d.cpus[k]) ==>
                  d.cpus[k].core.timerTicks != earlier.cpus[k].core.timerTicks
      invariant forall k: nat :: k < c ==> !NotInBaseline(d, earlier, k)
    {
      if Online(d.cpus[c]) {
        if c >= |earlier.cpus| {
          assert NotInBaseline(d, earlier, c);
          return Some(Err(Missing(c)));
        }
        if d.cpus[c].core.timerTicks == earlier.cpus[c].core.timerTicks {
          return Some(Ok(InterruptOrTimerStall));
        }
      }
    }
    return None;
  }

  method RecentKinds(events: seq<DecodedEvent>) returns (kinds: set<U16>)
    ensures forall kind :: kind in kinds <==>
              exists i :: 0 <= i < |events| && |events| - 16 <= i && events[i].event.kind == kind
  {
    var start := if |events| < 16 then 0 else |events| - 16;
    kinds := {};
    for i := start to |events|
      invariant forall kind :: kind in kinds <==> exists k :: start <= k < i && events[k].event.kind == kind
    {
      kinds := kinds + {events[i].event.kind};
    }
  }

  method ClassifyEvents(d: Decoded) returns (r: Option<Stall>)
    ensures r == if Recent(d, TLB_SHOOTDOWN) then Some(TlbShootdownWait)
                 else if Recent(d, IPI_SEND) && !Recent(d, IPI_RECEIVE) then Some(IpiDeliveryWait)
                 else None
  {
    var kinds := RecentKinds(d.events);
    if TLB_SHOOTDOWN in kinds {
      return Some(TlbShootdownWait);
    }
    if IPI_SEND in kinds && IPI_RECEIVE !in kinds {
      return Some(IpiDeliveryWait);
    }
    return None;
  }

  method ClassifyRegisters(sample: Sample, baseline: Option<Sample>) returns (r: Stall)
    ensures r == ByRegisters(sample, baseline)
  {
    if baseline.Some? && baseline.value.pcs == sample.pcs {
      return FixedPcLoop;
    }
    var distinct := set p | p in sample.pcs;
    return if |distinct| <= 2 then FixedPcLoop else UnknownStall;
  }

  method ClassifyStall(sample: Sample, baseline: Option<Sample>) returns (r: StallResult)
    ensures Explains(sample, baseline, r)
  {
    if sample.debug.Some? {
      var d := sample.debug.value;
      var early := ClassifyLocks(d);
      if early.None? {
        early := ClassifyFaults(d);
      }
      if early.Some? {
        return Ok(early.value);
      }
      if baseline.Some? && baseline.value.debug.Some? {
        var timer := ClassifyTimer(d, baseline.value.debug.value);
        if timer.Some? {
          return timer.value;
        }
      }
      var late := ClassifyEvents(d);
      if late.Some? {
        return Ok(late.value);
      }
    }
    var stall := ClassifyRegisters(sample, baseline);
    return Ok(stall);
  }

  // --- What follows -------------------------------------------------------------------------------------------

  lemma CycleNeedsWaiter(d: Decoded)
    requires Cyclic(d)
    ensures Waits(d)
  {
    var views := Views(d.cpus);
    var x: nat, n: nat :| CycleAt(WaitsFor(views), x, n);
    EdgeMapOfPrefix(views, |views|);
    assert x in WaitsFor(views);
  }

  /** The answer says deadlock in exactly two cases: a cycle, or an injected fault that asks for it while
      nobody waits; without a wait or such a fault no lock is ever blamed. Neither the baseline nor the
      registers matter. */
  lemma DeadlockMeans(sample: Sample, baseline: Option<Sample>, r: StallResult)
    requires Explains(sample, baseline, r)
    ensures r == Ok(LockDeadlock) <==>
              && sample.debug.Some?
              && var d := sample.debug.value;
                 Cyclic(d) || (!Waits(d) && Injected(d, 2) && !Injected(d, 1))
    ensures r == Ok(LockWaitStall) <==> sample.debug.Some? && Waits(sample.debug.value) && !Cyclic(sample.debug.value)
    ensures r == Ok(LockDeadlock) || r == Ok(LockWaitStall) ==> Waits(sample.debug.value) || Injected(sample.debug.value, 2)
  {
    if sample.debug.Some? && Cyclic(sample.debug.value) {
      CycleNeedsWaiter(sample.debug.value);
    }
  }

  /** Samples of one machine are always classified. */
  lemma SameMachineIsClassified(sample: Sample, baseline: Option<Sample>, r: StallResult)
    requires Explains(sample, baseline, r)
    requires sample.debug.Some? && baseline.Some? && baseline.value.debug.Some? ==>
               |sample.debug.value.cpus| <= |baseline.value.debug.value.cpus|
    ensures r.Ok?
  {
  }

  lemma EventsAreNeeded(sample: Sample, baseline: Option<Sample>, r: StallResult)
    requires Explains(sample, baseline, r) && (sample.debug.Some? ==> sample.debug.value.events == [])
    ensures r != Ok(TlbShootdownWait) && r != Ok(IpiDeliveryWait)
  {
  }
}
