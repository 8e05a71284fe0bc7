/** How far the deadlock verdict reaches: sound exactly when handlers do not contend inside another
frame's release window or there is one CPU. */
module VerdictLimits {
  import opened Wrappers
  import opened DebugState
  import opened LockProtocol
  import opened LockInvariant
  import opened DoubleBuffer
  import opened DeadlockVerdict

  // --- A false alarm when handlers contend in a release window ------------------------------

  ghost predicate EndsIn(states: seq<System>, s: System) {
    AnyRun(states) && states[|states| - 1] == s
  }

  lemma Extend(states: seq<System>, s: System, c: nat, a: Action) returns (more: seq<System>)
    requires EndsIn(states, s) && c < |s.cpus| && Shape(s.cpus[c]) && Enabled(s, c, a)
    ensures EndsIn(more, Next(s, c, a)) && more[0] == states[0]
  {
    more := states + [Next(s, c, a)];
    assert AnyStep(s, Next(s, c, a));
  }

  lemma ExtendByUpdate(states: seq<System>, s: System, c: nat) returns (more: seq<System>)
    requires EndsIn(states, s) && c < |s.cpus| && Shape(s.cpus[c]) && !s.cpus[c].writing
    requires TopPc(s.cpus[c]).Updating? && TopPc(s.cpus[c]).stage == Entered
    ensures EndsIn(more, s.(cpus := s.cpus[c := Settled(s.cpus[c])])) && more[0] == states[0]
  {
    var s1 := Next(s, c, Claim);
    more := Extend(states, s, c, Claim);
    var s2 := Next(s1, c, Write);
    more := Extend(more, s1, c, Write);
    var s3 := Next(s2, c, Publish);
    more := Extend(more, s2, c, Publish);
    var s4 := Next(s3, c, Unclaim);
    more := Extend(more, s3, c, Unclaim);
    assert s4.cpus[c] == Settled(s.cpus[c]);
    assert s4.cpus == s.cpus[c := Settled(s.cpus[c])];
    assert s4.locked == s.locked;
  }

  const A := LockRef(1, 0xA0)
  const B := LockRef(2, 0xB0)

  /** CPU 0 takes `A`, CPU 1 takes `B` and then waits for `A`; all others are idle. */
  lemma BothHold(n: nat) returns (states: seq<System>, s: System)
    requires n >= 2
    ensures EndsIn(states, s) && |states[0].cpus| == |s.cpus| == n && s.locked == {A, B}
    ensures forall c :: 0 <= c < 2 ==> Shape(s.cpus[c]) && !s.cpus[c].writing && |s.cpus[c].frames| == 1
    ensures forall c :: 2 <= c < n ==> s.cpus[c] == INITIAL_CPU
    ensures TopPc(s.cpus[0]) == Running && s.cpus[0].guards == map[A := 0]
    ensures Held(s.cpus[0]) == [A] && View(s.cpus[0]).waiting == NO_LOCK
    ensures TopPc(s.cpus[1]) == Spinning(A) && s.cpus[1].guards == map[B := 0]
    ensures Held(s.cpus[1]) == [B] && View(s.cpus[1]).waiting == A
  {
    s := System(seq(n, _ => INITIAL_CPU), {});
    states := [s];
    states, s := Take(states, s, 0, A);
    states, s := Take(states, s, 1, B);
    var more := Extend(states, s, 1, Contend(A));
    s := Next(s, 1, Contend(A));
    more := ExtendByUpdate(more, s, 1);
    s := s.(cpus := s.cpus[1 := Settled(s.cpus[1])]);
    states := more;
  }

  /** A CPU that holds nothing takes a free lock and publishes it. */
  lemma Take(states: seq<System>, s: System, c: nat, lock: LockRef) returns (more: seq<System>, t: System)
    requires EndsIn(states, s) && c < |s.cpus| && s.cpus[c] == INITIAL_CPU && lock !in s.locked
    ensures EndsIn(more, t) && more[0] == states[0]
    ensures t.locked == s.locked + {lock} && |t.cpus| == |s.cpus| && t.cpus == s.cpus[c := t.cpus[c]]
    ensures var u := t.cpus[c];
            && Shape(u) && !u.writing && u.frames == [Running] && u.guards == map[lock := 0]
            && Held(u) == [lock] && View(u).waiting == NO_LOCK
  {
    var s1 := Next(s, c, TryLock(lock));
    more := Extend(states, s, c, TryLock(lock));
    more := ExtendByUpdate(more, s1, c);
    t := s1.(cpus := s1.cpus[c := Settled(s1.cpus[c])]);
    AcquiredIsListed(EMPTY_STATE, lock);
  }

  /** With two CPUs or more and without the restriction the verdict can be wrong: CPU 0 really unlocks
      `A`, is interrupted before it can publish the release, and its trap handler contends for `B`.
      The host then reports a deadlock although `A` is free and CPU 1 may take it at once. */
  lemma ContentionInWindowRaisesFalseAlarm(n: nat) returns (states: seq<System>, s: System)
    requires n >= 2
    ensures EndsIn(states, s) && |states[0].cpus| == n
    ensures Reports(s) && !exists ring :: Deadlocked(s, ring)
  {
    var s0: System;
    states, s0 := BothHold(n);
    var s1 := Next(s0, 0, Unlock(A));
    states := Extend(states, s0, 0, Unlock(A));
    var s2 := Next(s1, 0, Trap);
    states := Extend(states, s1, 0, Trap);
    var s3 := Next(s2, 0, Contend(B));
    states := Extend(states, s2, 0, Contend(B));
    states := ExtendByUpdate(states, s3, 0);
    s := s3.(cpus := s3.cpus[0 := Settled(s3.cpus[0])]);
    FalseCycle(s);
    NoRing(s);
  }

  lemma FalseCycle(s: System)
    requires |s.cpus| >= 2 && forall c :: 0 <= c < |s.cpus| ==> Shape(s.cpus[c])
    requires View(s.cpus[0]).waiting == B && Held(s.cpus[0]) == [A]
    requires View(s.cpus[1]).waiting == A && Held(s.cpus[1]) == [B]
    requires forall c :: 2 <= c < |s.cpus| ==> s.cpus[c] == INITIAL_CPU
    ensures Reports(s)
  {
    TwoWaiters(Snapshot(s));
  }

  lemma TwoWaiters(cpus: seq<CpuView>)
    requires |cpus| >= 2 && cpus[0] == CpuView(B, [A]) && cpus[1] == CpuView(A, [B])
    requires forall c :: 2 <= c < |cpus| ==> cpus[c].held == []
    ensures HasCycle(WaitsFor(cpus))
  {
    var edges := WaitsFor(cpus);
    EdgeMapOfPrefix(cpus, |cpus|);
    LastOwner(cpus, A, 0);
    LastOwner(cpus, B, 1);
    assert edges[0] == Some(1) && edges[1] == Some(0);
    assert Follow(edges, 1, 1) == Some(0) by { assert Follow(edges, 0, 0) == Some(0); }
    assert CycleAt(edges, 0, 2);
  }

  lemma NoRing(s: System)
    requires |s.cpus| >= 2 && s.cpus[0].guards == map[] && s.cpus[1].guards == map[B := 0]
    requires s.cpus[1].frames == [Spinning(A)]
    requires forall c :: 2 <= c < |s.cpus| ==> s.cpus[c] == INITIAL_CPU
    ensures !exists ring :: Deadlocked(s, ring)
  {
    forall ring: seq<Wait> ensures !Deadlocked(s, ring) {
      if |ring| > 0 && Link(s, ring, 0) {
        assert !Link(s, ring, Successor(0, |ring|));
      }
    }
  }

  // --- One CPU never raises a false alarm ------------------------------------------------------

  predicate WaitsOn(pc: Pc, l: LockRef) { pc == Spinning(l) || (pc.Updating? && pc.update == WaitFor(l)) }

  /** On the only CPU a frame can only contend for a lock that this frame or one below it holds, so
      that it waits for ever. */
  ghost predicate SoloInv(u: Cpu) {
    && Shape(u)
    && (forall l :: l in u.guards ==> u.guards[l] < |u.frames|)
    && (forall f, l :: 0 <= f < |u.frames| && WaitsOn(u.frames[f], l) ==> l in u.guards && u.guards[l] <= f)
    && (View(u).waiting.kind != 0 ==> exists f :: 0 <= f < |u.frames| && Blocked(u.frames[f], View(u).waiting))
  }

  lemma SoloStep(s: System, a: Action)
    requires |s.cpus| == 1 && SoloInv(s.cpus[0]) && LinearInv(s.cpus[0]) && s.locked == s.cpus[0].guards.Keys
    requires Enabled(s, 0, a)
    ensures SoloInv(CpuNext(s.cpus[0], a))
  {
    SoloWaitsStay(s, a);
    if a.Publish? {
      SoloPublish(s.cpus[0], CpuNext(s.cpus[0], a));
    } else {
      SoloSilent(s, a);
    }
  }

  lemma SoloPublish(u: Cpu, v: Cpu)
    requires SoloInv(u) && LinearInv(u) && TopPc(u).Updating? && TopPc(u).stage == Written && v == CpuNext(u, Publish)
    ensures View(v).waiting.kind != 0 ==> exists f :: 0 <= f < |v.frames| && Blocked(v.frames[f], View(v).waiting)
  {
    var update := TopPc(u).update;
    assert TopPc(u) == u.frames[Top(u)];
    assert View(v) == Apply(update, View(u));
    if View(v).waiting.kind != 0 {
      if update.WaitFor? {
        assert Blocked(v.frames[Top(u)], View(v).waiting);
      } else {
        assert View(v).waiting == View(u).waiting;
        var f :| 0 <= f < |u.frames| && Blocked(u.frames[f], View(u).waiting);
        assert v.frames[f] == u.frames[f];
      }
    }
  }

  /** A step that publishes nothing ends no wait for a lock that is held for ever. */
  lemma SoloSilent(s: System, a: Action)
    requires |s.cpus| == 1 && SoloInv(s.cpus[0]) && LinearInv(s.cpus[0]) && s.locked == s.cpus[0].guards.Keys
    requires Enabled(s, 0, a) && !a.Publish?
    ensures var v := CpuNext(s.cpus[0], a);
            View(v).waiting.kind != 0 ==> exists f :: 0 <= f < |v.frames| && Blocked(v.frames[f], View(v).waiting)
  {
    var u, v := s.cpus[0], CpuNext(s.cpus[0], a);
    assert View(v) == View(u);
    if View(u).waiting.kind != 0 {
      var f :| 0 <= f < |u.frames| && Blocked(u.frames[f], View(u).waiting);
      assert WaitsOn(u.frames[f], View(u).waiting);
      assert Blocked(v.frames[f], View(u).waiting);
    }
  }

  lemma SoloWaitsStay(s: System, a: Action)
    requires |s.cpus| == 1 && SoloInv(s.cpus[0]) && s.locked == s.cpus[0].guards.Keys && Enabled(s, 0, a)
    ensures var v := CpuNext(s.cpus[0], a);
            && (forall l :: l in v.guards ==> v.guards[l] < |v.frames|)
            && forall f, l :: 0 <= f < |v.frames| && WaitsOn(v.frames[f], l) ==> l in v.guards && v.guards[l] <= f
  {
    var u, v := s.cpus[0], CpuNext(s.cpus[0], a);
    assert a.SpinAcquire? ==> WaitsOn(TopPc(u), TopPc(u).lock);
    forall f, l | 0 <= f < |v.frames| && WaitsOn(v.frames[f], l) ensures l in v.guards && v.guards[l] <= f {
      if f < |u.frames| && WaitsOn(u.frames[f], l) {
        assert l in u.guards && u.guards[l] <= f;
      } else {
        assert a == Contend(l) && f == Top(u);
      }
    }
  }

  lemma {:induction false} SoloRunKeeps(states: seq<System>, i: nat)
    requires AnyRun(states) && |states[0].cpus| == 1 && i < |states|
    ensures |states[i].cpus| == 1 && SoloInv(states[i].cpus[0])
    decreases i
  {
    if i > 0 {
      SoloRunKeeps(states, i - 1);
      SoloNext(states, i);
    } else {
      SoloStart(states[0].cpus[0]);
    }
  }

  lemma SoloStart(u: Cpu)
    requires u == INITIAL_CPU
    ensures SoloInv(u)
  {
  }

  lemma SoloNext(states: seq<System>, i: nat)
    requires AnyRun(states) && 0 < i < |states| && |states[i - 1].cpus| == 1 && SoloInv(states[i - 1].cpus[0])
    ensures |states[i].cpus| == 1 && SoloInv(states[i].cpus[0])
  {
    RunIsLinear(states, i - 1);
    AnyRunKeepsMutexes(states, i - 1);
    assert AnyStep(states[i - 1], states[i - 1 + 1]);
    SoloStepKeeps(states[i - 1], states[i]);
  }

  lemma SoloStepKeeps(s: System, t: System)
    requires AnyStep(s, t) && |s.cpus| == 1 && SoloInv(s.cpus[0]) && LinearInv(s.cpus[0]) && MutexInv(s)
    ensures |t.cpus| == 1 && SoloInv(t.cpus[0])
  {
    var c: nat, a :| c < |s.cpus| && Shape(s.cpus[c]) && Enabled(s, c, a) && t == Next(s, c, a);
    var owned := Owned(s);
    assert owned[0] == s.cpus[0].guards.Keys;
    forall l | l in s.locked ensures l in owned[0] {
      var d :| 0 <= d < |owned| && l in owned[d];
    }
    assert s.locked == owned[0];
    SoloStep(s, a);
  }

  lemma SoloReportIsReal(s: System) returns (ring: seq<Wait>)
    requires |s.cpus| <= 1 && (|s.cpus| == 1 ==> SoloInv(s.cpus[0])) && Reports(s)
    ensures Deadlocked(s, ring)
  {
    var cpus := Snapshot(s);
    EdgeMapOfPrefix(cpus, |cpus|);
    var x: nat, n: nat :| CycleAt(WaitsFor(cpus), x, n);
    var u := s.cpus[0];
    var f :| 0 <= f < |u.frames| && Blocked(u.frames[f], View(u).waiting);
    ring := [Wait(0, f, View(u).waiting)];
    assert WaitsOn(u.frames[f], View(u).waiting);
    assert Link(s, ring, 0);
  }

  // --- Exactly when every report is real --------------------------------------------------------

  /** A run of `n` CPUs; `contention` says whether handlers may contend inside a release window. */
  ghost predicate RunOf(states: seq<System>, n: nat, contention: bool) {
    |states| > 0 && |states[0].cpus| == n && if contention then AnyRun(states) else Run(states)
  }

  ghost predicate Truthful(states: seq<System>) {
    forall i :: 0 <= i < |states| && Reports(states[i]) ==> exists ring :: Deadlocked(states[i], ring)
  }

  /** Over all runs of `n` CPUs, every reported deadlock is real if and only if handlers never contend
      for a taken mutex inside the release window of a frame they interrupted, or there is only one
      CPU. Traps as such do no harm, wherever they hit. */
  lemma VerdictIsSoundExactly(n: nat, contention: bool)
    ensures (forall states :: RunOf(states, n, contention) ==> Truthful(states)) <==> !contention || n < 2
  {
    if contention && n >= 2 {
      var states, s := ContentionInWindowRaisesFalseAlarm(n);
      assert RunOf(states, n, contention) && !Truthful(states);
    } else {
      forall states | RunOf(states, n, contention) ensures Truthful(states) {
        RunIsTruthful(states, n, contention);
      }
    }
  }

  lemma {:induction false} CpusStay(states: seq<System>, i: nat)
    requires AnyRun(states) && i < |states|
    ensures |states[i].cpus| == |states[0].cpus|
    decreases i
  {
    if i > 0 {
      CpusStay(states, i - 1);
      assert AnyStep(states[i - 1], states[i]);
    }
  }

  lemma RunIsTruthful(states: seq<System>, n: nat, contention: bool)
    requires RunOf(states, n, contention) && (!contention || n < 2)
    ensures Truthful(states)
  {
    forall i | 0 <= i < |states| && Reports(states[i]) ensures exists ring :: Deadlocked(states[i], ring) {
      if contention {
        CpusStay(states, i);
        if n == 1 {
          SoloRunKeeps(states, i);
        }
        var ring := SoloReportIsReal(states[i]);
      } else {
        RunKeeps(states, i);
        var ring := ReportedCycleIsReal(states[i]);
      }
    }
  }
}
