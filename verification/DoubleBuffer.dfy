/** The double buffer of a CPU's diagnostic state, with traps allowed anywhere. */
module DoubleBuffer {
  import opened DebugState
  import opened LockProtocol
  import opened LockInvariant

  /** The part of the CPU invariant that needs no restriction at all. */
  ghost predicate LinearInv(u: Cpu) { Shape(u) && BufferInv(u) && CountInv(u) }

  lemma QuietStep(u: Cpu, v: Cpu)
    requires LinearInv(u) && Shape(v)
    requires u.writing == v.writing && u.slots == v.slots && u.published == v.published && u.committed == v.committed
    requires v.attempts - v.dropped == u.attempts - u.dropped
    requires forall i :: 0 <= i < |u.frames| && Busy(u.frames[i]) ==> i < |v.frames| && v.frames[i] == u.frames[i]
    requires forall i :: 0 <= i < |v.frames| && Busy(v.frames[i]) ==> i < |u.frames| && v.frames[i] == u.frames[i]
    ensures LinearInv(v)
  {
    WriterKept(u, v);
  }

  /** The steps of the update that owns `writing`. */
  lemma WriterStep(u: Cpu, v: Cpu, a: Action)
    requires LinearInv(u) && TopPc(u).Updating?
    requires || (a.Claim? && TopPc(u).stage == Entered && !u.writing)
             || (a.Tear? && (TopPc(u).stage == Claimed || TopPc(u).stage == Torn))
             || (a.Write? && (TopPc(u).stage == Claimed || TopPc(u).stage == Torn))
             || (a.Publish? && TopPc(u).stage == Written)
             || (a.Unclaim? && TopPc(u).stage == Published)
    requires v == CpuNext(u, a)
    ensures LinearInv(v)
  {
    var t := Top(u);
    assert a.Claim? || Busy(u.frames[t]);
    assert a.Unclaim? || Busy(v.frames[t]);
    if a.Publish? {
      assert v.committed[..|v.committed| - 1] == u.committed;
    }
  }

  lemma CpuStepIsLinear(s: System, c: nat, a: Action)
    requires c < |s.cpus| && LinearInv(s.cpus[c]) && Enabled(s, c, a)
    ensures LinearInv(CpuNext(s.cpus[c], a))
  {
    var u := s.cpus[c];
    if a.Claim? || a.Tear? || a.Write? || a.Publish? || a.Unclaim? {
      WriterStep(u, CpuNext(u, a), a);
    } else {
      QuietStep(u, CpuNext(u, a));
    }
  }

  lemma {:induction false} RunIsLinear(states: seq<System>, i: nat)
    requires AnyRun(states) && i < |states|
    ensures forall c :: 0 <= c < |states[i].cpus| ==> LinearInv(states[i].cpus[c])
    decreases i
  {
    if i == 0 {
      forall c | 0 <= c < |states[0].cpus| ensures LinearInv(states[0].cpus[c]) {
        assert View(states[0].cpus[c]) == Fold([]);
      }
    } else {
      RunIsLinear(states, i - 1);
      StepIsLinear(states[i - 1], states[i]);
    }
  }

  lemma StepIsLinear(s: System, t: System)
    requires AnyStep(s, t) && forall c :: 0 <= c < |s.cpus| ==> LinearInv(s.cpus[c])
    ensures forall c :: 0 <= c < |t.cpus| ==> LinearInv(t.cpus[c])
  {
    var c: nat, a :| c < |s.cpus| && Shape(s.cpus[c]) && Enabled(s, c, a) && t == Next(s, c, a);
    CpuStepIsLinear(s, c, a);
  }

  /** The value of a 64-bit counter after `n` wrapping increments from zero. */
  function Wrapped(n: nat): U64 {
    if n == 0 then 0 else WrappingAdd1(Wrapped(n - 1))
  }

  lemma {:induction false} WrappedIsResidue(n: nat)
    ensures Wrapped(n) == n % 0x1_0000_0000_0000_0000
  {
    if n > 0 {
      WrappedIsResidue(n - 1);
    }
  }

  lemma {:induction false} FoldGeneration(log: seq<Update>)
    ensures Fold(log).generation == Wrapped(|log|)
  {
    if log != [] {
      FoldGeneration(log[..|log| - 1]);
    }
  }

  /** Publishing is linearizable: whatever the interleaving, what `published` selects is the fold of
      the committed updates in commit order, also while another slot is partly written. Every
      attempt is committed, counted as dropped, or is the one update in progress, and the
      generation counts the commits modulo the word size. */
  lemma PublishedIsFoldOfCommits(states: seq<System>, i: nat, c: nat)
    requires AnyRun(states) && i < |states| && c < |states[i].cpus|
    ensures var u := states[i].cpus[c];
            && Shape(u)
            && View(u) == Fold(u.committed)
            && View(u).generation == Wrapped(|u.committed|)
            && u.attempts == |u.committed| + u.dropped + (if InProgress(u) then 1 else 0)
            && (InProgress(u) ==> u.writing)
            && (forall j, k :: 0 <= j < k < |u.frames| ==> !(Busy(u.frames[j]) && Busy(u.frames[k])))
  {
    RunIsLinear(states, i);
    var u := states[i].cpus[c];
    assert LinearInv(u);
    FoldGeneration(u.committed);
  }
}
