/** Every step of the lock protocol keeps `CpuInv`, one lemma per kind of step. */
module LockInvariant {
  import opened DebugState
  import opened LockProtocol

  /** Replacing the innermost frame changes the stale entries by that frame only. */
  lemma StalesTop(frames: seq<Pc>, pc: Pc, l: LockRef)
    requires |frames| > 0
    ensures var n := |frames| - 1; var more := frames[n := pc];
            && (forall i: nat :: StaleAt(more, l, i) <==> if i == n then StaleAt(more, l, n) else StaleAt(frames, l, i))
            && Stales(more, l) + (if StaleAt(frames, l, n) then 1 else 0) == Stales(frames, l) + if StaleAt(more, l, n) then 1 else 0
  {
    var n := |frames| - 1;
    assert frames[n := pc][..n] == frames[..n];
  }

  lemma UnmutedTop(frames: seq<Pc>, pc: Pc, i: nat)
    requires i < |frames|
    ensures Unmuted(frames[|frames| - 1 := pc], i) <==> Unmuted(frames, i)
  {
    forall k | 0 <= k < i ensures frames[|frames| - 1 := pc][k] == frames[k] {
    }
  }

  lemma StalesPush(frames: seq<Pc>, l: LockRef)
    ensures Stales(frames + [Running], l) == Stales(frames, l)
    ensures forall i: nat :: StaleAt(frames + [Running], l, i) <==> StaleAt(frames, l, i)
  {
    assert (frames + [Running])[..|frames|] == frames;
  }

  lemma StalesPop(frames: seq<Pc>, l: LockRef)
    requires |frames| > 0 && frames[|frames| - 1] == Running
    ensures Stales(frames[..|frames| - 1], l) == Stales(frames, l)
    ensures forall i: nat :: StaleAt(frames[..|frames| - 1], l, i) <==> StaleAt(frames, l, i)
  {
  }

  lemma {:induction false} NoStaleIsZero(frames: seq<Pc>, l: LockRef)
    requires forall i: nat :: !StaleAt(frames, l, i)
    ensures Stales(frames, l) == 0
  {
    if frames != [] {
      var front := frames[..|frames| - 1];
      forall i: nat ensures !StaleAt(front, l, i) {
        if StaleAt(front, l, i) {
          assert StaleAt(frames, l, i);
        }
      }
      NoStaleIsZero(front, l);
    }
  }

  /** A step that publishes nothing keeps what readers are told about the locks, provided it keeps
      the reasons why each entry is there. */
  lemma UnpublishedKeeps(u: Cpu, v: Cpu)
    requires CpuInv(u) && Shape(v) && View(v) == View(u)
    requires forall l :: Weight(u, l) <= Weight(v, l)
    requires forall w: LockRef, f :: w.kind != 0 && WaitingAt(u, w, f) ==> WaitingAt(v, w, f)
    ensures ListInv(v) && WaitInv(v)
  {
    if View(v).waiting.kind != 0 {
      var f :| WaitingAt(u, View(u).waiting, f);
      assert WaitingAt(v, View(v).waiting, f);
    }
  }

  /** The frames that own `writing` are the same. */
  ghost predicate SameWriter(u: Cpu, v: Cpu) {
    && (forall i :: 0 <= i < |u.frames| && Busy(u.frames[i]) ==> i < |v.frames| && v.frames[i] == u.frames[i])
    && (forall i :: 0 <= i < |v.frames| && Busy(v.frames[i]) ==> i < |u.frames| && v.frames[i] == u.frames[i])
  }

  /** A step that leaves the owner of `writing` alone. */
  lemma WriterKept(u: Cpu, v: Cpu)
    requires Shape(u) && BufferInv(u) && Shape(v)
    requires u.writing == v.writing && u.slots == v.slots && u.published == v.published
    requires u.committed == v.committed
    requires SameWriter(u, v)
    ensures BufferInv(v) && InProgress(v) == InProgress(u)
  {
    ProgressKept(u, v);
    if v.writing {
      var i :| 0 <= i < |u.frames| && Busy(u.frames[i]);
      assert Busy(v.frames[i]);
    }
  }

  lemma ProgressKept(u: Cpu, v: Cpu)
    requires SameWriter(u, v)
    ensures InProgress(v) == InProgress(u)
  {
    if InProgress(u) {
      var i :| 0 <= i < |u.frames| && Busy(u.frames[i]) && u.frames[i].stage != Published;
      assert Busy(v.frames[i]);
    }
    if InProgress(v) {
      var i :| 0 <= i < |v.frames| && Busy(v.frames[i]) && v.frames[i].stage != Published;
      assert Busy(u.frames[i]);
    }
  }

  /** A step of the innermost frame that publishes nothing and acquires nothing visibly. */
  lemma TopStepKeeps(u: Cpu, v: Cpu, pc: Pc)
    requires CpuInv(u) && Shape(v) && View(v) == View(u) && v.frames == u.frames[Top(u) := pc]
    requires forall l :: StaleAt(u.frames, l, Top(u)) ==> StaleAt(v.frames, l, Top(u))
    requires forall l :: Genuine(u, l) ==> Genuine(v, l) || (StaleAt(v.frames, l, Top(u)) && !StaleAt(u.frames, l, Top(u)))
    requires forall l :: Genuine(v, l) ==> Genuine(u, l) && v.guards[l] == u.guards[l]
    requires forall w: LockRef :: w.kind != 0 && WaitingAt(u, w, Top(u)) ==>
               Blocked(pc, w) || (Pending(pc) && pc.update == Acquired(w))
    requires forall l, w: LockRef, f :: w.kind != 0 && WaitingAt(u, w, f) && !StaleAt(u.frames, l, Top(u)) ==>
               !StaleAt(v.frames, l, Top(u))
    ensures ListInv(v) && WaitInv(v)
  {
    forall l ensures Weight(u, l) <= Weight(v, l) {
      StalesTop(u.frames, pc, l);
    }
    forall w: LockRef, f | w.kind != 0 && WaitingAt(u, w, f) ensures WaitingAt(v, w, f) {
      forall l, i: nat ensures !StaleAt(v.frames, l, i) {
        StalesTop(u.frames, pc, l);
      }
    }
    UnpublishedKeeps(u, v);
  }

  lemma AcquireKeeps(u: Cpu, v: Cpu, lock: LockRef)
    requires CpuInv(u)
    requires lock !in u.guards
    requires TopPc(u).Running? || TopPc(u) == Spinning(lock)
    requires v == SetTop(u, Updating(Acquired(lock), Entered)).(guards := u.guards[lock := Top(u)])
    ensures CpuInv(v)
  {
    WriterKept(u, v);
    AcquireLists(u, v, lock);
  }

  lemma AcquireLists(u: Cpu, v: Cpu, lock: LockRef)
    requires CpuInv(u) && lock !in u.guards && (TopPc(u).Running? || TopPc(u) == Spinning(lock))
    requires v == SetTop(u, Updating(Acquired(lock), Entered)).(guards := u.guards[lock := Top(u)])
    ensures ListInv(v) && WaitInv(v)
  {
    forall i | 0 <= i <= Top(u) ensures Unmuted(v.frames, i) <==> Unmuted(u.frames, i) {
      UnmutedTop(u.frames, Updating(Acquired(lock), Entered), i);
    }
    forall l | Genuine(v, l) ensures Genuine(u, l) && v.guards[l] == u.guards[l] {
      assert l in u.guards && l != lock;
    }
    TopStepKeeps(u, v, Updating(Acquired(lock), Entered));
  }

  lemma ReplaceKeeps(u: Cpu, v: Cpu, pc: Pc)
    requires CpuInv(u) && TopPc(u).Running?
    requires pc.Updating? && pc.stage == Entered && (pc.update.WaitFor? || pc.update.Other?)
    requires pc.update.WaitFor? ==> !InsideWindow(u)
    requires v == SetTop(u, pc)
    ensures CpuInv(v)
  {
    WriterKept(u, v);
    TopStepKeeps(u, v, pc);
  }

  lemma UnlockKeeps(u: Cpu, v: Cpu, lock: LockRef)
    requires CpuInv(u) && TopPc(u).Running?
    requires lock in u.guards && u.guards[lock] == Top(u)
    requires v == CpuNext(u, Unlock(lock))
    ensures CpuInv(v)
  {
    WriterKept(u, v);
    UnlockLists(u, v, lock);
  }

  lemma UnlockLists(u: Cpu, v: Cpu, lock: LockRef)
    requires CpuInv(u) && TopPc(u).Running?
    requires lock in u.guards && u.guards[lock] == Top(u)
    requires v == CpuNext(u, Unlock(lock))
    ensures ListInv(v) && WaitInv(v)
  {
    UnlockTurnsStale(u, v, lock);
    TopStepKeeps(u, v, Updating(Released(lock), Entered));
  }

  /** The unlocked lock is no longer genuine but stale, unless nothing that this frame publishes gets through. */
  lemma UnlockTurnsStale(u: Cpu, v: Cpu, lock: LockRef)
    requires CpuInv(u) && TopPc(u).Running?
    requires lock in u.guards && u.guards[lock] == Top(u)
    requires v == CpuNext(u, Unlock(lock))
    ensures forall l :: Genuine(v, l) ==> Genuine(u, l) && v.guards[l] == u.guards[l]
    ensures forall l :: Genuine(u, l) ==> Genuine(v, l) || (l == lock && StaleAt(v.frames, l, Top(u)))
    ensures forall l :: StaleAt(v.frames, l, Top(u)) ==> l == lock && Genuine(u, lock)
  {
    forall i | 0 <= i <= Top(u) ensures Unmuted(v.frames, i) <==> Unmuted(u.frames, i) {
      UnmutedTop(u.frames, Updating(Released(lock), Entered), i);
    }
    forall l | Genuine(v, l) ensures Genuine(u, l) && v.guards[l] == u.guards[l] {
      assert l in u.guards && l != lock;
    }
  }

  lemma DropKeeps(u: Cpu, v: Cpu)
    requires CpuInv(u) && TopPc(u).Updating? && TopPc(u).stage == Entered && u.writing
    requires v == CpuNext(u, Drop)
    ensures CpuInv(v)
  {
    WriterKept(u, v);
    assert !Unmuted(u.frames, Top(u));
    TopStepKeeps(u, v, After(TopPc(u).update));
  }

  lemma TrapKeeps(u: Cpu, v: Cpu)
    requires CpuInv(u) && v == CpuNext(u, Trap)
    ensures CpuInv(v)
  {
    WriterKept(u, v);
    TrapLists(u, v);
  }

  lemma TrapLists(u: Cpu, v: Cpu)
    requires CpuInv(u) && v == CpuNext(u, Trap)
    ensures ListInv(v) && WaitInv(v)
  {
    forall l ensures Weight(u, l) <= Weight(v, l) {
      StalesPush(u.frames, l);
    }
    forall w: LockRef, f | w.kind != 0 && WaitingAt(u, w, f) ensures WaitingAt(v, w, f) {
      forall l, i: nat ensures !StaleAt(v.frames, l, i) {
        StalesPush(u.frames, l);
      }
    }
    UnpublishedKeeps(u, v);
  }

  lemma ReturnKeeps(u: Cpu, v: Cpu)
    requires CpuInv(u) && TopPc(u).Running? && |u.frames| > 1 && TopOwnsNothing(u)
    requires v == CpuNext(u, Return)
    ensures CpuInv(v)
  {
    WriterKept(u, v);
    ReturnLists(u, v);
  }

  lemma ReturnLists(u: Cpu, v: Cpu)
    requires CpuInv(u) && TopPc(u).Running? && |u.frames| > 1 && TopOwnsNothing(u)
    requires v == CpuNext(u, Return)
    ensures ListInv(v) && WaitInv(v)
  {
    assert v.frames == u.frames[..|u.frames| - 1];
    forall l ensures Weight(u, l) <= Weight(v, l) {
      StalesPop(u.frames, l);
    }
    forall w: LockRef, f | w.kind != 0 && WaitingAt(u, w, f) ensures WaitingAt(v, w, f) {
      ReturnWaits(u, v, w, f);
    }
    UnpublishedKeeps(u, v);
  }

  lemma ReturnWaits(u: Cpu, v: Cpu, w: LockRef, f: nat)
    requires Shape(u) && TopPc(u).Running? && |u.frames| > 1 && v == CpuNext(u, Return) && WaitingAt(u, w, f)
    ensures WaitingAt(v, w, f)
  {
    assert f < Top(u) && forall i :: 0 <= i < Top(u) ==> v.frames[i] == u.frames[i];
    forall l, i: nat ensures !StaleAt(v.frames, l, i) {
      assert !StaleAt(u.frames, l, i);
    }
    forall l | Genuine(v, l) ensures v.guards[l] <= f {
      assert Genuine(u, l);
    }
  }

  lemma ClaimKeeps(u: Cpu, v: Cpu)
    requires CpuInv(u) && TopPc(u).Updating? && TopPc(u).stage == Entered && !u.writing
    requires v == CpuNext(u, Claim)
    ensures CpuInv(v)
  {
    assert Busy(v.frames[Top(v)]);
    TopStepKeeps(u, v, Updating(TopPc(u).update, Claimed));
  }

  lemma TearKeeps(u: Cpu, v: Cpu, garbage: CpuState)
    requires CpuInv(u) && TopPc(u).Updating? && (TopPc(u).stage == Claimed || TopPc(u).stage == Torn)
    requires v == CpuNext(u, Tear(garbage))
    ensures CpuInv(v)
  {
    assert Busy(u.frames[Top(u)]) && Busy(v.frames[Top(v)]);
    TopStepKeeps(u, v, Updating(TopPc(u).update, Torn));
  }

  lemma WriteKeeps(u: Cpu, v: Cpu)
    requires CpuInv(u) && TopPc(u).Updating? && (TopPc(u).stage == Claimed || TopPc(u).stage == Torn)
    requires v == CpuNext(u, Write)
    ensures CpuInv(v)
  {
    assert Busy(u.frames[Top(u)]) && Busy(v.frames[Top(v)]);
    assert View(v) == View(u);
    TopStepKeeps(u, v, Updating(TopPc(u).update, Written));
  }

  lemma UnclaimKeeps(u: Cpu, v: Cpu)
    requires CpuInv(u) && TopPc(u).Updating? && TopPc(u).stage == Published
    requires v == CpuNext(u, Unclaim)
    ensures CpuInv(v)
  {
    assert Busy(u.frames[Top(u)]);
    TopStepKeeps(u, v, After(TopPc(u).update));
  }

  // --- Publication: the only step that changes what readers see ------------------------

  ghost predicate PublishStep(u: Cpu, v: Cpu) {
    && CpuInv(u) && TopPc(u).Updating? && TopPc(u).stage == Written && v == CpuNext(u, Publish)
  }

  lemma PublishBasics(u: Cpu, v: Cpu)
    requires PublishStep(u, v)
    ensures Shape(v) && BufferInv(v) && CountInv(v) && GuardInv(v) && WindowInv(v)
    ensures View(v) == Apply(TopPc(u).update, View(u))
    ensures forall i :: 0 <= i <= Top(u) ==> Unmuted(u.frames, i) && Unmuted(v.frames, i)
  {
    var t := Top(u);
    assert Busy(u.frames[t]) && Busy(v.frames[t]);
    assert v.committed[..|v.committed| - 1] == u.committed;
  }

  /** A publication makes its own acquisition genuine, and its own release is no longer to come. */
  lemma PublishWeights(u: Cpu, v: Cpu, l: LockRef)
    requires PublishStep(u, v)
    ensures Weight(v, l) == Weight(u, l) + (if TopPc(u).update == Acquired(l) then 1 else 0)
                                         - (if TopPc(u).update == Released(l) then 1 else 0)
    ensures forall i: nat :: StaleAt(v.frames, l, i) ==> StaleAt(u.frames, l, i)
    ensures Genuine(v, l) <==> Genuine(u, l) || TopPc(u).update == Acquired(l)
  {
    PublishBasics(u, v);
    StalesTop(u.frames, Updating(TopPc(u).update, Published), l);
  }

  lemma PublishLists(u: Cpu, v: Cpu)
    requires PublishStep(u, v)
    ensures Shape(v) && ListInv(v)
  {
    PublishBasics(u, v);
    forall l ensures multiset(Held(v))[l] <= Weight(v, l) {
      PublishWeights(u, v, l);
      HeldAfter(View(u), TopPc(u).update, l);
    }
  }

  /** How an update changes the number of entries of a lock. */
  lemma HeldAfter(s: CpuState, update: Update, l: LockRef)
    ensures var before, after := multiset(HeldList(s))[l], multiset(HeldList(Apply(update, s)))[l];
            match update
            case Acquired(lock) => after == before || (lock == l && after == before + 1)
            case Released(lock) => after == if lock == l && before > 0 then before - 1 else before
            case _ => after == before
  {
    match update
    case Acquired(lock) => AcquiredIsListed(s, lock);
    case Released(lock) =>
      ReleasedIsUnlisted(s, lock);
      WithoutCounts(HeldList(s), lock, l);
    case _ => assert HeldList(Apply(update, s)) == HeldList(s);
  }

  lemma WithoutCounts(s: seq<LockRef>, x: LockRef, y: LockRef)
    ensures multiset(Without(s, x))[y] == if x == y && x in s then multiset(s)[y] - 1 else multiset(s)[y]
  {
    var i := IndexOf(s, x);
    if i < |s| {
      var front, back := s[..i], s[i + 1..];
      assert s == front + [x] + back && Without(s, x) == front + back;
    } else {
      assert x !in s;
    }
  }

  /** When a wait becomes visible, nothing that is listed is stale: the frames below are not in their
      release window, and no other frame owns `writing`. */
  lemma PublishWaitKeeps(u: Cpu, v: Cpu)
    requires PublishStep(u, v) && TopPc(u).update.WaitFor?
    ensures WaitingAt(v, TopPc(u).update.lock, Top(v))
  {
    PublishBasics(u, v);
    forall l, i: nat ensures !StaleAt(v.frames, l, i) {
      PublishWeights(u, v, l);
      assert StaleAt(u.frames, l, i) ==> i < Top(u) && InReleaseWindow(u.frames[i]);
    }
  }

  /** An announced wait outlives updates that trap handlers publish above the waiting frame. */
  lemma WaitSurvives(u: Cpu, v: Cpu)
    requires PublishStep(u, v) && (TopPc(u).update.Released? || TopPc(u).update.Other?)
    ensures Shape(v) && WaitInv(v)
  {
    PublishBasics(u, v);
    if View(v).waiting.kind != 0 {
      var f :| WaitingAt(u, View(u).waiting, f);
      forall l ensures Genuine(v, l) ==> Genuine(u, l) {
        PublishWeights(u, v, l);
      }
      forall l, i: nat ensures !StaleAt(v.frames, l, i) {
        PublishWeights(u, v, l);
      }
      assert WaitingAt(v, View(v).waiting, f);
    }
  }

  lemma PublishKeeps(u: Cpu, v: Cpu)
    requires PublishStep(u, v)
    ensures CpuInv(v)
  {
    PublishBasics(u, v);
    PublishLists(u, v);
    match TopPc(u).update
    case WaitFor(_) => PublishWaitKeeps(u, v);
    case Acquired(lock) => AcquiredIsListed(View(u), lock);
    case Released(_) => WaitSurvives(u, v);
    case Other(_) => WaitSurvives(u, v);
  }

  // --- The whole system ----------------------------------------------------------------

  function Owned(s: System): seq<set<LockRef>> {
    seq(|s.cpus|, c requires 0 <= c < |s.cpus| => s.cpus[c].guards.Keys)
  }

  /** The set lock bits are exactly the guards of the CPUs, and no mutex has two owners. */
  ghost predicate Exclusive(owned: seq<set<LockRef>>, locked: set<LockRef>) {
    && (forall l :: l in locked ==> exists c :: 0 <= c < |owned| && l in owned[c])
    && (forall c :: 0 <= c < |owned| ==> owned[c] <= locked)
    && (forall c, d :: 0 <= c < d < |owned| ==> owned[c] !! owned[d])
  }

  ghost predicate SystemInv(s: System) {
    && (forall c :: 0 <= c < |s.cpus| ==> CpuInv(s.cpus[c]))
    && Exclusive(Owned(s), s.locked)
  }

  lemma InitEstablishes(s: System)
    requires Init(s)
    ensures SystemInv(s)
  {
    forall c | 0 <= c < |s.cpus| ensures CpuInv(s.cpus[c]) {
      var u := s.cpus[c];
      assert View(u) == Fold([]);
      assert Held(u) == [];
    }
  }

  lemma CpuStepKeeps(s: System, c: nat, a: Action)
    requires SystemInv(s) && c < |s.cpus| && Enabled(s, c, a) && Allowed(s, c, a)
    ensures CpuInv(CpuNext(s.cpus[c], a))
  {
    var u := s.cpus[c];
    var v := CpuNext(u, a);
    assert forall l :: l in Owned(s)[c] ==> l in s.locked;
    match a
    case TryLock(lock) => AcquireKeeps(u, v, lock);
    case SpinAcquire => AcquireKeeps(u, v, TopPc(u).lock);
    case Contend(lock) => ReplaceKeeps(u, v, Updating(WaitFor(lock), Entered));
    case Begin(change) => ReplaceKeeps(u, v, Updating(Other(change), Entered));
    case Unlock(lock) => UnlockKeeps(u, v, lock);
    case Claim => ClaimKeeps(u, v);
    case Drop => DropKeeps(u, v);
    case Tear(garbage) => TearKeeps(u, v, garbage);
    case Write => WriteKeeps(u, v);
    case Publish => PublishKeeps(u, v);
    case Unclaim => UnclaimKeeps(u, v);
    case Trap => TrapKeeps(u, v);
    case Return => ReturnKeeps(u, v);
  }

  /** Lock bits and guards change together, and only a free mutex is ever taken. */
  lemma GuardsFollowLockBits(u: Cpu, a: Action, locked: set<LockRef>)
    requires Shape(u) && u.guards.Keys <= locked
    requires a.TryLock? ==> a.lock !in locked
    requires a.SpinAcquire? ==> TopPc(u).Spinning? && TopPc(u).lock !in locked
    requires a.Unlock? ==> a.lock in u.guards
    ensures LockedNext(locked, TopPc(u), a) == locked - u.guards.Keys + CpuNext(u, a).guards.Keys
    ensures (CpuNext(u, a).guards.Keys - u.guards.Keys) !! locked
  {
    if a.Unlock? {
      assert (u.guards - {a.lock}).Keys == u.guards.Keys - {a.lock};
    }
  }

  lemma ExclusionKept(owned: seq<set<LockRef>>, locked: set<LockRef>, c: nat, now: set<LockRef>)
    requires Exclusive(owned, locked) && c < |owned| && (now - owned[c]) !! locked
    ensures Exclusive(owned[c := now], locked - owned[c] + now)
  {
    var next := owned[c := now];
    forall l | l in locked - owned[c] + now ensures exists d :: 0 <= d < |next| && l in next[d] {
      if l in now {
        assert l in next[c];
      } else {
        var d :| 0 <= d < |owned| && l in owned[d];
        assert l in next[d];
      }
    }
  }

  // --- What needs no restriction -----------------------------------------------------------

  ghost predicate MutexInv(s: System) {
    && (forall c :: 0 <= c < |s.cpus| ==> Shape(s.cpus[c]))
    && Exclusive(Owned(s), s.locked)
  }

  lemma ShapeKept(s: System, c: nat, a: Action)
    requires c < |s.cpus| && Shape(s.cpus[c]) && Enabled(s, c, a)
    ensures Shape(CpuNext(s.cpus[c], a))
  {
  }

  lemma MutexStepKeeps(s: System, c: nat, a: Action)
    requires MutexInv(s) && c < |s.cpus| && Enabled(s, c, a)
    ensures MutexInv(Next(s, c, a))
  {
    var t := Next(s, c, a);
    ShapeKept(s, c, a);
    assert Owned(s)[c] == s.cpus[c].guards.Keys;
    GuardsFollowLockBits(s.cpus[c], a, s.locked);
    ExclusionKept(Owned(s), s.locked, c, t.cpus[c].guards.Keys);
    assert Owned(t) == Owned(s)[c := t.cpus[c].guards.Keys];
  }

  /** Lock bits, guards and owners agree in every run, however traps and locks meet. */
  lemma {:induction false} AnyRunKeepsMutexes(states: seq<System>, i: nat)
    requires AnyRun(states) && i < |states|
    ensures MutexInv(states[i])
    decreases i
  {
    if i > 0 {
      AnyRunKeepsMutexes(states, i - 1);
      AnyStepKeepsMutexes(states[i - 1], states[i]);
    }
  }

  lemma AnyStepKeepsMutexes(s: System, t: System)
    requires MutexInv(s) && AnyStep(s, t)
    ensures MutexInv(t)
  {
    var c: nat, a :| c < |s.cpus| && Shape(s.cpus[c]) && Enabled(s, c, a) && t == Next(s, c, a);
    MutexStepKeeps(s, c, a);
  }

  lemma StepKeeps(s: System, t: System)
    requires SystemInv(s) && Step(s, t)
    ensures SystemInv(t)
  {
    var c: nat, a :| c < |s.cpus| && Shape(s.cpus[c]) && Enabled(s, c, a) && Allowed(s, c, a) && t == Next(s, c, a);
    CpuStepKeeps(s, c, a);
    MutexStepKeeps(s, c, a);
  }

  lemma RunStep(states: seq<System>, i: nat)
    requires Run(states) && i + 1 < |states| && SystemInv(states[i])
    ensures SystemInv(states[i + 1])
  {
    StepKeeps(states[i], states[i + 1]);
  }

  lemma {:induction false} RunKeeps(states: seq<System>, i: nat)
    requires Run(states) && i < |states|
    ensures SystemInv(states[i])
    decreases i
  {
    if i == 0 {
      InitEstablishes(states[0]);
    } else {
      RunKeeps(states, i - 1);
      RunStep(states, i - 1);
    }
  }
}
