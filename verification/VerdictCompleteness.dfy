/** How far the deadlock verdict is complete: handlers that take tracked locks erase an announced wait, a
ninth lock of a CPU is not listed, and a release that is half done leaves a wrong owner listed. */
module VerdictCompleteness {
  import opened Wrappers
  import opened DebugState
  import opened LockProtocol
  import opened LockInvariant
  import opened DeadlockVerdict

  // --- Runs -------------------------------------------------------------------------------------------

  predicate WithinCapacity(s: System) {
    forall c :: 0 <= c < |s.cpus| ==> |s.cpus[c].guards| <= HELD_LOCK_CAPACITY
  }

  /** Traps may hit anywhere; `handlers` says whether a handler may take or contend for tracked locks,
      `many` whether a CPU may hold more of them than it can list. */
  ghost predicate ClassStep(s: System, t: System, handlers: bool, many: bool) {
    && (many || WithinCapacity(t))
    && exists c: nat, a ::
         && c < |s.cpus| && Shape(s.cpus[c]) && Enabled(s, c, a) && Allowed(s, c, a)
         && (handlers || Disciplined(s.cpus[c], a)) && t == Next(s, c, a)
  }

  /** Locks are taken by interrupted code only. */
  predicate Disciplined(u: Cpu, a: Action) { a.TryLock? || a.Contend? ==> |u.frames| == 1 }

  ghost predicate ClassRun(states: seq<System>, n: nat, handlers: bool, many: bool) {
    && |states| > 0 && Init(states[0]) && |states[0].cpus| == n
    && forall i :: 0 <= i < |states| - 1 ==> ClassStep(states[i], states[i + 1], handlers, many)
  }

  // --- What a quiet run keeps ---------------------------------------------------------------------------

  /** A handler that has nothing to do with locks. */
  predicate Harmless(pc: Pc) { pc.Running? || (pc.Updating? && pc.update.Other?) }

  /** With harmless handlers and enough room a CPU lists every lock it holds, up to the acquisition
      it is publishing, and announces every wait it is blocked in. */
  ghost predicate QuietInv(u: Cpu) {
    && CpuInv(u)
    && View(u).heldCount <= HELD_LOCK_CAPACITY
    && (forall i :: 0 < i < |u.frames| ==> Harmless(u.frames[i]))
    && (forall l :: l in u.guards ==>
          u.guards[l] == 0 && (l in Held(u) || (Pending(u.frames[0]) && u.frames[0].update == Acquired(l))))
    && (forall l :: Blocked(u.frames[0], l) ==> View(u).waiting == l)
    && (Pending(u.frames[0]) && u.frames[0].update.Released? ==> u.frames[0].update.lock !in u.guards)
  }

  ghost predicate QuietSystem(s: System) {
    SystemInv(s) && forall c :: 0 <= c < |s.cpus| ==> QuietInv(s.cpus[c])
  }

  lemma WithoutUnique(s: seq<LockRef>, x: LockRef)
    requires NoDuplicates(s)
    ensures forall y :: y in Without(s, x) <==> y in s && y != x
  {
    var i := IndexOf(s, x);
    if i < |s| {
      assert s == s[..i] + [x] + s[i + 1..];
    }
  }

  lemma ListFits(list: seq<LockRef>, bound: set<LockRef>)
    requires NoDuplicates(list) && forall l :: l in list ==> l in bound
    ensures |list| <= |bound|
    decreases |list|
  {
    if list != [] {
      var last := list[|list| - 1];
      ListFits(list[..|list| - 1], bound - {last});
    }
  }

  lemma {:induction false} StalesAtBottom(frames: seq<Pc>, l: LockRef)
    requires |frames| > 0 && forall i :: 0 < i < |frames| ==> Harmless(frames[i])
    ensures Stales(frames, l) == if StaleAt(frames, l, 0) then 1 else 0
  {
    var front := frames[..|frames| - 1];
    if |frames| == 1 {
      assert front == [] && Stales([], l) == 0;
    } else {
      StalesAtBottom(front, l);
      assert Harmless(frames[|frames| - 1]);
    }
  }

  /** A lock is listed at most once. */
  lemma Once(u: Cpu, l: LockRef)
    requires QuietInv(u)
    ensures l in Held(u) ==> multiset(Held(u))[l] == 1 && (Genuine(u, l) || StaleAt(u.frames, l, 0))
  {
    StalesAtBottom(u.frames, l);
    assert l in Held(u) ==> multiset(Held(u))[l] > 0;
  }

  lemma TwoEntries(s: seq<LockRef>, i: nat, j: nat)
    requires i < j < |s| && s[i] == s[j]
    ensures multiset(s)[s[i]] >= 2
  {
    assert s == s[..j] + s[j..] && s[..j][i] == s[i] && s[j..][0] == s[i];
  }

  lemma OnceListed(u: Cpu)
    requires QuietInv(u)
    ensures NoDuplicates(Held(u))
  {
    var s := Held(u);
    forall i, j | 0 <= i < j < |s| ensures s[i] != s[j] {
      Once(u, s[i]);
      if s[i] == s[j] {
        TwoEntries(s, i, j);
      }
    }
  }

  /** While the interrupted code publishes something else than a release, all that is listed is held. */
  lemma ListedIsHeld(u: Cpu)
    requires QuietInv(u) && !(Pending(u.frames[0]) && u.frames[0].update.Released?)
    ensures forall l :: l in Held(u) ==> Genuine(u, l)
  {
    forall l | l in Held(u) ensures Genuine(u, l) {
      Once(u, l);
    }
  }

  lemma QuietCpuStep(s: System, c: nat, a: Action)
    requires SystemInv(s) && c < |s.cpus| && Enabled(s, c, a) && Allowed(s, c, a) && Disciplined(s.cpus[c], a)
    requires QuietInv(s.cpus[c]) && |CpuNext(s.cpus[c], a).guards| <= HELD_LOCK_CAPACITY
    ensures QuietInv(CpuNext(s.cpus[c], a))
  {
    CpuStepKeeps(s, c, a);
    var u, v := s.cpus[c], CpuNext(s.cpus[c], a);
    if a.Publish? {
      match TopPc(u).update
      case Released(lock) => QuietRelease(u, v, lock);
      case Acquired(lock) => QuietAcquire(u, v, lock);
      case _ => QuietOther(u, v);
    } else if |u.frames| == 1 {
      QuietBottom(s, c, a);
    } else {
      QuietAbove(s, c, a);
    }
  }

  /** The interrupted code's own updates are never dropped. */
  lemma NeverDropped(u: Cpu)
    requires QuietInv(u) && |u.frames| == 1
    ensures u.writing ==> Busy(u.frames[0])
  {
  }

  /** A step of the interrupted code that publishes nothing. */
  lemma QuietBottom(s: System, c: nat, a: Action)
    requires c < |s.cpus| && QuietInv(s.cpus[c]) && |s.cpus[c].frames| == 1 && Enabled(s, c, a) && !a.Publish?
    requires CpuInv(CpuNext(s.cpus[c], a))
    ensures QuietInv(CpuNext(s.cpus[c], a))
  {
    var u, v := s.cpus[c], CpuNext(s.cpus[c], a);
    NeverDropped(u);
    assert View(v) == View(u);
    assert forall l :: Blocked(v.frames[0], l) ==> Blocked(u.frames[0], l);
  }

  /** A step of a handler that publishes nothing. */
  lemma QuietAbove(s: System, c: nat, a: Action)
    requires c < |s.cpus| && QuietInv(s.cpus[c]) && |s.cpus[c].frames| > 1 && Enabled(s, c, a) && !a.Publish?
    requires Disciplined(s.cpus[c], a) && CpuInv(CpuNext(s.cpus[c], a))
    ensures QuietInv(CpuNext(s.cpus[c], a))
  {
    var u, v := s.cpus[c], CpuNext(s.cpus[c], a);
    assert Harmless(u.frames[Top(u)]);
    assert View(v) == View(u) && v.frames[0] == u.frames[0] && v.guards == u.guards;
  }

  lemma QuietOther(u: Cpu, v: Cpu)
    requires PublishStep(u, v) && CpuInv(v) && QuietInv(u)
    requires TopPc(u).update.WaitFor? || TopPc(u).update.Other?
    ensures QuietInv(v)
  {
    PublishBasics(u, v);
    assert Held(v) == Held(u);
    if Top(u) > 0 {
      assert Harmless(u.frames[Top(u)]);
      assert v.frames[0] == u.frames[0];
    }
  }

  lemma AtBottom(u: Cpu)
    requires QuietInv(u) && !Harmless(TopPc(u))
    ensures |u.frames| == 1
  {
    assert TopPc(u) == u.frames[Top(u)];
  }

  lemma QuietRelease(u: Cpu, v: Cpu, lock: LockRef)
    requires PublishStep(u, v) && CpuInv(v) && QuietInv(u) && TopPc(u).update == Released(lock)
    ensures QuietInv(v)
  {
    AtBottom(u);
    PublishBasics(u, v);
    ReleasedIsUnlisted(View(u), lock);
    OnceListed(u);
    WithoutUnique(Held(u), lock);
  }

  lemma RoomForOne(u: Cpu, lock: LockRef)
    requires QuietInv(u) && u.frames == [Updating(Acquired(lock), Written)] && |u.guards| <= HELD_LOCK_CAPACITY
    ensures |Held(u)| < HELD_LOCK_CAPACITY
  {
    ListedIsHeld(u);
    OnceListed(u);
    assert lock !in Held(u);
    ListFits(Held(u) + [lock], u.guards.Keys);
  }

  lemma AcquireIsSeen(u: Cpu, v: Cpu, lock: LockRef)
    requires PublishStep(u, v) && CpuInv(v) && QuietInv(u) && TopPc(u).update == Acquired(lock)
    requires |u.guards| <= HELD_LOCK_CAPACITY
    ensures |u.frames| == |v.frames| == 1 && v.guards == u.guards && View(v).heldCount <= HELD_LOCK_CAPACITY
    ensures Held(v) == Held(u) + [lock] && v.frames[0] == Updating(Acquired(lock), Published)
  {
    AtBottom(u);
    PublishBasics(u, v);
    assert u.frames == [Updating(Acquired(lock), Written)];
    RoomForOne(u, lock);
    AcquiredIsListed(View(u), lock);
  }

  lemma QuietAcquire(u: Cpu, v: Cpu, lock: LockRef)
    requires PublishStep(u, v) && CpuInv(v) && QuietInv(u) && TopPc(u).update == Acquired(lock)
    requires |u.guards| <= HELD_LOCK_CAPACITY
    ensures QuietInv(v)
  {
    AcquireIsSeen(u, v, lock);
    forall l | l in v.guards ensures v.guards[l] == 0 && l in Held(v) {
      assert l in u.guards;
    }
  }

  lemma QuietStepKeeps(s: System, t: System)
    requires QuietSystem(s) && ClassStep(s, t, false, false)
    ensures QuietSystem(t)
  {
    var c: nat, a :| c < |s.cpus| && Shape(s.cpus[c]) && Enabled(s, c, a) && Allowed(s, c, a)
                     && Disciplined(s.cpus[c], a) && t == Next(s, c, a);
    StepKeeps(s, t);
    assert t.cpus[c] == CpuNext(s.cpus[c], a);
    QuietCpuStep(s, c, a);
  }

  lemma {:induction false} QuietRunKeeps(states: seq<System>, n: nat, i: nat)
    requires ClassRun(states, n, false, false) && i < |states|
    ensures QuietSystem(states[i])
    decreases i
  {
    if i == 0 {
      InitEstablishes(states[0]);
    } else {
      QuietRunKeeps(states, n, i - 1);
      QuietNext(states, n, i - 1);
    }
  }

  lemma QuietNext(states: seq<System>, n: nat, i: nat)
    requires ClassRun(states, n, false, false) && i + 1 < |states| && QuietSystem(states[i])
    ensures QuietSystem(states[i + 1])
  {
    QuietStepKeeps(states[i], states[i + 1]);
  }

  // --- Exactly what is reported ------------------------------------------------------------------

  ghost predicate Named(ring: seq<Wait>) {
    forall k :: 0 <= k < |ring| ==> ring[k].lock.kind != 0
  }

  /** The waiter announces the wait, the owner lists the lock, and no later CPU lists it. */
  ghost predicate LinkShown(s: System, w: Wait, owner: nat) {
    && w.cpu < |s.cpus| && Shape(s.cpus[w.cpu]) && View(s.cpus[w.cpu]).waiting == w.lock
    && owner < |s.cpus| && Shape(s.cpus[owner]) && w.lock in Held(s.cpus[owner])
    && forall c :: owner < c < |s.cpus| ==> Shape(s.cpus[c]) && w.lock !in Held(s.cpus[c])
  }

  ghost predicate Shown(s: System, ring: seq<Wait>) {
    forall k :: 0 <= k < |ring| ==> LinkShown(s, ring[k], ring[Successor(k, |ring|)].cpu)
  }

  lemma ShownIsEdge(s: System, w: Wait, owner: nat)
    requires SystemInv(s) && LinkShown(s, w, owner) && w.lock.kind != 0
    ensures w.cpu in WaitsFor(Snapshot(s)) && WaitsFor(Snapshot(s))[w.cpu] == Some(owner)
  {
    var cpus := Snapshot(s);
    EdgeMapOfPrefix(cpus, |cpus|);
    LastOwner(cpus, w.lock, owner);
  }

  lemma EdgeIsShown(s: System, c: nat, o: nat)
    requires SystemInv(s)
    requires var edges := WaitsFor(Snapshot(s)); c in edges && edges[c] == Some(o) && o in edges
    ensures LinkShown(s, WaitOf(s, c), o) && WaitOf(s, o).cpu == o
  {
    var cpus := Snapshot(s);
    EdgeMapOfPrefix(cpus, |cpus|);
    EdgeMeans(s, c, o);
    WaiterAnnounces(s, c);
    WaiterAnnounces(s, o);
    forall d | o < d < |s.cpus| ensures Shape(s.cpus[d]) && View(s.cpus[c]).waiting !in Held(s.cpus[d]) {
      assert CpuInv(s.cpus[d]) && cpus[d].held == Held(s.cpus[d]);
    }
  }

  lemma {:induction false} FollowRing(edges: map<nat, Option<nat>>, ring: seq<Wait>, k: nat)
    requires 0 < |ring| && k <= |ring|
    requires forall i :: 0 <= i < |ring| ==> RingEdge(edges, ring, i)
    ensures Follow(edges, ring[0].cpu, k) == Some(ring[if k == |ring| then 0 else k].cpu)
    decreases k
  {
    if k > 0 {
      FollowRing(edges, ring, k - 1);
      assert RingEdge(edges, ring, k - 1);
      FollowSplit(edges, ring[0].cpu, k - 1, 1);
    }
  }

  ghost predicate RingEdge(edges: map<nat, Option<nat>>, ring: seq<Wait>, i: nat)
    requires i < |ring|
  {
    ring[i].cpu in edges && edges[ring[i].cpu] == Some(ring[Successor(i, |ring|)].cpu)
  }

  lemma ShownIsReported(s: System, ring: seq<Wait>)
    requires SystemInv(s) && Deadlocked(s, ring) && Named(ring) && Shown(s, ring)
    ensures Reports(s)
  {
    var edges := WaitsFor(Snapshot(s));
    forall i | 0 <= i < |ring| ensures RingEdge(edges, ring, i) {
      ShownIsEdge(s, ring[i], ring[Successor(i, |ring|)].cpu);
    }
    FollowRing(edges, ring, |ring|);
    assert CycleAt(edges, ring[0].cpu, |ring|);
  }

  lemma ReportIsShown(s: System) returns (ring: seq<Wait>)
    requires SystemInv(s) && Reports(s)
    ensures Deadlocked(s, ring) && Named(ring) && Shown(s, ring)
  {
    var edges := WaitsFor(Snapshot(s));
    var x: nat, n: nat :| CycleAt(edges, x, n);
    ring := RingOf(s, edges, x, n);
    forall k | 0 <= k < n
      ensures Link(s, ring, k) && ring[k].lock.kind != 0 && LinkShown(s, ring[k], ring[Successor(k, n)].cpu)
    {
      RingLink(s, edges, x, n, k);
      RingEdges(edges, x, n, k);
      EdgeIsShown(s, Reached(edges, x, k), Reached(edges, x, Successor(k, n)));
    }
  }

  /** In every state of every run a deadlock is reported if and only if there is one whose waits are
      all announced and whose locks are all listed, by nobody later than their owner. */
  lemma VerdictIsExact(states: seq<System>, i: nat)
    requires Run(states) && i < |states|
    ensures Reports(states[i]) <==> exists ring :: Deadlocked(states[i], ring) && Named(ring) && Shown(states[i], ring)
  {
    RunKeeps(states, i);
    if Reports(states[i]) {
      var ring := ReportIsShown(states[i]);
    }
    if exists ring :: Deadlocked(states[i], ring) && Named(ring) && Shown(states[i], ring) {
      var ring :| Deadlocked(states[i], ring) && Named(ring) && Shown(states[i], ring);
      ShownIsReported(states[i], ring);
    }
  }

  // --- What can still hide a deadlock in a quiet run ---------------------------------------------------

  /** No CPU is between a real unlock and the publication of the release. */
  ghost predicate NoReleasePending(s: System) {
    forall c, i :: 0 <= c < |s.cpus| && 0 <= i < |s.cpus[c].frames| && Pending(s.cpus[c].frames[i]) ==>
      !s.cpus[c].frames[i].update.Released?
  }

  /** A later CPU than the owner has unlocked `lock` but still lists it. */
  ghost predicate Outlisted(s: System, lock: LockRef, owner: nat) {
    exists c :: owner < c < |s.cpus| && HalfReleased(s.cpus[c], lock)
  }

  ghost predicate HalfReleased(u: Cpu, lock: LockRef) {
    Shape(u) && lock in Held(u) && StaleAt(u.frames, lock, 0)
  }

  ghost predicate Hidden(s: System, ring: seq<Wait>) {
    exists k :: 0 <= k < |ring| && Outlisted(s, ring[k].lock, ring[Successor(k, |ring|)].cpu)
  }

  lemma HiddenIsPending(s: System, ring: seq<Wait>)
    requires Hidden(s, ring)
    ensures !NoReleasePending(s) && |s.cpus| >= 2
  {
    var k :| 0 <= k < |ring| && Outlisted(s, ring[k].lock, ring[Successor(k, |ring|)].cpu);
    var c :| ring[Successor(k, |ring|)].cpu < c < |s.cpus| && HalfReleased(s.cpus[c], ring[k].lock);
    assert Pending(s.cpus[c].frames[0]);
  }

  /** Only the interrupted code is ever blocked. */
  lemma BlockedAtBottom(u: Cpu, f: nat, l: LockRef)
    requires QuietInv(u) && f < |u.frames| && Blocked(u.frames[f], l)
    ensures f == 0 && View(u).waiting == l
  {
    assert f > 0 ==> Harmless(u.frames[f]);
  }

  /** In a quiet system the blocked CPU announces its wait and the owner lists the lock. */
  lemma BothSidesShow(s: System, w: Wait, next: Wait)
    requires QuietSystem(s) && Stuck(s, w, next)
    requires next.frame < |s.cpus[next.cpu].frames| && Blocked(s.cpus[next.cpu].frames[next.frame], next.lock)
    ensures View(s.cpus[w.cpu]).waiting == w.lock
    ensures w.lock in Held(s.cpus[next.cpu])
  {
    BlockedAtBottom(s.cpus[w.cpu], w.frame, w.lock);
    BlockedAtBottom(s.cpus[next.cpu], next.frame, next.lock);
    assert QuietInv(s.cpus[next.cpu]);
  }

  lemma OtherListerReleases(s: System, c: nat, holder: nat, lock: LockRef)
    requires QuietSystem(s) && c < |s.cpus| && holder < |s.cpus| && c != holder
    requires lock in s.cpus[holder].guards && lock in Held(s.cpus[c])
    ensures HalfReleased(s.cpus[c], lock)
  {
    assert QuietInv(s.cpus[c]);
    Once(s.cpus[c], lock);
    if Genuine(s.cpus[c], lock) {
      SharedGuard(s, c, holder, lock);
    }
  }

  lemma RealIsShown(s: System, w: Wait, next: Wait)
    requires QuietSystem(s) && Stuck(s, w, next) && !Outlisted(s, w.lock, next.cpu)
    requires next.frame < |s.cpus[next.cpu].frames| && Blocked(s.cpus[next.cpu].frames[next.frame], next.lock)
    ensures LinkShown(s, w, next.cpu)
  {
    BothSidesShow(s, w, next);
    forall c | next.cpu < c < |s.cpus| ensures w.lock !in Held(s.cpus[c]) {
      if w.lock in Held(s.cpus[c]) {
        OtherListerReleases(s, c, next.cpu, w.lock);
      }
    }
  }

  /** With harmless handlers and enough room, a real deadlock is reported unless one of its locks is
      still listed by a later CPU that has already unlocked it. */
  lemma RealDeadlockIsReported(s: System, ring: seq<Wait>)
    requires QuietSystem(s) && Deadlocked(s, ring) && Named(ring) && !Hidden(s, ring)
    ensures Reports(s)
  {
    forall i | 0 <= i < |ring| ensures LinkShown(s, ring[i], ring[Successor(i, |ring|)].cpu) {
      var j := Successor(i, |ring|);
      assert Link(s, ring, i) && Link(s, ring, j);
      RealIsShown(s, ring[i], ring[j]);
    }
    ShownIsReported(s, ring);
  }

  /** Nothing else hides it: in such runs a deadlock is reported if and only if there is one that is
      not hidden in this way. */
  lemma QuietVerdictIsExact(states: seq<System>, n: nat, i: nat)
    requires ClassRun(states, n, false, false) && i < |states|
    ensures Reports(states[i]) <==> exists ring :: Deadlocked(states[i], ring) && Named(ring) && !Hidden(states[i], ring)
  {
    var s := states[i];
    QuietRunKeeps(states, n, i);
    if Reports(s) {
      var ring := ReportIsShown(s);
      assert !Hidden(s, ring);
    }
    if exists ring :: Deadlocked(s, ring) && Named(ring) && !Hidden(s, ring) {
      var ring :| Deadlocked(s, ring) && Named(ring) && !Hidden(s, ring);
      RealDeadlockIsReported(s, ring);
    }
  }

  // --- Three ways to miss a deadlock ---------------------------------------------------------------------

  /** A run of the class that ends in `s`. */
  ghost predicate Reaches(states: seq<System>, n: nat, handlers: bool, many: bool, s: System) {
    ClassRun(states, n, handlers, many) && states[|states| - 1] == s
  }

  lemma Go(states: seq<System>, n: nat, handlers: bool, many: bool, s: System, c: nat, a: Action)
      returns (more: seq<System>)
    requires Reaches(states, n, handlers, many, s) && c < |s.cpus| && Shape(s.cpus[c]) && Enabled(s, c, a)
    requires Allowed(s, c, a) && (handlers || Disciplined(s.cpus[c], a)) && (many || WithinCapacity(Next(s, c, a)))
    ensures Reaches(more, n, handlers, many, Next(s, c, a))
  {
    more := states + [Next(s, c, a)];
    assert ClassStep(s, Next(s, c, a), handlers, many);
  }

  lemma GoByUpdate(states: seq<System>, n: nat, handlers: bool, many: bool, s: System, c: nat)
      returns (more: seq<System>)
    requires Reaches(states, n, handlers, many, s) && c < |s.cpus| && Shape(s.cpus[c]) && !s.cpus[c].writing
    requires TopPc(s.cpus[c]).Updating? && TopPc(s.cpus[c]).stage == Entered && (many || WithinCapacity(s))
    ensures Reaches(more, n, handlers, many, s.(cpus := s.cpus[c := Settled(s.cpus[c])]))
  {
    var s1 := Next(s, c, Claim);
    more := Go(states, n, handlers, many, s, c, Claim);
    var s2 := Next(s1, c, Write);
    more := Go(more, n, handlers, many, s1, c, Write);
    var s3 := Next(s2, c, Publish);
    more := Go(more, n, handlers, many, s2, c, Publish);
    var s4 := Next(s3, c, Unclaim);
    more := Go(more, n, handlers, many, s3, c, Unclaim);
    assert s4.cpus[c] == Settled(s.cpus[c]);
    assert s4.cpus == s.cpus[c := Settled(s.cpus[c])];
    assert s4.locked == s.locked;
  }

  function Lock(i: nat): LockRef requires i < 0x1_0000 { LockRef(1, i) }

  /** CPU 0 holds locks 1 to `k` in its only frame; all other CPUs are idle. */
  ghost predicate Holding(s: System, n: nat, k: nat)
    requires k <= 9
  {
    && |s.cpus| == n > 0 && (forall c :: 0 < c < n ==> s.cpus[c] == INITIAL_CPU)
    && HoldsLocks(s.cpus[0], k) && s.locked == s.cpus[0].guards.Keys
  }

  ghost predicate HoldsLocks(u: Cpu, k: nat)
    requires k <= 9
  {
    && Shape(u) && !u.writing && u.frames == [Running] && View(u).waiting == NO_LOCK
    && (forall l :: l in u.guards <==> exists i: nat :: 1 <= i <= k && l == Lock(i)) && |u.guards| == k
    && (forall l :: l in u.guards ==> u.guards[l] == 0)
    && View(u).heldCount == Min(k, 8) && forall l :: l in Held(u) ==> exists i: nat :: 1 <= i <= Min(k, 8) && l == Lock(i)
  }

  lemma {:induction false} TakeLocks(n: nat, handlers: bool, many: bool, k: nat) returns (states: seq<System>, s: System)
    requires n > 0 && k <= 9 && (many || k <= 8)
    ensures Reaches(states, n, handlers, many, s) && Holding(s, n, k)
    decreases k
  {
    if k == 0 {
      s := System(seq(n, _ => INITIAL_CPU), {});
      states := [s];
    } else {
      var r: System;
      states, r := TakeLocks(n, handlers, many, k - 1);
      var t := Next(r, 0, TryLock(Lock(k)));
      TakeOne(r, n, k);
      states := Go(states, n, handlers, many, r, 0, TryLock(Lock(k)));
      states := GoByUpdate(states, n, handlers, many, t, 0);
      s := t.(cpus := t.cpus[0 := Settled(t.cpus[0])]);
    }
  }

  lemma TakeOne(r: System, n: nat, k: nat)
    requires 0 < k <= 9 && Holding(r, n, k - 1)
    ensures Lock(k) !in r.locked
    ensures var t := Next(r, 0, TryLock(Lock(k)));
            && Shape(t.cpus[0]) && (k <= 8 ==> WithinCapacity(t))
            && Holding(t.(cpus := t.cpus[0 := Settled(t.cpus[0])]), n, k)
  {
    var u, t := r.cpus[0], Next(r, 0, TryLock(Lock(k)));
    var v := CpuNext(u, TryLock(Lock(k)));
    TakeOnCpu(u, v, k);
    assert t.cpus == r.cpus[0 := v] && t.locked == r.locked + {Lock(k)};
  }

  lemma TakeOnCpu(u: Cpu, v: Cpu, k: nat)
    requires 0 < k <= 9 && HoldsLocks(u, k - 1) && v == CpuNext(u, TryLock(Lock(k)))
    ensures Lock(k) !in u.guards && Shape(v) && TopPc(v).Updating? && |v.guards| == k
    ensures HoldsLocks(Settled(v), k) && Settled(v).guards.Keys == u.guards.Keys + {Lock(k)}
  {
    MoreGuards(u.guards, v.guards, k);
    TakeIsListed(u, v, k);
    NowListed(Held(u), Held(Settled(v)), k);
  }

  lemma TakeIsListed(u: Cpu, v: Cpu, k: nat)
    requires 0 < k <= 9 && HoldsLocks(u, k - 1) && v == CpuNext(u, TryLock(Lock(k)))
    ensures Shape(v) && v.frames == [Updating(Acquired(Lock(k)), Entered)] && v.guards == u.guards[Lock(k) := 0]
    ensures var w := Settled(v);
            && Shape(w) && !w.writing && w.frames == [Running] && w.guards == v.guards && View(w).waiting == NO_LOCK
            && View(w).heldCount == Min(k, 8) && Held(w) == if k <= 8 then Held(u) + [Lock(k)] else Held(u)
  {
    SettledAcquires(v, Lock(k));
  }

  lemma NowListed(list: seq<LockRef>, more: seq<LockRef>, k: nat)
    requires 0 < k <= 9 && more == if k <= 8 then list + [Lock(k)] else list
    requires forall l :: l in list ==> exists i: nat :: 1 <= i <= Min(k - 1, 8) && l == Lock(i)
    ensures forall l :: l in more ==> exists i: nat :: 1 <= i <= Min(k, 8) && l == Lock(i)
  {
    forall l | l in more ensures exists i: nat :: 1 <= i <= Min(k, 8) && l == Lock(i) {
      if l !in list {
        assert l == Lock(k) && k <= 8;
      }
    }
  }

  lemma MoreGuards(guards: map<LockRef, nat>, more: map<LockRef, nat>, k: nat)
    requires 0 < k <= 9 && more == guards[Lock(k) := 0]
    requires forall l :: l in guards <==> exists i: nat :: 1 <= i <= k - 1 && l == Lock(i)
    ensures forall l :: l in more <==> exists i: nat :: 1 <= i <= k && l == Lock(i)
    ensures Lock(k) !in guards && |more| == |guards| + 1 && more.Keys == guards.Keys + {Lock(k)}
  {
  }

  /** A settled acquisition appends the lock if there is room. */
  lemma SettledAcquires(v: Cpu, l: LockRef)
    requires Shape(v) && v.frames == [Updating(Acquired(l), Entered)]
    ensures var w := Settled(v);
            && Shape(w) && w.frames == [Running] && w.writing == v.writing && w.guards == v.guards
            && View(w).waiting == NO_LOCK
            && View(w).heldCount == (if View(v).heldCount < 8 then View(v).heldCount + 1 else View(v).heldCount)
            && Held(w) == (if View(v).heldCount < 8 then Held(v) + [l] else Held(v))
  {
    AcquiredIsListed(View(v), l);
    assert View(Settled(v)) == Apply(Acquired(l), View(v));
  }

  /** CPU 0 waits for a lock that it holds itself. */
  lemma SelfDeadlock(s: System, l: LockRef)
    requires |s.cpus| > 0 && s.cpus[0].frames != [] && s.cpus[0].frames[0] == Spinning(l) && l.kind != 0
    requires l in s.cpus[0].guards && s.cpus[0].guards[l] == 0
    ensures exists ring :: Deadlocked(s, ring) && Named(ring)
  {
    var ring := [Wait(0, 0, l)];
    assert Link(s, ring, 0);
    assert Deadlocked(s, ring) && Named(ring);
  }

  /** Nobody but CPU 0 announces a wait, and nobody lists what it waits for. */
  lemma NoReport(s: System)
    requires |s.cpus| > 0 && forall c :: 0 <= c < |s.cpus| ==> Shape(s.cpus[c])
    requires forall c :: 0 < c < |s.cpus| ==> s.cpus[c] == INITIAL_CPU
    requires View(s.cpus[0]).waiting.kind == 0 || View(s.cpus[0]).waiting !in Held(s.cpus[0])
    ensures !Reports(s)
  {
    var cpus := Snapshot(s);
    var edges := WaitsFor(cpus);
    EdgeMapOfPrefix(cpus, |cpus|);
    assert forall c :: 0 < c < |cpus| ==> cpus[c] == CpuView(NO_LOCK, []);
    assert forall c :: c in edges ==> c == 0 && edges[c] == None;
    forall x, n ensures !CycleAt(edges, x, n) {
      if CycleAt(edges, x, n) {
        AlongCycle(edges, x, n, 0);
      }
    }
  }

  /** CPU `c` publishes that it waits for a lock that it holds. */
  lemma WaitForOwn(states: seq<System>, n: nat, handlers: bool, many: bool, r: System, c: nat, lock: LockRef)
      returns (more: seq<System>, s: System)
    requires Reaches(states, n, handlers, many, r) && (many || WithinCapacity(r)) && c < |r.cpus| && lock in r.locked
    requires var u := r.cpus[c]; Shape(u) && !u.writing && u.frames == [Running]
    ensures Reaches(more, n, handlers, many, s) && s.locked == r.locked
    ensures |s.cpus| == |r.cpus| && s.cpus == r.cpus[c := s.cpus[c]]
    ensures var u := s.cpus[c];
            && Shape(u) && !u.writing && u.frames == [Spinning(lock)] && u.guards == r.cpus[c].guards
            && View(u).waiting == lock && Held(u) == Held(r.cpus[c])
  {
    more := Go(states, n, handlers, many, r, c, Contend(lock));
    var t := Next(r, c, Contend(lock));
    more := GoByUpdate(more, n, handlers, many, t, c);
    s := t.(cpus := t.cpus[c := Settled(t.cpus[c])]);
  }

  /** The ninth lock is not listed, so the CPU's wait for it has no owner. */
  lemma NinthLockIsMissed(n: nat, handlers: bool) returns (states: seq<System>, s: System)
    requires n > 0
    ensures Reaches(states, n, handlers, true, s) && NoReleasePending(s) && !Reports(s)
    ensures exists ring :: Deadlocked(s, ring) && Named(ring)
  {
    var r: System;
    states, r := TakeLocks(n, handlers, true, 9);
    assert Lock(9) in r.cpus[0].guards;
    states, s := WaitForOwn(states, n, handlers, true, r, 0, Lock(9));
    SelfDeadlock(s, Lock(9));
    NoReport(s);
  }

  /** A handler that takes another lock erases the wait that the interrupted code announced. */
  lemma HandlerErasesWait(n: nat, many: bool) returns (states: seq<System>, s: System)
    requires n > 0
    ensures Reaches(states, n, true, many, s) && NoReleasePending(s) && !Reports(s)
    ensures exists ring :: Deadlocked(s, ring) && Named(ring)
  {
    var r: System;
    states, r := TakeLocks(n, true, many, 1);
    assert Lock(1) in r.cpus[0].guards;
    states, s := WaitForOwn(states, n, true, many, r, 0, Lock(1));
    states, s := HandlerTakes(states, n, many, s);
    SelfDeadlock(s, Lock(1));
    NoReport(s);
  }

  lemma HandlerTakes(states: seq<System>, n: nat, many: bool, r: System) returns (more: seq<System>, s: System)
    requires n > 0 && Reaches(states, n, true, many, r) && |r.cpus| == n && r.locked == r.cpus[0].guards.Keys
    requires forall c :: 0 < c < n ==> r.cpus[c] == INITIAL_CPU
    requires var u := r.cpus[0];
             Shape(u) && !u.writing && u.frames == [Spinning(Lock(1))] && |u.guards| == 1 && Lock(2) !in u.guards
    ensures Reaches(more, n, true, many, s) && |s.cpus| == n && forall c :: 0 < c < n ==> s.cpus[c] == INITIAL_CPU
    ensures var u := s.cpus[0];
            && Shape(u) && u.frames == [Spinning(Lock(1)), Running] && View(u).waiting == NO_LOCK
            && u.guards == r.cpus[0].guards[Lock(2) := 1]
  {
    more := Go(states, n, true, many, r, 0, Trap);
    var t := Next(r, 0, Trap);
    more := Go(more, n, true, many, t, 0, TryLock(Lock(2)));
    var v := Next(t, 0, TryLock(Lock(2)));
    more := GoByUpdate(more, n, true, many, v, 0);
    s := v.(cpus := v.cpus[0 := Settled(v.cpus[0])]);
  }

  /** A CPU that holds nothing takes a free lock and publishes it. */
  lemma TakeFree(states: seq<System>, n: nat, handlers: bool, many: bool, s: System, c: nat, lock: LockRef)
      returns (more: seq<System>, t: System)
    requires Reaches(states, n, handlers, many, s) && c < |s.cpus| && s.cpus[c] == INITIAL_CPU && lock !in s.locked
    requires forall d :: 0 <= d < |s.cpus| ==> |s.cpus[d].guards| <= 1
    ensures Reaches(more, n, handlers, many, t)
    ensures t.locked == s.locked + {lock} && |t.cpus| == |s.cpus| && t.cpus == s.cpus[c := t.cpus[c]]
    ensures var u := t.cpus[c];
            && Shape(u) && !u.writing && u.frames == [Running] && u.guards == map[lock := 0]
            && Held(u) == [lock] && View(u).waiting == NO_LOCK
  {
    var r := Next(s, c, TryLock(lock));
    more := Go(states, n, handlers, many, s, c, TryLock(lock));
    more := GoByUpdate(more, n, handlers, many, r, c);
    SettledAcquires(r.cpus[c], lock);
    t := r.(cpus := r.cpus[c := Settled(r.cpus[c])]);
  }

  /** CPU 0 waits for a lock that it lists, but CPU 1 lists it too, and waits for nothing. */
  lemma OutlistedIsMissed(s: System)
    requires |s.cpus| >= 2 && forall c :: 0 <= c < |s.cpus| ==> Shape(s.cpus[c])
    requires forall c :: 1 <= c < |s.cpus| ==> View(s.cpus[c]).waiting == NO_LOCK
    requires forall c :: 2 <= c < |s.cpus| ==> Held(s.cpus[c]) == []
    requires View(s.cpus[0]).waiting in Held(s.cpus[1])
    ensures !Reports(s)
  {
    var cpus := Snapshot(s);
    var edges := WaitsFor(cpus);
    EdgeMapOfPrefix(cpus, |cpus|);
    LastOwner(cpus, View(s.cpus[0]).waiting, 1);
    assert forall c :: c in edges ==> c == 0 && edges[c] == Some(1);
    forall x, n ensures !CycleAt(edges, x, n) {
      if CycleAt(edges, x, n) {
        AlongCycle(edges, x, n, 0);
        AlongCycle(edges, x, n, 1);
      }
    }
  }

  /** CPU 1 has unlocked a lock and not published that yet. */
  lemma UnlockHalfway(n: nat, handlers: bool, many: bool) returns (states: seq<System>, s: System)
    requires n >= 2
    ensures Reaches(states, n, handlers, many, s) && |s.cpus| == n && s.locked == {}
    ensures forall c :: 0 <= c < n && c != 1 ==> s.cpus[c] == INITIAL_CPU
    ensures var u := s.cpus[1]; Shape(u) && u.guards == map[] && Held(u) == [Lock(1)] && View(u).waiting == NO_LOCK
  {
    var r := System(seq(n, _ => INITIAL_CPU), {});
    var t: System;
    states := [r];
    states, t := TakeFree(states, n, handlers, many, r, 1, Lock(1));
    states := Go(states, n, handlers, many, t, 1, Unlock(Lock(1)));
    s := Next(t, 1, Unlock(Lock(1)));
  }

  /** Now CPU 0 takes the lock and then waits for it, while CPU 1 still lists it. */
  lemma HalfDoneReleaseHidesDeadlock(n: nat, handlers: bool, many: bool) returns (states: seq<System>, s: System)
    requires n >= 2
    ensures Reaches(states, n, handlers, many, s) && !Reports(s)
    ensures exists ring :: Deadlocked(s, ring) && Named(ring)
  {
    var r: System, t: System;
    states, r := UnlockHalfway(n, handlers, many);
    states, t := TakeFree(states, n, handlers, many, r, 0, Lock(1));
    states, s := WaitForOwn(states, n, handlers, many, t, 0, Lock(1));
    SelfDeadlock(s, Lock(1));
    OutlistedIsMissed(s);
  }

  // --- Exactly when no deadlock is missed ---------------------------------------------------------------

  /** A real deadlock is reported, wherever the machine is stopped, or wherever no release is half done. */
  ghost predicate Complete(states: seq<System>, halfDone: bool) {
    forall i :: 0 <= i < |states| && (halfDone || NoReleasePending(states[i])) && !Reports(states[i]) ==>
      forall ring :: Deadlocked(states[i], ring) ==> !Named(ring)
  }

  /** Over all runs of `n` CPUs, no deadlock is missed if and only if handlers take no tracked locks, no
      CPU holds more of them than it can list, and there is one CPU or the machine is not judged while
      a release is half done. */
  lemma VerdictIsCompleteExactly(n: nat, handlers: bool, many: bool, halfDone: bool)
    ensures (forall states :: ClassRun(states, n, handlers, many) ==> Complete(states, halfDone))
       <==> n == 0 || (!handlers && !many && (!halfDone || n < 2))
  {
    if n > 0 && handlers {
      var states, s := HandlerErasesWait(n, many);
      assert ClassRun(states, n, handlers, many) && !Complete(states, halfDone);
    } else if n > 0 && many {
      var states, s := NinthLockIsMissed(n, handlers);
      assert ClassRun(states, n, handlers, many) && !Complete(states, halfDone);
    } else if halfDone && n >= 2 {
      var states, s := HalfDoneReleaseHidesDeadlock(n, handlers, many);
      assert ClassRun(states, n, handlers, many) && !Complete(states, halfDone);
    } else {
      forall states | ClassRun(states, n, handlers, many) ensures Complete(states, halfDone) {
        ClassIsComplete(states, n, handlers, many, halfDone);
      }
    }
  }

  lemma {:induction false} CpusStay(states: seq<System>, n: nat, handlers: bool, many: bool, i: nat)
    requires ClassRun(states, n, handlers, many) && i < |states|
    ensures |states[i].cpus| == n
    decreases i
  {
    if i > 0 {
      CpusStay(states, n, handlers, many, i - 1);
      assert ClassStep(states[i - 1], states[i - 1 + 1], handlers, many);
    }
  }

  lemma RingNeedsCpus(s: System, ring: seq<Wait>)
    requires Deadlocked(s, ring)
    ensures |s.cpus| > 0
  {
    assert Link(s, ring, 0);
  }

  lemma ClassIsComplete(states: seq<System>, n: nat, handlers: bool, many: bool, halfDone: bool)
    requires ClassRun(states, n, handlers, many)
    requires n == 0 || (!handlers && !many && (!halfDone || n < 2))
    ensures Complete(states, halfDone)
  {
    forall i, ring | 0 <= i < |states| && (halfDone || NoReleasePending(states[i])) && !Reports(states[i])
                     && Deadlocked(states[i], ring)
      ensures !Named(ring)
    {
      CpusStay(states, n, handlers, many, i);
      RingNeedsCpus(states[i], ring);
      if Named(ring) {
        QuietRunKeeps(states, n, i);
        if Hidden(states[i], ring) {
          HiddenIsPending(states[i], ring);
        } else {
          RealDeadlockIsReported(states[i], ring);
        }
      }
    }
  }
}
