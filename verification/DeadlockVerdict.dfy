/** The host side: waits-for edges from a snapshot, the cycle walk, and what its verdict means
for the machine that was stopped. */
module DeadlockVerdict {
  import opened Wrappers
  import opened DebugState
  import opened LockProtocol
  import opened LockInvariant

  /** The part of a decoded CPU that the deadlock check reads. */
  datatype CpuView = CpuView(waiting: LockRef, held: seq<LockRef>)

  datatype Edge = Edge(waiter: nat, owner: Option<nat>, lock: LockRef)

  // --- lock_wait_edges -------------------------------------------------------------------

  /** The owner that ends up in the dictionary: later CPUs overwrite earlier ones. */
  function OwnerOf(cpus: seq<CpuView>, lock: LockRef): (o: Option<nat>)
    ensures o.Some? ==> o.value < |cpus| && lock in cpus[o.value].held
    ensures o.Some? ==> forall c :: o.value < c < |cpus| ==> lock !in cpus[c].held
    ensures o.None? ==> forall c :: 0 <= c < |cpus| ==> lock !in cpus[c].held
  {
    if cpus == [] then None
    else if lock in cpus[|cpus| - 1].held then Some(|cpus| - 1)
    else OwnerOf(cpus[..|cpus| - 1], lock)
  }

  lemma LastOwner(cpus: seq<CpuView>, lock: LockRef, holder: nat)
    requires holder < |cpus| && lock in cpus[holder].held
    requires forall c :: holder < c < |cpus| ==> lock !in cpus[c].held
    ensures OwnerOf(cpus, lock) == Some(holder)
  {
  }

  function EdgesUpTo(cpus: seq<CpuView>, n: nat): seq<Edge>
    requires n <= |cpus|
  {
    if n == 0 then []
    else if cpus[n - 1].waiting.kind == 0 then EdgesUpTo(cpus, n - 1)
    else EdgesUpTo(cpus, n - 1) + [EdgeOf(cpus, n - 1)]
  }

  /** `owners` is the dictionary after the first `n` CPUs. */
  ghost predicate IsOwners(owners: map<LockRef, nat>, cpus: seq<CpuView>, n: nat)
    requires n <= |cpus|
  {
    forall l :: OwnerOf(cpus[..n], l) == if l in owners then Some(owners[l]) else None
  }

  lemma OwnersStep(before: map<LockRef, nat>, owners: map<LockRef, nat>, cpus: seq<CpuView>, n: nat)
    requires n < |cpus| && IsOwners(before, cpus, n)
    requires var held := cpus[n].held; forall l :: l in owners <==> l in before || l in held[..|held|]
    requires var held := cpus[n].held; forall l :: l in owners ==> owners[l] == if l in held[..|held|] then n else before[l]
    ensures IsOwners(owners, cpus, n + 1)
  {
    assert cpus[n].held[..|cpus[n].held|] == cpus[n].held;
    assert cpus[..n + 1][..n] == cpus[..n];
  }

  method CollectOwners(cpus: seq<CpuView>) returns (owners: map<LockRef, nat>)
    ensures IsOwners(owners, cpus, |cpus|)
  {
    owners := map[];
    for cpu := 0 to |cpus|
      invariant IsOwners(owners, cpus, cpu)
    {
      ghost var before := owners;
      var held := cpus[cpu].held;
      for i := 0 to |held|
        invariant forall l :: l in owners <==> l in before || l in held[..i]
        invariant forall l :: l in owners ==> owners[l] == if l in held[..i] then cpu else before[l]
      {
        owners := owners[held[i] := cpu];
      }
      OwnersStep(before, owners, cpus, cpu);
    }
  }

  /** The edge of a waiting CPU. */
  function EdgeOf(cpus: seq<CpuView>, c: nat): Edge
    requires c < |cpus|
  {
    Edge(c, OwnerOf(cpus, cpus[c].waiting), cpus[c].waiting)
  }

  ghost predicate Ascending(edges: seq<Edge>) {
    forall i, j :: 0 <= i < j < |edges| ==> edges[i].waiter < edges[j].waiter
  }

  /** There is exactly one edge for every CPU that waits, in the order of the CPUs. */
  lemma {:induction false} EdgesAreWaiters(cpus: seq<CpuView>, n: nat)
    requires n <= |cpus|
    ensures forall e :: e in EdgesUpTo(cpus, n) <==> e.waiter < n && cpus[e.waiter].waiting.kind != 0 && e == EdgeOf(cpus, e.waiter)
    ensures Ascending(EdgesUpTo(cpus, n))
  {
    if n > 0 {
      EdgesAreWaiters(cpus, n - 1);
      var before, edges := EdgesUpTo(cpus, n - 1), EdgesUpTo(cpus, n);
      assert edges == before || edges == before + [EdgeOf(cpus, n - 1)];
      forall i | 0 <= i < |before| ensures before[i].waiter < n - 1 {
        assert before[i] in before;
      }
    }
  }

  method LockWaitEdges(cpus: seq<CpuView>) returns (waits: seq<Edge>)
    ensures waits == EdgesUpTo(cpus, |cpus|)
  {
    var owners := CollectOwners(cpus);
    assert cpus[..|cpus|] == cpus;
    waits := [];
    for cpu := 0 to |cpus|
      invariant waits == EdgesUpTo(cpus, cpu)
    {
      var lock := cpus[cpu].waiting;
      if lock.kind != 0 {
        waits := waits + [Edge(cpu, if lock in owners then Some(owners[lock]) else None, lock)];
      }
    }
  }

  /** `edge_map`: the waiter's CPU number to the owner's. */
  function EdgeMap(edges: seq<Edge>): map<nat, Option<nat>> {
    if edges == [] then map[]
    else EdgeMap(edges[..|edges| - 1])[edges[|edges| - 1].waiter := edges[|edges| - 1].owner]
  }

  lemma EdgeMapGrows(edges: seq<Edge>, e: Edge)
    ensures EdgeMap(edges + [e]) == EdgeMap(edges)[e.waiter := e.owner]
  {
    assert (edges + [e])[..|edges|] == edges;
  }

  /** `m` is the edge map of the first `n` CPUs. */
  ghost predicate IsEdgeMap(m: map<nat, Option<nat>>, cpus: seq<CpuView>, n: nat)
    requires n <= |cpus|
  {
    && (forall c: nat :: c in m <==> c < n && cpus[c].waiting.kind != 0)
    && (forall c: nat :: c in m ==> m[c] == OwnerOf(cpus, cpus[c].waiting))
  }

  lemma {:induction false} EdgeMapOfPrefix(cpus: seq<CpuView>, n: nat)
    requires n <= |cpus|
    ensures IsEdgeMap(EdgeMap(EdgesUpTo(cpus, n)), cpus, n)
  {
    if n > 0 {
      EdgeMapOfPrefix(cpus, n - 1);
      EdgeMapNext(cpus, n - 1);
      EdgeMapStep(EdgeMap(EdgesUpTo(cpus, n - 1)), cpus, n - 1, EdgeOf(cpus, n - 1));
    }
  }

  lemma EdgeMapNext(cpus: seq<CpuView>, n: nat)
    requires n < |cpus|
    ensures var before, e := EdgeMap(EdgesUpTo(cpus, n)), EdgeOf(cpus, n);
            EdgeMap(EdgesUpTo(cpus, n + 1)) == if cpus[n].waiting.kind == 0 then before else before[e.waiter := e.owner]
  {
    EdgeMapGrows(EdgesUpTo(cpus, n), EdgeOf(cpus, n));
  }

  lemma EdgeMapStep(m: map<nat, Option<nat>>, cpus: seq<CpuView>, n: nat, e: Edge)
    requires n < |cpus| && IsEdgeMap(m, cpus, n) && e == EdgeOf(cpus, n)
    ensures IsEdgeMap(if cpus[n].waiting.kind == 0 then m else m[e.waiter := e.owner], cpus, n + 1)
  {
  }

  function WaitsFor(cpus: seq<CpuView>): map<nat, Option<nat>> {
    EdgeMap(EdgesUpTo(cpus, |cpus|))
  }

  // --- The cycle walk of classify_stall -----------------------------------------------------

  /** The CPU reached from `x` after `n` edges. */
  function Follow(edges: map<nat, Option<nat>>, x: nat, n: nat): Option<nat>
    decreases n
  {
    if n == 0 then Some(x)
    else if x in edges && edges[x].Some? then Follow(edges, edges[x].value, n - 1)
    else None
  }

  ghost predicate CycleAt(edges: map<nat, Option<nat>>, x: nat, n: nat) {
    n > 0 && Follow(edges, x, n) == Some(x)
  }

  ghost predicate HasCycle(edges: map<nat, Option<nat>>) {
    exists x, n :: CycleAt(edges, x, n)
  }

  lemma {:induction false} FollowSplit(edges: map<nat, Option<nat>>, x: nat, a: nat, b: nat)
    ensures Follow(edges, x, a + b)
         == if Follow(edges, x, a).Some? then Follow(edges, Follow(edges, x, a).value, b) else None
    decreases a
  {
    if a > 0 && x in edges && edges[x].Some? {
      FollowSplit(edges, edges[x].value, a - 1, b);
    }
  }

  /** On a cycle the walk never falls off. */
  lemma {:induction false} CycleNeverEnds(edges: map<nat, Option<nat>>, x: nat, n: nat, k: nat)
    requires CycleAt(edges, x, n)
    ensures Follow(edges, x, k).Some?
    decreases k
  {
    if k >= n {
      CycleNeverEnds(edges, x, n, k - n);
      FollowSplit(edges, x, n, k - n);
    } else {
      FollowSplit(edges, x, k, n - k);
    }
  }

  /** The two nested loops that look for a revisited CPU: they terminate, and they report a deadlock
      exactly when the edges contain a cycle. The result does not depend on the order in which
      the starting points are tried. */
  method FindCycle(edges: map<nat, Option<nat>>) returns (deadlock: bool)
    ensures deadlock <==> HasCycle(edges)
  {
    var starts := edges.Keys;
    while starts != {}
      invariant starts <= edges.Keys
      invariant forall x, n :: x in edges.Keys - starts ==> !CycleAt(edges, x, n)
      decreases starts
    {
      var start: nat :| start in starts;
      starts := starts - {start};
      var seen: set<nat> := {};
      ghost var trail: seq<nat> := [];
      var cpu: Option<nat> := Some(start);
      while cpu.Some? && cpu.value in edges
        invariant seen <= edges.Keys
        invariant forall y :: y in seen <==> y in trail
        invariant forall k :: 0 <= k < |trail| ==> Follow(edges, start, k) == Some(trail[k])
        invariant cpu == Follow(edges, start, |trail|)
        decreases edges.Keys - seen
      {
        if cpu.value in seen {
          ghost var k :| 0 <= k < |trail| && trail[k] == cpu.value;
          FollowSplit(edges, start, k, |trail| - k);
          assert CycleAt(edges, cpu.value, |trail| - k);
          return true;
        }
        seen := seen + {cpu.value};
        FollowSplit(edges, start, |trail|, 1);
        trail := trail + [cpu.value];
        cpu := edges[cpu.value];
      }
      forall n ensures !CycleAt(edges, start, n) {
        if CycleAt(edges, start, n) {
          CycleNeverEnds(edges, start, n, |trail|);
          CycleNeverEnds(edges, start, n, |trail| + 1);
          FollowSplit(edges, start, |trail|, 1);
          assert false;
        }
      }
    }
    assert forall x, n :: CycleAt(edges, x, n) ==> x in edges;
    return false;
  }

  // --- What a cycle in a snapshot means ------------------------------------------------------

  /** What the host reads from every CPU's published slot. */
  function Snapshot(s: System): seq<CpuView>
    requires forall c :: 0 <= c < |s.cpus| ==> Shape(s.cpus[c])
  {
    seq(|s.cpus|, c requires 0 <= c < |s.cpus| => CpuView(View(s.cpus[c]).waiting, Held(s.cpus[c])))
  }

  /** Frame `frame` of CPU `cpu` waits for `lock`. */
  datatype Wait = Wait(cpu: nat, frame: nat, lock: LockRef)

  function Successor(k: nat, n: nat): nat requires k < n { if k + 1 == n then 0 else k + 1 }

  /** `w` is blocked on a mutex that CPU `next.cpu` has really locked, and the guard belongs to the
      frame of that CPU that is itself blocked in `next`, or to a frame it interrupted. */
  ghost predicate Stuck(s: System, w: Wait, next: Wait) {
    && w.cpu < |s.cpus| && next.cpu < |s.cpus|
    && w.frame < |s.cpus[w.cpu].frames|
    && Blocked(s.cpus[w.cpu].frames[w.frame], w.lock)
    && w.lock in s.cpus[next.cpu].guards
    && s.cpus[next.cpu].guards[w.lock] <= next.frame
  }

  ghost predicate Link(s: System, ring: seq<Wait>, k: nat)
    requires k < |ring|
  {
    Stuck(s, ring[k], ring[Successor(k, |ring|)])
  }

  ghost predicate Deadlocked(s: System, ring: seq<Wait>) {
    && |ring| > 0
    && forall k :: 0 <= k < |ring| ==> Link(s, ring, k)
  }

  ghost predicate Reports(s: System) {
    && (forall c :: 0 <= c < |s.cpus| ==> Shape(s.cpus[c]))
    && HasCycle(WaitsFor(Snapshot(s)))
  }

  ghost predicate Announced(s: System, w: Wait) {
    && w.cpu < |s.cpus| && Shape(s.cpus[w.cpu])
    && w.lock == View(s.cpus[w.cpu]).waiting && w.lock.kind != 0
    && WaitingAt(s.cpus[w.cpu], w.lock, w.frame)
  }

  /** The wait that CPU `c` announces, if it announces one. */
  ghost function WaitOf(s: System, c: nat): (w: Wait) {
    if exists w: Wait :: w.cpu == c && Announced(s, w)
    then var w: Wait :| w.cpu == c && Announced(s, w); w
    else Wait(c, 0, NO_LOCK)
  }

  lemma WaiterAnnounces(s: System, c: nat)
    requires SystemInv(s) && c < |s.cpus| && View(s.cpus[c]).waiting.kind != 0
    ensures WaitOf(s, c).cpu == c && Announced(s, WaitOf(s, c))
  {
    var lock := View(s.cpus[c]).waiting;
    assert CpuInv(s.cpus[c]) && WaitInv(s.cpus[c]);
    var f: nat :| WaitingAt(s.cpus[c], lock, f);
    assert Announced(s, Wait(c, f, lock)) && Wait(c, f, lock).cpu == c;
  }

  lemma SharedGuard(s: System, c: nat, d: nat, lock: LockRef)
    requires MutexInv(s) && c < |s.cpus| && d < |s.cpus|
    requires lock in s.cpus[c].guards && lock in s.cpus[d].guards
    ensures c == d
  {
    assert lock in Owned(s)[c] && lock in Owned(s)[d];
  }

  /** An edge between two waiting CPUs is real, although an announced wait outlives the acquisition
      and a listed lock outlives the real unlock. */
  lemma EdgeIsReal(s: System, c: nat, o: nat)
    requires SystemInv(s)
    requires var edges := WaitsFor(Snapshot(s)); c in edges && edges[c] == Some(o) && o in edges
    ensures WaitOf(s, c).lock.kind != 0
    ensures Stuck(s, WaitOf(s, c), WaitOf(s, o))
  {
    EdgeMeans(s, c, o);
    WaiterAnnounces(s, c);
    WaiterAnnounces(s, o);
    HolderIsAnother(s, WaitOf(s, c), WaitOf(s, o));
  }

  lemma EdgeMeans(s: System, c: nat, o: nat)
    requires SystemInv(s)
    requires var edges := WaitsFor(Snapshot(s)); c in edges && edges[c] == Some(o) && o in edges
    ensures c < |s.cpus| && o < |s.cpus|
    ensures View(s.cpus[c]).waiting.kind != 0 && View(s.cpus[o]).waiting.kind != 0
    ensures View(s.cpus[c]).waiting in Held(s.cpus[o])
  {
    var cpus := Snapshot(s);
    EdgeMapOfPrefix(cpus, |cpus|);
  }

  lemma HolderIsAnother(s: System, w: Wait, next: Wait)
    requires SystemInv(s) && Announced(s, w) && Announced(s, next)
    requires w.lock in Held(s.cpus[next.cpu])
    ensures Stuck(s, w, next)
  {
    var u, v := s.cpus[w.cpu], s.cpus[next.cpu];
    NoStaleIsZero(v.frames, w.lock);
    assert CpuInv(v) && multiset(Held(v))[w.lock] > 0;
    assert Genuine(v, w.lock) && v.guards[w.lock] <= next.frame;
    if !Blocked(u.frames[w.frame], w.lock) {
      assert CpuInv(u) && GuardInv(u);
      assert w.lock in u.guards && u.guards[w.lock] == w.frame;
      SharedGuard(s, w.cpu, next.cpu, w.lock);
      assert false;
    }
  }

  lemma AlongCycle(edges: map<nat, Option<nat>>, x: nat, n: nat, k: nat)
    requires CycleAt(edges, x, n)
    ensures Follow(edges, x, k).Some? && Follow(edges, x, k + 1).Some?
    ensures Follow(edges, x, k).value in edges
    ensures edges[Follow(edges, x, k).value] == Follow(edges, x, k + 1)
  {
    CycleNeverEnds(edges, x, n, k);
    CycleNeverEnds(edges, x, n, k + 1);
    FollowSplit(edges, x, k, 1);
  }

  function Reached(edges: map<nat, Option<nat>>, x: nat, k: nat): nat {
    var o := Follow(edges, x, k);
    if o.Some? then o.value else 0
  }

  /** The ring of waits along a cycle of edges. */
  ghost function RingOf(s: System, edges: map<nat, Option<nat>>, x: nat, n: nat): (ring: seq<Wait>)
    ensures |ring| == n
    ensures forall k :: 0 <= k < n ==> ring[k] == WaitOf(s, Reached(edges, x, k))
  {
    seq(n, k requires 0 <= k < n => WaitOf(s, Reached(edges, x, k)))
  }

  lemma RingEdges(edges: map<nat, Option<nat>>, x: nat, n: nat, k: nat)
    requires CycleAt(edges, x, n) && k < n
    ensures var c, o := Reached(edges, x, k), Reached(edges, x, if k + 1 == n then 0 else k + 1);
            c in edges && edges[c] == Some(o) && o in edges
  {
    AlongCycle(edges, x, n, k);
    AlongCycle(edges, x, n, k + 1);
    assert Follow(edges, x, 0) == Follow(edges, x, n);
  }

  lemma RingLink(s: System, edges: map<nat, Option<nat>>, x: nat, n: nat, k: nat)
    requires SystemInv(s) && edges == WaitsFor(Snapshot(s)) && CycleAt(edges, x, n) && k < n
    ensures Link(s, RingOf(s, edges, x, n), k) && RingOf(s, edges, x, n)[k].lock.kind != 0
  {
    RingEdges(edges, x, n, k);
    EdgeIsReal(s, Reached(edges, x, k), Reached(edges, x, Successor(k, n)));
  }

  /** Soundness: a reported cycle is a ring of CPUs, each really blocked on a lock that the next
      one really holds. */
  lemma ReportedCycleIsReal(s: System) returns (ring: seq<Wait>)
    requires SystemInv(s) && Reports(s)
    ensures Deadlocked(s, ring)
    ensures forall k :: 0 <= k < |ring| ==> ring[k].lock.kind != 0
  {
    var edges := WaitsFor(Snapshot(s));
    var x: nat, n: nat :| CycleAt(edges, x, n);
    ring := RingOf(s, edges, x, n);
    forall k | 0 <= k < n ensures Link(s, ring, k) && ring[k].lock.kind != 0 {
      RingLink(s, edges, x, n, k);
    }
  }

  lemma WaiterStaysBlocked(s: System, c: nat, a: Action, w: Wait)
    requires c < |s.cpus| && Shape(s.cpus[c]) && Enabled(s, c, a) && w.cpu == c
    requires w.frame < |s.cpus[c].frames| && Blocked(s.cpus[c].frames[w.frame], w.lock)
    requires w.lock in s.locked
    ensures var v := CpuNext(s.cpus[c], a);
            w.frame < |v.frames| && Blocked(v.frames[w.frame], w.lock)
  {
  }

  lemma GuardStays(s: System, c: nat, a: Action, w: Wait, lock: LockRef)
    requires c < |s.cpus| && Shape(s.cpus[c]) && Enabled(s, c, a)
    requires w.frame < |s.cpus[c].frames| && Blocked(s.cpus[c].frames[w.frame], w.lock)
    requires lock in s.cpus[c].guards && s.cpus[c].guards[lock] <= w.frame && lock in s.locked
    requires w.lock in s.locked
    ensures var v := CpuNext(s.cpus[c], a);
            lock in v.guards && v.guards[lock] == s.cpus[c].guards[lock]
  {
  }

  lemma StuckStays(s: System, c: nat, a: Action, w: Wait, next: Wait)
    requires c < |s.cpus| && Shape(s.cpus[c]) && Enabled(s, c, a)
    requires Stuck(s, w, next) && w.lock in s.locked
    requires next.frame < |s.cpus[next.cpu].frames|
    requires Blocked(s.cpus[next.cpu].frames[next.frame], next.lock) && next.lock in s.locked
    ensures Stuck(Next(s, c, a), w, next)
  {
    if w.cpu == c {
      WaiterStaysBlocked(s, c, a, w);
    }
    if next.cpu == c {
      GuardStays(s, c, a, next, w.lock);
    }
  }

  lemma StuckOnLocked(s: System, w: Wait, next: Wait)
    requires MutexInv(s) && Stuck(s, w, next)
    ensures w.lock in s.locked
  {
    assert w.lock in Owned(s)[next.cpu];
  }

  /** No step of any CPU ever resolves a deadlock. */
  lemma DeadlockIsPermanent(s: System, t: System, ring: seq<Wait>)
    requires MutexInv(s) && AnyStep(s, t) && Deadlocked(s, ring)
    ensures Deadlocked(t, ring)
  {
    var c: nat, a :| c < |s.cpus| && Shape(s.cpus[c]) && Enabled(s, c, a) && t == Next(s, c, a);
    forall k | 0 <= k < |ring| ensures Link(t, ring, k) {
      var j := Successor(k, |ring|);
      assert Link(s, ring, k) && Link(s, ring, j);
      StuckOnLocked(s, ring[k], ring[j]);
      StuckOnLocked(s, ring[j], ring[Successor(j, |ring|)]);
      StuckStays(s, c, a, ring[k], ring[j]);
    }
  }

  ghost predicate DeadlockedFrom(states: seq<System>, i: nat, ring: seq<Wait>) {
    forall k :: i <= k < |states| ==> Deadlocked(states[k], ring)
  }

  lemma DeadlockSurvives(states: seq<System>, k: nat, ring: seq<Wait>)
    requires AnyRun(states) && k + 1 < |states| && Deadlocked(states[k], ring)
    ensures Deadlocked(states[k + 1], ring)
  {
    AnyRunKeepsMutexes(states, k);
    DeadlockIsPermanent(states[k], states[k + 1], ring);
  }

  lemma {:induction false} DeadlockPersists(states: seq<System>, i: nat, k: nat, ring: seq<Wait>)
    requires AnyRun(states) && i <= k < |states| && Deadlocked(states[i], ring)
    ensures Deadlocked(states[k], ring)
    decreases k
  {
    if i < k {
      DeadlockPersists(states, i, k - 1, ring);
      DeadlockSurvives(states, k - 1, ring);
    }
  }

  /** The verdict over a whole run: if the host reports a deadlock in some state, then from that
      state on a ring of CPUs is blocked, each on a lock that the next one holds. What happens
      after the stop is not restricted at all. */
  lemma ReportIsFinal(states: seq<System>, i: nat)
    requires AnyRun(states) && i < |states| && Run(states[..i + 1]) && Reports(states[i])
    ensures exists ring :: DeadlockedFrom(states, i, ring)
  {
    RunKeeps(states[..i + 1], i);
    var ring := ReportedCycleIsReal(states[i]);
    forall k: nat | i <= k < |states| ensures Deadlocked(states[k], ring) {
      DeadlockPersists(states, i, k, ring);
    }
    assert DeadlockedFrom(states, i, ring);
  }
}
