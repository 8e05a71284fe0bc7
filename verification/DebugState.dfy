/** The per-CPU diagnostic state of `wateros-debug` and the closures that update it.

A state is a plain value: the concurrency of publishing it is modelled in `LockProtocol`,
its byte layout in `DebugAbi`.
*/
module DebugState {

  type U8 = x: int | 0 <= x < 0x100
  type U16 = x: int | 0 <= x < 0x1_0000
  type U32 = x: int | 0 <= x < 0x1_0000_0000
  type U64 = x: int | 0 <= x < 0x1_0000_0000_0000_0000
  type I8 = x: int | -0x80 <= x < 0x80

  const HELD_LOCK_CAPACITY := 8
  const NO_TASK: U64 := 0xFFFF_FFFF_FFFF_FFFF

  /** A lock class and the address of the lock object; together they identify a mutex. */
  datatype LockRef = LockRef(kind: U16, address: U64)

  const NO_LOCK := LockRef(0, 0)

  const NO_LOCKS := [NO_LOCK, NO_LOCK, NO_LOCK, NO_LOCK, NO_LOCK, NO_LOCK, NO_LOCK, NO_LOCK]

  type HeldLocks = s: seq<LockRef> | |s| == HELD_LOCK_CAPACITY witness NO_LOCKS
  type RunnableCounts = s: seq<U32> | |s| == 5 witness [0, 0, 0, 0, 0]

  /** Everything in a CPU state that the lock protocol does not touch. */
  datatype Core = Core(
    flags: U64, currentTask: U64, addressSpace: U64, timerTicks: U64, contextSwitches: U64,
    syscalls: U64, traps: U64, ipiSent: U64, ipiReceived: U64, lastTrapCause: U64, lastTrapPc: U64,
    lastTrapSp: U64, lastFaultAddr: U64, lastSyscallNr: U64, lastSyscallPc: U64,
    runnable: RunnableCounts, lastScheduleReason: U32, taskKind: U16, taskState: U16,
    schedPolicy: U16, waitKind: U16, waitValue: U64, nice: I8)

  datatype CpuState = CpuState(generation: U64, core: Core, waiting: LockRef, heldCount: U32, held: HeldLocks)

  const EMPTY_CORE := Core(0, NO_TASK, 0, 0, 0, 0, 0, 0, 0, 0, 0, 0, 0, 0, 0, [0, 0, 0, 0, 0], 0, 0, 0, 0, 0, 0, 0)
  const EMPTY_STATE := CpuState(0, EMPTY_CORE, NO_LOCK, 0, NO_LOCKS)

  function Min(a: int, b: int): int { if a < b then a else b }

  /** The locks a reader of the state sees as held: the host clamps the count as well. */
  function HeldList(s: CpuState): (list: seq<LockRef>) {
    s.held[..Min(s.heldCount, HELD_LOCK_CAPACITY)]
  }

  /** Index of the first occurrence of `x`, or the length of `s`. */
  function IndexOf<T(==)>(s: seq<T>, x: T): (i: nat)
    ensures i <= |s|
    ensures i < |s| ==> s[i] == x
    ensures forall k :: 0 <= k < i ==> s[k] != x
  {
    if s == [] then 0 else if s[0] == x then 0 else 1 + IndexOf(s[1..], x)
  }

  /** `s` without the first occurrence of `x`. */
  function Without<T(==)>(s: seq<T>, x: T): (r: seq<T>) {
    var i := IndexOf(s, x);
    if i < |s| then s[..i] + s[i + 1..] else s
  }

  // --- The closures passed to update_cpu_state -------------------------------------

  datatype Update =
    | WaitFor(lock: LockRef)
    | Acquired(lock: LockRef)
    | Released(lock: LockRef)
    | Other(change: Core -> Core)

  function AcquiredState(s: CpuState, lock: LockRef): CpuState {
    var t := s.(waiting := NO_LOCK);
    if s.heldCount < HELD_LOCK_CAPACITY
    then t.(held := s.held[s.heldCount := lock], heldCount := s.heldCount + 1)
    else t
  }

  /** The held array and its count after `lock` is removed. */
  function RemoveLock(held: HeldLocks, heldCount: U32, lock: LockRef): (HeldLocks, U32) {
    var count := Min(heldCount, HELD_LOCK_CAPACITY);
    var found := IndexOf(held[..count], lock);
    if found < count
    then (held[..found] + held[found + 1..count] + [NO_LOCK] + held[count..], count - 1)
    else (held, heldCount)
  }

  function ReleasedState(s: CpuState, lock: LockRef): CpuState {
    var (held, count) := RemoveLock(s.held, s.heldCount, lock);
    s.(held := held, heldCount := count)
  }

  function WrappingAdd1(x: U64): U64 { if x == 0xFFFF_FFFF_FFFF_FFFF then 0 else x + 1 }

  /** One committed update: the closure, then the wrapping increment of the generation. */
  function Apply(u: Update, s: CpuState): CpuState {
    var t := match u
      case WaitFor(lock) => s.(waiting := lock)
      case Acquired(lock) => AcquiredState(s, lock)
      case Released(lock) => ReleasedState(s, lock)
      case Other(change) => s.(core := change(s.core));
    t.(generation := WrappingAdd1(s.generation))
  }

  /** What a reader sees of an acquisition: the wait is over and the lock is appended
      unless the fixed array is full, in which case the list does not change. */
  lemma AcquiredIsListed(s: CpuState, lock: LockRef)
    ensures Apply(Acquired(lock), s).waiting == NO_LOCK
    ensures HeldList(Apply(Acquired(lock), s))
         == if s.heldCount < HELD_LOCK_CAPACITY then HeldList(s) + [lock] else HeldList(s)
  {
    if s.heldCount < HELD_LOCK_CAPACITY {
      var t := Apply(Acquired(lock), s);
      assert t.held[..s.heldCount] == s.held[..s.heldCount];
      assert HeldList(t) == t.held[..s.heldCount] + [t.held[s.heldCount]];
    }
  }

  /** What a reader sees of a release: the first matching entry leaves the list, the order
      of the others is kept, and a lock that was never listed changes nothing. */
  lemma ReleasedIsUnlisted(s: CpuState, lock: LockRef)
    ensures Apply(Released(lock), s).waiting == s.waiting
    ensures HeldList(Apply(Released(lock), s)) == Without(HeldList(s), lock)
  {
    var count := Min(s.heldCount, HELD_LOCK_CAPACITY);
    var found := IndexOf(s.held[..count], lock);
    if found < count {
      var t := Apply(Released(lock), s);
      assert HeldList(t) == t.held[..count - 1];
      assert s.held[..count][..found] == s.held[..found];
      assert s.held[..count][found + 1..] == s.held[found + 1..count];
    }
  }

  /** Acquiring a lock that is not listed and releasing it again restores the list, also
      when other locks were acquired in between (guards may be dropped out of order). */
  lemma ReleaseUndoesAcquire(s: CpuState, lock: LockRef, later: LockRef)
    requires s.heldCount < HELD_LOCK_CAPACITY - 1
    requires lock !in HeldList(s) && later != lock
    ensures HeldList(Apply(Released(lock), Apply(Acquired(later), Apply(Acquired(lock), s))))
         == HeldList(s) + [later]
  {
    var a := Apply(Acquired(lock), s);
    var b := Apply(Acquired(later), a);
    AcquiredIsListed(s, lock);
    AcquiredIsListed(a, later);
    ReleasedIsUnlisted(b, lock);
    var list := HeldList(s) + [lock] + [later];
    assert IndexOf(list, lock) == |HeldList(s)| by {
      assert list[|HeldList(s)|] == lock;
      assert forall k :: 0 <= k < |HeldList(s)| ==> list[k] != lock;
    }
  }

  lemma FirstIndex(s: seq<LockRef>, x: LockRef, i: nat)
    requires i <= |s| && (i < |s| ==> s[i] == x)
    requires forall k :: 0 <= k < i ==> s[k] != x
    ensures IndexOf(s, x) == i
  {
  }

  lemma ShiftedOut(before: HeldLocks, after: seq<LockRef>, found: nat, count: nat)
    requires found < count <= |after| == HELD_LOCK_CAPACITY
    requires forall k :: found <= k < count - 1 ==> after[k] == before[k + 1]
    requires forall k :: 0 <= k < found || count <= k < HELD_LOCK_CAPACITY ==> after[k] == before[k]
    requires after[count - 1] == NO_LOCK
    ensures after == before[..found] + before[found + 1..count] + [NO_LOCK] + before[count..]
  {
    assert after[..found] == before[..found];
    assert after[found..count - 1] == before[found + 1..count];
    assert after[count..] == before[count..];
  }

  lemma Removed(before: HeldLocks, after: seq<LockRef>, heldCount: U32, lock: LockRef, found: nat)
    requires var count := Min(heldCount, HELD_LOCK_CAPACITY);
             && found < count <= |after| == HELD_LOCK_CAPACITY
             && before[found] == lock && (forall k :: 0 <= k < found ==> before[k] != lock)
             && (forall k :: found <= k < count - 1 ==> after[k] == before[k + 1])
             && (forall k :: 0 <= k < found || count <= k < HELD_LOCK_CAPACITY ==> after[k] == before[k])
             && after[count - 1] == NO_LOCK
    ensures (after, Min(heldCount, HELD_LOCK_CAPACITY) - 1) == RemoveLock(before, heldCount, lock)
  {
    var count := Min(heldCount, HELD_LOCK_CAPACITY);
    FirstIndex(before[..count], lock, found);
    ShiftedOut(before, after, found, count);
  }

  /** The shifting loop of `lock_released`, on the array that the closure updates. */
  method RemoveHeld(held: array<LockRef>, heldCount: U32, lock: LockRef) returns (newCount: U32)
    requires held.Length == HELD_LOCK_CAPACITY
    modifies held
    ensures (held[..], newCount) == RemoveLock(old(held[..]), heldCount, lock)
  {
    var count := Min(heldCount, HELD_LOCK_CAPACITY);
    ghost var before := held[..];
    newCount := heldCount;
    var found := -1;
    var index := 0;
    while index < count
      invariant 0 <= index <= count && found == -1
      invariant forall k :: 0 <= k < index ==> before[k] != lock
      invariant held[..] == before
    {
      if held[index] == lock {
        found := index;
        break;
      }
      index := index + 1;
    }
    if found >= 0 {
      var cursor := found;
      while cursor + 1 < count
        invariant found <= cursor < count
        invariant forall k :: found <= k < cursor ==> held[k] == before[k + 1]
        invariant forall k :: 0 <= k < found || cursor <= k < HELD_LOCK_CAPACITY ==> held[k] == before[k]
      {
        held[cursor] := held[cursor + 1];
        cursor := cursor + 1;
      }
      held[count - 1] := NO_LOCK;
      newCount := count - 1;
      Removed(before, held[..], heldCount, lock, found);
    } else {
      FirstIndex(before[..count], lock, count);
    }
  }
}
