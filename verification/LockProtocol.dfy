/** CPUs that take and drop tracked locks while they publish what they do.

Every atomic operation of `TrackedMutex` and `update_cpu_state` is one step, and the CPUs
interleave in any order. A CPU runs a stack of frames: the bottom one is the interrupted
code, every frame above it a trap handler that runs to completion. Atomics are sequentially
consistent. The slot that is being filled may hold anything until it is complete (`Tear`), which
covers every order in which a compiler may write its fields.
*/
module LockProtocol {
  import opened DebugState

  /** Where an `update_cpu_state` call stands. */
  datatype Stage =
    | Entered    // before the compare-exchange on `writing`
    | Claimed    // `writing` is ours, the next slot is untouched
    | Torn       // the next slot is partly written
    | Written    // the next slot is complete, but not published
    | Published  // `published` selects it, `writing` is still set

  /** The program counter of one frame. */
  datatype Pc = Running | Updating(update: Update, stage: Stage) | Spinning(lock: LockRef)

  /** `published`, `writing`, `dropped` and `slots` are the fields of `DebugCpuSlots`. `guards` gives, for
      every tracked mutex this CPU has really locked, the frame that owns the guard. `committed`
      and `attempts` are history: they record the run and influence nothing. */
  datatype Cpu = Cpu(published: nat, writing: bool, dropped: nat, slots: seq<CpuState>,
                     frames: seq<Pc>, guards: map<LockRef, nat>,
                     committed: seq<Update>, attempts: nat)

  /** `locked` is the set of mutexes whose lock bit is set. */
  datatype System = System(cpus: seq<Cpu>, locked: set<LockRef>)

  datatype Action =
    | TryLock(lock: LockRef)          // `try_lock` succeeds
    | Contend(lock: LockRef)          // `try_lock` inside `lock` fails
    | SpinAcquire                     // the blocking `lock` gets through
    | Unlock(lock: LockRef)           // the inner guard is dropped first
    | Begin(change: Core -> Core)     // any other call of `update_cpu_state`
    | Claim | Drop | Tear(garbage: CpuState) | Write | Publish | Unclaim
    | Trap | Return

  const INITIAL_CPU := Cpu(0, false, 0, [EMPTY_STATE, EMPTY_STATE], [Running], map[], [], 0)

  ghost predicate Init(s: System) {
    s.locked == {} && forall c :: 0 <= c < |s.cpus| ==> s.cpus[c] == INITIAL_CPU
  }

  function Top(u: Cpu): nat requires |u.frames| > 0 { |u.frames| - 1 }

  function TopPc(u: Cpu): Pc requires |u.frames| > 0 { u.frames[|u.frames| - 1] }

  function SetTop(u: Cpu, pc: Pc): Cpu requires |u.frames| > 0 {
    u.(frames := u.frames[|u.frames| - 1 := pc])
  }

  /** What a frame does once its update is published or dropped. */
  function After(update: Update): Pc {
    if update.WaitFor? then Spinning(update.lock) else Running
  }

  /** A lock was really released but the release has not been claimed for publication. */
  predicate InReleaseWindow(pc: Pc) {
    pc.Updating? && pc.update.Released? && pc.stage == Entered
  }

  /** The innermost code runs inside a trap that interrupted another frame in its release window. */
  predicate InsideWindow(u: Cpu) {
    exists i :: 0 <= i < |u.frames| - 1 && InReleaseWindow(u.frames[i])
  }

  predicate Shape(u: Cpu) {
    u.published < 2 && |u.slots| == 2 && |u.frames| > 0
  }

  predicate TopOwnsNothing(u: Cpu) requires |u.frames| > 0 {
    forall l :: l in u.guards ==> u.guards[l] != Top(u)
  }

  predicate Enabled(s: System, c: nat, a: Action)
    requires c < |s.cpus| && Shape(s.cpus[c])
  {
    var u := s.cpus[c];
    var pc := TopPc(u);
    match a
    case TryLock(lock) => pc.Running? && lock !in s.locked
    case Contend(lock) => pc.Running? && lock in s.locked
    case SpinAcquire => pc.Spinning? && pc.lock !in s.locked
    case Unlock(lock) => pc.Running? && lock in u.guards && u.guards[lock] == Top(u)
    case Begin(_) => pc.Running?
    case Claim => pc.Updating? && pc.stage == Entered && !u.writing
    case Drop => pc.Updating? && pc.stage == Entered && u.writing
    case Tear(_) => pc.Updating? && (pc.stage == Claimed || pc.stage == Torn)
    case Write => pc.Updating? && (pc.stage == Claimed || pc.stage == Torn)
    case Publish => pc.Updating? && pc.stage == Written
    case Unclaim => pc.Updating? && pc.stage == Published
    case Trap => true
    case Return => pc.Running? && |u.frames| > 1 && TopOwnsNothing(u)
  }

  /** The effect of an action on the CPU that performs it. */
  function CpuNext(u: Cpu, a: Action): Cpu
    requires Shape(u)
  {
    var pc := TopPc(u);
    match a
    case TryLock(lock) => SetTop(u, Updating(Acquired(lock), Entered)).(guards := u.guards[lock := Top(u)])
    case Contend(lock) => SetTop(u, Updating(WaitFor(lock), Entered))
    case SpinAcquire =>
      if !pc.Spinning? then u
      else SetTop(u, Updating(Acquired(pc.lock), Entered)).(guards := u.guards[pc.lock := Top(u)])
    case Unlock(lock) => SetTop(u, Updating(Released(lock), Entered)).(guards := u.guards - {lock})
    case Begin(change) => SetTop(u, Updating(Other(change), Entered))
    case Trap => u.(frames := u.frames + [Running])
    case Return => if |u.frames| > 1 then u.(frames := u.frames[..Top(u)]) else u
    case _ => if pc.Updating? then UpdateNext(u, a, pc.update) else u
  }

  /** The steps of `update_cpu_state` itself. */
  function UpdateNext(u: Cpu, a: Action, update: Update): Cpu
    requires Shape(u)
  {
    var next := 1 - u.published;
    match a
    case Claim => SetTop(u, Updating(update, Claimed)).(writing := true, attempts := u.attempts + 1)
    case Drop => SetTop(u, After(update)).(dropped := u.dropped + 1, attempts := u.attempts + 1)
    case Tear(garbage) => SetTop(u, Updating(update, Torn)).(slots := u.slots[next := garbage])
    case Write => SetTop(u, Updating(update, Written)).(slots := u.slots[next := Apply(update, u.slots[u.published])])
    case Publish => SetTop(u, Updating(update, Published)).(published := next, committed := u.committed + [update])
    case Unclaim => SetTop(u, After(update)).(writing := false)
    case _ => u
  }

  function LockedNext(locked: set<LockRef>, pc: Pc, a: Action): set<LockRef> {
    match a
    case TryLock(lock) => locked + {lock}
    case SpinAcquire => if pc.Spinning? then locked + {pc.lock} else locked
    case Unlock(lock) => locked - {lock}
    case _ => locked
  }

  function Next(s: System, c: nat, a: Action): System
    requires c < |s.cpus| && Shape(s.cpus[c])
  {
    System(s.cpus[c := CpuNext(s.cpus[c], a)], LockedNext(s.locked, TopPc(s.cpus[c]), a))
  }

  /** A step of the machine without restriction. */
  ghost predicate AnyStep(s: System, t: System) {
    exists c: nat, a :: c < |s.cpus| && Shape(s.cpus[c]) && Enabled(s, c, a) && t == Next(s, c, a)
  }

  /** Traps may hit anywhere, but a handler that interrupted a release window does not run into a
      mutex that is taken. */
  predicate Allowed(s: System, c: nat, a: Action)
    requires c < |s.cpus| && Shape(s.cpus[c])
  {
    a.Contend? ==> !InsideWindow(s.cpus[c])
  }

  ghost predicate Step(s: System, t: System) {
    exists c: nat, a ::
      c < |s.cpus| && Shape(s.cpus[c]) && Enabled(s, c, a) && Allowed(s, c, a) && t == Next(s, c, a)
  }

  ghost predicate Run(states: seq<System>) {
    && |states| > 0
    && Init(states[0])
    && forall i :: 0 <= i < |states| - 1 ==> Step(states[i], states[i + 1])
  }

  /** A run without the restriction. */
  ghost predicate AnyRun(states: seq<System>) {
    && |states| > 0
    && Init(states[0])
    && forall i :: 0 <= i < |states| - 1 ==> AnyStep(states[i], states[i + 1])
  }

  // --- What every CPU keeps ----------------------------------------------------------

  /** The frame owns `writing`. */
  predicate Busy(pc: Pc) { pc.Updating? && pc.stage != Entered }

  /** The frame's update is not visible yet. */
  predicate Pending(pc: Pc) { pc.Updating? && pc.stage != Published }

  /** No frame below `i` was interrupted while it owned `writing`: updates of `i` get through. */
  ghost predicate Unmuted(frames: seq<Pc>, i: nat) {
    forall k :: 0 <= k < i && k < |frames| ==> !Busy(frames[k])
  }

  function View(u: Cpu): CpuState requires Shape(u) { u.slots[u.published] }

  function Held(u: Cpu): seq<LockRef> requires Shape(u) { HeldList(View(u)) }

  /** The CPU after its pending update went through without interference. */
  function Settled(u: Cpu): Cpu
    requires Shape(u) && TopPc(u).Updating?
  {
    var update := TopPc(u).update;
    SetTop(u, After(update)).(published := 1 - u.published,
                              slots := u.slots[1 - u.published := Apply(update, View(u))],
                              committed := u.committed + [update], attempts := u.attempts + 1)
  }

  function Fold(log: seq<Update>): CpuState {
    if log == [] then EMPTY_STATE else Apply(log[|log| - 1], Fold(log[..|log| - 1]))
  }

  ghost predicate BufferInv(u: Cpu)
    requires Shape(u)
  {
    && (forall i, j :: 0 <= i < j < |u.frames| && Busy(u.frames[i]) ==> !Busy(u.frames[j]))
    && (u.writing ==> exists i :: 0 <= i < |u.frames| && Busy(u.frames[i]))
    && (forall i :: 0 <= i < |u.frames| && Busy(u.frames[i]) ==> u.writing)
    && (forall i :: 0 <= i < |u.frames| && u.frames[i].Updating? && u.frames[i].stage == Written ==>
          u.slots[1 - u.published] == Apply(u.frames[i].update, View(u)))
    && View(u) == Fold(u.committed)
  }

  /** An update that owns `writing` and has not committed yet. */
  ghost predicate InProgress(u: Cpu) {
    exists i :: 0 <= i < |u.frames| && Busy(u.frames[i]) && u.frames[i].stage != Published
  }

  ghost predicate CountInv(u: Cpu) {
    u.attempts == |u.committed| + u.dropped + if InProgress(u) then 1 else 0
  }

  ghost predicate GuardInv(u: Cpu) {
    && (forall l :: l in u.guards ==> u.guards[l] < |u.frames|)
    && (forall i :: 0 <= i < |u.frames| && u.frames[i].Updating? && u.frames[i].update.Acquired? ==>
          u.frames[i].update.lock in u.guards && u.guards[u.frames[i].update.lock] == i)
  }

  /** A listed lock that is really held, by a frame whose acquisition was published. */
  ghost predicate Genuine(u: Cpu, l: LockRef) {
    && l in u.guards
    && u.guards[l] < |u.frames|
    && Unmuted(u.frames, u.guards[l])
    && !(u.frames[u.guards[l]] == Updating(Acquired(l), Entered)
         || u.frames[u.guards[l]] == Updating(Acquired(l), Claimed)
         || u.frames[u.guards[l]] == Updating(Acquired(l), Torn)
         || u.frames[u.guards[l]] == Updating(Acquired(l), Written))
  }

  /** Frame `i` has unlocked `l` for real but its release is not visible yet. */
  ghost predicate StaleAt(frames: seq<Pc>, l: LockRef, i: nat) {
    && i < |frames|
    && Pending(frames[i])
    && frames[i].update == Released(l)
    && Unmuted(frames, i)
  }

  /** How many frames are in that situation. */
  ghost function Stales(frames: seq<Pc>, l: LockRef): nat {
    if frames == [] then 0
    else Stales(frames[..|frames| - 1], l) + if StaleAt(frames, l, |frames| - 1) then 1 else 0
  }

  /** How many entries of `l` readers may find. */
  ghost function Weight(u: Cpu, l: LockRef): nat {
    Stales(u.frames, l) + if Genuine(u, l) then 1 else 0
  }

  /** A lock is not listed more often than it is really held or still to be unlisted. A handler may
      take a lock again that an interrupted frame has not unlisted yet. */
  ghost predicate ListInv(u: Cpu)
    requires Shape(u)
  {
    forall l :: multiset(Held(u))[l] <= Weight(u, l)
  }

  /** Frame `f` published that it waits for `w` and nothing has retracted that since: it is still
      blocked, or has the lock and is about to publish the acquisition. Everything that is listed
      meanwhile is really held, by `f` or by a frame that it interrupted. */
  ghost predicate WaitingAt(u: Cpu, w: LockRef, f: nat) {
    && f < |u.frames|
    && Unmuted(u.frames, f)
    && (Blocked(u.frames[f], w) || (Pending(u.frames[f]) && u.frames[f].update == Acquired(w)))
    && (forall l, i: nat :: !StaleAt(u.frames, l, i))
    && (forall l :: Genuine(u, l) ==> u.guards[l] <= f)
  }

  predicate Blocked(pc: Pc, w: LockRef) {
    pc == Spinning(w) || (pc.Updating? && pc.update == WaitFor(w) && pc.stage == Published)
  }

  ghost predicate WaitInv(u: Cpu)
    requires Shape(u)
  {
    View(u).waiting.kind != 0 ==> exists f :: WaitingAt(u, View(u).waiting, f)
  }

  /** The restriction on contention, as a property of states. */
  ghost predicate WindowInv(u: Cpu) {
    forall i, j :: 0 <= i < j < |u.frames| && u.frames[j].Updating? && u.frames[j].update.WaitFor? ==>
      !InReleaseWindow(u.frames[i])
  }

  ghost predicate CpuInv(u: Cpu) {
    && Shape(u) && BufferInv(u) && CountInv(u) && GuardInv(u) && WindowInv(u) && ListInv(u) && WaitInv(u)
  }
}
