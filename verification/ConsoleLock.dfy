/** The console write lock: interrupt guard, spin lock and owner tag, step by step on every CPU. */
module ConsoleLock {
  import opened Wrappers

  type CpuId = nat

  datatype Stage =
    | Reading        // ConsoleInterruptGuard::new: read the interrupt state
    | Disabling      // ... and disable interrupts
    | Trying         // try_lock
    | Comparing      // compare the owner with this CPU
    | Spinning       // exclusive_access
    | Claiming       // store the owner
    | Writing        // the write itself
    | Clearing       // store "no owner"
    | Unlocking      // drop the lock guard
    | Restoring      // drop the interrupt guard

  /** A call in progress. `original` is the interrupt state in which it was entered; a call from an
      interrupt handler is entered with interrupts enabled and runs with them disabled. A call that
      takes the lock gets a number of its own. */
  datatype Frame = Frame(stage: Stage, original: bool, interrupt: bool, saved: bool, reentrant: bool, call: nat)

  datatype Cpu = Cpu(enabled: bool, frames: seq<Frame>)

  /** Output is recorded with the number of the call that writes it; re-entrant calls have none. */
  datatype Output = Output(cpu: CpuId, call: Option<nat>)

  datatype System = System(
    cpus: seq<Cpu>,
    holder: Option<CpuId>,
    owner: Option<CpuId>,
    acquisitions: nat,
    log: seq<Output>)

  /** Call: the running code writes to the console. Interrupt: an interrupt handler does. */
  datatype Action = Call | Interrupt | Advance | Emit

  function Top(c: Cpu): Frame requires c.frames != [] { c.frames[|c.frames| - 1] }

  function Below(c: Cpu): seq<Frame> requires c.frames != [] { c.frames[..|c.frames| - 1] }

  predicate Enabled(s: System, c: CpuId, a: Action) {
    && c < |s.cpus|
    && var cpu := s.cpus[c];
    match a
    case Call => cpu.frames == [] || Top(cpu).stage == Writing
    case Interrupt => cpu.enabled
    case Advance => cpu.frames != [] && (Top(cpu).stage == Spinning ==> s.holder == None)
    case Emit => cpu.frames != [] && Top(cpu).stage == Writing
  }

  /** What a step does to the lock. */
  datatype Effect = Nothing | Take | Tag | Untag | Release

  datatype Outcome = Outcome(frame: Frame, enabled: bool, effect: Effect)

  /** One step of a call that does not yet return: `free` if the lock is free, `mine` if the owner
      is this CPU; `number` is what it gets with the lock. */
  function Turn(f: Frame, enabled: bool, free: bool, mine: bool, number: nat): Outcome
    requires f.stage != Restoring && (f.stage == Spinning ==> free)
  {
    match f.stage
    case Reading => Outcome(f.(stage := Disabling, saved := enabled), enabled, Nothing)
    case Disabling => Outcome(f.(stage := Trying), false, Nothing)
    case Trying =>
      if free then Outcome(f.(stage := Claiming, call := number), enabled, Take) else Outcome(f.(stage := Comparing), enabled, Nothing)
    case Comparing =>
      if mine then Outcome(f.(stage := Writing, reentrant := true), enabled, Nothing)
      else Outcome(f.(stage := Spinning), enabled, Nothing)
    case Spinning => Outcome(f.(stage := Claiming, call := number), enabled, Take)
    case Claiming => Outcome(f.(stage := Writing), enabled, Tag)
    case Writing => Outcome(f.(stage := if f.reentrant then Restoring else Clearing), enabled, Nothing)
    case Clearing => Outcome(f.(stage := Unlocking), enabled, Untag)
    case Unlocking => Outcome(f.(stage := Restoring), enabled, Release)
  }

  function Apply(s: System, c: CpuId, e: Effect): System {
    match e
    case Nothing => s
    case Take => s.(holder := Some(c), acquisitions := s.acquisitions + 1)
    case Tag => s.(owner := Some(c))
    case Untag => s.(owner := None)
    case Release => s.(holder := None)
  }

  function Put(s: System, c: CpuId, cpu: Cpu): System
    requires c < |s.cpus|
  {
    s.(cpus := s.cpus[c := cpu])
  }

  /** One step of the innermost call; when it returns, so does the interrupt handler that made it. */
  function Advanced(s: System, c: CpuId): System
    requires Enabled(s, c, Advance)
  {
    var cpu := s.cpus[c];
    var below, f := Below(cpu), Top(cpu);
    if f.stage == Restoring then Put(s, c, Cpu(f.saved || f.interrupt, below))
    else
      var turn := Turn(f, cpu.enabled, s.holder == None, s.owner == Some(c), s.acquisitions + 1);
      Apply(Put(s, c, Cpu(turn.enabled, below + [turn.frame])), c, turn.effect)
  }

  function Next(s: System, c: CpuId, a: Action): System
    requires Enabled(s, c, a)
  {
    var cpu := s.cpus[c];
    match a
    case Call => Put(s, c, cpu.(frames := cpu.frames + [Frame(Reading, cpu.enabled, false, false, false, 0)]))
    case Interrupt => Put(s, c, Cpu(false, cpu.frames + [Frame(Reading, true, true, false, false, 0)]))
    case Advance => Advanced(s, c)
    case Emit => s.(log := s.log + [Output(c, if Top(cpu).reentrant then None else Some(Top(cpu).call))])
  }

  // --- Invariant ----------------------------------------------------------------------------------------

  /** The call holds the lock. */
  predicate Holds(f: Frame) {
    f.stage == Claiming || (f.stage == Writing && !f.reentrant) || f.stage == Clearing || f.stage == Unlocking
  }

  /** The interrupt state while the call is the innermost one. */
  predicate RunsEnabled(f: Frame) {
    (f.stage == Reading || f.stage == Disabling) && f.original && !f.interrupt
  }

  /** The interrupt state, given that of the code below all calls. */
  predicate StateOf(base: bool, frames: seq<Frame>) {
    if frames == [] then base else RunsEnabled(frames[|frames| - 1])
  }

  /** Some call in the stack holds the lock; and has tagged it. */
  predicate Held(frames: seq<Frame>) {
    frames != [] && (Holds(frames[|frames| - 1]) || Held(frames[..|frames| - 1]))
  }

  predicate Tagged(frames: seq<Frame>) {
    frames != [] && (Tags(frames[|frames| - 1]) || Tagged(frames[..|frames| - 1]))
  }

  predicate Tags(f: Frame) { (f.stage == Writing && !f.reentrant) || f.stage == Clearing }

  /** A call that another one may interrupt or nest in. */
  predicate Open(f: Frame) { f.stage == Writing || RunsEnabled(f) }

  /** A call on top of others: it remembers the interrupt state it found, at most one call holds the
      lock, and only a call below which the lock is held is re-entrant. */
  predicate FrameInv(base: bool, below: seq<Frame>, f: Frame) {
    && f.original == StateOf(base, below)
    && (below != [] ==> Open(below[|below| - 1]))
    && (f.interrupt ==> f.original)
    && (f.stage != Reading ==> f.saved == (f.original && !f.interrupt))
    && (f.reentrant ==> f.stage == Writing || f.stage == Restoring)
    && (Holds(f) || f.stage == Spinning ==> !Held(below))
    && (f.reentrant ==> Held(below))
  }

  predicate StackInv(base: bool, frames: seq<Frame>) {
    frames == [] || (StackInv(base, frames[..|frames| - 1]) && FrameInv(base, frames[..|frames| - 1], frames[|frames| - 1]))
  }

  predicate CpuInv(s: System, c: CpuId, base: bool)
    requires c < |s.cpus|
  {
    var cpu := s.cpus[c];
    && cpu.enabled == StateOf(base, cpu.frames)
    && StackInv(base, cpu.frames)
    && (s.holder == Some(c) <==> Held(cpu.frames))
    && (s.owner == Some(c) <==> Tagged(cpu.frames))
  }

  /** The call that holds the lock was the last one to get a number. */
  predicate Numbered(frames: seq<Frame>, number: nat) {
    frames == []
    || (Numbered(frames[..|frames| - 1], number) && (Holds(frames[|frames| - 1]) ==> frames[|frames| - 1].call == number))
  }

  /** From the first output of a call to its last only its CPU writes; as long as the last call with
      a number holds the lock, that is so up to the end. */
  ghost predicate LogInv(log: seq<Output>, number: nat, holder: Option<CpuId>) {
    && (forall i :: 0 <= i < |log| && log[i].call.Some? ==> log[i].call.value <= number)
    && (forall i, k, j :: 0 <= i <= k <= j < |log| && log[i].call.Some? && log[i].call == log[j].call ==> log[k].cpu == log[i].cpu)
    && (holder.Some? ==>
          forall i, k :: 0 <= i <= k < |log| && log[i].call == Some(number) ==> log[k].cpu == holder.value)
  }

  ghost predicate Inv(s: System, base: seq<bool>) {
    && |base| == |s.cpus|
    && (forall c :: 0 <= c < |s.cpus| ==> CpuInv(s, c, base[c]))
    && (s.holder.Some? ==> s.holder.value < |s.cpus|)
    && (s.owner.Some? ==> s.owner == s.holder)
    && (forall c :: 0 <= c < |s.cpus| ==> Numbered(s.cpus[c].frames, s.acquisitions))
    && LogInv(s.log, s.acquisitions, s.holder)
  }

  lemma OthersKeep(s: System, c: CpuId, a: Action, base: seq<bool>, d: CpuId)
    requires Inv(s, base) && Enabled(s, c, a) && d < |s.cpus| && d != c
    ensures CpuInv(Next(s, c, a), d, base[d])
  {
    var t := Next(s, c, a);
    assert t.cpus[d] == s.cpus[d];
    assert CpuInv(s, c, base[c]) && CpuInv(s, d, base[d]);
    if a == Advance {
      var f := Top(s.cpus[c]);
      assert Holds(f) ==> s.holder == Some(c);
    }
  }

  /** Below an open call, whoever holds the lock has tagged it. */
  lemma {:induction false} HeldIsTagged(base: bool, frames: seq<Frame>)
    requires StackInv(base, frames)
    requires frames != [] && Open(frames[|frames| - 1])
    ensures Held(frames) <==> Tagged(frames)
  {
    var below := frames[..|frames| - 1];
    if below != [] {
      HeldIsTagged(base, below);
    }
  }

  lemma TopReplaced(base: bool, below: seq<Frame>, g: Frame)
    ensures var more := below + [g];
            && Held(more) == (Holds(g) || Held(below))
            && Tagged(more) == (Tags(g) || Tagged(below))
            && StackInv(base, more) == (StackInv(base, below) && FrameInv(base, below, g))
            && StateOf(base, more) == RunsEnabled(g)
  {
    assert (below + [g])[..|below|] == below;
  }

  lemma NumberedTop(below: seq<Frame>, g: Frame, number: nat)
    ensures Numbered(below + [g], number) == (Numbered(below, number) && (Holds(g) ==> g.call == number))
  {
    assert (below + [g])[..|below|] == below;
  }

  /** A step of a call that does not return, in terms of the stack. */
  lemma AdvancedIs(s: System, c: CpuId, below: seq<Frame>, f: Frame)
    requires Enabled(s, c, Advance) && below == Below(s.cpus[c]) && f == Top(s.cpus[c]) && f.stage != Restoring
    ensures f.stage == Spinning ==> s.holder == None
    ensures var turn := Turn(f, s.cpus[c].enabled, s.holder == None, s.owner == Some(c), s.acquisitions + 1);
            && Next(s, c, Advance) == Apply(Put(s, c, Cpu(turn.enabled, below + [turn.frame])), c, turn.effect)
            && Next(s, c, Advance).cpus[c].frames == below + [turn.frame]
            && Next(s, c, Advance).acquisitions == Apply(s, c, turn.effect).acquisitions
  {
  }

  lemma PushKeeps(s: System, c: CpuId, a: Action, base: bool)
    requires c < |s.cpus| && CpuInv(s, c, base) && Enabled(s, c, a) && (a == Call || a == Interrupt)
    ensures CpuInv(Next(s, c, a), c, base)
  {
    var cpu := s.cpus[c];
    var g := Frame(Reading, cpu.enabled, a == Interrupt, false, false, 0);
    assert FrameInv(base, cpu.frames, g);
    PushedCpu(s, c, base, g, Next(s, c, a));
  }

  lemma PushedCpu(s: System, c: CpuId, base: bool, g: Frame, t: System)
    requires c < |s.cpus| && CpuInv(s, c, base) && FrameInv(base, s.cpus[c].frames, g) && g.stage == Reading
    requires t == s.(cpus := s.cpus[c := Cpu(RunsEnabled(g), s.cpus[c].frames + [g])])
    ensures CpuInv(t, c, base)
  {
    TopReplaced(base, s.cpus[c].frames, g);
  }

  /** What one step does to the innermost call and to the lock, given whether the lock is held, and
      then tagged, further down. */
  lemma TurnKeeps(base: bool, below: seq<Frame>, f: Frame, free: bool, number: nat)
    requires f.stage != Restoring && (f.stage == Spinning ==> free)
    requires FrameInv(base, below, f) && Held(below) == Tagged(below)
    requires free ==> !Holds(f) && !Held(below)
    ensures var turn := Turn(f, RunsEnabled(f), free, Tags(f) || Tagged(below), number);
            var g := turn.frame;
            && turn.enabled == RunsEnabled(g) && FrameInv(base, below, g)
            && (turn.effect == Take ==> free)
            && Holds(g) == (turn.effect == Take || (Holds(f) && turn.effect != Release))
            && Tags(g) == (turn.effect == Tag || (Tags(f) && turn.effect != Untag))
            && (turn.effect == Tag || turn.effect == Untag ==> Holds(f) && Holds(g))
            && (turn.effect == Release || turn.effect == Untag || turn.effect == Take ==> !Held(below))
            && (turn.effect == Release ==> Holds(f) && !Tags(f))
            && (Holds(g) ==> g.call == if turn.effect == Take then number else f.call)
  {
  }

  lemma AdvanceKeeps(s: System, c: CpuId, base: bool)
    requires c < |s.cpus| && CpuInv(s, c, base) && Enabled(s, c, Advance)
    ensures CpuInv(Next(s, c, Advance), c, base)
  {
    var frames := s.cpus[c].frames;
    var below, f := frames[..|frames| - 1], Top(s.cpus[c]);
    if below != [] {
      HeldIsTagged(base, below);
    }
    if f.stage != Restoring {
      assert frames == below + [f];
      MoveKeeps(s, c, base, below, f);
    }
  }

  lemma MoveKeeps(s: System, c: CpuId, base: bool, below: seq<Frame>, f: Frame)
    requires Enabled(s, c, Advance) && below == Below(s.cpus[c]) && f == Top(s.cpus[c]) && f.stage != Restoring
    requires s.cpus[c].enabled == RunsEnabled(f)
    requires StackInv(base, below) && FrameInv(base, below, f) && Held(below) == Tagged(below)
    requires (s.holder == Some(c)) == (Holds(f) || Held(below))
    requires (s.owner == Some(c)) == (Tags(f) || Tagged(below))
    ensures CpuInv(Next(s, c, Advance), c, base)
  {
    AdvancedIs(s, c, below, f);
    var turn := Turn(f, RunsEnabled(f), s.holder == None, s.owner == Some(c), s.acquisitions + 1);
    TurnKeeps(base, below, f, s.holder == None, s.acquisitions + 1);
    MovedCpu(s, c, base, below, f, turn);
  }

  lemma ApplyLock(s: System, c: CpuId, e: Effect)
    ensures var t := Apply(s, c, e);
            && t.cpus == s.cpus
            && (t.holder == Some(c)) == (e == Take || (s.holder == Some(c) && e != Release))
            && (t.owner == Some(c)) == (e == Tag || (s.owner == Some(c) && e != Untag))
  {
  }

  lemma MovedCpu(s: System, c: CpuId, base: bool, below: seq<Frame>, f: Frame, turn: Outcome)
    requires c < |s.cpus| && StackInv(base, below)
    requires (s.holder == Some(c)) == (Holds(f) || Held(below))
    requires (s.owner == Some(c)) == (Tags(f) || Tagged(below))
    requires turn.enabled == RunsEnabled(turn.frame) && FrameInv(base, below, turn.frame)
    requires Holds(turn.frame) == (turn.effect == Take || (Holds(f) && turn.effect != Release))
    requires Tags(turn.frame) == (turn.effect == Tag || (Tags(f) && turn.effect != Untag))
    requires turn.effect == Release || turn.effect == Untag ==> !Held(below) && !Tagged(below)
    ensures CpuInv(Apply(Put(s, c, Cpu(turn.enabled, below + [turn.frame])), c, turn.effect), c, base)
  {
    var put := Put(s, c, Cpu(turn.enabled, below + [turn.frame]));
    ApplyLock(put, c, turn.effect);
    TopReplaced(base, below, turn.frame);
  }

  lemma {:induction false} FreeIsNumbered(frames: seq<Frame>, number: nat)
    requires !Held(frames)
    ensures Numbered(frames, number)
  {
    if frames != [] {
      FreeIsNumbered(frames[..|frames| - 1], number);
    }
  }

  lemma NumbersKeep(s: System, c: CpuId, a: Action, base: seq<bool>, d: CpuId)
    requires Inv(s, base) && Enabled(s, c, a) && d < |s.cpus|
    ensures Numbered(Next(s, c, a).cpus[d].frames, Next(s, c, a).acquisitions)
  {
    assert CpuInv(s, c, base[c]) && CpuInv(s, d, base[d]);
    var t := Next(s, c, a);
    if s.holder == None {
      FreeIsNumbered(s.cpus[d].frames, t.acquisitions);
      FreeIsNumbered(s.cpus[d].frames, s.acquisitions + 1);
    }
    if c == d && a != Emit {
      OwnNumber(s, c, a);
    }
  }

  lemma TurnNumbers(f: Frame, enabled: bool, free: bool, mine: bool, number: nat)
    requires f.stage != Restoring && (f.stage == Spinning ==> free)
    ensures var turn := Turn(f, enabled, free, mine, number);
            && (turn.effect == Take ==> free && Holds(turn.frame) && turn.frame.call == number)
            && (turn.effect != Take && Holds(turn.frame) ==> Holds(f) && turn.frame.call == f.call)
  {
  }

  lemma OwnNumber(s: System, c: CpuId, a: Action)
    requires c < |s.cpus| && Enabled(s, c, a) && a != Emit
    requires Numbered(s.cpus[c].frames, s.acquisitions)
    requires s.holder == None ==> Numbered(s.cpus[c].frames, s.acquisitions + 1)
    ensures Numbered(Next(s, c, a).cpus[c].frames, Next(s, c, a).acquisitions)
  {
    var frames := s.cpus[c].frames;
    if a != Advance {
      NumberedTop(frames, Top(Next(s, c, a).cpus[c]), s.acquisitions);
    } else if Top(s.cpus[c]).stage != Restoring {
      var below, f := Below(s.cpus[c]), Top(s.cpus[c]);
      assert frames == below + [f];
      NumberedTop(below, f, s.acquisitions);
      NumberedTop(below, f, s.acquisitions + 1);
      AdvanceNumber(s, c, below, f);
    }
  }

  lemma AdvanceNumber(s: System, c: CpuId, below: seq<Frame>, f: Frame)
    requires Enabled(s, c, Advance) && below == Below(s.cpus[c]) && f == Top(s.cpus[c]) && f.stage != Restoring
    requires Numbered(below, s.acquisitions) && (Holds(f) ==> f.call == s.acquisitions)
    requires s.holder == None ==> Numbered(below, s.acquisitions + 1)
    ensures Numbered(Next(s, c, Advance).cpus[c].frames, Next(s, c, Advance).acquisitions)
  {
    AdvancedIs(s, c, below, f);
    MovedNumber(s, c, below, f);
  }

  lemma MovedNumber(s: System, c: CpuId, below: seq<Frame>, f: Frame)
    requires c < |s.cpus| && f.stage != Restoring && (f.stage == Spinning ==> s.holder == None)
    requires Numbered(below, s.acquisitions) && (Holds(f) ==> f.call == s.acquisitions)
    requires s.holder == None ==> Numbered(below, s.acquisitions + 1)
    ensures var turn := Turn(f, s.cpus[c].enabled, s.holder == None, s.owner == Some(c), s.acquisitions + 1);
            Numbered(below + [turn.frame], Apply(s, c, turn.effect).acquisitions)
  {
    TurnNumbers(f, s.cpus[c].enabled, s.holder == None, s.owner == Some(c), s.acquisitions + 1);
    TurnedNumber(s, c, below, f, Turn(f, s.cpus[c].enabled, s.holder == None, s.owner == Some(c), s.acquisitions + 1));
  }

  lemma TurnedNumber(s: System, c: CpuId, below: seq<Frame>, f: Frame, turn: Outcome)
    requires turn.effect == Take ==> Numbered(below, s.acquisitions + 1) && turn.frame.call == s.acquisitions + 1
    requires turn.effect != Take ==> Numbered(below, s.acquisitions) && (Holds(turn.frame) ==> turn.frame.call == s.acquisitions)
    ensures Numbered(below + [turn.frame], Apply(s, c, turn.effect).acquisitions)
  {
    NumberedTop(below, turn.frame, if turn.effect == Take then s.acquisitions + 1 else s.acquisitions);
  }

  lemma LogKeeps(s: System, c: CpuId, a: Action, base: seq<bool>)
    requires Inv(s, base) && Enabled(s, c, a)
    ensures LogInv(Next(s, c, a).log, Next(s, c, a).acquisitions, Next(s, c, a).holder)
  {
    assert CpuInv(s, c, base[c]);
    if a == Emit {
      assert s.holder == Some(c);
      assert Numbered(s.cpus[c].frames, s.acquisitions);
      LogGrows(s.log, s.acquisitions, c, if Top(s.cpus[c]).reentrant then None else Some(Top(s.cpus[c]).call));
    } else {
      HolderChanges(s.log, s.acquisitions, s.holder, Next(s, c, a).acquisitions, Next(s, c, a).holder);
    }
  }

  lemma HolderChanges(log: seq<Output>, before: nat, holder: Option<CpuId>, after: nat, newHolder: Option<CpuId>)
    requires LogInv(log, before, holder)
    requires after == before + 1 || (after == before && (newHolder == holder || newHolder == None))
    ensures LogInv(log, after, newHolder)
  {
  }

  lemma LogGrows(log: seq<Output>, number: nat, c: CpuId, call: Option<nat>)
    requires LogInv(log, number, Some(c)) && (call == None || call == Some(number))
    ensures LogInv(log + [Output(c, call)], number, Some(c))
  {
  }

  lemma {:induction false} TaggedIsHeld(frames: seq<Frame>)
    ensures Tagged(frames) ==> Held(frames)
  {
    if frames != [] {
      TaggedIsHeld(frames[..|frames| - 1]);
    }
  }

  lemma OwnerKeeps(s: System, c: CpuId, a: Action, base: seq<bool>)
    requires Inv(s, base) && Enabled(s, c, a) && CpuInv(Next(s, c, a), c, base[c])
    ensures var t := Next(s, c, a);
            (t.holder.Some? ==> t.holder.value < |t.cpus|) && (t.owner.Some? ==> t.owner == t.holder)
  {
    assert CpuInv(s, c, base[c]);
    TaggedIsHeld(Next(s, c, a).cpus[c].frames);
  }

  lemma StepKeeps(s: System, c: CpuId, a: Action, base: seq<bool>)
    requires Inv(s, base) && Enabled(s, c, a)
    ensures Inv(Next(s, c, a), base)
  {
    assert CpuInv(s, c, base[c]);
    forall d | 0 <= d < |s.cpus| ensures CpuInv(Next(s, c, a), d, base[d]) {
      if d != c {
        OthersKeep(s, c, a, base, d);
      } else if a == Advance {
        AdvanceKeeps(s, c, base[c]);
      } else if a != Emit {
        PushKeeps(s, c, a, base[c]);
      }
    }
    forall d | 0 <= d < |s.cpus| ensures Numbered(Next(s, c, a).cpus[d].frames, Next(s, c, a).acquisitions) {
      NumbersKeep(s, c, a, base, d);
    }
    LogKeeps(s, c, a, base);
    assert CpuInv(Next(s, c, a), c, base[c]);
    OwnerKeeps(s, c, a, base);
  }

  // --- Runs -----------------------------------------------------------------------------------------------

  /** No CPU is writing; interrupts are as `base` says. */
  predicate Initial(s: System, base: seq<bool>) {
    && |base| == |s.cpus| && s.holder == None && s.owner == None && s.log == []
    && forall c :: 0 <= c < |s.cpus| ==> s.cpus[c] == Cpu(base[c], [])
  }

  predicate Valid(s: System, run: seq<(CpuId, Action)>)
    decreases |run|
  {
    run == [] || (Enabled(s, run[0].0, run[0].1) && Valid(Next(s, run[0].0, run[0].1), run[1..]))
  }

  function Run(s: System, run: seq<(CpuId, Action)>): System
    requires Valid(s, run)
    decreases |run|
  {
    if run == [] then s else Run(Next(s, run[0].0, run[0].1), run[1..])
  }

  lemma {:induction false} RunKeeps(s: System, run: seq<(CpuId, Action)>, base: seq<bool>)
    requires Inv(s, base) && Valid(s, run)
    ensures Inv(Run(s, run), base)
    decreases |run|
  {
    if run != [] {
      StepKeeps(s, run[0].0, run[0].1, base);
      RunKeeps(Next(s, run[0].0, run[0].1), run[1..], base);
    }
  }

  /** In every run the owner tag tells the truth, a CPU never waits for a lock that it holds itself,
      the re-entrant path is only taken under the CPU's own lock, and a CPU that has finished all its
      calls has the interrupt state it started with, as has every single call when it returns. */
  lemma LockIsSafe(s: System, run: seq<(CpuId, Action)>, base: seq<bool>, c: CpuId)
    requires Initial(s, base) && Valid(s, run) && c < |s.cpus|
    ensures var t := Run(s, run);
            && |t.cpus| == |s.cpus|
            && (t.owner == Some(c) ==> t.holder == Some(c))
            && (t.cpus[c].frames != [] && Top(t.cpus[c]).stage == Spinning ==> t.holder != Some(c))
            && (t.cpus[c].frames != [] && Top(t.cpus[c]).reentrant ==> t.holder == Some(c))
            && (t.cpus[c].frames == [] ==> t.cpus[c].enabled == base[c])
            && (t.cpus[c].frames != [] && Top(t.cpus[c]).stage == Restoring ==>
                  Next(t, c, Advance).cpus[c].enabled == Top(t.cpus[c]).original)
  {
    RunKeeps(s, run, base);
    assert CpuInv(Run(s, run), c, base[c]);
  }

  /** Between two outputs of one call that is not re-entrant, only the CPU of that call writes. */
  lemma OutputIsNotInterleaved(s: System, run: seq<(CpuId, Action)>, base: seq<bool>, i: nat, k: nat, j: nat)
    requires Initial(s, base) && Valid(s, run) && i <= k <= j < |Run(s, run).log|
    ensures var log := Run(s, run).log;
            log[i].call.Some? && log[i].call == log[j].call ==> log[k].cpu == log[i].cpu
  {
    RunKeeps(s, run, base);
  }

  /** One number means one call: a call that takes the lock gets a number above all that were written
      with before, and keeps it as long as it holds the lock, that is, as long as it writes with it. */
  lemma NumbersAreFresh(s: System, run: seq<(CpuId, Action)>, base: seq<bool>, c: CpuId)
    requires Initial(s, base) && Valid(s, run)
    ensures var t := Run(s, run);
            Enabled(t, c, Advance) && Top(t.cpus[c]).stage != Restoring ==>
              var f, g := Top(t.cpus[c]), Top(Next(t, c, Advance).cpus[c]);
              && (!Holds(f) && Holds(g) ==> forall o :: o in t.log && o.call.Some? ==> o.call.value < g.call)
              && (Holds(f) && Holds(g) ==> g.call == f.call)
    ensures var t := Run(s, run);
            Enabled(t, c, Emit) ==>
              var f, o := Top(t.cpus[c]), Next(t, c, Emit).log[|t.log|];
              o.cpu == c && o.call == (if f.reentrant then None else Some(f.call)) && (!f.reentrant ==> Holds(f))
  {
    RunKeeps(s, run, base);
    var t := Run(s, run);
    if Enabled(t, c, Advance) && Top(t.cpus[c]).stage != Restoring {
      NumberGiven(t, c);
    }
    if Enabled(t, c, Emit) {
      assert Next(t, c, Emit).log[|t.log|] == Output(c, if Top(t.cpus[c]).reentrant then None else Some(Top(t.cpus[c]).call));
    }
  }

  lemma NumberGiven(s: System, c: CpuId)
    requires Enabled(s, c, Advance) && Top(s.cpus[c]).stage != Restoring
    ensures var f, g := Top(s.cpus[c]), Top(Next(s, c, Advance).cpus[c]);
            (!Holds(f) && Holds(g) ==> g.call == s.acquisitions + 1) && (Holds(f) && Holds(g) ==> g.call == f.call)
  {
    AdvancedIs(s, c, Below(s.cpus[c]), Top(s.cpus[c]));
  }

  /** Waiting is never mutual: while a CPU waits, the holder is another CPU and can take a step. */
  lemma HolderCanAdvance(s: System, run: seq<(CpuId, Action)>, base: seq<bool>)
    requires Initial(s, base) && Valid(s, run)
    ensures var t := Run(s, run);
            t.holder.Some? ==> t.holder.value < |t.cpus| && Enabled(t, t.holder.value, Advance)
  {
    RunKeeps(s, run, base);
    var t := Run(s, run);
    if t.holder.Some? {
      var c := t.holder.value;
      assert CpuInv(t, c, base[c]);
    }
  }
}
