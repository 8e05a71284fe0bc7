/** Bringing up the harts: one claims the boot, the others wait at a gate that lies in the BSS. */
module SmpBoot {
  import opened Wrappers

  type Hart = nat

  datatype Stage =
    | Off
    | Claiming       // entered, about to compare-and-swap BSP_HART
    | Clearing       // the boot hart, about to clear the BSS
    | Initialising   // the boot hart, up to the end of init_after_boot
    | Opening        // the boot hart, about to set AP_BOOT_READY
    | Requesting     // the boot hart, starting the others
    | Waiting        // the boot hart, waiting for them to be online
    | Serving        // the boot hart, services and scheduler
    | Failed         // the boot hart, after the bounded wait
    | Gate           // another hart, spinning on AP_BOOT_READY
    | ApMain         // another hart, initialising itself
    | Online         // another hart, scheduling

  datatype State = State(
    harts: seq<Stage>,
    bsp: Option<Hart>,        // BSP_HART; in .data, so it survives the clearing
    ready: bool,              // AP_BOOT_READY; in the BSS, so firmware decides its first value
    online: set<Hart>,        // the online mask; in the BSS too
    requested: set<Hart>,
    clears: nat,              // history: how often the BSS was cleared
    initialised: bool)        // history: init_after_boot has ended

  datatype Action =
    | Arrive | Claim | Clear | Initialise | Open
    | Request(harts: set<Hart>) | Check | GiveUp | Pass | ComeOnline

  predicate Enabled(s: State, h: Hart, a: Action) {
    && h < |s.harts|
    && match a
       case Arrive => s.harts[h] == Off
       case Claim => s.harts[h] == Claiming
       case Clear => s.harts[h] == Clearing
       case Initialise => s.harts[h] == Initialising
       case Open => s.harts[h] == Opening
       case Request(harts) => s.harts[h] == Requesting && h !in harts
       case Check => s.harts[h] == Waiting && s.requested <= s.online
       case GiveUp => s.harts[h] == Waiting
       case Pass => s.harts[h] == Gate && s.ready
       case ComeOnline => s.harts[h] == ApMain
  }

  function At(s: State, h: Hart, stage: Stage): State
    requires h < |s.harts|
  {
    s.(harts := s.harts[h := stage])
  }

  function Next(s: State, h: Hart, a: Action): State
    requires Enabled(s, h, a)
  {
    match a
    case Arrive => At(s, h, Claiming)
    case Claim => if s.bsp == None then At(s, h, Clearing).(bsp := Some(h)) else At(s, h, Gate)
    case Clear => At(s, h, Initialising).(ready := false, online := {}, clears := s.clears + 1)
    case Initialise => At(s, h, Opening).(initialised := true)
    case Open => At(s, h, Requesting).(ready := true)
    case Request(harts) => At(s, h, Waiting).(requested := harts)
    case Check => At(s, h, Serving)
    case GiveUp => At(s, h, Failed)
    case Pass => At(s, h, ApMain)
    case ComeOnline => At(s, h, Online).(online := s.online + {h})
  }

  predicate Initial(s: State) {
    && (forall h :: 0 <= h < |s.harts| ==> s.harts[h] == Off)
    && s.bsp == None && s.clears == 0 && !s.initialised
  }

  predicate Valid(s: State, run: seq<(Hart, Action)>)
    decreases |run|
  {
    run == [] || (Enabled(s, run[0].0, run[0].1) && Valid(Next(s, run[0].0, run[0].1), run[1..]))
  }

  function Run(s: State, run: seq<(Hart, Action)>): State
    requires Valid(s, run)
    decreases |run|
  {
    if run == [] then s else Run(Next(s, run[0].0, run[0].1), run[1..])
  }

  // --- One boot hart, one clearing -----------------------------------------------------------------------

  predicate Boots(stage: Stage) {
    stage == Clearing || stage == Initialising || stage == Opening || stage == Requesting || stage == Waiting
    || stage == Serving || stage == Failed
  }

  predicate Claimed(s: State) {
    && (s.bsp.Some? ==> s.bsp.value < |s.harts| && Boots(s.harts[s.bsp.value]))
    && (forall h :: 0 <= h < |s.harts| && Boots(s.harts[h]) ==> s.bsp == Some(h))
    && s.clears == if s.bsp == None || s.harts[s.bsp.value] == Clearing then 0 else 1
  }

  lemma {:induction false} RunClaims(s: State, run: seq<(Hart, Action)>)
    requires Claimed(s) && Valid(s, run)
    ensures Claimed(Run(s, run))
    ensures |Run(s, run).harts| == |s.harts| && (s.bsp.Some? ==> Run(s, run).bsp == s.bsp)
    decreases |run|
  {
    if run != [] {
      StepClaims(s, run[0].0, run[0].1);
      RunClaims(Next(s, run[0].0, run[0].1), run[1..]);
    }
  }

  lemma StepClaims(s: State, h: Hart, a: Action)
    requires Claimed(s) && Enabled(s, h, a)
    ensures Claimed(Next(s, h, a)) && (s.bsp.Some? ==> Next(s, h, a).bsp == s.bsp)
  {
  }

  /** In any order of arrival, and whatever memory holds at power-on, at most one hart boots, it
      alone clears the BSS and does so once, and the claim is never lost again. */
  lemma OneHartBoots(s: State, run: seq<(Hart, Action)>, more: seq<(Hart, Action)>)
    requires Initial(s) && Valid(s, run) && Valid(Run(s, run), more)
    ensures var t, u := Run(s, run), Run(Run(s, run), more);
            && t.clears <= 1
            && (forall g, h :: 0 <= g < |t.harts| && 0 <= h < |t.harts| && Boots(t.harts[g]) && Boots(t.harts[h]) ==> g == h)
            && (t.clears == 1 ==> t.bsp.Some? && u.clears == 1)
            && (t.bsp.Some? ==> u.bsp == t.bsp)
  {
    RunClaims(s, run);
    RunClaims(Run(s, run), more);
    ClearsOnlyGrow(Run(s, run), more);
  }

  lemma {:induction false} ClearsOnlyGrow(s: State, run: seq<(Hart, Action)>)
    requires Valid(s, run)
    ensures Run(s, run).clears >= s.clears
    decreases |run|
  {
    if run != [] {
      ClearsOnlyGrow(Next(s, run[0].0, run[0].1), run[1..]);
    }
  }

  // --- The gate --------------------------------------------------------------------------------------------

  predicate PastGate(stage: Stage) { stage == ApMain || stage == Online }

  predicate Gated(s: State) {
    && Claimed(s)
    && (s.ready ==> s.initialised)
    && (s.initialised <==> s.bsp.Some? && s.harts[s.bsp.value] != Clearing && s.harts[s.bsp.value] != Initialising)
    && (forall h :: 0 <= h < |s.harts| && PastGate(s.harts[h]) ==> s.initialised)
  }

  lemma StepIsGated(s: State, h: Hart, a: Action)
    requires Gated(s) && Enabled(s, h, a)
    ensures Gated(Next(s, h, a))
  {
    StepClaims(s, h, a);
  }

  lemma {:induction false} RunIsGated(s: State, run: seq<(Hart, Action)>)
    requires Gated(s) && Valid(s, run)
    ensures Gated(Run(s, run))
    decreases |run|
  {
    if run != [] {
      StepIsGated(s, run[0].0, run[0].1);
      RunIsGated(Next(s, run[0].0, run[0].1), run[1..]);
    }
  }

  ghost predicate NeverEarly(s: State) {
    forall run :: Valid(s, run) ==> GateHolds(Run(s, run))
  }

  predicate GateHolds(t: State) {
    forall h :: 0 <= h < |t.harts| && PastGate(t.harts[h]) ==> t.initialised
  }

  /** A waiting hart never runs kernel code before the boot hart has initialised the kernel, exactly
      when the gate happened to be closed at power-on: clearing the BSS closes it, but a hart may
      look at it before that. With a single hart there is nobody to look. */
  lemma GateIsSafeExactly(s: State)
    requires Initial(s)
    ensures NeverEarly(s) <==> !s.ready || |s.harts| < 2
  {
    if !s.ready {
      forall run | Valid(s, run) ensures GateHolds(Run(s, run)) {
        RunIsGated(s, run);
      }
    } else if |s.harts| >= 2 {
      OpenGateRun(s);
    } else {
      forall run | Valid(s, run) ensures GateHolds(Run(s, run)) {
        RunIsAlone(s, run);
      }
    }
  }

  lemma OpenGateRun(s: State)
    requires Initial(s) && s.ready && |s.harts| >= 2
    ensures !NeverEarly(s)
  {
    var s1 := Next(s, 0, Arrive);
    var s2 := Next(s1, 0, Claim);
    var s3 := Next(s2, 1, Arrive);
    var s4 := Next(s3, 1, Claim);
    var s5 := Next(s4, 1, Pass);
    var run: seq<(Hart, Action)> := [];
    assert Valid(s5, run) && Run(s5, run) == s5;
    run := Prefixed(s4, 1, Pass, run);
    run := Prefixed(s3, 1, Claim, run);
    run := Prefixed(s2, 1, Arrive, run);
    run := Prefixed(s1, 0, Claim, run);
    run := Prefixed(s, 0, Arrive, run);
    assert s5.harts[1] == ApMain && !GateHolds(s5);
  }

  lemma Prefixed(s: State, h: Hart, a: Action, rest: seq<(Hart, Action)>) returns (run: seq<(Hart, Action)>)
    requires Enabled(s, h, a) && Valid(Next(s, h, a), rest)
    ensures Valid(s, run) && Run(s, run) == Run(Next(s, h, a), rest)
  {
    run := [(h, a)] + rest;
    assert run[1..] == rest;
  }

  /** A single hart claims the boot and never comes to the gate. */
  predicate Alone(s: State) {
    && |s.harts| < 2 && Claimed(s)
    && (forall h :: 0 <= h < |s.harts| ==> !PastGate(s.harts[h]) && s.harts[h] != Gate)
    && (s.bsp.Some? ==> forall h :: 0 <= h < |s.harts| ==> s.harts[h] != Claiming && s.harts[h] != Off)
  }

  lemma {:induction false} RunIsAlone(s: State, run: seq<(Hart, Action)>)
    requires Alone(s) && Valid(s, run)
    ensures Alone(Run(s, run))
    decreases |run|
  {
    if run != [] {
      StepClaims(s, run[0].0, run[0].1);
      RunIsAlone(Next(s, run[0].0, run[0].1), run[1..]);
    }
  }

  // --- Services ----------------------------------------------------------------------------------------------

  /** Once the BSS is cleared, the online mask holds only harts that have really come online. */
  predicate Counted(s: State) {
    && Claimed(s)
    && (s.bsp.Some? && s.harts[s.bsp.value] != Clearing ==>
          forall h :: h in s.online ==> h < |s.harts| && s.harts[h] == Online)
    && (s.bsp.Some? && s.harts[s.bsp.value] == Serving ==> s.requested <= s.online)
  }

  lemma StepIsCounted(s: State, h: Hart, a: Action)
    requires Counted(s) && Enabled(s, h, a)
    ensures Counted(Next(s, h, a))
  {
    StepClaims(s, h, a);
  }

  lemma {:induction false} RunIsCounted(s: State, run: seq<(Hart, Action)>)
    requires Counted(s) && Valid(s, run)
    ensures Counted(Run(s, run))
    decreases |run|
  {
    if run != [] {
      StepIsCounted(s, run[0].0, run[0].1);
      RunIsCounted(Next(s, run[0].0, run[0].1), run[1..]);
    }
  }

  /** Whatever memory holds at power-on, services start only when every requested hart is online,
      that is, has really got there. */
  lemma ServicesWaitForHarts(s: State, run: seq<(Hart, Action)>, h: Hart)
    requires Initial(s) && Valid(s, run) && h < |Run(s, run).harts|
    ensures var t := Run(s, run);
            t.harts[h] == Serving ==> t.bsp == Some(h) && forall r :: r in t.requested ==> r < |t.harts| && t.harts[r] == Online
  {
    RunIsCounted(s, run);
  }
}
