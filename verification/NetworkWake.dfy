/** The network worker and everyone who notifies it. */
module NetworkWake {

  const WORD: nat := 0x1_0000_0000_0000_0000

  /** A call of `notify_network`, on any CPU. */
  datatype Notifier = Counting | Loading | Waking(queue: bool) | Done

  datatype Worker = NotStarted | Top | Polling | Checking(timed: bool) | Blocked(timed: bool)

  datatype State = State(
    generation: nat,
    queue: bool,
    notifiers: seq<Notifier>,
    worker: Worker,
    observed: nat,
    counted: nat)       // history: notifications counted since `observed` was read

  datatype Action =
    | Call                            // someone enters notify_network
    | Notify(n: nat)                  // notifier n takes its next step
    | Start | Observe | Poll(timed: bool) | Check | OtherWake

  predicate Enabled(s: State, a: Action) {
    match a
    case Call => true
    case Notify(n) => n < |s.notifiers| && s.notifiers[n] != Done
    case Start => s.worker == NotStarted
    case Observe => s.worker == Top
    case Poll(_) => s.worker == Polling
    case Check => s.worker.Checking?
    case OtherWake => s.worker.Blocked?
  }

  function NotifyStep(s: State, n: nat): State
    requires n < |s.notifiers| && s.notifiers[n] != Done
  {
    match s.notifiers[n]
    case Counting =>
      s.(generation := (s.generation + 1) % WORD, counted := s.counted + 1, notifiers := s.notifiers[n := Loading])
    case Loading => s.(notifiers := s.notifiers[n := Waking(s.queue)])
    case Waking(queue) =>
      s.(notifiers := s.notifiers[n := Done], worker := if queue && s.worker.Blocked? then Top else s.worker)
  }

  /** The worker polls the stack, then sleeps with or without a timeout. The re-check of the
      generation and the suspension are one step of the scheduler. */
  function Next(s: State, a: Action): State
    requires Enabled(s, a)
  {
    match a
    case Call => s.(notifiers := s.notifiers + [Counting])
    case Notify(n) => NotifyStep(s, n)
    case Start => s.(queue := true, worker := Top)
    case Observe => s.(observed := s.generation, counted := 0, worker := Polling)
    case Poll(timed) => s.(worker := Checking(timed))
    case Check => s.(worker := if s.generation == s.observed then Blocked(s.worker.timed) else Top)
    case OtherWake => s.(worker := Top)
  }

  predicate Initial(s: State) {
    s.worker == NotStarted && !s.queue && s.generation < WORD && s.counted == 0 && s.notifiers == []
  }

  predicate Valid(s: State, actions: seq<Action>)
    decreases |actions|
  {
    actions == [] || (Enabled(s, actions[0]) && Valid(Next(s, actions[0]), actions[1..]))
  }

  function Run(s: State, actions: seq<Action>): (r: State)
    requires Valid(s, actions)
    decreases |actions|
  {
    if actions == [] then s else Run(Next(s, actions[0]), actions[1..])
  }

  /** Counted, with the wake-up still to come. */
  predicate WillWake(n: Notifier) { n.Loading? || (n.Waking? && n.queue) }

  ghost predicate InFlight(s: State) { exists n :: 0 <= n < |s.notifiers| && WillWake(s.notifiers[n]) }

  ghost predicate Inv(s: State) {
    && s.generation < WORD
    && s.queue == (s.worker != NotStarted)
    && (s.worker.Polling? || s.worker.Checking? || s.worker.Blocked? ==>
          s.observed < WORD && s.generation == (s.observed + s.counted) % WORD)
    && (s.worker.Blocked? && s.generation != s.observed ==> InFlight(s))
  }

  lemma StepKeeps(s: State, a: Action)
    requires Inv(s) && Enabled(s, a)
    ensures Inv(Next(s, a))
  {
    var t := Next(s, a);
    if t.worker.Blocked? && t.generation != t.observed {
      if a.Notify? && s.notifiers[a.n].Counting? {
        assert WillWake(t.notifiers[a.n]);
      } else {
        var n :| 0 <= n < |s.notifiers| && WillWake(s.notifiers[n]);
        assert WillWake(t.notifiers[n]);
      }
    }
  }

  lemma {:induction false} RunKeeps(s: State, actions: seq<Action>)
    requires Inv(s) && Valid(s, actions)
    ensures Inv(Run(s, actions))
    decreases |actions|
  {
    if actions != [] {
      StepKeeps(s, actions[0]);
      RunKeeps(Next(s, actions[0]), actions[1..]);
    }
  }

  /** A sleeping worker whose generation has moved on is about to be woken: in every run, a notifier
      is between its increment and its wake-up. The worker therefore sleeps through a notification
      only if exactly a multiple of 2^64 of them were counted since it looked. */
  lemma NoLostWakeup(s: State, actions: seq<Action>)
    requires Initial(s) && Valid(s, actions)
    ensures var r := Run(s, actions);
            r.worker.Blocked? ==>
              && (r.generation != r.observed ==> InFlight(r))
              && (r.generation == r.observed <==> r.counted % WORD == 0)
  {
    RunKeeps(s, actions);
    var r := Run(s, actions);
    if r.worker.Blocked? {
      SameResidue(r.observed, r.counted);
    }
  }

  lemma SameResidue(x: nat, k: nat)
    requires x < WORD
    ensures (x + k) % WORD == x <==> k % WORD == 0
  {
  }

  /** The notifier in flight needs two steps of its own to end the sleep. */
  lemma InFlightWakes(s: State) returns (actions: seq<Action>)
    requires s.worker.Blocked? && s.queue && InFlight(s)
    ensures |actions| <= 2 && Valid(s, actions) && Run(s, actions).worker == Top
  {
    var n: nat :| n < |s.notifiers| && WillWake(s.notifiers[n]);
    if s.notifiers[n].Loading? {
      assert Next(s, Notify(n)).notifiers[n] == Waking(true);
      TwoSteps(s, Notify(n), Notify(n));
      actions := [Notify(n), Notify(n)];
    } else {
      actions := [Notify(n)];
      assert actions[1..] == [];
    }
  }

  lemma TwoSteps(s: State, a: Action, b: Action)
    requires Enabled(s, a) && Enabled(Next(s, a), b)
    ensures Valid(s, [a, b]) && Run(s, [a, b]) == Next(Next(s, a), b)
  {
    var t := Next(s, a);
    assert [a, b][1..] == [b] && [b][1..] == [];
    assert Valid(Next(t, b), []) && Run(Next(t, b), []) == Next(t, b);
    assert Valid(t, [b]);
    assert Run(t, [b]) == Run(Next(t, [b][0]), [b][1..]);
  }
}

/** Waiting for a device with interrupts masked. */
module DeviceWait {

  /** The device publishes the completion before it raises its interrupt. */
  datatype Device = Working | Completed | Raised

  datatype Waiter =
    | Outside                 // interrupts as the caller left them
    | Looking                 // interrupts masked, about to evaluate `ready`
    | NotReady                // `ready` was false; about to wait for an interrupt
    | Asleep
    | Finished                // about to restore the interrupt state
    | Returned

  datatype State = State(
    device: Device,
    pending: bool,            // the device's interrupt line
    receives: bool,           // this CPU is the one that receives device interrupts
    enabled: bool,            // interrupts are enabled on this CPU
    saved: bool,              // the interrupt state to restore
    waiter: Waiter)

  datatype Action = Finish | Raise | Handle | Mask | Look | Wait | Resume | OtherInterrupt | Restore

  /** Only the receiving CPU handles the interrupt, and only while it has interrupts enabled. Another
      CPU may wait as well; the handler then runs at any time. */
  predicate Enabled(s: State, a: Action) {
    match a
    case Finish => s.device == Working
    case Raise => s.device == Completed
    case Handle => s.pending && (s.receives ==> s.enabled)
    case Mask => s.waiter == Outside
    case Look => s.waiter == Looking
    case Wait => s.waiter == NotReady
    case Resume => s.waiter == Asleep && s.pending
    case OtherInterrupt => s.waiter == Asleep
    case Restore => s.waiter == Finished
  }

  function Next(s: State, a: Action): State
    requires Enabled(s, a)
  {
    match a
    case Finish => s.(device := Completed)
    case Raise => s.(device := Raised, pending := true)
    case Handle => s.(pending := false)
    case Mask => s.(saved := s.enabled, enabled := false, waiter := Looking)
    case Look => s.(waiter := if s.device != Working then Finished else NotReady)
    case Wait => s.(waiter := if s.receives then Asleep else Looking)
    case Resume => s.(waiter := Looking)
    case OtherInterrupt => s.(waiter := Looking)
    case Restore => s.(enabled := s.saved, waiter := Returned)
  }

  predicate Initial(s: State) { s.waiter == Outside && s.device == Working }

  /** A run as the list of its states. */
  ghost predicate Run(states: seq<State>) {
    && |states| > 0 && Initial(states[0])
    && forall i :: 0 <= i < |states| - 1 ==> Step(states[i], states[i + 1])
  }

  ghost predicate Step(s: State, t: State) { exists a :: Enabled(s, a) && t == Next(s, a) }

  predicate Inv(s: State, before: bool) {
    && (s.waiter == Outside || s.waiter == Returned ==> s.enabled == before)
    && (s.waiter != Outside ==> s.saved == before)
    && (s.waiter.Looking? || s.waiter.NotReady? || s.waiter.Asleep? ==> !s.enabled)
    && (s.waiter == Asleep ==> s.receives)
    && (s.receives && (s.waiter == NotReady || s.waiter == Asleep) ==> s.device == Raised ==> s.pending)
  }

  lemma StepKeeps(s: State, t: State, before: bool)
    requires Inv(s, before) && Step(s, t)
    ensures Inv(t, before)
  {
    var a :| Enabled(s, a) && t == Next(s, a);
  }

  lemma {:induction false} RunKeeps(states: seq<State>, i: nat)
    requires Run(states) && i < |states|
    ensures Inv(states[i], states[0].enabled)
    decreases i
  {
    if i > 0 {
      RunKeeps(states, i - 1);
      StepKeeps(states[i - 1], states[i], states[0].enabled);
    }
  }

  /** A sleeping CPU never misses the completion: once the device has raised its interrupt, the line
      is still up, because only this CPU could have lowered it and it has interrupts masked. When the
      wait returns, the CPU has the interrupt state that it started with. */
  lemma CompletionEndsSleep(states: seq<State>, i: nat)
    requires Run(states) && i < |states|
    ensures states[i].waiter == Asleep && states[i].device == Raised ==> Enabled(states[i], Resume)
    ensures states[i].waiter == Returned ==> states[i].enabled == states[0].enabled
  {
    RunKeeps(states, i);
  }
}
