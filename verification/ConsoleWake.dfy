/** Console input: UART interrupt, dispatch, notification and the draining worker, step by step. */
module ConsoleWake {

  /** Generations are machine words. */
  const WORD: nat := 0x1_0000_0000_0000_0000
  const DRAIN_BUDGET: nat := 64
  const DISPATCH_BUDGET: nat := 64

  /** Where the CPU that receives device interrupts is inside `dispatch`; `turn` counts claims. */
  datatype Handler =
    | Idle
    | Claiming(turn: nat)
    | Probing(turn: nat)
    | Masking(turn: nat)
    | Completing(turn: nat, uart: bool)
    | Counting(turn: nat)
    | Loading(turn: nat)
    | Waking(turn: nat, queue: bool)

  /** Where the input task is. */
  datatype Worker =
    | NotStarted
    | Top
    | Rearming(drained: nat)
    | Reading(drained: nat)
    | Checking
    | Blocked

  datatype State = State(
    fifo: nat,          // bytes in the receive FIFO
    armed: bool,        // the receive interrupt is enabled in the UART
    generation: nat,    // CONSOLE_GENERATION
    queue: bool,        // CONSOLE_QUEUE has been initialised
    handler: Handler,
    worker: Worker,
    observed: nat,
    counted: nat,       // history: notifications counted since `observed` was read
    rearmed: nat)       // history: receive interrupts enabled since then

  datatype Action =
    | Arrive | Enter | ClaimNothing | ClaimOther | ClaimUart | Probe | Mask | Complete | Count | Load | Wake
    | Start | Observe | Rearm | Read | Check | OtherWake

  /** The UART requests an interrupt. */
  predicate Requested(s: State) { s.armed && s.fifo > 0 }

  predicate Enabled(s: State, a: Action) {
    match a
    case Arrive => true
    case Enter => s.handler == Idle
    case ClaimNothing => s.handler.Claiming?
    case ClaimOther => s.handler.Claiming? && s.handler.turn < DISPATCH_BUDGET
    case ClaimUart => s.handler.Claiming? && s.handler.turn < DISPATCH_BUDGET
    case Probe => s.handler.Probing?
    case Mask => s.handler.Masking?
    case Complete => s.handler.Completing?
    case Count => s.handler.Counting?
    case Load => s.handler.Loading?
    case Wake => s.handler.Waking?
    case Start => s.worker == NotStarted
    case Observe => s.worker == Top
    case Rearm => s.worker.Rearming?
    case Read => s.worker.Reading?
    case Check => s.worker == Checking
    case OtherWake => s.worker == Blocked
  }

  /** A claim may name the UART without a request: the controller can latch an old one. */
  function Next(s: State, a: Action): State
    requires Enabled(s, a)
  {
    match a
    case Arrive => s.(fifo := s.fifo + 1)
    case Enter => s.(handler := Claiming(0))
    case ClaimNothing => s.(handler := Idle)
    case ClaimOther => s.(handler := Claiming(s.handler.turn + 1))
    case ClaimUart => s.(handler := Probing(s.handler.turn))
    case Probe => s.(handler := if Requested(s) then Masking(s.handler.turn) else Completing(s.handler.turn, false))
    case Mask => s.(armed := false, handler := Completing(s.handler.turn, true))
    case Complete => s.(handler := if s.handler.uart then Counting(s.handler.turn) else Claiming(s.handler.turn + 1))
    case Count => s.(generation := (s.generation + 1) % WORD, counted := s.counted + 1, handler := Loading(s.handler.turn))
    case Load => s.(handler := Waking(s.handler.turn, s.queue))
    case Wake =>
      s.(handler := Claiming(s.handler.turn + 1),
         worker := if s.handler.queue && s.worker == Blocked then Top else s.worker)
    case Start => s.(queue := true, worker := Top)
    case Observe => s.(observed := s.generation, counted := 0, rearmed := 0, worker := Rearming(0))
    case Rearm => s.(armed := true, rearmed := s.rearmed + 1, worker := Reading(s.worker.drained))
    case Read =>
      if s.fifo == 0 then s.(worker := Checking)
      else
        var drained := s.worker.drained + 1;
        s.(fifo := s.fifo - 1, worker := if drained == DRAIN_BUDGET then Top else Rearming(drained))
    case Check => s.(worker := if s.generation == s.observed then Blocked else Top)
    case OtherWake => s.(worker := Top)
  }

  predicate Initial(s: State) {
    s.handler == Idle && s.worker == NotStarted && !s.queue && s.generation < WORD && s.counted == 0
  }

  function Run(s: State, actions: seq<Action>): (r: State)
    requires Valid(s, actions)
    decreases |actions|
  {
    if actions == [] then s else Run(Next(s, actions[0]), actions[1..])
  }

  predicate Valid(s: State, actions: seq<Action>)
    decreases |actions|
  {
    actions == [] || (Enabled(s, actions[0]) && Valid(Next(s, actions[0]), actions[1..]))
  }

  // --- Invariant ------------------------------------------------------------------------------------

  /** The handler has seen the request and will wake the input task. */
  predicate WillWake(s: State) {
    match s.handler
    case Masking(_) => true
    case Completing(_, uart) => uart
    case Counting(_) => true
    case Loading(_) => true
    case Waking(_, queue) => queue
    case _ => false
  }

  /** A masked request that is not yet counted. */
  function Uncounted(s: State): nat {
    if s.handler.Counting? || (s.handler.Completing? && s.handler.uart) then 1 else 0
  }

  predicate Started(s: State) { s.worker != NotStarted && s.worker != Top }

  predicate Inv(s: State) {
    && s.generation < WORD
    && s.queue == (s.worker != NotStarted)
    && (s.handler.Masking? ==> s.armed)
    && (Started(s) ==>
          && s.generation == (s.observed + s.counted) % WORD && s.observed < WORD
          && (s.worker != Blocked ==>
                s.counted + Uncounted(s) + (if s.armed then 1 else 0) <= 2 + s.rearmed && s.rearmed <= DRAIN_BUDGET))
    && (s.worker.Rearming? ==> s.rearmed == s.worker.drained < DRAIN_BUDGET)
    && (s.worker.Reading? ==> s.rearmed == s.worker.drained + 1 <= DRAIN_BUDGET)
    && (s.worker.Reading? || s.worker.Checking? ==> s.armed || Uncounted(s) > 0 || s.counted > 0)
    && (s.worker.Blocked? ==> s.armed || WillWake(s))
    && (s.worker.Blocked? && s.counted > 0 ==> s.handler.Loading? || (s.handler.Waking? && s.handler.queue))
  }

  predicate WorkerAction(a: Action) {
    a.Start? || a.Observe? || a.Rearm? || a.Read? || a.Check? || a.OtherWake? || a.Arrive?
  }

  lemma WorkerStepKeeps(s: State, a: Action)
    requires Inv(s) && Enabled(s, a) && WorkerAction(a)
    ensures Inv(Next(s, a))
  {
  }

  lemma HandlerStepKeeps(s: State, a: Action)
    requires Inv(s) && Enabled(s, a) && !WorkerAction(a)
    ensures Inv(Next(s, a))
  {
  }

  lemma StepKeeps(s: State, a: Action)
    requires Inv(s) && Enabled(s, a)
    ensures Inv(Next(s, a))
  {
    if WorkerAction(a) {
      WorkerStepKeeps(s, a);
    } else {
      HandlerStepKeeps(s, a);
    }
  }

  lemma {:induction false} RunKeeps(s: State, actions: seq<Action>)
    requires Inv(s) && Valid(s, actions)
    ensures Inv(Run(s, actions))
    decreases |actions|
  {
    if actions != [] {
      StepKeeps(s, actions[0]);
      RunKeeps(Next(s, actions[0]), actions[1..]);
    }
  }

  // --- No input is lost ---------------------------------------------------------------------------

  /** Whatever happened before, a sleeping input task with input to read will be woken: either the
      UART requests an interrupt or the handler is already on its way. Rearming before each look at
      the FIFO is what makes this true, and it bounds the notifications counted while the task is
      awake, so that the generation cannot wrap around to the observed one. */
  lemma SleeperWithInputIsServed(s: State, actions: seq<Action>)
    requires Initial(s) && Valid(s, actions)
    ensures var r := Run(s, actions); r.worker == Blocked && r.fifo > 0 ==> Requested(r) || WillWake(r)
  {
    RunKeeps(s, actions);
  }

  /** A sleeping task's generation differs from the observed one only while it is being woken. */
  lemma SleeperIsBeingWoken(s: State, actions: seq<Action>)
    requires Initial(s) && Valid(s, actions)
    ensures var r := Run(s, actions);
            r.worker == Blocked && r.generation != r.observed ==> r.handler.Loading? || (r.handler.Waking? && r.handler.queue)
  {
    RunKeeps(s, actions);
  }

  /** What the interrupted CPU does next when nothing else happens: the controller names the UART
      whenever it requests an interrupt. */
  function Serve(s: State): Action {
    match s.handler
    case Idle => Enter
    case Claiming(turn) => if turn < DISPATCH_BUDGET && Requested(s) then ClaimUart else ClaimNothing
    case Probing(_) => Probe
    case Masking(_) => Mask
    case Completing(_, _) => Complete
    case Counting(_) => Count
    case Loading(_) => Load
    case Waking(_, _) => Wake
  }

  /** Steps of the handler until the wake-up; a request seen late in a used-up dispatch, or in a
      wake-up meant for an unset queue, needs another round. */
  function Distance(s: State): nat {
    match s.handler
    case Waking(_, queue) => if queue then 1 else 10
    case Loading(_) => 2
    case Counting(_) => 3
    case Completing(_, uart) => if uart then 4 else 10
    case Masking(_) => 5
    case Probing(_) => 6
    case Claiming(turn) => if turn < DISPATCH_BUDGET then 7 else 9
    case Idle => 8
  }

  predicate Serviceable(s: State) { s.worker == Blocked && s.queue && (Requested(s) || WillWake(s)) }

  lemma ServeStep(s: State)
    requires Serviceable(s)
    ensures Enabled(s, Serve(s))
    ensures Next(s, Serve(s)).worker == Top || (Serviceable(Next(s, Serve(s))) && Distance(Next(s, Serve(s))) < Distance(s))
  {
  }

  /** Ten steps of the interrupted CPU alone wake the task. */
  lemma {:induction false} ServiceWakes(s: State) returns (actions: seq<Action>)
    requires Serviceable(s)
    ensures |actions| <= Distance(s) <= 10
    ensures Valid(s, actions) && Run(s, actions).worker == Top
    decreases Distance(s)
  {
    ServeStep(s);
    var next := Next(s, Serve(s));
    if next.worker == Top {
      actions := [Serve(s)];
      assert actions[1..] == [];
    } else {
      var rest := ServiceWakes(next);
      actions := [Serve(s)] + rest;
      assert actions[1..] == rest;
    }
  }

  lemma InputIsEventuallyRead(s: State, actions: seq<Action>) returns (more: seq<Action>)
    requires Initial(s) && Valid(s, actions)
    requires Run(s, actions).worker == Blocked && Run(s, actions).fifo > 0
    ensures |more| <= 10 && Valid(Run(s, actions), more) && Run(Run(s, actions), more).worker == Top
  {
    RunKeeps(s, actions);
    more := ServiceWakes(Run(s, actions));
  }
}
