/** Concurrent and nested writers of one CPU's event ring.

A writer draws its sequence, counts an overwrite, writes the nine fields of the event one by one in any
order, and publishes the sequence. Atomics are sequentially consistent, and the 64-bit
sequence does not wrap around.
*/
module EventProtocol {
  import opened DebugState
  import opened DebugAbi
  import opened DebugRoundTrip

  datatype Writer = Writer(event: Event, counted: bool, written: set<nat>)

  /** `next`, `dropped` and `slots` are the ring; `writers` are the calls of `record_event` that have drawn
      a sequence and not finished. `recorded` and `finished` are history. */
  datatype State = State(next: nat, dropped: nat, slots: seq<EventSlot>,
                         writers: map<nat, Writer>, recorded: map<nat, Event>, finished: set<nat>)

  const FIELDS := 9
  const EMPTY_EVENT := Event(0, NO_TASK, 0, 0, 0, 0, 0, 0, 0)

  function Field(e: Event, k: nat): nat {
    match k
    case 0 => e.tick case 1 => e.task case 2 => e.kind case 3 => e.cpu case 4 => e.flags
    case 5 => e.callerPc case 6 => e.arg0 case 7 => e.arg1 case _ => e.arg2
  }

  /** `e` with field `k` taken from `source`. */
  function CopyField(e: Event, source: Event, k: nat): Event {
    match k
    case 0 => e.(tick := source.tick) case 1 => e.(task := source.task) case 2 => e.(kind := source.kind)
    case 3 => e.(cpu := source.cpu) case 4 => e.(flags := source.flags) case 5 => e.(callerPc := source.callerPc)
    case 6 => e.(arg0 := source.arg0) case 7 => e.(arg1 := source.arg1) case _ => e.(arg2 := source.arg2)
  }

  ghost predicate Init(r: State, capacity: nat) {
    && capacity > 0
    && r.next == 1 && r.dropped == 0
    && |r.slots| == capacity && (forall i :: 0 <= i < capacity ==> r.slots[i] == EventSlot(0, EMPTY_EVENT))
    && r.writers == map[] && r.recorded == map[] && r.finished == {}
  }

  datatype Action = Draw(event: Event) | Count(s: nat) | WriteField(s: nat, k: nat) | Publish(s: nat)

  function Index(r: State, s: nat): nat requires |r.slots| > 0 { s % |r.slots| }

  ghost predicate Enabled(r: State, a: Action) {
    match a
    case Draw(_) => r.next < 0xFFFF_FFFF_FFFF_FFFF
    case Count(s) => s in r.writers && !r.writers[s].counted
    case WriteField(s, k) => s in r.writers && r.writers[s].counted && k < FIELDS && k !in r.writers[s].written
    case Publish(s) => s in r.writers && r.writers[s].counted && forall k :: 0 <= k < FIELDS ==> k in r.writers[s].written
  }

  function Next(r: State, a: Action): State
    requires |r.slots| > 0 && r.next <= 0xFFFF_FFFF_FFFF_FFFF
    requires forall s :: s in r.writers ==> s < r.next
  {
    match a
    case Draw(event) =>
      r.(next := r.next + 1, writers := r.writers[r.next := Writer(event, false, {})],
         recorded := r.recorded[r.next := event])
    case Count(s) =>
      if s !in r.writers then r
      else r.(dropped := if s > |r.slots| then r.dropped + 1 else r.dropped,
              writers := r.writers[s := r.writers[s].(counted := true)])
    case WriteField(s, k) =>
      if s !in r.writers then r
      else
        var i := Index(r, s);
        r.(slots := r.slots[i := r.slots[i].(event := CopyField(r.slots[i].event, r.writers[s].event, k))],
           writers := r.writers[s := r.writers[s].(written := r.writers[s].written + {k})])
    case Publish(s) =>
      if s !in r.writers then r
      else
        var i := Index(r, s);
        r.(slots := r.slots[i := r.slots[i].(sequence := s)],
           writers := r.writers - {s}, finished := r.finished + {s})
  }

  /** The writer of `s` has finished when `s + capacity` is drawn. */
  predicate Timely(r: State, a: Action) {
    a.Draw? && r.next >= |r.slots| ==> r.next - |r.slots| !in r.writers
  }

  ghost predicate Numbered(r: State) {
    && |r.slots| > 0 && 1 <= r.next <= 0xFFFF_FFFF_FFFF_FFFF
    && forall s :: s in r.writers ==> 1 <= s < r.next
  }

  ghost predicate Step(r: State, t: State) {
    Numbered(r) && exists a :: Enabled(r, a) && Timely(r, a) && t == Next(r, a)
  }

  ghost predicate Run(states: seq<State>, capacity: nat) {
    && |states| > 0 && Init(states[0], capacity)
    && forall i :: 0 <= i < |states| - 1 ==> Step(states[i], states[i + 1])
  }

  /** A run without the restriction. */
  ghost predicate FreeStep(r: State, t: State) {
    Numbered(r) && exists a :: Enabled(r, a) && t == Next(r, a)
  }

  ghost predicate FreeRun(states: seq<State>, capacity: nat, last: State) {
    && |states| > 0 && Init(states[0], capacity) && states[|states| - 1] == last
    && Numbered(last) && |last.slots| == capacity
    && forall i :: 0 <= i < |states| - 1 ==> FreeStep(states[i], states[i + 1])
  }

  // --- Invariants ------------------------------------------------------------------------------

  /** Every drawn sequence is either being written or finished, and writers are recent. */
  ghost predicate HistoryInv(r: State) {
    && Numbered(r)
    && (forall s :: s in r.recorded <==> 1 <= s < r.next)
    && (forall s :: s in r.recorded <==> s in r.writers || s in r.finished)
    && (forall s :: s in r.writers ==> s !in r.finished && s + |r.slots| >= r.next)
    && (forall s :: s in r.writers ==> r.writers[s].event == r.recorded[s])
  }

  ghost predicate Quiet(r: State, i: nat) requires |r.slots| > 0 {
    forall s :: s in r.writers ==> Index(r, s) != i
  }

  ghost predicate SlotInv(r: State, i: nat)
    requires i < |r.slots|
  {
    var q := r.slots[i].sequence;
    && (q != 0 ==> q in r.finished && q in r.recorded && Index(r, q) == i)
    && (forall s :: s in r.finished && Index(r, s) == i ==> s <= q)
    && (q != 0 && Quiet(r, i) ==> r.slots[i].event == r.recorded[q])
  }

  /** What a writer has written so far is in its slot. */
  ghost predicate WriterInv(r: State, s: nat)
    requires |r.slots| > 0 && s in r.writers
  {
    forall k :: k in r.writers[s].written && k < FIELDS ==>
      Field(r.slots[Index(r, s)].event, k) == Field(r.writers[s].event, k)
  }

  ghost predicate RingInv(r: State) {
    && HistoryInv(r)
    && (forall i :: 0 <= i < |r.slots| ==> SlotInv(r, i))
    && (forall s :: s in r.writers ==> WriterInv(r, s))
  }

  /** Two sequences closer than the capacity never share a slot. */
  lemma SameSlot(a: nat, b: nat, capacity: nat)
    requires capacity > 0 && a < b < a + capacity
    ensures a % capacity != b % capacity
  {
    var x, y := a / capacity, b / capacity;
    assert a == capacity * x + a % capacity && b == capacity * y + b % capacity;
    assert b - a == capacity * (y - x) + (b % capacity - a % capacity);
    NoMultiple(b - a, y - x, capacity);
  }

  lemma NoMultiple(distance: nat, turns: int, capacity: nat)
    requires 0 < distance < capacity
    ensures distance != capacity * turns
  {
    if turns >= 1 {
      assert capacity * turns >= capacity;
    } else {
      assert capacity * turns <= 0;
    }
  }

  lemma WriterAlone(r: State, s: nat, t: nat)
    requires HistoryInv(r) && s in r.writers && s != t && t + |r.slots| >= r.next && t < r.next
    ensures Index(r, s) != Index(r, t)
  {
    if s < t { SameSlot(s, t, |r.slots|); } else { SameSlot(t, s, |r.slots|); }
  }

  lemma DrawKeeps(r: State, t: State, a: Action)
    requires RingInv(r) && a.Draw? && Enabled(r, a) && Timely(r, a) && t == Next(r, a)
    ensures RingInv(t)
  {
    forall i | 0 <= i < |t.slots| ensures SlotInv(t, i) {
      assert SlotInv(r, i);
      if Quiet(t, i) {
        assert Quiet(r, i) by {
          forall s | s in r.writers ensures Index(r, s) != i { assert s in t.writers; }
        }
      }
    }
    forall s | s in t.writers ensures WriterInv(t, s) {
      if s in r.writers && s != r.next { assert WriterInv(r, s); }
    }
  }

  lemma CountKeeps(r: State, t: State, a: Action)
    requires RingInv(r) && a.Count? && Enabled(r, a) && t == Next(r, a)
    ensures RingInv(t)
  {
    assert t.writers.Keys == r.writers.Keys;
    forall i | 0 <= i < |t.slots| ensures SlotInv(t, i) {
      assert SlotInv(r, i);
      if Quiet(t, i) {
        assert Quiet(r, i) by {
          forall s | s in r.writers ensures Index(r, s) != i { assert s in t.writers; }
        }
      }
    }
    forall s | s in t.writers ensures WriterInv(t, s) { assert WriterInv(r, s); }
  }

  lemma CopyFieldIsLocal(e: Event, source: Event, k: nat, j: nat)
    requires k < FIELDS && j < FIELDS
    ensures Field(CopyField(e, source, k), j) == if j == k then Field(source, j) else Field(e, j)
  {
  }

  lemma WriteKeeps(r: State, t: State, a: Action)
    requires RingInv(r) && a.WriteField? && Enabled(r, a) && t == Next(r, a)
    ensures RingInv(t)
  {
    assert t.writers.Keys == r.writers.Keys;
    forall i | 0 <= i < |t.slots| ensures SlotInv(t, i) {
      assert SlotInv(r, i);
      if Quiet(t, i) {
        assert a.s in t.writers;
        assert Quiet(r, i) by {
          forall s | s in r.writers ensures Index(r, s) != i { assert s in t.writers; }
        }
      }
    }
    forall s | s in t.writers ensures WriterInv(t, s) {
      assert WriterInv(r, s);
      if s == a.s {
        forall j | j in t.writers[s].written && j < FIELDS
          ensures Field(t.slots[Index(t, s)].event, j) == Field(t.writers[s].event, j)
        {
          CopyFieldIsLocal(r.slots[Index(r, s)].event, r.writers[s].event, a.k, j);
        }
      } else {
        WriterAlone(r, a.s, s);
      }
    }
  }

  lemma AllFieldsAgree(d: Event, e: Event)
    requires forall k :: 0 <= k < FIELDS ==> Field(d, k) == Field(e, k)
    ensures d == e
  {
    assert Field(d, 0) == Field(e, 0) && Field(d, 1) == Field(e, 1) && Field(d, 2) == Field(e, 2);
    assert Field(d, 3) == Field(e, 3) && Field(d, 4) == Field(e, 4) && Field(d, 5) == Field(e, 5);
    assert Field(d, 6) == Field(e, 6) && Field(d, 7) == Field(e, 7) && Field(d, 8) == Field(e, 8);
  }

  lemma PublishKeeps(r: State, t: State, a: Action)
    requires RingInv(r) && a.Publish? && Enabled(r, a) && t == Next(r, a)
    ensures RingInv(t)
  {
    var p := Index(r, a.s);
    assert WriterInv(r, a.s);
    AllFieldsAgree(r.slots[p].event, r.writers[a.s].event);
    forall i | 0 <= i < |t.slots| ensures SlotInv(t, i) {
      assert SlotInv(r, i);
      if i == p {
        forall s | s in t.finished && Index(t, s) == i ensures s <= a.s {
          if s > a.s { assert s in r.finished; SameSlot(a.s, s, |r.slots|); }
        }
      } else if Quiet(t, i) {
        assert Quiet(r, i) by {
          forall s | s in r.writers ensures Index(r, s) != i { assert s == a.s || s in t.writers; }
        }
      }
    }
    forall s | s in t.writers ensures WriterInv(t, s) {
      assert WriterInv(r, s);
      WriterAlone(r, a.s, s);
    }
  }

  lemma StepKeeps(r: State, t: State)
    requires RingInv(r) && Step(r, t)
    ensures RingInv(t) && |t.slots| == |r.slots|
  {
    var a :| Enabled(r, a) && Timely(r, a) && t == Next(r, a);
    match a
    case Draw(_) => DrawKeeps(r, t, a);
    case Count(_) => CountKeeps(r, t, a);
    case WriteField(_, _) => WriteKeeps(r, t, a);
    case Publish(_) => PublishKeeps(r, t, a);
  }

  lemma {:induction false} RunKeeps(states: seq<State>, capacity: nat, i: nat)
    requires Run(states, capacity) && i < |states|
    ensures RingInv(states[i]) && |states[i].slots| == capacity
    decreases i
  {
    if i > 0 {
      RunKeeps(states, capacity, i - 1);
      assert Step(states[i - 1], states[i - 1 + 1]);
      StepKeeps(states[i - 1], states[i]);
    }
  }

  // --- What a reader sees ---------------------------------------------------------------------------

  function RingOf(r: State): EventRing
    requires r.next <= 0xFFFF_FFFF_FFFF_FFFF
  {
    EventRing(r.next, r.dropped % 0x1_0000_0000_0000_0000, r.slots)
  }

  /** The finished events of sequences `from..r.next`, exactly as they were recorded. */
  ghost function FinishedEvents(r: State, from: nat): seq<DecodedEvent>
    decreases r.next - from
  {
    if from >= r.next then []
    else if from in r.finished && from in r.recorded then [DecodedEvent(from, r.recorded[from])] + FinishedEvents(r, from + 1)
    else FinishedEvents(r, from + 1)
  }

  /** A slot holds sequence `s` exactly when the writer of `s` has finished. */
  lemma AcceptedIffFinished(r: State, s: nat)
    requires RingInv(r) && 1 <= s < r.next && s + |r.slots| >= r.next
    ensures r.slots[Index(r, s)].sequence == s <==> s in r.finished
    ensures s in r.finished ==> r.slots[Index(r, s)].event == r.recorded[s]
  {
    var i := Index(r, s);
    assert SlotInv(r, i);
    if s in r.finished {
      var q := r.slots[i].sequence;
      if q > s { SameSlot(s, q, |r.slots|); }
      assert Quiet(r, i) by {
        forall w | w in r.writers ensures Index(r, w) != i { WriterAlone(r, w, s); }
      }
    }
  }

  lemma {:induction false} WindowIsFinished(r: State, from: nat)
    requires RingInv(r) && 1 <= from && from + |r.slots| >= r.next
    ensures WindowEvents(RingOf(r), from, r.next) == FinishedEvents(r, from)
    decreases r.next - from
  {
    if from < r.next {
      AcceptedIffFinished(r, from);
      WindowIsFinished(r, from + 1);
    }
  }

  /** No torn and no misattributed event: wherever the machine is stopped, the host decodes
      exactly the finished events of its window, each as its writer recorded it. */
  lemma ReaderSeesFinishedEvents(states: seq<State>, capacity: nat, i: nat, limit: nat)
    requires Run(states, capacity) && i < |states|
    ensures Numbered(states[i]) && |states[i].slots| == capacity
    ensures SeenEvents(RingOf(states[i]), limit)
         == FinishedEvents(states[i], WindowStart(states[i].next, limit, capacity))
  {
    RunKeeps(states, capacity, i);
    WindowIsFinished(states[i], WindowStart(states[i].next, limit, capacity));
  }

  // --- The overflow counter ------------------------------------------------------------------------------

  /** Writers that overwrite a record and have not counted that yet. */
  ghost function Uncounted(r: State): set<nat> {
    set s | s in r.writers && s > |r.slots| && !r.writers[s].counted
  }

  function Overwritten(r: State): nat { if r.next - 1 > |r.slots| then r.next - 1 - |r.slots| else 0 }

  lemma DrawCounting(r: State, t: State, a: Action)
    requires Numbered(r) && a.Draw? && t == Next(r, a) && r.dropped + |Uncounted(r)| == Overwritten(r)
    ensures t.dropped + |Uncounted(t)| == Overwritten(t)
  {
    if r.next > |r.slots| {
      assert Uncounted(t) == Uncounted(r) + {r.next};
    } else {
      assert Uncounted(t) == Uncounted(r);
    }
  }

  lemma CountCounting(r: State, t: State, a: Action)
    requires Numbered(r) && a.Count? && Enabled(r, a) && t == Next(r, a)
    requires r.dropped + |Uncounted(r)| == Overwritten(r)
    ensures t.dropped + |Uncounted(t)| == Overwritten(t)
  {
    assert Uncounted(t) == Uncounted(r) - {a.s};
  }

  lemma CountingKeeps(r: State, t: State)
    requires FreeStep(r, t) && r.dropped + |Uncounted(r)| == Overwritten(r)
    ensures t.dropped + |Uncounted(t)| == Overwritten(t)
  {
    var a :| Enabled(r, a) && t == Next(r, a);
    match a
    case Draw(_) => DrawCounting(r, t, a);
    case Count(_) => CountCounting(r, t, a);
    case WriteField(_, _) => assert Uncounted(t) == Uncounted(r);
    case Publish(_) => assert Uncounted(t) == Uncounted(r);
  }

  /** Overwrites are never lost, however slow a writer is: at every point the counter lags by exactly
      the writers that are about to count, so at rest it is the number of records that fell out of
      the ring. */
  lemma {:induction false} OverflowIsCounted(states: seq<State>, capacity: nat, last: State, i: nat)
    requires FreeRun(states, capacity, last) && i < |states|
    ensures states[i].dropped + |Uncounted(states[i])| == Overwritten(states[i])
    ensures states[i].writers == map[] ==> states[i].dropped == Overwritten(states[i])
    decreases i
  {
    if i > 0 {
      OverflowIsCounted(states, capacity, last, i - 1);
      assert FreeStep(states[i - 1], states[i - 1 + 1]);
      CountingKeeps(states[i - 1], states[i]);
    }
    if states[i].writers == map[] {
      assert Uncounted(states[i]) == {};
    }
  }

  // --- Why writers must be timely -----------------------------------------------------------------------------

  lemma Extend(states: seq<State>, capacity: nat, r: State, a: Action) returns (more: seq<State>)
    requires FreeRun(states, capacity, r) && Enabled(r, a)
    ensures FreeRun(more, capacity, Next(r, a))
  {
    more := states + [Next(r, a)];
    assert FreeStep(r, Next(r, a));
  }

  const OLD := EMPTY_EVENT.(tick := 1)
  const NEW := EMPTY_EVENT.(tick := 2)

  /** Draw until `next == n` and let nobody but the first writer get any further. */
  lemma {:induction false} DrawUntil(capacity: nat, n: nat) returns (states: seq<State>, r: State)
    requires 0 < capacity <= 4096 && 2 <= n <= capacity + 2
    ensures FreeRun(states, capacity, r) && r.next == n
    ensures forall s :: s in r.writers <==> 1 <= s < n
    ensures forall s :: s in r.writers ==> r.writers[s] == Writer(if s == 1 then OLD else NEW, false, {})
    ensures forall s :: 1 <= s < n ==> s in r.recorded && r.recorded[s] == if s == 1 then OLD else NEW
    decreases n
  {
    if n == 2 {
      r := State(1, 0, seq(capacity, _ => EventSlot(0, EMPTY_EVENT)), map[], map[], {});
      states := Extend([r], capacity, r, Draw(OLD));
      r := Next(r, Draw(OLD));
    } else {
      states, r := DrawUntil(capacity, n - 1);
      states := Extend(states, capacity, r, Draw(NEW));
      r := Next(r, Draw(NEW));
    }
  }

  /** Writer `s` counts, writes fields `0..k`. */
  lemma {:induction false} WriteUpTo(states: seq<State>, capacity: nat, r: State, s: nat, k: nat)
      returns (more: seq<State>, t: State)
    requires FreeRun(states, capacity, r) && s in r.writers && k <= FIELDS
    requires !r.writers[s].counted && r.writers[s].written == {}
    ensures FreeRun(more, capacity, t) && t.next == r.next && t.recorded == r.recorded
    ensures t.writers.Keys == r.writers.Keys && t.writers[s].counted
    ensures forall j :: j in r.writers && j != s ==> t.writers[j] == r.writers[j]
    ensures forall j :: 0 <= j < k <==> j in t.writers[s].written
    decreases k
  {
    if k == 0 {
      more := Extend(states, capacity, r, Count(s));
      t := Next(r, Count(s));
    } else {
      var before;
      more, before := WriteUpTo(states, capacity, r, s, k - 1);
      more := Extend(more, capacity, before, WriteField(s, k - 1));
      t := Next(before, WriteField(s, k - 1));
    }
  }

  /** The newest sequence is accepted, but with an event that its writer did not record. */
  ghost predicate ShowsWrongEvent(r: State, s: nat) {
    && |r.slots| > 0 && s + 1 == r.next && s in r.recorded
    && r.slots[Index(r, s)].sequence == s
    && r.slots[Index(r, s)].event != r.recorded[s]
  }

  lemma FirstSlotAgain(capacity: nat)
    requires capacity > 0
    ensures (capacity + 1) % capacity == 1 % capacity
  {
  }

  /** The slow writer 1 writes its tick over a published event of the same slot. */
  lemma Corrupt(states: seq<State>, capacity: nat, r: State, late: nat) returns (more: seq<State>, t: State)
    requires FreeRun(states, capacity, r) && late + 1 == r.next && late in r.recorded && r.recorded[late] == NEW
    requires 1 in r.writers && r.writers[1] == Writer(OLD, false, {})
    requires 1 % capacity == late % capacity && r.slots[late % capacity].sequence == late
    ensures FreeRun(more, capacity, t) && ShowsWrongEvent(t, late)
  {
    var u := Next(r, Count(1));
    more := Extend(states, capacity, r, Count(1));
    t := Next(u, WriteField(1, 0));
    more := Extend(more, capacity, u, WriteField(1, 0));
    assert t.slots[late % capacity].event.tick == 1;
  }

  /** Without the restriction an event can be misread, at every capacity: if the writer of sequence 1 is
      still busy when `capacity + 1` is drawn and published, it goes on to overwrite that event, and
      the host accepts the mixture. */
  lemma SlowWriterCorruptsEvent(capacity: nat)
    requires 0 < capacity <= 4096
    ensures exists states, r :: FreeRun(states, capacity, r) && ShowsWrongEvent(r, capacity + 1)
  {
    var late := capacity + 1;
    FirstSlotAgain(capacity);
    var states, r := DrawUntil(capacity, capacity + 2);
    states, r := WriteUpTo(states, capacity, r, late, FIELDS);
    states := Extend(states, capacity, r, Publish(late));
    states, r := Corrupt(states, capacity, Next(r, Publish(late)), late);
  }

  // --- Exactly when the ring is read right -------------------------------------------------------------------

  /** The host reads exactly the finished events of its window. */
  ghost predicate ReadRight(r: State, limit: nat) {
    Numbered(r) && SeenEvents(RingOf(r), limit) == FinishedEvents(r, WindowStart(r.next, limit, |r.slots|))
  }

  /** The writers at work go on, in any order; nobody draws. */
  ghost predicate Continues(states: seq<State>, r: State, t: State) {
    && |states| > 0 && states[0] == r && states[|states| - 1] == t
    && forall i :: 0 <= i < |states| - 1 ==> WorkStep(states[i], states[i + 1])
  }

  ghost predicate WorkStep(r: State, t: State) {
    Numbered(r) && exists a :: Enabled(r, a) && !a.Draw? && t == Next(r, a)
  }

  lemma WorkOn(states: seq<State>, r: State, t: State, a: Action) returns (more: seq<State>)
    requires Continues(states, r, t) && Numbered(t) && Enabled(t, a) && !a.Draw?
    ensures Continues(more, r, Next(t, a)) && Numbered(Next(t, a))
  {
    more := states + [Next(t, a)];
    assert WorkStep(t, Next(t, a));
  }

  /** Only writer `s` has moved, and only its slot's event may have changed. */
  ghost predicate OnlyMoved(r: State, t: State, s: nat) {
    && t.next == r.next && t.recorded == r.recorded && t.finished == r.finished
    && |t.slots| == |r.slots| && t.writers.Keys == r.writers.Keys
    && (forall w :: w in r.writers && w != s ==> t.writers[w] == r.writers[w])
    && (forall i :: 0 <= i < |r.slots| ==> t.slots[i].sequence == r.slots[i].sequence)
  }

  /** Writer `s` counts, if it has not, and writes what is missing of fields `0..k`. */
  lemma {:induction false} WorkUpTo(r: State, s: nat, k: nat) returns (states: seq<State>, t: State)
    requires Numbered(r) && s in r.writers && k <= FIELDS
    ensures Continues(states, r, t) && Numbered(t) && OnlyMoved(r, t, s)
    ensures t.writers[s].counted && forall j :: 0 <= j < k ==> j in t.writers[s].written
    decreases k
  {
    if k == 0 {
      states, t := [r], r;
      if !r.writers[s].counted {
        states := WorkOn(states, r, r, Count(s));
        t := Next(r, Count(s));
      }
    } else {
      states, t := WorkUpTo(r, s, k - 1);
      if k - 1 !in t.writers[s].written {
        states := WorkOn(states, r, t, WriteField(s, k - 1));
        t := Next(t, WriteField(s, k - 1));
      }
    }
  }

  lemma Joined(a: seq<State>, b: seq<State>, r: State, t: State, u: State)
    requires Continues(a, r, t) && Continues(b, t, u)
    ensures Continues(a + b[1..], r, u)
  {
    var c := a + b[1..];
    forall i | 0 <= i < |c| - 1 ensures WorkStep(c[i], c[i + 1]) {
      if i < |a| - 1 {
        assert WorkStep(a[i], a[i + 1]);
      } else {
        assert WorkStep(b[i - |a| + 1], b[i - |a| + 2]);
      }
    }
  }

  /** Any writer can finish on its own; its sequence is then in its slot. */
  lemma Finish(r: State, s: nat) returns (states: seq<State>, t: State)
    requires Numbered(r) && s in r.writers
    ensures Continues(states, r, t) && Numbered(t) && t.next == r.next && t.recorded == r.recorded
    ensures |t.slots| == |r.slots| && t.slots[Index(r, s)].sequence == s
    ensures t.writers.Keys == r.writers.Keys - {s} && t.finished == r.finished + {s}
  {
    states, t := WorkUpTo(r, s, FIELDS);
    states := WorkOn(states, r, t, Publish(s));
    t := Next(t, Publish(s));
  }

  /** After an untimely draw the new writer may finish first and the old one after it. */
  lemma OldWriterHidesNew(r: State, e: Event) returns (states: seq<State>, t: State)
    requires HistoryInv(r) && Enabled(r, Draw(e)) && !Timely(r, Draw(e))
    ensures Continues(states, Next(r, Draw(e)), t) && Numbered(t) && |t.slots| == |r.slots|
    ensures t.next == r.next + 1 && r.next in t.finished && r.next in t.recorded
    ensures t.slots[Index(t, r.next)].sequence != r.next
  {
    var drawn, slow := Next(r, Draw(e)), r.next - |r.slots|;
    var u: State;
    states, u := Finish(drawn, r.next);
    var more;
    more, t := Finish(u, slow);
    Joined(states, more, drawn, u, t);
    states := states + more[1..];
    SlotAgain(slow, |r.slots|);
  }

  lemma SlotAgain(s: nat, capacity: nat)
    requires capacity > 0
    ensures (s + capacity) % capacity == s % capacity
  {
    var t := s + capacity;
    var x, y := s / capacity, t / capacity;
    assert s == capacity * x + s % capacity && t == capacity * y + t % capacity;
    assert capacity * (y - x - 1) == s % capacity - t % capacity;
    if s % capacity > t % capacity {
      NoMultiple(s % capacity - t % capacity, y - x - 1, capacity);
    } else if s % capacity < t % capacity {
      assert capacity * (x + 1 - y) == t % capacity - s % capacity;
      NoMultiple(t % capacity - s % capacity, x + 1 - y, capacity);
    }
  }

  lemma {:induction false} SeenIsInSlot(r: EventRing, from: nat, next: nat, s: nat)
    requires |r.slots| > 0 && r.slots[s % |r.slots|].sequence != s
    ensures forall d :: d in WindowEvents(r, from, next) ==> d.sequence != s
    decreases next - from
  {
    if from < next {
      SeenIsInSlot(r, from + 1, next, s);
    }
  }

  lemma {:induction false} FinishedIsListed(r: State, from: nat, s: nat)
    requires from <= s < r.next && s in r.finished && s in r.recorded
    ensures DecodedEvent(s, r.recorded[s]) in FinishedEvents(r, from)
    decreases r.next - from
  {
    if from < s {
      FinishedIsListed(r, from + 1, s);
    }
  }

  /** The restriction is exactly what is needed: after any timely run, a draw leaves every
      continuation of the writers at work readable if and only if it is timely too. Otherwise the
      new writer can finish before the old one of its slot, whose late sequence then hides it. */
  lemma DrawIsSafeExactly(states: seq<State>, capacity: nat, e: Event, limit: nat)
    requires Run(states, capacity) && limit > 0 && Enabled(states[|states| - 1], Draw(e))
    requires Numbered(states[|states| - 1])
    ensures var r := states[|states| - 1];
            Timely(r, Draw(e)) <==>
              forall work, t :: Continues(work, Next(r, Draw(e)), t) ==> ReadRight(t, limit)
  {
    var r := states[|states| - 1];
    RunKeeps(states, capacity, |states| - 1);
    if Timely(r, Draw(e)) {
      forall work, t | Continues(work, Next(r, Draw(e)), t) ensures ReadRight(t, limit) {
        DrawKeeps(r, Next(r, Draw(e)), Draw(e));
        WorkKeeps(work, Next(r, Draw(e)), t, |work| - 1);
        WindowIsFinished(t, WindowStart(t.next, limit, |t.slots|));
      }
    } else {
      var work, t := OldWriterHidesNew(r, e);
      var start := WindowStart(t.next, limit, |t.slots|);
      SeenIsInSlot(RingOf(t), start, t.next, r.next);
      FinishedIsListed(t, start, r.next);
      assert !ReadRight(t, limit);
    }
  }

  lemma {:induction false} WorkKeeps(states: seq<State>, r: State, t: State, i: nat)
    requires Continues(states, r, t) && RingInv(r) && i < |states|
    ensures RingInv(states[i])
    decreases i
  {
    if i > 0 {
      WorkKeeps(states, r, t, i - 1);
      assert WorkStep(states[i - 1], states[i - 1 + 1]);
      WorkStepKeeps(states[i - 1], states[i]);
    }
  }

  lemma WorkStepKeeps(r: State, t: State)
    requires RingInv(r) && WorkStep(r, t)
    ensures RingInv(t)
  {
    var a :| Enabled(r, a) && !a.Draw? && t == Next(r, a);
    assert Timely(r, a);
    StepKeeps(r, t);
  }
}
