/** From the writers of the event rings to the events that the host lists, through the bytes. */
module EventChain {
  import opened Wrappers
  import opened DebugState
  import opened Bytes
  import opened DebugAbi
  import opened DebugRoundTrip
  import opened EventProtocol
  import opened StallClass
  import opened RemoteSample
  import opened FullSample

  function Last(run: seq<State>): State requires |run| > 0 { run[|run| - 1] }

  /** Every ring in memory is what a timely run of its writers left behind. */
  ghost predicate Recorded(m: Memory, runs: seq<seq<State>>, capacity: nat) {
    && |runs| == |m.events|
    && forall c :: 0 <= c < |runs| ==> RingAfter(m.events[c], runs[c], capacity)
  }

  ghost predicate RingAfter(ring: EventRing, run: seq<State>, capacity: nat) {
    Run(run, capacity) && Numbered(Last(run)) && ring == RingOf(Last(run))
  }

  /** The finished events of each ring's window. */
  ghost function FinishedRings(runs: seq<seq<State>>, capacity: nat, limit: nat): seq<seq<DecodedEvent>>
    requires forall c :: 0 <= c < |runs| ==> |runs[c]| > 0
  {
    seq(|runs|, c requires 0 <= c < |runs| => FinishedEvents(Last(runs[c]), WindowStart(Last(runs[c]).next, limit, capacity)))
  }

  lemma RingsAreFinished(m: Memory, runs: seq<seq<State>>, capacity: nat, limit: nat)
    requires Recorded(m, runs, capacity) && capacity > 0 && forall c :: 0 <= c < |m.events| ==> |m.events[c].slots| == capacity
    ensures seq(|m.events|, c requires 0 <= c < |m.events| => SeenEvents(m.events[c], limit))
         == FinishedRings(runs, capacity, limit)
  {
    forall c | 0 <= c < |runs| ensures SeenEvents(m.events[c], limit) == FinishedRings(runs, capacity, limit)[c] {
      assert RingAfter(m.events[c], runs[c], capacity);
      ReaderSeesFinishedEvents(runs[c], capacity, |runs[c]| - 1, limit);
    }
  }

  /** Decoding the whole memory gives exactly the finished events of every ring's window, sorted. */
  lemma EventsFromBytes(m: Memory, runs: seq<seq<State>>, maxCpus: U16, capacity: U16, limit: nat)
    requires Built(m, maxCpus, capacity) && (m.arch == 1 || m.arch == 2) && Recorded(m, runs, capacity)
    ensures var d := Decode(Image(m, maxCpus, capacity), limit);
            d.Ok? && d.value.events == SortEvents(Concat(FinishedRings(runs, capacity, limit)))
  {
    ImageRoundTrip(m, maxCpus, capacity, limit);
    RingsAreFinished(m, runs, capacity, limit);
  }

  lemma ImageRings(m: Memory, maxCpus: U16, capacity: U16, data: seq<U8>, l: Layout)
    requires Built(m, maxCpus, capacity) && (m.arch == 1 || m.arch == 2)
    requires data == Image(m, maxCpus, capacity) && l == LayoutOf(m, maxCpus, capacity)
    ensures |data| == TotalSize(l) >= HEADER_SIZE && ParseLayout(data[..HEADER_SIZE]) == Ok(l)
    ensures DecodeRings(RingBytes(data, l), l, capacity)
         == seq(|m.events|, c requires 0 <= c < |m.events| => SeenEvents(m.events[c], capacity))
  {
    ImageRegions(m, maxCpus, capacity);
    HeaderRoundTrip(m, maxCpus, capacity);
    RingsRoundTrip(m, l, capacity);
  }

  /** The report lists exactly the finished events of the rings of all CPUs that its sample shows online,
      in the order of tick, CPU and sequence: nothing torn, nothing made up, nothing left out of the window. */
  lemma ReportFromBytes(m: Memory, runs: seq<seq<State>>, maxCpus: U16, capacity: U16, threads: nat)
    requires Built(m, maxCpus, capacity) && (m.arch == 1 || m.arch == 2) && Recorded(m, runs, capacity)
    ensures var data := Image(m, maxCpus, capacity);
            var first, r := StateRead(data, m.arch, threads), FullRead(data, m.arch, threads);
            && first.Ok? && r.Ok? && r.value.cpus == first.value.cpus && |r.value.cpus| == maxCpus
            && r.value.events == SortEvents(Concat(OnlineEvents(FinishedRings(runs, capacity, capacity), r.value.cpus)))
  {
    var data, l := Image(m, maxCpus, capacity), LayoutOf(m, maxCpus, capacity);
    ImageRings(m, maxCpus, capacity, data, l);
    RingsAreFinished(m, runs, capacity, capacity);
    FullShowsEvents(data, l, threads);
  }
}
