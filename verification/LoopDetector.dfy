/** Finding a repeating sequence of program counters at the end of a bounded history. */
module LoopDetection {
  import opened Wrappers

  type Pc = int

  datatype Detection = Detection(pattern: seq<Pc>, repeats: nat, pcMin: Pc, pcMax: Pc)

  /** The last `n` elements, or all if there are fewer. */
  function Last<T>(s: seq<T>, n: nat): seq<T> {
    if |s| <= n then s else s[|s| - n..]
  }

  /** The sequence is `pattern`, `k` times. */
  predicate Repeats(s: seq<Pc>, pattern: seq<Pc>, k: nat)
    decreases k
  {
    if k == 0 then s == []
    else |pattern| <= |s| && s[..|pattern|] == pattern && Repeats(s[|pattern|..], pattern, k - 1)
  }

  /** The last `period * k` elements are one pattern, `k` times. */
  predicate EndsIn(s: seq<Pc>, period: nat, k: nat) {
    period * k <= |s| && k > 0 && Repeats(Last(s, period * k), Last(s, period * k)[..period], k)
  }

  /** The smallest period with which `s` ends, `k` times over. */
  predicate Least(s: seq<Pc>, low: nat, k: nat, period: nat) {
    && low <= period && EndsIn(s, period, k)
    && forall p :: low <= p < period ==> !EndsIn(s, p, k)
  }

  lemma Multiples(r: nat, k: nat, period: nat)
    requires r <= k
    ensures r * period + period == (r + 1) * period && r * period <= k * period
    ensures r < k ==> r * period + period <= k * period
    ensures r == k || period == 0 ==> r * period == k * period
    ensures r < k && period > 0 ==> r * period < k * period
    decreases k
  {
    if r < k {
      Multiples(r, k - 1, period);
      assert k * period == (k - 1) * period + period;
    }
  }

  /** A period fits into the history `k` times exactly when it is at most the quotient. */
  lemma MaxPeriod(n: nat, k: nat, period: nat)
    requires k > 0
    ensures period <= n / k <==> period * k <= n
  {
    var q := n / k;
    assert q * k <= n < q * k + k;
    if period <= q {
      Multiples(period, q, k);
    } else {
      Multiples(q + 1, period, k);
      assert (q + 1) * k == q * k + k;
    }
  }

  function Times(period: nat, k: nat): nat {
    if k == 0 then 0 else period + Times(period, k - 1)
  }

  lemma TimesIsProduct(period: nat, k: nat)
    ensures Times(period, k) == period * k
  {
    if k > 0 {
      TimesIsProduct(period, k - 1);
      assert period * k == period * (k - 1) + period;
    }
  }

  predicate PeriodicBy(s: seq<Pc>, period: nat) { forall i :: 0 <= i < |s| - period ==> s[i] == s[i + period] }

  /** Repeating with a period means that every element equals the one a period later. */
  lemma {:induction false} RepeatsIsPeriodic(s: seq<Pc>, period: nat, k: nat)
    requires k > 0 && |s| == Times(period, k)
    ensures period <= |s|
    ensures Repeats(s, s[..period], k) <==> PeriodicBy(s, period)
    decreases k
  {
    if k == 1 {
      assert s[..period] == s && s[period..] == [];
    } else {
      var rest := s[period..];
      RepeatsIsPeriodic(rest, period, k - 1);
      if PeriodicBy(s, period) {
        assert rest[..period] == s[..period];
        PeriodicTail(s, period);
      }
      if Repeats(s, s[..period], k) {
        FirstRepeat(rest, s[..period], k - 1);
        PeriodicWhole(s, period);
      }
    }
  }

  lemma PeriodicTail(s: seq<Pc>, period: nat)
    requires period <= |s| && PeriodicBy(s, period)
    ensures PeriodicBy(s[period..], period)
  {
  }

  lemma PeriodicWhole(s: seq<Pc>, period: nat)
    requires 2 * period <= |s| && s[period..][..period] == s[..period] && PeriodicBy(s[period..], period)
    ensures PeriodicBy(s, period)
  {
    var rest := s[period..];
    forall i | 0 <= i < |s| - period ensures s[i] == s[i + period] {
      if i < period {
        assert rest[..period][i] == s[..period][i];
      } else {
        assert rest[i - period] == rest[i - period + period];
      }
    }
  }

  /** The history ends in a loop when each of its last counters, but for one period, comes again a
      period later. */
  lemma EndsInIsPeriodic(s: seq<Pc>, period: nat, k: nat)
    requires k > 0
    ensures EndsIn(s, period, k) <==>
              period * k <= |s| && forall i :: |s| - period * k <= i < |s| - period ==> s[i] == s[i + period]
  {
    if period * k <= |s| {
      var tail, start := Last(s, period * k), |s| - period * k;
      assert tail == s[start..];
      TimesIsProduct(period, k);
      RepeatsIsPeriodic(tail, period, k);
      if PeriodicBy(tail, period) {
        forall i | start <= i < |s| - period ensures s[i] == s[i + period] {
          assert tail[i - start] == tail[i - start + period];
        }
      }
    }
  }

  lemma FirstRepeat(s: seq<Pc>, pattern: seq<Pc>, k: nat)
    requires k > 0 && Repeats(s, pattern, k)
    ensures |pattern| <= |s| && s[..|pattern|] == pattern
  {
  }

  class LoopDetector {
    const window: nat
    const minPeriod: nat
    const minRepeat: nat
    var history: seq<Pc>
    var last: Option<Detection>
    /** Every counter pushed so far. */
    ghost var pushed: seq<Pc>

    constructor (window: nat, minPeriod: nat, minRepeat: nat)
      ensures Valid() && pushed == [] && last == None
      ensures this.window == window && this.minPeriod == minPeriod && this.minRepeat == minRepeat
    {
      this.window, this.minPeriod, this.minRepeat := window, minPeriod, minRepeat;
      history, last, pushed := [], None, [];
    }

    ghost predicate Valid()
      reads this
    {
      history == Last(pushed, window)
    }

    /** What is known of `r` as the report on a history. */
    predicate Reports(s: seq<Pc>, r: Option<Detection>) {
      match r
      case None => forall p :: minPeriod <= p <= |s| ==> !EndsIn(s, p, minRepeat)
      case Some(d) =>
        && Least(s, minPeriod, minRepeat, |d.pattern|)
        && d.pattern == Last(s, |d.pattern| * minRepeat)[..|d.pattern|] && d.repeats == minRepeat
        && d.pcMin in d.pattern && d.pcMax in d.pattern
        && forall pc :: pc in d.pattern ==> d.pcMin <= pc <= d.pcMax
    }

    /** A report is made exactly when the last counters pushed, as far as the window keeps them, are
        `minRepeat` copies of a pattern; it then names the shortest such pattern. A repeat count of
        zero raises an error in the division, after the counter was stored; with a period of zero
        the search would not end. */
    method Push(pc: Pc) returns (raised: bool, r: Option<Detection>)
      requires Valid() && (minPeriod > 0 || minRepeat == 0)
      modifies this
      ensures Valid() && pushed == old(pushed) + [pc]
      ensures raised <==> minRepeat == 0
      ensures !raised ==> Reports(Last(pushed, window), r)
      ensures last == if !raised && r.Some? then r else old(last)
    {
      history := Last(history + [pc], window);
      pushed := pushed + [pc];
      if minRepeat == 0 {
        return true, None;
      }
      raised := false;
      r := Detect();
      if r.Some? {
        last := r;
      }
    }

    method Detect() returns (best: Option<Detection>)
      requires minPeriod > 0 && minRepeat > 0
      ensures Reports(history, best)
    {
      var n := |history|;
      var maxPeriod := n / minRepeat;
      best := None;
      forall p | minPeriod <= p <= n && p > maxPeriod ensures !EndsIn(history, p, minRepeat) {
        MaxPeriod(n, minRepeat, p);
      }
      if maxPeriod < minPeriod {
        return;
      }
      for period := minPeriod to maxPeriod + 1
        invariant best.None? ==> forall p :: minPeriod <= p < period ==> !EndsIn(history, p, minRepeat)
        invariant best.Some? ==> Reports(history, best) && |best.value.pattern| < period
      {
        MaxPeriod(n, minRepeat, period);
        var candidate := Candidate(period);
        if candidate.None? {
          continue;
        }
        var d := candidate.value;
        if best.None? || d.repeats > best.value.repeats || (d.repeats == best.value.repeats && period < |best.value.pattern|) {
          best := candidate;
        }
      }
    }

    /** What a report with this period would say, if the history ends in one. */
    predicate Describes(s: seq<Pc>, period: nat, d: Detection) {
      && |d.pattern| == period && d.repeats == minRepeat && EndsIn(s, period, minRepeat)
      && d.pattern == Last(s, period * minRepeat)[..period]
      && d.pcMin in d.pattern && d.pcMax in d.pattern
      && forall pc :: pc in d.pattern ==> d.pcMin <= pc <= d.pcMax
    }

    /** The body of the loop over the periods. */
    method Candidate(period: nat) returns (r: Option<Detection>)
      requires period > 0 && minRepeat > 0 && period * minRepeat <= |history|
      ensures r.None? ==> !EndsIn(history, period, minRepeat)
      ensures r.Some? ==> Describes(history, period, r.value)
    {
      var need := period * minRepeat;
      var tail := Last(history, need);
      Multiples(1, minRepeat, period);
      var pattern := tail[..period];
      var repeats := CountRepeats(tail, pattern, minRepeat);
      if repeats < minRepeat {
        return None;
      }
      var low, high := Bounds(pattern);
      return Some(Detection(pattern, repeats, low, high));
    }
  }

  /** How often the pattern is found, from the start and without a gap. */
  method CountRepeats(tail: seq<Pc>, pattern: seq<Pc>, k: nat) returns (repeats: nat)
    requires |pattern| > 0 && k > 0 && |tail| == |pattern| * k && tail[..|pattern|] == pattern
    ensures 0 < repeats <= k && (repeats == k <==> Repeats(tail, pattern, k))
  {
    var period := |pattern|;
    TimesIsProduct(period, k);
    repeats := 1;
    var idx := period;
    while idx + period <= |tail|
      invariant 1 <= repeats <= k && idx <= |tail| && |tail| - idx == Times(period, k - repeats)
      invariant Repeats(tail, pattern, k) <==> Repeats(tail[idx..], pattern, k - repeats)
      decreases |tail| - idx
    {
      var chunk := tail[idx..idx + period];
      assert tail[idx..][..period] == chunk && tail[idx..][period..] == tail[idx + period..];
      if chunk != pattern {
        return;
      }
      repeats := repeats + 1;
      idx := idx + period;
    }
  }

  method Bounds(pattern: seq<Pc>) returns (low: Pc, high: Pc)
    requires |pattern| > 0
    ensures low in pattern && high in pattern && forall pc :: pc in pattern ==> low <= pc <= high
  {
    low, high := pattern[0], pattern[0];
    for i := 1 to |pattern|
      invariant low in pattern && high in pattern
      invariant forall j :: 0 <= j < i ==> low <= pattern[j] <= high
    {
      if pattern[i] < low {
        low := pattern[i];
      }
      if pattern[i] > high {
        high := pattern[i];
      }
    }
  }
}
