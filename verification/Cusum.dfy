/** The two-sided cumulative sum chart that looks for a sustained drift. */
module Cusum {
  import opened Wrappers
  import opened Numbers

  datatype Direction = Over | Under

  datatype Signal = Signal(index: nat, direction: Direction, magnitude: real)

  /** The chart after some samples. `up` and `down` say where its sides start: after their last signal. */
  datatype Chart = Chart(sPlus: real, sMinus: real, up: nat, down: nat, signals: seq<Signal>)

  function Advance(c: Chart, i: nat, x: real, k: real, h: real): Chart {
    var sPlus, sMinus := Max(0.0, c.sPlus + x - k), Min(0.0, c.sMinus + x + k);
    if sPlus > h then Chart(0.0, sMinus, i + 1, c.down, c.signals + [Signal(i, Over, sPlus)])
    else if Abs(sMinus) > h then Chart(sPlus, 0.0, c.up, i + 1, c.signals + [Signal(i, Under, Abs(sMinus))])
    else c.(sPlus := sPlus, sMinus := sMinus)
  }

  /** `xs` are the deviations from the mean, oldest first. */
  function ChartOf(xs: seq<real>, k: real, h: real): Chart {
    if xs == [] then Chart(0.0, 0.0, 0, 0, [])
    else Advance(ChartOf(xs[..|xs| - 1], k, h), |xs| - 1, xs[|xs| - 1], k, h)
  }

  function Deviations(samples: seq<real>, mean: real): (xs: seq<real>)
    ensures |xs| == |samples|
  {
    seq(|samples|, i requires 0 <= i < |samples| => samples[i] - mean)
  }

  method FindLastCusumSignal(samples: seq<real>, mean: real, k: real, h: real) returns (last: Option<Signal>)
    ensures var signals := ChartOf(Deviations(samples, mean), k, h).signals;
            last == if signals == [] then None else Some(signals[|signals| - 1])
  {
    var xs := Deviations(samples, mean);
    var sPlus, sMinus := 0.0, 0.0;
    last := None;
    for i := 0 to |samples|
      invariant var c := ChartOf(xs[..i], k, h);
                sPlus == c.sPlus && sMinus == c.sMinus && last == if c.signals == [] then None else Some(c.signals[|c.signals| - 1])
    {
      assert xs[..i + 1][..i] == xs[..i];
      var x := samples[i] - mean;
      sPlus := Max(0.0, sPlus + x - k);
      sMinus := Min(0.0, sMinus + x + k);
      if sPlus > h {
        last := Some(Signal(i, Over, sPlus));
        sPlus := 0.0;
      } else if Abs(sMinus) > h {
        last := Some(Signal(i, Under, Abs(sMinus)));
        sMinus := 0.0;
      }
    }
    assert xs[..|samples|] == xs;
  }

  // ---- What the sums are --------------------------------------------------------------------

  /** How far the samples from i up to j lie above `level`, in all. */
  function Window(xs: seq<real>, level: real, i: nat, j: nat): real
    requires i <= j <= |xs|
    decreases j
  {
    if i == j then 0.0 else Window(xs, level, i, j - 1) + xs[j - 1] - level
  }

  /** s is the largest window ending at n and starting at `from` or later, the empty one included. */
  ghost predicate IsLargest(xs: seq<real>, level: real, from: nat, n: nat, s: real)
    requires n <= |xs|
  {
    && from <= n
    && (forall i :: from <= i <= n ==> Window(xs, level, i, n) <= s)
    && (exists i :: from <= i <= n && Window(xs, level, i, n) == s)
  }

  ghost predicate IsSmallest(xs: seq<real>, level: real, from: nat, n: nat, s: real)
    requires n <= |xs|
  {
    && from <= n
    && (forall i :: from <= i <= n ==> s <= Window(xs, level, i, n))
    && (exists i :: from <= i <= n && Window(xs, level, i, n) == s)
  }

  lemma {:induction false} WindowOfPrefix(xs: seq<real>, level: real, i: nat, j: nat, m: nat)
    requires i <= j <= m <= |xs|
    ensures Window(xs[..m], level, i, j) == Window(xs, level, i, j)
    decreases j
  {
    if i < j { WindowOfPrefix(xs, level, i, j - 1, m); }
  }

  ghost predicate SomeWindow(xs: seq<real>, level: real, end: nat, sum: real)
    requires end <= |xs|
  {
    exists i :: 0 <= i <= end && Window(xs, level, i, end) == sum
  }

  /** A signal stands for a window that ends at its sample and leaves the decision interval by its magnitude. */
  ghost predicate SignalTrue(xs: seq<real>, k: real, h: real, s: Signal) {
    && s.index < |xs| && s.magnitude > h
    && match s.direction
       case Over => SomeWindow(xs, k, s.index + 1, s.magnitude)
       case Under => SomeWindow(xs, -k, s.index + 1, -s.magnitude)
  }

  lemma LargestAdvances(xs: seq<real>, level: real, from: nat, n: nat, s: real)
    requires n < |xs| && IsLargest(xs, level, from, n, s)
    ensures IsLargest(xs, level, from, n + 1, Max(0.0, s + xs[n] - level))
  {
    var i :| from <= i <= n && Window(xs, level, i, n) == s;
    assert Window(xs, level, i, n + 1) == s + xs[n] - level;
    assert Window(xs, level, n + 1, n + 1) == 0.0;
    var m := n + 1;
    forall j | from <= j <= m ensures Window(xs, level, j, m) <= Max(0.0, s + xs[n] - level) {
      if j <= n { assert Window(xs, level, j, n) <= s; }
    }
  }

  lemma SmallestAdvances(xs: seq<real>, level: real, from: nat, n: nat, s: real)
    requires n < |xs| && IsSmallest(xs, level, from, n, s)
    ensures IsSmallest(xs, level, from, n + 1, Min(0.0, s + xs[n] - level))
  {
    var i :| from <= i <= n && Window(xs, level, i, n) == s;
    assert Window(xs, level, i, n + 1) == s + xs[n] - level;
    assert Window(xs, level, n + 1, n + 1) == 0.0;
    var m := n + 1;
    forall j | from <= j <= m ensures Min(0.0, s + xs[n] - level) <= Window(xs, level, j, m) {
      if j <= n { assert s <= Window(xs, level, j, n); }
    }
  }

  lemma StartsEmpty(xs: seq<real>, level: real, n: nat)
    requires n <= |xs|
    ensures IsLargest(xs, level, n, n, 0.0) && IsSmallest(xs, level, n, n, 0.0)
  {
    assert Window(xs, level, n, n) == 0.0;
  }

  /** The sample after the last signal in one direction, the first sample if there is none. */
  function AfterLast(signals: seq<Signal>, d: Direction): nat {
    if signals == [] then 0
    else if signals[|signals| - 1].direction == d then signals[|signals| - 1].index + 1
    else AfterLast(signals[..|signals| - 1], d)
  }

  lemma AfterNext(signals: seq<Signal>, s: Signal, d: Direction)
    ensures AfterLast(signals + [s], d) == if s.direction == d then s.index + 1 else AfterLast(signals, d)
  {
    assert (signals + [s])[..|signals|] == signals;
  }

  /** Signals come in the order of their samples, one a sample at most. */
  predicate InOrder(signals: seq<Signal>, n: nat) {
    && (forall m :: 0 <= m < |signals| ==> signals[m].index < n)
    && (forall l, m :: 0 <= l < m < |signals| ==> signals[l].index < signals[m].index)
  }

  /** The chart over the first n samples of xs. */
  ghost predicate ChartTrue(xs: seq<real>, k: real, h: real, n: nat, c: Chart)
    requires n <= |xs|
  {
    && 0.0 <= c.sPlus <= h && -h <= c.sMinus <= 0.0
    && IsLargest(xs, k, c.up, n, c.sPlus) && IsSmallest(xs, -k, c.down, n, c.sMinus)
    && c.up == AfterLast(c.signals, Over) && c.down == AfterLast(c.signals, Under)
    && InOrder(c.signals, n)
    && (forall m :: 0 <= m < |c.signals| ==> SignalTrue(xs, k, h, c.signals[m]))
  }

  /** The chart before its last step was within bounds, so only one side can cross now. */
  lemma OneSideCrosses(c: Chart, x: real, k: real, h: real)
    requires 0.0 <= k && 0.0 <= h && 0.0 <= c.sPlus <= h && -h <= c.sMinus <= 0.0
    ensures Max(0.0, c.sPlus + x - k) > h ==> Abs(Min(0.0, c.sMinus + x + k)) <= h
  {}

  lemma ChartAdvances(xs: seq<real>, k: real, h: real, n: nat, c: Chart)
    requires 0.0 <= k && 0.0 <= h && n < |xs| && ChartTrue(xs, k, h, n, c)
    ensures ChartTrue(xs, k, h, n + 1, Advance(c, n, xs[n], k, h))
  {
    hide Window, IsLargest, IsSmallest, SignalTrue, AfterLast;
    var x := xs[n];
    var sPlus, sMinus := Max(0.0, c.sPlus + x - k), Min(0.0, c.sMinus + x + k);
    LargestAdvances(xs, k, c.up, n, c.sPlus);
    SmallestAdvances(xs, -k, c.down, n, c.sMinus);
    StartsEmpty(xs, k, n + 1);
    StartsEmpty(xs, -k, n + 1);
    OneSideCrosses(c, x, k, h);
    if sPlus > h {
      OverIsTrue(xs, k, h, n, c.up, sPlus);
      AfterNext(c.signals, Signal(n, Over, sPlus), Over);
      AfterNext(c.signals, Signal(n, Over, sPlus), Under);
    } else if Abs(sMinus) > h {
      UnderIsTrue(xs, k, h, n, c.down, sMinus);
      AfterNext(c.signals, Signal(n, Under, -sMinus), Over);
      AfterNext(c.signals, Signal(n, Under, -sMinus), Under);
    }
  }

  lemma OverIsTrue(xs: seq<real>, k: real, h: real, n: nat, from: nat, s: real)
    requires 0.0 <= h < s && n < |xs| && IsLargest(xs, k, from, n + 1, s)
    ensures SignalTrue(xs, k, h, Signal(n, Over, s))
  {
    var end := n + 1;
    var i :| from <= i <= end && Window(xs, k, i, end) == s;
  }

  lemma UnderIsTrue(xs: seq<real>, k: real, h: real, n: nat, from: nat, s: real)
    requires 0.0 <= h < -s && n < |xs| && IsSmallest(xs, -k, from, n + 1, s)
    ensures SignalTrue(xs, k, h, Signal(n, Under, -s))
  {
    var end := n + 1;
    var i :| from <= i <= end && Window(xs, -k, i, end) == s;
  }

  // ---- Main results ----------------------------------------------------------------------

  /**
   At every sample: each side holds the largest window sum since its own last
   signal, both stay within the decision interval, and every signal given stands
   for a window that left it.
   */
  lemma {:induction false} ChartIsTrue(xs: seq<real>, k: real, h: real, n: nat)
    requires 0.0 <= k && 0.0 <= h && n <= |xs|
    ensures ChartTrue(xs, k, h, n, ChartOf(xs[..n], k, h))
  {
    if n == 0 {
      StartsEmpty(xs, k, 0);
      StartsEmpty(xs, -k, 0);
    } else {
      ChartIsTrue(xs, k, h, n - 1);
      assert xs[..n][..n - 1] == xs[..n - 1];
      ChartAdvances(xs, k, h, n - 1, ChartOf(xs[..n - 1], k, h));
    }
  }

  /** The `else if` loses nothing: whatever the samples, both sides never cross at the same one. */
  lemma NoSignalDropped(xs: seq<real>, k: real, h: real, n: nat)
    requires 0.0 <= k && 0.0 <= h && n < |xs|
    ensures var c := ChartOf(xs[..n], k, h);
            !(Max(0.0, c.sPlus + xs[n] - k) > h && Abs(Min(0.0, c.sMinus + xs[n] + k)) > h)
  {
    ChartIsTrue(xs, k, h, n);
    OneSideCrosses(ChartOf(xs[..n], k, h), xs[n], k, h);
  }

  /** Some window, ending anywhere, leaves the decision interval on either side. */
  ghost predicate Drifts(xs: seq<real>, k: real, h: real) {
    exists i, j :: 0 <= i <= j <= |xs| && Leaves(xs, k, h, i, j)
  }

  predicate Leaves(xs: seq<real>, k: real, h: real, i: nat, j: nat)
    requires i <= j <= |xs|
  {
    Window(xs, k, i, j) > h || Window(xs, -k, i, j) < -h
  }

  lemma {:induction false} SilentSoFar(xs: seq<real>, k: real, h: real, n: nat)
    requires 0.0 <= k && 0.0 <= h && n <= |xs| && ChartOf(xs, k, h).signals == []
    ensures ChartOf(xs[..n], k, h).signals == [] && ChartOf(xs[..n], k, h).up == 0 && ChartOf(xs[..n], k, h).down == 0
    decreases |xs|
  {
    if n == |xs| {
      assert xs[..n] == xs;
      if n > 0 { SilentSoFar(xs[..n - 1], k, h, n - 1); assert xs[..n - 1][..n - 1] == xs[..n - 1]; }
    } else {
      assert xs[..|xs| - 1][..n] == xs[..n];
      SilentSoFar(xs[..|xs| - 1], k, h, n);
    }
  }

  /** The chart signals exactly when there is something to signal. */
  lemma SignalsExactlyOnDrift(samples: seq<real>, mean: real, k: real, h: real)
    requires 0.0 <= k && 0.0 <= h
    ensures ChartOf(Deviations(samples, mean), k, h).signals != [] <==> Drifts(Deviations(samples, mean), k, h)
  {
    var xs := Deviations(samples, mean);
    var c := ChartOf(xs, k, h);
    assert xs[..|xs|] == xs;
    ChartIsTrue(xs, k, h, |xs|);
    if c.signals != [] {
      var s := c.signals[0];
      assert SignalTrue(xs, k, h, s);
      var end := s.index + 1;
      if s.direction.Over? {
        var i :| 0 <= i <= end && Window(xs, k, i, end) == s.magnitude;
        assert Leaves(xs, k, h, i, end);
      } else {
        var i :| 0 <= i <= end && Window(xs, -k, i, end) == -s.magnitude;
        assert Leaves(xs, k, h, i, end);
      }
    } else {
      forall i, j | 0 <= i <= j <= |xs| ensures !Leaves(xs, k, h, i, j) {
        SilentSoFar(xs, k, h, j);
        ChartIsTrue(xs, k, h, j);
      }
    }
  }

  lemma LastSignalTrue(samples: seq<real>, mean: real, k: real, h: real)
    requires 0.0 <= k && 0.0 <= h
    ensures var xs := Deviations(samples, mean);
            var signals := ChartOf(xs, k, h).signals;
            (signals != [] <==> Drifts(xs, k, h)) && (signals != [] ==> SignalTrue(xs, k, h, signals[|signals| - 1]))
  {
    var xs := Deviations(samples, mean);
    assert xs[..|xs|] == xs;
    ChartIsTrue(xs, k, h, |xs|);
    SignalsExactlyOnDrift(samples, mean, k, h);
  }

  // ---- The chart as the detector sets it up -----------------------------------------------

  const K_SIGMA: real := 0.5
  const H_SIGMA: real := 4.0
  const RECENCY: nat := 8
  const RECENT: nat := 5
  const MIN_SAMPLES: nat := 5

  function Sum(xs: seq<real>): real { if xs == [] then 0.0 else Sum(xs[..|xs| - 1]) + xs[|xs| - 1] }

  /** The readings being judged are not part of what they are judged against. */
  function Baseline(oldFirst: seq<real>): seq<real> {
    if |oldFirst| <= RECENT then [] else oldFirst[..|oldFirst| - RECENT]
  }

  lemma BaselineIs(oldFirst: seq<real>)
    ensures |Baseline(oldFirst)| >= MIN_SAMPLES <==> |oldFirst| >= 10
    ensures |oldFirst| >= 10 ==> Baseline(oldFirst) == oldFirst[..|oldFirst| - 5] && |Baseline(oldFirst)| == |oldFirst| - 5
  {}

  method Mean(xs: seq<real>) returns (mean: real)
    requires xs != []
    ensures mean == Sum(xs) / |xs| as real
  {
    var total := 0.0;
    for i := 0 to |xs|
      invariant total == Sum(xs[..i])
    {
      assert xs[..i + 1][..i] == xs[..i];
      total := total + xs[i];
    }
    assert xs[..|xs|] == xs;
    return total / |xs| as real;
  }

  /** `sigma` is Math.sqrt of the baseline's variance, never taken below 0.01. */
  method DetectDrift(oldFirst: seq<real>, sigma: real) returns (flag: Option<Signal>)
    requires 0.0 <= sigma
    ensures flag.Some? ==>
              && |Baseline(oldFirst)| >= MIN_SAMPLES
              && var stddev := Max(0.01, sigma);
              && var xs := Deviations(oldFirst, Sum(Baseline(oldFirst)) / |Baseline(oldFirst)| as real);
              && SignalTrue(xs, K_SIGMA * stddev, H_SIGMA * stddev, flag.value)
              && |oldFirst| <= flag.value.index + RECENCY
    ensures |Baseline(oldFirst)| >= MIN_SAMPLES ==>
              var stddev := Max(0.01, sigma);
              var xs := Deviations(oldFirst, Sum(Baseline(oldFirst)) / |Baseline(oldFirst)| as real);
              !Drifts(xs, K_SIGMA * stddev, H_SIGMA * stddev) ==> flag == None
    ensures |oldFirst| < 10 ==> flag == None
    ensures |oldFirst| >= 10 ==>
              var stddev := Max(0.01, sigma);
              var mean := Sum(oldFirst[..|oldFirst| - 5]) / (|oldFirst| - 5) as real;
              var signals := ChartOf(Deviations(oldFirst, mean), 0.5 * stddev, 4.0 * stddev).signals;
              flag == if signals != [] && |oldFirst| - 8 <= signals[|signals| - 1].index then Some(signals[|signals| - 1]) else None
  {
    hide ChartOf, Drifts, SignalTrue, Deviations, Sum;
    flag := None;
    var baseline := Baseline(oldFirst);
    BaselineIs(oldFirst);
    hide Baseline;
    if |baseline| < MIN_SAMPLES { return; }
    var mean := Mean(baseline);
    var stddev := Max(0.01, sigma);
    var last := FindLastCusumSignal(oldFirst, mean, K_SIGMA * stddev, H_SIGMA * stddev);
    LastSignalTrue(oldFirst, mean, K_SIGMA * stddev, H_SIGMA * stddev);
    if last.Some? && |oldFirst| <= last.value.index + RECENCY { flag := last; }
  }
}
