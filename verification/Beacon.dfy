/** Beacon detection (manager/app/models/flow.py): a series of flows is flagged
    when the sample standard deviation of the intervals between their sorted
    start times is small.  Times are real numbers of seconds, and the deviation
    is compared through its square. */
module Beacon {

  // ---------- Sorting ----------

  function Insert(x: real, s: seq<real>): seq<real> {
    if s == [] then [x]
    else
      var n := |s| - 1;
      if s[n] <= x then s + [x] else Insert(x, s[..n]) + [s[n]]
  }

  function Sort(s: seq<real>): seq<real> {
    if s == [] then [] else Insert(s[|s|-1], Sort(s[..|s|-1]))
  }

  predicate Sorted(s: seq<real>) { forall i, j :: 0 <= i < j < |s| ==> s[i] <= s[j] }

  predicate Bounded(s: seq<real>, b: real) { forall i :: 0 <= i < |s| ==> s[i] <= b }

  lemma {:induction false} InsertBounded(x: real, s: seq<real>, b: real)
    requires Bounded(s, b) && x <= b
    ensures Bounded(Insert(x, s), b)
  {
    if s != [] { InsertBounded(x, s[..|s|-1], b); }
  }

  lemma {:induction false} InsertSorts(x: real, s: seq<real>)
    requires Sorted(s)
    ensures Sorted(Insert(x, s)) && |Insert(x, s)| == |s| + 1
  {
    if s != [] {
      var n := |s| - 1;
      InsertSorts(x, s[..n]);
      if s[n] > x {
        InsertBounded(x, s[..n], s[n]);
      }
    }
  }

  lemma {:induction false} InsertAdds(x: real, s: seq<real>)
    ensures multiset(Insert(x, s)) == multiset(s) + multiset{x}
  {
    if s != [] {
      var n := |s| - 1;
      InsertAdds(x, s[..n]);
      assert s == s[..n] + [s[n]];
    }
  }

  lemma {:induction false} SortSorts(s: seq<real>)
    ensures Sorted(Sort(s)) && multiset(Sort(s)) == multiset(s) && |Sort(s)| == |s|
  {
    if s != [] {
      var n := |s| - 1;
      SortSorts(s[..n]);
      InsertSorts(s[n], Sort(s[..n]));
      InsertAdds(s[n], Sort(s[..n]));
      assert s == s[..n] + [s[n]];
    }
  }

  lemma LastIsGreatest(s: seq<real>, x: real)
    requires Sorted(s) && x in multiset(s)
    ensures x <= s[|s|-1]
  {
  }

  lemma DropLast(s: seq<real>)
    requires s != []
    ensures multiset(s[..|s|-1]) == multiset(s) - multiset{s[|s|-1]}
  {
    assert s == s[..|s|-1] + [s[|s|-1]];
  }

  lemma SameLast(a: seq<real>, b: seq<real>)
    requires a != [] && b != [] && Sorted(a) && Sorted(b) && multiset(a) == multiset(b)
    ensures a[|a|-1] == b[|b|-1]
  {
    assert a[|a|-1] in multiset(a) && b[|b|-1] in multiset(b);
    LastIsGreatest(b, a[|a|-1]);
    LastIsGreatest(a, b[|b|-1]);
  }

  lemma SameLength(a: seq<real>, b: seq<real>)
    requires multiset(a) == multiset(b)
    ensures |a| == |b|
  {
    assert |a| == |multiset(a)| == |multiset(b)| == |b|;
  }

  /** There is one way to sort. */
  lemma {:induction false} SortedUnique(a: seq<real>, b: seq<real>)
    requires Sorted(a) && Sorted(b) && multiset(a) == multiset(b)
    ensures a == b
  {
    SameLength(a, b);
    if a != [] {
      SameLast(a, b);
      DropLast(a);
      DropLast(b);
      SortedUnique(a[..|a|-1], b[..|b|-1]);
      assert a == a[..|a|-1] + [a[|a|-1]] && b == b[..|b|-1] + [b[|b|-1]];
    }
  }

  // ---------- Deviation ----------

  function Sum(xs: seq<real>): real {
    if xs == [] then 0.0 else Sum(xs[..|xs|-1]) + xs[|xs|-1]
  }

  function Sq(y: real): (r: real)
    ensures r >= 0.0
  {
    y * y
  }

  /** The sum of squared distances from `c`. */
  function Squares(xs: seq<real>, c: real): real {
    if xs == [] then 0.0 else Squares(xs[..|xs|-1], c) + Sq(xs[|xs|-1] - c)
  }

  function Mean(xs: seq<real>): real
    requires xs != []
  {
    Sum(xs) / |xs| as real
  }

  /** `statistics.stdev(xs) <= m`: a standard deviation is never negative. */
  predicate DeviatesAtMost(xs: seq<real>, m: real)
    requires |xs| >= 2
  {
    m >= 0.0 && Squares(xs, Mean(xs)) <= Sq(m) * (|xs| - 1) as real
  }

  function Intervals(s: seq<real>): seq<real>
    requires s != []
  {
    seq(|s| - 1, i requires 0 <= i < |s| - 1 => s[i+1] - s[i])
  }

  predicate Flagged(times: seq<real>, m: real) {
    |times| >= 3 && |Sort(times)| == |times| && DeviatesAtMost(Intervals(Sort(times)), m)
  }

  method CheckBeaconing(times: seq<real>, maxStddev: real) returns (beacon: bool)
    ensures beacon <==> Flagged(times, maxStddev)
    ensures |times| < 3 ==> !beacon
  {
    if |times| < 3 {
      return false;
    }
    var sorted := Sort(times);
    SortSorts(times);
    var intervals := Gaps(sorted);
    if |intervals| < 2 {
      assert false;
    }
    beacon := DeviatesAtMost(intervals, maxStddev);
  }

  method Gaps(sorted: seq<real>) returns (intervals: seq<real>)
    requires sorted != []
    ensures intervals == Intervals(sorted)
  {
    intervals := [];
    var i := 1;
    while i < |sorted|
      invariant 1 <= i <= |sorted|
      invariant intervals == Intervals(sorted[..i])
    {
      intervals := intervals + [sorted[i] - sorted[i-1]];
      i := i + 1;
    }
    assert sorted[..i] == sorted;
  }

  /** The order in which the flows are listed does not matter. */
  lemma {:induction false} OrderDoesNotMatter(a: seq<real>, b: seq<real>, m: real)
    requires multiset(a) == multiset(b)
    ensures Flagged(a, m) == Flagged(b, m)
  {
    SortSorts(a);
    SortSorts(b);
    assert |a| == |multiset(a)| == |multiset(b)| == |b|;
    SortedUnique(Sort(a), Sort(b));
  }

  // ---------- The variance inequality ----------

  /** What moving the point from `a` to `c` adds. */
  function Moved(xs: seq<real>, a: real, c: real): real {
    if xs == [] then 0.0 else Moved(xs[..|xs|-1], a, c) + MovedOne(xs[|xs|-1], a, c)
  }

  function MovedOne(x: real, a: real, c: real): real { (a - c) * (2.0 * x - (a + c)) }

  lemma MoveOne(x: real, a: real, c: real)
    ensures Sq(x - c) == Sq(x - a) + MovedOne(x, a, c)
  {
  }

  lemma {:induction false} SquaresMove(xs: seq<real>, a: real, c: real)
    ensures Squares(xs, c) == Squares(xs, a) + Moved(xs, a, c)
  {
    if xs != [] {
      SquaresMove(xs[..|xs|-1], a, c);
      MoveOne(xs[|xs|-1], a, c);
    }
  }

  function Total(gap: real, sum: real, n: real, both: real): real { gap * (2.0 * sum - n * both) }

  lemma TotalStep(gap: real, sum: real, n: real, both: real, x: real)
    ensures Total(gap, sum, n, both) + gap * (2.0 * x - both) == Total(gap, sum + x, n + 1.0, both)
  {
  }

  lemma {:induction false} MovedTotal(xs: seq<real>, a: real, c: real)
    ensures Moved(xs, a, c) == Total(a - c, Sum(xs), |xs| as real, a + c)
  {
    if xs != [] {
      var n := |xs| - 1;
      MovedTotal(xs[..n], a, c);
      TotalStep(a - c, Sum(xs[..n]), n as real, a + c, xs[n]);
      assert n as real + 1.0 == |xs| as real;
    }
  }

  /** The mean is the point of least squared distance. */
  lemma MeanIsBest(xs: seq<real>, c: real)
    requires xs != []
    ensures Squares(xs, Mean(xs)) <= Squares(xs, c)
  {
    var mean := Mean(xs);
    assert Sum(xs) == |xs| as real * mean by {
      MeanSum(xs);
    }
    CentreIsBest(xs, mean, c);
  }

  lemma {:induction false} CentreIsBest(xs: seq<real>, mean: real, c: real)
    requires Sum(xs) == |xs| as real * mean
    ensures Squares(xs, mean) <= Squares(xs, c)
  {
    SquaresMove(xs, mean, c);
    MovedUp(xs, mean, c);
  }

  lemma MovedUp(xs: seq<real>, mean: real, c: real)
    requires Sum(xs) == |xs| as real * mean
    ensures Moved(xs, mean, c) >= 0.0
  {
    MovedTotal(xs, mean, c);
    GapSquared(|xs| as real, mean, c);
  }

  lemma MeanSum(xs: seq<real>)
    requires xs != []
    ensures Sum(xs) == |xs| as real * Mean(xs)
  {
  }

  lemma GapSquared(n: real, mean: real, c: real)
    requires n >= 0.0
    ensures Total(mean - c, n * mean, n, mean + c) >= 0.0
  {
    var gap := mean - c;
    assert 2.0 * (n * mean) - n * (mean + c) == n * gap;
    assert gap * (n * gap) == n * Sq(gap);
    NonNegative(n, Sq(gap));
  }

  lemma NonNegative(a: real, b: real)
    requires a >= 0.0 && b >= 0.0
    ensures a * b >= 0.0
  {
  }

  predicate Within(xs: seq<real>, center: real, radius: real) {
    forall i :: 0 <= i < |xs| ==> center - radius <= xs[i] <= center + radius
  }

  lemma {:induction false} SquaresBounded(xs: seq<real>, center: real, radius: real)
    requires Within(xs, center, radius)
    ensures Squares(xs, center) <= |xs| as real * Sq(radius)
  {
    if xs != [] {
      var n := |xs| - 1;
      SquaresBounded(xs[..n], center, radius);
      SquareWithin(xs[n] - center, radius);
      Distribute(n as real, Sq(radius));
    }
  }

  lemma Distribute(a: real, b: real)
    ensures (a + 1.0) * b == a * b + b
  {
  }

  lemma SquareWithin(y: real, radius: real)
    requires -radius <= y <= radius
    ensures Sq(y) <= Sq(radius)
  {
    NonNegative(radius - y, radius + y);
    assert (radius - y) * (radius + y) == Sq(radius) - Sq(y);
  }

  lemma SpreadBounded(xs: seq<real>, lo: real, hi: real, least: real)
    requires forall i :: 0 <= i < |xs| ==> lo <= xs[i] <= hi
    requires least <= Squares(xs, (lo + hi) / 2.0)
    ensures least <= |xs| as real * Sq((hi - lo) / 2.0)
  {
    var center, radius := (lo + hi) / 2.0, (hi - lo) / 2.0;
    assert center - radius == lo && center + radius == hi;
    SquaresBounded(xs, center, radius);
  }

  /** Popoviciu: values within a range have squared deviations of at most a
      quarter of its squared length each. */
  lemma {:induction false} Popoviciu(xs: seq<real>, lo: real, hi: real)
    requires xs != [] && forall i :: 0 <= i < |xs| ==> lo <= xs[i] <= hi
    ensures Squares(xs, Mean(xs)) <= |xs| as real * Sq((hi - lo) / 2.0)
  {
    var center := (lo + hi) / 2.0;
    MeanIsBest(xs, center);
    SpreadBounded(xs, lo, hi, Squares(xs, Mean(xs)));
  }

  // ---------- Beacons with jitter ----------

  /** Event `i` is due at `start + i * period` and off by at most `jitter`. */
  predicate Beats(events: seq<real>, start: real, period: real, jitter: real) {
    forall i :: 0 <= i < |events| ==> Due(start, period, i) - jitter <= events[i] <= Due(start, period, i) + jitter
  }

  function Due(start: real, period: real, i: nat): real { start + i as real * period }

  lemma DueGrows(start: real, period: real, i: nat)
    ensures Due(start, period, i + 1) == Due(start, period, i) + period
  {
  }

  /** Putting an event into the sorted earlier ones keeps every place on time,
      even where jitter exceeds the period and events overtake one another. */
  lemma {:induction false} InsertBeats(x: real, s: seq<real>, start: real, period: real, jitter: real)
    requires period >= 0.0 && Beats(s, start, period, jitter)
    requires Due(start, period, |s|) - jitter <= x <= Due(start, period, |s|) + jitter
    ensures Beats(Insert(x, s), start, period, jitter) && |Insert(x, s)| == |s| + 1
  {
    if s != [] {
      var n := |s| - 1;
      DueGrows(start, period, n);
      if s[n] > x {
        InsertBeats(x, s[..n], start, period, jitter);
      }
    }
  }

  lemma {:induction false} SortBeats(events: seq<real>, start: real, period: real, jitter: real)
    requires period >= 0.0 && Beats(events, start, period, jitter)
    ensures Beats(Sort(events), start, period, jitter) && |Sort(events)| == |events|
  {
    if events != [] {
      var n := |events| - 1;
      SortBeats(events[..n], start, period, jitter);
      InsertBeats(events[n], Sort(events[..n]), start, period, jitter);
    }
  }

  lemma IntervalsWithin(s: seq<real>, start: real, period: real, jitter: real, i: nat)
    requires Beats(s, start, period, jitter) && i < |s| - 1
    ensures period - 2.0 * jitter <= Intervals(s)[i] <= period + 2.0 * jitter
  {
    DueGrows(start, period, i);
    assert Intervals(s)[i] == s[i+1] - s[i];
  }

  lemma NarrowDeviates(xs: seq<real>, period: real, jitter: real, m: real)
    requires |xs| >= 2 && m >= 0.0 && 8.0 * Sq(jitter) <= Sq(m)
    requires forall i :: 0 <= i < |xs| ==> period - 2.0 * jitter <= xs[i] <= period + 2.0 * jitter
    ensures DeviatesAtMost(xs, m)
  {
    var lo, hi := period - 2.0 * jitter, period + 2.0 * jitter;
    Popoviciu(xs, lo, hi);
    assert (hi - lo) / 2.0 == 2.0 * jitter;
    Double(jitter);
    EnoughIntervals(|xs|, Sq(jitter), Sq(m));
  }

  lemma BeaconIsFlagged(events: seq<real>, start: real, period: real, jitter: real, m: real)
    requires |events| >= 3 && period >= 0.0 && jitter >= 0.0 && Beats(events, start, period, jitter)
    requires m >= 0.0 && 8.0 * Sq(jitter) <= Sq(m)
    ensures Flagged(events, m)
  {
    SortBeats(events, start, period, jitter);
    var s := Sort(events);
    forall i | 0 <= i < |s| - 1
      ensures period - 2.0 * jitter <= Intervals(s)[i] <= period + 2.0 * jitter
    {
      IntervalsWithin(s, start, period, jitter, i);
    }
    NarrowDeviates(Intervals(s), period, jitter, m);
  }

  lemma EnoughIntervals(n: nat, d2: real, m2: real)
    requires n >= 2 && d2 >= 0.0 && 8.0 * d2 <= m2
    ensures n as real * (4.0 * d2) <= m2 * (n - 1) as real
  {
  }

  lemma Double(y: real)
    ensures Sq(2.0 * y) == 4.0 * Sq(y) && Sq(-2.0 * y) == 4.0 * Sq(y)
  {
  }

  ghost predicate AlwaysFlagged(jitter: real, m: real) {
    forall events: seq<real>, start: real, period: real ::
      |events| >= 3 && period >= 0.0 && Beats(events, start, period, jitter) ==> Flagged(events, m)
  }

  /** Every beacon whose events are off by at most `jitter` is flagged, whatever
      its start, period, length and the order of its flows, exactly when
      `8 * jitter^2 <= m^2`. */
  lemma {:induction false} BeaconsFlaggedExactlyWhen(jitter: real, m: real)
    requires jitter >= 0.0
    ensures AlwaysFlagged(jitter, m) <==> m >= 0.0 && 8.0 * Sq(jitter) <= Sq(m)
  {
    if m >= 0.0 && 8.0 * Sq(jitter) <= Sq(m) {
      forall events: seq<real>, start: real, period: real |
        |events| >= 3 && period >= 0.0 && Beats(events, start, period, jitter)
        ensures Flagged(events, m)
      {
        BeaconIsFlagged(events, start, period, jitter, m);
      }
    } else {
      WorstBeacon(jitter, m);
    }
  }

  /** The beacon that meets the bound: two intervals at the two ends of the range. */
  lemma WorstBeacon(jitter: real, m: real)
    requires jitter >= 0.0
    ensures var events := [-jitter, 3.0 * jitter, 3.0 * jitter];
            && Beats(events, 0.0, 2.0 * jitter, jitter)
            && (Flagged(events, m) <==> m >= 0.0 && 8.0 * Sq(jitter) <= Sq(m))
  {
    WorstBeats(jitter);
    WorstSorted(-jitter, 3.0 * jitter);
    assert 3.0 * jitter - -jitter == 4.0 * jitter;
    WorstDeviates(jitter, m);
  }

  lemma WorstSorted(a: real, b: real)
    requires a <= b
    ensures Sort([a, b, b]) == [a, b, b] && Intervals([a, b, b]) == [b - a, 0.0]
  {
    SortedIsFixed([a, b, b]);
  }

  lemma SortedIsFixed(s: seq<real>)
    requires Sorted(s)
    ensures Sort(s) == s
  {
    SortSorts(s);
    SortedUnique(Sort(s), s);
  }

  lemma WorstDeviates(jitter: real, m: real)
    ensures DeviatesAtMost([4.0 * jitter, 0.0], m) <==> m >= 0.0 && 8.0 * Sq(jitter) <= Sq(m)
  {
    TwoIntervals(4.0 * jitter, 0.0);
    Double(jitter);
    assert (4.0 * jitter - 0.0) / 2.0 == 2.0 * jitter && (0.0 - 4.0 * jitter) / 2.0 == -2.0 * jitter;
    assert (|[4.0 * jitter, 0.0]| - 1) as real == 1.0;
  }

  lemma WorstBeats(jitter: real)
    requires jitter >= 0.0
    ensures Beats([-jitter, 3.0 * jitter, 3.0 * jitter], 0.0, 2.0 * jitter, jitter)
  {
  }

  lemma TwoIntervals(a: real, b: real)
    ensures Mean([a, b]) == (a + b) / 2.0
    ensures Squares([a, b], (a + b) / 2.0) == Sq((a - b) / 2.0) + Sq((b - a) / 2.0)
  {
    var xs := [a, b];
    assert xs[..1] == [a] && [a][..0] == [];
    assert Sum([a]) == a && Sum(xs) == a + b;
    var c := (a + b) / 2.0;
    assert a - c == (a - b) / 2.0 && b - c == (b - a) / 2.0;
    assert Squares([a], c) == Sq(a - c);
  }

  // ---------- What a flag means ----------

  lemma {:induction false} SquareInSum(xs: seq<real>, c: real, i: nat)
    requires i < |xs|
    ensures Sq(xs[i] - c) <= Squares(xs, c)
  {
    var n := |xs| - 1;
    SquaresNonNegative(xs[..n], c);
    if i < n {
      SquareInSum(xs[..n], c, i);
    }
  }

  lemma {:induction false} SquaresNonNegative(xs: seq<real>, c: real)
    ensures Squares(xs, c) >= 0.0
  {
    if xs != [] { SquaresNonNegative(xs[..|xs|-1], c); }
  }

  lemma CloseTo(xs: seq<real>, c: real, bound: real, i: nat)
    requires i < |xs| && Squares(xs, c) <= bound
    ensures Sq(xs[i] - c) <= bound
  {
    SquareInSum(xs, c, i);
  }

  lemma DeviationIsClose(xs: seq<real>, m: real, i: nat)
    requires |xs| >= 2 && DeviatesAtMost(xs, m) && i < |xs|
    ensures Sq(xs[i] - Mean(xs)) <= Sq(m) * (|xs| - 1) as real
  {
    CloseTo(xs, Mean(xs), Sq(m) * (|xs| - 1) as real, i);
  }

  /** In a flagged series no interval is further from the mean than
      `m * sqrt(n - 1)`. */
  lemma {:induction false} FlaggedIntervalsAreClose(times: seq<real>, m: real, i: nat)
    requires Flagged(times, m) && i < |times| - 1
    ensures var xs := Intervals(Sort(times));
            Sq(xs[i] - Mean(xs)) <= Sq(m) * (|xs| - 1) as real
  {
    DeviationIsClose(Intervals(Sort(times)), m, i);
  }
}
