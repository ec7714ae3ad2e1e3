/**
 * The drive-period filter: the mean over one drive period of the curve through
 * the recorded samples, taken from a ring of the latest intervals. Frequencies
 * are computed over the reals.
 */
module PeriodFilter {
  import opened Words

  const FILTER_US: nat := 5000
  const SLOTS: nat := 32
  const U32_MAX: nat := 0xFFFF_FFFF

  /** A measured frequency and the capture time it belongs to. */
  datatype Sample = Sample(us: U32, hz: U32)

  datatype Interval = Interval(duration: nat, first: real, last: real)

  // ---- recording -----------------------------------------------------------------------

  /** The samples since the filter last started afresh, newest first. */
  function Record(samples: seq<Sample>, hz: U32, now: U32): (r: seq<Sample>)
    ensures r != [] && r[0].us == now
  {
    if samples == [] || Sub32(now, samples[0].us) > FILTER_US then [Sample(now, hz)]
    else if Sub32(now, samples[0].us) == 0 then samples
    else [Sample(now, hz)] + samples
  }

  /** Recorded neighbours are 1..FILTER_US apart. */
  ghost predicate Close(samples: seq<Sample>) {
    forall i :: 0 <= i < |samples| - 1 ==> 1 <= Sub32(samples[i].us, samples[i + 1].us) <= FILTER_US
  }

  lemma RecordKeepsClose(samples: seq<Sample>, hz: U32, now: U32)
    requires Close(samples)
    ensures Close(Record(samples, hz, now))
  {
  }

  function IntervalAt(samples: seq<Sample>, i: nat): Interval
    requires i + 1 < |samples|
  {
    Interval(Sub32(samples[i].us, samples[i + 1].us), samples[i + 1].hz as real, samples[i].hz as real)
  }

  /** The latest n intervals, newest first. */
  function Intervals(samples: seq<Sample>, n: nat): (r: seq<Interval>)
    requires n < |samples|
    ensures |r| == n
    ensures forall i :: 0 <= i < n ==> r[i] == IntervalAt(samples, i)
  {
    if n == 0 then [] else Intervals(samples, n - 1) + [IntervalAt(samples, n - 1)]
  }

  function Kept(samples: seq<Sample>): nat
    requires samples != []
  {
    Min(|samples| - 1, SLOTS)
  }

  // ---- the filter's sum ------------------------------------------------------------------

  ghost predicate Proper(iv: seq<Interval>) { forall i :: 0 <= i < |iv| ==> iv[i].duration > 0 }

  /** Each interval begins where the older one ends. */
  ghost predicate Joined(iv: seq<Interval>, newest: real) {
    && (iv != [] ==> iv[0].last == newest)
    && (forall i :: 0 <= i < |iv| - 1 ==> iv[i + 1].last == iv[i].first)
  }

  function Taken(i: Interval, remaining: nat): nat { Min(remaining, i.duration) }

  /** What one interval adds for its newest `take` microseconds. */
  function Part(i: Interval, take: nat): real
    requires i.duration > 0
  {
    take as real * (i.last + 0.5 * (take as real / i.duration as real) * (i.first - i.last))
  }

  /** The area the loop adds up, newest interval first; past the oldest one its
      value holds on. */
  function Area(iv: seq<Interval>, remaining: nat, oldest: real): real
    requires Proper(iv)
  {
    if iv == [] || remaining == 0 then remaining as real * oldest
    else Part(iv[0], Taken(iv[0], remaining)) + Area(iv[1..], remaining - Taken(iv[0], remaining), iv[0].first)
  }

  function Round(average: real): U32
    requires average >= 0.0
  {
    if average >= U32_MAX as real then U32_MAX else (average + 0.5).Floor
  }

  // ---- the reference: a curve and its integral --------------------------------------------

  /** The frequency k microseconds ago: linear between samples, before the oldest
      interval its first value. */
  function Curve(iv: seq<Interval>, newest: real, k: nat): real
    requires Proper(iv)
  {
    if iv == [] then newest
    else if k <= iv[0].duration then iv[0].last + (iv[0].first - iv[0].last) * (k as real / iv[0].duration as real)
    else Curve(iv[1..], iv[0].first, k - iv[0].duration)
  }

  /** The integral over the latest n microseconds: the knots of the curve are at
      whole microseconds, so the trapezoids between them are exact. */
  function Integral(iv: seq<Interval>, newest: real, n: nat): real
    requires Proper(iv)
  {
    if n == 0 then 0.0
    else Integral(iv, newest, n - 1) + (Curve(iv, newest, n - 1) + Curve(iv, newest, n)) / 2.0
  }

  // ---- they agree -----------------------------------------------------------------------------

  lemma ConstantIntegral(newest: real, n: nat)
    ensures Integral([], newest, n) == n as real * newest
  {
    if n > 0 {
      ConstantIntegral(newest, n - 1);
      assert n as real * newest == (n - 1) as real * newest + newest;
    }
  }

  /** Half the square grows by the middle of the step. */
  lemma PartGrows(i: Interval, k: nat)
    requires i.duration > 0
    ensures var d := i.duration as real;
            var f := (i.first - i.last) * (k as real / d);
            var g := (i.first - i.last) * ((k + 1) as real / d);
            Part(i, k + 1) == Part(i, k) + ((i.last + f) + (i.last + g)) / 2.0
  {
    var d, x, y := i.duration as real, k as real, (k + 1) as real;
    var s := (i.first - i.last) / d;
    Slope(i, k);
    Slope(i, k + 1);
    assert y == x + 1.0;
    assert y * (i.last + 0.5 * (y * s)) == x * (i.last + 0.5 * (x * s)) + (i.last + x * s + i.last + y * s) / 2.0 by {
      SquareStep(x, s, i.last);
    }
  }

  lemma SquareStep(x: real, s: real, c: real)
    ensures (x + 1.0) * (c + 0.5 * ((x + 1.0) * s)) == x * (c + 0.5 * (x * s)) + (c + x * s + c + (x + 1.0) * s) / 2.0
  {
    var q := x * s;
    assert (x + 1.0) * s == q + s;
    assert x * (c + 0.5 * q) == x * c + 0.5 * (x * q);
    assert (x + 1.0) * (c + 0.5 * (q + s)) == x * c + c + 0.5 * (x * q) + 0.5 * (x * s) + 0.5 * (q + s);
  }

  lemma Slope(i: Interval, k: nat)
    requires i.duration > 0
    ensures var d := i.duration as real;
            var s := (i.first - i.last) / d;
            && (i.first - i.last) * (k as real / d) == k as real * s
            && Part(i, k) == k as real * (i.last + 0.5 * (k as real * s))
  {
    var d, h := i.duration as real, i.first - i.last;
    DivideProduct(h, k as real, d);
  }

  lemma DivideProduct(h: real, x: real, d: real)
    requires d > 0.0
    ensures h * (x / d) == x * (h / d) == (x / d) * h
  {
    var a, b := x / d, h / d;
    assert a * d == x && b * d == h;
    assert h * a == (b * d) * a == b * (a * d) == b * x;
  }

  /** Within the newest interval the integral is the closed form. */
  lemma {:induction false} PartIsIntegral(iv: seq<Interval>, newest: real, n: nat)
    requires Proper(iv) && iv != [] && n <= iv[0].duration
    ensures Integral(iv, newest, n) == Part(iv[0], n)
    decreases n
  {
    if n > 0 {
      PartIsIntegral(iv, newest, n - 1);
      PartGrows(iv[0], n - 1);
    }
  }

  /** Where two intervals meet the curve has one value. */
  lemma CurveJoins(iv: seq<Interval>, newest: real, k: nat)
    requires Proper(iv) && Joined(iv, newest) && iv != [] && k >= iv[0].duration
    ensures Curve(iv, newest, k) == Curve(iv[1..], iv[0].first, k - iv[0].duration)
  {
    if k == iv[0].duration {
      var d := k as real;
      assert d / d == 1.0;
      if |iv| > 1 {
        var e := iv[1].duration as real;
        assert iv[1..][0] == iv[1] && iv[1].last == iv[0].first;
        assert 0.0 / e == 0.0;
      }
    }
  }

  /** Beyond the newest interval the integral goes on with the older ones. */
  lemma {:induction false} IntegralSplits(iv: seq<Interval>, newest: real, n: nat)
    requires Proper(iv) && Joined(iv, newest) && iv != [] && n >= iv[0].duration
    ensures Integral(iv, newest, n)
         == Part(iv[0], iv[0].duration) + Integral(iv[1..], iv[0].first, n - iv[0].duration)
    decreases n
  {
    hide Curve, Part;
    if n == iv[0].duration {
      PartIsIntegral(iv, newest, n);
    } else {
      IntegralSplits(iv, newest, n - 1);
      CurveJoins(iv, newest, n - 1);
      CurveJoins(iv, newest, n);
    }
  }

  /** The loop's area is the integral of the curve. */
  lemma {:induction false} AreaIsIntegral(iv: seq<Interval>, n: nat, newest: real)
    requires Proper(iv) && Joined(iv, newest)
    ensures Area(iv, n, newest) == Integral(iv, newest, n)
    decreases |iv|
  {
    hide Part, Curve;
    if iv == [] {
      ConstantIntegral(newest, n);
    } else if n > 0 {
      if n <= iv[0].duration {
        PartIsIntegral(iv, newest, n);
        AreaOfNothing(iv[1..], iv[0].first);
      } else {
        IntegralSplits(iv, newest, n);
        assert Joined(iv[1..], iv[0].first);
        AreaIsIntegral(iv[1..], n - iv[0].duration, iv[0].first);
      }
    }
  }

  lemma AreaOfNothing(iv: seq<Interval>, oldest: real)
    requires Proper(iv)
    ensures Area(iv, 0, oldest) == 0.0
  {
  }

  // ---- bounds -------------------------------------------------------------------------------------

  /** Every sample the sum touches lies within the bounds. */
  predicate UsedWithin(iv: seq<Interval>, remaining: nat, oldest: real, lo: real, hi: real)
    requires Proper(iv)
  {
    && lo <= oldest <= hi
    && (iv != [] && remaining > 0 ==>
          lo <= iv[0].last <= hi && UsedWithin(iv[1..], remaining - Taken(iv[0], remaining), iv[0].first, lo, hi))
  }

  lemma PartBounds(i: Interval, take: nat, lo: real, hi: real)
    requires 0 < take <= i.duration && lo <= i.first <= hi && lo <= i.last <= hi
    ensures take as real * lo <= Part(i, take) <= take as real * hi
  {
    var f := take as real / i.duration as real;
    var t := take as real;
    FractionBounds(t, i.duration as real);
    var middle := i.last + 0.5 * f * (i.first - i.last);
    Between(i.last, i.first - i.last, 0.5 * f, lo, hi);
    ScaleBounds(t, lo, middle);
    ScaleBounds(t, middle, hi);
  }

  lemma FractionBounds(t: real, d: real)
    requires 0.0 <= t <= d && d > 0.0
    ensures 0.0 <= t / d <= 1.0
  {
    var f := t / d;
    assert f * d == t;
    if f > 1.0 {
      ScaleBounds(d, 1.0, f);
    }
  }

  lemma Between(a: real, d: real, w: real, lo: real, hi: real)
    requires 0.0 <= w <= 1.0 && lo <= a <= hi && lo <= a + d <= hi
    ensures lo <= a + w * d <= hi
  {
    var x := PartOfStep(w, d);
  }

  lemma PartOfStep(w: real, d: real) returns (x: real)
    requires 0.0 <= w <= 1.0
    ensures x == w * d
    ensures d >= 0.0 ==> 0.0 <= x <= d
    ensures d <= 0.0 ==> d <= x <= 0.0
  {
    x := w * d;
    var e := 1.0 - w;
    assert x + e * d == d;
  }

  lemma ScaleBounds(t: real, a: real, b: real)
    requires t >= 0.0 && a <= b
    ensures t * a <= t * b
  {
  }

  lemma {:induction false} AreaBounds(iv: seq<Interval>, n: nat, oldest: real, lo: real, hi: real)
    requires Proper(iv) && UsedWithin(iv, n, oldest, lo, hi)
    ensures n as real * lo <= Area(iv, n, oldest) <= n as real * hi
    decreases |iv|
  {
    hide Part;
    if iv == [] || n == 0 {
      ScaleBounds(n as real, lo, oldest);
      ScaleBounds(n as real, oldest, hi);
    } else {
      var take := Taken(iv[0], n);
      AreaBounds(iv[1..], n - take, iv[0].first, lo, hi);
      assert lo <= iv[0].first <= hi;
      PartBounds(iv[0], take, lo, hi);
      assert n as real == take as real + (n - take) as real;
      assert n as real * lo == take as real * lo + (n - take) as real * lo;
      assert n as real * hi == take as real * hi + (n - take) as real * hi;
    }
  }

  // ---- what the filter returns ------------------------------------------------------------------------

  lemma IntervalsAreProper(samples: seq<Sample>, n: nat)
    requires Close(samples) && n < |samples|
    ensures Proper(Intervals(samples, n)) && Joined(Intervals(samples, n), samples[0].hz as real)
  {
  }

  function Mean(samples: seq<Sample>): real
    requires samples != [] && Proper(Intervals(samples, Kept(samples)))
  {
    Area(Intervals(samples, Kept(samples)), FILTER_US, samples[0].hz as real) / FILTER_US as real
  }

  /** Every used sample being within whole bounds, so is the mean. */
  lemma MeanBounds(samples: seq<Sample>, lo: nat, hi: nat)
    requires Close(samples) && samples != []
    requires var iv := Intervals(samples, Kept(samples));
             Proper(iv) && UsedWithin(iv, FILTER_US, samples[0].hz as real, lo as real, hi as real)
    ensures lo as real <= Mean(samples) <= hi as real
  {
    AreaBounds(Intervals(samples, Kept(samples)), FILTER_US, samples[0].hz as real, lo as real, hi as real);
  }

  lemma RoundKeepsBounds(average: real, lo: nat, hi: nat)
    requires lo as real <= average <= hi as real && hi <= U32_MAX
    ensures lo <= Round(average) <= hi
    ensures average < U32_MAX as real ==> -0.5 <= Round(average) as real - average <= 0.5
  {
    if average < U32_MAX as real {
      var f := (average + 0.5).Floor;
      assert f as real <= average + 0.5 < f as real + 1.0;
    }
  }

  /** Frequencies are words, so their mean is not negative. */
  lemma MeanNotNegative(samples: seq<Sample>)
    requires Close(samples) && samples != [] && Proper(Intervals(samples, Kept(samples)))
    ensures Mean(samples) >= 0.0
  {
    AllUsedWithin(samples, 0, Kept(samples), FILTER_US);
    var iv := Intervals(samples, Kept(samples));
    assert iv[0..] == iv;
    MeanBounds(samples, 0, U32_MAX);
  }

  lemma {:induction false} AllUsedWithin(samples: seq<Sample>, i: nat, n: nat, remaining: nat)
    requires n < |samples| && i <= n && Proper(Intervals(samples, n))
    ensures UsedWithin(Intervals(samples, n)[i..], remaining, samples[i].hz as real, 0.0, U32_MAX as real)
    decreases n - i
  {
    var iv := Intervals(samples, n);
    if i < n && remaining > 0 {
      assert iv[i..][1..] == iv[i + 1..];
      AllUsedWithin(samples, i + 1, n, remaining - Taken(iv[i], remaining));
    }
  }

  /** What the filter returns once the newest sample is recorded. */
  function Result(samples: seq<Sample>): U32
    requires Close(samples) && samples != []
  {
    IntervalsAreProper(samples, Kept(samples));
    MeanNotNegative(samples);
    Round(Mean(samples))
  }

  /** The main result: over the latest drive period the filter returns the mean of
      the curve through the recorded samples, to the nearest integer, and never
      leaves the range of the samples it used. */
  lemma FilterIsMeanOfCurve(samples: seq<Sample>, lo: nat, hi: nat)
    requires Close(samples) && samples != [] && hi <= U32_MAX
    requires var iv := Intervals(samples, Min(|samples| - 1, 32));
             Proper(iv) ==> UsedWithin(iv, 5000, samples[0].hz as real, lo as real, hi as real)
    ensures var iv := Intervals(samples, Min(|samples| - 1, 32));
            && Proper(iv)
            && Mean(samples) * 5000.0 == Integral(iv, samples[0].hz as real, 5000)
            && lo <= Result(samples) <= hi
            && (Mean(samples) < U32_MAX as real ==> -0.5 <= Result(samples) as real - Mean(samples) <= 0.5)
  {
    hide Round, Integral, Area;
    var iv := Intervals(samples, Kept(samples));
    IntervalsAreProper(samples, Kept(samples));
    AreaIsIntegral(iv, FILTER_US, samples[0].hz as real);
    MeanBounds(samples, lo, hi);
    RoundKeepsBounds(Mean(samples), lo, hi);
  }

  /** A measured frequency at its true capture time. */
  datatype Arrival = Arrival(t: nat, hz: U32)

  /** The samples after all arrivals, in their order. */
  function Recorded(arrivals: seq<Arrival>): seq<Sample> {
    if arrivals == [] then []
    else
      var last := arrivals[|arrivals| - 1];
      Record(Recorded(arrivals[..|arrivals| - 1]), last.hz, Tick(last.t))
  }

  /** One after the other, each less than a wrap of the counter after the one before. */
  ghost predicate InOrder(arrivals: seq<Arrival>) {
    forall i, j :: 0 <= i < j == i + 1 < |arrivals| ==> 1 <= arrivals[j].t - arrivals[i].t < M32
  }

  /** The samples are the latest arrivals, newest first, back to the first gap of more
      than 5 ms or to the very first. */
  ghost predicate IsRow(samples: seq<Sample>, arrivals: seq<Arrival>) {
    var (n, m) := (|arrivals|, |samples|);
    && m <= n && (n > 0 ==> m > 0)
    && (forall i :: 0 <= i < m ==> samples[i] == Sample(Tick(arrivals[n - 1 - i].t), arrivals[n - 1 - i].hz))
    && (forall i :: n - m < i < n ==> CloseBehind(arrivals, i))
    && (0 < m < n ==> !CloseBehind(arrivals, n - m))
  }

  predicate CloseBehind(arrivals: seq<Arrival>, i: nat)
    requires 0 < i < |arrivals|
  {
    arrivals[i].t - arrivals[i - 1].t <= 5000
  }

  lemma RowExtends(samples: seq<Sample>, arrivals: seq<Arrival>, next: Arrival)
    requires arrivals != [] && IsRow(samples, arrivals) && 1 <= next.t - arrivals[|arrivals| - 1].t < M32
    ensures IsRow(Record(samples, next.hz, Tick(next.t)), arrivals + [next])
  {
    hide Sub32;
    var all, n := arrivals + [next], |arrivals|;
    TickDifference(arrivals[n - 1].t, next.t);
    assert Sub32(Tick(next.t), samples[0].us) == next.t - arrivals[n - 1].t;
    var r := Record(samples, next.hz, Tick(next.t));
    forall i | 0 < i < n ensures CloseBehind(all, i) == CloseBehind(arrivals, i) {}
    assert CloseBehind(all, n) <==> next.t - arrivals[n - 1].t <= 5000;
    forall i | 0 <= i < |r| ensures r[i] == Sample(Tick(all[n - i].t), all[n - i].hz) {}
  }

  lemma FirstRow(next: Arrival)
    ensures IsRow(Record([], next.hz, Tick(next.t)), [next])
  {
  }

  /** In true time the recorded samples are exactly that row; none is left out. */
  lemma {:induction false} RecordedIsRow(arrivals: seq<Arrival>)
    requires InOrder(arrivals)
    ensures IsRow(Recorded(arrivals), arrivals)
    decreases |arrivals|
  {
    hide Record, IsRow;
    if arrivals == [] {
      NoRow();
    } else {
      var before, last := arrivals[..|arrivals| - 1], arrivals[|arrivals| - 1];
      RecordedIsRow(before);
      assert arrivals == before + [last];
      if before == [] {
        FirstRow(last);
      } else {
        RowExtends(Recorded(before), before, last);
      }
    }
  }

  lemma NoRow()
    ensures IsRow([], [])
  {
  }

  /** How long ago interval i began to be left behind: the sum of the newer ones. */
  function Offset(iv: seq<Interval>, i: nat): nat
    requires i <= |iv|
  {
    if i == 0 then 0 else iv[0].duration + Offset(iv[1..], i - 1)
  }

  /** The curve passes through every recorded sample, at its own time. */
  lemma {:induction false} CurvePassesSamples(iv: seq<Interval>, newest: real, i: nat)
    requires Proper(iv) && Joined(iv, newest) && i <= |iv|
    ensures Curve(iv, newest, Offset(iv, i)) == if i == 0 then newest else iv[i - 1].first
    decreases |iv|
  {
    if i == 0 {
      if iv != [] {
        var d := iv[0].duration as real;
        assert 0.0 / d == 0.0;
      }
    } else {
      CurveJoins(iv, newest, Offset(iv, i));
      assert Joined(iv[1..], iv[0].first);
      CurvePassesSamples(iv[1..], iv[0].first, i - 1);
    }
  }

  /** The microseconds taken from intervals, and those left for the oldest value. */
  function Consumed(iv: seq<Interval>, n: nat): nat
    requires Proper(iv)
  {
    if iv == [] || n == 0 then 0 else Taken(iv[0], n) + Consumed(iv[1..], n - Taken(iv[0], n))
  }

  /** They always add up to the period: what the intervals do not cover is left. */
  lemma {:induction false} ConsumedIsCovered(iv: seq<Interval>, n: nat)
    requires Proper(iv)
    ensures Consumed(iv, n) == Min(n, Offset(iv, |iv|))
    decreases |iv|
  {
    if iv != [] && n > 0 {
      ConsumedIsCovered(iv[1..], n - Taken(iv[0], n));
    }
  }

  // ---- the ring ------------------------------------------------------------------------------------------

  function Back(head: nat, i: nat): (index: nat)
    requires head < SLOTS && i < SLOTS
    ensures index < SLOTS
  {
    (head + SLOTS - 1 - i) % SLOTS
  }

  /** The ring holds the latest intervals, the newest one just before `head`. */
  ghost predicate RingHolds(ring: seq<Interval>, head: nat, count: nat, samples: seq<Sample>) {
    && |ring| == SLOTS && head < SLOTS && samples != []
    && count == Kept(samples)
    && (forall i :: 0 <= i < count ==> ring[Back(head, i)] == IntervalAt(samples, i))
  }

  /** A new interval put at `head` keeps it so. */
  lemma RingPush(ring: seq<Interval>, head: nat, count: nat, samples: seq<Sample>, sample: Sample)
    requires RingHolds(ring, head, count, samples)
    ensures var all := [sample] + samples;
            RingHolds(ring[head := IntervalAt(all, 0)], (head + 1) % SLOTS, if count < SLOTS then count + 1 else count, all)
  {
    var all := [sample] + samples;
    var ring', head' := ring[head := IntervalAt(all, 0)], (head + 1) % SLOTS;
    forall i | 0 <= i < Kept(all) ensures ring'[Back(head', i)] == IntervalAt(all, i) {
      BackAfterPush(head, i);
      if i > 0 {
        assert IntervalAt(all, i) == IntervalAt(samples, i - 1);
      }
    }
  }

  lemma BackAfterPush(head: nat, i: nat)
    requires head < SLOTS && i < SLOTS
    ensures i == 0 ==> Back((head + 1) % SLOTS, i) == head
    ensures i > 0 ==> Back((head + 1) % SLOTS, i) == Back(head, i - 1) != head
  {
  }

  class Filter {
    var intervals: array<Interval>
    var head: nat
    var count: nat
    var previousUs: U32
    var previousHz: U32
    var ready: bool
    ghost var samples: seq<Sample>

    ghost predicate Valid()
      reads this, intervals
    {
      && intervals.Length == SLOTS
      && Close(samples)
      && (ready <==> samples != [])
      && (ready ==> samples[0] == Sample(previousUs, previousHz) && RingHolds(intervals[..], head, count, samples))
    }

    constructor ()
      ensures Valid() && samples == [] && fresh(intervals)
    {
      intervals := new Interval[SLOTS];
      head, count, previousUs, previousHz, ready := 0, 0, 0, 0, false;
      samples := [];
    }

    /** discardCaptureWindow, its part of the filter. */
    method Discard()
      requires Valid()
      modifies this`ready, this`samples
      ensures Valid() && samples == []
    {
      ready := false;
      samples := [];
    }

    /** averageDrivePeriod; `filteredHz` is the value kept for a repeated capture time. */
    method AverageDrivePeriod(rawHz: U32, nowUs: U32, filteredHz: U32) returns (r: U32)
      requires Valid()
      modifies this, intervals
      ensures intervals == old(intervals)
      ensures Valid() && samples == Record(old(samples), rawHz, nowUs)
      ensures old(samples) != [] && nowUs == old(samples)[0].us ==> r == filteredHz
      ensures !(old(samples) != [] && nowUs == old(samples)[0].us) ==> r == Result(samples)
    {
      hide Round, Area, Intervals, RingHolds;
      ghost var before := samples;
      RecordKeepsClose(samples, rawHz, nowUs);
      var dt := Sub32(nowUs, previousUs);
      if !ready || dt > FILTER_US {
        head, count, ready := 0, 0, true;
        samples := [Sample(nowUs, rawHz)];
        RingStarts(intervals[..], samples);
      } else if dt == 0 {
        r := filteredHz;
        return;
      } else {
        RingPush(intervals[..], head, count, samples, Sample(nowUs, rawHz));
        RingShape(intervals[..], head, count, samples);
        intervals[head] := Interval(dt, previousHz as real, rawHz as real);
        samples := [Sample(nowUs, rawHz)] + samples;
        head := (head + 1) % SLOTS;
        if count < SLOTS {
          count := count + 1;
        }
      }
      previousUs := nowUs;
      previousHz := rawHz;
      r := Sum();
    }

    /** The loop back through the ring. */
    method Sum() returns (r: U32)
      requires Valid() && ready
      ensures r == Result(samples)
    {
      hide Round, Part, Area, Consumed, Intervals;
      ghost var iv := Intervals(samples, Kept(samples));
      IntervalsAreProper(samples, Kept(samples));
      var newest := previousHz as real;
      var remaining: nat := FILTER_US;
      var area, oldest := 0.0, newest;
      var index, i := head, 0;
      assert iv[0..] == iv;
      while i < count && remaining > 0
        invariant i <= count == |iv|
        invariant index == (head + SLOTS - i) % SLOTS
        invariant remaining + Consumed(iv, FILTER_US) == FILTER_US + Consumed(iv[i..], remaining)
        invariant area + Area(iv[i..], remaining, oldest) == Area(iv, FILTER_US, newest)
      {
        index := (index + SLOTS - 1) % SLOTS;
        BackStep(head, i);
        var interval := intervals[index];
        assert interval == iv[i];
        AreaStep(iv, i, remaining, oldest);
        var take := Min(remaining, interval.duration);
        area := area + Part(interval, take);
        oldest := interval.first;
        remaining := remaining - take;
        i := i + 1;
      }
      AreaEnd(iv[i..], remaining, oldest);
      area := area + remaining as real * oldest;
      var average := area / FILTER_US as real;
      MeanNotNegative(samples);
      r := Round(average);
    }
  }

  lemma AreaStep(iv: seq<Interval>, i: nat, remaining: nat, oldest: real)
    requires Proper(iv) && i < |iv| && remaining > 0
    ensures var take := Taken(iv[i], remaining);
            && Area(iv[i..], remaining, oldest) == Part(iv[i], take) + Area(iv[i + 1..], remaining - take, iv[i].first)
            && Consumed(iv[i..], remaining) == take + Consumed(iv[i + 1..], remaining - take)
  {
    assert iv[i..][1..] == iv[i + 1..];
  }

  lemma AreaEnd(iv: seq<Interval>, remaining: nat, oldest: real)
    requires Proper(iv) && (iv == [] || remaining == 0)
    ensures Area(iv, remaining, oldest) == remaining as real * oldest && Consumed(iv, remaining) == 0
  {
  }

  lemma BackStep(head: nat, i: nat)
    requires head < SLOTS && i < SLOTS
    ensures ((head + SLOTS - i) % SLOTS + SLOTS - 1) % SLOTS == Back(head, i) == (head + SLOTS - (i + 1)) % SLOTS
  {
  }

  lemma RingStarts(ring: seq<Interval>, samples: seq<Sample>)
    requires |ring| == SLOTS && |samples| == 1
    ensures RingHolds(ring, 0, 0, samples)
  {
  }

  lemma RingShape(ring: seq<Interval>, head: nat, count: nat, samples: seq<Sample>)
    requires RingHolds(ring, head, count, samples)
    ensures |ring| == SLOTS && head < SLOTS && count <= SLOTS
  {
  }
}
