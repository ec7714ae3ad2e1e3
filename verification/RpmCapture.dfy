/**
 * Engine speed from the edges of the Hall sensor: an interrupt keeps the latest
 * accepted edges in a ring, and a periodic call averages the recent ones.
 */
module RpmCapture {
  import opened Words

  const SAMPLES: nat := 9
  const PULSES: nat := 32
  const MIN_PERIOD_US: nat := 94
  const WINDOW_US: nat := 25000
  const TIMEOUT_MIN_US: nat := 20000
  const TIMEOUT_MAX_US: nat := 500000
  const MICROS_PER_MINUTE: nat := 60000000
  const LOWEST: nat := 4
  const HIGHEST: nat := 19947

  // ---- what the module computes, on the sequence of accepted edges ------------------------

  /** The edges accepted since the signal was last lost; how many edges were ever
      accepted, how many of them were processed; the published speed. */
  datatype State = State(edges: seq<U32>, timeout: U32, total: nat, seen: nat, rpm: nat)

  const START := State([], TIMEOUT_MAX_US, 0, 0, 0)

  function SignalTimeout(period: nat): (t: U32)
    ensures TIMEOUT_MIN_US <= t <= TIMEOUT_MAX_US
    ensures t == 3 * period || t == TIMEOUT_MIN_US > 3 * period || t == TIMEOUT_MAX_US < 3 * period
  {
    var t := 3 * period;
    if t < TIMEOUT_MIN_US then TIMEOUT_MIN_US else if t > TIMEOUT_MAX_US then TIMEOUT_MAX_US else t
  }

  predicate Lost(s: State, now: U32) {
    s.edges != [] && Elapsed(now, s.edges[|s.edges| - 1], s.timeout)
  }

  /** RPM_interrupt. */
  function Edge(s: State, now: U32): State {
    if s.edges == [] || Lost(s, now) then s.(edges := [now], timeout := TIMEOUT_MAX_US, total := s.total + 1)
    else
      var last := s.edges[|s.edges| - 1];
      if Elapsed(now, last, MIN_PERIOD_US) then
        s.(edges := s.edges + [now], timeout := SignalTimeout(Sub32(now, last)), total := s.total + 1)
      else s
  }

  /** The edges the ring holds. */
  function Kept(edges: seq<U32>): (n: nat)
    ensures n <= |edges| && n <= SAMPLES
  {
    Min(|edges|, SAMPLES)
  }

  /** From the edge i periods back to the latest one. */
  function Span(edges: seq<U32>, i: nat): U32
    requires i < |edges|
  {
    Sub32(edges[|edges| - 1], edges[|edges| - 1 - i])
  }

  /** How many periods are averaged, at least i. */
  function Periods(edges: seq<U32>, i: nat): (p: nat)
    requires 1 <= i < Kept(edges)
    ensures i <= p < Kept(edges)
    ensures p == i || Span(edges, p) <= WINDOW_US
    ensures p + 1 < Kept(edges) ==> Span(edges, p + 1) > WINDOW_US
    decreases Kept(edges) - i
  {
    if i + 1 < Kept(edges) && Span(edges, i + 1) <= WINDOW_US then Periods(edges, i + 1) else i
  }

  function Nearest(numerator: nat, denominator: nat): nat {
    if denominator == 0 then 0 else (numerator + denominator / 2) / denominator
  }

  function Speed(edges: seq<U32>): nat {
    if Kept(edges) < 2 then 0
    else
      var p := Periods(edges, 1);
      Nearest(MICROS_PER_MINUTE * p, Span(edges, p) * PULSES)
  }

  /** RPM_process; `now` is read with the interrupt masked. */
  function Process(s: State, now: U32): State {
    var edges := if Lost(s, now) then [] else s.edges;
    var rpm :=
      if |edges| < 2 then 0
      else if s.total % M32 != s.seen % M32 then Speed(edges)
      else s.rpm;
    s.(edges := edges, seen := s.total, rpm := rpm)
  }

  // ---- runs -----------------------------------------------------------------------------------

  datatype Event = EvEdge(now: U32) | EvProcess(now: U32)

  function Step(s: State, ev: Event): State {
    match ev
    case EvEdge(now) => Edge(s, now)
    case EvProcess(now) => Process(s, now)
  }

  /** Fewer than 2^32 edges arrive between two calls of the processing. */
  predicate Admissible(s: State, ev: Event) { s.total - s.seen < M32 - 1 }

  ghost predicate IsRun(evs: seq<Event>, ss: seq<State>) {
    && |ss| == |evs| + 1
    && ss[0] == START
    && (forall k {:trigger evs[k]} :: 0 <= k < |evs| ==> Admissible(ss[k], evs[k]) && ss[k + 1] == Step(ss[k], evs[k]))
  }

  /** Neighbouring edges are a plausible period apart. */
  ghost predicate Spaced(edges: seq<U32>) {
    forall k {:trigger edges[k]} :: 1 <= k < |edges| ==> MIN_PERIOD_US <= Sub32(edges[k], edges[k - 1]) < TIMEOUT_MAX_US
  }

  ghost predicate Inv(s: State) {
    && Spaced(s.edges)
    && TIMEOUT_MIN_US <= s.timeout <= TIMEOUT_MAX_US
    && s.seen <= s.total < s.seen + M32
    && (s.seen == s.total && |s.edges| >= 2 ==> s.rpm == Speed(s.edges))
    && (s.rpm == 0 || LOWEST <= s.rpm <= HIGHEST)
  }

  lemma Sub32Adds(a: U32, b: U32, c: U32)
    ensures Sub32(c, a) == (Sub32(c, b) + Sub32(b, a)) % M32
  {
    var x, y := Sub32(c, b), Sub32(b, a);
    assert x == c - b + (if c < b then M32 else 0);
    assert y == b - a + (if b < a then M32 else 0);
  }

  /** Spans of up to eight periods are sums of periods: no wrap is lost. */
  lemma {:induction false} SpanBounds(edges: seq<U32>, i: nat)
    requires Spaced(edges) && i < Kept(edges)
    ensures MIN_PERIOD_US * i <= Span(edges, i) <= (TIMEOUT_MAX_US - 1) * i
    ensures i > 0 ==> Span(edges, i - 1) < Span(edges, i)
    decreases i
  {
    if i > 0 {
      hide Sub32;
      SpanBounds(edges, i - 1);
      var n := |edges|;
      var period := Sub32(edges[n - i], edges[n - i - 1]);
      assert MIN_PERIOD_US <= period < TIMEOUT_MAX_US;
      Sub32Adds(edges[n - 1 - i], edges[n - i], edges[n - 1]);
      AddPeriod(Span(edges, i - 1), period, i);
    }
  }

  lemma AddPeriod(span: nat, period: nat, i: nat)
    requires 1 <= i < SAMPLES && MIN_PERIOD_US <= period < TIMEOUT_MAX_US
    requires MIN_PERIOD_US * (i - 1) <= span <= (TIMEOUT_MAX_US - 1) * (i - 1)
    ensures (span + period) % M32 == span + period
    ensures MIN_PERIOD_US * i <= span + period <= (TIMEOUT_MAX_US - 1) * i
  {
  }

  lemma {:induction false} SpansGrow(edges: seq<U32>, i: nat, j: nat)
    requires Spaced(edges) && i <= j < Kept(edges)
    ensures Span(edges, i) <= Span(edges, j)
    decreases j
  {
    if i < j {
      SpanBounds(edges, j);
      SpansGrow(edges, i, j - 1);
    }
  }

  /** The result is an integer nearest to the quotient. */
  lemma NearestIsNearest(numerator: nat, denominator: nat)
    requires denominator > 0
    ensures -(denominator as int) <= 2 * (Nearest(numerator, denominator) * denominator - numerator) <= denominator
  {
    var sum := numerator + denominator / 2;
    assert sum == denominator * (sum / denominator) + sum % denominator;
  }

  lemma NearestAtLeast(numerator: nat, denominator: nat, low: nat)
    requires denominator > 0 && 2 * numerator >= (2 * low - 1) * denominator + 1
    ensures Nearest(numerator, denominator) >= low
  {
    NearestIsNearest(numerator, denominator);
    var r := Nearest(numerator, denominator);
    hide Nearest;
    MultipleIsFar(denominator, r - low);
    assert (2 * low - 1) * denominator == 2 * (low * denominator) - denominator;
    assert r * denominator == denominator * (r - low) + low * denominator;
  }

  lemma NearestAtMost(numerator: nat, denominator: nat, high: nat)
    requires denominator > 0 && 2 * numerator < (2 * high + 1) * denominator
    ensures Nearest(numerator, denominator) <= high
  {
    NearestIsNearest(numerator, denominator);
    var r := Nearest(numerator, denominator);
    hide Nearest;
    MultipleIsFar(denominator, r - high);
    assert (2 * high + 1) * denominator == 2 * (high * denominator) + denominator;
    assert r * denominator == denominator * (r - high) + high * denominator;
  }

  /** Every speed of plausible edges is plausible; nothing is divided by zero. */
  lemma SpeedInRange(edges: seq<U32>)
    requires Spaced(edges) && |edges| >= 2
    ensures LOWEST <= Speed(edges) <= HIGHEST
  {
    var p := Periods(edges, 1);
    var d := Span(edges, p) * PULSES;
    SpanBounds(edges, p);
    NearestAtLeast(MICROS_PER_MINUTE * p, d, LOWEST);
    NearestAtMost(MICROS_PER_MINUTE * p, d, HIGHEST);
  }

  lemma StepInv(s: State, ev: Event)
    requires Inv(s) && Admissible(s, ev)
    ensures Inv(Step(s, ev))
  {
    hide Speed, SignalTimeout;
    if ev.EvProcess? {
      var s' := Step(s, ev);
      if |s'.edges| >= 2 {
        SpeedInRange(s'.edges);
        SameCount(s.seen, s.total);
      }
    } else if s.edges != [] && !Lost(s, ev.now) {
      var last := s.edges[|s.edges| - 1];
      assert Sub32(ev.now, last) < s.timeout;
      TimeoutBounds(Sub32(ev.now, last));
    }
  }

  lemma TimeoutBounds(period: nat)
    ensures TIMEOUT_MIN_US <= SignalTimeout(period) <= TIMEOUT_MAX_US
  {
  }

  lemma SameCount(seen: nat, total: nat)
    requires seen <= total < seen + M32
    ensures total % M32 == seen % M32 <==> total == seen
  {
    TickDifference(seen, total);
    assert Sub32(Tick(total), Tick(seen)) == total - seen;
  }

  lemma {:induction false} RunInv(evs: seq<Event>, ss: seq<State>, k: nat)
    requires IsRun(evs, ss) && k < |ss|
    ensures Inv(ss[k])
    decreases k
  {
    hide Step, Inv, Admissible;
    if k == 0 {
      BeginInv();
    } else {
      var ev := evs[k - 1];
      RunInv(evs, ss, k - 1);
      StepInv(ss[k - 1], ev);
    }
  }

  lemma BeginInv()
    ensures Inv(START)
  {
  }

  // ---- main results --------------------------------------------------------------------------------

  /** In every state neighbouring edges are 94 us to under 500 ms apart, modulo
      the counter, and the timeout is between 20 and 500 ms. */
  lemma EdgesArePlausible(evs: seq<Event>, ss: seq<State>, k: nat)
    requires IsRun(evs, ss) && k < |ss|
    ensures forall i {:trigger ss[k].edges[i]} :: 1 <= i < |ss[k].edges| ==>
              94 <= Sub32(ss[k].edges[i], ss[k].edges[i - 1]) < 500000
    ensures 20000 <= ss[k].timeout <= 500000
  {
    RunInv(evs, ss, k);
  }

  /** Every published speed is 0 or 4..19947. */
  lemma PublishedInRange(evs: seq<Event>, ss: seq<State>, k: nat)
    requires IsRun(evs, ss) && k < |ss|
    ensures ss[k].rpm == 0 || 4 <= ss[k].rpm <= 19947
  {
    RunInv(evs, ss, k);
  }

  /** After every call of the processing the published speed is the one of the edges
      kept: 0 below two edges; otherwise the integer nearest to
      60e6 * periods / (32 * elapsed), where the periods are the longest suffix of
      the ring within 25 ms, or one period if even two are longer. */
  lemma PublishedIsMean(evs: seq<Event>, ss: seq<State>, k: nat)
    requires IsRun(evs, ss) && k < |evs| && evs[k].EvProcess?
    ensures var s := ss[k + 1];
            && (|s.edges| < 2 <==> s.rpm == 0)
            && (|s.edges| >= 2 ==>
                  var p := Periods(s.edges, 1);
                  var d := Span(s.edges, p) * 32;
                  && d > 0 && 1 <= p < Min(|s.edges|, 9)
                  && (p == 1 || Span(s.edges, p) <= 25000)
                  && (forall q :: p < q < Min(|s.edges|, 9) ==> Span(s.edges, q) > 25000)
                  && -(d as int) <= 2 * (s.rpm * d - 60000000 * p) <= d)
  {
    hide Step, Speed;
    RunInv(evs, ss, k + 1);
    var ev := evs[k];
    var s := ss[k + 1];
    ProcessSeesAll(ss[k], ev.now);
    if |s.edges| >= 2 {
      SpeedInRange(s.edges);
      var p := Periods(s.edges, 1);
      SpanBounds(s.edges, p);
      SpeedIsNearest(s.edges);
      forall q | p < q < Kept(s.edges) ensures Span(s.edges, q) > WINDOW_US {
        SpansGrow(s.edges, p + 1, q);
      }
    }
  }

  lemma ProcessSeesAll(s: State, now: U32)
    ensures Step(s, EvProcess(now)).seen == Step(s, EvProcess(now)).total
    ensures |Step(s, EvProcess(now)).edges| < 2 ==> Step(s, EvProcess(now)).rpm == 0
  {
  }

  lemma SpeedIsNearest(edges: seq<U32>)
    requires |edges| >= 2 && Span(edges, Periods(edges, 1)) > 0
    ensures var p := Periods(edges, 1);
            var d := Span(edges, p) * PULSES;
            -(d as int) <= 2 * (Speed(edges) * d - MICROS_PER_MINUTE * p) <= d
  {
    var p := Periods(edges, 1);
    NearestIsNearest(MICROS_PER_MINUTE * p, Span(edges, p) * PULSES);
  }

  // ---- the ring ----------------------------------------------------------------------------------------

  /** The ring holds the latest edges, the newest at `latest`, edge k at k modulo 9. */
  ghost predicate RingHolds(stamps: seq<U32>, latest: nat, count: nat, edges: seq<U32>) {
    && |stamps| == SAMPLES && latest < SAMPLES
    && count == Kept(edges)
    && (edges != [] ==> latest == (|edges| - 1) % SAMPLES)
    && (forall k {:trigger edges[k]} :: |edges| - count <= k < |edges| ==> stamps[k % SAMPLES] == edges[k])
  }

  /** An edge put at the next place keeps the ring the latest edges. */
  lemma RingPush(stamps: seq<U32>, latest: nat, count: nat, edges: seq<U32>, now: U32)
    requires RingHolds(stamps, latest, count, edges) && edges != []
    ensures var next := if latest + 1 < SAMPLES then latest + 1 else 0;
            RingHolds(stamps[next := now], next, if count < SAMPLES then count + 1 else count, edges + [now])
  {
    var next := if latest + 1 < SAMPLES then latest + 1 else 0;
    var all, n := edges + [now], |edges|;
    assert next == n % SAMPLES;
    forall k {:trigger all[k]} | n + 1 - Kept(all) <= k < n ensures stamps[next := now][k % SAMPLES] == all[k] {
      assert stamps[k % SAMPLES] == edges[k];
      DifferentPlace(k, n);
    }
  }

  lemma DifferentPlace(k: nat, n: nat)
    requires k < n < k + SAMPLES
    ensures k % SAMPLES != n % SAMPLES
  {
  }

  /** One place back in the ring is one edge back. */
  lemma RingBack(stamps: seq<U32>, latest: nat, count: nat, edges: seq<U32>, i: nat, index: nat)
    requires RingHolds(stamps, latest, count, edges) && 1 <= i < count
    requires index == (|edges| - i) % SAMPLES
    ensures var back := if index == 0 then SAMPLES - 1 else index - 1;
            && back == (|edges| - 1 - i) % SAMPLES
            && stamps[back] == edges[|edges| - 1 - i]
  {
    assert edges[|edges| - 1 - i] == stamps[(|edges| - 1 - i) % SAMPLES];
  }

  class Rpm {
    var timestamps: array<U32>
    var latest: nat
    var count: nat
    var timeoutUs: U32
    var sequence: U32
    var processedSequence: U32
    var rpmValue: nat
    ghost var view: State

    ghost predicate Valid()
      reads this, timestamps
    {
      && timestamps.Length == SAMPLES
      && RingHolds(timestamps[..], latest, count, view.edges)
      && timeoutUs == view.timeout
      && sequence == view.total % M32
      && processedSequence == view.seen % M32
      && rpmValue == view.rpm
    }

    constructor ()
      ensures Valid() && view == START && fresh(timestamps)
    {
      timestamps := new U32[SAMPLES];
      latest, count, timeoutUs, sequence, processedSequence, rpmValue := 0, 0, TIMEOUT_MAX_US, 0, 0, 0;
      view := START;
    }

    method Interrupt(now: U32)
      requires Valid()
      modifies this`latest, this`count, this`timeoutUs, this`sequence, this`view, timestamps
      ensures Valid() && view == Edge(old(view), now)
    {
      hide SignalTimeout, Elapsed, RingHolds;
      var accepted := true;
      if count != 0 {
        LatestEdge(timestamps[..], latest, count, view.edges);
        var last := timestamps[latest];
        if Elapsed(now, last, timeoutUs) {
          count := 0;
        } else if Elapsed(now, last, MIN_PERIOD_US) {
          timeoutUs := SignalTimeout(Sub32(now, last));
        } else {
          accepted := false;
        }
      } else {
        RingEmpty(timestamps[..], latest, view.edges);
      }
      view := Edge(view, now);
      if accepted {
        if count == 0 {
          latest := 0;
          timeoutUs := TIMEOUT_MAX_US;
          RingStarts(timestamps[..], now);
        } else {
          RingPush(timestamps[..], latest, count, old(view).edges, now);
          var next := latest + 1;
          latest := if next < SAMPLES then next else 0;
        }
        timestamps[latest] := now;
        if count < SAMPLES {
          count := count + 1;
        }
        NextTick(old(view).total);
        sequence := Add32(sequence, 1);
      }
    }

    method Process(now: U32)
      requires Valid()
      modifies this`count, this`processedSequence, this`rpmValue, this`view
      ensures Valid() && view == Step(old(view), EvProcess(now))
    {
      hide Elapsed, Speed, Spaced;
      if count != 0 {
        LatestEdge(timestamps[..], latest, count, view.edges);
        if Elapsed(now, timestamps[latest], timeoutUs) {
          count := 0;
        }
      }
      ghost var edges := if Lost(view, now) then [] else view.edges;
      assert RingHolds(timestamps[..], latest, count, edges);
      if count < 2 {
        rpmValue := 0;
      } else if sequence != processedSequence {
        rpmValue := Average(edges);
      }
      processedSequence := sequence;
      view := Step(view, EvProcess(now));
    }

    /** The averaging loop: back from the latest edge while within 25 ms. */
    method Average(ghost edges: seq<U32>) returns (rpm: nat)
      requires timestamps.Length == SAMPLES && RingHolds(timestamps[..], latest, count, edges) && count >= 2
      ensures rpm == Speed(edges)
    {
      LatestEdge(timestamps[..], latest, count, edges);
      var last := timestamps[latest];
      var elapsed: U32, periods := 0, 0;
      var index, i := latest, 1;
      while i < count
        invariant 1 <= i <= count && index == (|edges| - i) % SAMPLES
        invariant periods == i - 1
        invariant periods > 0 ==> elapsed == Span(edges, periods) && Periods(edges, 1) == Periods(edges, periods)
      {
        RingBack(timestamps[..], latest, count, edges, i, index);
        index := if index == 0 then SAMPLES - 1 else index - 1;
        var span := Sub32(last, timestamps[index]);
        if i > 1 && span > WINDOW_US {
          break;
        }
        elapsed := span;
        periods := i;
        i := i + 1;
      }
      rpm := Nearest(MICROS_PER_MINUTE * periods, elapsed * PULSES);
    }
  }

  lemma RingStarts(stamps: seq<U32>, now: U32)
    requires |stamps| == SAMPLES
    ensures RingHolds(stamps[0 := now], 0, 1, [now])
  {
  }

  lemma RingEmpty(stamps: seq<U32>, latest: nat, edges: seq<U32>)
    requires RingHolds(stamps, latest, 0, edges)
    ensures edges == []
  {
  }

  lemma LatestEdge(stamps: seq<U32>, latest: nat, count: nat, edges: seq<U32>)
    requires RingHolds(stamps, latest, count, edges) && count != 0
    ensures edges != [] && stamps[latest] == edges[|edges| - 1] && latest == (|edges| - 1) % SAMPLES && count == Kept(edges)
  {
    assert edges[|edges| - 1] == stamps[(|edges| - 1) % SAMPLES];
  }
}
