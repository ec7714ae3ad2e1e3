/**
 * From the sensor to the speed: which edges count, that a steady engine reads its
 * own speed and a stopped one zero.
 */
module RpmSpeed {
  import opened Words
  import opened RpmCapture

  // ---- which edges count -------------------------------------------------------------------

  /** Three times the latest period, between 20 and 500 ms; 500 ms after one edge. */
  function Patience(edges: seq<U32>): nat
    requires edges != []
  {
    if |edges| == 1 then 500000
    else
      var period := Sub32(edges[|edges| - 1], edges[|edges| - 2]);
      if 3 * period < 20000 then 20000 else if 3 * period > 500000 then 500000 else 3 * period
  }

  lemma StepPatience(s: State, ev: Event)
    requires s.edges != [] ==> s.timeout == Patience(s.edges)
    ensures var s1 := Step(s, ev); s1.edges != [] ==> s1.timeout == Patience(s1.edges)
  {
    hide Speed, Elapsed;
  }

  lemma {:induction false} RunPatience(evs: seq<Event>, ss: seq<State>, k: nat)
    requires IsRun(evs, ss) && k < |ss|
    ensures ss[k].edges != [] ==> ss[k].timeout == Patience(ss[k].edges)
    decreases k
  {
    hide Step, Patience;
    if k > 0 {
      var ev := evs[k - 1];
      RunPatience(evs, ss, k - 1);
      StepPatience(ss[k - 1], ev);
    }
  }

  /** What an edge does, in every run: the first edge after a silence of the patience
      or longer starts afresh, one closer than 94 us is dropped, any other is the
      next of the row. */
  lemma EdgeCounts(evs: seq<Event>, ss: seq<State>, k: nat)
    requires IsRun(evs, ss) && |ss| == |evs| + 1 && k < |evs| && evs[k].EvEdge?
    ensures var (edges, now) := (ss[k].edges, evs[k].now);
            ss[k + 1].edges ==
            if edges == [] then [now]
            else
              var gap := Sub32(now, edges[|edges| - 1]);
              if gap >= Patience(edges) then [now] else if gap < 94 then edges else edges + [now]
  {
    hide Speed, Patience;
    RunPatience(evs, ss, k);
    var ev := evs[k];
  }

  /** A pass of the processing forgets the row exactly if the latest edge is as old as
      the patience; then, and with one edge only, the speed is 0. */
  lemma PassForgets(evs: seq<Event>, ss: seq<State>, k: nat)
    requires IsRun(evs, ss) && |ss| == |evs| + 1 && k < |evs| && evs[k].EvProcess?
    ensures var edges := ss[k].edges;
            var lost := edges != [] && Sub32(evs[k].now, edges[|edges| - 1]) >= Patience(edges);
            && ss[k + 1].edges == (if lost then [] else edges)
            && (lost || |edges| < 2 ==> ss[k + 1].rpm == 0)
  {
    hide Speed, Patience;
    RunPatience(evs, ss, k);
    var ev := evs[k];
  }

  // ---- a stopped engine ----------------------------------------------------------------------

  /** The counter shows true times that never go back. */
  ghost predicate Timed(evs: seq<Event>, ts: seq<nat>) {
    && |ts| == |evs|
    && (forall k :: 0 <= k < |evs| ==> evs[k].now == Tick(ts[k]))
    && (forall j, k :: 0 <= j < k < |evs| ==> ts[j] <= ts[k])
  }

  lemma {:induction false} RowStands(evs: seq<Event>, ss: seq<State>, j: nat, k: nat)
    requires IsRun(evs, ss) && |ss| == |evs| + 1 && j < k <= |evs|
    requires forall n :: j < n < k && evs[n].EvEdge? ==> ss[n + 1].edges == ss[n].edges
    ensures ss[k].edges == [] || ss[k].edges == ss[j + 1].edges
    decreases k
  {
    hide IsRun, Step, Patience;
    if j + 1 < k {
      RowStands(evs, ss, j, k - 1);
      if evs[k - 1].EvProcess? {
        PassForgets(evs, ss, k - 1);
      }
    }
  }

  /** In every run, once half a second of true time has passed since the latest edge
      that counted, and not yet a wrap of the counter, a pass publishes 0. */
  lemma StoppedEngineReadsZero(evs: seq<Event>, ts: seq<nat>, ss: seq<State>, j: nat, k: nat)
    requires IsRun(evs, ss) && |ss| == |evs| + 1 && Timed(evs, ts) && j < k < |evs| && evs[k].EvProcess?
    requires evs[j].EvEdge? && ss[j + 1].edges != [] && ss[j + 1].edges[|ss[j + 1].edges| - 1] == evs[j].now
    requires forall n :: j < n < k && evs[n].EvEdge? ==> ss[n + 1].edges == ss[n].edges
    requires 500000 <= ts[k] - ts[j] < M32
    ensures ss[k + 1].rpm == 0 && ss[k + 1].edges == []
  {
    hide Step, IsRun, Patience;
    PassForgets(evs, ss, k);
    RowStands(evs, ss, j, k);
    if ss[k].edges != [] {
      TickDifference(ts[j], ts[k]);
      PatienceBounds(ss[k].edges);
    }
  }

  lemma PatienceBounds(edges: seq<U32>)
    requires edges != []
    ensures 20000 <= Patience(edges) <= 500000
  {
  }

  // ---- a steady engine -------------------------------------------------------------------------

  /** Edges one period apart, from event a on, n of them. */
  ghost predicate Steady(evs: seq<Event>, a: nat, n: nat, period: nat) {
    && a + n <= |evs|
    && (forall i :: a <= i < a + n ==> evs[i].EvEdge?)
    && (forall i, j :: a <= i < j == i + 1 < a + n ==> evs[j].now == (evs[i].now + period) % M32)
  }

  /** The last m + 1 edges of the row are a period apart each. */
  ghost predicate Row(edges: seq<U32>, m: nat, period: nat) {
    && m < |edges|
    && (forall i, j {:trigger edges[i], edges[j]} :: |edges| - 1 - m <= i < j == i + 1 < |edges| ==>
          Sub32(edges[j], edges[i]) == period)
  }

  lemma OnePeriod(a: U32, period: nat)
    requires period < M32
    ensures Sub32((a + period) % M32, a) == period
  {
    var b: U32 := (a + period) % M32;
    assert b == a + period || b == a + period - M32;
  }

  lemma RowGrows(edges: seq<U32>, m: nat, period: nat, now: U32)
    requires Row(edges, m, period) && Sub32(now, edges[|edges| - 1]) == period
    ensures Row(edges + [now], m + 1, period)
  {
    var all := edges + [now];
    forall i, j {:trigger all[i], all[j]} | |all| - 1 - (m + 1) <= i < j == i + 1 < |all|
      ensures Sub32(all[j], all[i]) == period
    {
      if j < |edges| {
        assert all[i] == edges[i] && all[j] == edges[j];
      }
    }
  }

  /** From the second edge on the latest of the row is the latest that came, and from
      the fourth on every edge lengthens the row of steady ones. */
  lemma {:induction false} SteadyRow(evs: seq<Event>, ss: seq<State>, a: nat, n: nat, period: nat)
    requires IsRun(evs, ss) && |ss| == |evs| + 1 && Steady(evs, a, n, period) && 94 <= period < 500000 && n >= 2
    ensures var edges := ss[a + n].edges;
            && edges != [] && edges[|edges| - 1] == evs[a + n - 1].now
            && (n >= 3 ==> Row(edges, n - 3, period) && period < Patience(edges))
    decreases n
  {
    hide IsRun, Step;
    var k := a + n - 1;
    EdgeCounts(evs, ss, k);
    OnePeriod(evs[k - 1].now, period);
    if n == 2 {
      SecondEdge(evs, ss, a, period);
    } else {
      SteadyRow(evs, ss, a, n - 1, period);
      var edges := ss[k].edges;
      assert Sub32(evs[k].now, edges[|edges| - 1]) == period;
      if n > 3 {
        RowGrows(edges, n - 4, period, evs[k].now);
      }
    }
  }

  lemma SecondEdge(evs: seq<Event>, ss: seq<State>, a: nat, period: nat)
    requires IsRun(evs, ss) && |ss| == |evs| + 1 && Steady(evs, a, 2, period) && 94 <= period < 500000
    ensures var edges := ss[a + 2].edges; edges != [] && edges[|edges| - 1] == evs[a + 1].now
  {
    hide IsRun, Step;
    EdgeCounts(evs, ss, a);
    EdgeCounts(evs, ss, a + 1);
  }

  lemma SpanStep(edges: seq<U32>, i: nat)
    requires 1 <= i < |edges|
    ensures Span(edges, i) ==
            (Span(edges, i - 1) + Sub32(edges[|edges| - i], edges[|edges| - 1 - i])) % M32
  {
    hide Sub32;
    Sub32Adds(edges[|edges| - 1 - i], edges[|edges| - i], edges[|edges| - 1]);
  }

  lemma RowPeriod(edges: seq<U32>, m: nat, period: nat, i: nat)
    requires Row(edges, m, period) && 1 <= i <= m
    ensures Sub32(edges[|edges| - i], edges[|edges| - 1 - i]) == period
  {
  }

  lemma {:induction false} SteadySpan(edges: seq<U32>, m: nat, period: nat, i: nat)
    requires Row(edges, m, period) && i <= m && i < SAMPLES && m < |edges| && period < 500000
    ensures Span(edges, i) == i * period
    decreases i
  {
    hide Row, Span;
    if i == 0 {
      NoSpan(edges);
    } else {
      SteadySpan(edges, m, period, i - 1);
      RowPeriod(edges, m, period, i);
      SpanStep(edges, i);
      SmallSpan(i, period);
    }
  }

  lemma NoSpan(edges: seq<U32>)
    requires edges != []
    ensures Span(edges, 0) == 0
  {
  }

  lemma SmallSpan(i: nat, period: nat)
    requires 1 <= i < SAMPLES && period < 500000
    ensures ((i - 1) * period + period) % M32 == i * period
  {
    assert (i - 1) * period + period == i * period;
    assert i * period <= 8 * period;
  }

  /** Averaging p equal periods is averaging one. */
  lemma EqualPeriods(p: nat, period: nat)
    requires p > 0 && period > 0
    ensures p * period * 32 > 0
    ensures Nearest(60000000 * p, p * period * 32) == (60000000 + 16 * period) / (32 * period)
  {
    var d := 32 * period;
    var q, r := (60000000 + 16 * period) / d, (60000000 + 16 * period) % d;
    assert p * period * 32 == p * d && p * d / 2 == p * (16 * period) by {
      DivisionUnique(p * d, 2, p * (16 * period), 0);
    }
    assert 60000000 * p + p * (16 * period) == p * (d * q + r) == (p * d) * q + p * r;
    Below(p, r, d);
    DivisionUnique(60000000 * p + p * (16 * period), p * d, q, p * r);
  }

  lemma Below(p: nat, r: nat, d: nat)
    requires p > 0 && r < d
    ensures 0 <= p * r < p * d
  {
  }

  lemma RowReads(edges: seq<U32>, period: nat)
    requires Row(edges, 8, period) && |edges| > 8 && 94 <= period < 500000
    ensures var p := Periods(edges, 1);
            Nearest(60000000 * p, Span(edges, p) * 32) == (60000000 + 16 * period) / (32 * period)
  {
    hide Row, Span, Nearest;
    var p := Periods(edges, 1);
    SteadySpan(edges, 8, period, p);
    EqualPeriods(p, period);
  }

  /** An engine whose sensor gives eleven edges a period apart reads, at the next pass
      in time, 60 s over 32 periods to the nearest integer: its own speed, whatever
      came before and however many of the periods are averaged. */
  lemma SteadyEngineReadsItsSpeed(evs: seq<Event>, ss: seq<State>, a: nat, period: nat)
    requires IsRun(evs, ss) && |ss| == |evs| + 1 && a + 11 < |evs|
    requires Steady(evs, a, 11, period) && 94 <= period < 500000
    requires evs[a + 11].EvProcess? && Sub32(evs[a + 11].now, evs[a + 10].now) <= period
    ensures ss[a + 12].rpm == (60000000 + 16 * period) / (32 * period)
  {
    hide IsRun, Step, Patience, Nearest, Steady, Row, Periods, Span, Sub32, Spaced;
    var k := a + 11;
    SteadyRow(evs, ss, a, 11, period);
    PassForgets(evs, ss, k);
    RowIsLong(ss[k].edges, period);
    ReadsRow(evs, ss, k);
    RowReads(ss[k].edges, period);
  }

  lemma RowIsLong(edges: seq<U32>, period: nat)
    requires Row(edges, 8, period)
    ensures |edges| > 8
  {
  }

  lemma ReadsRow(evs: seq<Event>, ss: seq<State>, k: nat)
    requires IsRun(evs, ss) && |ss| == |evs| + 1 && k < |evs| && evs[k].EvProcess? && |ss[k + 1].edges| >= 2
    ensures var edges := ss[k + 1].edges;
            var p := Periods(edges, 1);
            ss[k + 1].rpm == Nearest(MICROS_PER_MINUTE * p, Span(edges, p) * PULSES) && Spaced(edges)
  {
    hide Step, Periods, Span, Nearest;
    RunInv(evs, ss, k + 1);
    var ev := evs[k];
    ProcessSeesAll(ss[k], ev.now);
  }
}
