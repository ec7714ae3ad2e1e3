/**
 * The sensor's other half: the dead band opens and closes exactly when it should,
 * and a steady signal becomes a ready baseline in time.
 */
module BaselineRuns {
  import opened Options
  import opened Words
  import opened Baseline

  // ---- the steps of the filters ----------------------------------------------------------

  /** A window moves the filtered frequency a quarter of the way, rounded down, but at
      least one hertz. */
  lemma EmaMovesAQuarter(raw: Hz, filtered: Hz)
    requires filtered != 0
    ensures var d := raw - filtered;
            Ema(raw, filtered) - filtered == if 0 < d < 4 then 1 else d / 4
  {
    FloorShiftIsFloor(raw - filtered);
  }

  lemma TrackMovesAQuarter(estimate: Hz, filtered: Hz)
    ensures Track(estimate, filtered) - estimate == (filtered - estimate) / 4
  {
    FloorShiftIsFloor(filtered - estimate);
  }

  // ---- the dead band -----------------------------------------------------------------------

  /** Eight deviations up to the first n are of one sign and 50 Hz or more, and none
      after them is 40 Hz or less. */
  ghost predicate OpenedBy(past: seq<int>, n: nat) {
    && 8 <= n <= |past|
    && OneSided(past[..n], 8, Sign(past[n - 1]))
    && (forall j :: n <= j < |past| ==> Abs(past[j]) > 40)
  }

  ghost predicate Opened(past: seq<int>) { exists n: nat :: OpenedBy(past, n) }

  /** The row of one sign and 50 Hz or more the deviations end with. */
  function Row(past: seq<int>): (n: nat)
    ensures n <= |past|
  {
    if past == [] || Abs(past[|past| - 1]) < 50 then 0
    else
      var before := past[..|past| - 1];
      if before != [] && Sign(before[|before| - 1]) == Sign(past[|past| - 1]) then Row(before) + 1 else 1
  }

  lemma {:induction false} RowIsOneSided(past: seq<int>, n: nat)
    requires past != [] && n <= |past|
    ensures OneSided(past, n, Sign(past[|past| - 1])) <==> n <= Row(past)
    decreases |past|
  {
    var last := past[|past| - 1];
    var before := past[..|past| - 1];
    if n > 0 {
      if before != [] && n > 1 {
        RowIsOneSided(before, n - 1);
        if Sign(before[|before| - 1]) == Sign(last) {
          assert OneSided(past, n, Sign(last)) <==> OneSided(before, n - 1, Sign(last)) && Abs(last) >= 50;
        } else {
          assert past[|past| - 2] == before[|before| - 1];
        }
      }
    }
  }

  /** One more deviation opens the band, keeps it open, or closes it. */
  lemma OpenedStep(past: seq<int>, p: int)
    ensures var all := past + [p];
            Opened(all) <==> Abs(p) > 40 && (Opened(past) || Row(all) >= 8)
  {
    var all := past + [p];
    if n: nat :| OpenedBy(all, n) {
      if n < |all| {
        forall j | n <= j < |past| ensures Abs(past[j]) > 40 { assert all[j] == past[j]; }
        assert all[..n] == past[..n] && OpenedBy(past, n);
      } else {
        assert all[..n] == all;
        RowIsOneSided(all, 8);
      }
      assert Abs(p) > 40 by { assert all[|all| - 1] == p; }
    }
    if Abs(p) > 40 {
      if n: nat :| OpenedBy(past, n) {
        assert all[..n] == past[..n] && OpenedBy(all, n);
      }
      if Row(all) >= 8 {
        RowIsOneSided(all, 8);
        assert all[..|all|] == all;
        assert OpenedBy(all, |all|);
      }
    }
  }

  /** What is remembered of the deviations while the band is closed. */
  ghost predicate BandInv(m: Mem, past: seq<int>) {
    && (m.zeroHold <==> !Opened(past))
    && (m.zeroHold ==>
          && m.windows == Row(past) < 8
          && (m.windows > 0 ==> m.sign == Sign(past[|past| - 1])))
    && m.pulse == (if Opened(past) then past[|past| - 1] else 0)
  }

  lemma RowGrows(past: seq<int>, p: int)
    ensures Row(past + [p]) ==
            if Abs(p) < 50 then 0
            else if past != [] && Sign(past[|past| - 1]) == Sign(p) then Row(past) + 1 else 1
  {
    var all := past + [p];
    assert all[..|all| - 1] == past && all[|all| - 1] == p;
  }

  lemma BandStep(m: Mem, past: seq<int>, p: int)
    requires BandInv(m, past)
    requires m.sign == 0 || m.windows > 0
    ensures BandInv(Hold(m, p), past + [p])
    ensures Hold(m, p).sign == 0 || Hold(m, p).windows > 0
  {
    hide Opened, Row;
    OpenedStep(past, p);
    RowGrows(past, p);
    assert (past + [p])[|past|] == p;
  }

  lemma NoneOpened()
    ensures !Opened([]) && Row([]) == 0
  {
  }

  ghost predicate ReadyInv(s: State) {
    s.mem.ready ==> BandInv(s.mem, s.past) && (s.mem.sign == 0 || s.mem.windows > 0)
  }

  lemma StepBand(s: State, ev: Event)
    requires ReadyInv(s)
    ensures ReadyInv(Step(s, ev))
  {
    hide Opened, Row, Filtered, Elapsed, Near, Track, Hold, BandInv;
    if ev.Window? {
      var f := Filtered(s.mem, ev.raw, ev.averaged);
      if s.mem.ready {
        var m := s.mem.(filtered := f);
        SameBand(s.mem, m, s.past);
        BandStep(m, s.past, f - s.mem.baseline);
      } else if Step(s, ev).mem.ready {
        JustReady(Step(s, ev).mem);
      }
    }
  }

  lemma SameBand(m: Mem, m1: Mem, past: seq<int>)
    requires BandInv(m, past)
    requires m1 == m.(filtered := m1.filtered)
    ensures BandInv(m1, past)
  {
  }

  lemma JustReady(m: Mem)
    requires m.zeroHold && m.sign == 0 && m.windows == 0 && m.pulse == 0
    ensures BandInv(m, [])
  {
    NoneOpened();
  }

  lemma {:induction false} RunBand(evs: seq<Event>, ss: seq<State>, k: nat)
    requires IsRun(evs, ss) && k < |ss|
    ensures ReadyInv(ss[k])
    decreases k
  {
    hide Step, ReadyInv;
    if k == 0 {
      assert ss[0].mem == RESET;
      NotReady(ss[0]);
    } else {
      var ev := evs[k - 1];
      RunBand(evs, ss, k - 1);
      StepBand(ss[k - 1], ev);
    }
  }

  lemma NotReady(s: State)
    requires !s.mem.ready
    ensures ReadyInv(s)
  {
  }

  /** In every run of a ready sensor the published deviation is the one just judged
      exactly if eight in a row, of one sign and 50 Hz or more, have opened the dead
      band and none since was 40 Hz or less; otherwise it is 0. */
  lemma PulseIsExact(evs: seq<Event>, ss: seq<State>, k: nat)
    requires IsRun(evs, ss) && k < |ss| && ss[k].mem.ready
    ensures Opened(ss[k].past) ==> ss[k].past != [] && ss[k].mem.pulse == ss[k].past[|ss[k].past| - 1]
    ensures !Opened(ss[k].past) ==> ss[k].mem.pulse == 0
  {
    RunBand(evs, ss, k);
  }

  /** What is judged: each window's frequency against the final baseline. */
  lemma PastIsJudged(evs: seq<Event>, ss: seq<State>, k: nat)
    requires IsRun(evs, ss) && |ss| == |evs| + 1 && k < |evs| && evs[k].Window?
    ensures ss[k + 1].past ==
            if ss[k].mem.ready then ss[k].past + [evs[k].averaged - ss[k].mem.baseline] else []
  {
    hide Process;
    var ev := evs[k];
  }

  // ---- convergence and verification -----------------------------------------------------------

  predicate Starts(began: Option<nat>) { began.None? || Tick(began.value) == 0 }

  /** When the present convergence began: the first window after a loss or a reset, or
      the window that broke a verification. (A start at the counter's 0 is no start.) */
  function Began(evs: seq<Event>, ss: seq<State>, k: nat): Option<nat>
    requires |ss| == |evs| + 1 && k <= |evs|
  {
    if k == 0 then None
    else
      var (m, before) := (ss[k - 1].mem, Began(evs, ss, k - 1));
      match evs[k - 1]
      case Reset(_) => None
      case Discarded(_) => if m.ready then before else None
      case Window(t, _, _) =>
        if m.ready then before
        else if m.verifying then (if ss[k].mem.verifying then before else Some(t))
        else if Starts(before) then Some(t)
        else before
  }

  /** How many windows of it, up to the latest, were within 12 Hz of the estimate. */
  function Calm(evs: seq<Event>, ss: seq<State>, k: nat): (n: nat)
    requires |ss| == |evs| + 1 && k <= |evs|
  {
    if k == 0 then 0
    else
      var (m, before) := (ss[k - 1].mem, Calm(evs, ss, k - 1));
      match evs[k - 1]
      case Reset(_) => 0
      case Discarded(_) => if m.ready then before else 0
      case Window(t, raw, averaged) =>
        if m.ready then before
        else if m.verifying then (if ss[k].mem.verifying then before else 0)
        else if Starts(Began(evs, ss, k - 1)) then 0
        else if Near(Filtered(m, raw, averaged), ss[k].mem.estimate, 12) then before + 1
        else 0
  }

  predicate Remembers(m: Mem, began: Option<nat>, calm: nat) {
    !m.ready ==> m.startUs == (if began.Some? then Tick(began.value) else 0) && m.stable == calm
  }

  lemma StepRemembers(evs: seq<Event>, ss: seq<State>, k: nat)
    requires IsRun(evs, ss) && |ss| == |evs| + 1 && 0 < k <= |evs|
    requires Remembers(ss[k - 1].mem, Began(evs, ss, k - 1), Calm(evs, ss, k - 1))
    ensures Remembers(ss[k].mem, Began(evs, ss, k), Calm(evs, ss, k))
  {
    hide Ema, Track, Elapsed, IsRun;
    StepOfRun(evs, ss, k - 1);
    var ev := evs[k - 1];
  }

  lemma StepOfRun(evs: seq<Event>, ss: seq<State>, k: nat)
    requires IsRun(evs, ss) && k < |evs|
    ensures |ss| == |evs| + 1 && ss[k + 1] == Step(ss[k], evs[k])
  {
    var ev := evs[k];
  }

  lemma {:induction false} RunRemembers(evs: seq<Event>, ss: seq<State>, k: nat)
    requires IsRun(evs, ss) && |ss| == |evs| + 1 && k <= |evs|
    ensures Remembers(ss[k].mem, Began(evs, ss, k), Calm(evs, ss, k))
    ensures Began(evs, ss, k).Some? ==> k > 0 && Began(evs, ss, k).value <= evs[k - 1].t
    decreases k
  {
    hide Step, Remembers;
    if k == 0 {
      FreshRemembers();
    } else {
      RunRemembers(evs, ss, k - 1);
      StepRemembers(evs, ss, k);
      assert k > 1 ==> evs[k - 2].t <= evs[k - 1].t;
    }
  }

  lemma FreshRemembers()
    ensures Remembers(RESET, None, 0)
  {
  }

  /** In every run a window of the convergence locks a candidate exactly if 250 ms have
      passed since the convergence began, or 80 ms and the latest six windows were
      calm; by the counter. */
  lemma LocksExactly(evs: seq<Event>, ss: seq<State>, k: nat)
    requires IsRun(evs, ss) && |ss| == |evs| + 1 && k < |evs| && evs[k].Window?
    requires !ss[k].mem.ready && !ss[k].mem.verifying
    ensures Began(evs, ss, k + 1).Some? && Began(evs, ss, k + 1).value <= evs[k].t
    ensures var elapsed := (evs[k].t - Began(evs, ss, k + 1).value) % M32;
            ss[k + 1].mem.verifying <==> elapsed >= 250000 || (elapsed >= 80000 && Calm(evs, ss, k + 1) >= 6)
    ensures !ss[k + 1].mem.ready && (ss[k + 1].mem.verifying ==> ss[k + 1].mem.verifyStartUs == Tick(evs[k].t))
  {
    hide Ema, Track, Near, IsRun, Filtered;
    StepOfRun(evs, ss, k);
    RunRemembers(evs, ss, k);
    RunRemembers(evs, ss, k + 1);
    var ev := evs[k];
    TickDifference(Began(evs, ss, k + 1).value, ev.t);
  }

  /** In every run a window of the verification ends it exactly if a second has passed
      since the candidate was locked, and restarts the convergence exactly if it is
      more than 500 Hz off; by the counter. */
  lemma VerifiesExactly(evs: seq<Event>, ss: seq<State>, k: nat) returns (j: nat)
    requires IsRun(evs, ss) && |ss| == |evs| + 1 && k < |evs| && evs[k].Window?
    requires !ss[k].mem.ready && ss[k].mem.verifying
    ensures j < k && VerifiedSince(evs, ss, j, k) && evs[j].t <= evs[k].t
    ensures var near := Near(Filtered(ss[k].mem, evs[k].raw, evs[k].averaged), ss[j + 1].mem.baseline, 500);
            && (ss[k + 1].mem.ready <==> near && (evs[k].t - evs[j].t) % M32 >= 1000000)
            && (!near <==> !ss[k + 1].mem.verifying)
  {
    hide Ema, Track, Near, IsRun, VerifiedSince;
    StepOfRun(evs, ss, k);
    j := Verifying(evs, ss, k);
    SinceFacts(evs, ss, j, k);
    Ordered(evs, ss, j, k);
    TickDifference(evs[j].t, evs[k].t);
  }

  lemma Ordered(evs: seq<Event>, ss: seq<State>, j: nat, k: nat)
    requires IsRun(evs, ss) && j < k < |evs|
    ensures evs[j].t <= evs[k].t
  {
  }

  // ---- a steady signal -----------------------------------------------------------------------

  /** What a steady signal of frequency f has made of the memory after event i: still
      converging since event a, or verifying since event j, or ready. */
  ghost predicate SteadyMem(evs: seq<Event>, m: Mem, f: Hz, a: nat, i: nat, j: nat)
    requires a < i <= |evs|
  {
    && (m.ready ==> m.baseline == f)
    && (!m.ready ==> m.filtered == f && m.estimate == f && m.startUs == Tick(evs[a].t))
    && (!m.ready && !m.verifying ==> evs[i - 1].t - evs[a].t < 250000)
    && (!m.ready && m.verifying ==>
          && a <= j < i && m.baseline == f && m.verifyStartUs == Tick(evs[j].t)
          && (j > a ==> evs[j - 1].t - evs[a].t < 250000)
          && evs[i - 1].t - evs[j].t < 1000000)
  }

  lemma EmaOfSame(f: Hz)
    ensures Ema(f, f) == f && Ema(f, 0) == f && Track(f, f) == f
  {
  }

  /** A window of a steady signal after the first. */
  lemma SteadyStep(m: Mem, f: Hz, averaged: Hz, now: U32)
    requires !m.ready && m.filtered == f && m.estimate == f && m.startUs != 0 && (m.verifying ==> m.baseline == f)
    ensures var m1 := Process(m, f, averaged, now);
            && m1.filtered == f && m1.estimate == f && m1.startUs == m.startUs
            && (m1.ready || m1.verifying ==> m1.baseline == f)
            && (!m.verifying ==>
                  && !m1.ready && (Elapsed(now, m.startUs, 250000) ==> m1.verifying)
                  && (m1.verifying ==> m1.verifyStartUs == now))
            && (m.verifying ==>
                  && (m1.ready <==> Elapsed(now, m.verifyStartUs, 1000000))
                  && m1.verifying && m1.verifyStartUs == m.verifyStartUs)
  {
    EmaOfSame(f);
  }

  lemma FirstWindow(f: Hz, averaged: Hz, now: U32)
    requires now != 0
    ensures var m := Process(RESET, f, averaged, now);
            !m.ready && !m.verifying && m.filtered == f && m.estimate == f && m.startUs == now
  {
    hide Ema;
    EmaOfSame(f);
  }

  lemma {:induction false} SteadyRun(evs: seq<Event>, ss: seq<State>, f: Hz, a: nat, i: nat) returns (j: nat)
    requires IsRun(evs, ss) && |ss| == |evs| + 1 && a < i <= |evs| && ss[a].mem == RESET
    requires forall n :: a <= n < i ==> evs[n].Window? && evs[n].raw == f
    requires Tick(evs[a].t) != 0 && evs[i - 1].t - evs[a].t < M32
    ensures SteadyMem(evs, ss[i].mem, f, a, i, j)
    decreases i
  {
    hide IsRun, Process, Elapsed;
    StepOfRun(evs, ss, i - 1);
    var (m, ev) := (ss[i - 1].mem, evs[i - 1]);
    if i == a + 1 {
      FirstWindow(f, ev.averaged, Tick(ev.t));
      j := a;
    } else {
      Ordered(evs, ss, i - 2, i - 1);
      j := SteadyRun(evs, ss, f, a, i - 1);
      if m.ready {
        ReadyStays(m, f, ev.averaged, Tick(ev.t));
      } else {
        SteadyStep(m, f, ev.averaged, Tick(ev.t));
        Ordered(evs, ss, a, i - 1);
        ElapsedIsReal(evs[a].t, ev.t, 250000);
        if m.verifying {
          Ordered(evs, ss, j, i - 1);
          if a < j {
            Ordered(evs, ss, a, j);
          }
          ElapsedIsReal(evs[j].t, ev.t, 1000000);
        } else {
          j := i - 1;
        }
      }
    }
  }

  /** From a reset, a steady signal has a ready baseline of exactly its frequency by the
      first window that comes a second after the first one 250 ms into it. */
  lemma SteadySignalBecomesReady(evs: seq<Event>, ss: seq<State>, f: Hz, a: nat, m: nat, n: nat)
    requires IsRun(evs, ss) && |ss| == |evs| + 1 && a <= m < n < |evs| && ss[a].mem == RESET
    requires forall i :: a <= i <= n ==> evs[i].Window? && evs[i].raw == f
    requires Tick(evs[a].t) != 0 && evs[n].t - evs[a].t < M32
    requires evs[m].t - evs[a].t >= 250000 && evs[n].t - evs[m].t >= 1000000
    ensures ss[n + 1].mem.ready && ss[n + 1].mem.baseline == f
  {
    hide IsRun, Process;
    var j := SteadyRun(evs, ss, f, a, n + 1);
    if !ss[n + 1].mem.ready && ss[n + 1].mem.verifying && j > m {
      if m < j - 1 {
        Ordered(evs, ss, m, j - 1);
      }
    } else if !ss[n + 1].mem.ready && ss[n + 1].mem.verifying && j < m {
      Ordered(evs, ss, j, m);
    }
  }
}
