/**
 * The baseline of the position sensor: a fast convergence, a slow verification,
 * and the hysteresis that keeps small deviations at zero.
 */
module Baseline {
  import opened Words

  const MIN_TIME_US: nat := 80000
  const MAX_TIME_US: nat := 250000
  const VERIFY_US: nat := 1000000
  const TRACK_SHIFT: nat := 2
  const EMA_SHIFT: nat := 2
  const TOLERANCE_HZ: nat := 12
  const LOCK_WINDOWS: nat := 6
  const DRIFT_HZ: nat := 500
  const ENTER_HZ: nat := 40
  const EXIT_HZ: nat := 50
  const RELEASE_WINDOWS: nat := 8

  /** Frequencies small enough for the signed differences the code takes. */
  type Hz = x: int | 0 <= x < 0x4000_0000

  datatype Mem = Mem(
    filtered: Hz,
    startUs: U32,
    estimate: Hz,
    stable: nat,
    baseline: Hz,
    ready: bool,
    verifying: bool,
    verifyStartUs: U32,
    pulse: int,
    zeroHold: bool,
    sign: int,
    windows: nat)

  const RESET := Mem(0, 0, 0, 0, 0, false, false, 0, 0, true, 0, 0)

  // ---- arithmetic ---------------------------------------------------------------------------

  function Abs(x: int): nat { if x < 0 then -x else x }

  predicate Near(a: int, b: int, d: nat) { Abs(a - b) <= d }

  /** floorShift: C's division, corrected to round down. */
  function FloorShift(value: int, shift: nat): int
    requires shift == 2
  {
    var q := TruncDiv(value, 4);
    if value < 0 && TruncMod(value, 4) != 0 then q - 1 else q
  }

  lemma FloorShiftIsFloor(value: int)
    ensures 4 * FloorShift(value, 2) <= value < 4 * FloorShift(value, 2) + 4
  {
  }

  /** applyAdjustometerEma, as built with the drive-period filter. */
  function Ema(raw: Hz, filtered: Hz): (r: Hz)
    ensures Abs(raw - r) <= Abs(raw - filtered)
    ensures raw != filtered ==> Abs(raw - r) < Abs(raw - filtered)
    ensures filtered == 0 ==> r == raw
  {
    if filtered == 0 then raw
    else
      FloorShiftIsFloor(raw - filtered);
      var step := FloorShift(raw - filtered, EMA_SHIFT);
      filtered + (if step == 0 && raw != filtered then (if raw > filtered then 1 else -1) else step)
  }

  function Track(estimate: Hz, filtered: Hz): (r: Hz)
    ensures filtered <= estimate ==> filtered <= r <= estimate
    ensures estimate <= filtered ==> estimate <= r <= filtered
  {
    FloorShiftIsFloor(filtered - estimate);
    estimate + FloorShift(filtered - estimate, TRACK_SHIFT)
  }

  /** n windows of the same frequency. */
  function EmaRun(raw: Hz, filtered: Hz, n: nat): Hz
    decreases n
  {
    if n == 0 then filtered else EmaRun(raw, Ema(raw, filtered), n - 1)
  }

  /** No truncation stall: a constant input is reached exactly, within as many
      windows as it was hertz away. */
  lemma {:induction false} EmaReaches(raw: Hz, filtered: Hz, n: nat)
    requires n >= Abs(raw - filtered)
    ensures EmaRun(raw, filtered, n) == raw
    decreases n
  {
    if n > 0 {
      EmaReaches(raw, Ema(raw, filtered), n - 1);
    }
  }

  // ---- one window ------------------------------------------------------------------------------

  function Converge(m: Mem, filtered: Hz, now: U32): Mem {
    var m1 :=
      if m.startUs == 0 then m.(startUs := now, estimate := filtered, stable := 0)
      else
        var estimate := Track(m.estimate, filtered);
        m.(estimate := estimate, stable := if Near(filtered, estimate, TOLERANCE_HZ) then m.stable + 1 else 0);
    var elapsed := Sub32(now, m1.startUs);
    if (elapsed >= MIN_TIME_US && m1.stable >= LOCK_WINDOWS) || elapsed >= MAX_TIME_US then
      m1.(baseline := m1.estimate, filtered := m1.estimate, verifying := true, verifyStartUs := now)
    else m1
  }

  function Verify(m: Mem, filtered: Hz, now: U32): Mem {
    if !Near(filtered, m.baseline, DRIFT_HZ) then
      m.(verifying := false, startUs := now, estimate := filtered, filtered := filtered, stable := 0)
    else if Elapsed(now, m.verifyStartUs, VERIFY_US) then
      m.(baseline := m.estimate, filtered := m.estimate, pulse := 0, zeroHold := true, sign := 0, windows := 0, ready := true)
    else m.(estimate := Track(m.estimate, filtered))
  }

  function Sign(p: int): int { if p > 0 then 1 else -1 }

  function Hold(m: Mem, p: int): Mem {
    if Abs(p) <= ENTER_HZ then m.(pulse := 0, zeroHold := true, sign := 0, windows := 0)
    else if !m.zeroHold then m.(pulse := p)
    else if Abs(p) < EXIT_HZ then m.(pulse := 0, sign := 0, windows := 0)
    else
      var windows := if Sign(p) != m.sign then 1 else if m.windows < 255 then m.windows + 1 else m.windows;
      if windows < RELEASE_WINDOWS then m.(pulse := 0, sign := Sign(p), windows := windows)
      else m.(pulse := p, zeroHold := false, sign := 0, windows := 0)
  }

  /** The frequency a window is judged by; `averaged` is what the drive-period
      filter returned. */
  function Filtered(m: Mem, raw: Hz, averaged: Hz): Hz { if m.ready then averaged else Ema(raw, m.filtered) }

  /** processAdjustometerFrequency. */
  function Process(m: Mem, raw: Hz, averaged: Hz, now: U32): Mem {
    var f := Filtered(m, raw, averaged);
    var m1 := m.(filtered := f);
    if m.ready then Hold(m1, f - m.baseline)
    else (if m.verifying then Verify(m1, f, now) else Converge(m1, f, now)).(pulse := 0)
  }

  /** discardCaptureWindow. */
  function Discard(m: Mem): Mem {
    if m.ready then m else m.(startUs := 0, stable := 0, verifying := false)
  }

  // ---- runs -----------------------------------------------------------------------------------------

  datatype Event =
    | Window(t: nat, raw: Hz, averaged: Hz)
    | Discarded(t: nat)
    | Reset(t: nat)

  /** `past`: the deviations judged since the baseline is ready. */
  datatype State = State(mem: Mem, past: seq<int>)

  function Step(s: State, ev: Event): State {
    match ev
    case Window(t, raw, averaged) =>
      State(Process(s.mem, raw, averaged, Tick(t)),
            if s.mem.ready then s.past + [Filtered(s.mem, raw, averaged) - s.mem.baseline] else [])
    case Discarded(_) => State(Discard(s.mem), s.past)
    case Reset(_) => State(RESET, [])
  }

  ghost predicate IsRun(evs: seq<Event>, ss: seq<State>) {
    && |ss| == |evs| + 1
    && ss[0] == State(RESET, [])
    && (forall k {:trigger evs[k]} :: 0 <= k < |evs| ==> ss[k + 1] == Step(ss[k], evs[k]))
    && (forall i, j :: 0 <= i < j < |evs| ==> evs[i].t <= evs[j].t)
  }

  // ---- verification -----------------------------------------------------------------------------------

  /** At state k the verification of what was locked by event j is unbroken. */
  ghost predicate VerifiedSince(evs: seq<Event>, ss: seq<State>, j: nat, k: nat)
    requires j < k < |ss| && |ss| == |evs| + 1
  {
    var candidate := ss[j + 1].mem.baseline;
    && evs[j].Window? && !ss[j].mem.verifying
    && (forall i :: j < i <= k ==> ss[i].mem.verifying && !ss[i].mem.ready)
    && (forall i :: j < i < k ==> WindowNear(evs[i], ss[i], candidate))
    && ss[k].mem.baseline == candidate
    && Near(ss[k].mem.estimate, candidate, DRIFT_HZ)
    && ss[k].mem.verifyStartUs == Tick(evs[j].t)
    && (forall i :: j < i < k ==> evs[j].t <= evs[i].t)
  }

  predicate WindowNear(ev: Event, s: State, candidate: Hz) {
    ev.Window? && Near(Filtered(s.mem, ev.raw, ev.averaged), candidate, DRIFT_HZ)
  }

  /** One more window of an unbroken verification. */
  lemma VerifyStep(m: Mem, raw: Hz, averaged: Hz, now: U32)
    requires m.verifying && !m.ready && Near(m.estimate, m.baseline, DRIFT_HZ)
    ensures var m' := Process(m, raw, averaged, now);
            var near := Near(Filtered(m, raw, averaged), m.baseline, DRIFT_HZ);
            && (m'.ready <==> near && Elapsed(now, m.verifyStartUs, VERIFY_US))
            && (m'.ready ==> m'.baseline == m.estimate)
            && (m'.verifying && !m'.ready ==>
                  near && m'.baseline == m.baseline && m'.verifyStartUs == m.verifyStartUs
                  && Near(m'.estimate, m.baseline, DRIFT_HZ))
  {
    hide Ema, Track, Elapsed;
    var f := Filtered(m, raw, averaged);
    TrackBetween(m.estimate, f);
  }

  lemma TrackBetween(estimate: Hz, f: Hz)
    ensures f <= estimate ==> f <= Track(estimate, f) <= estimate
    ensures estimate <= f ==> estimate <= Track(estimate, f) <= f
  {
  }

  lemma LockStep(m: Mem, raw: Hz, averaged: Hz, now: U32)
    requires !m.verifying && !m.ready
    ensures var m' := Process(m, raw, averaged, now);
            && !m'.ready
            && (m'.verifying ==> m'.estimate == m'.baseline && m'.verifyStartUs == now)
  {
    hide Ema, Track, Near;
  }

  lemma {:induction false} Verifying(evs: seq<Event>, ss: seq<State>, k: nat) returns (j: nat)
    requires IsRun(evs, ss) && k < |ss| && ss[k].mem.verifying && !ss[k].mem.ready
    ensures j < k && VerifiedSince(evs, ss, j, k)
    decreases k
  {
    hide Process, Filtered, Near, VerifiedSince;
    var ev := evs[k - 1];
    var m := ss[k - 1].mem;
    assert ss[k] == Step(ss[k - 1], ev);
    assert ev.Window?;
    if m.verifying && !m.ready {
      j := Verifying(evs, ss, k - 1);
      SinceFacts(evs, ss, j, k - 1);
      VerifyStep(m, ev.raw, ev.averaged, Tick(ev.t));
      Extend(evs, ss, j, k);
    } else {
      ReadyStays(m, ev.raw, ev.averaged, Tick(ev.t));
      LockStep(m, ev.raw, ev.averaged, Tick(ev.t));
      j := k - 1;
      NearItself(ss[k].mem.baseline);
      JustLocked(evs, ss, j);
    }
  }

  lemma JustLocked(evs: seq<Event>, ss: seq<State>, j: nat)
    requires j + 1 < |ss| && |ss| == |evs| + 1 && evs[j].Window? && !ss[j].mem.verifying
    requires var m := ss[j + 1].mem;
             m.verifying && !m.ready && m.verifyStartUs == Tick(evs[j].t) && Near(m.estimate, m.baseline, DRIFT_HZ)
    ensures VerifiedSince(evs, ss, j, j + 1)
  {
  }

  lemma Extend(evs: seq<Event>, ss: seq<State>, j: nat, k: nat)
    requires j + 1 < k < |ss| && |ss| == |evs| + 1 && VerifiedSince(evs, ss, j, k - 1)
    requires ss[k].mem.verifying && !ss[k].mem.ready && ss[k].mem.baseline == ss[k - 1].mem.baseline
    requires Near(ss[k].mem.estimate, ss[k].mem.baseline, DRIFT_HZ)
    requires ss[k].mem.verifyStartUs == ss[k - 1].mem.verifyStartUs && evs[j].t <= evs[k - 1].t
    requires WindowNear(evs[k - 1], ss[k - 1], ss[k - 1].mem.baseline)
    ensures VerifiedSince(evs, ss, j, k)
  {
    hide Near, WindowNear;
  }

  lemma NearItself(a: Hz)
    ensures Near(a, a, DRIFT_HZ)
  {
  }

  /** A ready baseline does not change with the windows. */
  lemma ReadyStays(m: Mem, raw: Hz, averaged: Hz, now: U32)
    ensures m.ready ==> Process(m, raw, averaged, now).ready && Process(m, raw, averaged, now).baseline == m.baseline
  {
  }

  // ---- main results ----------------------------------------------------------------------------------------

  /** The baseline becomes ready only after an unbroken verification of at least a
      second of true time: every event since the candidate was locked was a window
      within 500 Hz of it, so was the last one, and the final baseline is too. */
  lemma ReadyIsVerified(evs: seq<Event>, ss: seq<State>, k: nat) returns (j: nat)
    requires IsRun(evs, ss) && k < |evs| && !ss[k].mem.ready && ss[k + 1].mem.ready
    ensures j < k && VerifiedSince(evs, ss, j, k)
    ensures var candidate := ss[j + 1].mem.baseline;
            && WindowNear(evs[k], ss[k], candidate)
            && Near(ss[k + 1].mem.baseline, candidate, 500)
            && evs[k].t - evs[j].t >= 1000000
  {
    hide Process, Filtered, Near, VerifiedSince;
    var ev := evs[k];
    assert ss[k + 1] == Step(ss[k], ev);
    if !ss[k].mem.verifying {
      LockStep(ss[k].mem, ev.raw, ev.averaged, Tick(ev.t));
    }
    j := Verifying(evs, ss, k);
    SinceFacts(evs, ss, j, k);
    VerifyStep(ss[k].mem, ev.raw, ev.averaged, Tick(ev.t));
    ElapsedIsReal(evs[j].t, ev.t, VERIFY_US);
  }

  lemma SinceFacts(evs: seq<Event>, ss: seq<State>, j: nat, k: nat)
    requires j < k < |ss| && |ss| == |evs| + 1 && VerifiedSince(evs, ss, j, k)
    ensures ss[k].mem.baseline == ss[j + 1].mem.baseline && ss[k].mem.verifyStartUs == Tick(evs[j].t)
    ensures Near(ss[k].mem.estimate, ss[k].mem.baseline, DRIFT_HZ)
  {
  }

  /** Once ready, the baseline is the same in every later state before a reset. */
  lemma {:induction false} BaselineIsFinal(evs: seq<Event>, ss: seq<State>, i: nat, k: nat)
    requires IsRun(evs, ss) && i <= k < |ss| && ss[i].mem.ready
    requires forall n :: i <= n < k ==> !evs[n].Reset?
    ensures ss[k].mem.ready && ss[k].mem.baseline == ss[i].mem.baseline
    decreases k
  {
    hide Step;
    if i < k {
      BaselineIsFinal(evs, ss, i, k - 1);
      var ev := evs[k - 1];
      assert ss[k] == Step(ss[k - 1], ev);
      StepKeepsReady(ss[k - 1], ev);
    }
  }

  lemma StepKeepsReady(s: State, ev: Event)
    requires s.mem.ready && !ev.Reset?
    ensures Step(s, ev).mem.ready && Step(s, ev).mem.baseline == s.mem.baseline
  {
    hide Process;
    if ev.Window? {
      ReadyStays(s.mem, ev.raw, ev.averaged, Tick(ev.t));
    }
  }

  // ---- the dead band -------------------------------------------------------------------------------------------

  /** The latest n deviations are all of one sign and at least EXIT_HZ. */
  ghost predicate OneSided(past: seq<int>, n: nat, sign: int) {
    n <= |past| && forall i :: |past| - n <= i < |past| ==> Sign(past[i]) == sign && Abs(past[i]) >= 50
  }

  ghost predicate HoldInv(s: State) {
    var m := s.mem;
    && (m.pulse == 0 || (m.ready && Abs(m.pulse) > ENTER_HZ))
    && (m.ready ==> (m.zeroHold <==> m.pulse == 0))
    && (m.ready && m.zeroHold ==> m.windows < RELEASE_WINDOWS && OneSided(s.past, m.windows, m.sign))
  }

  lemma HoldStep(m: Mem, past: seq<int>, p: int)
    requires m.ready && HoldInv(State(m, past))
    ensures HoldInv(State(Hold(m, p), past + [p]))
    ensures m.pulse == 0 && Hold(m, p).pulse != 0 ==> OneSided(past + [p], RELEASE_WINDOWS, Sign(p))
  {
    var all := past + [p];
    assert forall i :: 0 <= i < |past| ==> all[i] == past[i];
  }

  lemma StepHold(s: State, ev: Event)
    requires HoldInv(s)
    ensures HoldInv(Step(s, ev))
    ensures s.mem.pulse == 0 && Step(s, ev).mem.pulse != 0 ==>
              OneSided(Step(s, ev).past, RELEASE_WINDOWS, Sign(Step(s, ev).mem.pulse))
  {
    hide Filtered, Elapsed;
    if ev.Window? && s.mem.ready {
      hide Hold, HoldInv, OneSided;
      var f := Filtered(s.mem, ev.raw, ev.averaged);
      HoldFrame(s.mem, f, s.past);
      HoldStep(s.mem.(filtered := f), s.past, f - s.mem.baseline);
      PulseIs(s.mem.(filtered := f), f - s.mem.baseline);
    }
  }

  lemma HoldFrame(m: Mem, f: Hz, past: seq<int>)
    requires HoldInv(State(m, past))
    ensures HoldInv(State(m.(filtered := f), past))
  {
  }

  lemma PulseIs(m: Mem, p: int)
    ensures Hold(m, p).pulse == 0 || Hold(m, p).pulse == p
  {
  }

  lemma {:induction false} RunHold(evs: seq<Event>, ss: seq<State>, k: nat)
    requires IsRun(evs, ss) && k < |ss|
    ensures HoldInv(ss[k])
    decreases k
  {
    hide Step, HoldInv;
    if k == 0 {
      BeginHold();
    } else {
      var ev := evs[k - 1];
      RunHold(evs, ss, k - 1);
      StepHold(ss[k - 1], ev);
    }
  }

  lemma BeginHold()
    ensures HoldInv(State(RESET, []))
  {
  }

  /** A published deviation is 0 or more than 40 Hz, and a change from 0 to
      another value ends a run of eight windows of its sign, each 50 Hz or more. */
  lemma PulseIsHeld(evs: seq<Event>, ss: seq<State>, k: nat)
    requires IsRun(evs, ss) && k < |evs|
    ensures ss[k + 1].mem.pulse != 0 ==> ss[k + 1].mem.ready && Abs(ss[k + 1].mem.pulse) > 40
    ensures ss[k].mem.pulse == 0 && ss[k + 1].mem.pulse != 0 ==>
              OneSided(ss[k + 1].past, 8, Sign(ss[k + 1].mem.pulse))
  {
    hide Step;
    RunHold(evs, ss, k);
    RunHold(evs, ss, k + 1);
    var ev := evs[k];
    StepHold(ss[k], ev);
  }

  // ---- the module's statics ------------------------------------------------------------------------------------

  class Sensor {
    var filteredHz: Hz
    var startUs: U32
    var estimate: Hz
    var stableWindows: nat
    var baseline: Hz
    var ready: bool
    var verifying: bool
    var verifyStartUs: U32
    var pulse: int
    var zeroHold: bool
    var candidateSign: int
    var candidateWindows: nat

    ghost function View(): Mem
      reads this
    {
      Mem(filteredHz, startUs, estimate, stableWindows, baseline, ready, verifying, verifyStartUs,
          pulse, zeroHold, candidateSign, candidateWindows)
    }

    method ResetState()
      modifies this
      ensures View() == RESET
    {
      filteredHz, startUs, estimate, stableWindows, baseline, ready := 0, 0, 0, 0, 0, false;
      verifying, verifyStartUs, pulse, zeroHold, candidateSign, candidateWindows := false, 0, 0, true, 0, 0;
    }

    method DiscardWindow()
      modifies this
      ensures View() == Discard(old(View()))
    {
      if !ready {
        startUs, stableWindows, verifying := 0, 0, false;
      }
    }

    /** processAdjustometerFrequency; `averaged` is the drive-period filter's value. */
    method ProcessFrequency(rawHz: Hz, averaged: Hz, nowUs: U32)
      modifies this
      ensures View() == Process(old(View()), rawHz, averaged, nowUs)
    {
      hide Ema, Track, Elapsed, Near, Hold, Verify, Converge;
      var filtered := if ready then averaged else Ema(rawHz, filteredHz);
      filteredHz := filtered;
      if !ready {
        if !verifying {
          ConvergeOn(filtered, nowUs);
        } else {
          VerifyBy(filtered, nowUs);
        }
        pulse := 0;
      } else {
        HoldZero(filtered - baseline);
      }
    }

    method ConvergeOn(filtered: Hz, nowUs: U32)
      modifies this
      ensures View() == Converge(old(View()), filtered, nowUs)
    {
      hide Track, Near;
      if startUs == 0 {
        startUs, estimate, stableWindows := nowUs, filtered, 0;
      } else {
        estimate := Track(estimate, filtered);
        if Near(filtered, estimate, TOLERANCE_HZ) {
          stableWindows := stableWindows + 1;
        } else {
          stableWindows := 0;
        }
      }
      var elapsedUs := Sub32(nowUs, startUs);
      var converged := elapsedUs >= MIN_TIME_US && stableWindows >= LOCK_WINDOWS;
      if converged || elapsedUs >= MAX_TIME_US {
        baseline, filteredHz, verifying, verifyStartUs := estimate, estimate, true, nowUs;
      }
    }

    method VerifyBy(filtered: Hz, nowUs: U32)
      modifies this
      ensures View() == Verify(old(View()), filtered, nowUs)
    {
      hide Track, Near;
      if !Near(filtered, baseline, DRIFT_HZ) {
        verifying, startUs, estimate, filteredHz, stableWindows := false, nowUs, filtered, filtered, 0;
      } else if Sub32(nowUs, verifyStartUs) >= VERIFY_US {
        baseline, filteredHz := estimate, estimate;
        pulse, zeroHold, candidateSign, candidateWindows, ready := 0, true, 0, 0, true;
      } else {
        estimate := Track(estimate, filtered);
      }
    }

    method HoldZero(p: int)
      modifies this`pulse, this`zeroHold, this`candidateSign, this`candidateWindows
      ensures View() == Hold(old(View()), p)
    {
      var live := p;
      if Abs(live) <= ENTER_HZ {
        live, zeroHold, candidateSign, candidateWindows := 0, true, 0, 0;
      } else if zeroHold {
        if Abs(live) < EXIT_HZ {
          live, candidateSign, candidateWindows := 0, 0, 0;
        } else {
          var s := if live > 0 then 1 else -1;
          if s == candidateSign {
            if candidateWindows < 255 {
              candidateWindows := candidateWindows + 1;
            }
          } else {
            candidateSign, candidateWindows := s, 1;
          }
          if candidateWindows < RELEASE_WINDOWS {
            live := 0;
          } else {
            zeroHold, candidateSign, candidateWindows := false, 0, 0;
          }
        }
      }
      pulse := live;
    }
  }
}
