/**
 * The charge lamp: conditions that count only after holding without a break,
 * on a millisecond counter that wraps.
 */
module ChargeLamp {
  import opened Words

  const RPM_MIN: int := 350
  const LOW_MV: int := 12900
  const CHARGING_MV: int := 13200
  const OVERVOLTAGE_MV: int := 15000
  const CONFIRM_MS: nat := 2000
  const SETTLE_MS: nat := 0
  const BLINK_HALF_MS: nat := 250
  /** The longest pause between samples that the confirmations survive. */
  const MAX_PAUSE_MS: nat := 0x1_0000_0000 - 2000

  /** ChargeLampConfirmation. */
  datatype Confirmation = Confirmation(holding: bool, sinceMs: U32)

  datatype Lamp = Lamp(
    engineRunning: bool,
    startedMs: U32,
    charging: bool,
    overvoltage: bool,
    overvoltageSinceMs: U32,
    low: Confirmation,
    ok: Confirmation,
    high: Confirmation)

  /** A sample at a true time. */
  datatype Sample = Sample(t: nat, rpmFresh: bool, voltsFresh: bool, rpm: int, mv: int)

  datatype Condition = Low | Ok | High

  predicate Meets(mv: int, c: Condition) {
    match c
    case Low => mv < LOW_MV
    case Ok => mv > CHARGING_MV
    case High => mv > OVERVOLTAGE_MV
  }

  predicate Running(s: Sample) { s.rpmFresh && s.voltsFresh && s.rpm >= RPM_MIN }

  // ---- the module ----------------------------------------------------------------------------

  function Update(c: Confirmation, condition: bool, now: U32): (Confirmation, bool) {
    if !condition then (c.(holding := false), false)
    else
      var since := if c.holding then c.sinceMs else now;
      (Confirmation(true, since), Elapsed(now, since, CONFIRM_MS))
  }

  function Cleared(l: Lamp): Lamp {
    Lamp(false, 0, false, false, 0, l.low.(holding := false), l.ok.(holding := false), l.high.(holding := false))
  }

  const START := Lamp(false, 0, false, false, 0, Confirmation(false, 0), Confirmation(false, 0), Confirmation(false, 0))

  predicate BlinkLit(now: U32, since: U32) { Sub32(now, since) / BLINK_HALF_MS % 2 == 0 }

  /** The voltage is judged: confirmations, overvoltage, and whether the lamp is lit. */
  function Judge(l: Lamp, mv: int, now: U32): (Lamp, bool) {
    var (low, lowDone) := Update(l.low, Meets(mv, Low), now);
    var (ok, okDone) := Update(l.ok, Meets(mv, Ok), now);
    var (high, highDone) := Update(l.high, Meets(mv, High), now);
    var charging := if okDone then true else if lowDone then false else l.charging;
    var since := if highDone && !l.overvoltage then now else l.overvoltageSinceMs;
    (l.(low := low, ok := ok, high := high, charging := charging, overvoltage := highDone, overvoltageSinceMs := since),
     if highDone then BlinkLit(now, since) else !charging)
  }

  /** ChargeLamp::process: the new state, and whether the lamp is lit. */
  function Process(l: Lamp, s: Sample): (Lamp, bool) {
    if !Running(s) then (Cleared(l), true)
    else
      var now := Tick(s.t);
      var l1 := if l.engineRunning then l else l.(engineRunning := true, startedMs := now);
      if !Elapsed(now, l1.startedMs, SETTLE_MS) then (l1, true) else Judge(l1, s.mv, now)
  }

  /** State k + 1 is the one after sample k. */
  ghost predicate IsRun(samples: seq<Sample>, ls: seq<Lamp>) {
    && |ls| == |samples| + 1
    && ls[0] == START
    && (forall k {:trigger samples[k]} :: 0 <= k < |samples| ==> ls[k + 1] == Process(ls[k], samples[k]).0)
    && (forall i, j :: 0 <= i < j < |samples| ==> samples[i].t <= samples[j].t)
  }

  predicate Frequent(samples: seq<Sample>) {
    forall i, j :: 0 <= i < j == i + 1 < |samples| ==> samples[j].t - samples[i].t <= MAX_PAUSE_MS
  }

  // ---- stretches of samples ----------------------------------------------------------------------

  /** Fresh data of a running engine. */
  predicate Live(s: Sample) { s.rpmFresh && s.voltsFresh && s.rpm >= 350 }

  predicate Holds(samples: seq<Sample>, k: nat, c: Condition)
    requires k < |samples|
  {
    && Live(samples[k])
    && match c
       case Low => samples[k].mv < 12900
       case Ok => samples[k].mv > 13200
       case High => samples[k].mv > 15000
  }

  predicate Unbroken(samples: seq<Sample>, i: nat, j: nat, c: Condition)
    requires j < |samples|
  {
    forall n :: i <= n <= j ==> Holds(samples, n, c)
  }

  /** An unbroken stretch of 2 s of true time, completed by sample j. */
  predicate Confirmed(samples: seq<Sample>, i: nat, j: nat, c: Condition)
    requires i <= j < |samples|
  {
    Unbroken(samples, i, j, c) && samples[j].t - samples[i].t >= 2000
  }

  /** Where the unbroken stretch up to k starts. */
  function Start(samples: seq<Sample>, k: nat, c: Condition): (i: nat)
    requires k < |samples| && Holds(samples, k, c)
    ensures i <= k
  {
    if k == 0 || !Holds(samples, k - 1, c) then k else Start(samples, k - 1, c)
  }

  lemma {:induction false} StartIsFirst(samples: seq<Sample>, i: nat, k: nat, c: Condition)
    requires i <= k < |samples| && Holds(samples, k, c)
    ensures Unbroken(samples, Start(samples, k, c), k, c)
    ensures Unbroken(samples, i, k, c) <==> Start(samples, k, c) <= i
    decreases k
  {
    if k > 0 && Holds(samples, k - 1, c) {
      StartIsFirst(samples, if i < k then i else k - 1, k - 1, c);
    }
  }

  /** Some stretch completed by sample k. */
  predicate Done(samples: seq<Sample>, k: nat, c: Condition)
    requires k < |samples|
  {
    Holds(samples, k, c) && samples[k].t - samples[Start(samples, k, c)].t >= CONFIRM_MS
  }

  lemma DoneIsConfirmed(samples: seq<Sample>, ls: seq<Lamp>, k: nat, c: Condition)
    requires IsRun(samples, ls) && k < |samples|
    ensures Done(samples, k, c) <==> exists i :: 0 <= i <= k && Confirmed(samples, i, k, c)
  {
    hide Process;
    if Done(samples, k, c) {
      StartIsFirst(samples, k, k, c);
      assert Confirmed(samples, Start(samples, k, c), k, c);
    }
    forall i | 0 <= i <= k && Confirmed(samples, i, k, c) ensures Done(samples, k, c) {
      assert Holds(samples, k, c);
      StartIsFirst(samples, i, k, c);
    }
  }

  // ---- what the confirmations remember ----------------------------------------------------------------

  ghost predicate Remembers(conf: Confirmation, samples: seq<Sample>, k: nat, c: Condition)
    requires k <= |samples|
  {
    if k == 0 then !conf.holding
    else
      && (conf.holding <==> Holds(samples, k - 1, c))
      && (conf.holding ==> conf.sinceMs == Tick(samples[Start(samples, k - 1, c)].t))
  }

  lemma UpdateRemembers(conf: Confirmation, samples: seq<Sample>, k: nat, c: Condition)
    requires k < |samples| && Remembers(conf, samples, k, c) && Running(samples[k])
    ensures var (conf', done) := Update(conf, Meets(samples[k].mv, c), Tick(samples[k].t));
            && Remembers(conf', samples, k + 1, c)
            && (done <==>
                  Holds(samples, k, c) && Elapsed(Tick(samples[k].t), Tick(samples[Start(samples, k, c)].t), CONFIRM_MS))
  {
    hide Elapsed;
  }

  ghost predicate Inv(samples: seq<Sample>, l: Lamp, k: nat)
    requires k <= |samples|
  {
    && Remembers(l.low, samples, k, Low)
    && Remembers(l.ok, samples, k, Ok)
    && Remembers(l.high, samples, k, High)
    && (l.charging || l.overvoltage ==> l.engineRunning)
  }

  /** What the sample's confirmations say, by the counter. */
  predicate Shown(samples: seq<Sample>, k: nat, c: Condition)
    requires k < |samples|
  {
    && Holds(samples, k, c)
    && Elapsed(Tick(samples[k].t), Tick(samples[Start(samples, k, c)].t), CONFIRM_MS)
  }

  lemma StepInv(samples: seq<Sample>, l: Lamp, k: nat)
    requires k < |samples| && Inv(samples, l, k)
    ensures var (l', lit) := Process(l, samples[k]);
            && Inv(samples, l', k + 1)
            && (l'.overvoltage <==> Shown(samples, k, High))
            && (l'.charging <==>
                  Running(samples[k]) && (Shown(samples, k, Ok) || (l.charging && !Shown(samples, k, Low))))
            && (!Running(samples[k]) ==> lit)
            && (Running(samples[k]) && !l'.overvoltage ==> lit == !l'.charging)
            && (l'.overvoltage ==> lit == BlinkLit(Tick(samples[k].t), l'.overvoltageSinceMs))
  {
    hide Start, Update, BlinkLit, Elapsed, Meets;
    if Running(samples[k]) {
      UpdateRemembers(l.low, samples, k, Low);
      UpdateRemembers(l.ok, samples, k, Ok);
      UpdateRemembers(l.high, samples, k, High);
      Settled(Tick(samples[k].t), l);
    }
  }

  /** No settling time is configured. */
  lemma Settled(now: U32, l: Lamp)
    ensures Elapsed(now, l.startedMs, SETTLE_MS) && Elapsed(now, now, SETTLE_MS)
  {
  }

  lemma {:induction false} RunInv(samples: seq<Sample>, ls: seq<Lamp>, k: nat)
    requires IsRun(samples, ls) && k <= |samples|
    ensures Inv(samples, ls[k], k)
    decreases k
  {
    hide Process, Remembers;
    if k == 0 {
      BeginRemembers(samples);
    } else {
      RunInv(samples, ls, k - 1);
      var s := samples[k - 1];
      StepInv(samples, ls[k - 1], k - 1);
      assert ls[k] == Process(ls[k - 1], s).0;
    }
  }

  lemma BeginRemembers(samples: seq<Sample>)
    ensures Inv(samples, START, 0)
  {
  }

  // ---- true time ------------------------------------------------------------------------------------------

  /** What the counter confirms has truly held; what has just completed is
      confirmed, however often the counter wrapped before. */
  lemma ShownIsDone(samples: seq<Sample>, ls: seq<Lamp>, k: nat, c: Condition)
    requires IsRun(samples, ls) && k < |samples|
    ensures Shown(samples, k, c) ==> Done(samples, k, c)
    ensures Frequent(samples) && Done(samples, k, c) && !Shown(samples, k, c) ==> k > 0 && Done(samples, k - 1, c)
  {
    hide Process, Elapsed;
    if Holds(samples, k, c) {
      var i := Start(samples, k, c);
      ElapsedIsReal(samples[i].t, samples[k].t, CONFIRM_MS);
      if k > 0 {
        assert Frequent(samples) ==> samples[k].t - samples[k - 1].t <= MAX_PAUSE_MS;
      }
    }
  }

  /** The latest completed stretch since the last sample without a running engine
      or fresh data was one of charging. */
  predicate Charged(samples: seq<Sample>, k: nat)
    requires k < |samples|
  {
    && Running(samples[k])
    && (Done(samples, k, Ok) || (!Done(samples, k, Low) && k > 0 && Charged(samples, k - 1)))
  }

  lemma {:induction false} ChargingIsCharged(samples: seq<Sample>, ls: seq<Lamp>, k: nat)
    requires IsRun(samples, ls) && Frequent(samples) && k < |samples|
    ensures ls[k + 1].charging <==> Charged(samples, k)
    decreases k
  {
    hide Process, Inv, Shown, Done, Frequent;
    RunInv(samples, ls, k);
    StepInv(samples, ls[k], k);
    var s := samples[k];
    assert ls[k + 1] == Process(ls[k], s).0;
    ShownIsDone(samples, ls, k, Ok);
    ShownIsDone(samples, ls, k, Low);
    OkIsNotLow(samples, k);
    if k > 0 {
      ChargingIsCharged(samples, ls, k - 1);
      OkIsNotLow(samples, k - 1);
    }
  }

  lemma OkIsNotLow(samples: seq<Sample>, k: nat)
    requires k < |samples|
    ensures !(Done(samples, k, Ok) && Done(samples, k, Low))
    ensures Done(samples, k, Ok) || Done(samples, k, Low) ==> Running(samples[k])
    ensures !(Shown(samples, k, Ok) && Done(samples, k, Low)) && !(Done(samples, k, Ok) && Shown(samples, k, Low))
  {
    hide Elapsed, Start;
  }

  /** Since a sample that completed a charging stretch: running, and no stretch of
      low voltage completed. */
  ghost predicate ChargedSince(samples: seq<Sample>, i: nat, j: nat, k: nat)
    requires i <= j <= k < |samples|
  {
    && Confirmed(samples, i, j, Ok)
    && (forall n :: i <= n <= k ==> Live(samples[n]))
    && (forall a, b :: 0 <= a <= b && j < b <= k ==> !Confirmed(samples, a, b, Low))
  }

  lemma {:induction false} ChargedHasStretch(samples: seq<Sample>, ls: seq<Lamp>, k: nat) returns (i: nat, j: nat)
    requires IsRun(samples, ls) && k < |samples| && Charged(samples, k)
    ensures i <= j <= k && ChargedSince(samples, i, j, k)
    decreases k
  {
    hide Process, Done, Confirmed, IsRun;
    if Done(samples, k, Ok) {
      DoneIsConfirmed(samples, ls, k, Ok);
      i :| 0 <= i <= k && Confirmed(samples, i, k, Ok);
      j := k;
      ConfirmedRuns(samples, i, k);
    } else {
      i, j := ChargedHasStretch(samples, ls, k - 1);
      DoneIsConfirmed(samples, ls, k, Low);
    }
  }

  lemma ConfirmedRuns(samples: seq<Sample>, i: nat, k: nat)
    requires i <= k < |samples| && Confirmed(samples, i, k, Ok)
    ensures forall n :: i <= n <= k ==> Running(samples[n])
  {
    forall n | i <= n <= k ensures Running(samples[n]) {
      assert Holds(samples, n, Ok);
    }
  }

  lemma {:induction false} StretchIsCharged(samples: seq<Sample>, ls: seq<Lamp>, i: nat, j: nat, k: nat)
    requires IsRun(samples, ls) && i <= j <= k < |samples| && ChargedSince(samples, i, j, k)
    ensures Charged(samples, k)
    decreases k
  {
    hide Process, Done, Confirmed, IsRun;
    if j == k {
      DoneIsConfirmed(samples, ls, k, Ok);
    } else {
      StretchIsCharged(samples, ls, i, j, k - 1);
      DoneIsConfirmed(samples, ls, k, Low);
    }
  }

  // ---- main results -------------------------------------------------------------------------------------------

  /** The lamp is steadily dark exactly if, since the last loss of fresh data or of
      a running engine, an unbroken stretch above 13200 mV lasted 2 s, no unbroken
      stretch below 12900 mV of 2 s has completed after it, and it does not blink;
      whatever the counter wraps in between. */
  lemma DarkExactly(samples: seq<Sample>, ls: seq<Lamp>, k: nat)
    requires IsRun(samples, ls) && Frequent(samples) && k < |samples|
    ensures !ls[k + 1].overvoltage ==>
              (!Process(ls[k], samples[k]).1 <==> exists i, j :: 0 <= i <= j <= k && ChargedSince(samples, i, j, k))
  {
    hide Process, Inv, Charged, ChargedSince, Frequent;
    RunInv(samples, ls, k);
    StepInv(samples, ls[k], k);
    var s := samples[k];
    assert ls[k + 1] == Process(ls[k], s).0;
    ChargingIsCharged(samples, ls, k);
    ChargedRuns(samples, k);
    if Charged(samples, k) {
      var i, j := ChargedHasStretch(samples, ls, k);
    }
    forall i, j | 0 <= i <= j <= k && ChargedSince(samples, i, j, k) ensures Charged(samples, k) {
      StretchIsCharged(samples, ls, i, j, k);
    }
  }

  lemma ChargedRuns(samples: seq<Sample>, k: nat)
    requires k < |samples|
    ensures Charged(samples, k) ==> Running(samples[k])
  {
  }

  /** The lamp blinks only while samples above 15000 mV have held for 2 s of true
      time, and exactly while the counter shows so: it stops for 2 s at each wrap
      since the stretch began. */
  lemma BlinksExactly(samples: seq<Sample>, ls: seq<Lamp>, k: nat)
    requires IsRun(samples, ls) && k < |samples|
    ensures ls[k + 1].overvoltage ==> exists i :: 0 <= i <= k && Confirmed(samples, i, k, High)
    ensures ls[k + 1].overvoltage <==>
              Holds(samples, k, High) && (samples[k].t - samples[Start(samples, k, High)].t) % M32 >= 2000
  {
    hide Process, Inv, Confirmed, BlinkLit;
    RunInv(samples, ls, k);
    StepInv(samples, ls[k], k);
    var s := samples[k];
    assert ls[k + 1] == Process(ls[k], s).0;
    ShownIsDone(samples, ls, k, High);
    DoneIsConfirmed(samples, ls, k, High);
    if Holds(samples, k, High) {
      TickDifference(samples[Start(samples, k, High)].t, samples[k].t);
    }
  }

  /** Where the blinking seen at sample k began: the first sample of the unbroken
      row that the counter confirms. */
  function BlinkStart(samples: seq<Sample>, k: nat): (f: nat)
    requires k < |samples| && Shown(samples, k, High)
    ensures f <= k
  {
    if k == 0 || !Shown(samples, k - 1, High) then k else BlinkStart(samples, k - 1)
  }

  lemma {:induction false} BlinkRemembers(samples: seq<Sample>, ls: seq<Lamp>, k: nat)
    requires IsRun(samples, ls) && k < |samples|
    ensures ls[k + 1].overvoltage <==> Shown(samples, k, High)
    ensures ls[k + 1].overvoltage ==> ls[k + 1].overvoltageSinceMs == Tick(samples[BlinkStart(samples, k)].t)
    decreases k
  {
    hide Process, Inv, Shown;
    RunInv(samples, ls, k);
    StepInv(samples, ls[k], k);
    var s := samples[k];
    assert ls[k + 1] == Process(ls[k], s).0;
    OvervoltageSince(ls[k], s);
    if k > 0 {
      BlinkRemembers(samples, ls, k - 1);
    }
  }

  lemma OvervoltageSince(l: Lamp, s: Sample)
    ensures var l' := Process(l, s).0;
            l'.overvoltage ==> l'.overvoltageSinceMs == if l.overvoltage then l.overvoltageSinceMs else Tick(s.t)
  {
    hide Elapsed, Meets;
  }

  /** The phase: while it blinks, the lamp is lit in every other 250 ms counted
      from the first confirmed sample, beginning with that one. */
  lemma BlinkPhase(samples: seq<Sample>, ls: seq<Lamp>, k: nat)
    requires IsRun(samples, ls) && k < |samples| && ls[k + 1].overvoltage
    ensures Shown(samples, k, High)
    ensures var f := BlinkStart(samples, k);
            && (forall n :: f <= n <= k ==> Shown(samples, n, High))
            && (Process(ls[k], samples[k]).1 <==> (samples[k].t - samples[f].t) % M32 / 250 % 2 == 0)
  {
    hide Process, Inv, Shown, IsRun;
    BlinkRemembers(samples, ls, k);
    StepLit(samples, ls, k);
    var f := BlinkStart(samples, k);
    BlinkRow(samples, k);
    InTime(samples, ls, f, k);
    TickDifference(samples[f].t, samples[k].t);
  }

  lemma StepLit(samples: seq<Sample>, ls: seq<Lamp>, k: nat)
    requires IsRun(samples, ls) && k < |samples| && ls[k + 1].overvoltage
    ensures Process(ls[k], samples[k]).1 == BlinkLit(Tick(samples[k].t), ls[k + 1].overvoltageSinceMs)
  {
    hide Process, Inv, BlinkLit;
    RunInv(samples, ls, k);
    StepInv(samples, ls[k], k);
    var s := samples[k];
    assert ls[k + 1] == Process(ls[k], s).0;
  }

  lemma {:induction false} BlinkRow(samples: seq<Sample>, k: nat)
    requires k < |samples| && Shown(samples, k, High)
    ensures forall n :: BlinkStart(samples, k) <= n <= k ==> Shown(samples, n, High)
    decreases k
  {
    hide Shown;
    if k > 0 && Shown(samples, k - 1, High) {
      BlinkRow(samples, k - 1);
    }
  }

  lemma InTime(samples: seq<Sample>, ls: seq<Lamp>, i: nat, k: nat)
    requires IsRun(samples, ls) && i <= k < |samples|
    ensures samples[i].t <= samples[k].t
  {
  }

  /** A fresh sample of a running engine at 16 V. */
  function TooHigh(t: nat): Sample { Sample(t, true, true, 900, 16000) }

  /** Such samples every p ms, n of them. */
  function Every(p: nat, n: nat): (samples: seq<Sample>)
    ensures |samples| == n && forall i :: 0 <= i < n ==> samples[i] == TooHigh(p * i)
  {
    seq(n, i requires 0 <= i < n => TooHigh(p * i))
  }

  /** The states a run goes through. */
  function Lamps(samples: seq<Sample>): (ls: seq<Lamp>)
    ensures |ls| == |samples| + 1
  {
    if samples == [] then [START]
    else
      var ls := Lamps(samples[..|samples| - 1]);
      ls + [Process(ls[|samples| - 1], samples[|samples| - 1]).0]
  }

  lemma {:induction false} LampsRun(samples: seq<Sample>)
    requires forall i, j :: 0 <= i < j < |samples| ==> samples[i].t <= samples[j].t
    ensures IsRun(samples, Lamps(samples))
  {
    hide Process;
    if samples != [] {
      var before := samples[..|samples| - 1];
      LampsRun(before);
      var ls := Lamps(before);
      forall k {:trigger samples[k]} | 0 <= k < |samples|
        ensures Lamps(samples)[k + 1] == Process(Lamps(samples)[k], samples[k]).0
      {
        assert k < |before| ==> before[k] == samples[k] && ls[k + 1] == Process(ls[k], before[k]).0;
      }
    }
  }

  /** The first sample that is not before the wrap of the counter. */
  function FirstAfterWrap(p: nat): (k: nat)
    requires p > 0
    ensures k > 0 && p * (k - 1) < M32 <= p * k
  {
    (M32 + p - 1) / p
  }

  /** Inputs on which it stops: samples above the limit every p ms, as densely as
      the loop may take them. It still blinks at the last sample before the wrap of
      the counter, and no longer at the first one after. */
  lemma BlinkStopsAtWrap(p: nat)
    requires 0 < p <= CONFIRM_MS
    ensures var k := FirstAfterWrap(p);
            var samples := Every(p, k + 1);
            var ls := Lamps(samples);
            && IsRun(samples, ls) && Confirmed(samples, 0, k, High)
            && ls[k].overvoltage && !ls[k + 1].overvoltage
  {
    hide Process, IsRun, Start, Lamps, FirstAfterWrap;
    var k := FirstAfterWrap(p);
    var samples := Every(p, k + 1);
    forall i, j | 0 <= i < j < |samples| ensures samples[i].t <= samples[j].t {
      Later(p, i, j);
    }
    LampsRun(samples);
    forall n | 0 <= n <= k ensures Holds(samples, n, High) {}
    assert p * k == p * (k - 1) + p;
    BlinksFrom(samples, Lamps(samples), k);
    BlinksFrom(samples, Lamps(samples), k - 1);
  }

  lemma Later(p: nat, i: nat, j: nat)
    requires i <= j
    ensures p * i <= p * j
  {
    assert p * j == p * i + p * (j - i);
  }

  /** A row of high samples from the very first. */
  lemma BlinksFrom(samples: seq<Sample>, ls: seq<Lamp>, k: nat)
    requires IsRun(samples, ls) && k < |samples| && samples[0].t == 0
    requires Unbroken(samples, 0, k, High)
    ensures ls[k + 1].overvoltage <==> samples[k].t % M32 >= CONFIRM_MS
  {
    hide Process, IsRun, Start, Running, Meets;
    assert Holds(samples, k, High);
    StartIsFirst(samples, 0, k, High);
    BlinksExactly(samples, ls, k);
  }

  // ---- the classes, updated in place ------------------------------------------------------------------------------

  class ChargeLampConfirmation {
    var holding: bool
    var sinceMs: U32

    ghost function View(): Confirmation
      reads this
    {
      Confirmation(holding, sinceMs)
    }

    constructor ()
      ensures View() == Confirmation(false, 0)
    {
      holding, sinceMs := false, 0;
    }

    method Clear()
      modifies this`holding
      ensures View() == old(View()).(holding := false)
    {
      holding := false;
    }

    method Track(condition: bool, nowMs: U32) returns (done: bool)
      modifies this
      ensures (View(), done) == Update(old(View()), condition, nowMs)
    {
      if !condition {
        holding := false;
        return false;
      }
      if !holding {
        holding, sinceMs := true, nowMs;
      }
      done := Elapsed(nowMs, sinceMs, CONFIRM_MS);
    }
  }

  class LampControl {
    var engineRunning: bool
    var startedMs: U32
    var charging: bool
    var overvoltage: bool
    var overvoltageSinceMs: U32
    const low: ChargeLampConfirmation
    const ok: ChargeLampConfirmation
    const high: ChargeLampConfirmation

    ghost predicate Valid()
      reads this
    {
      low != ok && low != high && ok != high
    }

    ghost function View(): Lamp
      reads this, low, ok, high
    {
      Lamp(engineRunning, startedMs, charging, overvoltage, overvoltageSinceMs, low.View(), ok.View(), high.View())
    }

    constructor ()
      ensures Valid() && View() == START && fresh(low) && fresh(ok) && fresh(high)
    {
      low := new ChargeLampConfirmation();
      ok := new ChargeLampConfirmation();
      high := new ChargeLampConfirmation();
      engineRunning, startedMs, charging, overvoltage, overvoltageSinceMs := false, 0, false, false, 0;
    }

    method Reset()
      requires Valid()
      modifies this, low, ok, high
      ensures View() == Cleared(old(View()))
    {
      engineRunning, startedMs, charging, overvoltage, overvoltageSinceMs := false, 0, false, false, 0;
      low.Clear();
      ok.Clear();
      high.Clear();
    }

    method ProcessSample(s: Sample) returns (lit: bool)
      requires Valid()
      modifies this, low, ok, high
      ensures (View(), lit) == Process(old(View()), s)
    {
      hide Elapsed, Judge;
      if !s.rpmFresh || !s.voltsFresh || s.rpm < RPM_MIN {
        Reset();
        return true;
      }
      var now := Tick(s.t);
      if !engineRunning {
        engineRunning, startedMs := true, now;
      }
      if !Elapsed(now, startedMs, SETTLE_MS) {
        return true;
      }
      lit := JudgeVoltage(s.mv, now);
    }

    method JudgeVoltage(mv: int, now: U32) returns (lit: bool)
      requires Valid()
      modifies this, low, ok, high
      ensures (View(), lit) == Judge(old(View()), mv, now)
    {
      hide Elapsed, Meets;
      var done := low.Track(Meets(mv, Low), now);
      if done {
        charging := false;
      }
      done := ok.Track(Meets(mv, Ok), now);
      if done {
        charging := true;
      }
      var overvoltageNow := high.Track(Meets(mv, High), now);
      if overvoltageNow && !overvoltage {
        overvoltageSinceMs := now;
      }
      overvoltage := overvoltageNow;
      lit := if overvoltage then BlinkLit(now, overvoltageSinceMs) else !charging;
    }
  }
}
