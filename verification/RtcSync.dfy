/**
 * Setting the clock from GPS frames: when a frame may be used, when the RTC may
 * be rewritten, and how long a failed access keeps the module away from it. The
 * outcomes of all RTC and flash accesses are inputs.
 */
module RtcSync {
  import opened Options
  import opened Words
  import ClockTime

  const TOLERANCE_S: nat := 2
  const CORRECTION_MS: nat := 600000
  const RETRY_MS: nat := 30000
  const MAX_RX_GAP_MS: nat := 500
  const EPOCH_AT: nat := 1
  const STATUS_AT: nat := 5

  datatype Sync = Sync(
    lastTickMs: U32,
    received: bool,
    valid: bool,
    epoch: U32,
    correctionHeld: bool,
    correctionStartMs: U32,
    retryHeld: bool,
    retryStartMs: U32)

  /** What the accesses of one tick would return. */
  datatype Access = Access(settled: bool, settleOk: bool, readOk: bool, trusted: bool, rtcEpoch: U32, writeOk: bool)

  /** The accesses made, at their true times. */
  datatype Action =
    | Settle(t: nat, ok: bool)
    | Read(t: nat, ok: bool, trusted: bool, rtcEpoch: U32, gps: U32)
    | Write(t: nat, ok: bool, gps: U32)

  function Start(now: U32): Sync { Sync(now, false, false, 0, false, 0, false, 0) }

  // ---- the module -------------------------------------------------------------------------

  predicate Complete(data: seq<U8>) { |data| > STATUS_AT }

  function EpochOf(data: seq<U8>): U32
    requires Complete(data)
  {
    data[EPOCH_AT] as int * 0x100_0000 + data[EPOCH_AT + 1] as int * 0x1_0000 + data[EPOCH_AT + 2] as int * 0x100
      + data[EPOCH_AT + 3]
  }

  predicate ValidFrame(data: seq<U8>)
    requires Complete(data)
  {
    data[STATUS_AT] % 2 == 1 && ClockTime.EpochInRange(EpochOf(data))
  }

  /** rtcSyncReceive; a truncated frame changes nothing. */
  function Receive(s: Sync, data: seq<U8>): Sync {
    if !Complete(data) then s
    else s.(received := true, valid := ValidFrame(data), epoch := EpochOf(data))
  }

  /** rtcSyncRelease. */
  predicate StillHeld(held: bool, startMs: U32, period: nat, now: U32) { held && !Elapsed(now, startMs, period) }

  function Failed(s: Sync, now: U32): Sync { s.(retryHeld := true, retryStartMs := now) }

  function Deviation(a: U32, b: U32): nat { if a > b then a - b else b - a }

  predicate LeftAlone(s: Sync, gps: U32, a: Access) {
    a.trusted && (Deviation(a.rtcEpoch, gps) <= TOLERANCE_S || s.correctionHeld)
  }

  /** rtcSyncApply. */
  function Apply(s: Sync, gps: U32, t: nat, a: Access): (Sync, seq<Action>) {
    var read := Read(t, a.readOk, a.trusted, a.rtcEpoch, gps);
    if !a.readOk then (Failed(s, Tick(t)), [read])
    else if LeftAlone(s, gps, a) then (s, [read])
    else if !a.writeOk then (Failed(s, Tick(t)), [read, Write(t, false, gps)])
    else (s.(correctionHeld := true, correctionStartMs := Tick(t)), [read, Write(t, true, gps)])
  }

  function Released(s: Sync, now: U32): Sync {
    s.(lastTickMs := now,
       correctionHeld := StillHeld(s.correctionHeld, s.correctionStartMs, CORRECTION_MS, now),
       retryHeld := StillHeld(s.retryHeld, s.retryStartMs, RETRY_MS, now))
  }

  function SettleStep(s: Sync, t: nat, a: Access): (Sync, seq<Action>) {
    if s.retryHeld || a.settled then (s, [])
    else (if a.settleOk then s else Failed(s, Tick(t)), [Settle(t, a.settleOk)])
  }

  predicate Uses(s: Sync, recent: bool, edit: bool) { s.received && s.valid && recent && !edit && !s.retryHeld }

  /** rtcSyncTick. */
  function TickStep(s: Sync, t: nat, edit: bool, a: Access): (Sync, seq<Action>) {
    var recent := !Elapsed(Tick(t), s.lastTickMs, MAX_RX_GAP_MS + 1);
    var (s1, settle) := SettleStep(Released(s, Tick(t)), t, a);
    var s2 := s1.(received := false);
    if Uses(s1, recent, edit) then
      var (s3, actions) := Apply(s2, s1.epoch, t, a);
      (s3, settle + actions)
    else (s2, settle)
  }

  // ---- runs ------------------------------------------------------------------------------------

  datatype Event = EvReceive(data: seq<U8>) | EvTick(t: nat, edit: bool, access: Access)

  /** `clock` is the time of the latest tick. */
  datatype State = State(sync: Sync, log: seq<Action>, clock: nat)

  function Step(s: State, ev: Event): State {
    match ev
    case EvReceive(data) => s.(sync := Receive(s.sync, data))
    case EvTick(t, edit, a) =>
      var (sync, actions) := TickStep(s.sync, t, edit, a);
      State(sync, s.log + actions, t)
  }

  predicate InTime(s: State, ev: Event) { ev.EvTick? ==> s.clock <= ev.t }

  ghost predicate IsRun(t0: nat, evs: seq<Event>, ss: seq<State>) {
    && |ss| == |evs| + 1
    && ss[0] == State(Start(Tick(t0)), [], t0)
    && (forall k {:trigger evs[k]} :: 0 <= k < |evs| ==> InTime(ss[k], evs[k]) && ss[k + 1] == Step(ss[k], evs[k]))
  }

  // ---- the invariant ------------------------------------------------------------------------------

  predicate Rewrote(a: Action) { a.Write? && a.ok }

  ghost predicate LatestFailure(log: seq<Action>, f: int) {
    0 <= f < |log| && !log[f].ok && forall i :: 0 <= i < |log| && !log[i].ok ==> log[i].t <= log[f].t
  }

  ghost predicate LatestWrite(log: seq<Action>, f: int) {
    0 <= f < |log| && Rewrote(log[f]) && forall i :: 0 <= i < |log| && Rewrote(log[i]) ==> log[i].t <= log[f].t
  }

  /** The latest failed access is remembered, or long enough ago. */
  ghost predicate RetryInv(s: State) {
    && (forall i :: 0 <= i < |s.log| && !s.log[i].ok ==> s.log[i].t <= s.clock)
    && (s.sync.retryHeld ==> exists f :: LatestFailure(s.log, f) && s.sync.retryStartMs == Tick(s.log[f].t))
    && (!s.sync.retryHeld ==> forall i :: 0 <= i < |s.log| && !s.log[i].ok ==> s.clock - s.log[i].t >= RETRY_MS)
  }

  /** The same of the latest successful write. */
  ghost predicate CorrectionInv(s: State) {
    && (forall i :: 0 <= i < |s.log| && Rewrote(s.log[i]) ==> s.log[i].t <= s.clock)
    && (s.sync.correctionHeld ==> exists f :: LatestWrite(s.log, f) && s.sync.correctionStartMs == Tick(s.log[f].t))
    && (!s.sync.correctionHeld ==>
          forall i :: 0 <= i < |s.log| && Rewrote(s.log[i]) ==> s.clock - s.log[i].t >= CORRECTION_MS)
  }

  /** Nothing is accessed within the retry time of a failed access. */
  ghost predicate KeepsAway(log: seq<Action>) {
    forall i, j :: 0 <= i < j < |log| && !log[i].ok ==> log[j].t - log[i].t >= RETRY_MS
  }

  /** A write follows its own successful read; of a trusted clock only when far
      off and long after the latest successful write. */
  ghost predicate WritesInv(log: seq<Action>) {
    forall j :: 0 <= j < |log| && log[j].Write? ==> JustifiedWrite(log, j)
  }

  ghost predicate JustifiedWrite(log: seq<Action>, j: nat)
    requires j < |log| && log[j].Write?
  {
    && j > 0 && log[j - 1].Read? && log[j - 1].ok && log[j - 1].gps == log[j].gps && log[j - 1].t == log[j].t
    && (log[j - 1].trusted ==>
          Deviation(log[j - 1].rtcEpoch, log[j].gps) > TOLERANCE_S
          && forall i :: 0 <= i < j && Rewrote(log[i]) ==> log[j].t - log[i].t >= CORRECTION_MS)
  }

  ghost predicate Inv(s: State) {
    RetryInv(s) && CorrectionInv(s) && KeepsAway(s.log) && WritesInv(s.log)
  }

  lemma ReleaseInv(s: State, t: nat)
    requires RetryInv(s) && CorrectionInv(s) && s.clock <= t
    ensures var s' := State(Released(s.sync, Tick(t)), s.log, t);
            RetryInv(s') && CorrectionInv(s')
  {
    hide Elapsed;
    if s.sync.retryHeld {
      var f :| LatestFailure(s.log, f) && s.sync.retryStartMs == Tick(s.log[f].t);
      ElapsedIsReal(s.log[f].t, t, RETRY_MS);
    }
    if s.sync.correctionHeld {
      var f :| LatestWrite(s.log, f) && s.sync.correctionStartMs == Tick(s.log[f].t);
      ElapsedIsReal(s.log[f].t, t, CORRECTION_MS);
    }
  }

  /** The holds after one access. */
  function After(s: Sync, a: Action): Sync {
    if !a.ok then Failed(s, Tick(a.t))
    else if a.Write? then s.(correctionHeld := true, correctionStartMs := Tick(a.t))
    else s
  }

  /** One access made now: allowed while nothing is held. */
  lemma AccessInv(s: State, a: Action)
    requires Inv(s) && !s.sync.retryHeld && a.t == s.clock
    requires a.Write? ==> JustifiedWrite(s.log + [a], |s.log|)
    ensures Inv(State(After(s.sync, a), s.log + [a], s.clock))
  {
    hide RetryInv, CorrectionInv, KeepsAway, WritesInv;
    KeepRetry(s, a);
    KeepCorrection(s, a);
    KeepAway(s, a);
    KeepWrites(s.log, a);
  }

  lemma KeepAway(s: State, a: Action)
    requires RetryInv(s) && KeepsAway(s.log) && !s.sync.retryHeld && a.t == s.clock
    ensures KeepsAway(s.log + [a])
  {
  }

  lemma KeepWrites(log: seq<Action>, a: Action)
    requires WritesInv(log) && (a.Write? ==> JustifiedWrite(log + [a], |log|))
    ensures WritesInv(log + [a])
  {
    var all := log + [a];
    assert forall i :: 0 <= i < |log| ==> all[i] == log[i];
    forall j | 0 <= j < |all| && all[j].Write? ensures JustifiedWrite(all, j) {
      if j < |log| {
        assert JustifiedWrite(log, j);
      }
    }
  }

  lemma KeepRetry(s: State, a: Action)
    requires RetryInv(s) && !s.sync.retryHeld && a.t == s.clock
    ensures RetryInv(State(After(s.sync, a), s.log + [a], s.clock))
  {
    var log, n := s.log + [a], |s.log|;
    assert log[n] == a;
    assert forall i :: 0 <= i < n ==> log[i] == s.log[i];
    if !a.ok {
      assert LatestFailure(log, n);
    }
  }

  lemma KeepCorrection(s: State, a: Action)
    requires CorrectionInv(s) && a.t == s.clock
    ensures CorrectionInv(State(After(s.sync, a), s.log + [a], s.clock))
  {
    var log, n := s.log + [a], |s.log|;
    assert log[n] == a;
    assert forall i :: 0 <= i < n ==> log[i] == s.log[i];
    if Rewrote(a) {
      assert LatestWrite(log, n);
    } else if s.sync.correctionHeld {
      var f :| LatestWrite(s.log, f) && s.sync.correctionStartMs == Tick(s.log[f].t);
      assert LatestWrite(log, f);
    }
  }

  /** Nothing the accounts depend on. */
  lemma SameHolds(s: State, sync: Sync)
    requires Inv(s)
    requires sync.retryHeld == s.sync.retryHeld && sync.retryStartMs == s.sync.retryStartMs
    requires sync.correctionHeld == s.sync.correctionHeld && sync.correctionStartMs == s.sync.correctionStartMs
    ensures Inv(s.(sync := sync))
  {
  }

  lemma SettleInv(s: State, a: Access)
    requires Inv(s)
    ensures var (sync, actions) := SettleStep(s.sync, s.clock, a);
            Inv(State(sync, s.log + actions, s.clock))
  {
    hide Inv;
    if s.sync.retryHeld || a.settled {
      assert s.log + [] == s.log;
    } else {
      AccessInv(s, Settle(s.clock, a.settleOk));
    }
  }

  lemma ApplyInv(s: State, gps: U32, a: Access)
    requires Inv(s) && !s.sync.retryHeld
    ensures var (sync, actions) := Apply(s.sync, gps, s.clock, a);
            Inv(State(sync, s.log + actions, s.clock))
  {
    hide KeepsAway, WritesInv, RetryInv;
    var read := Read(s.clock, a.readOk, a.trusted, a.rtcEpoch, gps);
    AccessInv(s, read);
    if a.readOk && !LeftAlone(s.sync, gps, a) {
      var s1 := s.(log := s.log + [read]);
      var write := Write(s.clock, a.writeOk, gps);
      var log, n := s1.log + [write], |s1.log|;
      assert log[n] == write && log[n - 1] == read;
      assert forall i :: 0 <= i < n ==> log[i] == s1.log[i];
      assert JustifiedWrite(log, n);
      AccessInv(s1, write);
      assert s1.log + [write] == s.log + [read, write];
    }
  }

  lemma TickInv(s: State, t: nat, edit: bool, a: Access)
    requires Inv(s) && s.clock <= t
    ensures Inv(Step(s, EvTick(t, edit, a)))
  {
    hide Inv, Elapsed, SettleStep, Apply, Released;
    var s1 := State(Released(s.sync, Tick(t)), s.log, t);
    ReleasedInv(s, t);
    var (sync2, settle) := SettleStep(s1.sync, t, a);
    SettleInv(s1, a);
    var s2 := State(sync2.(received := false), s1.log + settle, t);
    SameHolds(State(sync2, s1.log + settle, t), s2.sync);
    if !sync2.retryHeld {
      ApplyInv(s2, sync2.epoch, a);
      var (sync3, actions) := Apply(s2.sync, sync2.epoch, t, a);
      assert (s.log + settle) + actions == s.log + (settle + actions);
    }
  }

  lemma ReleasedInv(s: State, t: nat)
    requires Inv(s) && s.clock <= t
    ensures Inv(State(Released(s.sync, Tick(t)), s.log, t))
  {
    hide RetryInv, CorrectionInv;
    ReleaseInv(s, t);
  }

  lemma StepInv(s: State, ev: Event)
    requires Inv(s) && InTime(s, ev)
    ensures Inv(Step(s, ev))
  {
    hide Inv, TickStep, ValidFrame, EpochOf;
    match ev
    case EvReceive(data) => SameHolds(s, Receive(s.sync, data));
    case EvTick(t, edit, a) => TickInv(s, t, edit, a);
  }

  lemma {:induction false} RunInv(t0: nat, evs: seq<Event>, ss: seq<State>, k: nat)
    requires IsRun(t0, evs, ss) && k < |ss|
    ensures Inv(ss[k])
    decreases k
  {
    hide Step, Inv, InTime;
    if k == 0 {
      BeginInv(t0);
    } else {
      var ev := evs[k - 1];
      RunInv(t0, evs, ss, k - 1);
      StepInv(ss[k - 1], ev);
    }
  }

  lemma BeginInv(t0: nat)
    ensures Inv(State(Start(Tick(t0)), [], t0))
  {
  }

  // ---- main results ---------------------------------------------------------------------------------

  /** In every run no RTC or flash access happens within 30 s of true time after a
      failed one, whatever the counter wraps. */
  lemma KeepsAwayAfterFailure(t0: nat, evs: seq<Event>, ss: seq<State>, k: nat, i: nat, j: nat)
    requires IsRun(t0, evs, ss) && k < |ss| && i < j < |ss[k].log| && !ss[k].log[i].ok
    ensures ss[k].log[j].t - ss[k].log[i].t >= 30000
  {
    RunInv(t0, evs, ss, k);
  }

  /** Every write follows a successful read at the same tick, with the same GPS
      time; a clock that read as trusted is rewritten only when more than 2 s off,
      and at least 600 s of true time after every earlier successful write. */
  lemma WritesAreJustified(t0: nat, evs: seq<Event>, ss: seq<State>, k: nat, j: nat)
    requires IsRun(t0, evs, ss) && k < |ss| && j < |ss[k].log| && ss[k].log[j].Write?
    ensures var log := ss[k].log;
            && j > 0 && log[j - 1].Read? && log[j - 1].ok && log[j - 1].t == log[j].t && log[j - 1].gps == log[j].gps
            && (log[j - 1].trusted ==> Deviation(log[j - 1].rtcEpoch, log[j].gps) > 2)
            && (log[j - 1].trusted ==>
                  forall i :: 0 <= i < j && Rewrote(log[i]) ==> log[j].t - log[i].t >= 600000)
  {
    hide RetryInv, CorrectionInv, KeepsAway, Step;
    RunInv(t0, evs, ss, k);
    assert JustifiedWrite(ss[k].log, j);
  }

  /** The complete frame received last since the latest tick. */
  function Waiting(evs: seq<Event>, k: nat): Option<seq<U8>>
    requires k <= |evs|
  {
    if k == 0 || evs[k - 1].EvTick? then None
    else if Complete(evs[k - 1].data) then Some(evs[k - 1].data)
    else Waiting(evs, k - 1)
  }

  ghost predicate HoldsWaiting(s: Sync, waiting: Option<seq<U8>>) {
    && (s.received <==> waiting.Some?)
    && (s.received ==> Complete(waiting.value) && s.valid == ValidFrame(waiting.value) && s.epoch == EpochOf(waiting.value))
  }

  lemma TickForgets(s: Sync, t: nat, edit: bool, a: Access)
    ensures !TickStep(s, t, edit, a).0.received
  {
    hide Elapsed;
  }

  lemma {:induction false} RunWaiting(t0: nat, evs: seq<Event>, ss: seq<State>, k: nat)
    requires IsRun(t0, evs, ss) && k < |ss|
    ensures HoldsWaiting(ss[k].sync, Waiting(evs, k))
    decreases k
  {
    hide TickStep, ValidFrame, EpochOf, Complete;
    if k > 0 {
      var ev := evs[k - 1];
      RunWaiting(t0, evs, ss, k - 1);
      assert ss[k] == Step(ss[k - 1], ev);
      if ev.EvTick? {
        TickForgets(ss[k - 1].sync, ev.t, ev.edit, ev.access);
      } else {
        ReceiveHolds(ss[k - 1].sync, ev.data, Waiting(evs, k - 1));
      }
    }
  }

  lemma ReceiveHolds(s: Sync, data: seq<U8>, waiting: Option<seq<U8>>)
    requires HoldsWaiting(s, waiting)
    ensures HoldsWaiting(Receive(s, data), if Complete(data) then Some(data) else waiting)
  {
  }

  /** The frame a tick reads the clock for is a complete and valid one, received
      after the tick before: a frame dropped in one pass is never used in a later
      one, and none is used after a pause of more than 500 ms between ticks. */
  lemma UsesOnlyNewFrames(t0: nat, evs: seq<Event>, ss: seq<State>, k: nat, n: nat)
    requires IsRun(t0, evs, ss) && k < |evs| && evs[k].EvTick?
    requires |ss[k].log| <= n < |ss[k + 1].log| && !ss[k + 1].log[n].Settle?
    ensures Waiting(evs, k).Some? && Complete(Waiting(evs, k).value) && ValidFrame(Waiting(evs, k).value)
    ensures ss[k + 1].log[n].gps == EpochOf(Waiting(evs, k).value)
    ensures !evs[k].edit && Sub32(Tick(evs[k].t), ss[k].sync.lastTickMs) <= 500
  {
    hide TickStep, ValidFrame, EpochOf, Complete;
    RunWaiting(t0, evs, ss, k);
    var ev := evs[k];
    assert ss[k + 1] == Step(ss[k], ev);
    TickUses(ss[k].sync, ev.t, ev.edit, ev.access, n - |ss[k].log|);
  }

  lemma TickUses(s: Sync, t: nat, edit: bool, a: Access, n: nat)
    requires n < |TickStep(s, t, edit, a).1| && !TickStep(s, t, edit, a).1[n].Settle?
    ensures s.received && s.valid && !edit && Sub32(Tick(t), s.lastTickMs) <= MAX_RX_GAP_MS
    ensures TickStep(s, t, edit, a).1[n].gps == s.epoch
  {
    hide StillHeld, LeftAlone;
  }

  /** The other way round: what a tick does once it uses a frame whose read
      succeeds. A clock not trusted is always written; a trusted one that is more
      than 2 s off is, unless it was written less than 600 s ago. */
  lemma WritesWhenDue(t0: nat, evs: seq<Event>, ss: seq<State>, k: nat)
    requires IsRun(t0, evs, ss) && k < |evs| && evs[k].EvTick?
    requires var log := ss[k + 1].log;
             |log| > |ss[k].log| && log[|log| - 1].Read? && log[|log| - 1].ok
    ensures var read := ss[k + 1].log[|ss[k + 1].log| - 1];
            && read.trusted
            && (Deviation(read.rtcEpoch, read.gps) <= 2
                || exists i :: 0 <= i < |ss[k].log| && Rewrote(ss[k].log[i])
                               && (evs[k].t - ss[k].log[i].t) % M32 < 600000)
  {
    hide TickStep, Inv;
    RunInv(t0, evs, ss, k);
    var ev := evs[k];
    assert ss[k + 1] == Step(ss[k], ev);
    TickLeaves(ss[k].sync, ev.t, ev.edit, ev.access);
    CorrectionIsWrite(ss[k]);
    var read := ss[k + 1].log[|ss[k + 1].log| - 1];
    if Deviation(read.rtcEpoch, read.gps) > TOLERANCE_S {
      var f :| LatestWrite(ss[k].log, f) && ss[k].sync.correctionStartMs == Tick(ss[k].log[f].t) && ss[k].log[f].t <= ss[k].clock;
      TickDifference(ss[k].log[f].t, ev.t);
    }
  }

  lemma CorrectionIsWrite(s: State)
    requires Inv(s)
    ensures s.sync.correctionHeld ==>
              exists f :: LatestWrite(s.log, f) && s.sync.correctionStartMs == Tick(s.log[f].t) && s.log[f].t <= s.clock
  {
  }

  lemma TickLeaves(s: Sync, t: nat, edit: bool, a: Access)
    requires var actions := TickStep(s, t, edit, a).1;
             actions != [] && actions[|actions| - 1].Read? && actions[|actions| - 1].ok
    ensures var actions := TickStep(s, t, edit, a).1;
            var read := actions[|actions| - 1];
            && read.trusted
            && (Deviation(read.rtcEpoch, read.gps) <= TOLERANCE_S
                || (s.correctionHeld && !Elapsed(Tick(t), s.correctionStartMs, CORRECTION_MS)))
  {
    hide Elapsed;
  }

  // ---- the module's statics -----------------------------------------------------------------------------

  class Synchronizer {
    var lastTickMs: U32
    var received: bool
    var valid: bool
    var epoch: U32
    var correctionHeld: bool
    var correctionStartMs: U32
    var retryHeld: bool
    var retryStartMs: U32
    ghost var log: seq<Action>

    ghost function View(): Sync
      reads this
    {
      Sync(lastTickMs, received, valid, epoch, correctionHeld, correctionStartMs, retryHeld, retryStartMs)
    }

    method Init(nowMs: U32)
      modifies this
      ensures View() == Start(nowMs) && log == []
    {
      lastTickMs, received, valid, epoch := nowMs, false, false, 0;
      correctionHeld, correctionStartMs, retryHeld, retryStartMs := false, 0, false, 0;
      log := [];
    }

    method ReceiveFrame(data: seq<U8>)
      modifies this`received, this`valid, this`epoch
      ensures View() == Receive(old(View()), data)
    {
      hide ClockTime.EpochInRange;
      if |data| <= STATUS_AT {
        return;
      }
      received := true;
      valid := ValidFrame(data);
      epoch := EpochOf(data);
    }

    /** rtcSyncFailed. */
    method NoteFailure(ok: bool, nowMs: U32) returns (failed: bool)
      modifies this`retryHeld, this`retryStartMs
      ensures failed == !ok && View() == if ok then old(View()) else Failed(old(View()), nowMs)
    {
      if ok {
        return false;
      }
      retryHeld, retryStartMs := true, nowMs;
      failed := true;
    }

    method ApplyFrame(gpsEpoch: U32, t: nat, a: Access)
      modifies this
      ensures View() == Apply(old(View()), gpsEpoch, t, a).0
      ensures log == old(log) + Apply(old(View()), gpsEpoch, t, a).1
    {
      log := log + [Read(t, a.readOk, a.trusted, a.rtcEpoch, gpsEpoch)];
      var ok := a.readOk;
      if ok && a.trusted {
        if Deviation(a.rtcEpoch, gpsEpoch) <= TOLERANCE_S || correctionHeld {
          return;
        }
      }
      if ok {
        ok := a.writeOk;
        log := log + [Write(t, ok, gpsEpoch)];
      }
      var failed := NoteFailure(ok, Tick(t));
      if failed {
        return;
      }
      correctionHeld, correctionStartMs := true, Tick(t);
    }

    /** Both calls of rtcSyncRelease. */
    method ReleaseHolds(now: U32)
      modifies this`lastTickMs, this`correctionHeld, this`retryHeld
      ensures View() == Released(old(View()), now)
    {
      lastTickMs := now;
      if correctionHeld && Elapsed(now, correctionStartMs, CORRECTION_MS) {
        correctionHeld := false;
      }
      if retryHeld && Elapsed(now, retryStartMs, RETRY_MS) {
        retryHeld := false;
      }
    }

    /** An unfinished change to UTC needs no new frame. */
    method SettleIfDue(t: nat, a: Access)
      modifies this`retryHeld, this`retryStartMs, this`log
      ensures View() == SettleStep(old(View()), t, a).0
      ensures log == old(log) + SettleStep(old(View()), t, a).1
    {
      if !retryHeld && !a.settled {
        log := log + [Settle(t, a.settleOk)];
        var _ := NoteFailure(a.settleOk, Tick(t));
      }
    }

    method TickOnce(t: nat, timeEditActive: bool, a: Access)
      modifies this
      ensures View() == TickStep(old(View()), t, timeEditActive, a).0
      ensures log == old(log) + TickStep(old(View()), t, timeEditActive, a).1
    {
      hide Elapsed, Apply, Released, SettleStep;
      var now := Tick(t);
      var queueFresh := !Elapsed(now, lastTickMs, MAX_RX_GAP_MS + 1);
      ReleaseHolds(now);
      SettleIfDue(t, a);
      var use := received && valid && queueFresh && !timeEditActive && !retryHeld;
      received := false;
      if use {
        ApplyFrame(epoch, t, a);
      }
    }
  }
}
