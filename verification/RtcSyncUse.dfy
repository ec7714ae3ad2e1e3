/**
 * The synchronizer's other half: it does act. While no access has failed lately
 * an unfinished change is settled and a new frame is used, and a clock that is
 * off is written.
 */
module RtcSyncUse {
  import opened Options
  import opened Words
  import ClockTime
  import opened RtcSync

  // ---- the frame of the GPS node --------------------------------------------------------

  /** The frame that carries UTC seconds, most significant byte first, after the
      number and before the status (src/Clocks/gps.cpp:143-154). */
  function GpsFrame(number: U8, epoch: U32, status: U8): seq<U8> {
    [number, epoch / 0x100_0000, epoch / 0x1_0000 % 0x100, epoch / 0x100 % 0x100, epoch % 0x100, status, 0, 0]
  }

  lemma FourBytes(n: nat)
    ensures n == n / 0x100_0000 * 0x100_0000 + n / 0x1_0000 % 0x100 * 0x1_0000 + n / 0x100 % 0x100 * 0x100 + n % 0x100
  {
    var q := n / 0x100;
    var p := q / 0x100;
    DivisionUnique(n, 0x1_0000, p, q % 0x100 * 0x100 + n % 0x100);
    var r := p / 0x100;
    DivisionUnique(n, 0x100_0000, r, p % 0x100 * 0x1_0000 + q % 0x100 * 0x100 + n % 0x100);
  }

  /** What the GPS node sends is what the clock takes: the seconds, valid exactly if
      the status says so and the year is one the clock can hold. */
  lemma GpsFrameIsTaken(number: U8, epoch: U32, status: U8)
    ensures var data := GpsFrame(number, epoch, status);
            && Complete(data) && EpochOf(data) == epoch
            && (ValidFrame(data) <==> status % 2 == 1 && ClockTime.EpochInRange(epoch))
  {
    hide ClockTime.EpochInRange;
    FourBytes(epoch);
  }

  // ---- when a tick acts --------------------------------------------------------------------

  /** By the counter an access failed less than 30 s ago. */
  ghost predicate FailedLately(log: seq<Action>, t: nat) {
    exists i :: 0 <= i < |log| && !log[i].ok && log[i].t <= t && (t - log[i].t) % M32 < 30000
  }

  lemma HeldIsFailure(s: State, t: nat)
    requires Inv(s) && s.clock <= t && Released(s.sync, Tick(t)).retryHeld
    ensures FailedLately(s.log, t)
  {
    hide CorrectionInv, KeepsAway, WritesInv;
    var f :| LatestFailure(s.log, f) && s.sync.retryStartMs == Tick(s.log[f].t);
    assert s.log[f].t <= s.clock;
    TickDifference(s.log[f].t, t);
  }

  lemma {:induction false} TickIsRemembered(t0: nat, evs: seq<Event>, ss: seq<State>, k: nat)
    requires IsRun(t0, evs, ss) && k < |ss|
    ensures ss[k].sync.lastTickMs == Tick(ss[k].clock)
    decreases k
  {
    hide Apply, SettleStep, ValidFrame, EpochOf, Complete;
    if k > 0 {
      var ev := evs[k - 1];
      TickIsRemembered(t0, evs, ss, k - 1);
      if ev.EvTick? {
        StepKeepsTick(ss[k - 1].sync, ev.t, ev.edit, ev.access);
      }
    }
  }

  lemma StepKeepsTick(s: Sync, t: nat, edit: bool, a: Access)
    ensures TickStep(s, t, edit, a).0.lastTickMs == Tick(t)
  {
    hide Elapsed;
  }

  /** What one pass does while nothing is held. */
  lemma FreeTick(s: Sync, t: nat, edit: bool, a: Access)
    requires !Released(s, Tick(t)).retryHeld
    ensures var actions := TickStep(s, t, edit, a).1;
            var settles := if a.settled then [] else [Settle(t, a.settleOk)];
            var uses := s.received && s.valid && !Elapsed(Tick(t), s.lastTickMs, MAX_RX_GAP_MS + 1) && !edit
                        && (a.settled || a.settleOk);
            var read := Read(t, a.readOk, a.trusted, a.rtcEpoch, s.epoch);
            var write := Write(t, a.writeOk, s.epoch);
            && (!uses ==> actions == settles)
            && (uses ==> actions == settles + [read] || actions == settles + [read, write])
            && (uses && a.readOk && !a.trusted ==> actions == settles + [read, write])
  {
    hide Elapsed;
  }

  /** In every run a tick settles an unfinished change, and reads the clock for the
      frame that came in since the tick before, whenever no access has failed less
      than 30 s ago; the frame must be valid, the tick at most 500 ms after the one
      before, no edit going on, and the settle, if any, successful. A clock that
      does not read as trusted is then written. Otherwise no frame is used. */
  lemma TickActs(t0: nat, evs: seq<Event>, ss: seq<State>, k: nat)
    requires IsRun(t0, evs, ss) && k < |evs| && evs[k].EvTick? && !FailedLately(ss[k].log, evs[k].t)
    ensures ss[k].clock <= evs[k].t
    ensures var (ev, a, waiting) := (evs[k], evs[k].access, Waiting(evs, k));
            var settles := if a.settled then [] else [Settle(ev.t, a.settleOk)];
            var uses := waiting.Some? && ValidWaiting(waiting) && (ev.t - ss[k].clock) % M32 <= 500 && !ev.edit
                        && (a.settled || a.settleOk);
            var gps := if uses then EpochOf(waiting.value) else 0;
            var read, write := Read(ev.t, a.readOk, a.trusted, a.rtcEpoch, gps), Write(ev.t, a.writeOk, gps);
            var log, log1 := ss[k].log + settles, ss[k + 1].log;
            && (!uses ==> log1 == log)
            && (uses ==> log1 == log + [read] || log1 == log + [read, write])
            && (uses && a.readOk && !a.trusted ==> log1 == log + [read, write])
  {
    hide TickStep, ValidFrame, EpochOf, Inv, Released, FailedLately;
    RunInv(t0, evs, ss, k);
    RunWaiting(t0, evs, ss, k);
    TickIsRemembered(t0, evs, ss, k);
    var ev := evs[k];
    assert InTime(ss[k], ev) && ss[k + 1] == Step(ss[k], ev);
    TickDifference(ss[k].clock, ev.t);
    if Released(ss[k].sync, Tick(ev.t)).retryHeld {
      HeldIsFailure(ss[k], ev.t);
    }
    FreeTick(ss[k].sync, ev.t, ev.edit, ev.access);
    var actions := TickStep(ss[k].sync, ev.t, ev.edit, ev.access).1;
    assert ss[k + 1].log == ss[k].log + actions;
  }

  predicate ValidWaiting(waiting: Option<seq<U8>>) {
    waiting.Some? && Complete(waiting.value) && ValidFrame(waiting.value)
  }
}
