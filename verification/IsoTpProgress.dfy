/**
 * The transmitter's other half: it does send. A frame that is due goes out, a
 * block is used up, flow control is obeyed, and a transfer ends early only for a
 * true timeout or an abort.
 */
module IsoTpProgress {
  import opened Words
  import opened IsoTpSegments
  import opened IsoTpSender

  // ---- what decides a wait ------------------------------------------------------------

  /** A flow-control frame of the tester that is not reserved: 30, 31 or 32, then
      block size and separation time (ISO 15765-2:2016, section 9.6), on the request
      identifier or one of the two a unit listens on. */
  predicate Decides(r: Received, requestId: U32) {
    && r.Frame? && (r.id == requestId || r.id == 0x7E0 || r.id == 0x7DF)
    && |r.data| == 8 && r.dlc >= 3 && 0x30 <= r.data[0] <= 0x32
  }

  /** The first frame that decides, among the eight a pass may read; a failed read
      ends the pass. */
  ghost predicate FirstDecider(rx: seq<Received>, requestId: U32, at: nat) {
    && at < |rx| && at < 8 && Decides(rx[at], requestId)
    && (forall j :: 0 <= j < at ==> rx[j].Frame? && !Decides(rx[j], requestId))
  }

  lemma {:induction false} DrainObeys(tx: GoodTx, rx: seq<Received>, now: U32, k: nat, at: nat)
    requires FirstDecider(rx, tx.requestId, at) && k <= at
    ensures DrainedAt(tx, rx, k) == at
    ensures var (tx1, outcome) := Drain(tx, rx, now, k);
            var kind := rx[at].data[0] % 16;
            && (kind == 0 ==> tx1.phase == SendCf && tx1.txRetryStart == now && outcome == Running)
            && (kind == 1 ==> tx1 == tx.(fcWaitStart := now) && outcome == Running)
            && (kind == 2 ==> tx1 == tx.(phase := Idle) && outcome == Aborted)
    decreases at - k
  {
    if k < at {
      DrainObeys(tx, rx, now, k + 1, at);
    }
  }

  lemma {:induction false} DrainHearsNothing(tx: GoodTx, rx: seq<Received>, now: U32, k: nat)
    requires k <= DRAIN && k <= |rx| && forall j :: 0 <= j < k ==> rx[j].Frame? && !Decides(rx[j], tx.requestId)
    requires forall at: nat :: !FirstDecider(rx, tx.requestId, at)
    ensures Drain(tx, rx, now, k) == (tx, Running) && DrainedAt(tx, rx, k) == |rx|
    decreases DRAIN - k
  {
    if k < DRAIN && k < |rx| && rx[k].Frame? {
      assert !FirstDecider(rx, tx.requestId, k);
      DrainHearsNothing(tx, rx, now, k + 1);
    }
  }

  // ---- the timer of a phase -----------------------------------------------------------

  /** The clock is read in the order of the calls. */
  ghost predicate Clocked(evs: seq<Event>) {
    && (forall k :: 0 <= k < |evs| ==> evs[k].t <= evs[k].t2)
    && (forall j, k :: 0 <= j < k < |evs| ==> evs[j].t2 <= evs[k].t)
  }

  /** A wait frame decides the pass. */
  ghost predicate Extends(s: State, ev: Event) {
    ev.EvProcess? && exists at: nat :: FirstDecider(ev.rx, s.tx.requestId, at) && ev.rx[at].data[0] == 0x31
  }

  /** When the timer of the phase was started last: the wait began or was extended,
      the clear to send came, or the latest frame went out. */
  ghost function Timer(evs: seq<Event>, ss: seq<State>, k: nat): (t: nat)
    requires |ss| == |evs| + 1 && k < |ss|
  {
    if k == 0 then 0
    else
      var (s, s1, ev) := (ss[k - 1], ss[k], evs[k - 1]);
      if s1.tx.phase != s.tx.phase then ev.t2
      else if s.tx.phase == WaitFc && Extends(s, ev) then ev.t2
      else if s.tx.phase == SendCf && s1.h.wire != s.h.wire then ev.t
      else Timer(evs, ss, k - 1)
  }

  lemma {:induction false} TimerIsPast(evs: seq<Event>, ss: seq<State>, k: nat)
    requires |ss| == |evs| + 1 && k < |ss| && Clocked(evs)
    ensures Timer(evs, ss, k) <= if k == 0 then 0 else evs[k - 1].t2
    decreases k
  {
    if k > 0 {
      TimerIsPast(evs, ss, k - 1);
      assert k > 1 ==> evs[k - 2].t2 <= evs[k - 1].t <= evs[k - 1].t2;
    }
  }

  ghost predicate TimerInv(s: State, timer: nat) {
    && (s.tx.phase == WaitFc ==> s.tx.fcWaitStart == Tick(timer))
    && (s.tx.phase == SendCf ==> s.tx.txRetryStart == Tick(timer))
  }

  /** By the counter the separation time is over, or the block has just begun. */
  predicate DueNow(s: State, ev: Event)
    requires ev.EvProcess?
  {
    s.tx.cfSent ==> Elapsed(Tick(ev.t), s.tx.lastCfTime, s.tx.stMin)
  }

  /** One pass of a transfer that is open, by phase. */
  lemma PassWaits(s: State, ev: Event)
    requires StateShape(s) && ev.EvProcess? && s.tx.phase == WaitFc
    ensures var s1 := Step(s, ev);
            var expired := Elapsed(Tick(ev.t), s.tx.fcWaitStart, FC_TIMEOUT_MS);
            && s1.h.wire == s.h.wire && s1.h.done == s.h.done && s1.h.payload == s.h.payload
            && (expired ==> s1 == s.(tx := s.tx.(phase := Idle)))
            && (!expired ==> forall at: nat :: FirstDecider(ev.rx, s.tx.requestId, at) ==>
                  var d := ev.rx[at].data;
                  && (d[0] == 0x30 ==>
                        && s1.tx.phase == SendCf && s1.h.block == [] && s1.h.blockSize == d[1] && s1.h.stRaw == d[2]
                        && s1.tx.txRetryStart == Tick(ev.t2))
                  && (d[0] == 0x31 ==> s1 == s.(tx := s.tx.(fcWaitStart := Tick(ev.t2))))
                  && (d[0] == 0x32 ==> s1 == s.(tx := s.tx.(phase := Idle))))
            && (!expired && (forall at: nat :: !FirstDecider(ev.rx, s.tx.requestId, at)) ==> s1 == s)
  {
    hide Drain, DrainedAt, Elapsed, FirstDecider;
    if !Elapsed(Tick(ev.t), s.tx.fcWaitStart, FC_TIMEOUT_MS) {
      if at: nat :| FirstDecider(ev.rx, s.tx.requestId, at) {
        forall at: nat | FirstDecider(ev.rx, s.tx.requestId, at)
          ensures DrainedAt(s.tx, ev.rx, 0) == at
        {
          DrainObeys(s.tx, ev.rx, Tick(ev.t2), 0, at);
        }
        DrainObeys(s.tx, ev.rx, Tick(ev.t2), 0, at);
        DeciderIsFrame(ev.rx, s.tx.requestId, at);
        DrainEffect(s.tx, ev.rx, Tick(ev.t2), 0);
      } else {
        DrainHearsNothing(s.tx, ev.rx, Tick(ev.t2), 0);
      }
    }
  }

  lemma DeciderIsFrame(rx: seq<Received>, requestId: U32, at: nat)
    requires FirstDecider(rx, requestId, at)
    ensures at < |rx| && rx[at].Frame? && |rx[at].data| == 8 && 0x30 <= rx[at].data[0] <= 0x32
  {
  }

  lemma PassSends(s: State, ev: Event)
    requires StateShape(s) && ev.EvProcess? && s.tx.phase == SendCf
    ensures var s1 := Step(s, ev);
            && (DueNow(s, ev) && ev.sendOk ==>
                  && s1.h == s.h.(wire := s.h.wire + [NextFrame(s.tx)], block := s.h.block + [ev.t],
                                  done := s1.tx.offset >= s.tx.len)
                  && s1.tx.offset == Min(s.tx.len, s.tx.offset + 7) && s1.tx.len == s.tx.len
                  && s1.tx.phase == (if s1.tx.offset >= s.tx.len then Idle
                                     else if s.tx.blockSize != 0 && s.tx.blockSent + 1 >= s.tx.blockSize then WaitFc
                                     else SendCf)
                  && s1.tx.txRetryStart == Tick(ev.t)
                  && (s1.tx.phase == WaitFc ==> s1.tx.fcWaitStart == Tick(ev.t2)))
            && (!DueNow(s, ev) ==> s1 == s)
            && (DueNow(s, ev) && !ev.sendOk ==>
                  s1 == if Elapsed(Tick(ev.t2), s.tx.txRetryStart, RETRY_TIMEOUT_MS)
                        then s.(tx := s.tx.(phase := Idle)) else s)
  {
    hide NextFrame, Elapsed;
  }

  lemma SendStep(s: State, ev: Event)
    requires StateShape(s) && ev.EvSend?
    ensures var s1 := Step(s, ev);
            var starts := s.tx.phase == Idle && 1 <= |ev.payload| <= MAX_PAYLOAD && ev.sendOk;
            && (!starts ==> s1 == s)
            && (starts ==>
                  && s1.h.payload == ev.payload && s1.h.wire == [Segment(ev.payload)[0]]
                  && s1.h.done == (|ev.payload| <= 7)
                  && s1.tx.phase == (if |ev.payload| <= 7 then Idle else WaitFc)
                  && (|ev.payload| > 7 ==>
                        && s1.tx.fcWaitStart == Tick(ev.t2) && s1.tx.len == |ev.payload|
                        && s1.tx.responseId == ev.responseId && s1.tx.requestId == ev.requestId))
  {
  }

  lemma TimerStep(evs: seq<Event>, ss: seq<State>, k: nat)
    requires IsRun(evs, ss) && |ss| == |evs| + 1 && 0 < k < |ss| && TimerInv(ss[k - 1], Timer(evs, ss, k - 1))
    ensures TimerInv(ss[k], Timer(evs, ss, k))
  {
    hide Elapsed, NextFrame, Segment, FirstDecider, StepSend, StepProcess, IsRun, DueNow;
    var (s, ev) := (ss[k - 1], evs[k - 1]);
    StepOfRun(evs, ss, k - 1);
    if ev.EvSend? {
      SendStep(s, ev);
    } else if s.tx.phase == WaitFc {
      WaitTimer(evs, ss, k);
    } else if s.tx.phase == SendCf {
      PassSends(s, ev);
      Longer(s.h.wire, NextFrame(s.tx));
    } else {
      IdlePass(s, ev);
    }
  }

  lemma WaitTimer(evs: seq<Event>, ss: seq<State>, k: nat)
    requires |ss| == |evs| + 1 && 0 < k < |ss| && TimerInv(ss[k - 1], Timer(evs, ss, k - 1))
    requires StateShape(ss[k - 1]) && evs[k - 1].EvProcess? && ss[k - 1].tx.phase == WaitFc
    requires ss[k] == Step(ss[k - 1], evs[k - 1])
    ensures TimerInv(ss[k], Timer(evs, ss, k))
  {
    hide Elapsed, FirstDecider, Step;
    var (s, ev) := (ss[k - 1], evs[k - 1]);
    PassWaits(s, ev);
    if at: nat :| FirstDecider(ev.rx, s.tx.requestId, at) {
      DeciderIsFrame(ev.rx, s.tx.requestId, at);
    }
  }

  lemma StepOfRun(evs: seq<Event>, ss: seq<State>, k: nat)
    requires IsRun(evs, ss) && k < |evs|
    ensures StateShape(ss[k]) && StateShape(ss[k + 1]) && ss[k + 1] == Step(ss[k], evs[k])
  {
    var ev := evs[k];
  }

  lemma Longer(wire: seq<Bytes>, f: Bytes)
    ensures wire + [f] != wire
  {
    assert |wire + [f]| == |wire| + 1;
  }

  lemma IdlePass(s: State, ev: Event)
    requires StateShape(s) && ev.EvProcess? && s.tx.phase == Idle
    ensures Step(s, ev) == s
  {
    hide DrainedAt;
  }

  lemma {:induction false} RunTimer(evs: seq<Event>, ss: seq<State>, k: nat)
    requires IsRun(evs, ss) && k < |ss|
    ensures TimerInv(ss[k], Timer(evs, ss, k))
    decreases k
  {
    hide Step, Timer, TimerInv;
    if k == 0 {
      FirstTimer(evs, ss);
    } else {
      RunTimer(evs, ss, k - 1);
      TimerStep(evs, ss, k);
    }
  }

  lemma FirstTimer(evs: seq<Event>, ss: seq<State>)
    requires IsRun(evs, ss)
    ensures TimerInv(ss[0], Timer(evs, ss, 0))
  {
  }

  // ---- main results ---------------------------------------------------------------------

  /** A payload of 1 to 160 bytes that is given while nothing is being sent starts
      its transfer if its first frame is accepted; anything else changes nothing. */
  lemma TransferStarts(evs: seq<Event>, ss: seq<State>, k: nat)
    requires IsRun(evs, ss) && k < |evs| && evs[k].EvSend?
    ensures var (s, s1, ev) := (ss[k], ss[k + 1], evs[k]);
            var starts := s.tx.phase == Idle && 1 <= |ev.payload| <= 160 && ev.sendOk;
            && (!starts ==> s1 == s)
            && (starts ==>
                  && s1.h.payload == ev.payload && s1.h.wire == [Segment(ev.payload)[0]]
                  && s1.tx.phase == (if |ev.payload| <= 7 then Idle else WaitFc))
  {
    hide StepSend, Segment, StateShape;
    StepOfRun(evs, ss, k);
    SendStep(ss[k], evs[k]);
  }

  /** A transfer keeps the identifiers it was started with: its frames go out on
      the one, and flow control is taken from the other. */
  lemma IdentifiersStand(evs: seq<Event>, ss: seq<State>, k: nat)
    requires IsRun(evs, ss) && k < |evs| && ss[k + 1].tx.phase != Idle
    ensures var (tx, tx1, ev) := (ss[k].tx, ss[k + 1].tx, evs[k]);
            (tx1.responseId, tx1.requestId) ==
            if tx.phase == Idle && ev.EvSend? then (ev.responseId, ev.requestId) else (tx.responseId, tx.requestId)
  {
    hide Elapsed, NextFrame, DrainedAt;
    var (s, ev) := (ss[k], evs[k]);
    StepOfRun(evs, ss, k);
    if ev.EvProcess? && s.tx.phase == WaitFc {
      DrainKeepsIds(s.tx, ev.rx, Tick(ev.t2), 0);
    }
  }

  lemma {:induction false} DrainKeepsIds(tx: GoodTx, rx: seq<Received>, now: U32, k: nat)
    ensures var tx1 := Drain(tx, rx, now, k).0; tx1.responseId == tx.responseId && tx1.requestId == tx.requestId
    decreases DRAIN - k
  {
    if k < DRAIN && k < |rx| && rx[k].Frame? {
      DrainKeepsIds(tx, rx, now, k + 1);
    }
  }

  /** When the next frame is due in a block: it is the first, or by the counter the
      separation time has passed since the one before. */
  predicate Due(h: Hist, t: nat)
    requires h.block != [] ==> h.block[|h.block| - 1] <= t
  {
    h.block != [] ==> (t - h.block[|h.block| - 1]) % M32 >= StMinToMs(h.stRaw)
  }

  lemma BlockIsPast(evs: seq<Event>, ss: seq<State>, k: nat)
    requires IsRun(evs, ss) && k < |evs|
    ensures ss[k].h.block != [] ==> ss[k].h.block[|ss[k].h.block| - 1] <= evs[k].t
  {
    RunInv(evs, ss, k);
    assert k > 0 ==> TimeOf(evs[k - 1]) <= TimeOf(evs[k]);
  }

  lemma DueIsDueNow(evs: seq<Event>, ss: seq<State>, k: nat)
    requires IsRun(evs, ss) && k < |evs| && evs[k].EvProcess? && ss[k].tx.phase == SendCf
    requires ss[k].h.block != [] ==> ss[k].h.block[|ss[k].h.block| - 1] <= evs[k].t
    ensures DueNow(ss[k], evs[k]) <==> Due(ss[k].h, evs[k].t)
  {
    RunInv(evs, ss, k);
    var h := ss[k].h;
    if h.block != [] {
      TickDifference(h.block[|h.block| - 1], evs[k].t);
    }
  }

  /** A pass while a block is being sent puts out the next frame exactly if it is
      due and accepted: the first of the block, or one whose separation time has
      passed; it is surely due once the time has truly passed, up to a wrap. */
  lemma DueFrameGoesOut(evs: seq<Event>, ss: seq<State>, k: nat)
    requires IsRun(evs, ss) && k < |evs| && evs[k].EvProcess? && ss[k].tx.phase == SendCf
    ensures ss[k].h.block != [] ==> ss[k].h.block[|ss[k].h.block| - 1] <= evs[k].t
    ensures 7 < |ss[k].h.payload| <= MAX_PAYLOAD
    ensures var (h, h1, t) := (ss[k].h, ss[k + 1].h, evs[k].t);
            && |h.wire| < |Segment(h.payload)|
            && h1.wire == (if Due(h, t) && evs[k].sendOk then Segment(h.payload)[..|h.wire| + 1] else h.wire)
            && (h.block != [] ==>
                  var gone := t - h.block[|h.block| - 1]; StMinToMs(h.stRaw) <= gone < M32 ==> Due(h, t))
  {
    hide StepProcess, Segment, NextFrame, DueNow;
    BlockIsPast(evs, ss, k);
    DueIsDueNow(evs, ss, k);
    StepOfRun(evs, ss, k);
    RunInv(evs, ss, k);
    PassSends(ss[k], evs[k]);
    NextFrameIs(ss[k]);
  }

  /** After a frame that did not complete the transfer the tester is asked again
      exactly if the block now holds the granted number of frames. */
  lemma BlockEndsWhenFull(evs: seq<Event>, ss: seq<State>, k: nat)
    requires IsRun(evs, ss) && k < |evs| && ss[k].tx.phase == SendCf
    ensures ss[k + 1].tx.phase == WaitFc ==> ss[k + 1].h.wire != ss[k].h.wire
    ensures ss[k + 1].h.wire != ss[k].h.wire && !ss[k + 1].h.done ==>
              (ss[k + 1].tx.phase == WaitFc <==>
                 ss[k + 1].h.blockSize != 0 && |ss[k + 1].h.block| == ss[k + 1].h.blockSize)
              && (ss[k + 1].tx.phase == WaitFc || ss[k + 1].tx.phase == SendCf)
  {
    hide StepProcess, StepSend, Segment, NextFrame, Elapsed, DueNow;
    StepOfRun(evs, ss, k);
    RunInv(evs, ss, k);
    if evs[k].EvSend? {
      SendStep(ss[k], evs[k]);
    } else {
      PassSends(ss[k], evs[k]);
      Longer(ss[k].h.wire, NextFrame(ss[k].tx));
    }
  }

  lemma TimerDifference(evs: seq<Event>, ss: seq<State>, k: nat)
    requires IsRun(evs, ss) && |ss| == |evs| + 1 && Clocked(evs) && k < |evs|
    ensures var timer := Timer(evs, ss, k);
            && timer <= evs[k].t <= evs[k].t2
            && (forall period: nat :: Elapsed(Tick(evs[k].t), Tick(timer), period) <==> (evs[k].t - timer) % M32 >= period)
            && (forall period: nat :: Elapsed(Tick(evs[k].t2), Tick(timer), period) <==> (evs[k].t2 - timer) % M32 >= period)
  {
    hide Timer, IsRun;
    TimerIsPast(evs, ss, k);
    assert k > 0 ==> evs[k - 1].t2 <= evs[k].t;
    TickDifference(Timer(evs, ss, k), evs[k].t);
    TickDifference(Timer(evs, ss, k), evs[k].t2);
  }

  /** A wait obeys the first deciding frame of the tester: a clear to send opens a
      block with its size and separation time, a wait starts the timer again, an
      abort ends the transfer. Without one, or after the timeout, nothing else. */
  lemma FlowControlIsObeyed(evs: seq<Event>, ss: seq<State>, k: nat)
    requires IsRun(evs, ss) && |ss| == |evs| + 1 && Clocked(evs) && k < |evs| && evs[k].EvProcess? && ss[k].tx.phase == WaitFc
    ensures var (s, s1, ev) := (ss[k], ss[k + 1], evs[k]);
            var expired := (ev.t - Timer(evs, ss, k)) % M32 >= 1000;
            && s1.h.wire == s.h.wire && s1.h.done == s.h.done
            && (expired ==> s1.tx.phase == Idle)
            && (!expired ==> forall at: nat :: FirstDecider(ev.rx, s.tx.requestId, at) ==>
                  var d := ev.rx[at].data;
                  && (d[0] == 0x30 <==> s1.tx.phase == SendCf)
                  && (d[0] == 0x30 ==> s1.h.block == [] && s1.h.blockSize == d[1] && s1.h.stRaw == d[2])
                  && (d[0] == 0x31 ==> s1.tx.phase == WaitFc && Timer(evs, ss, k + 1) == ev.t2)
                  && (d[0] == 0x32 ==> s1.tx.phase == Idle))
            && (!expired && (forall at: nat :: !FirstDecider(ev.rx, s.tx.requestId, at)) ==> s1 == s)
  {
    hide StepProcess, Elapsed, FirstDecider, TimerInv, IsRun;
    StepOfRun(evs, ss, k);
    TimerDifference(evs, ss, k);
    WaitingTimer(evs, ss, k);
    PassWaits(ss[k], evs[k]);
    forall at: nat | FirstDecider(evs[k].rx, ss[k].tx.requestId, at)
      ensures at < |evs[k].rx| && evs[k].rx[at].Frame? && |evs[k].rx[at].data| == 8 && 0x30 <= evs[k].rx[at].data[0] <= 0x32
    {
      DeciderIsFrame(evs[k].rx, ss[k].tx.requestId, at);
    }
  }

  lemma WaitingTimer(evs: seq<Event>, ss: seq<State>, k: nat)
    requires IsRun(evs, ss) && k < |ss|
    ensures ss[k].tx.phase == WaitFc ==> ss[k].tx.fcWaitStart == Tick(Timer(evs, ss, k))
    ensures ss[k].tx.phase == SendCf ==> ss[k].tx.txRetryStart == Tick(Timer(evs, ss, k))
  {
    hide IsRun, Timer;
    RunTimer(evs, ss, k);
  }

  /** A transfer ends early only after a true second without flow control, after an
      abort of the tester, or when a due frame has been refused for a true second;
      and then it does, while less than a wrap has passed. */
  lemma EndsEarlyExactly(evs: seq<Event>, ss: seq<State>, k: nat)
    requires IsRun(evs, ss) && |ss| == |evs| + 1 && Clocked(evs) && k < |evs| && ss[k].tx.phase != Idle
    ensures ss[k].h.block != [] ==> ss[k].h.block[|ss[k].h.block| - 1] <= evs[k].t
    ensures var (s, s1, ev, timer) := (ss[k], ss[k + 1], evs[k], Timer(evs, ss, k));
            var early := s1.tx.phase == Idle && !s1.h.done;
            var aborted := ev.EvProcess? && exists at: nat ::
                             FirstDecider(ev.rx, s.tx.requestId, at) && ev.rx[at].data[0] == 0x32;
            && (early && s.tx.phase == WaitFc ==> ev.EvProcess? && (ev.t - timer >= 1000 || aborted))
            && (early && s.tx.phase == SendCf ==> ev.EvProcess? && !ev.sendOk && ev.t2 - timer >= 1000)
            && (s.tx.phase == WaitFc && ev.EvProcess? && (1000 <= ev.t - timer < M32 || aborted) ==> early)
            && (s.tx.phase == SendCf && ev.EvProcess? && !ev.sendOk && Due(s.h, ev.t) ==>
                  1000 <= ev.t2 - timer < M32 ==> early)
  {
    hide StepProcess, StepSend, Elapsed, FirstDecider, TimerInv, Timer, IsRun, NextFrame, Segment, DueNow, Follows, Paced;
    var (s, ev) := (ss[k], evs[k]);
    StepOfRun(evs, ss, k);
    BlockIsPast(evs, ss, k);
    OpenIsNotDone(evs, ss, k);
    TimerDifference(evs, ss, k);
    WaitingTimer(evs, ss, k);
    ModAtMost(ev.t - Timer(evs, ss, k));
    ModAtMost(ev.t2 - Timer(evs, ss, k));
    if ev.EvSend? {
      SendStep(s, ev);
    } else if s.tx.phase == WaitFc {
      PassWaits(s, ev);
      if at: nat :| FirstDecider(ev.rx, s.tx.requestId, at) {
        DeciderIsFrame(ev.rx, s.tx.requestId, at);
      }
    } else {
      DueIsDueNow(evs, ss, k);
      PassSends(s, ev);
    }
  }

  lemma ModAtMost(n: nat)
    ensures n % M32 <= n && (n < M32 ==> n % M32 == n)
  {
    assert n == M32 * (n / M32) + n % M32;
  }

  lemma OpenIsNotDone(evs: seq<Event>, ss: seq<State>, k: nat)
    requires IsRun(evs, ss) && k < |ss| && ss[k].tx.phase != Idle
    ensures !ss[k].h.done && 7 < |ss[k].h.payload| <= MAX_PAYLOAD
    ensures ss[k].tx.offset < ss[k].tx.len
  {
    RunInv(evs, ss, k);
    NextFrameIs(ss[k]);
  }

  // ---- a transfer that is helped along -----------------------------------------------------

  /** Passes still needed: one for each frame, and one clear to send before each. */
  ghost function Rank(s: State): (n: nat)
    requires StateShape(s)
  {
    if s.tx.phase == Idle then 0
    else 2 * ((s.tx.len - s.tx.offset + 6) / 7) + (if s.tx.phase == WaitFc then 1 else 0)
  }

  /** The tester clears to send in time, or the frame is due and accepted. */
  ghost predicate Helps(evs: seq<Event>, ss: seq<State>, k: nat)
    requires |ss| == |evs| + 1 && k < |evs|
  {
    var (s, ev) := (ss[k], evs[k]);
    && ev.EvProcess?
    && (s.tx.phase == WaitFc ==>
          && (ev.t - Timer(evs, ss, k)) % M32 < 1000
          && exists at: nat :: FirstDecider(ev.rx, s.tx.requestId, at) && ev.rx[at].data[0] == 0x30)
    && (s.tx.phase == SendCf ==>
          ev.sendOk && (s.h.block != [] ==> StMinToMs(s.h.stRaw) <= ev.t - s.h.block[|s.h.block| - 1] < M32))
  }

  lemma FramesLeft(left: nat)
    requires left > 0
    ensures (left + 6) / 7 > 0
    ensures left > 7 ==> (left - 7 + 6) / 7 == (left + 6) / 7 - 1
  {
  }

  lemma HelpedStep(evs: seq<Event>, ss: seq<State>, k: nat)
    requires IsRun(evs, ss) && |ss| == |evs| + 1 && Clocked(evs) && k < |evs| && Helps(evs, ss, k)
    requires ss[k].tx.phase != Idle && StateShape(ss[k]) && StateShape(ss[k + 1])
    ensures ss[k + 1].tx.phase == Idle ==> ss[k + 1].h.done
    ensures ss[k + 1].h.payload == ss[k].h.payload
    ensures Rank(ss[k + 1]) < Rank(ss[k])
  {
    hide Step, Elapsed, FirstDecider, TimerInv, Timer, IsRun, NextFrame, Segment, DueNow;
    StepOfRun(evs, ss, k);
    OpenIsNotDone(evs, ss, k);
    FramesLeft(ss[k].tx.len - ss[k].tx.offset);
    if ss[k].tx.phase == WaitFc {
      FlowControlIsObeyed(evs, ss, k);
      WaitKeepsTransfer(ss[k], evs[k]);
    } else {
      DueFrameGoesOut(evs, ss, k);
      DueIsDueNow(evs, ss, k);
      PassSends(ss[k], evs[k]);
    }
  }

  lemma WaitKeepsTransfer(s: State, ev: Event)
    requires StateShape(s) && ev.EvProcess? && s.tx.phase == WaitFc
    ensures var s1 := Step(s, ev);
            s1.tx.len == s.tx.len && s1.tx.offset == s.tx.offset && s1.h.payload == s.h.payload
  {
    hide Drain, DrainedAt, Elapsed;
    DrainEffect(s.tx, ev.rx, Tick(ev.t2), 0);
  }

  lemma {:induction false} HelpedRun(evs: seq<Event>, ss: seq<State>, a: nat, k: nat)
    requires IsRun(evs, ss) && |ss| == |evs| + 1 && Clocked(evs) && a <= k < |ss| && ss[a].tx.phase != Idle
    requires forall n :: a <= n < k ==> Helps(evs, ss, n)
    requires forall n :: 0 <= n < |ss| ==> StateShape(ss[n])
    ensures ss[k].h.payload == ss[a].h.payload
    ensures if ss[k].tx.phase == Idle then ss[k].h.done else Rank(ss[k]) + (k - a) <= Rank(ss[a])
    decreases k
  {
    hide IsRun, Helps, Rank, StateShape, Clocked;
    if a < k {
      HelpedRun(evs, ss, a, k - 1);
      assert Helps(evs, ss, k - 1);
      if ss[k - 1].tx.phase == Idle {
        HelpsIsPass(evs, ss, k - 1);
        StepOfRun(evs, ss, k - 1);
        IdlePass(ss[k - 1], evs[k - 1]);
      } else {
        HelpedStep(evs, ss, k - 1);
      }
    }
  }

  lemma HelpsIsPass(evs: seq<Event>, ss: seq<State>, k: nat)
    requires |ss| == |evs| + 1 && k < |evs| && Helps(evs, ss, k)
    ensures evs[k].EvProcess?
  {
  }

  /** From any open state of any run: while the tester clears to send in time and
      the frames that are due are accepted, the receiver has the whole payload
      after at most that many passes. */
  lemma HelpedTransferCompletes(evs: seq<Event>, ss: seq<State>, a: nat, k: nat)
    requires IsRun(evs, ss) && |ss| == |evs| + 1 && Clocked(evs) && a <= k < |ss|
    requires StateShape(ss[a]) && ss[a].tx.phase != Idle && k - a >= Rank(ss[a])
    requires forall n :: a <= n < k ==> Helps(evs, ss, n)
    ensures ss[k].h.done && ss[k].h.payload == ss[a].h.payload
    ensures ss[k].h.payload != [] && (forall i :: 0 <= i < |ss[k].h.wire| ==> |ss[k].h.wire[i]| == FRAME)
    ensures Reassemble(ss[k].h.wire) == Complete(ss[a].h.payload)
  {
    hide Helps, Timer, Clocked, Reassemble;
    HelpedRun(evs, ss, a, k);
    OpenIsNotDone(evs, ss, a);
    RankIsPositive(evs, ss, k);
    WireIsPrefix(evs, ss, k);
  }

  lemma RankIsPositive(evs: seq<Event>, ss: seq<State>, k: nat)
    requires IsRun(evs, ss) && k < |ss|
    ensures StateShape(ss[k]) && (ss[k].tx.phase != Idle ==> Rank(ss[k]) > 0)
  {
    if ss[k].tx.phase != Idle {
      OpenIsNotDone(evs, ss, k);
    }
  }
}
