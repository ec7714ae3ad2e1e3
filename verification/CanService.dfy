/**
 * The scheduler's other half: a waiting slot is served as soon as it may be, and
 * five calls spaced in true time serve any slot.
 */
module CanService {
  import opened Words
  import opened CanSchedule

  // ---- what is waiting, by the calls alone ----------------------------------------------

  /** The latest init of the controller succeeded. */
  predicate Started(evs: seq<Event>, k: nat)
    requires k <= |evs|
  {
    k > 0 && if evs[k - 1].EvInit? then evs[k - 1].ok else Started(evs, k - 1)
  }

  /** The slot was queued since the latest init and not attempted since. */
  predicate Waits(evs: seq<Event>, ss: seq<State>, k: nat, slot: nat)
    requires |ss| == |evs| + 1 && k <= |evs|
  {
    k > 0 && !evs[k - 1].EvInit?
    && ((evs[k - 1].EvQueue? && evs[k - 1].slot == slot) || Waits(evs, ss, k - 1, slot))
    && !AttemptedSince(ss[k].attempts, |ss[k - 1].attempts|, slot)
  }

  lemma RpmKeepsPending(s: State, t: nat, rpm: int, ok: bool, sent: nat)
    requires Shape(s.tx)
    ensures var s1 := RpmState(s, t, rpm, ok, sent);
            && Shape(s1.tx) && s1.tx.pending == s.tx.pending && s1.tx.ready == s.tx.ready && s.attempts <= s1.attempts
            && (forall a :: |s.attempts| <= a < |s1.attempts| ==> s1.attempts[a].Rpm?)
  {
    hide RpmDue;
  }

  lemma ServicePending(s: State, t: nat, end: nat, slot: nat, from: nat)
    requires Shape(s.tx) && slot < SLOTS && from <= |s.attempts|
    requires forall a :: from <= a < |s.attempts| ==> s.attempts[a].Rpm?
    ensures var s1 := ServiceState(s, t, end);
            && s1.tx.ready == s.tx.ready
            && s1.tx.pending[slot] == (s.tx.pending[slot] && !AttemptedSince(s1.attempts, from, slot))
  {
    hide Throttled;
    var s1 := ServiceState(s, t, end);
    if Serves(s.tx, Tick(t)) {
      TurnIsPending(s.tx);
      assert s1.attempts[|s.attempts|].slot == Turn(s.tx);
    }
  }

  lemma StepPending(s: State, ev: Event, slot: nat)
    requires Shape(s.tx) && Admissible(ev) && slot < SLOTS
    ensures var s1 := Step(s, ev);
            && s1.tx.ready == (if ev.EvInit? then ev.ok else s.tx.ready)
            && (s1.tx.pending[slot] <==>
                  && !ev.EvInit? && ((ev.EvQueue? && ev.slot == slot) || s.tx.pending[slot])
                  && !AttemptedSince(s1.attempts, |s.attempts|, slot))
  {
    hide ServiceState, RpmState, AttemptedSince;
    match ev
    case EvInit(_, _) =>
    case EvQueue(q, payload, t, end) => ServicePending(s.(tx := Queue(s.tx, q, payload)), t, end, slot, |s.attempts|);
    case EvService(t, end) => ServicePending(s, t, end, slot, |s.attempts|);
    case EvRpm(t, rpm, ok, sent, t2, end) =>
      RpmKeepsPending(s, t, rpm, ok, sent);
      ServicePending(RpmState(s, t, rpm, ok, sent), t2, end, slot, |s.attempts|);
  }

  lemma StepOfRun(evs: seq<Event>, ss: seq<State>, k: nat)
    requires IsRun(evs, ss) && k < |evs|
    ensures |ss| == |evs| + 1 && Admissible(evs[k]) && Shape(ss[k].tx) && ss[k + 1] == Step(ss[k], evs[k])
  {
    var ev := evs[k];
  }

  /** The sender's flags say what the calls have asked for. */
  lemma {:induction false} FlagsAreCalls(evs: seq<Event>, ss: seq<State>, k: nat, slot: nat)
    requires IsRun(evs, ss) && k < |ss| && slot < SLOTS
    ensures |ss[k].tx.pending| == SLOTS
    ensures ss[k].tx.ready == Started(evs, k) && ss[k].tx.pending[slot] == Waits(evs, ss, k, slot)
    decreases k
  {
    hide Step, AttemptedSince, Inv;
    if k > 0 {
      StepOfRun(evs, ss, k - 1);
      FlagsAreCalls(evs, ss, k - 1, slot);
      StepPending(ss[k - 1], evs[k - 1], slot);
    }
  }

  // ---- when a call serves ----------------------------------------------------------------

  /** When a call looks at the clock for the service. */
  function ServiceTime(ev: Event): nat
    requires !ev.EvInit?
  {
    if ev.EvRpm? then ev.t2 else ev.t
  }

  /** The call attempted a periodic frame. */
  predicate Served(s: State, s1: State) {
    |s1.attempts| > |s.attempts| && s1.attempts[|s1.attempts| - 1].Periodic?
  }

  /** The attempts before the service of the call. */
  function Earlier(s: State, s1: State): seq<Attempt> {
    if Served(s, s1) then s1.attempts[..|s1.attempts| - 1] else s1.attempts
  }

  /** Since the init an attempt has ended less than 2 ms ago, by the counter. */
  predicate HeldBack(s: State, s1: State, t: nat)
    requires s.before < |Earlier(s, s1)| ==> Earlier(s, s1)[|Earlier(s, s1)| - 1].after <= t
  {
    var earlier := Earlier(s, s1);
    s.before < |earlier| && (t - earlier[|earlier| - 1].after) % M32 < 2
  }

  /** One of the five slots waits. */
  predicate IsWaiting(evs: seq<Event>, ss: seq<State>, k: nat, slot: nat)
    requires |ss| == |evs| + 1 && k <= |evs|
  {
    slot < 5 && Waits(evs, ss, k, slot)
  }

  /** Some slot is waiting once the call has queued its own. */
  ghost predicate SomeWaits(evs: seq<Event>, ss: seq<State>, k: nat)
    requires |ss| == |evs| + 1 && k < |evs|
  {
    evs[k].EvQueue? || exists slot: nat :: IsWaiting(evs, ss, k, slot)
  }

  lemma ServiceExactly(s: State, t: nat, end: nat, clock: nat)
    requires Inv(s, clock) && clock <= t
    ensures s.before < |s.attempts| ==> s.attempts[|s.attempts| - 1].after <= t
    ensures var s1 := ServiceState(s, t, end);
            var served := |s1.attempts| > |s.attempts|;
            && (served ==> s1.attempts[..|s1.attempts| - 1] == s.attempts && s1.attempts[|s1.attempts| - 1].Periodic?)
            && (!served ==> s1 == s)
            && s1.before == s.before
            && (served <==>
                  && s.tx.ready && true in s.tx.pending
                  && !(s.before < |s.attempts| && (t - s.attempts[|s.attempts| - 1].after) % M32 < 2))
  {
    hide Turn, LastRpm, NumberedInTurn, Spaced;
    if s.before < |s.attempts| {
      TickDifference(s.attempts[|s.attempts| - 1].after, t);
    }
  }

  lemma SomePending(evs: seq<Event>, ss: seq<State>, k: nat)
    requires IsRun(evs, ss) && |ss| == |evs| + 1 && k < |evs|
    ensures (true in ss[k].tx.pending) <==> exists slot: nat :: IsWaiting(evs, ss, k, slot)
    ensures ss[k].tx.ready == Started(evs, k)
  {
    hide IsRun;
    FlagsAreCalls(evs, ss, k, 0);
    forall slot | 0 <= slot < 5 ensures |ss[k].tx.pending| == 5 && ss[k].tx.pending[slot] == Waits(evs, ss, k, slot) {
      FlagsAreCalls(evs, ss, k, slot);
    }
    var pending := ss[k].tx.pending;
    if slot: nat :| IsWaiting(evs, ss, k, slot) {
      assert pending[slot];
      AnyIn(pending, slot);
    } else {
      forall slot | 0 <= slot < 5 ensures !pending[slot] {
        assert !IsWaiting(evs, ss, k, slot);
      }
    }
  }

  lemma AnyIn(pending: seq<bool>, slot: nat)
    requires slot < |pending| && pending[slot]
    ensures true in pending
  {
  }

  lemma EarlierIs(s: State, middle: State, s1: State)
    requires s.attempts <= middle.attempts && forall a :: |s.attempts| <= a < |middle.attempts| ==> middle.attempts[a].Rpm?
    requires s1 == middle || (|s1.attempts| > |middle.attempts| && s1.attempts[..|s1.attempts| - 1] == middle.attempts
                              && s1.attempts[|s1.attempts| - 1].Periodic?)
    ensures Earlier(s, s1) == middle.attempts && (Served(s, s1) <==> s1 != middle)
  {
  }

  /** A call is something of its own, then the service. */
  lemma ThenServes(s: State, ev: Event, clock: nat) returns (middle: State, end: nat)
    requires Inv(s, clock) && Admissible(ev) && !ev.EvInit? && clock <= ev.t
    ensures s.attempts <= middle.attempts && middle.before == s.before
    ensures forall a :: |s.attempts| <= a < |middle.attempts| ==> middle.attempts[a].Rpm?
    ensures Inv(middle, ServiceTime(ev)) && Step(s, ev) == ServiceState(middle, ServiceTime(ev), end)
    ensures middle.tx.ready == s.tx.ready
    ensures (true in middle.tx.pending) <==> ev.EvQueue? || true in s.tx.pending
  {
    hide ServiceState, RpmState, Inv;
    Later(s, clock, ev.t);
    match ev
    case EvQueue(slot, payload, t, e) =>
      middle, end := s.(tx := Queue(s.tx, slot, payload)), e;
      QueueInv(s, slot, payload, t);
      AnyIn(middle.tx.pending, slot);
    case EvService(t, e) => middle, end := s, e;
    case EvRpm(t, rpm, ok, sent, t2, e) =>
      middle, end := RpmState(s, t, rpm, ok, sent), e;
      RpmKeepsPending(s, t, rpm, ok, sent);
      RpmInv(s, t, rpm, ok, sent, clock);
      RpmKeepsBefore(s, t, rpm, ok, sent);
      Later(middle, sent, t2);
  }

  lemma Later(s: State, clock: nat, t: nat)
    requires Inv(s, clock) && clock <= t
    ensures Inv(s, t) && Shape(s.tx)
  {
    hide NumberedInTurn, Spaced;
  }

  /** In every run a call serves a slot exactly if the controller was started, some
      slot waits, and by the counter no attempt since the init has ended less than
      2 ms ago. */
  lemma ServesExactly(evs: seq<Event>, ss: seq<State>, k: nat)
    requires IsRun(evs, ss) && |ss| == |evs| + 1 && k < |evs| && !evs[k].EvInit?
    ensures var (s, s1, t) := (ss[k], ss[k + 1], ServiceTime(evs[k]));
            && (s.before < |Earlier(s, s1)| ==> Earlier(s, s1)[|Earlier(s, s1)| - 1].after <= t)
            && (Served(s, s1) <==> Started(evs, k) && SomeWaits(evs, ss, k) && !HeldBack(s, s1, t))
  {
    hide ServiceState, RpmState, Inv, IsRun, Earlier, Served, Step;
    StepOfRun(evs, ss, k);
    RunInv(evs, ss, k);
    SomePending(evs, ss, k);
    ClockIsPast(evs, ss, k);
    var middle, end := ThenServes(ss[k], evs[k], ClockAt(evs, k));
    ServiceExactly(middle, ServiceTime(evs[k]), end, ServiceTime(evs[k]));
    EarlierIs(ss[k], middle, ss[k + 1]);
  }

  lemma RpmKeepsBefore(s: State, t: nat, rpm: int, ok: bool, sent: nat)
    requires Shape(s.tx)
    ensures RpmState(s, t, rpm, ok, sent).before == s.before
  {
  }

  lemma QueueInv(s: State, slot: nat, payload: Bytes, clock: nat)
    requires Inv(s, clock) && slot < SLOTS && |payload| == FRAME
    ensures Inv(s.(tx := Queue(s.tx, slot, payload)), clock)
  {
  }

  lemma ClockIsPast(evs: seq<Event>, ss: seq<State>, k: nat)
    requires IsRun(evs, ss) && k < |evs|
    ensures ClockAt(evs, k) <= evs[k].t
  {
  }

  /** So a call that has just tried an RPM frame serves no slot, unless the send took
      2 ms: the loop gives the engine speed priority. */
  lemma RpmFrameGoesFirst(evs: seq<Event>, ss: seq<State>, k: nat)
    requires IsRun(evs, ss) && |ss| == |evs| + 1 && k < |evs| && evs[k].EvRpm? && evs[k].t2 - evs[k].sent < 2
    requires |ss[k + 1].attempts| > |ss[k].attempts| && ss[k + 1].attempts[|ss[k].attempts|].Rpm?
    ensures !Served(ss[k], ss[k + 1]) && |ss[k + 1].attempts| == |ss[k].attempts| + 1
  {
    hide IsRun, Started, Waits, RpmDue, Turn;
    StepOfRun(evs, ss, k);
    RunInv(evs, ss, k);
    ServesExactly(evs, ss, k);
  }

  // ---- five calls -------------------------------------------------------------------------

  /** A call that looks at the clock 2 ms or more of true time after the latest
      attempt since the init has ended, and before the counter has wrapped on it. */
  predicate SpacedCall(evs: seq<Event>, ss: seq<State>, k: nat)
    requires |ss| == |evs| + 1 && k < |evs|
  {
    !evs[k].EvInit?
    && var earlier := Earlier(ss[k], ss[k + 1]);
       ss[k].before < |earlier| ==> 2 <= ServiceTime(evs[k]) - earlier[|earlier| - 1].after < M32
  }

  ghost function SpacedCalls(evs: seq<Event>, ss: seq<State>, i: nat, k: nat): (n: nat)
    requires |ss| == |evs| + 1 && i <= k <= |evs|
    decreases k
  {
    if i == k then 0 else SpacedCalls(evs, ss, i, k - 1) + (if SpacedCall(evs, ss, k - 1) then 1 else 0)
  }

  lemma ServedWorks(s: State, ev: Event)
    requires Shape(s.tx) && Admissible(ev) && Served(s, Step(s, ev))
    ensures Works(s, ev)
  {
    hide Serves, RpmDue, Turn;
  }

  lemma SpacedWorks(evs: seq<Event>, ss: seq<State>, k: nat, slot: nat)
    requires IsRun(evs, ss) && |ss| == |evs| + 1 && k < |evs| && slot < SLOTS && SpacedCall(evs, ss, k)
    requires Started(evs, k) && Waits(evs, ss, k, slot)
    ensures Admissible(evs[k]) && Shape(ss[k].tx) && Works(ss[k], evs[k])
  {
    hide Step, Works, Started, Earlier, Served, IsRun;
    StepOfRun(evs, ss, k);
    ServesExactly(evs, ss, k);
    assert IsWaiting(evs, ss, k, slot);
    ServedWorks(ss[k], evs[k]);
  }

  lemma {:induction false} StartedStands(evs: seq<Event>, i: nat, k: nat)
    requires i <= k <= |evs| && NoInit(evs, i, k)
    ensures Started(evs, k) == Started(evs, i)
    decreases k
  {
    if i < k {
      StartedStands(evs, i, k - 1);
    }
  }

  lemma WaitedSince(a: seq<Attempt>, b: seq<Attempt>, from: nat, slot: nat)
    requires a <= b && AttemptedSince(a, from, slot)
    ensures AttemptedSince(b, from, slot)
  {
    StillAttempted(a, b, from, from, slot);
  }

  /** While the slot is not attempted every spaced call attempts some slot. */
  lemma {:induction false} SpacedAreWork(evs: seq<Event>, ss: seq<State>, i: nat, k: nat, slot: nat)
    requires IsRun(evs, ss) && |ss| == |evs| + 1 && i <= k <= |evs| && slot < SLOTS && NoInit(evs, i, k)
    requires Started(evs, i) && Waits(evs, ss, i, slot)
    ensures AttemptedSince(ss[k].attempts, |ss[i].attempts|, slot)
            || SpacedCalls(evs, ss, i, k) <= WorkCount(evs, ss, i, k)
    decreases k
  {
    hide Step, Works, AttemptedSince, Rank, SpacedCall, Inv, IsRun, Started;
    if i < k {
      SpacedAreWork(evs, ss, i, k - 1, slot);
      StepOfRun(evs, ss, k - 1);
      AttemptsGrow(ss[k - 1], evs[k - 1]);
      if AttemptedSince(ss[k - 1].attempts, |ss[i].attempts|, slot) {
        WaitedSince(ss[k - 1].attempts, ss[k].attempts, |ss[i].attempts|, slot);
      } else {
        ShapeOfRun(evs, ss, i);
        FlagsAreCalls(evs, ss, i, slot);
        WaitRun(evs, ss, i, k - 1, slot);
        FlagsAreCalls(evs, ss, k - 1, slot);
        StartedStands(evs, i, k - 1);
        if SpacedCall(evs, ss, k - 1) {
          SpacedWorks(evs, ss, k - 1, slot);
        }
      }
    }
  }

  lemma ShapeOfRun(evs: seq<Event>, ss: seq<State>, k: nat)
    requires IsRun(evs, ss) && k < |ss|
    ensures Shape(ss[k].tx)
  {
    RunInv(evs, ss, k);
  }

  /** A slot that waits while the controller is started is attempted within five
      calls that come 2 ms or more of true time after the latest attempt, whatever
      is queued again and however the calls are made. */
  lemma WaitingSlotIsServed(evs: seq<Event>, ss: seq<State>, i: nat, k: nat, slot: nat)
    requires IsRun(evs, ss) && |ss| == |evs| + 1 && i <= k <= |evs| && slot < SLOTS && NoInit(evs, i, k)
    requires Started(evs, i) && Waits(evs, ss, i, slot) && SpacedCalls(evs, ss, i, k) >= 5
    ensures AttemptedSince(ss[k].attempts, |ss[i].attempts|, slot)
  {
    hide IsRun, Started, AttemptedSince, Inv;
    ShapeOfRun(evs, ss, i);
    FlagsAreCalls(evs, ss, i, slot);
    SpacedAreWork(evs, ss, i, k, slot);
    if !AttemptedSince(ss[k].attempts, |ss[i].attempts|, slot) {
      PendingSlotIsServed(evs, ss, i, k, slot);
    }
  }

  /** The end of the latest attempt since the init, or else the given time. */
  function LatestEnd(s: State, otherwise: nat): nat {
    if s.before < |s.attempts| then s.attempts[|s.attempts| - 1].after else otherwise
  }

  lemma CallIsSpaced(evs: seq<Event>, ss: seq<State>, n: nat, floor: nat)
    requires IsRun(evs, ss) && |ss| == |evs| + 1 && n < |evs| && (evs[n].EvService? || evs[n].EvQueue?)
    requires evs[n].t >= ClockAt(evs, n) + 2 && floor <= LatestEnd(ss[n], floor) && evs[n].t - floor < M32
    requires floor <= evs[n].t
    ensures SpacedCall(evs, ss, n) && floor <= LatestEnd(ss[n + 1], floor)
  {
    hide ServiceState, Inv, IsRun, NumberedInTurn, Spaced, LastRpm;
    StepOfRun(evs, ss, n);
    RunInv(evs, ss, n);
    var (s, ev, clock) := (ss[n], evs[n], ClockAt(evs, n));
    LatestIsPast(s, clock);
    match ev
    case EvQueue(slot, payload, t, end) =>
      var middle := s.(tx := Queue(s.tx, slot, payload));
      QueueInv(s, slot, payload, clock);
      ServiceExactly(middle, t, end, clock);
      EarlierIs(s, middle, ss[n + 1]);
      ServiceEnds(middle, t, end);
    case EvService(t, end) =>
      ServiceExactly(s, t, end, clock);
      EarlierIs(s, s, ss[n + 1]);
      ServiceEnds(s, t, end);
  }

  lemma LatestIsPast(s: State, clock: nat)
    requires Inv(s, clock)
    ensures LatestEnd(s, clock) <= clock
  {
  }

  lemma ServiceEnds(s: State, t: nat, end: nat)
    requires Shape(s.tx) && t <= end
    ensures var s1 := ServiceState(s, t, end);
            |s1.attempts| > |s.attempts| ==> s1.attempts[|s1.attempts| - 1].after == end
  {
    hide Turn, Serves;
  }

  lemma {:induction false} AllSpaced(evs: seq<Event>, ss: seq<State>, i: nat, m: nat, floor: nat)
    requires IsRun(evs, ss) && |ss| == |evs| + 1 && i + m <= |evs| && floor <= LatestEnd(ss[i], floor)
    requires forall n :: i <= n < i + m ==> (evs[n].EvService? || evs[n].EvQueue?) && evs[n].t >= ClockAt(evs, n) + 2
    requires forall n :: i <= n < i + m ==> floor <= evs[n].t < floor + M32
    ensures SpacedCalls(evs, ss, i, i + m) == m && NoInit(evs, i, i + m) && floor <= LatestEnd(ss[i + m], floor)
    decreases m
  {
    hide IsRun, SpacedCall, ClockAt, LatestEnd;
    if m > 0 {
      AllSpaced(evs, ss, i, m - 1, floor);
      CallIsSpaced(evs, ss, i + m - 1, floor);
    }
  }

  /** Five calls without an RPM frame, each 2 ms or more after the end of the one
      before, are such calls, while the counter has not wrapped since the attempt
      before them. */
  lemma FiveCallsServe(evs: seq<Event>, ss: seq<State>, i: nat, slot: nat)
    requires IsRun(evs, ss) && |ss| == |evs| + 1 && i + 5 <= |evs| && slot < SLOTS
    requires Started(evs, i) && Waits(evs, ss, i, slot)
    requires forall n :: i <= n < i + 5 ==> (evs[n].EvService? || evs[n].EvQueue?) && evs[n].t >= ClockAt(evs, n) + 2
    requires evs[i + 4].t - LatestEnd(ss[i], evs[i].t) < M32
    ensures AttemptedSince(ss[i + 5].attempts, |ss[i].attempts|, slot)
  {
    hide Started, AttemptedSince, Waits, SpacedCall, Inv;
    var floor := LatestEnd(ss[i], evs[i].t);
    RunInv(evs, ss, i);
    LatestIsPast(ss[i], ClockAt(evs, i));
    forall n | i <= n < i + 5 ensures floor <= evs[n].t < floor + M32 {
      Ordered(evs, ss, i, n);
      Ordered(evs, ss, n, i + 4);
    }
    AllSpaced(evs, ss, i, 5, floor);
    WaitingSlotIsServed(evs, ss, i, i + 5, slot);
  }

  lemma Ordered(evs: seq<Event>, ss: seq<State>, i: nat, k: nat)
    requires IsRun(evs, ss) && i <= k < |evs|
    ensures evs[i].t <= evs[k].t
  {
    StepOfRun(evs, ss, i);
    assert i < k ==> EndOf(evs[i]) <= evs[k].t;
  }

  /** Before the controller is started nothing is attempted. */
  lemma NothingBeforeStart(evs: seq<Event>, ss: seq<State>, k: nat)
    requires IsRun(evs, ss) && |ss| == |evs| + 1 && k < |evs| && !Started(evs, k)
    ensures ss[k + 1].attempts == ss[k].attempts
  {
    hide IsRun, Turn, RpmDue, Elapsed;
    StepOfRun(evs, ss, k);
    FlagsAreCalls(evs, ss, k, 0);
  }

  // ---- what the controller is given ----------------------------------------------------------

  /** The frame of an attempt: the identifier of its slot, or the one of the speed. */
  function FrameOf(a: Attempt): Frame {
    match a
    case Periodic(slot, data, _, _) =>
      var ids := [0x123, 0x129, 0x12b, 0x128, 0x12c];
      Frame(if slot < 5 then ids[slot] else 0, data)
    case Rpm(_, _, data, _, _) => Frame(0x127, data)
  }

  function FramesOf(attempts: seq<Attempt>): (frames: seq<Frame>)
    ensures |frames| == |attempts| && forall i :: 0 <= i < |frames| ==> frames[i] == FrameOf(attempts[i])
  {
    if attempts == [] then [] else FramesOf(attempts[..|attempts| - 1]) + [FrameOf(attempts[|attempts| - 1])]
  }

  /** The frames a call gives to the controller are those of its attempts, in their
      order, each on its own identifier. */
  lemma AttemptsAreFrames(s: State, ev: Event)
    requires Shape(s.tx) && Admissible(ev)
    ensures s.attempts <= Step(s, ev).attempts
    ensures FramesOf(Step(s, ev).attempts[|s.attempts|..]) ==
            match ev
            case EvInit(_, _) => []
            case EvQueue(slot, payload, t, _) => ServiceFrames(Queue(s.tx, slot, payload), Tick(t))
            case EvService(t, _) => ServiceFrames(s.tx, Tick(t))
            case EvRpm(t, rpm, ok, sent, t2, _) =>
              RpmFrames(s.tx, Tick(t), rpm) + ServiceFrames(AfterRpm(s.tx, Tick(t), rpm, ok, Tick(sent)), Tick(t2))
  {
    hide ServiceState, RpmState, ServiceFrames, RpmFrames, AfterRpm;
    match ev
    case EvInit(_, _) =>
    case EvQueue(slot, payload, t, end) => ServiceGives(s.(tx := Queue(s.tx, slot, payload)), t, end);
    case EvService(t, end) => ServiceGives(s, t, end);
    case EvRpm(t, rpm, ok, sent, t2, end) =>
      RpmGives(s, t, rpm, ok, sent);
      var middle := RpmState(s, t, rpm, ok, sent);
      ServiceGives(middle, t2, end);
      var n, all := |s.attempts|, Step(s, ev).attempts;
      assert all[n..] == middle.attempts[n..] + all[|middle.attempts|..];
      FramesJoin(middle.attempts[n..], all[|middle.attempts|..]);
  }

  lemma FramesJoin(a: seq<Attempt>, b: seq<Attempt>)
    ensures FramesOf(a + b) == FramesOf(a) + FramesOf(b)
  {
  }

  lemma ServiceGives(s: State, t: nat, end: nat)
    requires Shape(s.tx)
    ensures s.attempts <= ServiceState(s, t, end).attempts
    ensures FramesOf(ServiceState(s, t, end).attempts[|s.attempts|..]) == ServiceFrames(s.tx, Tick(t))
  {
    hide Turn, Serves;
  }

  lemma RpmGives(s: State, t: nat, rpm: int, ok: bool, sent: nat)
    requires Shape(s.tx)
    ensures s.attempts <= RpmState(s, t, rpm, ok, sent).attempts
    ensures FramesOf(RpmState(s, t, rpm, ok, sent).attempts[|s.attempts|..]) == RpmFrames(s.tx, Tick(t), rpm)
    ensures RpmState(s, t, rpm, ok, sent).tx == AfterRpm(s.tx, Tick(t), rpm, ok, Tick(sent))
  {
    hide RpmDue;
  }

  // ---- what the RPM frame says --------------------------------------------------------------

  /** Bytes 1 and 2 of an RPM frame are the value modulo 65536, most significant
      first; the others but the number are zero. */
  lemma RpmFrameShowsValue(evs: seq<Event>, ss: seq<State>, k: nat, a: nat)
    requires IsRun(evs, ss) && k < |ss| && a < |ss[k].attempts| && ss[k].attempts[a].Rpm?
    ensures var r := ss[k].attempts[a];
            && |r.data| == 8 && (r.data[1] as int) * 0x100 + r.data[2] == r.value % 0x1_0000
            && (forall j :: 3 <= j < 8 ==> r.data[j] == 0)
    decreases k
  {
    hide Step, Inv;
    if k > 0 {
      StepOfRun(evs, ss, k - 1);
      AttemptsGrow(ss[k - 1], evs[k - 1]);
      if a < |ss[k - 1].attempts| {
        assert ss[k].attempts[a] == ss[k - 1].attempts[a];
        RpmFrameShowsValue(evs, ss, k - 1, a);
      } else {
        NewRpmFrame(ss[k - 1], evs[k - 1], a);
      }
    }
  }

  lemma NewRpmFrame(s: State, ev: Event, a: nat)
    requires Shape(s.tx) && Admissible(ev) && |s.attempts| <= a < |Step(s, ev).attempts| && Step(s, ev).attempts[a].Rpm?
    ensures var r := Step(s, ev).attempts[a];
            && |r.data| == 8 && (r.data[1] as int) * 0x100 + r.data[2] == r.value % 0x1_0000
            && (forall j :: 3 <= j < 8 ==> r.data[j] == 0)
  {
    hide Serves, Turn, RpmDue;
    var r := Step(s, ev).attempts[a];
    assert ev.EvRpm? && r.value == ev.rpm && r.data == RpmFrame(s.tx.number, ev.rpm);
    TwoBytes(ev.rpm);
  }

  lemma TwoBytes(n: int)
    ensures n / 256 % 256 * 256 + n % 256 == n % 0x1_0000
  {
    var q := n / 256;
    DivisionUnique(n, 0x1_0000, q / 256, q % 256 * 256 + n % 256);
  }
}
