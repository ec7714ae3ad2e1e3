/**
 * The sender of numbered frames: five periodic slots that keep only their
 * latest snapshot and take turns, an RPM frame with retry and heartbeat, and
 * one 8-bit number shared by all of them.
 */
module CanSchedule {
  import opened Options
  import opened Words

  type Bytes = seq<U8>

  const SLOTS: nat := 5
  const FRAME: nat := 8
  const GAP_MS: nat := 2
  const RETRY_MS: nat := 10
  const HEARTBEAT_MS: nat := 100
  const ID_RPM: nat := 0x127
  const PERIODIC_IDS: seq<nat> := [0x123, 0x129, 0x12b, 0x128, 0x12c]
  const ZERO_FRAME: Bytes := [0, 0, 0, 0, 0, 0, 0, 0]

  datatype Tx = Tx(
    ready: bool,
    number: U8,
    pending: seq<bool>,
    next: nat,
    payload: seq<Bytes>,
    attempted: bool,
    lastAttempt: U32,
    rpmSent: bool,
    lastRpm: int,
    rpmSentAt: U32,
    rpmAttemptAt: U32,
    retry: bool)

  datatype Frame = Frame(id: nat, data: Bytes)

  const START := Tx(false, 0, [false, false, false, false, false], 0,
                    [ZERO_FRAME, ZERO_FRAME, ZERO_FRAME, ZERO_FRAME, ZERO_FRAME], false, 0, false, 0, 0, 0, false)

  predicate Shape(tx: Tx) {
    && |tx.pending| == SLOTS && tx.next < SLOTS && |tx.payload| == SLOTS
    && (forall i :: 0 <= i < SLOTS ==> |tx.payload[i]| == FRAME)
  }

  type GoodTx = tx: Tx | Shape(tx) witness START

  // ---- the scheduler ------------------------------------------------------------------

  function SlotAt(next: nat, i: nat): (slot: nat)
    ensures slot < SLOTS
  {
    (next + i) % SLOTS
  }

  /** Steps from `next` to the first pending slot, counting from i; SLOTS if none. */
  function Turns(pending: seq<bool>, next: nat, i: nat): (d: nat)
    requires |pending| == SLOTS && i <= SLOTS
    ensures i <= d <= SLOTS
    ensures d < SLOTS ==> pending[SlotAt(next, d)]
    ensures forall j :: i <= j < d ==> !pending[SlotAt(next, j)]
    decreases SLOTS - i
  {
    if i == SLOTS || pending[SlotAt(next, i)] then i else Turns(pending, next, i + 1)
  }

  predicate Throttled(tx: Tx, now: U32) { tx.attempted && !Elapsed(now, tx.lastAttempt, GAP_MS) }

  predicate Serves(tx: Tx, now: U32) { tx.ready && true in tx.pending && !Throttled(tx, now) }

  function Numbered(data: Bytes, number: U8): Bytes
    requires |data| == FRAME
  {
    data[0 := number]
  }

  function Attempted(tx: Tx, after: U32): Tx {
    tx.(number := (tx.number + 1) % 256, lastAttempt := after, attempted := true)
  }

  /** The slot whose turn it is. */
  function Turn(tx: GoodTx): (slot: nat)
    ensures slot < SLOTS
  { 
    SlotAt(tx.next, Turns(tx.pending, tx.next, 0))
  }

  function ServeSlot(tx: GoodTx, slot: nat, after: U32): (tx': GoodTx)
    requires slot < SLOTS
  {
    Attempted(tx, after).(
      pending := tx.pending[slot := false],
      next := (slot + 1) % SLOTS,
      payload := tx.payload[slot := Numbered(tx.payload[slot], tx.number)])
  }

  /** canServicePeriodic. */
  function Service(tx: GoodTx, now: U32, after: U32): (tx': GoodTx) {
    if Serves(tx, now) then ServeSlot(tx, Turn(tx), after) else tx
  }

  /** The frame it gives to the controller, if any. */
  function ServiceFrames(tx: GoodTx, now: U32): seq<Frame> {
    if Serves(tx, now) then [Frame(PERIODIC_IDS[Turn(tx)], Numbered(tx.payload[Turn(tx)], tx.number))] else []
  }

  /** canQueuePeriodic, before it serves. */
  function Queue(tx: GoodTx, slot: nat, payload: Bytes): (tx': GoodTx)
    requires slot < SLOTS && |payload| == FRAME
  {
    tx.(payload := tx.payload[slot := payload], pending := tx.pending[slot := true])
  }

  function Init(tx: GoodTx, now: U32, ok: bool): (tx': GoodTx) {
    tx.(ready := ok, pending := START.pending, next := 0, attempted := false, lastAttempt := 0,
        rpmSent := false, lastRpm := 0, rpmSentAt := now, rpmAttemptAt := now, retry := false)
  }

  predicate RpmDue(tx: Tx, now: U32, rpm: int) {
    if tx.retry then Elapsed(now, tx.rpmAttemptAt, RETRY_MS)
    else !tx.rpmSent || tx.lastRpm != rpm || Elapsed(now, tx.rpmSentAt, HEARTBEAT_MS)
  }

  function RpmFrame(number: U8, rpm: int): Bytes {
    [number, rpm / 256 % 256, rpm % 256, 0, 0, 0, 0, 0]
  }

  function SendRpm(tx: GoodTx, now: U32, rpm: int, ok: bool, after: U32): (tx': GoodTx) {
    var tx1 := Attempted(tx, after).(rpmAttemptAt := now);
    if ok then tx1.(rpmSent := true, lastRpm := rpm, rpmSentAt := now, retry := false)
    else tx1.(retry := true)
  }

  predicate SendsRpm(tx: Tx, now: U32, rpm: int) { tx.ready && RpmDue(tx, now, rpm) }

  function AfterRpm(tx: GoodTx, now: U32, rpm: int, ok: bool, after: U32): GoodTx {
    if SendsRpm(tx, now, rpm) then SendRpm(tx, now, rpm, ok, after) else tx
  }

  function RpmFrames(tx: GoodTx, now: U32, rpm: int): seq<Frame> {
    if SendsRpm(tx, now, rpm) then [Frame(ID_RPM, RpmFrame(tx.number, rpm))] else []
  }

  // ---- runs ---------------------------------------------------------------------------

  /** What was given to the controller, whether or not it went out: when the
      call looked at the clock, and when it looked again after the send. */
  datatype Attempt =
    | Periodic(slot: nat, data: Bytes, at: nat, after: nat)
    | Rpm(value: int, ok: bool, data: Bytes, at: nat, after: nat)

  /** All attempts, and how many of them came before the latest init. */
  datatype State = State(tx: Tx, attempts: seq<Attempt>, before: nat)

  const BEGIN := State(START, [], 0)

  datatype Event =
    | EvInit(t: nat, ok: bool)
    | EvQueue(slot: nat, payload: Bytes, t: nat, end: nat)
    | EvService(t: nat, end: nat)
    | EvRpm(t: nat, rpm: int, ok: bool, sent: nat, t2: nat, end: nat)

  function EndOf(ev: Event): nat { if ev.EvInit? then ev.t else ev.end }

  predicate Admissible(ev: Event) {
    match ev
    case EvInit(_, _) => true
    case EvQueue(slot, payload, t, end) => slot < SLOTS && |payload| == FRAME && t <= end
    case EvService(t, end) => t <= end
    case EvRpm(t, _, _, sent, t2, end) => t <= sent <= t2 <= end
  }

  function ServiceState(s: State, t: nat, end: nat): State
    requires Shape(s.tx)
  {
    var tx := Service(s.tx, Tick(t), Tick(end));
    if Serves(s.tx, Tick(t)) then
      State(tx, s.attempts + [Periodic(Turn(s.tx), tx.payload[Turn(s.tx)], t, end)], s.before)
    else s
  }

  function RpmState(s: State, t: nat, rpm: int, ok: bool, sent: nat): State
    requires Shape(s.tx)
  {
    if SendsRpm(s.tx, Tick(t), rpm) then
      State(AfterRpm(s.tx, Tick(t), rpm, ok, Tick(sent)),
            s.attempts + [Rpm(rpm, ok, RpmFrame(s.tx.number, rpm), t, sent)], s.before)
    else s
  }

  function Step(s: State, ev: Event): (s': State)
    requires Shape(s.tx) && Admissible(ev)
    ensures Shape(s'.tx)
  {
    match ev
    case EvInit(t, ok) => State(Init(s.tx, Tick(t), ok), s.attempts, |s.attempts|)
    case EvQueue(slot, payload, t, end) => ServiceState(s.(tx := Queue(s.tx, slot, payload)), t, end)
    case EvService(t, end) => ServiceState(s, t, end)
    case EvRpm(t, rpm, ok, sent, t2, end) => ServiceState(RpmState(s, t, rpm, ok, sent), t2, end)
  }

  ghost predicate IsRun(evs: seq<Event>, ss: seq<State>) {
    && |ss| == |evs| + 1
    && ss[0] == BEGIN
    && (forall k {:trigger evs[k]} :: 0 <= k < |evs| ==>
          Admissible(evs[k]) && Shape(ss[k].tx) && ss[k + 1] == Step(ss[k], evs[k]))
    && (forall i, j :: 0 <= i < j < |evs| ==> EndOf(evs[i]) <= evs[j].t)
  }

  // ---- the invariant ----------------------------------------------------------------------

  /** The latest RPM attempt since the init. */
  function LastRpm(attempts: seq<Attempt>, before: nat): (a: Option<Attempt>)
    ensures a.Some? ==> a.value in attempts && a.value.Rpm?
  {
    if |attempts| <= before then None
    else if attempts[|attempts| - 1].Rpm? then Some(attempts[|attempts| - 1])
    else LastRpm(attempts[..|attempts| - 1], before)
  }

  predicate NumberedInTurn(attempts: seq<Attempt>) {
    forall k :: 0 <= k < |attempts| ==> |attempts[k].data| == FRAME && attempts[k].data[0] == k % 256
  }

  /** Between inits a periodic frame follows the frame before it by GAP_MS or more. */
  predicate Spaced(attempts: seq<Attempt>, before: nat) {
    forall k {:trigger attempts[k]} :: before < k < |attempts| && attempts[k].Periodic? ==>
      attempts[k].at - attempts[k - 1].after >= GAP_MS
  }

  predicate RpmMemory(tx: Tx, last: Option<Attempt>, clock: nat) {
    match last
    case None => !tx.rpmSent && !tx.retry
    case Some(a) =>
      && a.Rpm? && a.at <= clock
      && tx.retry == !a.ok
      && tx.rpmAttemptAt == Tick(a.at)
      && (a.ok ==> tx.rpmSent && tx.lastRpm == a.value && tx.rpmSentAt == Tick(a.at))
  }

  ghost predicate Inv(s: State, clock: nat) {
    && Shape(s.tx)
    && s.before <= |s.attempts|
    && s.tx.number == |s.attempts| % 256
    && NumberedInTurn(s.attempts)
    && (s.tx.attempted <==> s.before < |s.attempts|)
    && (s.tx.attempted ==> s.tx.lastAttempt == Tick(s.attempts[|s.attempts| - 1].after)
                           && s.attempts[|s.attempts| - 1].after <= clock)
    && Spaced(s.attempts, s.before)
    && RpmMemory(s.tx, LastRpm(s.attempts, s.before), clock)
  }

  // ---- each part of a step keeps it -----------------------------------------------------------

  lemma LastRpmAppend(attempts: seq<Attempt>, before: nat, a: Attempt)
    requires before <= |attempts|
    ensures LastRpm(attempts + [a], before) == if a.Rpm? then Some(a) else LastRpm(attempts, before)
  {
    assert (attempts + [a])[..|attempts|] == attempts;
  }

  lemma NextNumber(n: nat)
    ensures (n % 256 + 1) % 256 == (n + 1) % 256
  {
  }

  lemma TurnIsPending(tx: GoodTx)
    requires true in tx.pending
    ensures Turns(tx.pending, tx.next, 0) < SLOTS && tx.pending[Turn(tx)]
  {
    var slot :| 0 <= slot < SLOTS && tx.pending[slot];
    var j := (slot + SLOTS - tx.next) % SLOTS;
    assert tx.pending[SlotAt(tx.next, j)];
  }

  lemma ServiceInv(s: State, t: nat, end: nat, clock: nat)
    requires Inv(s, clock) && clock <= t <= end
    ensures Inv(ServiceState(s, t, end), end)
  {
    hide LastRpm, Turn, Elapsed, NumberedInTurn, Spaced, Shape;
    if Serves(s.tx, Tick(t)) {
      ServeKeepsShape(s.tx, Tick(end));
      var s' := ServiceState(s, t, end);
      var a := s'.attempts[|s.attempts|];
      LastRpmAppend(s.attempts, s.before, a);
      NextNumber(|s.attempts|);
      if s.tx.attempted {
        ElapsedIsReal(s.attempts[|s.attempts| - 1].after, t, GAP_MS);
      }
      NumberAppend(s.attempts, a);
      SpacedAppend(s.attempts, s.before, a);
    }
  }

  lemma ServeKeepsShape(tx: GoodTx, after: U32)
    ensures var tx' := ServeSlot(tx, Turn(tx), after);
            && Shape(tx') && |tx'.payload[Turn(tx)]| == FRAME && tx'.payload[Turn(tx)][0] == tx.number
  {
    hide Turn;
  }

  lemma NumberAppend(attempts: seq<Attempt>, a: Attempt)
    requires NumberedInTurn(attempts) && |a.data| == FRAME && a.data[0] == |attempts| % 256
    ensures NumberedInTurn(attempts + [a])
  {
  }

  lemma SpacedAppend(attempts: seq<Attempt>, before: nat, a: Attempt)
    requires Spaced(attempts, before) && before <= |attempts|
    requires a.Periodic? && before < |attempts| ==> a.at - attempts[|attempts| - 1].after >= GAP_MS
    ensures Spaced(attempts + [a], before)
  {
    var all := attempts + [a];
    forall k {:trigger all[k]} | before < k < |all| && all[k].Periodic?
      ensures all[k].at - all[k - 1].after >= GAP_MS
    {
      if k < |attempts| {
        assert attempts[k] == all[k] && attempts[k - 1] == all[k - 1];
      }
    }
  }

  lemma RpmInv(s: State, t: nat, rpm: int, ok: bool, sent: nat, clock: nat)
    requires Inv(s, clock) && clock <= t <= sent
    ensures Inv(RpmState(s, t, rpm, ok, sent), sent)
  {
    hide LastRpm, RpmDue, NumberedInTurn, Spaced;
    if s.tx.ready && RpmDue(s.tx, Tick(t), rpm) {
      var s' := RpmState(s, t, rpm, ok, sent);
      var a := s'.attempts[|s.attempts|];
      LastRpmAppend(s.attempts, s.before, a);
      NextNumber(|s.attempts|);
      NumberAppend(s.attempts, a);
      SpacedAppend(s.attempts, s.before, a);
    }
  }

  lemma StepInv(s: State, ev: Event, clock: nat)
    requires Inv(s, clock) && Admissible(ev) && clock <= ev.t
    ensures Inv(Step(s, ev), EndOf(ev))
  {
    hide ServiceState, RpmState, NumberedInTurn, Spaced;
    match ev
    case EvInit(_, _) => assert Spaced(s.attempts, |s.attempts|) by { NothingSince(s.attempts); }
    case EvQueue(slot, payload, t, end) => ServiceInv(s.(tx := Queue(s.tx, slot, payload)), t, end, clock);
    case EvService(t, end) => ServiceInv(s, t, end, clock);
    case EvRpm(t, rpm, ok, sent, t2, end) =>
      RpmInv(s, t, rpm, ok, sent, clock);
      ServiceInv(RpmState(s, t, rpm, ok, sent), t2, end, sent);
  }

  lemma NothingSince(attempts: seq<Attempt>)
    ensures Spaced(attempts, |attempts|)
  {
  }

  function ClockAt(evs: seq<Event>, k: nat): nat
    requires k <= |evs|
  {
    if k == 0 then 0 else EndOf(evs[k - 1])
  }

  lemma {:induction false} RunInv(evs: seq<Event>, ss: seq<State>, k: nat)
    requires IsRun(evs, ss) && k < |ss|
    ensures Inv(ss[k], ClockAt(evs, k))
    decreases k
  {
    hide Step, Inv, Admissible, Shape;
    if k == 0 {
      BeginInv();
    } else {
      var ev := evs[k - 1];
      RunInv(evs, ss, k - 1);
      assert Admissible(ev) && ss[k] == Step(ss[k - 1], ev);
      assert ClockAt(evs, k - 1) <= ev.t;
      StepInv(ss[k - 1], ev, ClockAt(evs, k - 1));
    }
  }

  lemma BeginInv()
    ensures Inv(BEGIN, 0)
  {
  }

  // ---- main results ------------------------------------------------------------------------------

  /** The frames of all kinds carry consecutive numbers modulo 256, whatever was
      queued, failed or initialised in between. */
  lemma NumbersAreConsecutive(evs: seq<Event>, ss: seq<State>, k: nat, i: nat)
    requires IsRun(evs, ss) && k < |ss| && i < |ss[k].attempts|
    ensures |ss[k].attempts[i].data| == FRAME && ss[k].attempts[i].data[0] == i % 256
  {
    RunInv(evs, ss, k);
  }

  /** Between inits no periodic frame is attempted within 2 ms of true time
      after the frame before it, whatever its kind. */
  lemma PeriodicFramesAreSpaced(evs: seq<Event>, ss: seq<State>, k: nat, i: nat)
    requires IsRun(evs, ss) && k < |ss| && ss[k].before < i < |ss[k].attempts| && ss[k].attempts[i].Periodic?
    ensures ss[k].attempts[i].at - ss[k].attempts[i - 1].after >= 2
  {
    RunInv(evs, ss, k);
  }

  /** An init forgets the latest attempt, so the first frame after it may follow
      at once. */
  lemma InitForgetsGap()
    ensures var data := ZERO_FRAME;
            var s1 := Step(Step(BEGIN, EvInit(0, true)), EvQueue(0, data, 0, 0));
            var s2 := Step(Step(s1, EvInit(0, true)), EvQueue(0, data, 0, 0));
            && |s2.attempts| == 2 && s2.attempts[1].Periodic?
            && s2.attempts[1].at - s2.attempts[0].after == 0
  {
    var ready := Init(START, 0, true);
    var tx := Queue(ready, 0, ZERO_FRAME);
    assert tx.pending[0] && Turn(tx) == 0 && Serves(tx, Tick(0));
    var tx2 := Queue(Init(Service(tx, 0, 0), 0, true), 0, ZERO_FRAME);
    assert tx2.pending[0] && Turn(tx2) == 0 && Serves(tx2, Tick(0));
  }

  lemma RpmTried(s: State, ev: Event)
    requires Shape(s.tx) && Admissible(ev) && ev.EvRpm? && s.tx.ready
    ensures var s' := Step(s, ev);
            (|s'.attempts| > |s.attempts| && s'.attempts[|s.attempts|].Rpm?) <==> RpmDue(s.tx, Tick(ev.t), ev.rpm)
  {
    hide RpmDue, Turn, ServeSlot, SendRpm, Serves;
  }

  /** The RPM frame: after a failed attempt not before 10 ms; after one that went
      out only for a new value or not before 100 ms; and, while less than one
      wrap passed, always then. */
  lemma RpmPolicy(evs: seq<Event>, ss: seq<State>, k: nat)
    requires IsRun(evs, ss) && k < |evs| && evs[k].EvRpm? && ss[k].tx.ready
    ensures var last := LastRpm(ss[k].attempts, ss[k].before);
            var ev := evs[k];
            var tried := |ss[k + 1].attempts| > |ss[k].attempts| && ss[k + 1].attempts[|ss[k].attempts|].Rpm?;
            match last
            case None => tried
            case Some(a) =>
              && (tried && !a.ok ==> ev.t - a.at >= 10)
              && (tried && a.ok ==> a.value != ev.rpm || ev.t - a.at >= 100)
              && (!tried && ev.t - a.at < M32 ==> ev.t - a.at < (if a.ok then 100 else 10))
              && (!tried && a.ok ==> a.value == ev.rpm)
  {
    hide LastRpm, Turn, ServeSlot, SendRpm, Step, NumberedInTurn, Spaced;
    RunInv(evs, ss, k);
    RpmTried(ss[k], evs[k]);
    var last, ev := LastRpm(ss[k].attempts, ss[k].before), evs[k];
    assert ClockAt(evs, k) <= ev.t;
    if last.Some? {
      ElapsedIsReal(last.value.at, ev.t, RETRY_MS);
      ElapsedIsReal(last.value.at, ev.t, HEARTBEAT_MS);
    }
  }

  // ---- turns -------------------------------------------------------------------------------------

  /** How many slots are asked before this one. */
  function Rank(tx: GoodTx, slot: nat): (r: nat)
    requires slot < SLOTS
    ensures r < SLOTS
  {
    (slot + SLOTS - tx.next) % SLOTS
  }

  /** Serving another slot brings a pending one nearer. */
  lemma RankFalls(tx: GoodTx, slot: nat, after: U32)
    requires slot < SLOTS && tx.pending[slot] && Turn(tx) != slot
    ensures Rank(ServeSlot(tx, Turn(tx), after), slot) < Rank(tx, slot)
  {
    hide SlotAt, Rank, Turns;
    var d, r := Turns(tx.pending, tx.next, 0), Rank(tx, slot);
    RankIsDistance(tx, slot);
    assert d < SLOTS && d != r;
    Rotate(tx.next, d, r);
    RankIs(ServeSlot(tx, Turn(tx), after), slot);
  }

  lemma RankIsDistance(tx: GoodTx, slot: nat)
    requires slot < SLOTS
    ensures SlotAt(tx.next, Rank(tx, slot)) == slot
  {
  }

  lemma RankIs(tx: GoodTx, slot: nat)
    requires slot < SLOTS
    ensures Rank(tx, slot) == (slot + SLOTS - tx.next) % SLOTS
  {
  }

  lemma Rotate(next: nat, d: nat, r: nat)
    requires next < SLOTS && d < r < SLOTS
    ensures (SlotAt(next, r) + SLOTS - (SlotAt(next, d) + 1) % SLOTS) % SLOTS == r - d - 1
  {
  }

  predicate AttemptedSince(attempts: seq<Attempt>, from: nat, slot: nat) {
    exists a :: from <= a < |attempts| && attempts[a].Periodic? && attempts[a].slot == slot
  }

  /** A call of the service that is not held back, on its own, inside queueing or
      after the RPM frame. */
  predicate Works(s: State, ev: Event)
    requires Shape(s.tx) && Admissible(ev)
  {
    match ev
    case EvInit(_, _) => false
    case EvQueue(slot, payload, t, _) => Serves(Queue(s.tx, slot, payload), Tick(t))
    case EvService(t, _) => Serves(s.tx, Tick(t))
    case EvRpm(t, rpm, ok, sent, t2, _) => Serves(RpmState(s, t, rpm, ok, sent).tx, Tick(t2))
  }

  /** How many such calls there are from i on, before k. */
  ghost function WorkCount(evs: seq<Event>, ss: seq<State>, i: nat, k: nat): (n: nat)
    requires IsRun(evs, ss) && i <= k <= |evs|
    decreases k
  {
    if i == k then 0
    else
      var ev := evs[k - 1];
      WorkCount(evs, ss, i, k - 1) + (if Works(ss[k - 1], ev) then 1 else 0)
  }

  predicate NoInit(evs: seq<Event>, i: nat, k: nat)
    requires k <= |evs|
  {
    forall j :: i <= j < k ==> !evs[j].EvInit?
  }

  /** The periodic frames among the attempts. */
  function PeriodicCount(attempts: seq<Attempt>): (n: nat) {
    if attempts == [] then 0
    else PeriodicCount(attempts[..|attempts| - 1]) + (if attempts[|attempts| - 1].Periodic? then 1 else 0)
  }

  lemma CountAppend(attempts: seq<Attempt>, a: Attempt)
    ensures PeriodicCount(attempts + [a]) == PeriodicCount(attempts) + (if a.Periodic? then 1 else 0)
  {
    assert (attempts + [a])[..|attempts|] == attempts;
  }

  lemma ServiceCounts(s: State, t: nat, end: nat)
    requires Shape(s.tx)
    ensures PeriodicCount(ServiceState(s, t, end).attempts)
         == PeriodicCount(s.attempts) + (if Serves(s.tx, Tick(t)) then 1 else 0)
  {
    hide Turn, ServeSlot, PeriodicCount;
    if Serves(s.tx, Tick(t)) {
      CountAppend(s.attempts, ServiceState(s, t, end).attempts[|s.attempts|]);
    }
  }

  lemma StepCounts(s: State, ev: Event)
    requires Shape(s.tx) && Admissible(ev)
    ensures PeriodicCount(Step(s, ev).attempts) == PeriodicCount(s.attempts) + (if Works(s, ev) then 1 else 0)
  {
    hide ServiceState, Serves, PeriodicCount, SendRpm, RpmDue;
    match ev
    case EvInit(_, _) =>
    case EvQueue(slot, payload, t, end) => ServiceCounts(s.(tx := Queue(s.tx, slot, payload)), t, end);
    case EvService(t, end) => ServiceCounts(s, t, end);
    case EvRpm(t, rpm, ok, sent, t2, end) =>
      var s1 := RpmState(s, t, rpm, ok, sent);
      if s1 != s {
        CountAppend(s.attempts, s1.attempts[|s.attempts|]);
      }
      ServiceCounts(s1, t2, end);
  }

  /** Every service call that is not held back attempts exactly one periodic
      frame, and nothing else attempts one. */
  lemma {:induction false} WorkIsFrames(evs: seq<Event>, ss: seq<State>, i: nat, k: nat)
    requires IsRun(evs, ss) && i <= k < |ss|
    ensures PeriodicCount(ss[k].attempts) == PeriodicCount(ss[i].attempts) + WorkCount(evs, ss, i, k)
    decreases k
  {
    hide Step, Works, PeriodicCount, Shape, Admissible;
    if i < k {
      var ev := evs[k - 1];
      assert Admissible(ev) && Shape(ss[k - 1].tx) && ss[k] == Step(ss[k - 1], ev);
      WorkIsFrames(evs, ss, i, k - 1);
      StepCounts(ss[k - 1], ev);
    }
  }

  /** One step keeps a waiting slot waiting and its rank from rising, and a
      service call that works lowers it, unless the slot is attempted. */
  lemma WaitStep(s: State, ev: Event, slot: nat)
    requires Shape(s.tx) && Admissible(ev) && !ev.EvInit? && slot < SLOTS && s.tx.pending[slot]
    ensures var s' := Step(s, ev);
            && s.attempts <= s'.attempts
            && (AttemptedSince(s'.attempts, |s.attempts|, slot)
                || (s'.tx.pending[slot]
                    && Rank(s'.tx, slot) + (if Works(s, ev) then 1 else 0) <= Rank(s.tx, slot)))
  {
    hide ServiceState, RpmState, Rank, AttemptedSince, Serves;
    match ev
    case EvQueue(q, payload, t, end) =>
      var s1 := s.(tx := Queue(s.tx, q, payload));
      WaitService(s1, t, end, slot);
      SameTurn(s.tx, s1.tx, slot);
    case EvService(t, end) => WaitService(s, t, end, slot);
    case EvRpm(t, rpm, ok, sent, t2, end) =>
      var s1 := RpmState(s, t, rpm, ok, sent);
      RpmKeepsTurn(s, t, rpm, ok, sent);
      WaitService(s1, t2, end, slot);
      SameTurn(s.tx, s1.tx, slot);
      var s' := Step(s, ev);
      if AttemptedSince(s'.attempts, |s1.attempts|, slot) {
        StillAttempted(s'.attempts, s'.attempts, |s1.attempts|, |s.attempts|, slot);
      }
  }

  lemma SameTurn(tx: GoodTx, tx': GoodTx, slot: nat)
    requires tx'.next == tx.next && slot < SLOTS
    ensures Rank(tx', slot) == Rank(tx, slot)
  {
  }

  lemma RpmKeepsTurn(s: State, t: nat, rpm: int, ok: bool, sent: nat)
    requires Shape(s.tx)
    ensures var s' := RpmState(s, t, rpm, ok, sent);
            && Shape(s'.tx) && s'.tx.next == s.tx.next && s'.tx.pending == s.tx.pending && s.attempts <= s'.attempts
  {
  }

  lemma WaitService(s: State, t: nat, end: nat, slot: nat)
    requires Shape(s.tx) && slot < SLOTS && s.tx.pending[slot]
    ensures var s' := ServiceState(s, t, end);
            && s.attempts <= s'.attempts
            && (AttemptedSince(s'.attempts, |s.attempts|, slot)
                || (s'.tx.pending[slot]
                    && Rank(s'.tx, slot) + (if Serves(s.tx, Tick(t)) then 1 else 0) <= Rank(s.tx, slot)))
  {
    if Serves(s.tx, Tick(t)) {
      if Turn(s.tx) == slot {
        assert ServiceState(s, t, end).attempts[|s.attempts|].slot == slot;
      } else {
        RankFalls(s.tx, slot, Tick(end));
      }
    }
  }

  lemma {:induction false} WaitRun(evs: seq<Event>, ss: seq<State>, i: nat, k: nat, slot: nat)
    requires IsRun(evs, ss) && i <= k < |ss| && slot < SLOTS && NoInit(evs, i, k)
    requires Shape(ss[i].tx) && Shape(ss[k].tx) && ss[i].tx.pending[slot]
    ensures |ss[i].attempts| <= |ss[k].attempts|
    ensures AttemptedSince(ss[k].attempts, |ss[i].attempts|, slot)
            || (ss[k].tx.pending[slot] && Rank(ss[k].tx, slot) + WorkCount(evs, ss, i, k) <= Rank(ss[i].tx, slot))
    decreases k
  {
    hide Step, Rank, Works, AttemptedSince, Shape, Admissible;
    if i < k {
      var ev := evs[k - 1];
      assert Admissible(ev) && Shape(ss[k - 1].tx) && ss[k] == Step(ss[k - 1], ev);
      WaitRun(evs, ss, i, k - 1, slot);
      WaitOne(ss[k - 1], ev, |ss[i].attempts|, slot);
    }
  }

  lemma WaitOne(s: State, ev: Event, from: nat, slot: nat)
    requires Shape(s.tx) && Admissible(ev) && !ev.EvInit? && slot < SLOTS && from <= |s.attempts|
    requires AttemptedSince(s.attempts, from, slot) || s.tx.pending[slot]
    ensures var s' := Step(s, ev);
            && |s.attempts| <= |s'.attempts|
            && (AttemptedSince(s'.attempts, from, slot)
                || (!AttemptedSince(s.attempts, from, slot) && s'.tx.pending[slot]
                    && Rank(s'.tx, slot) + (if Works(s, ev) then 1 else 0) <= Rank(s.tx, slot)))
  {
    hide Step, Rank, Works, AttemptedSince;
    var s' := Step(s, ev);
    AttemptsGrow(s, ev);
    if AttemptedSince(s.attempts, from, slot) {
      StillAttempted(s.attempts, s'.attempts, from, from, slot);
    } else {
      WaitStep(s, ev, slot);
      if AttemptedSince(s'.attempts, |s.attempts|, slot) {
        StillAttempted(s'.attempts, s'.attempts, |s.attempts|, from, slot);
      }
    }
  }

  lemma StillAttempted(a: seq<Attempt>, b: seq<Attempt>, from: nat, earlier: nat, slot: nat)
    requires a <= b && earlier <= from && AttemptedSince(a, from, slot)
    ensures AttemptedSince(b, earlier, slot)
  {
    var k :| from <= k < |a| && a[k].Periodic? && a[k].slot == slot;
    assert b[k] == a[k];
  }

  lemma AttemptsGrow(s: State, ev: Event)
    requires Shape(s.tx) && Admissible(ev)
    ensures s.attempts <= Step(s, ev).attempts
  {
  }

  /** However often slots are queued again, a pending slot is attempted within
      five service calls that are not held back, wherever they are made. */
  lemma PendingSlotIsServed(evs: seq<Event>, ss: seq<State>, i: nat, k: nat, slot: nat)
    requires IsRun(evs, ss) && i <= k < |ss| && slot < SLOTS && NoInit(evs, i, k)
    requires Shape(ss[i].tx) && ss[i].tx.pending[slot]
    requires WorkCount(evs, ss, i, k) >= SLOTS
    ensures AttemptedSince(ss[k].attempts, |ss[i].attempts|, slot)
  {
    RunInv(evs, ss, k);
    WaitRun(evs, ss, i, k, slot);
  }

  // ---- snapshots ------------------------------------------------------------------------------------

  /** The latest payload queued for a slot by the first k events. */
  function Latest(evs: seq<Event>, k: nat, slot: nat): Bytes
    requires k <= |evs|
  {
    if k == 0 then ZERO_FRAME
    else if evs[k - 1].EvQueue? && evs[k - 1].slot == slot then evs[k - 1].payload
    else Latest(evs, k - 1, slot)
  }

  lemma {:induction false} HoldsLatest(evs: seq<Event>, ss: seq<State>, k: nat, slot: nat)
    requires IsRun(evs, ss) && k < |ss| && slot < SLOTS
    ensures Shape(ss[k].tx) && |Latest(evs, k, slot)| == FRAME
    ensures ss[k].tx.payload[slot][1..] == Latest(evs, k, slot)[1..]
    decreases k
  {
    hide Step, Inv, Admissible, Shape;
    RunInv(evs, ss, k);
    InvShape(ss[k], ClockAt(evs, k));
    if k > 0 {
      var ev := evs[k - 1];
      assert Admissible(ev) && Shape(ss[k - 1].tx) && ss[k] == Step(ss[k - 1], ev);
      HoldsLatest(evs, ss, k - 1, slot);
      StepSnapshot(ss[k - 1], ev, slot);
      HeldIsLatest(evs, k - 1, ss[k - 1], slot);
    }
  }

  lemma InvShape(s: State, clock: nat)
    requires Inv(s, clock)
    ensures Shape(s.tx)
  {
  }

  /** What the slot holds before the event's own service, without its number. */
  function Held(s: State, ev: Event, slot: nat): Bytes
    requires Shape(s.tx) && Admissible(ev) && slot < SLOTS
  {
    if ev.EvQueue? && ev.slot == slot then ev.payload else s.tx.payload[slot]
  }

  predicate IsOf(a: Attempt, slot: nat) { a.Periodic? && a.slot == slot }

  /** The attempts from `from` on of a slot carry the snapshot `data`. */
  predicate Carry(attempts: seq<Attempt>, from: nat, slot: nat, data: Bytes)
    requires |data| == FRAME
  {
    forall a :: from <= a < |attempts| ==>
      IsOf(attempts[a], slot) ==> |attempts[a].data| == FRAME && attempts[a].data[1..] == data[1..]
  }

  lemma ServiceSnapshot(s: State, t: nat, end: nat, slot: nat, from: nat)
    requires Shape(s.tx) && slot < SLOTS && from <= |s.attempts|
    requires Carry(s.attempts, from, slot, s.tx.payload[slot])
    ensures var s' := ServiceState(s, t, end);
            && Shape(s'.tx) && s'.tx.payload[slot][1..] == s.tx.payload[slot][1..]
            && s.attempts <= s'.attempts && Carry(s'.attempts, from, slot, s.tx.payload[slot])
  {
    hide Turn, Serves;
  }

  lemma StepSnapshot(s: State, ev: Event, slot: nat)
    requires Shape(s.tx) && Admissible(ev) && slot < SLOTS
    ensures Step(s, ev).tx.payload[slot][1..] == Held(s, ev, slot)[1..]
    ensures s.attempts <= Step(s, ev).attempts
    ensures Carry(Step(s, ev).attempts, |s.attempts|, slot, Held(s, ev, slot))
  {
    hide ServiceState, RpmDue, Carry;
    match ev
    case EvInit(t, ok) => CarryNone(s.attempts, slot, s.tx.payload[slot]);
    case EvQueue(at, payload, t, end) =>
      CarryNone(s.attempts, slot, Held(s, ev, slot));
      ServiceSnapshot(s.(tx := Queue(s.tx, at, payload)), t, end, slot, |s.attempts|);
    case EvService(t, end) =>
      CarryNone(s.attempts, slot, s.tx.payload[slot]);
      ServiceSnapshot(s, t, end, slot, |s.attempts|);
    case EvRpm(t, rpm, ok, sent, t2, end) =>
      RpmCarries(s, t, rpm, ok, sent, slot);
      ServiceSnapshot(RpmState(s, t, rpm, ok, sent), t2, end, slot, |s.attempts|);
  }

  lemma CarryNone(attempts: seq<Attempt>, slot: nat, data: Bytes)
    requires |data| == FRAME
    ensures Carry(attempts, |attempts|, slot, data)
  {
  }

  lemma RpmCarries(s: State, t: nat, rpm: int, ok: bool, sent: nat, slot: nat)
    requires Shape(s.tx) && slot < SLOTS
    ensures Carry(RpmState(s, t, rpm, ok, sent).attempts, |s.attempts|, slot, s.tx.payload[slot])
  {
    hide RpmDue;
  }

  /** Every periodic frame carries the latest snapshot queued for its slot. */
  lemma LatestSnapshotIsSent(evs: seq<Event>, ss: seq<State>, k: nat, a: nat)
    requires IsRun(evs, ss) && k < |evs| && |ss[k].attempts| <= a < |ss[k + 1].attempts|
    requires ss[k + 1].attempts[a].Periodic?
    ensures var p := ss[k + 1].attempts[a];
            && p.slot < SLOTS
            && |p.data| == FRAME && |Latest(evs, k + 1, p.slot)| == FRAME
            && p.data == Latest(evs, k + 1, p.slot)[0 := a % 256]
  {
    hide Step, Inv, Admissible, Shape;
    var ev, p := evs[k], ss[k + 1].attempts[a];
    assert Admissible(ev) && Shape(ss[k].tx) && ss[k + 1] == Step(ss[k], ev);
    NumbersAreConsecutive(evs, ss, k + 1, a);
    PeriodicSlot(ss[k], ev, a);
    HoldsLatest(evs, ss, k, p.slot);
    HoldsLatest(evs, ss, k + 1, p.slot);
    StepSnapshot(ss[k], ev, p.slot);
    HeldIsLatest(evs, k, ss[k], p.slot);
    SameFrame(p.data, Latest(evs, k + 1, p.slot), a % 256);
  }

  /** Equal but for the number. */
  lemma SameFrame(data: Bytes, latest: Bytes, number: U8)
    requires |data| == |latest| == FRAME && data[0] == number && data[1..] == latest[1..]
    ensures data == latest[0 := number]
  {
    assert data == [data[0]] + data[1..];
    assert latest[0 := number] == [number] + latest[1..];
  }

  lemma HeldIsLatest(evs: seq<Event>, k: nat, s: State, slot: nat)
    requires k < |evs| && Shape(s.tx) && Admissible(evs[k]) && slot < SLOTS
    requires |Latest(evs, k, slot)| == FRAME && s.tx.payload[slot][1..] == Latest(evs, k, slot)[1..]
    ensures |Latest(evs, k + 1, slot)| == FRAME && Held(s, evs[k], slot)[1..] == Latest(evs, k + 1, slot)[1..]
  {
  }

  lemma PeriodicSlot(s: State, ev: Event, a: nat)
    requires Shape(s.tx) && Admissible(ev)
    requires |s.attempts| <= a < |Step(s, ev).attempts| && Step(s, ev).attempts[a].Periodic?
    ensures Step(s, ev).attempts[a].slot < SLOTS
  {
  }

  lemma AskFirst(tx: GoodTx)
    ensures SlotAt(tx.next, 0) == tx.next
  {
  }

  /** One turn of the round: the slot is served, or the next one is asked. */
  lemma AskSlot(tx: GoodTx, i: nat)
    requires i < SLOTS
    ensures SlotAt(tx.next, i + 1) == (SlotAt(tx.next, i) + 1) % SLOTS
    ensures Turns(tx.pending, tx.next, i) == if tx.pending[SlotAt(tx.next, i)] then i else Turns(tx.pending, tx.next, i + 1)
    ensures Turns(tx.pending, tx.next, SLOTS) == SLOTS
    ensures Turn(tx) == SlotAt(tx.next, Turns(tx.pending, tx.next, 0))
  {
    hide SlotAt;
    NextSlot(tx.next, i);
  }

  lemma NextSlot(next: nat, i: nat)
    ensures SlotAt(next, i + 1) == (SlotAt(next, i) + 1) % SLOTS
  {
  }

  lemma ServeSetsNext(tx: GoodTx, slot: nat, after: U32)
    requires slot < SLOTS
    ensures ServeSlot(tx.(next := (slot + 1) % SLOTS), slot, after) == ServeSlot(tx, slot, after)
    ensures ServeSlot(tx, slot, after).next == (slot + 1) % SLOTS
  {
  }

  // ---- the sender's state, updated in place --------------------------------------------------------

  class Publisher {
    var ready: bool
    var number: U8
    var pending: array<bool>
    var next: nat
    var payload: array<Bytes>
    var attempted: bool
    var lastAttempt: U32
    var rpmSent: bool
    var lastRpm: int
    var rpmSentAt: U32
    var rpmAttemptAt: U32
    var retry: bool

    ghost predicate Valid()
      reads this, pending, payload
    {
      && pending.Length == SLOTS && payload.Length == SLOTS && next < SLOTS
      && (forall i :: 0 <= i < SLOTS ==> |payload[i]| == FRAME)
    }

    ghost function View(): (tx: Tx)
      requires Valid()
      reads this, pending, payload
      ensures Shape(tx)
    {
      Tx(ready, number, pending[..], next, payload[..], attempted, lastAttempt,
         rpmSent, lastRpm, rpmSentAt, rpmAttemptAt, retry)
    }

    method AnyPending() returns (any: bool)
      requires Valid()
      ensures any == (true in pending[..])
    {
      any := false;
      var i := 0;
      while i < SLOTS
        invariant i <= SLOTS && any == (true in pending[..i])
      {
        any := any || pending[i];
        i := i + 1;
      }
      assert pending[..SLOTS] == pending[..];
    }

    method SendSlot(slot: nat, after: U32) returns (sent: seq<Frame>)
      requires Valid() && slot < SLOTS
      modifies this`number, this`attempted, this`lastAttempt, pending, payload
      ensures Valid() && View() == ServeSlot(old(View()), slot, after).(next := next)
      ensures sent == [Frame(PERIODIC_IDS[slot], Numbered(old(payload[slot]), old(number)))]
    {
      pending[slot] := false;
      payload[slot] := Numbered(payload[slot], number);
      number, lastAttempt, attempted := (number + 1) % 256, after, true;
      sent := [Frame(PERIODIC_IDS[slot], payload[slot])];
    }

    /** canServicePeriodic */
    method ServicePeriodic(now: U32, after: U32) returns (sent: seq<Frame>)
      requires Valid()
      modifies this`number, this`next, this`attempted, this`lastAttempt, pending, payload
      ensures Valid() && View() == Service(old(View()), now, after)
      ensures sent == ServiceFrames(old(View()), now)
    {
      hide Elapsed, ServeSlot, Turn, Shape;
      sent := [];
      var any := AnyPending();
      if !ready || !any || (attempted && !Elapsed(now, lastAttempt, GAP_MS)) {
        return;
      }
      sent := ServeNext(after);
    }

    method ServeNext(after: U32) returns (sent: seq<Frame>)
      requires Valid() && true in pending[..]
      modifies this`number, this`next, this`attempted, this`lastAttempt, pending, payload
      ensures Valid() && View() == ServeSlot(old(View()), Turn(old(View())), after)
      ensures sent == [Frame(PERIODIC_IDS[Turn(old(View()))], Numbered(old(View()).payload[Turn(old(View()))], old(number)))]
    {
      hide ServeSlot, Turn, Shape;
      ghost var tx := View();
      var slot := NextPending();
      sent := SendSlot(slot, after);
      ServeSetsNext(tx, slot, after);
    }

    /** The first pending slot from `next` on. */
    method NextPending() returns (slot: nat)
      requires Valid() && true in pending[..]
      modifies this`next
      ensures slot < SLOTS && slot == Turn(old(View()))
      ensures Valid() && View() == old(View()).(next := (slot + 1) % SLOTS)
    {
      hide Turns, SlotAt, Shape;
      ghost var tx := View();
      TurnIsPending(tx);
      AskFirst(tx);
      AskSlot(tx, 0);
      var i := 0;
      slot := next;
      while i < SLOTS
        invariant i <= SLOTS && next == SlotAt(tx.next, i)
        invariant Turns(tx.pending, tx.next, 0) == Turns(tx.pending, tx.next, i)
      {
        slot := next;
        AskSlot(tx, i);
        next := (slot + 1) % SLOTS;
        if pending[slot] {
          return;
        }
        i := i + 1;
      }
    }

    method QueuePeriodic(slot: nat, data: Bytes, now: U32, after: U32) returns (sent: seq<Frame>)
      requires Valid() && slot < SLOTS && |data| == FRAME
      modifies this`number, this`next, this`attempted, this`lastAttempt, pending, payload
      ensures Valid() && View() == Service(Queue(old(View()), slot, data), now, after)
      ensures sent == ServiceFrames(Queue(old(View()), slot, data), now)
    {
      ghost var tx := View();
      payload[slot] := data;
      pending[slot] := true;
      assert View() == Queue(tx, slot, data);
      sent := ServicePeriodic(now, after);
    }

    /** resetTransmitState and the outcome of the controller's start. */
    method Initialize(now: U32, ok: bool)
      requires Valid()
      modifies this, pending
      ensures pending == old(pending) && payload == old(payload)
      ensures Valid() && View() == Init(old(View()), now, ok)
    {
      ForgetRpm(now);
      ClearPending();
      next, attempted, lastAttempt, ready := 0, false, 0, ok;
    }

    method ForgetRpm(now: U32)
      requires Valid()
      modifies this`rpmSent, this`lastRpm, this`rpmSentAt, this`rpmAttemptAt, this`retry
      ensures Valid()
      ensures View() == old(View()).(rpmSent := false, lastRpm := 0, rpmSentAt := now, rpmAttemptAt := now, retry := false)
    {
      rpmSent, lastRpm, rpmSentAt, rpmAttemptAt, retry := false, 0, now, now, false;
    }

    method ClearPending()
      requires pending.Length == SLOTS
      modifies pending
      ensures pending[..] == START.pending
    {
      var i := 0;
      while i < SLOTS
        invariant i <= SLOTS && forall j :: 0 <= j < i ==> !pending[j]
      {
        pending[i] := false;
        i := i + 1;
      }
    }

    /** CAN_updaterecipients_02, without the service call at its end. */
    method UpdateRpm(now: U32, rpm: int, ok: bool, after: U32) returns (sent: seq<Frame>)
      requires Valid()
      modifies this`number, this`attempted, this`lastAttempt, this`rpmSent, this`lastRpm, this`rpmSentAt,
               this`rpmAttemptAt, this`retry
      ensures Valid() && View() == AfterRpm(old(View()), now, rpm, ok, after)
      ensures sent == RpmFrames(old(View()), now, rpm)
    {
      hide Elapsed, SendRpm, RpmFrame;
      sent := [];
      if !ready {
        return;
      }
      var retryDue := retry && Elapsed(now, rpmAttemptAt, RETRY_MS);
      var heartbeatDue := Elapsed(now, rpmSentAt, HEARTBEAT_MS);
      var valueChanged := !rpmSent || lastRpm != rpm;
      var shouldSend := if retry then retryDue else valueChanged || heartbeatDue;
      if shouldSend {
        sent := [Frame(ID_RPM, RpmFrame(number, rpm))];
        NoteRpm(now, rpm, ok, after);
      }
    }

    /** The number is used up, and the outcome of the send decides when the next
        frame is due. */
    method NoteRpm(now: U32, rpm: int, ok: bool, after: U32)
      requires Valid()
      modifies this`number, this`attempted, this`lastAttempt, this`rpmSent, this`lastRpm, this`rpmSentAt,
               this`rpmAttemptAt, this`retry
      ensures Valid() && View() == SendRpm(old(View()), now, rpm, ok, after)
    {
      CountAttempt(after);
      rpmAttemptAt := now;
      if ok {
        rpmSent, lastRpm, rpmSentAt, retry := true, rpm, now, false;
      } else {
        retry := true;
      }
    }

    method CountAttempt(after: U32)
      requires Valid()
      modifies this`number, this`attempted, this`lastAttempt
      ensures Valid() && View() == Attempted(old(View()), after)
    {
      number, lastAttempt, attempted := (number + 1) % 256, after, true;
    }

    method UpdateAndService(now: U32, rpm: int, ok: bool, after: U32, now2: U32, after2: U32) returns (sent: seq<Frame>)
      requires Valid()
      modifies this`number, this`next, this`attempted, this`lastAttempt, this`rpmSent, this`lastRpm, this`rpmSentAt,
               this`rpmAttemptAt, this`retry, pending, payload
      ensures Valid() && View() == Service(AfterRpm(old(View()), now, rpm, ok, after), now2, after2)
      ensures sent == RpmFrames(old(View()), now, rpm) + ServiceFrames(AfterRpm(old(View()), now, rpm, ok, after), now2)
    {
      hide Service, ServiceFrames, AfterRpm, RpmFrames;
      var first := UpdateRpm(now, rpm, ok, after);
      var second := ServicePeriodic(now2, after2);
      sent := first + second;
    }
  }
}
