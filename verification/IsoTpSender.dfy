/**
 * The non-blocking ISO-TP transmitter: one step at a time under flow control,
 * foreign frames, refused sends and timeouts.
 */
module IsoTpSender {
  import opened Words
  import opened IsoTpSegments

  const MAX_PAYLOAD: nat := 160
  const FC_TIMEOUT_MS: nat := 1000
  const RETRY_TIMEOUT_MS: nat := 1000
  const LISTEN_ID: U32 := 0x7E0
  const FUNCTIONAL_ID: U32 := 0x7DF
  const DRAIN: nat := 8

  datatype Phase = Idle | WaitFc | SendCf

  datatype Tx = Tx(
    phase: Phase,
    data: Bytes,
    len: nat,
    offset: nat,
    responseId: U32,
    requestId: U32,
    index: U8,
    stMin: U8,
    blockSize: U8,
    blockSent: U8,
    cfSent: bool,
    fcWaitStart: U32,
    lastCfTime: U32,
    txRetryStart: U32)

  type GoodTx = t: Tx | |t.data| == MAX_PAYLOAD
    ghost witness Tx(Idle, Zeros(MAX_PAYLOAD), 0, 0, 0, 0, 0, 0, 0, 0, false, 0, 0, 0)

  datatype Received = Frame(id: U32, dlc: U8, data: Bytes) | Failed

  datatype Status = Started | Invalid | Busy | SendFailed

  /** How a step ended: still going, all sent, or given up. */
  datatype Outcome = Running | Completed | FcTimeout | RetryTimeout | Aborted

  /** Separation time in milliseconds; values the standard reserves count as 0. */
  function StMinToMs(raw: U8): (ms: U8) {
    if raw <= 0x7F then raw else if 0xF1 <= raw <= 0xF9 then 1 else 0
  }

  /** obdTransportSendPayload: the new state, the status, the frames that went out. */
  function SendPayload(tx: GoodTx, responseId: U32, requestId: U32, payload: Bytes, now: U32, later: U32, sendOk: bool)
    : (r: (GoodTx, Status, seq<Bytes>))
  {
    if |payload| == 0 || |payload| > MAX_PAYLOAD then (tx, Invalid, [])
    else if !tx.phase.Idle? then (tx, Busy, [])
    else if !sendOk then (tx, SendFailed, [])
    else if |payload| <= 7 then (tx, Started, [SingleFrame(payload)])
    else
      (Tx(WaitFc, payload + tx.data[|payload|..], |payload|, 6, responseId, requestId, 1, 0, 0, 0, false,
          later, 0, now),
       Started, [FirstFrame(payload)])
  }

  predicate FlowControl(r: Received) {
    r.Frame? && |r.data| == 8 && r.dlc >= 3 && r.data[0] / 16 == 3
  }

  predicate FromTester(r: Received, requestId: U32) {
    r.Frame? && (r.id == requestId || r.id == LISTEN_ID || r.id == FUNCTIONAL_ID)
  }

  predicate ClearToSend(r: Received, requestId: U32) {
    FromTester(r, requestId) && FlowControl(r) && r.data[0] % 16 == 0
  }

  /** Read up to eight frames, from frame k on, until one decides. */
  function Drain(tx: GoodTx, rx: seq<Received>, now: U32, k: nat): (r: (GoodTx, Outcome))
    decreases DRAIN - k
  {
    if k >= DRAIN || k >= |rx| || rx[k].Failed? then (tx, Running)
    else if FromTester(rx[k], tx.requestId) && FlowControl(rx[k]) && rx[k].data[0] % 16 <= 2 then
      var kind := rx[k].data[0] % 16;
      if kind == 0 then
        (tx.(blockSize := rx[k].data[1], stMin := StMinToMs(rx[k].data[2]), blockSent := 0, lastCfTime := 0,
             cfSent := false, txRetryStart := now, phase := SendCf), Running)
      else if kind == 1 then (tx.(fcWaitStart := now), Running)
      else (tx.(phase := Idle), Aborted)
    else Drain(tx, rx, now, k + 1)
  }

  /** The clear-to-send frame a drain stopped at, if it did. */
  function DrainedAt(tx: GoodTx, rx: seq<Received>, k: nat): (r: nat)
    decreases DRAIN - k
  {
    if k >= DRAIN || k >= |rx| || rx[k].Failed? then |rx|
    else if FromTester(rx[k], tx.requestId) && FlowControl(rx[k]) && rx[k].data[0] % 16 <= 2 then k
    else DrainedAt(tx, rx, k + 1)
  }

  /** The next consecutive frame of the buffer. */
  function NextFrame(tx: GoodTx): (f: Bytes)
    requires tx.offset <= tx.len <= MAX_PAYLOAD
    ensures |f| == FRAME
  {
    var part := tx.data[tx.offset..Min(tx.len, tx.offset + 7)];
    [0x20 + tx.index % 16] + part + Zeros(7 - |part|)
  }

  /** A consecutive frame went out. */
  function AfterSent(tx: GoodTx, now: U32, later: U32): (r: (GoodTx, Outcome))
    requires tx.offset <= tx.len <= MAX_PAYLOAD
  {
    var tx1 := tx.(offset := Min(tx.len, tx.offset + 7), index := (tx.index + 1) % 16, lastCfTime := now,
                   cfSent := true, txRetryStart := now);
    if tx1.offset >= tx.len then (tx1.(phase := Idle), Completed)
    else if tx.blockSize == 0 then (tx1, Running)
    else if tx.blockSent + 1 >= tx.blockSize then
      (tx1.(blockSent := 0, fcWaitStart := later, phase := WaitFc), Running)
    else (tx1.(blockSent := tx.blockSent + 1), Running)
  }

  /** iso_tp_process: the new state, how it ended, the frames that went out. */
  function Process(tx: GoodTx, now: U32, later: U32, rx: seq<Received>, sendOk: bool): (r: (GoodTx, Outcome, seq<Bytes>))
    requires tx.offset <= tx.len <= MAX_PAYLOAD
  {
    match tx.phase
    case Idle => (tx, Running, [])
    case WaitFc =>
      if Elapsed(now, tx.fcWaitStart, FC_TIMEOUT_MS) then (tx.(phase := Idle), FcTimeout, [])
      else
        var (tx1, outcome) := Drain(tx, rx, later, 0);
        (tx1, outcome, [])
    case SendCf =>
      if tx.cfSent && !Elapsed(now, tx.lastCfTime, tx.stMin) then (tx, Running, [])
      else if !sendOk then
        if Elapsed(later, tx.txRetryStart, RETRY_TIMEOUT_MS) then (tx.(phase := Idle), RetryTimeout, [])
        else (tx, Running, [])
      else (AfterSent(tx, now, later).0, AfterSent(tx, now, later).1, [NextFrame(tx)])
  }

  // ---- runs ---------------------------------------------------------------------------

  /** Times are true milliseconds; the module sees them modulo 2^32. */
  datatype Event =
    | EvSend(responseId: U32, requestId: U32, payload: Bytes, t: nat, t2: nat, sendOk: bool)
    | EvProcess(t: nat, t2: nat, rx: seq<Received>, sendOk: bool)

  /** What happened: the payload of the current transfer, its frames on the wire,
      whether it was completed; and the consecutive frames since the last clear
      to send, with the block size and separation time that one asked for. */
  datatype Hist = Hist(payload: Bytes, wire: seq<Bytes>, done: bool, block: seq<nat>, blockSize: U8, stRaw: U8)

  datatype State = State(tx: Tx, h: Hist)

  predicate StateShape(s: State) { |s.tx.data| == MAX_PAYLOAD && s.tx.offset <= s.tx.len <= MAX_PAYLOAD }

  function StepSend(s: State, ev: Event): (s': State)
    requires StateShape(s) && ev.EvSend?
  {
    var (tx, status, sent) := SendPayload(s.tx, ev.responseId, ev.requestId, ev.payload, Tick(ev.t), Tick(ev.t2), ev.sendOk);
    if status.Started? then State(tx, Hist(ev.payload, sent, |ev.payload| <= 7, [], 0, 0)) else s
  }

  function StepProcess(s: State, ev: Event): (s': State)
    requires StateShape(s) && ev.EvProcess?
  {
    var (tx, outcome, sent) := Process(s.tx, Tick(ev.t), Tick(ev.t2), ev.rx, ev.sendOk);
    var at := DrainedAt(s.tx, ev.rx, 0);
    if s.tx.phase.WaitFc? && tx.phase.SendCf? && at < |ev.rx| && ev.rx[at].Frame? && |ev.rx[at].data| == 8 then
      State(tx, s.h.(block := [], blockSize := ev.rx[at].data[1], stRaw := ev.rx[at].data[2]))
    else if sent != [] then
      State(tx, s.h.(wire := s.h.wire + sent, done := outcome.Completed?, block := s.h.block + [ev.t]))
    else s.(tx := tx)
  }

  function Step(s: State, ev: Event): (s': State)
    requires StateShape(s)
  {
    match ev
    case EvSend(_, _, _, _, _, _) => StepSend(s, ev)
    case EvProcess(_, _, _, _) => StepProcess(s, ev)
  }

  const START := State(Tx(Idle, Zeros(MAX_PAYLOAD), 0, 0, 0, 0, 0, 0, 0, 0, false, 0, 0, 0),
                       Hist([], [], false, [], 0, 0))

  function TimeOf(ev: Event): nat { ev.t }

  /** The states of a run whose times never go back. */
  ghost predicate IsRun(evs: seq<Event>, ss: seq<State>) {
    && |ss| == |evs| + 1
    && ss[0] == START
    && (forall k :: 0 <= k < |ss| ==> StateShape(ss[k]))
    && (forall k {:trigger evs[k]} :: 0 <= k < |evs| ==> ss[k + 1] == Step(ss[k], evs[k]))
    && (forall j, k {:trigger evs[j], evs[k]} :: 0 <= j <= k < |evs| ==> TimeOf(evs[j]) <= TimeOf(evs[k]))
  }

  // ---- the invariant -------------------------------------------------------------------

  /** Frames closer than the separation time, or more than the block size. */
  ghost predicate Paced(block: seq<nat>, blockSize: U8, stRaw: U8) {
    && (blockSize != 0 ==> |block| <= blockSize)
    && (forall i :: 0 < i < |block| ==> block[i - 1] + StMinToMs(stRaw) <= block[i])
  }

  ghost predicate Follows(s: State)
    requires StateShape(s)
  {
    var n := |s.h.wire|;
    && 7 < |s.h.payload| <= MAX_PAYLOAD
    && 1 <= n <= |Segment(s.h.payload)|
    && s.h.wire == Segment(s.h.payload)[..n]
    && (s.h.done <==> n == |Segment(s.h.payload)|)
    && (!s.tx.phase.Idle? ==>
          && s.tx.len == |s.h.payload|
          && s.tx.data[..s.tx.len] == s.h.payload
          && s.tx.offset == Covered(s.tx.len, n - 1) < s.tx.len
          && s.tx.index == n % 16)
  }

  ghost predicate Inv(s: State, t: nat) {
    && StateShape(s)
    && (s.h.payload == [] ==> s.tx.phase.Idle? && s.h.wire == [] && !s.h.done)
    && (1 <= |s.h.payload| <= 7 ==> s.tx.phase.Idle? && s.h.done && s.h.wire == [SingleFrame(s.h.payload)])
    && (|s.h.payload| > 7 ==> Follows(s))
    && Paced(s.h.block, s.h.blockSize, s.h.stRaw)
    && (forall i :: 0 <= i < |s.h.block| ==> s.h.block[i] <= t)
    && (s.tx.phase.SendCf? ==>
          && s.tx.stMin == StMinToMs(s.h.stRaw) && s.tx.blockSize == s.h.blockSize
          && (s.tx.cfSent <==> s.h.block != [])
          && (s.h.block != [] ==> s.tx.lastCfTime == Tick(s.h.block[|s.h.block| - 1]))
          && (s.tx.blockSize != 0 ==> |s.h.block| == s.tx.blockSent < s.tx.blockSize))
  }

  /** A drain touches nothing of the transfer, and goes on only at a clear to
      send, whose parameters it takes. */
  lemma {:induction false} DrainEffect(tx: GoodTx, rx: seq<Received>, now: U32, k: nat)
    requires tx.phase.WaitFc?
    ensures var (tx1, outcome) := Drain(tx, rx, now, k);
            var at := DrainedAt(tx, rx, k);
            && tx1.data == tx.data && tx1.len == tx.len && tx1.offset == tx.offset && tx1.index == tx.index
            && (tx1.phase.SendCf? ==>
                  && at < |rx| && ClearToSend(rx[at], tx.requestId)
                  && tx1.blockSize == rx[at].data[1] && tx1.stMin == StMinToMs(rx[at].data[2])
                  && tx1.blockSent == 0 && !tx1.cfSent)
    decreases DRAIN - k
  {
    if k >= DRAIN || k >= |rx| || rx[k].Failed? {
    } else if FromTester(rx[k], tx.requestId) && FlowControl(rx[k]) && rx[k].data[0] % 16 <= 2 {
    } else {
      DrainEffect(tx, rx, now, k + 1);
    }
  }

  lemma SendInv(s: State, ev: Event, t: nat)
    requires Inv(s, t) && ev.EvSend? && t <= ev.t
    ensures Inv(StepSend(s, ev), ev.t)
  {
    if 7 < |ev.payload| <= MAX_PAYLOAD {
      SegmentShape(ev.payload);
      CoverageEnds(|ev.payload|, 0);
      var data := ev.payload + s.tx.data[|ev.payload|..];
      assert data[..|ev.payload|] == ev.payload;
      assert Segment(ev.payload)[..1] == [FirstFrame(ev.payload)];
    }
  }

  /** The frame built from the buffer is the next frame of the segmentation. */
  lemma NextFrameIs(s: State)
    requires StateShape(s) && Follows(s) && !s.tx.phase.Idle?
    ensures var n := |s.h.wire|;
            && n < |Segment(s.h.payload)|
            && NextFrame(s.tx) == Segment(s.h.payload)[n]
            && Min(s.tx.len, s.tx.offset + 7) == Covered(s.tx.len, n)
            && (Covered(s.tx.len, n) == s.tx.len <==> n + 1 == |Segment(s.h.payload)|)
            && s.h.wire + [NextFrame(s.tx)] == Segment(s.h.payload)[..n + 1]
            && (n % 16 + 1) % 16 == (n + 1) % 16
  {
    hide Segment, NextFrame, ConsecutiveFrame, ConsecutiveCount;
    var n, p := |s.h.wire|, s.h.payload;
    SegmentShape(p);
    CoverageEnds(s.tx.len, n - 1);
    CoverageEnds(s.tx.len, n);
    NextNumber(n);
    BufferFrame(s.tx, p, n);
    assert Segment(p)[..n + 1] == Segment(p)[..n] + [Segment(p)[n]];
  }

  /** The buffer holds the payload, so its next frame is the payload's. */
  lemma BufferFrame(tx: GoodTx, p: Bytes, n: nat)
    requires 1 <= n && tx.len == |p| <= MAX_PAYLOAD && tx.data[..tx.len] == p
    requires tx.offset == Covered(tx.len, n - 1) < tx.len && tx.index == n % 16
    ensures Min(tx.len, tx.offset + 7) == Covered(tx.len, n)
    ensures NextFrame(tx) == ConsecutiveFrame(p, n)
  {
    var from, to := tx.offset, Min(tx.len, tx.offset + 7);
    SliceOfPrefix(tx.data, tx.len, from, to);
  }

  lemma SliceOfPrefix(b: Bytes, n: nat, from: nat, to: nat)
    requires from <= to <= n <= |b|
    ensures b[from..to] == b[..n][from..to]
  {
  }

  lemma SentInv(s: State, ev: Event, t: nat)
    requires Inv(s, t) && ev.EvProcess? && t <= ev.t && s.tx.phase.SendCf?
    requires Process(s.tx, Tick(ev.t), Tick(ev.t2), ev.rx, ev.sendOk).2 != []
    ensures Inv(StepProcess(s, ev), ev.t)
  {
    hide NextFrame, Segment, Elapsed;
    NextFrameIs(s);
    var s' := StepProcess(s, ev);
    if s.h.block != [] {
      ElapsedIsReal(s.h.block[|s.h.block| - 1], ev.t, s.tx.stMin);
    }
    assert s'.h.block == s.h.block + [ev.t];
    assert Follows(s');
    assert Paced(s'.h.block, s'.h.blockSize, s'.h.stRaw);
  }

  lemma StepInv(s: State, ev: Event, t: nat)
    requires Inv(s, t) && t <= TimeOf(ev)
    ensures Inv(Step(s, ev), TimeOf(ev))
  {
    match ev
    case EvSend(_, _, _, _, _, _) => SendInv(s, ev, t);
    case EvProcess(t1, t2, rx, sendOk) =>
      if s.tx.phase.WaitFc? {
        WaitInv(s, ev, t);
      } else if s.tx.phase.SendCf? && Process(s.tx, Tick(t1), Tick(t2), rx, sendOk).2 != [] {
        SentInv(s, ev, t);
      } else {
        QuietInv(s, ev, t);
      }
  }

  lemma WaitInv(s: State, ev: Event, t: nat)
    requires Inv(s, t) && ev.EvProcess? && t <= ev.t && s.tx.phase.WaitFc?
    ensures Inv(StepProcess(s, ev), ev.t)
  {
    hide Drain, DrainedAt, Segment, Elapsed;
    DrainEffect(s.tx, ev.rx, Tick(ev.t2), 0);
  }

  lemma QuietInv(s: State, ev: Event, t: nat)
    requires Inv(s, t) && ev.EvProcess? && t <= ev.t && !s.tx.phase.WaitFc?
    requires Process(s.tx, Tick(ev.t), Tick(ev.t2), ev.rx, ev.sendOk).2 == []
    ensures Inv(StepProcess(s, ev), ev.t)
  {
    hide NextFrame, AfterSent, Segment, Elapsed;
  }

  lemma {:induction false} RunInv(evs: seq<Event>, ss: seq<State>, k: nat)
    requires IsRun(evs, ss) && k < |ss|
    ensures Inv(ss[k], if k == 0 then 0 else TimeOf(evs[k - 1]))
    decreases k
  {
    hide Step;
    if k > 0 {
      RunInv(evs, ss, k - 1);
      StepInv(ss[k - 1], evs[k - 1], if k == 1 then 0 else TimeOf(evs[k - 2]));
    }
  }

  // ---- main results ----------------------------------------------------------------------

  /** In every run the frames on the wire are a prefix of the standard's
      segmentation of the payload, and the transfer counts as done exactly when
      an independent receiver has the payload. */
  lemma WireIsPrefix(evs: seq<Event>, ss: seq<State>, k: nat)
    requires IsRun(evs, ss) && k < |ss| && ss[k].h.payload != []
    ensures var h := ss[k].h;
            && 1 <= |h.payload| <= MAX_PAYLOAD
            && h.wire <= Segment(h.payload)
            && (forall i :: 0 <= i < |h.wire| ==> |h.wire[i]| == FRAME)
            && (h.done <==> Reassemble(h.wire) == Complete(h.payload))
            && (h.done <==> Reassemble(h.wire).Complete?)
  {
    RunInv(evs, ss, k);
    var h := ss[k].h;
    SegmentShape(h.payload);
    SegmentsReassemble(h.payload, |h.wire|);
    assert h.wire == Segment(h.payload)[..|h.wire|];
    assert Segment(h.payload)[..|Segment(h.payload)|] == Segment(h.payload);
  }

  /** In every run a block holds at most the granted number of consecutive
      frames, each at least the separation time after the one before, in true
      time and whatever the counter wraps; 0 grants any number. */
  lemma BlocksArePaced(evs: seq<Event>, ss: seq<State>, k: nat)
    requires IsRun(evs, ss) && k < |ss|
    ensures Paced(ss[k].h.block, ss[k].h.blockSize, ss[k].h.stRaw)
  {
    RunInv(evs, ss, k);
  }

  /** A multi-frame transfer sends consecutive frames only on a clear to send
      from the tester. */
  lemma SendsAfterClearToSend(evs: seq<Event>, ss: seq<State>, k: nat)
    requires IsRun(evs, ss) && k < |evs| && ss[k].tx.phase != SendCf && ss[k + 1].tx.phase == SendCf
    ensures ss[k].tx.phase == WaitFc && evs[k].EvProcess?
    ensures exists i :: 0 <= i < |evs[k].rx| && ClearToSend(evs[k].rx[i], ss[k].tx.requestId)
                     && ss[k + 1].h.blockSize == evs[k].rx[i].data[1] && ss[k + 1].h.stRaw == evs[k].rx[i].data[2]
  {
    if evs[k].EvProcess? && ss[k].tx.phase == WaitFc {
      DrainEffect(ss[k].tx, evs[k].rx, Tick(evs[k].t2), 0);
    }
  }

  /** Every frame that goes out leaves strictly fewer bytes to send; the last
      one leaves none. */
  lemma FramesMakeProgress(tx: GoodTx, now: U32, later: U32, rx: seq<Received>, sendOk: bool)
    requires tx.offset < tx.len <= MAX_PAYLOAD
    ensures var (tx1, outcome, sent) := Process(tx, now, later, rx, sendOk);
            && (sent != [] ==> tx1.len - tx1.offset < tx.len - tx.offset)
            && (sent == [] ==> tx1.offset == tx.offset)
            && (outcome == Completed <==> sent != [] && tx1.offset == tx1.len)
  {
    if tx.phase.WaitFc? {
      DrainEffect(tx, rx, later, 0);
      DrainNeverCompletes(tx, rx, later, 0);
    }
  }

  lemma {:induction false} DrainNeverCompletes(tx: GoodTx, rx: seq<Received>, now: U32, k: nat)
    ensures Drain(tx, rx, now, k).1 != Completed
    decreases DRAIN - k
  {
    if k < DRAIN && k < |rx| && !rx[k].Failed? {
      DrainNeverCompletes(tx, rx, now, k + 1);
    }
  }

  /** The separation time the standard asks for, in microseconds; reserved
      values ask for the longest, 127 ms (section 9.6 of ISO 15765-2:2016). */
  function StandardSeparationUs(raw: U8): nat {
    if raw <= 0x7F then 1000 * raw
    else if 0xF1 <= raw <= 0xF9 then 100 * (raw - 0xF0)
    else 127000
  }

  /** The decoded separation time is long enough exactly for the values that are
      not reserved. */
  lemma SeparationMeetsStandard(raw: U8)
    ensures 1000 * StMinToMs(raw) >= StandardSeparationUs(raw) <==> raw <= 0x7F || 0xF1 <= raw <= 0xF9
  {
  }

  // ---- the transmitter as the firmware runs it ----------------------------------------------

  /** The frames the CAN controller accepted, and the identifier of each. */
  class Bus {
    var wire: seq<Bytes>
    var ids: seq<U32>

    constructor ()
      ensures wire == [] && ids == []
    {
      wire, ids := [], [];
    }

    method Send(id: U32, f: array<U8>, ok: bool)
      requires f.Length == FRAME
      modifies this
      ensures wire == if ok then old(wire) + [f[..]] else old(wire)
      ensures ids == if ok then old(ids) + [id] else old(ids)
    {
      if ok {
        wire, ids := wire + [f[..]], ids + [id];
      }
    }
  }

  class Sender {
    const bus: Bus
    const data: array<U8>
    var phase: Phase
    var len: nat
    var offset: nat
    var responseId: U32
    var requestId: U32
    var index: U8
    var stMin: U8
    var blockSize: U8
    var blockSent: U8
    var cfSent: bool
    var fcWaitStart: U32
    var lastCfTime: U32
    var txRetryStart: U32

    ghost predicate Valid()
      reads this
    {
      data.Length == MAX_PAYLOAD && offset <= len <= MAX_PAYLOAD
    }

    ghost function View(): (tx: GoodTx)
      requires data.Length == MAX_PAYLOAD
      reads this, data
    {
      Tx(phase, data[..], len, offset, responseId, requestId, index, stMin, blockSize, blockSent, cfSent,
         fcWaitStart, lastCfTime, txRetryStart)
    }

    constructor (canBus: Bus)
      ensures Valid() && View() == START.tx && bus == canBus && fresh(data)
    {
      bus := canBus;
      data := new U8[MAX_PAYLOAD](_ => 0);
      phase, len, offset, responseId, requestId, index := Idle, 0, 0, 0, 0, 0;
      stMin, blockSize, blockSent, cfSent := 0, 0, 0, false;
      fcWaitStart, lastCfTime, txRetryStart := 0, 0, 0;
      new;
      assert data[..] == Zeros(MAX_PAYLOAD);
    }

    /** obdTransportSendPayload */
    method Send(response: U32, request: U32, payload: Bytes, now: U32, later: U32, sendOk: bool)
      returns (status: Status)
      requires Valid()
      modifies this, bus, data
      ensures Valid()
      ensures var (tx, st, sent) := SendPayload(old(View()), response, request, payload, now, later, sendOk);
              View() == tx && status == st && bus.wire == old(bus.wire) + sent
      ensures bus.ids == old(bus.ids) + if status == Started then [response] else []
    {
      hide SingleFrame, FirstFrame;
      if |payload| == 0 || |payload| > MAX_PAYLOAD {
        return Invalid;
      }
      if phase != Idle {
        return Busy;
      }
      var frame;
      if |payload| <= 7 {
        frame := BuildSingle(payload);
        bus.Send(response, frame, sendOk);
        return if sendOk then Started else SendFailed;
      }
      frame := BuildFirst(payload);
      bus.Send(response, frame, sendOk);
      status := SendFailed;
      if sendOk {
        BeginTransfer(response, request, payload, now, later);
        status := Started;
      }
    }

    method BeginTransfer(response: U32, request: U32, payload: Bytes, now: U32, later: U32)
      requires Valid() && 7 < |payload| <= MAX_PAYLOAD
      modifies this, data
      ensures Valid()
      ensures View() == Tx(WaitFc, payload + old(data[..])[|payload|..], |payload|, 6, response, request, 1, 0, 0, 0,
                           false, later, 0, now)
    {
      CopyPayload(payload);
      phase, len, offset := WaitFc, |payload|, 6;
      responseId, requestId, index := response, request, 1;
      stMin, blockSize, blockSent, cfSent := 0, 0, 0, false;
      lastCfTime, txRetryStart, fcWaitStart := 0, now, later;
    }

    method CopyPayload(payload: Bytes)
      requires Valid() && |payload| <= MAX_PAYLOAD
      modifies data
      ensures data[..] == payload + old(data[..])[|payload|..]
    {
      CopyTo(payload, data, 0);
      ghost var before := old(data[..]);
      assert before[..0] + payload == payload;
    }

    static method BuildSingle(payload: Bytes) returns (frame: array<U8>)
      requires 1 <= |payload| <= 7
      ensures fresh(frame) && frame[..] == SingleFrame(payload)
    {
      frame := new U8[FRAME](_ => 0);
      frame[0] := |payload|;
      CopyTo(payload, frame, 1);
    }

    static method BuildFirst(payload: Bytes) returns (frame: array<U8>)
      requires 7 < |payload| <= MAX_PAYLOAD
      ensures fresh(frame) && frame[..] == FirstFrame(payload)
    {
      frame := new U8[FRAME](_ => 0);
      frame[0] := 0x10 + |payload| / 0x100;
      frame[1] := |payload| % 0x100;
      CopyTo(payload[..6], frame, 2);
    }

    /** The next consecutive frame, padded with zeros, and the offset after it. */
    method BuildConsecutive() returns (frame: array<U8>, nextOffset: nat)
      requires Valid()
      ensures fresh(frame) && frame[..] == NextFrame(View())
      ensures nextOffset == Min(len, offset + 7)
    {
      frame := new U8[FRAME](_ => 0);
      nextOffset := offset;
      frame[0] := 0x20 + index % 16;
      for i := 1 to FRAME
        invariant nextOffset == Min(len, offset + (i - 1))
        invariant frame[0] == 0x20 + index % 16
        invariant forall k :: 1 <= k < FRAME ==>
                    frame[k] == if k < i && offset + (k - 1) < len then data[offset + (k - 1)] else 0
      {
        if nextOffset < len {
          frame[i] := data[nextOffset];
          nextOffset := nextOffset + 1;
        }
      }
      FrameIs(frame[..], View());
    }

    static lemma FrameIs(f: Bytes, tx: GoodTx)
      requires tx.offset <= tx.len <= MAX_PAYLOAD
      requires |f| == FRAME && f[0] == 0x20 + tx.index % 16
      requires forall k :: 1 <= k < FRAME ==>
                 f[k] == if tx.offset + (k - 1) < tx.len then tx.data[tx.offset + (k - 1)] else 0
      ensures f == NextFrame(tx)
    {
      var part := tx.data[tx.offset..Min(tx.len, tx.offset + 7)];
      assert f[1..1 + |part|] == part;
      assert f[1 + |part|..] == Zeros(7 - |part|);
      assert f == [f[0]] + f[1..1 + |part|] + f[1 + |part|..];
    }

    static method CopyTo(from: Bytes, to: array<U8>, at: nat)
      requires at + |from| <= to.Length
      modifies to
      ensures to[..] == old(to[..])[..at] + from + old(to[..])[at + |from|..]
    {
      for i := 0 to |from|
        invariant forall k :: 0 <= k < to.Length ==>
                    to[k] == if at <= k < at + i then from[k - at] else old(to[k])
      {
        to[at + i] := from[i];
      }
    }

    /** iso_tp_process */
    method Step(now: U32, later: U32, rx: seq<Received>, sendOk: bool) returns (outcome: Outcome)
      requires Valid()
      modifies this, bus
      ensures Valid()
      ensures var (tx, end, sent) := Process(old(View()), now, later, rx, sendOk);
              && View() == tx && outcome == end && bus.wire == old(bus.wire) + sent
              && bus.ids == old(bus.ids) + if sent == [] then [] else [old(responseId)]
    {
      outcome := Running;
      if phase == WaitFc {
        outcome := AwaitFlowControl(now, later, rx);
      } else if phase == SendCf {
        outcome := SendConsecutive(now, later, sendOk);
      }
    }

    method AwaitFlowControl(now: U32, later: U32, rx: seq<Received>) returns (outcome: Outcome)
      requires Valid() && phase == WaitFc
      modifies this
      ensures Valid()
      ensures (View(), outcome) ==
              if Elapsed(now, old(fcWaitStart), FC_TIMEOUT_MS) then (old(View()).(phase := Idle), FcTimeout)
              else Drain(old(View()), rx, later, 0)
    {
      if Elapsed(now, fcWaitStart, FC_TIMEOUT_MS) {
        phase := Idle;
        return FcTimeout;
      }
      outcome := DrainFrames(later, rx);
    }

    method DrainFrames(later: U32, rx: seq<Received>) returns (outcome: Outcome)
      requires Valid()
      modifies this
      ensures Valid()
      ensures (View(), outcome) == Drain(old(View()), rx, later, 0)
    {
      outcome := Running;
      var k := 0;
      while k < DRAIN
        invariant 0 <= k <= DRAIN
        invariant View() == old(View()) && outcome == Running
        invariant Drain(View(), rx, later, k) == Drain(old(View()), rx, later, 0)
      {
        if k >= |rx| || rx[k].Failed? {
          return;
        }
        if FromTester(rx[k], requestId) && FlowControl(rx[k]) && rx[k].data[0] % 16 <= 2 {
          outcome := Obey(rx[k].data, later);
          return;
        }
        k := k + 1;
      }
    }

    /** A flow-control frame: clear to send, wait, or abort. */
    method Obey(frame: Bytes, later: U32) returns (outcome: Outcome)
      requires Valid() && |frame| == 8 && frame[0] % 16 <= 2
      modifies this`phase, this`stMin, this`blockSize, this`blockSent, this`cfSent, this`fcWaitStart, this`lastCfTime,
               this`txRetryStart
      ensures Valid()
      ensures (View(), outcome) ==
              var tx := old(View());
              if frame[0] % 16 == 0 then
                (tx.(blockSize := frame[1], stMin := StMinToMs(frame[2]), blockSent := 0, lastCfTime := 0,
                     cfSent := false, txRetryStart := later, phase := SendCf), Running)
              else if frame[0] % 16 == 1 then (tx.(fcWaitStart := later), Running)
              else (tx.(phase := Idle), Aborted)
    {
      outcome := Running;
      var kind := frame[0] % 16;
      if kind == 0 {
        StartBlock(frame[1], StMinToMs(frame[2]), later);
      } else if kind == 1 {
        fcWaitStart := later;
      } else {
        phase := Idle;
        outcome := Aborted;
      }
    }

    method StartBlock(size: U8, separation: U8, later: U32)
      requires Valid()
      modifies this`phase, this`stMin, this`blockSize, this`blockSent, this`cfSent, this`lastCfTime, this`txRetryStart
      ensures Valid()
      ensures View() == old(View()).(blockSize := size, stMin := separation, blockSent := 0, lastCfTime := 0,
                                     cfSent := false, txRetryStart := later, phase := SendCf)
    {
      blockSize := size;
      stMin := separation;
      blockSent := 0;
      lastCfTime := 0;
      cfSent := false;
      txRetryStart := later;
      phase := SendCf;
    }

    method SendConsecutive(now: U32, later: U32, sendOk: bool) returns (outcome: Outcome)
      requires Valid() && phase == SendCf
      modifies this, bus
      ensures Valid()
      ensures var (tx, end, sent) := Process(old(View()), now, later, [], sendOk);
              && View() == tx && outcome == end && bus.wire == old(bus.wire) + sent
              && bus.ids == old(bus.ids) + if sent == [] then [] else [old(responseId)]
    {
      hide NextFrame, AfterSent;
      if cfSent && !Elapsed(now, lastCfTime, stMin) {
        return Running;
      }
      var frame, nextOffset := BuildConsecutive();
      bus.Send(responseId, frame, sendOk);
      if !sendOk {
        outcome := Running;
        if Elapsed(later, txRetryStart, RETRY_TIMEOUT_MS) {
          phase := Idle;
          outcome := RetryTimeout;
        }
        return;
      }
      outcome := CountSent(nextOffset, now, later);
    }

    method CountSent(nextOffset: nat, now: U32, later: U32) returns (outcome: Outcome)
      requires Valid() && nextOffset == Min(len, offset + 7)
      modifies this`phase, this`offset, this`index, this`blockSent, this`cfSent, this`fcWaitStart, this`lastCfTime,
               this`txRetryStart
      ensures Valid()
      ensures (View(), outcome) == AfterSent(old(View()), now, later)
    {
      Advance(nextOffset, now);
      outcome := Running;
      if offset >= len {
        phase := Idle;
        outcome := Completed;
      } else if blockSize != 0 {
        CountBlock(later);
      }
    }

    method Advance(nextOffset: nat, now: U32)
      requires Valid() && nextOffset <= len
      modifies this`offset, this`index, this`cfSent, this`lastCfTime, this`txRetryStart
      ensures Valid()
      ensures View() == old(View()).(offset := nextOffset, index := (old(index) + 1) % 16, lastCfTime := now,
                                     cfSent := true, txRetryStart := now)
    {
      offset := nextOffset;
      index := (index + 1) % 16;
      lastCfTime := now;
      cfSent := true;
      txRetryStart := now;
    }

    /** One frame more of the block; after the last the tester is asked again. */
    method CountBlock(later: U32)
      requires Valid()
      modifies this`phase, this`blockSent, this`fcWaitStart
      ensures Valid()
      ensures View() == var tx := old(View());
                        if tx.blockSent + 1 >= tx.blockSize
                        then tx.(blockSent := 0, fcWaitStart := later, phase := WaitFc)
                        else tx.(blockSent := tx.blockSent + 1)
    {
      if blockSent + 1 >= blockSize {
        blockSent := 0;
        fcWaitStart := later;
        phase := WaitFc;
      } else {
        blockSent := blockSent + 1;
      }
    }
  }
}
