/**
 * The time of the clock node as the ECU keeps it: UTC seconds and the moment
 * they were received, published by core 0 through the seqlock, forgotten by it
 * after three seconds, and read by either core. Writer and reader are programs
 * whose single steps interleave in any order.
 */
module RtcTime {
  import opened Words
  import L = Seqlock

  const MAX_AGE_MS: nat := 3000
  const ATTEMPTS: nat := 4
  /** The longest pause of core 0, and of a reader, that the three seconds survive. */
  const MAX_PAUSE_MS: nat := 0x7FFF_0000

  /** The writer: idle, or at step 0..3 of publish. `at` is the true time of the
      stamp it stores. */
  datatype Writer = Idle | Publishing(pc: nat, utc: U32, at: nat)

  /** The reader: at step 0..3 of an attempt; with an accepted copy, about to read
      the clock; or done. `version` and `looked` are the write it copied and the
      last time core 0 had looked at its words by then. */
  datatype Reader =
    | Resting
    | Trying(attempt: nat, pc: nat, utc: U32, receivedMs: U32)
    | Holding(utc: U32, receivedMs: U32, version: nat, looked: nat)
    | Done(result: U32)

  datatype Stamp = Stamp(utc: U32, at: nat)

  datatype State = State(lock: L.State, writer: Writer, reader: Reader, stamps: seq<Stamp>, looked: nat)

  const BEGIN := State(L.Begin([0, 0]), Idle, Resting, [Stamp(0, 0)], 0)

  datatype Event =
    | EvStore(t: nat, utc: U32)
    | EvExpire(t: nat, end: nat)
    | EvWriter(t: nat)
    | EvGet(t: nat)
    | EvReader(t: nat)

  function EndOf(ev: Event): nat { if ev.EvExpire? then ev.end else ev.t }

  /** The step of publish and what it does to the shared words. */
  function WriterStep(w: Writer): L.Event
    requires w.Publishing?
  {
    if w.pc == 0 then L.WriteBegin
    else if w.pc == 1 then L.StoreWord(0, w.utc)
    else if w.pc == 2 then L.StoreWord(1, Tick(w.at))
    else L.WriteEnd
  }

  function ReaderStep(r: Reader): L.Event
    requires r.Trying?
  {
    if r.pc == 0 then L.ReadBegin
    else if r.pc == 1 then L.LoadWord(0)
    else if r.pc == 2 then L.LoadWord(1)
    else L.ReadCheck
  }

  predicate Stale(lock: L.State, now: U32)
    requires |lock.words| == 2
  {
    lock.words[0] != 0 && Elapsed(now, lock.words[1], MAX_AGE_MS)
  }

  /** The value returned for an accepted copy. */
  function ResultOf(utc: U32, receivedMs: U32, now: U32): U32 {
    if utc != 0 && !Elapsed(now, receivedMs, MAX_AGE_MS) then Add32(utc, Sub32(now, receivedMs) / 1000) else 0
  }

  predicate Enabled(s: State, ev: Event) {
    && |s.lock.words| == 2 && |s.stamps| >= 1
    && match ev
       case EvStore(_, _) => s.writer.Idle?
       case EvExpire(t, end) => s.writer.Idle? && t <= end
       case EvWriter(_) => s.writer.Publishing? && L.Enabled(s.lock, WriterStep(s.writer))
       case EvGet(_) => s.reader.Resting? || s.reader.Done?
       case EvReader(_) =>
         s.reader.Holding?
         || (s.reader.Trying? && L.Enabled(s.lock, ReaderStep(s.reader)) && FewWrites(s))
  }

  /** Fewer than 2^31 writes begin during one attempt. */
  predicate FewWrites(s: State) {
    s.reader.Trying? && s.reader.pc == 3 ==> L.Begun(s.lock.stores) - L.Begun(s.lock.since) < M32 / 2
  }

  function Step(s: State, ev: Event): State
    requires Enabled(s, ev)
  {
    match ev
    case EvStore(t, utc) => s.(writer := Publishing(0, utc, t), looked := t)
    case EvExpire(t, end) =>
      s.(looked := t, writer := if Stale(s.lock, Tick(t)) then Publishing(0, 0, end) else Idle)
    case EvWriter(_) =>
      var lock := L.Step(s.lock, WriterStep(s.writer));
      if s.writer.pc < 3 then s.(lock := lock, writer := s.writer.(pc := s.writer.pc + 1))
      else s.(lock := lock, writer := Idle, stamps := s.stamps + [Stamp(s.writer.utc, s.writer.at)])
    case EvGet(_) => s.(reader := Trying(0, 0, 0, 0))
    case EvReader(t) =>
      if s.reader.Holding? then s.(reader := Done(ResultOf(s.reader.utc, s.reader.receivedMs, Tick(t))))
      else ReadStep(s)
  }

  function ReadStep(s: State): State
    requires |s.lock.words| == 2 && |s.stamps| >= 1 && s.reader.Trying? && L.Enabled(s.lock, ReaderStep(s.reader))
  {
    var r := s.reader;
    var lock := L.Step(s.lock, ReaderStep(r));
    var reader :=
      if r.pc == 0 then r.(pc := 1)
      else if r.pc == 1 then r.(pc := 2, utc := s.lock.words[0])
      else if r.pc == 2 then r.(pc := 3, receivedMs := s.lock.words[1])
      else if lock.reader.Checked? && lock.reader.accepted then Holding(r.utc, r.receivedMs, |s.stamps| - 1, s.looked)
      else if r.attempt + 1 == ATTEMPTS then Done(0)
      else Trying(r.attempt + 1, 0, 0, 0);
    s.(lock := lock, reader := reader)
  }

  ghost predicate IsRun(evs: seq<Event>, ss: seq<State>) {
    && |ss| == |evs| + 1
    && ss[0] == BEGIN
    && (forall k {:trigger evs[k]} :: 0 <= k < |evs| ==> Enabled(ss[k], evs[k]) && ss[k + 1] == Step(ss[k], evs[k]))
    && (forall i, j :: 0 <= i < j < |evs| ==> EndOf(evs[i]) <= evs[j].t)
  }

  /** Core 0 looks at its words at least this often, and a reader reads the clock
      this soon after. */
  predicate Timely(s: State, ev: Event) {
    && (ev.EvStore? || ev.EvExpire? ==> ev.t - s.looked <= MAX_PAUSE_MS)
    && (ev.EvReader? && s.reader.Holding? ==> ev.t - s.reader.looked <= MAX_PAUSE_MS)
  }

  // ---- the invariant -------------------------------------------------------------------------

  ghost predicate Stamped(s: State, clock: nat) {
    && |s.stamps| == |s.lock.versions| >= 1
    && (forall k :: 0 <= k < |s.stamps| ==>
          s.lock.versions[k] == [s.stamps[k].utc, Tick(s.stamps[k].at)] && s.stamps[k].at <= clock)
  }

  ghost predicate WriterInv(s: State, clock: nat)
    requires |s.lock.words| == 2
  {
    match s.writer
    case Idle => !s.lock.writing
    case Publishing(pc, utc, at) =>
      && pc <= 3 && at <= clock
      && (s.lock.writing <==> pc > 0)
      && (pc >= 2 ==> s.lock.words[0] == utc)
      && (pc >= 3 ==> s.lock.words[1] == Tick(at))
  }

  ghost predicate ReaderInv(s: State, clock: nat) {
    match s.reader
    case Trying(attempt, pc, utc, ms) =>
      && attempt < ATTEMPTS && pc <= 3
      && (s.lock.reader.Reading? <==> pc > 0)
      && (pc == 1 ==> s.lock.reader.copy == map[])
      && (pc == 2 ==> s.lock.reader.copy == map[0 := utc])
      && (pc == 3 ==> s.lock.reader.copy == map[0 := utc, 1 := ms])
    case Holding(utc, ms, version, looked) =>
      && !s.lock.reader.Reading?
      && version < |s.stamps| && utc == s.stamps[version].utc && ms == Tick(s.stamps[version].at)
      && looked <= clock
    case _ => !s.lock.reader.Reading?
  }

  ghost predicate Inv(s: State, clock: nat) {
    && |s.lock.words| == 2
    && L.Inv(s.lock)
    && Stamped(s, clock)
    && WriterInv(s, clock)
    && ReaderInv(s, clock)
    && s.looked <= clock
  }

  lemma WriterStepInv(s: State, ev: Event, clock: nat)
    requires Inv(s, clock) && Enabled(s, ev) && ev.EvWriter? && clock <= ev.t
    ensures Inv(Step(s, ev), EndOf(ev))
  {
    hide L.Inv;
    L.StepInv(s.lock, WriterStep(s.writer));
    WrittenVersion(s.lock);
  }

  lemma WrittenVersion(lock: L.State)
    requires L.Inv(lock)
    ensures |lock.versions| >= 1
    ensures !lock.writing ==> lock.words == lock.versions[|lock.versions| - 1]
  {
  }

  lemma ReaderStepInv(s: State, ev: Event, clock: nat)
    requires Inv(s, clock) && Enabled(s, ev) && ev.EvReader? && s.reader.Trying? && clock <= ev.t
    ensures Inv(Step(s, ev), EndOf(ev))
  {
    hide L.Inv, L.Begun;
    L.StepInv(s.lock, ReaderStep(s.reader));
    if s.reader.pc == 3 && L.Step(s.lock, L.ReadCheck).reader.accepted {
      L.AcceptedIsOneWrite(s.lock);
      var version := s.lock.versions[|s.stamps| - 1];
      assert 0 in s.lock.reader.copy && 1 in s.lock.reader.copy;
      assert version == [s.reader.utc, s.reader.receivedMs];
    }
  }

  lemma StepInv(s: State, ev: Event, clock: nat)
    requires Inv(s, clock) && Enabled(s, ev) && clock <= ev.t
    ensures Inv(Step(s, ev), EndOf(ev))
  {
    hide L.Inv, L.Begun;
    match ev
    case EvWriter(_) => WriterStepInv(s, ev, clock);
    case EvReader(_) => if s.reader.Trying? { ReaderStepInv(s, ev, clock); }
    case _ =>
  }

  function ClockAt(evs: seq<Event>, k: nat): nat
    requires k <= |evs|
  {
    if k == 0 then 0 else EndOf(evs[k - 1])
  }

  lemma {:induction false} RunInv(evs: seq<Event>, ss: seq<State>, k: nat)
    requires IsRun(evs, ss) && k < |ss|
    ensures Inv(ss[k], ClockAt(evs, k))
    decreases k
  {
    hide Step, Inv, Enabled;
    if k == 0 {
      BeginInv();
    } else {
      var ev := evs[k - 1];
      RunInv(evs, ss, k - 1);
      assert Enabled(ss[k - 1], ev) && ss[k] == Step(ss[k - 1], ev);
      assert ClockAt(evs, k - 1) <= ev.t;
      StepInv(ss[k - 1], ev, ClockAt(evs, k - 1));
    }
  }

  lemma BeginInv()
    ensures Inv(BEGIN, 0)
  {
    L.BeginInv([0, 0]);
    assert Tick(0) == 0;
  }

  // ---- how old the words can get ----------------------------------------------------------------

  /** Between looks no stored time gets older than three seconds unseen. */
  predicate Young(stamp: Stamp, looked: nat, slack: nat) {
    stamp.utc != 0 ==> looked < stamp.at + MAX_AGE_MS + slack
  }

  ghost predicate AgeInv(s: State) {
    && |s.stamps| >= 1
    && Young(s.stamps[|s.stamps| - 1], s.looked, if s.writer.Idle? then 0 else MAX_PAUSE_MS)
    && (s.writer.Publishing? ==> Young(Stamp(s.writer.utc, s.writer.at), s.looked, 0))
    && (s.reader.Holding? ==>
          s.reader.version < |s.stamps| && Young(s.stamps[s.reader.version], s.reader.looked, MAX_PAUSE_MS))
  }

  lemma StepAge(s: State, ev: Event, clock: nat)
    requires Inv(s, clock) && AgeInv(s) && Enabled(s, ev) && Timely(s, ev) && clock <= ev.t
    ensures AgeInv(Step(s, ev))
  {
    hide L.Step;
    if ev.EvExpire? {
      hide Elapsed;
      var last := s.stamps[|s.stamps| - 1];
      WrittenVersion(s.lock);
      assert s.lock.words == [last.utc, Tick(last.at)];
      ElapsedIsReal(last.at, ev.t, MAX_AGE_MS);
    }
  }

  lemma {:induction false} RunAge(evs: seq<Event>, ss: seq<State>, k: nat)
    requires IsRun(evs, ss) && k < |ss|
    requires forall j {:trigger evs[j]} :: 0 <= j < k ==> Timely(ss[j], evs[j])
    ensures AgeInv(ss[k])
    decreases k
  {
    hide Step, Inv, Enabled, AgeInv, Timely;
    if k == 0 {
      BeginAge();
    } else {
      var ev := evs[k - 1];
      RunAge(evs, ss, k - 1);
      RunInv(evs, ss, k - 1);
      assert Enabled(ss[k - 1], ev) && ss[k] == Step(ss[k - 1], ev) && Timely(ss[k - 1], ev);
      assert ClockAt(evs, k - 1) <= ev.t;
      StepAge(ss[k - 1], ev, ClockAt(evs, k - 1));
    }
  }

  lemma BeginAge()
    ensures AgeInv(BEGIN)
  {
  }

  // ---- main results ---------------------------------------------------------------------------------

  /** In every interleaving a read returns 0, or the UTC of one stored frame plus
      the whole seconds of the age the counter shows, an age below three seconds;
      never the UTC of one frame with the age of another. */
  lemma ReadsOneFrame(evs: seq<Event>, ss: seq<State>, k: nat)
    requires IsRun(evs, ss) && k < |evs| && evs[k].EvReader? && ss[k + 1].reader.Done?
    requires ss[k + 1].reader.result != 0
    ensures ss[k].reader.Holding? && ss[k].reader.version < |ss[k].stamps|
    ensures var stamp := ss[k].stamps[ss[k].reader.version];
            && stamp.at <= evs[k].t && stamp.utc != 0
            && (evs[k].t - stamp.at) % M32 < MAX_AGE_MS
            && ss[k + 1].reader.result == Add32(stamp.utc, (evs[k].t - stamp.at) % M32 / 1000)
  {
    hide Step, Enabled, ResultOf, L.Inv, Stamped, WriterInv;
    RunInv(evs, ss, k);
    var ev := evs[k];
    assert Enabled(ss[k], ev) && ss[k + 1] == Step(ss[k], ev);
    assert ClockAt(evs, k) <= ev.t;
    DoneIsResult(ss[k], ev);
    StampIsPast(ss[k], ClockAt(evs, k));
    ResultHasAge(ss[k].reader.utc, ss[k].stamps[ss[k].reader.version].at, ev.t);
  }

  lemma DoneIsResult(s: State, ev: Event)
    requires Enabled(s, ev) && ev.EvReader? && Step(s, ev).reader.Done? && Step(s, ev).reader.result != 0
    ensures s.reader.Holding? && Step(s, ev).reader.result == ResultOf(s.reader.utc, s.reader.receivedMs, Tick(ev.t))
  {
  }

  lemma StampIsPast(s: State, clock: nat)
    requires Stamped(s, clock) && s.reader.Holding? && s.reader.version < |s.stamps|
    ensures s.stamps[s.reader.version].at <= clock
  {
  }

  lemma ResultHasAge(utc: U32, at: nat, t: nat)
    requires at <= t && ResultOf(utc, Tick(at), Tick(t)) != 0
    ensures utc != 0 && (t - at) % M32 < MAX_AGE_MS
    ensures ResultOf(utc, Tick(at), Tick(t)) == Add32(utc, (t - at) % M32 / 1000)
  {
    TickDifference(at, t);
  }

  /** While core 0 expires the time at least every 24 days, the age is the true
      one: a long silence never looks fresh again when the counter wraps. */
  lemma ReadsAreFresh(evs: seq<Event>, ss: seq<State>, k: nat)
    requires IsRun(evs, ss) && k < |evs| && evs[k].EvReader? && ss[k + 1].reader.Done?
    requires ss[k + 1].reader.result != 0
    requires forall j {:trigger evs[j]} :: 0 <= j <= k ==> Timely(ss[j], evs[j])
    ensures ss[k].reader.Holding? && ss[k].reader.version < |ss[k].stamps|
    ensures var stamp := ss[k].stamps[ss[k].reader.version];
            && stamp.at <= evs[k].t < stamp.at + MAX_AGE_MS
            && ss[k + 1].reader.result == Add32(stamp.utc, (evs[k].t - stamp.at) / 1000)
  {
    hide Inv, Step;
    ReadsOneFrame(evs, ss, k);
    RunAge(evs, ss, k);
    var ev := evs[k];
    assert Timely(ss[k], ev);
  }

  /** The other way round: an accepted copy is answered with its UTC and age whenever
      it is a time, younger than three seconds by the counter; with 0 otherwise. */
  lemma AnswerIsExact(evs: seq<Event>, ss: seq<State>, k: nat)
    requires IsRun(evs, ss) && k < |evs| && evs[k].EvReader? && ss[k].reader.Holding?
    ensures ss[k].reader.version < |ss[k].stamps|
    ensures var stamp := ss[k].stamps[ss[k].reader.version];
            && stamp.at <= evs[k].t
            && var age := (evs[k].t - stamp.at) % M32;
               ss[k + 1].reader == Done(if stamp.utc != 0 && age < 3000 then Add32(stamp.utc, age / 1000) else 0)
  {
    hide Enabled, L.Inv, Stamped, WriterInv;
    RunInv(evs, ss, k);
    var ev := evs[k];
    assert Enabled(ss[k], ev) && ss[k + 1] == Step(ss[k], ev);
    assert ClockAt(evs, k) <= ev.t;
    StampIsPast(ss[k], ClockAt(evs, k));
    TickDifference(ss[k].stamps[ss[k].reader.version].at, ev.t);
  }

  /** An attempt is accepted exactly if no write was under way when it began and none
      has begun since, and then it holds the latest time stored; the reader gives up
      only after four that were not. */
  lemma AttemptDecides(evs: seq<Event>, ss: seq<State>, k: nat)
    requires IsRun(evs, ss) && k < |evs| && evs[k].EvReader? && ss[k].reader.Trying? && ss[k].reader.pc == 3
    ensures var (lock, r1) := (ss[k].lock, ss[k + 1].reader);
            && (r1.Holding? <==> lock.since % 2 == 0 && lock.stores == lock.since)
            && (r1.Holding? ==> r1.version == |ss[k].stamps| - 1 && !lock.writing)
            && (!r1.Holding? ==>
                  r1 == if ss[k].reader.attempt == 3 then Done(0) else Trying(ss[k].reader.attempt + 1, 0, 0, 0))
  {
    hide L.Inv, Stamped, WriterInv;
    RunInv(evs, ss, k);
    var (s, ev) := (ss[k], evs[k]);
    assert Enabled(s, ev) && ss[k + 1] == Step(s, ev);
    L.AcceptedExactly(s.lock);
    if L.Step(s.lock, L.ReadCheck).reader.accepted {
      L.AcceptedIsOneWrite(s.lock);
    }
    EvenIsNotWriting(s.lock);
  }

  lemma EvenIsNotWriting(lock: L.State)
    requires L.Inv(lock)
    ensures lock.writing <==> lock.stores % 2 == 1
  {
  }

  /** Neither program ever waits: the next step of a publication is always possible,
      and the fourth makes its time the latest; so is the next step of an attempt. */
  lemma ProgramsAreEnabled(evs: seq<Event>, ss: seq<State>, k: nat)
    requires IsRun(evs, ss) && k < |ss|
    ensures |ss[k].lock.words| == 2 && |ss[k].stamps| >= 1
    ensures var s := ss[k];
            s.writer.Publishing? ==>
              && s.writer.pc < 4 && L.Enabled(s.lock, WriterStep(s.writer))
              && var s1 := Step(s, EvWriter(0));
                 if s.writer.pc == 3 then s1.writer.Idle? && s1.stamps == s.stamps + [Stamp(s.writer.utc, s.writer.at)]
                 else s1.writer == s.writer.(pc := s.writer.pc + 1)
    ensures ss[k].reader.Trying? ==> L.Enabled(ss[k].lock, ReaderStep(ss[k].reader))
  {
    hide L.Inv;
    RunInv(evs, ss, k);
  }

  /** Core 0 forgets the time exactly if it is set and, by the counter, three seconds
      or more old. */
  lemma ExpiresExactly(evs: seq<Event>, ss: seq<State>, k: nat)
    requires IsRun(evs, ss) && k < |evs| && evs[k].EvExpire?
    ensures |ss[k].stamps| >= 1
    ensures var last := ss[k].stamps[|ss[k].stamps| - 1];
            && last.at <= evs[k].t
            && ss[k + 1].writer == if last.utc != 0 && (evs[k].t - last.at) % M32 >= 3000
                                   then Publishing(0, 0, evs[k].end) else Idle
  {
    hide L.Inv;
    RunInv(evs, ss, k);
    var (s, ev) := (ss[k], evs[k]);
    assert Enabled(s, ev) && ss[k + 1] == Step(s, ev);
    assert ClockAt(evs, k) <= ev.t;
    WrittenVersion(s.lock);
    TickDifference(s.stamps[|s.stamps| - 1].at, ev.t);
  }

  // ---- the module's statics -------------------------------------------------------------------------

  class Cell {
    var sequence: U32
    var utc: U32
    var receivedMs: U32

    method WriteBegin() returns (begun: U32)
      modifies this`sequence
      ensures begun == old(sequence) && sequence == Add32(begun, 1)
    {
      begun := sequence;
      sequence := Add32(begun, 1);
    }

    method WriteEnd(begun: U32)
      modifies this`sequence
      ensures sequence == Add32(begun, 2)
    {
      sequence := Add32(begun, 2);
    }

    /** publish: an even sequence stays even and is new. */
    method Publish(u: U32, ms: U32)
      modifies this
      ensures utc == u && receivedMs == ms
      ensures sequence % 2 == old(sequence) % 2 && sequence != old(sequence)
    {
      var begun := WriteBegin();
      utc := u;
      receivedMs := ms;
      WriteEnd(begun);
    }

    /** rtcTimeStore. */
    method Store(u: U32, now: U32)
      modifies this
      ensures utc == u && receivedMs == now && sequence % 2 == old(sequence) % 2
    {
      Publish(u, now);
    }

    /** rtcTimeExpire: the time is gone exactly if it was three seconds old. */
    method Expire(now: U32, later: U32)
      modifies this
      ensures old(utc) != 0 && Elapsed(now, old(receivedMs), MAX_AGE_MS) ==> utc == 0
      ensures old(utc) == 0 || !Elapsed(now, old(receivedMs), MAX_AGE_MS) ==>
                utc == old(utc) && receivedMs == old(receivedMs) && sequence == old(sequence)
    {
      if utc != 0 && Elapsed(now, receivedMs, MAX_AGE_MS) {
        Publish(0, later);
      }
    }
  }

  /** What the four loads of one attempt returned. */
  datatype Seen = Seen(before: U32, utc: U32, receivedMs: U32, again: U32)

  predicate Accepts(a: Seen) { L.Consistent(a.before, a.again) }

  predicate Decides(seen: seq<Seen>, i: nat)
    requires i < |seen|
  {
    Accepts(seen[i]) && forall j :: 0 <= j < i ==> !Accepts(seen[j])
  }

  /** rtcTimeGetUtc: the first consistent attempt of four decides; a writer busy
      through all of them leaves 0. */
  method GetUtc(seen: seq<Seen>, now: U32) returns (result: U32)
    requires |seen| == 4
    ensures (forall i :: 0 <= i < |seen| ==> !Accepts(seen[i])) ==> result == 0
    ensures forall i :: 0 <= i < |seen| ==> Decides(seen, i) ==> result == ResultOf(seen[i].utc, seen[i].receivedMs, now)
  {
    result := 0;
    var consistent := false;
    var attempt := 0;
    while attempt < ATTEMPTS && !consistent
      invariant attempt <= ATTEMPTS
      invariant !consistent ==> result == 0 && forall j :: 0 <= j < attempt ==> !Accepts(seen[j])
      invariant consistent ==> 1 <= attempt && Decides(seen, attempt - 1)
      invariant consistent ==> result == ResultOf(seen[attempt - 1].utc, seen[attempt - 1].receivedMs, now)
    {
      var a := seen[attempt];
      consistent := L.Consistent(a.before, a.again);
      if consistent && a.utc != 0 && !Elapsed(now, a.receivedMs, MAX_AGE_MS) {
        result := Add32(a.utc, Sub32(now, a.receivedMs) / 1000);
      }
      attempt := attempt + 1;
    }
  }
}
