/**
 * The time model of the clock: an RTC chip, a marker in flash that says the
 * chip holds UTC, and what the module believes of both. Every chip and flash
 * access may fail; its outcome is an input.
 */
module ClockTime {
  import opened Words
  import opened Calendar
  import opened LocalTime
  import opened Options

  const MIN_YEAR: nat := 2000
  const MAX_YEAR: nat := 2099
  const UTC_MODEL: U32 := 0x5554_4331
  const CHECK_SLACK: nat := 1

  datatype Marker = Absent | Stored | Unknown

  datatype RtcModel = LocalFields | Utc | UtcUnchecked

  datatype Status = Ok | Invalid | RtcError | KvError

  /** What the module keeps in RAM. */
  datatype Belief = Belief(kvReady: bool, marker: Marker, rtc: RtcModel)

  datatype Meaning = AsUtc | AsLocal | Mixed

  /** The chip: its fields, its integrity flag, and what they stand for. */
  datatype Chip = Chip(time: DateTime, integrity: bool, holds: Meaning)

  datatype FlashWord = NoKey | Value(value: U32)

  /** One write of the chip: what was written, whether the chip acknowledged it,
      whether the flash held the marker then, and what the chip holds since, if
      the write changed it. */
  datatype RtcWrite = RtcWrite(meaning: Meaning, acknowledged: bool, marked: bool, left: Option<Meaning>)

  datatype World = World(flash: FlashWord, chip: Chip, writes: seq<RtcWrite>)

  datatype State = State(mem: Belief, world: World)

  // ---- driver outcomes --------------------------------------------------------------

  /** A refused write may leave the fields, take effect, or leave a mix. */
  datatype Effect = Nothing | Took | Garbled(time: DateTime)

  datatype WriteIo = WriteIo(ok: bool, effect: Effect, integrity: bool)

  datatype SetIo = SetIo(ok: bool, kept: bool)

  datatype FinishIo = FinishIo(open: bool, put: SetIo, answers: bool, keep: WriteIo)

  /** `pause`: seconds the chip counts between the write and the read-back. */
  datatype WriteUtcIo = WriteUtcIo(write: WriteIo, pause: nat, readBack: bool, finish: FinishIo)

  datatype InitIo = InitIo(open: bool, answers: bool)

  predicate HasMarker(f: FlashWord) { f == Value(UTC_MODEL) }

  predicate EpochInRange(epoch: nat) { MIN_YEAR <= YearOf(epoch) <= MAX_YEAR }

  // ---- chip and flash -----------------------------------------------------------------

  function Left(meaning: Meaning, io: WriteIo): Option<Meaning> {
    if io.ok || io.effect.Took? then Some(meaning) else if io.effect.Garbled? then Some(Mixed) else None
  }

  function WriteChip(w: World, seconds: nat, meaning: Meaning, io: WriteIo): (World, bool) {
    var done := Chip(FromSeconds(seconds), io.integrity, meaning);
    var chip :=
      if io.ok || io.effect.Took? then done
      else if io.effect.Garbled? then Chip(io.effect.time, io.integrity, Mixed)
      else w.chip;
    (World(w.flash, chip, w.writes + [RtcWrite(meaning, io.ok, HasMarker(w.flash), Left(meaning, io))]), io.ok)
  }

  function Advance(w: World, seconds: nat): World {
    if ValidDateTime(w.chip.time) then
      w.(chip := w.chip.(time := FromSeconds(ToSeconds(w.chip.time) + seconds)))
    else w
  }

  function ReadMarker(f: FlashWord, answers: bool): Marker {
    if !answers then Unknown else if HasMarker(f) then Stored else Absent
  }

  predicate Readable(c: Chip, driverOk: bool) { driverOk && ValidDateTime(c.time) }

  // ---- the module ---------------------------------------------------------------------

  predicate Settled(m: Belief) { m.rtc != Utc || m.marker == Stored }

  /** clockTimeInit, right after a start. */
  function Init(w: World, io: InitIo): (State, Status) {
    var marker := if io.open then ReadMarker(w.flash, io.answers) else Unknown;
    var rtc := if marker == Stored then Utc else if marker == Absent then LocalFields else UtcUnchecked;
    (State(Belief(io.open, marker, rtc), w), if marker == Unknown then KvError else Ok)
  }

  function StoreMarker(s: State, io: FinishIo): (State, Status) {
    if !s.mem.kvReady && !io.open then (s, KvError)
    else
      var flash := if io.put.ok || io.put.kept then Value(UTC_MODEL) else s.world.flash;
      var marker := ReadMarker(flash, io.answers);
      (State(s.mem.(kvReady := true, marker := marker), s.world.(flash := flash)),
       if marker == Stored then Ok else KvError)
  }

  function KeepLocal(s: State, epoch: nat, io: WriteIo): State {
    if !EpochInRange(epoch) then s
    else
      var (w, ok) := WriteChip(s.world, LocalOf(epoch), AsLocal, io);
      State(if ok then s.mem.(rtc := LocalFields) else s.mem, w)
  }

  function Finish(s: State, status: Status, epoch: nat, io: FinishIo): (State, Status) {
    var (s1, status1) := if status == Ok && !Settled(s.mem) then StoreMarker(s, io) else (s, status);
    (if status1 != Ok && s1.mem.marker == Absent then KeepLocal(s1, epoch, io.keep) else s1, status1)
  }

  /** The read-back shows the written seconds, or one more. */
  predicate CheckPasses(c: Chip, epoch: nat, readBack: bool) {
    && Readable(c, readBack)
    && c.integrity
    && epoch <= ToSeconds(c.time) <= epoch + CHECK_SLACK
  }

  function WriteUtc(s: State, epoch: nat, io: WriteUtcIo): (State, Status) {
    if !EpochInRange(epoch) then (s, Invalid)
    else
      var (w, ok) := WriteChip(s.world, epoch, AsUtc, io.write);
      if ok then
        var w1 := Advance(w, io.pause);
        var checked := CheckPasses(w1.chip, epoch, io.readBack);
        Finish(State(s.mem.(rtc := if checked then Utc else UtcUnchecked), w1),
               if checked then Ok else RtcError, epoch, io.finish)
      else
        var rtc := if s.mem.rtc != LocalFields then UtcUnchecked else LocalFields;
        Finish(State(s.mem.(rtc := rtc), w), RtcError, epoch, io.finish)
  }

  function Settle(s: State, read: bool, io: FinishIo): (State, Status) {
    if Settled(s.mem) then (s, Ok)
    else if !Readable(s.world.chip, read) then (s, RtcError)
    else Finish(s, Ok, ToSeconds(s.world.chip.time), io)
  }

  /** clockTimeWriteLocal, of a valid date and time. */
  function WriteLocal(s: State, local: DateTime, io: WriteUtcIo): (State, Status) {
    if !ValidDateTime(local) || local.date.year < MIN_YEAR || local.date.year > MAX_YEAR then (s, Invalid)
    else
      YearStarts(local);
      WriteUtc(s, UtcOf(ToSeconds(local)), io)
  }

  lemma YearStarts(t: DateTime)
    requires ValidDateTime(t) && t.date.year >= MIN_YEAR
    ensures ToSeconds(t) >= DAY_SECONDS * 10000
  {
    hide ToSeconds, FromSeconds, DaysBeforeYear;
    DateTimeRoundTrip(t);
    YearOfSecond(ToSeconds(t), MIN_YEAR);
    Year2000();
  }

  lemma Year2000()
    ensures DaysBeforeYear(MIN_YEAR) >= 10000
  {
    AtLeast365(30);
  }

  lemma {:induction false} AtLeast365(k: nat)
    ensures DaysBeforeYear(EPOCH_YEAR + k) >= 365 * k
  {
    if k > 0 {
      AtLeast365(k - 1);
    }
  }

  datatype Shown = Shown(local: DateTime, trusted: bool) | Unreadable

  /** clockTimeReadLocal */
  function ReadLocal(s: State, read: bool): Shown {
    if !Readable(s.world.chip, read) then Unreadable
    else
      var epoch := ToSeconds(s.world.chip.time);
      if s.mem.rtc != LocalFields && EpochInRange(epoch) then
        Shown(FromSeconds(LocalOf(epoch)), s.mem.marker == Stored && s.world.chip.integrity)
      else Shown(s.world.chip.time, false)
  }

  datatype UtcRead = Trusted(epoch: nat) | Untrusted | ReadFailed

  /** clockTimeReadUtc; an answer without a valid date counts as untrusted. */
  function ReadUtc(s: State, read: bool): UtcRead {
    if !read then ReadFailed
    else if !ValidDateTime(s.world.chip.time) then Untrusted
    else
      var epoch := ToSeconds(s.world.chip.time);
      if s.mem.marker == Stored && s.world.chip.integrity && EpochInRange(epoch) then Trusted(epoch)
      else Untrusted
  }

  // ---- runs -----------------------------------------------------------------------------

  datatype Event =
    | EvWriteUtc(epoch: nat, io: WriteUtcIo)
    | EvWriteLocal(local: DateTime, io: WriteUtcIo)
    | EvSettle(read: bool, finish: FinishIo)
    | EvTime(seconds: nat)
    | EvRestart(init: InitIo)

  function Step(s: State, ev: Event): State {
    match ev
    case EvWriteUtc(epoch, io) => WriteUtc(s, epoch, io).0
    case EvWriteLocal(local, io) => WriteLocal(s, local, io).0
    case EvSettle(read, io) => Settle(s, read, io).0
    case EvTime(seconds) => s.(world := Advance(s.world, seconds))
    case EvRestart(io) => Init(s.world, io).0
  }

  /** A chip that never took a UTC write keeps the local time of the older model. */
  predicate FactoryWorld(w: World) {
    !HasMarker(w.flash) && w.writes == [] && w.chip.holds == AsLocal
  }

  ghost predicate IsRun(w: World, init: InitIo, evs: seq<Event>, ss: seq<State>) {
    && FactoryWorld(w)
    && |ss| == |evs| + 1
    && ss[0] == Init(w, init).0
    && (forall k {:trigger evs[k]} :: 0 <= k < |evs| ==> ss[k + 1] == Step(ss[k], evs[k]))
  }

  /** The meaning of the last write the chip acknowledged. */
  function LastComplete(writes: seq<RtcWrite>): Meaning {
    if writes == [] then AsLocal
    else if writes[|writes| - 1].acknowledged then writes[|writes| - 1].meaning
    else LastComplete(writes[..|writes| - 1])
  }

  ghost predicate Inv(s: State) {
    && (HasMarker(s.world.flash) ==> LastComplete(s.world.writes) == AsUtc)
    && (s.mem.rtc == Utc ==> LastComplete(s.world.writes) == AsUtc)
    && (s.mem.rtc == LocalFields ==> s.mem.marker == Absent)
    && (s.mem.marker == Absent ==> !HasMarker(s.world.flash))
    && (s.mem.marker == Stored ==> HasMarker(s.world.flash))
    && (forall k :: 0 <= k < |s.world.writes| && s.world.writes[k].meaning != AsUtc ==>
          s.world.writes[k].meaning == AsLocal && !s.world.writes[k].marked)
  }

  lemma WriteLogged(w: World, seconds: nat, meaning: Meaning, io: WriteIo)
    ensures var w1 := WriteChip(w, seconds, meaning, io).0;
            && w1.flash == w.flash
            && LastComplete(w1.writes) == if io.ok then meaning else LastComplete(w.writes)
  {
    var w1 := WriteChip(w, seconds, meaning, io).0;
    assert w1.writes[..|w1.writes| - 1] == w.writes;
  }

  lemma KeepLocalInv(s: State, epoch: nat, io: WriteIo)
    requires Inv(s) && s.mem.marker == Absent
    ensures Inv(KeepLocal(s, epoch, io))
  {
    if EpochInRange(epoch) {
      WriteLogged(s.world, LocalOf(epoch), AsLocal, io);
    }
  }

  lemma FinishInv(s: State, status: Status, epoch: nat, io: FinishIo)
    requires Inv(s)
    ensures Inv(Finish(s, status, epoch, io).0)
  {
    var (s1, status1) := if status == Ok && !Settled(s.mem) then StoreMarker(s, io) else (s, status);
    assert Inv(s1);
    if s1.mem.marker == Absent {
      KeepLocalInv(s1, epoch, io.keep);
    }
  }

  lemma WriteUtcInv(s: State, epoch: nat, io: WriteUtcIo)
    requires Inv(s)
    ensures Inv(WriteUtc(s, epoch, io).0)
  {
    if EpochInRange(epoch) {
      WriteLogged(s.world, epoch, AsUtc, io.write);
      var (w, ok) := WriteChip(s.world, epoch, AsUtc, io.write);
      if ok {
        var w1 := Advance(w, io.pause);
        var checked := CheckPasses(w1.chip, epoch, io.readBack);
        FinishAfterWrite(s, w1, if checked then Utc else UtcUnchecked, if checked then Ok else RtcError, epoch, io);
      } else {
        FinishInv(State(s.mem.(rtc := if s.mem.rtc != LocalFields then UtcUnchecked else LocalFields), w),
                  RtcError, epoch, io.finish);
      }
    }
  }

  /** The chip took UTC: the module no longer says local, so the marker state
      may be anything. */
  lemma FinishAfterWrite(s: State, w: World, rtc: RtcModel, status: Status, epoch: nat, io: WriteUtcIo)
    requires Inv(s) && w.flash == s.world.flash && rtc != LocalFields
    requires LastComplete(w.writes) == AsUtc && w.writes == s.world.writes + [RtcWrite(AsUtc, true, HasMarker(w.flash), Some(AsUtc))]
    ensures Inv(Finish(State(s.mem.(rtc := rtc), w), status, epoch, io.finish).0)
  {
    FinishInv(State(s.mem.(rtc := rtc), w), status, epoch, io.finish);
  }

  lemma StepInv(s: State, ev: Event)
    requires Inv(s)
    ensures Inv(Step(s, ev))
  {
    match ev
    case EvWriteUtc(epoch, io) => WriteUtcInv(s, epoch, io);
    case EvWriteLocal(local, io) =>
      if WriteLocal(s, local, io).0 != s {
        YearStarts(local);
        WriteUtcInv(s, UtcOf(ToSeconds(local)), io);
      }
    case EvSettle(read, io) =>
      if Readable(s.world.chip, read) {
        FinishInv(s, Ok, ToSeconds(s.world.chip.time), io);
      }
    case EvTime(seconds) =>
    case EvRestart(io) =>
  }

  lemma {:induction false} RunInv(w: World, init: InitIo, evs: seq<Event>, ss: seq<State>, k: nat)
    requires IsRun(w, init, evs, ss) && k < |ss|
    ensures Inv(ss[k])
    decreases k
  {
    hide Step;
    if k > 0 {
      RunInv(w, init, evs, ss, k - 1);
      StepInv(ss[k - 1], evs[k - 1]);
    }
  }

  /** Over all runs, failures and restarts: the marker is in the flash only while
      the last complete chip write was UTC; the module takes the chip for local
      time only while it knows the marker to be absent; and local time is never
      written, not even in vain, while the flash holds the marker. */
  lemma MarkerMeansUtc(w: World, init: InitIo, evs: seq<Event>, ss: seq<State>, k: nat)
    requires IsRun(w, init, evs, ss) && k < |ss|
    ensures HasMarker(ss[k].world.flash) ==> LastComplete(ss[k].world.writes) == AsUtc
    ensures ss[k].mem.rtc == LocalFields ==> ss[k].mem.marker == Absent && !HasMarker(ss[k].world.flash)
    ensures forall j :: 0 <= j < |ss[k].world.writes| && ss[k].world.writes[j].meaning == AsLocal ==>
              !ss[k].world.writes[j].marked
    ensures ReadUtc(ss[k], true).Trusted? ==> LastComplete(ss[k].world.writes) == AsUtc
  {
    RunInv(w, init, evs, ss, k);
  }

  // ---- what the chip really holds ----------------------------------------------------------

  /** The last write that changed the chip. */
  function LastChange(writes: seq<RtcWrite>): Option<RtcWrite> {
    if writes == [] then None
    else if writes[|writes| - 1].left.Some? then Some(writes[|writes| - 1])
    else LastChange(writes[..|writes| - 1])
  }

  /** A refused write that left something other than the UTC it was to write:
      local time that took effect, or a mix. */
  predicate Harmful(w: RtcWrite) { !w.acknowledged && w.left.Some? && w.left != Some(AsUtc) }

  predicate HarmedLast(writes: seq<RtcWrite>) { LastChange(writes).Some? && Harmful(LastChange(writes).value) }

  /** What the log says of the chip, and that an acknowledged write that is the
      last change is the last complete one. */
  ghost predicate LogInv(w: World) {
    var last := LastChange(w.writes);
    && (last.None? ==> w.chip.holds == AsLocal == LastComplete(w.writes))
    && (last.Some? ==> last.value.left == Some(w.chip.holds))
    && (last.Some? && last.value.acknowledged ==> last.value.left == Some(LastComplete(w.writes)))
  }

  lemma WriteLog(w: World, seconds: nat, meaning: Meaning, io: WriteIo)
    requires LogInv(w)
    ensures LogInv(WriteChip(w, seconds, meaning, io).0)
  {
    var w1 := WriteChip(w, seconds, meaning, io).0;
    assert w1.writes[..|w1.writes| - 1] == w.writes;
  }

  lemma SameLog(w: World, w1: World)
    requires LogInv(w) && w1.writes == w.writes && w1.chip.holds == w.chip.holds
    ensures LogInv(w1)
  {
  }

  lemma FinishLog(s: State, status: Status, epoch: nat, io: FinishIo)
    requires LogInv(s.world)
    ensures LogInv(Finish(s, status, epoch, io).0.world)
  {
    hide LogInv, WriteChip;
    var (s1, status1) := if status == Ok && !Settled(s.mem) then StoreMarker(s, io) else (s, status);
    SameLog(s.world, s1.world);
    WriteLog(s1.world, LocalOf(epoch), AsLocal, io.keep);
  }

  lemma WriteUtcLog(s: State, epoch: nat, io: WriteUtcIo)
    requires LogInv(s.world)
    ensures LogInv(WriteUtc(s, epoch, io).0.world)
  {
    hide LogInv, WriteChip, Finish, CheckPasses;
    if EpochInRange(epoch) {
      WriteLog(s.world, epoch, AsUtc, io.write);
      var (w, ok) := WriteChip(s.world, epoch, AsUtc, io.write);
      if ok {
        var w1 := Advance(w, io.pause);
        SameLog(w, w1);
        var checked := CheckPasses(w1.chip, epoch, io.readBack);
        FinishLog(State(s.mem.(rtc := if checked then Utc else UtcUnchecked), w1),
                  if checked then Ok else RtcError, epoch, io.finish);
      } else {
        FinishLog(State(s.mem.(rtc := if s.mem.rtc != LocalFields then UtcUnchecked else LocalFields), w),
                  RtcError, epoch, io.finish);
      }
    }
  }

  lemma StepLog(s: State, ev: Event)
    requires LogInv(s.world)
    ensures LogInv(Step(s, ev).world)
  {
    hide LogInv, WriteUtc, Finish;
    match ev
    case EvWriteUtc(epoch, io) => WriteUtcLog(s, epoch, io);
    case EvWriteLocal(local, io) =>
      if WriteLocal(s, local, io).0 != s {
        YearStarts(local);
        WriteUtcLog(s, UtcOf(ToSeconds(local)), io);
      }
    case EvSettle(read, io) =>
      if Readable(s.world.chip, read) {
        FinishLog(s, Ok, ToSeconds(s.world.chip.time), io);
      }
    case EvTime(seconds) => SameLog(s.world, Advance(s.world, seconds));
    case EvRestart(io) =>
  }

  lemma {:induction false} RunLog(w: World, init: InitIo, evs: seq<Event>, ss: seq<State>, k: nat)
    requires IsRun(w, init, evs, ss) && k < |ss|
    ensures LogInv(ss[k].world)
    decreases k
  {
    hide Step;
    if k > 0 {
      RunLog(w, init, evs, ss, k - 1);
      var ev := evs[k - 1];
      StepLog(ss[k - 1], ev);
    }
  }

  /** While the flash holds the marker, and so whenever the module reads as
      trusted, the chip really holds UTC exactly if the last write that changed
      it was not a refused one that left local time or a mix. */
  lemma TrustedIsUtc(w: World, init: InitIo, evs: seq<Event>, ss: seq<State>, k: nat)
    requires IsRun(w, init, evs, ss) && k < |ss|
    ensures HasMarker(ss[k].world.flash) ==>
              (ss[k].world.chip.holds == AsUtc <==> !HarmedLast(ss[k].world.writes))
    ensures ReadUtc(ss[k], true).Trusted? ==>
              (ss[k].world.chip.holds == AsUtc <==> !HarmedLast(ss[k].world.writes))
  {
    hide LastChange, LastComplete;
    RunLog(w, init, evs, ss, k);
    RunInv(w, init, evs, ss, k);
  }

  /** A UTC write that is refused leaves no mix, and a write-back of local time
      that is refused leaves the chip as it was. */
  predicate HarmlessWrite(io: WriteIo) { io.ok || !io.effect.Garbled? }

  predicate HarmlessKeep(io: WriteIo) { io.ok || io.effect.Nothing? }

  predicate Harmless(ev: Event) {
    match ev
    case EvWriteUtc(_, io) => HarmlessWrite(io.write) && HarmlessKeep(io.finish.keep)
    case EvWriteLocal(_, io) => HarmlessWrite(io.write) && HarmlessKeep(io.finish.keep)
    case EvSettle(_, io) => HarmlessKeep(io.keep)
    case _ => true
  }

  predicate NoHarm(writes: seq<RtcWrite>) { forall i :: 0 <= i < |writes| ==> !Harmful(writes[i]) }

  lemma FinishHarmless(s: State, status: Status, epoch: nat, io: FinishIo)
    requires NoHarm(s.world.writes) && HarmlessKeep(io.keep)
    ensures NoHarm(Finish(s, status, epoch, io).0.world.writes)
  {
  }

  lemma WriteHarmless(s: State, epoch: nat, io: WriteUtcIo)
    requires NoHarm(s.world.writes) && HarmlessWrite(io.write) && HarmlessKeep(io.finish.keep)
    ensures NoHarm(WriteUtc(s, epoch, io).0.world.writes)
  {
    hide Finish, CheckPasses;
    if EpochInRange(epoch) {
      var (w, ok) := WriteChip(s.world, epoch, AsUtc, io.write);
      if ok {
        var checked := CheckPasses(Advance(w, io.pause).chip, epoch, io.readBack);
        FinishHarmless(State(s.mem.(rtc := if checked then Utc else UtcUnchecked), Advance(w, io.pause)),
                       if checked then Ok else RtcError, epoch, io.finish);
      } else {
        FinishHarmless(State(s.mem.(rtc := if s.mem.rtc != LocalFields then UtcUnchecked else LocalFields), w),
                       RtcError, epoch, io.finish);
      }
    }
  }

  lemma StepHarmless(s: State, ev: Event)
    requires NoHarm(s.world.writes) && Harmless(ev)
    ensures NoHarm(Step(s, ev).world.writes)
  {
    hide WriteUtc, Finish, NoHarm, HarmlessWrite, HarmlessKeep;
    match ev
    case EvWriteUtc(epoch, io) => WriteHarmless(s, epoch, io);
    case EvWriteLocal(local, io) =>
      if WriteLocal(s, local, io).0 != s {
        YearStarts(local);
        WriteHarmless(s, UtcOf(ToSeconds(local)), io);
      }
    case EvSettle(read, io) =>
      if Readable(s.world.chip, read) {
        FinishHarmless(s, Ok, ToSeconds(s.world.chip.time), io);
      }
    case EvTime(seconds) =>
    case EvRestart(io) =>
  }

  lemma {:induction false} RunHarmless(w: World, init: InitIo, evs: seq<Event>, ss: seq<State>, k: nat)
    requires IsRun(w, init, evs, ss) && k < |ss|
    requires forall n {:trigger evs[n]} :: 0 <= n < k ==> Harmless(evs[n])
    ensures NoHarm(ss[k].world.writes)
    decreases k
  {
    hide Step, Harmless;
    if k > 0 {
      var ev := evs[k - 1];
      RunHarmless(w, init, evs, ss, k - 1);
      StepHarmless(ss[k - 1], ev);
    }
  }

  lemma {:induction false} LastIsHarmless(writes: seq<RtcWrite>)
    requires NoHarm(writes)
    ensures !HarmedLast(writes)
  {
    if writes != [] && writes[|writes| - 1].left.None? {
      LastIsHarmless(writes[..|writes| - 1]);
    }
  }

  /** So while no UTC write is refused leaving a mix, and every write-back is
      acknowledged or changes nothing, the marker and the answer "trusted" mean
      that the chip holds UTC, whatever else fails and whenever the device stops. */
  lemma HarmlessIsTrusted(w: World, init: InitIo, evs: seq<Event>, ss: seq<State>, k: nat)
    requires IsRun(w, init, evs, ss) && k < |ss|
    requires forall n {:trigger evs[n]} :: 0 <= n < k ==> Harmless(evs[n])
    ensures HasMarker(ss[k].world.flash) || ReadUtc(ss[k], true).Trusted? ==> ss[k].world.chip.holds == AsUtc
  {
    hide Harmless, HarmedLast;
    RunHarmless(w, init, evs, ss, k);
    LastIsHarmless(ss[k].world.writes);
    TrustedIsUtc(w, init, evs, ss, k);
  }

  const GOOD_WRITE := WriteIo(true, Took, true)
  const LOST_ACK := WriteIo(false, Took, true)
  const GOOD_FINISH := FinishIo(true, SetIo(true, true), true, GOOD_WRITE)

  /** First way to harm: a write-back of local time takes effect but is not
      acknowledged, and the next settle marks the local fields as UTC. */
  lemma LostAcknowledgement(w: World, epoch: nat)
    requires FactoryWorld(w) && EpochInRange(epoch) && EpochInRange(LocalOf(epoch))
    ensures var s0 := Init(w, InitIo(true, true)).0;
            var refused := FinishIo(true, SetIo(false, false), true, LOST_ACK);
            var s1 := Step(s0, EvWriteUtc(epoch, WriteUtcIo(GOOD_WRITE, 0, true, refused)));
            var s2 := Step(s1, EvSettle(true, GOOD_FINISH));
            && s2.world.chip.holds == AsLocal && HasMarker(s2.world.flash)
            && ReadUtc(s2, true) == Trusted(LocalOf(epoch))
  {
    hide ToSeconds, FromSeconds, YearOf, LocalOf;
    SecondsRoundTrip(epoch);
    SecondsRoundTrip(LocalOf(epoch));
  }

  /** Second way: a write-back leaves a mix, which the next settle marks. */
  lemma MixedWriteBack(w: World, epoch: nat, mix: nat)
    requires FactoryWorld(w) && EpochInRange(epoch) && EpochInRange(mix)
    ensures var s0 := Init(w, InitIo(true, true)).0;
            var refused := FinishIo(true, SetIo(false, false), true, WriteIo(false, Garbled(FromSeconds(mix)), true));
            var s1 := Step(s0, EvWriteUtc(epoch, WriteUtcIo(GOOD_WRITE, 0, true, refused)));
            var s2 := Step(s1, EvSettle(true, GOOD_FINISH));
            && s2.world.chip.holds == Mixed && HasMarker(s2.world.flash)
            && ReadUtc(s2, true) == Trusted(mix)
  {
    hide ToSeconds, FromSeconds, YearOf, LocalOf;
    SecondsRoundTrip(epoch);
    SecondsRoundTrip(mix);
  }

  /** Third way: after a good write stored the marker, a refused UTC write leaves
      a mix; the module knows the chip is unchecked, and still reads as trusted. */
  lemma MixedUtcWrite(w: World, epoch: nat, later: nat, mix: nat)
    requires FactoryWorld(w) && EpochInRange(epoch) && EpochInRange(later) && EpochInRange(mix)
    ensures var s0 := Init(w, InitIo(true, true)).0;
            var s1 := Step(s0, EvWriteUtc(epoch, WriteUtcIo(GOOD_WRITE, 0, true, GOOD_FINISH)));
            var s2 := Step(s1, EvWriteUtc(later,
                        WriteUtcIo(WriteIo(false, Garbled(FromSeconds(mix)), true), 0, true, GOOD_FINISH)));
            && s2.world.chip.holds == Mixed && HasMarker(s2.world.flash) && s2.mem.rtc == UtcUnchecked
            && ReadUtc(s2, true) == Trusted(mix)
  {
    hide ToSeconds, FromSeconds, YearOf, LocalOf;
    SecondsRoundTrip(epoch);
    SecondsRoundTrip(mix);
  }

  // ---- what is shown ------------------------------------------------------------------------

  /** A local time whose write succeeds reads back, before the chip ticks, as
      itself; a time in the spring gap reads one hour later. */
  lemma LocalTimeReadsBack(s: State, local: DateTime, io: WriteUtcIo)
    requires WriteLocal(s, local, io).1 == Ok && io.pause == 0
    ensures var seconds := ToSeconds(local);
            ReadLocal(WriteLocal(s, local, io).0, true) ==
            Shown(if InSpringGap(seconds) then FromSeconds(seconds + 3600) else local, true)
  {
    hide FromSeconds, LocalOf, UtcOf, YearOf, LastComplete, InSpringGap;
    YearStarts(local);
    var seconds := ToSeconds(local);
    LocalReadsBack(seconds);
    DateTimeRoundTrip(local);
    WriteSucceeds(s, UtcOf(seconds), io);
  }

  /** A successful write leaves the chip at the written second, read back, with
      its integrity, and the marker confirmed. */
  lemma WriteSucceeds(s: State, epoch: nat, io: WriteUtcIo)
    requires WriteUtc(s, epoch, io).1 == Ok && io.pause == 0
    ensures var s1 := WriteUtc(s, epoch, io).0;
            && EpochInRange(epoch)
            && s1.mem.rtc == Utc && s1.mem.marker == Stored
            && ValidDateTime(s1.world.chip.time) && ToSeconds(s1.world.chip.time) == epoch && s1.world.chip.integrity
            && s1.world.chip.holds == AsUtc
  {
    hide FromSeconds, ToSeconds, YearOf;
    SecondsRoundTrip(epoch);
    var w := WriteChip(s.world, epoch, AsUtc, io.write).0;
    assert Advance(w, 0) == w;
  }

  /** What was told to be written, as UTC. */
  function ToldUtc(ev: Event): nat
    requires ev.EvWriteUtc? || (ev.EvWriteLocal? && ValidDateTime(ev.local) && ev.local.date.year >= MIN_YEAR)
  {
    if ev.EvWriteUtc? then ev.epoch
    else
      YearStarts(ev.local);
      UtcOf(ToSeconds(ev.local))
  }

  lemma FinishShows(s: State, status: Status, epoch: nat, io: FinishIo)
    requires EpochInRange(epoch) && io.keep.ok && (s.mem.rtc != LocalFields || (status != Ok && s.mem.marker == Absent))
    requires Finish(s, status, epoch, io).0.mem.rtc == LocalFields
    ensures ReadLocal(Finish(s, status, epoch, io).0, true) == Shown(FromSeconds(LocalOf(epoch)), false)
  {
    hide FromSeconds, ToSeconds, YearOf, LocalOf, KeepLocal;
    var (s1, status1) := if status == Ok && !Settled(s.mem) then StoreMarker(s, io) else (s, status);
    assert s1.mem.rtc == s.mem.rtc;
    KeptLocalShows(s1, epoch, io.keep);
  }

  lemma SettleShows(s: State, read: bool, io: FinishIo)
    requires Settle(s, read, io).0.mem.rtc == LocalFields && Readable(s.world.chip, true)
    ensures ReadLocal(Settle(s, read, io).0, true).Shown?
    ensures ReadLocal(Settle(s, read, io).0, true).local == ReadLocal(s, true).local
  {
    hide FromSeconds, ToSeconds, YearOf, LocalOf, Finish;
    if Settle(s, read, io).0 != s {
      var epoch := ToSeconds(s.world.chip.time);
      FallsBackOnlyByWriting(s, Ok, epoch, io);
      FinishShows(s, Ok, epoch, io);
    }
  }

  /** The module takes the chip for local time only once it acknowledged that. */
  lemma FallsBackOnlyByWriting(s: State, status: Status, epoch: nat, io: FinishIo)
    requires s.mem.rtc != LocalFields && Finish(s, status, epoch, io).0.mem.rtc == LocalFields
    ensures EpochInRange(epoch) && io.keep.ok
  {
    hide FromSeconds, YearOf, LocalOf;
  }

  lemma WriteUtcShows(s: State, epoch: nat, io: WriteUtcIo)
    requires s.mem.rtc == LocalFields ==> s.mem.marker == Absent
    requires EpochInRange(epoch) && io.finish.keep.ok && WriteUtc(s, epoch, io).0.mem.rtc == LocalFields
    ensures ReadLocal(WriteUtc(s, epoch, io).0, true) == Shown(FromSeconds(LocalOf(epoch)), false)
  {
    hide FromSeconds, ToSeconds, YearOf, LocalOf, Finish, CheckPasses;
    var (w, ok) := WriteChip(s.world, epoch, AsUtc, io.write);
    if ok {
      var w1 := Advance(w, io.pause);
      var checked := CheckPasses(w1.chip, epoch, io.readBack);
      FinishShows(State(s.mem.(rtc := if checked then Utc else UtcUnchecked), w1),
                  if checked then Ok else RtcError, epoch, io.finish);
    } else {
      FinishShows(State(s.mem.(rtc := if s.mem.rtc != LocalFields then UtcUnchecked else LocalFields), w),
                  RtcError, epoch, io.finish);
    }
  }

  /** Falling back to local time never moves the displayed time, in any run: a
      settle that ends with local fields shows what the clock showed before, and
      a write that ends with acknowledged local fields shows the instant it was
      told, as an untrusted time. */
  lemma FallBackShowsSameInstant(w: World, init: InitIo, evs: seq<Event>, ss: seq<State>, k: nat)
    requires IsRun(w, init, evs, ss) && k < |evs| && ss[k + 1].mem.rtc == LocalFields
    ensures evs[k].EvSettle? && Readable(ss[k].world.chip, true) ==>
              ReadLocal(ss[k + 1], true).Shown? && ReadLocal(ss[k + 1], true).local == ReadLocal(ss[k], true).local
    ensures evs[k].EvWriteUtc? && evs[k].io.finish.keep.ok && EpochInRange(evs[k].epoch) ==>
              ReadLocal(ss[k + 1], true) == Shown(FromSeconds(LocalOf(evs[k].epoch)), false)
    ensures evs[k].EvWriteLocal? && evs[k].io.finish.keep.ok && Accepted(evs[k].local) ==>
              ReadLocal(ss[k + 1], true) == Shown(FromSeconds(LocalOf(ToldUtc(evs[k]))), false)
  {
    hide FromSeconds, ToSeconds, YearOf, LocalOf, UtcOf, Finish, WriteUtc, Settle;
    RunInv(w, init, evs, ss, k);
    var ev := evs[k];
    assert ss[k + 1] == Step(ss[k], ev);
    match ev
    case EvSettle(read, io) =>
      if Readable(ss[k].world.chip, true) {
        SettleShows(ss[k], read, io);
      }
    case EvWriteUtc(epoch, io) =>
      if io.finish.keep.ok && EpochInRange(epoch) {
        WriteUtcShows(ss[k], epoch, io);
      }
    case EvWriteLocal(local, io) =>
      if io.finish.keep.ok && Accepted(local) {
        WriteUtcShows(ss[k], ToldUtc(ev), io);
      }
    case _ =>
  }

  /** A local time the clock can be set to. */
  predicate Accepted(local: DateTime) {
    && ValidDateTime(local) && MIN_YEAR <= local.date.year <= MAX_YEAR
    && EpochInRange(ToldUtc(EvWriteLocal(local, WriteUtcIo(GOOD_WRITE, 0, true, GOOD_FINISH))))
  }

  lemma KeptLocalShows(s: State, epoch: nat, io: WriteIo)
    requires EpochInRange(epoch) && io.ok
    ensures ReadLocal(KeepLocal(s, epoch, io), true) == Shown(FromSeconds(LocalOf(epoch)), false)
  {
    hide FromSeconds, ToSeconds, YearOf, LocalOf;
    SecondsRoundTrip(LocalOf(epoch));
  }

  // ---- the module as the firmware runs it -----------------------------------------------------

  /** Chip and flash, shared with nobody else. */
  class Hardware {
    var world: World

    constructor (w: World)
      ensures world == w
    {
      world := w;
    }
  }

  class Clock {
    const hw: Hardware
    var kvReady: bool
    var marker: Marker
    var rtc: RtcModel

    ghost function View(): State
      reads this, hw
    {
      State(Belief(kvReady, marker, rtc), hw.world)
    }

    constructor (hardware: Hardware)
      ensures hw == hardware
    {
      hw := hardware;
      kvReady, marker, rtc := false, Unknown, LocalFields;
    }

    method Start(io: InitIo) returns (status: Status)
      modifies this
      ensures (View(), status) == Init(old(hw.world), io)
    {
      marker := Unknown;
      kvReady := io.open;
      if io.open {
        marker := ReadMarker(hw.world.flash, io.answers);
      }
      rtc := if marker == Stored then Utc else if marker == Absent then LocalFields else UtcUnchecked;
      status := if marker == Unknown then KvError else Ok;
    }

    method StoreUtcMarker(io: FinishIo) returns (status: Status)
      modifies this`kvReady, this`marker, hw
      ensures (View(), status) == StoreMarker(old(View()), io)
    {
      if !kvReady {
        kvReady := io.open;
        if !io.open {
          return KvError;
        }
      }
      if io.put.ok || io.put.kept {
        hw.world := hw.world.(flash := Value(UTC_MODEL));
      }
      marker := ReadMarker(hw.world.flash, io.answers);
      status := if marker == Stored then Ok else KvError;
    }

    method KeepLocalTime(epoch: nat, io: WriteIo)
      modifies this`rtc, hw
      ensures View() == KeepLocal(old(View()), epoch, io)
    {
      if EpochInRange(epoch) {
        var ok := WriteFields(LocalOf(epoch), AsLocal, io);
        if ok {
          rtc := LocalFields;
        }
      }
    }

    method WriteFields(seconds: nat, meaning: Meaning, io: WriteIo) returns (ok: bool)
      modifies hw
      ensures (hw.world, ok) == WriteChip(old(hw.world), seconds, meaning, io)
    {
      var w := hw.world;
      var chip := w.chip;
      if io.ok || io.effect.Took? {
        chip := Chip(FromSeconds(seconds), io.integrity, meaning);
      } else if io.effect.Garbled? {
        chip := Chip(io.effect.time, io.integrity, Mixed);
      }
      hw.world := World(w.flash, chip, w.writes + [RtcWrite(meaning, io.ok, HasMarker(w.flash), Left(meaning, io))]);
      ok := io.ok;
    }

    method FinishChange(status: Status, epoch: nat, io: FinishIo) returns (result: Status)
      modifies this, hw
      ensures (View(), result) == Finish(old(View()), status, epoch, io)
    {
      result := status;
      if status == Ok && !(rtc != Utc || marker == Stored) {
        result := StoreUtcMarker(io);
      }
      if result != Ok && marker == Absent {
        KeepLocalTime(epoch, io.keep);
      }
    }

    method WriteUtcTime(epoch: nat, io: WriteUtcIo) returns (status: Status)
      modifies this, hw
      ensures (View(), status) == WriteUtc(old(View()), epoch, io)
    {
      hide Finish, FromSeconds, ToSeconds;
      if !EpochInRange(epoch) {
        return Invalid;
      }
      var ok := WriteFields(epoch, AsUtc, io.write);
      if ok {
        rtc := UtcUnchecked;
        hw.world := Advance(hw.world, io.pause);
        status := RtcError;
        if CheckPasses(hw.world.chip, epoch, io.readBack) {
          rtc := Utc;
          status := Ok;
        }
      } else {
        status := RtcError;
        if rtc != LocalFields {
          rtc := UtcUnchecked;
        }
      }
      status := FinishChange(status, epoch, io.finish);
    }

    method SettleTime(read: bool, io: FinishIo) returns (status: Status)
      modifies this, hw
      ensures (View(), status) == Settle(old(View()), read, io)
    {
      if rtc != Utc || marker == Stored {
        return Ok;
      }
      if !Readable(hw.world.chip, read) {
        return RtcError;
      }
      status := FinishChange(Ok, ToSeconds(hw.world.chip.time), io);
    }

    method WriteLocalTime(local: DateTime, io: WriteUtcIo) returns (status: Status)
      modifies this, hw
      ensures (View(), status) == WriteLocal(old(View()), local, io)
    {
      if !ValidDateTime(local) || local.date.year < MIN_YEAR || local.date.year > MAX_YEAR {
        return Invalid;
      }
      YearStarts(local);
      var seconds := ToSeconds(local);
      var offset := CET;
      if Summer(seconds - CEST) {
        offset := CEST;
      }
      status := WriteUtcTime(seconds - offset, io);
    }

    method ReadLocalTime(read: bool) returns (shown: Shown)
      ensures shown == ReadLocal(View(), read)
    {
      if !Readable(hw.world.chip, read) {
        return Unreadable;
      }
      var epoch := ToSeconds(hw.world.chip.time);
      var fromUtc := rtc != LocalFields && EpochInRange(epoch);
      shown := Shown(if fromUtc then FromSeconds(LocalOf(epoch)) else hw.world.chip.time,
                     fromUtc && marker == Stored && hw.world.chip.integrity);
    }

    method ReadUtcTime(read: bool) returns (r: UtcRead)
      ensures r == ReadUtc(View(), read)
    {
      if !read {
        return ReadFailed;
      }
      r := Untrusted;
      if ValidDateTime(hw.world.chip.time) {
        var epoch := ToSeconds(hw.world.chip.time);
        if marker == Stored && hw.world.chip.integrity && EpochInRange(epoch) {
          r := Trusted(epoch);
        }
      }
    }
  }
}
