/**
 * What the calls of the time model achieve: exactly when a write or a settle
 * succeeds, what is shown from then on, and that a change which fails is put
 * back as local time.
 */
module ClockOutcomes {
  import opened Words
  import opened Calendar
  import opened LocalTime
  import opened Options
  import opened ClockTime
  import DateCodec

  /** The years of the clock in seconds: 2000-01-01 00:00:00 to 2099-12-31 23:59:59. */
  lemma EpochRange(epoch: nat)
    ensures EpochInRange(epoch) <==> 946684800 <= epoch <= 4102444799
  {
    hide FromSeconds, DaysBeforeYear;
    YearOfSecond(epoch, MIN_YEAR);
    YearOfSecond(epoch, MAX_YEAR + 1);
    DateCodec.LeapCycles(7);
    DateCodec.LeapCycles(32);
  }

  // ---- when a call succeeds -------------------------------------------------------

  /** The flash can be reached, answers, and has or takes the marker. */
  predicate MarkerCanBeStored(s: State, io: FinishIo) {
    (s.mem.kvReady || io.open) && io.answers && (HasMarker(s.world.flash) || io.put.ok || io.put.kept)
  }

  /** A write succeeds exactly if the chip acknowledges it, the read-back comes
      within a second with the chip's integrity, and the marker is stored or can be. */
  lemma WriteOkExactly(s: State, epoch: nat, io: WriteUtcIo)
    ensures WriteUtc(s, epoch, io).1 == Ok <==>
              && EpochInRange(epoch)
              && io.write.ok && io.write.integrity && io.readBack && io.pause <= 1
              && (s.mem.marker == Stored || MarkerCanBeStored(s, io.finish))
    ensures WriteUtc(s, epoch, io).1 == Invalid <==> !EpochInRange(epoch)
  {
    hide FromSeconds, ToSeconds, YearOf, LocalOf, KeepLocal;
    SecondsRoundTrip(epoch);
    SecondsRoundTrip(epoch + io.pause);
  }

  /** A local time is refused exactly if it is not a date of the clock's years, or
      its instant is outside them; otherwise its instant is written. */
  lemma LocalRefusedExactly(s: State, local: DateTime, io: WriteUtcIo)
    ensures WriteLocal(s, local, io).1 == Invalid <==> !Accepted(local)
    ensures Accepted(local) ==> WriteLocal(s, local, io) == WriteUtc(s, ToldUtc(EvWriteLocal(local, io)), io)
  {
    hide WriteUtc, UtcOf, ToSeconds, YearOf;
    if ValidDateTime(local) && local.date.year >= MIN_YEAR {
      YearStarts(local);
      WriteOkExactly(s, UtcOf(ToSeconds(local)), io);
    }
  }

  lemma SettleOkExactly(s: State, read: bool, io: FinishIo)
    ensures Settle(s, read, io).1 == Ok <==>
              Settled(s.mem) || (Readable(s.world.chip, read) && MarkerCanBeStored(s, io))
    ensures Settle(s, read, io).1 == Ok ==> Settled(Settle(s, read, io).0.mem)
    ensures Settled(s.mem) ==> Settle(s, read, io).0 == s
  {
    hide FromSeconds, ToSeconds, YearOf, LocalOf, KeepLocal;
  }

  /** A start succeeds exactly if the flash can be reached and answers. */
  lemma StartOkExactly(w: World, io: InitIo)
    ensures Init(w, io).1 == (if io.open && io.answers then Ok else KvError)
    ensures Init(w, io).0.world == w
  {
  }

  /** The flash is opened once: after a start or a settle that reached it no later
      call depends on opening it again. */
  lemma FlashOpensOnce(w: World, start: InitIo, s: State, read: bool, io: FinishIo, later: FinishIo, shut: FinishIo)
    requires shut == later.(open := !later.open) && start.open
    requires !Settled(s.mem) && Readable(s.world.chip, read) && (s.mem.kvReady || io.open)
    ensures var s0 := Init(w, start).0; Settle(s0, read, later) == Settle(s0, read, shut)
    ensures var s1 := Settle(s, read, io).0; Settle(s1, read, later) == Settle(s1, read, shut)
  {
    hide FromSeconds, ToSeconds, YearOf, LocalOf, WriteChip;
  }

  /** A write that failed at the chip is never marked later: a settle does nothing.
      One that failed at the flash is marked by a settle that reaches it, unless
      local time was put back. */
  lemma FailedWriteThenSettle(s: State, epoch: nat, io: WriteUtcIo, read: bool, io2: FinishIo)
    requires s.mem.rtc == LocalFields ==> s.mem.marker == Absent
    ensures var (s1, status) := WriteUtc(s, epoch, io);
            && (status == RtcError ==> Settle(s1, read, io2) == (s1, Ok))
            && (status == KvError && s1.mem.rtc != LocalFields && Readable(s1.world.chip, read)
                && MarkerCanBeStored(s1, io2) ==>
                  Settle(s1, read, io2).1 == Ok && HasMarker(Settle(s1, read, io2).0.world.flash))
  {
    hide FromSeconds, ToSeconds, YearOf, LocalOf, CheckPasses, WriteChip;
  }

  // ---- what is shown then -----------------------------------------------------------

  /** After a write that succeeded the clock shows the written instant, and every
      second that passes, as a trusted time. */
  lemma WrittenTimeRuns(s: State, epoch: nat, io: WriteUtcIo, n: nat)
    requires WriteUtc(s, epoch, io).1 == Ok && EpochInRange(epoch + io.pause + n)
    ensures var s1 := Step(WriteUtc(s, epoch, io).0, EvTime(n));
            && ReadUtc(s1, true) == Trusted(epoch + io.pause + n)
            && ReadLocal(s1, true) == Shown(FromSeconds(LocalOf(epoch + io.pause + n)), true)
  {
    hide FromSeconds, ToSeconds, YearOf, LocalOf, KeepLocal;
    SecondsRoundTrip(epoch);
    SecondsRoundTrip(epoch + io.pause);
    SecondsRoundTrip(epoch + io.pause + n);
  }

  /** A write that is refused without any effect, and its write-back too, leaves
      the chip and the time shown as they were. */
  lemma RefusedWriteShowsTheSame(s: State, epoch: nat, io: WriteUtcIo)
    requires !io.write.ok && io.write.effect.Nothing? && !io.finish.keep.ok && io.finish.keep.effect.Nothing?
    ensures var s1 := WriteUtc(s, epoch, io).0;
            && s1.world.chip == s.world.chip && s1.world.flash == s.world.flash
            && ReadLocal(s1, true) == ReadLocal(s, true) && ReadUtc(s1, true) == ReadUtc(s, true)
  {
    hide FromSeconds, ToSeconds, YearOf, LocalOf;
  }

  lemma LocalIsLater(epoch: nat)
    ensures LocalOf(epoch) > epoch
  {
  }

  lemma FieldsDiffer(epoch: nat)
    ensures FromSeconds(LocalOf(epoch)) != FromSeconds(epoch)
  {
    hide FromSeconds, ToSeconds, LocalOf;
    LocalIsLater(epoch);
    SecondsRoundTrip(epoch);
    SecondsRoundTrip(LocalOf(epoch));
  }

  /** In every run a restart that reads the flash shows the same local time as
      before exactly if the marker is there, or the module took the chip for local
      time, or the fields are out of range. */
  lemma RestartShowsTheSame(w: World, init: InitIo, evs: seq<Event>, ss: seq<State>, k: nat)
    requires IsRun(w, init, evs, ss) && k < |ss| && Readable(ss[k].world.chip, true)
    ensures var s := ss[k];
            var s1 := Step(s, EvRestart(InitIo(true, true)));
            && s1.world == s.world
            && (ReadLocal(s1, true).local == ReadLocal(s, true).local <==>
                  HasMarker(s.world.flash) || s.mem.rtc == LocalFields || !EpochInRange(ToSeconds(s.world.chip.time)))
            && (HasMarker(s.world.flash) <==> s1.mem.marker == Stored && s1.mem.rtc == Utc)
            && (!HasMarker(s.world.flash) <==> s1.mem.marker == Absent && s1.mem.rtc == LocalFields)
  {
    hide FromSeconds, ToSeconds, YearOf, LocalOf, LastComplete;
    RunInv(w, init, evs, ss, k);
    var t := ss[k].world.chip.time;
    DateTimeRoundTrip(t);
    FieldsDiffer(ToSeconds(t));
  }

  /** An input on which it does not: the marker is refused, and the write-back of local
      time too; the clock shows the written instant until the restart, and the fields
      of UTC as local time after it. */
  lemma RefusedWriteBackShifts(w: World, epoch: nat)
    requires FactoryWorld(w) && EpochInRange(epoch)
    ensures var refused := FinishIo(true, SetIo(false, false), true, WriteIo(false, Nothing, true));
            var s0 := Init(w, InitIo(true, true)).0;
            var s1 := Step(s0, EvWriteUtc(epoch, WriteUtcIo(GOOD_WRITE, 0, true, refused)));
            var s2 := Step(s1, EvRestart(InitIo(true, true)));
            && ReadLocal(s1, true) == Shown(FromSeconds(LocalOf(epoch)), false)
            && ReadLocal(s2, true) == Shown(FromSeconds(epoch), false)
  {
    hide ToSeconds, FromSeconds, YearOf, LocalOf;
    SecondsRoundTrip(epoch);
  }

  // ---- local time is put back ---------------------------------------------------------

  /** The instant a write or a settle is about, if it is one the clock can hold. */
  function Instant(s: State, ev: Event): Option<nat> {
    match ev
    case EvWriteUtc(epoch, _) => if EpochInRange(epoch) then Some(epoch) else None
    case EvWriteLocal(local, _) => if Accepted(local) then Some(ToldUtc(ev)) else None
    case EvSettle(read, _) =>
      if Readable(s.world.chip, read) && EpochInRange(ToSeconds(s.world.chip.time))
      then Some(ToSeconds(s.world.chip.time)) else None
    case _ => None
  }

  /** What the call returns. */
  function Outcome(s: State, ev: Event): Status {
    match ev
    case EvWriteUtc(epoch, io) => WriteUtc(s, epoch, io).1
    case EvWriteLocal(local, io) => WriteLocal(s, local, io).1
    case EvSettle(read, io) => Settle(s, read, io).1
    case _ => Ok
  }

  function KeepOf(ev: Event): WriteIo {
    match ev
    case EvWriteUtc(_, io) => io.finish.keep
    case EvWriteLocal(_, io) => io.finish.keep
    case EvSettle(_, io) => io.keep
    case _ => GOOD_WRITE
  }

  /** The last write of the log was one of local time, and if it was acknowledged
      the chip holds the instant so, and the module and a restart show it. */
  ghost predicate PutBack(s1: State, epoch: nat, keep: WriteIo) {
    var n := |s1.world.writes|;
    var shown := Shown(FromSeconds(LocalOf(epoch)), false);
    && n > 0 && s1.world.writes[n - 1] == RtcWrite(AsLocal, keep.ok, false, Left(AsLocal, keep))
    && (keep.ok ==>
          && s1.world.chip.holds == AsLocal && s1.mem.rtc == LocalFields
          && ReadLocal(s1, true) == shown
          && ReadLocal(Step(s1, EvRestart(InitIo(true, true))), true) == shown)
  }

  lemma KeepPutsBack(s: State, epoch: nat, keep: WriteIo)
    requires EpochInRange(epoch) && !HasMarker(s.world.flash)
    ensures PutBack(KeepLocal(s, epoch, keep), epoch, keep)
    ensures |KeepLocal(s, epoch, keep).world.writes| == |s.world.writes| + 1
  {
    hide FromSeconds, ToSeconds, YearOf, LocalOf;
    SecondsRoundTrip(LocalOf(epoch));
  }

  lemma FinishPutsBack(s: State, status: Status, epoch: nat, io: FinishIo)
    requires Inv(s) && EpochInRange(epoch)
    ensures var (s1, status1) := Finish(s, status, epoch, io);
            && (status1 != Ok && s1.mem.marker == Absent ==>
                  PutBack(s1, epoch, io.keep) && |s1.world.writes| == |s.world.writes| + 1)
            && (status1 == Ok || s1.mem.marker != Absent ==> s1.world.writes == s.world.writes)
  {
    hide PutBack, EpochInRange, LastComplete;
    var (s1, status1) := if status == Ok && !Settled(s.mem) then StoreMarker(s, io) else (s, status);
    assert s1.mem.marker == Absent ==> !HasMarker(s1.world.flash);
    if status1 != Ok && s1.mem.marker == Absent {
      KeepPutsBack(s1, epoch, io.keep);
    }
  }

  lemma WritePutsBack(s: State, epoch: nat, io: WriteUtcIo)
    requires Inv(s) && EpochInRange(epoch)
    ensures var (s1, status) := WriteUtc(s, epoch, io);
            && (status != Ok && s1.mem.marker == Absent ==>
                  PutBack(s1, epoch, io.finish.keep) && |s1.world.writes| == |s.world.writes| + 2)
            && (status == Ok || s1.mem.marker != Absent ==> |s1.world.writes| == |s.world.writes| + 1)
            && s1.world.writes[|s.world.writes|].meaning == AsUtc
  {
    hide PutBack, Finish, CheckPasses, EpochInRange, LastComplete;
    WriteLogged(s.world, epoch, AsUtc, io.write);
    var (w, ok) := WriteChip(s.world, epoch, AsUtc, io.write);
    if ok {
      var w1 := Advance(w, io.pause);
      var checked := CheckPasses(w1.chip, epoch, io.readBack);
      var s1 := State(s.mem.(rtc := if checked then Utc else UtcUnchecked), w1);
      FinishPutsBack(s1, if checked then Ok else RtcError, epoch, io.finish);
      FinishExtends(s1, if checked then Ok else RtcError, epoch, io.finish);
    } else {
      var s1 := State(s.mem.(rtc := if s.mem.rtc != LocalFields then UtcUnchecked else LocalFields), w);
      FinishPutsBack(s1, RtcError, epoch, io.finish);
      FinishExtends(s1, RtcError, epoch, io.finish);
    }
  }

  lemma FinishExtends(s: State, status: Status, epoch: nat, io: FinishIo)
    ensures s.world.writes <= Finish(s, status, epoch, io).0.world.writes
  {
    hide FromSeconds, YearOf, LocalOf;
  }

  /** In every run: a write or settle that ends without success while the marker is
      known to be absent puts its instant back as local time, with one write and
      after everything else; acknowledged, the chip holds local time, the module
      says so, and the instant is shown now and after a restart. In every other
      case no local time is written. */
  lemma FailurePutsLocalTimeBack(w: World, init: InitIo, evs: seq<Event>, ss: seq<State>, k: nat)
    requires IsRun(w, init, evs, ss) && k < |evs| && Instant(ss[k], evs[k]).Some?
    ensures var (s, s1, ev) := (ss[k], ss[k + 1], evs[k]);
            var utc := if ev.EvSettle? then 0 else 1;
            var failed := Outcome(s, ev) != Ok && s1.mem.marker == Absent;
            && (failed ==> PutBack(s1, Instant(s, ev).value, KeepOf(ev)))
            && |s1.world.writes| == |s.world.writes| + utc + (if failed then 1 else 0)
            && (utc == 1 ==> s1.world.writes[|s.world.writes|].meaning == AsUtc)
  {
    hide PutBack, Finish, WriteUtc, EpochInRange, UtcOf, FromSeconds, ToSeconds, LocalOf, LastComplete;
    RunInv(w, init, evs, ss, k);
    var ev := evs[k];
    assert ss[k + 1] == Step(ss[k], ev);
    match ev
    case EvWriteUtc(epoch, io) => WritePutsBack(ss[k], epoch, io);
    case EvWriteLocal(local, io) => WritePutsBack(ss[k], ToldUtc(ev), io);
    case EvSettle(read, io) =>
      if !Settled(ss[k].mem) {
        FinishPutsBack(ss[k], Ok, ToSeconds(ss[k].world.chip.time), io);
      }
    case _ =>
  }
}
