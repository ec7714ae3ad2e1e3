/**
 * What the calls record: a report is in the table at once and stays there, the
 * first time of a code is its first active report, a save that can be made is
 * made, and a poll is held back exactly while a try is less than a second old.
 */
module DtcReports {
  import opened Words
  import opened KvStore
  import opened DtcSpec
  import opened DtcBatches
  import opened DtcAgreement
  import opened DtcMigration

  // ---- one report ---------------------------------------------------------------

  /** A report is in the table at once: active or not, its detail, both flags of
      an active code, and the time of the first one. Nothing else changes. */
  lemma ReportIsShown(f: Flash, rom: GoodRom, evs: seq<Event>, ds: seq<Dev>, k: nat)
    requires IsRun(f, rom, evs, ds) && k < |evs| && evs[k].EvSet?
    ensures var ev := evs[k];
            var before, after := Init(ds[k], rom, ev.boot).ram, ds[k + 1].ram;
            var e, e' := before.dtcs[ev.i], after.dtcs[ev.i];
            && e'.active == ev.active
            && e'.detail == (if ev.withDetail then ev.detail else e.detail)
            && (ev.active ==> e'.stored && e'.permanent)
            && (!ev.active ==> e'.stored == e.stored && e'.permanent == e.permanent)
            && (ev.active && !Flagged(e) ==> e'.first == ev.utc)
            && (!ev.active || e.stored || e.first != 0 ==> e'.first == e.first)
            && (forall j: Index :: j != ev.i ==> after.dtcs[j] == before.dtcs[j] && after.pending[j] == before.pending[j])
  {
    hide Agrees, Batch, Init;
    var ev := evs[k];
    RunInv(f, rom, evs, ds, k);
    InitInv(ds[k], rom, ev.boot);
  }

  /** Every storage call of the batch succeeds. */
  predicate Succeeds(io: BatchIo) {
    io.open && (forall k :: 0 <= k < |io.writes| ==> io.writes[k].ok) && io.commit.ok && io.restore
  }

  lemma {:induction false} AllStaged(staged: seq<Op>, ops: seq<Op>, ios: seq<Io>, k: nat)
    requires k <= |ops| && forall n :: 0 <= n < |ios| ==> ios[n].ok
    ensures StageFrom(staged, ops, ios, k).1 && StageEach(staged, ops, ios, k, true).1
    decreases |ops| - k
  {
    if k < |ops| {
      AllStaged(StageOne(staged, ops[k], IoAt(ios, k)), ops, ios, k + 1);
    }
  }

  /** With the storage in order a report is saved at once: if its storage calls
      succeed, nothing is left to do for it. */
  lemma ReportIsSaved(f: Flash, rom: GoodRom, evs: seq<Event>, ds: seq<Dev>, k: nat)
    requires IsRun(f, rom, evs, ds) && k < |evs| && evs[k].EvSet? && Succeeds(evs[k].io)
    requires var r := Init(ds[k], rom, evs[k].boot).ram; Settled(r) && !r.pending[evs[k].i]
    ensures var i, d := evs[k].i, ds[k + 1];
            Settled(d.ram) && !d.ram.pending[i] && Recorded(d.kv.flash, i, d.ram.dtcs[i])
  {
    hide Init, Recorded, RecordOps, Report, StageFrom;
    var ev := evs[k];
    RunInv(f, rom, evs, ds, k);
    InitInv(ds[k], rom, ev.boot);
    var d := Init(ds[k], rom, ev.boot);
    SetActiveInv(d, rom, ev.i, ev.active, ev.withDetail, ev.detail, ev.utc, ev.now, ev.io);
    var e := Report(d.ram.dtcs[ev.i], ev.active, ev.withDetail, ev.detail, ev.utc).0;
    AllStaged(d.kv.staged, RecordOps(ev.i, e), ev.io.writes, 0);
    AlwaysNow(ds[k + 1].kv, g => Agrees(ds[k + 1].ram, g));
  }

  /** What the store holds of a recorded entry, byte by byte: bit 0 and bit 1 of the
      flags word, the detail in its second byte, the first time under the other
      key. There are eleven entries. */
  lemma StoredForm(f: Flash, i: Index, e: Entry)
    ensures i < 11 && FlagsKey(i) == 0xD800 + i && StampKey(i) == 0xD900 + i
    ensures var word, stamp := RecordAt(f, 0xD800 + i), RecordAt(f, 0xD900 + i);
            Recorded(f, i, e) <==>
              && (word % 2 == 1 <==> e.stored) && (word / 2 % 2 == 1 <==> e.permanent)
              && (e.stored || e.permanent ==> word / 256 % 256 == e.detail && stamp == e.first)
  {
    hide LowByte, DetailByte, StoredBit, PermanentBit, RecordAt;
    WordBits(RecordAt(f, FlagsKey(i)));
  }

  lemma WordBits(word: U32)
    ensures DetailByte(word) == word / 256 % 256
    ensures StoredBit(LowByte(word)) <==> word % 2 == 1
    ensures PermanentBit(LowByte(word)) <==> word / 2 % 2 == 1
    ensures LowByte(word) % 4 == 0 <==> !StoredBit(LowByte(word)) && !PermanentBit(LowByte(word))
  {
    var low := LowByte(word);
    LowBits(word / 256, low);
    FourStates(low);
    assert word == 256 * (word / 256) + low;
  }

  lemma LowBits(q: nat, low: nat)
    ensures (256 * q + low) % 2 == low % 2
    ensures (256 * q + low) / 2 == 128 * q + low / 2
    ensures (128 * q + low / 2) % 2 == low / 2 % 2
  {
  }

  lemma FourStates(low: nat)
    ensures low % 4 == 0 <==> low % 2 == 0 && low / 2 % 2 == 0
  {
  }

  /** The markers are 1 under 0xD700 and 0xD701. */
  lemma MarkersAre(f: Flash)
    ensures HasMarkers(f) <==> RecordAt(f, 0xD700) == 1 && RecordAt(f, 0xD701) == 1
  {
    assert Marker(f, SCHEMA_KEY) <==> RecordAt(f, SCHEMA_KEY) == 1;
  }

  /** A report that says nothing new writes nothing and marks nothing. */
  lemma RepeatIsQuiet(f: Flash, rom: GoodRom, evs: seq<Event>, ds: seq<Dev>, k: nat)
    requires IsRun(f, rom, evs, ds) && k < |evs| && evs[k].EvSet?
    requires var ev := evs[k];
             var e := Init(ds[k], rom, ev.boot).ram.dtcs[ev.i];
             (ev.withDetail ==> ev.detail == e.detail) && (ev.active ==> e.stored && e.permanent)
    ensures var d := Init(ds[k], rom, evs[k].boot);
            ds[k + 1].kv == d.kv && ds[k + 1].ram == d.ram.(dtcs := ds[k + 1].ram.dtcs)
  {
    hide Init;
  }

  // ---- what stands ----------------------------------------------------------------

  /** The entry cannot be overwritten by a load. */
  ghost predicate Safe(r: GoodRam, i: Index) { r.initialized && (r.storageReady || r.pending[i]) }

  /** Neither a clear nor a restart. */
  predicate Calm(ev: Event) { !ev.EvClear? && !ev.EvRestart? }

  lemma LoadKeepsMarked(r: GoodRam, f: Flash, io: LoadIo, i: Index)
    requires r.pending[i]
    ensures var r1 := LoadOrPrepare(r, f, true, io).0;
            r1.dtcs[i] == r.dtcs[i] && r1.pending[i] && r1.initialized == r.initialized
  {
    hide LoadFrom, LoadedSome, Loaded;
    LoadFromEffect(r, f, true, io.gets, 0);
  }

  lemma PollOpenStands(d: Dev, rom: GoodRom, io: PollIo, i: Index)
    requires RamShape(d.ram) && Safe(d.ram, i)
    ensures var (d1, ok) := PollOpen(d, rom, io);
            Safe(d1.ram, i) && d1.ram.dtcs[i] == d.ram.dtcs[i] && (ok ==> d1.ram.storageReady)
  {
    hide LoadOrPrepare;
    if !d.ram.storageReady {
      var r1 := OpenStorage(d.ram, rom, io.init).0;
      LoadKeepsMarked(r1.(storageReady := true), d.kv.flash, io.load, i);
    }
  }

  lemma PollRestStands(d: Dev, io: PollIo, i: Index)
    requires RamShape(d.ram) && d.ram.storageReady && d.ram.initialized
    ensures Safe(PollRest(d, io).ram, i) && PollRest(d, io).ram.dtcs == d.ram.dtcs
  {
    hide SaveAll, BatchEach;
  }

  /** No call but its own report changes a safe entry. */
  lemma StepStands(d: Dev, rom: GoodRom, ev: Event, i: Index)
    requires RamShape(d.ram) && Safe(d.ram, i) && Calm(ev) && !(ev.EvSet? && ev.i == i)
    ensures Safe(Step(d, rom, ev).ram, i) && Step(d, rom, ev).ram.dtcs[i] == d.ram.dtcs[i]
  {
    hide PollOpen, PollRest, Batch, Report;
    if ev.EvPoll? && PollDue(d.ram, ev.now) {
      var d0 := d.(ram := d.ram.(lastRetry := ev.now));
      PollOpenStands(d0, rom, ev.poll, i);
      var (d1, ok) := PollOpen(d0, rom, ev.poll);
      if ok {
        PollRestStands(d1, ev.poll, i);
      }
    }
  }

  lemma {:induction false} EntryStands(f: Flash, rom: GoodRom, evs: seq<Event>, ds: seq<Dev>, a: nat, k: nat, i: Index)
    requires IsRun(f, rom, evs, ds) && a <= k < |ds| && Safe(ds[a].ram, i)
    requires forall n {:trigger evs[n]} :: a <= n < k ==> Calm(evs[n]) && !(evs[n].EvSet? && evs[n].i == i)
    ensures Safe(ds[k].ram, i) && ds[k].ram.dtcs[i] == ds[a].ram.dtcs[i]
    decreases k
  {
    hide Step, Safe;
    if a < k {
      var ev := evs[k - 1];
      EntryStands(f, rom, evs, ds, a, k - 1, i);
      StepStands(ds[k - 1], rom, ev, i);
    }
  }

  lemma SetIsSafe(d: Dev, rom: GoodRom, ev: Event)
    requires RamShape(d.ram) && ev.EvSet?
    ensures var r, r' := Init(d, rom, ev.boot).ram, Step(d, rom, ev).ram;
            r.initialized && (Safe(r, ev.i) || (ev.active && !r.dtcs[ev.i].stored)) ==> Safe(r', ev.i)
  {
    hide Init, Batch;
  }

  /** Whether a load may still overwrite an entry after its report: only if the
      storage is down and the report marked nothing. */
  lemma ReportIsSafe(f: Flash, rom: GoodRom, evs: seq<Event>, ds: seq<Dev>, a: nat)
    requires IsRun(f, rom, evs, ds) && a < |evs| && evs[a].EvSet?
    ensures ds[a + 1].ram.initialized
    ensures var r := Init(ds[a], rom, evs[a].boot).ram;
            Safe(r, evs[a].i) || (evs[a].active && !r.dtcs[evs[a].i].stored) ==> Safe(ds[a + 1].ram, evs[a].i)
  {
    hide Init, Step, Inv;
    RunInv(f, rom, evs, ds, a);
    InitInv(ds[a], rom, evs[a].boot);
    SetIsSafe(ds[a], rom, evs[a]);
    SetKeepsInitialized(ds[a], rom, evs[a]);
  }

  lemma SetKeepsInitialized(d: Dev, rom: GoodRom, ev: Event)
    requires RamShape(d.ram) && ev.EvSet?
    ensures Step(d, rom, ev).ram.initialized == Init(d, rom, ev.boot).ram.initialized
  {
    hide Init, Batch;
  }

  /** Until the next report of the code, a clear or a restart the entry is what
      its latest report left, through polls, loads, failures and other reports;
      if the storage was up then or the entry was marked. */
  lemma LatestReportStands(f: Flash, rom: GoodRom, evs: seq<Event>, ds: seq<Dev>, a: nat, k: nat)
    requires IsRun(f, rom, evs, ds) && a < k < |ds| && evs[a].EvSet?
    requires ds[a + 1].ram.storageReady || ds[a + 1].ram.pending[evs[a].i]
    requires forall n {:trigger evs[n]} :: a < n < k ==> Calm(evs[n]) && !(evs[n].EvSet? && evs[n].i == evs[a].i)
    ensures var e := ds[k].ram.dtcs[evs[a].i];
            && e == ds[a + 1].ram.dtcs[evs[a].i]
            && e.active == evs[a].active
            && (evs[a].withDetail ==> e.detail == evs[a].detail)
            && (evs[a].active ==> e.stored && e.permanent)
  {
    hide Init, Step, Inv;
    ReportIsSafe(f, rom, evs, ds, a);
    ReportIsShown(f, rom, evs, ds, a);
    EntryStands(f, rom, evs, ds, a + 1, k, evs[a].i);
  }

  ghost predicate FirstIs(r: GoodRam, i: Index, utc: U32) {
    Safe(r, i) && r.dtcs[i].stored && r.dtcs[i].permanent && r.dtcs[i].first == utc
  }

  lemma StepKeepsFirst(d: Dev, rom: GoodRom, ev: Event, i: Index, utc: U32)
    requires RamShape(d.ram) && FirstIs(d.ram, i, utc) && Calm(ev)
    ensures FirstIs(Step(d, rom, ev).ram, i, utc)
  {
    if ev.EvSet? && ev.i == i {
      hide Batch;
    } else {
      hide Step;
      StepStands(d, rom, ev, i);
    }
  }

  lemma {:induction false} RunKeepsFirst(f: Flash, rom: GoodRom, evs: seq<Event>, ds: seq<Dev>, a: nat, k: nat,
                                         i: Index, utc: U32)
    requires IsRun(f, rom, evs, ds) && a <= k < |ds| && FirstIs(ds[a].ram, i, utc)
    requires forall n {:trigger evs[n]} :: a <= n < k ==> Calm(evs[n])
    ensures FirstIs(ds[k].ram, i, utc)
    decreases k
  {
    hide Step, FirstIs;
    if a < k {
      var ev := evs[k - 1];
      RunKeepsFirst(f, rom, evs, ds, a, k - 1, i, utc);
      StepKeepsFirst(ds[k - 1], rom, ev, i, utc);
    }
  }

  /** A code without a flag keeps the time of its first active report until a clear
      or a restart, through all later reports, polls, loads and failures: in the
      table, and in every store that may still become durable once the storage is
      in order and the entry is not marked. */
  lemma FirstTimeStands(f: Flash, rom: GoodRom, evs: seq<Event>, ds: seq<Dev>, a: nat, k: nat, n: nat)
    requires IsRun(f, rom, evs, ds) && a < k < |ds| && evs[a].EvSet? && evs[a].active
    requires !Flagged(Init(ds[a], rom, evs[a].boot).ram.dtcs[evs[a].i])
    requires forall m {:trigger evs[m]} :: a < m < k ==> Calm(evs[m])
    requires n <= |ds[k].kv.staged|
    ensures var i := evs[a].i;
            && ds[k].ram.dtcs[i].first == evs[a].utc && ds[k].ram.dtcs[i].stored && ds[k].ram.dtcs[i].permanent
            && (Settled(ds[k].ram) && !ds[k].ram.pending[i] ==>
                  var g := ApplyAll(ds[k].kv.flash, ds[k].kv.staged[..n]);
                  Loaded(g, i).first == evs[a].utc && Loaded(g, i).stored && Loaded(g, i).permanent)
  {
    hide Init, Step, Inv, Loaded;
    ReportIsSafe(f, rom, evs, ds, a);
    ReportIsShown(f, rom, evs, ds, a);
    RunKeepsFirst(f, rom, evs, ds, a + 1, k, evs[a].i, evs[a].utc);
    if Settled(ds[k].ram) && !ds[k].ram.pending[evs[a].i] {
      ReachableAgreement(f, rom, evs, ds, k, evs[a].i, n);
    }
  }

  // ---- tries ------------------------------------------------------------------------

  /** A snapshot, a load or a clear is still due. */
  predicate Open(r: Ram) { !Settled(r) || HasPending(r) }

  /** What an init leaves of the latest try: its own time if it failed. */
  function InitTry(d: Dev, rom: GoodRom, boot: BootIo, last: U32): U32
    requires RamShape(d.ram)
  {
    var r := Init(d, rom, boot).ram;
    if d.ram.initialized || (r.storageReady && !r.schemaPending) then last else boot.now
  }

  /** What an event from d to d' leaves of it: a clear that is queued, a report that
      stays marked with the storage in order, and a poll that did anything are tries. */
  function NextTry(d: Dev, rom: GoodRom, ev: Event, d': Dev, last: U32): U32
    requires RamShape(d.ram) && RamShape(d'.ram)
  {
    match ev
    case EvRestart(_) => 0
    case EvShared(_) => last
    case EvQuery(boot) => InitTry(d, rom, boot, last)
    case EvPoll(now, boot, _) => if d' != Init(d, rom, boot) then now else InitTry(d, rom, boot, last)
    case EvClear(now, boot, _) => if d'.ram.clearPending then now else InitTry(d, rom, boot, last)
    case EvSet(i, active, _, _, _, now, boot, _) =>
      var e := Init(d, rom, boot).ram.dtcs[i];
      var vain := Settled(d'.ram) && d'.ram.pending[i] && d'.ram.dtcs[i] != e.(active := active);
      if vain then now else InitTry(d, rom, boot, last)
  }

  /** The counter at the latest try that may have to be repeated, since the start. */
  function LastTry(rom: GoodRom, evs: seq<Event>, ds: seq<Dev>, k: nat): U32
    requires |ds| == |evs| + 1 && k < |ds| && forall n :: 0 <= n < |ds| ==> RamShape(ds[n].ram)
  {
    if k == 0 then 0 else NextTry(ds[k - 1], rom, evs[k - 1], ds[k], LastTry(rom, evs, ds, k - 1))
  }

  lemma InitKeepsTry(d: Dev, rom: GoodRom, boot: BootIo, last: U32)
    requires RamShape(d.ram) && d.ram.lastRetry == last
    ensures Init(d, rom, boot).ram.lastRetry == InitTry(d, rom, boot, last)
  {
    hide SaveAll, LoadFrom, ApplyLegacy, Capture, Loaded, LoadedFrom;
    if !d.ram.initialized {
      CaptureKeepsTry(d.ram, rom, boot.init.failAt);
      var r := OpenStorage(d.ram, rom, boot.init).0.(storageReady := true);
      LoadKeepsTry(r, d.kv.flash, false, boot.load);
    }
  }

  lemma CaptureKeepsTry(r: GoodRam, rom: GoodRom, failAt: nat)
    ensures Capture(r, rom, failAt).0.lastRetry == r.lastRetry
  {
  }

  lemma LoadKeepsTry(r: GoodRam, f: Flash, preserve: bool, io: LoadIo)
    ensures var r1 := LoadOrPrepare(r, f, preserve, io).0;
            r1.lastRetry == r.lastRetry && r1.storageReady == r.storageReady
  {
    hide TakeSource, HasMarkers;
    TakeKeepsTry(r, f, preserve, io.gets);
  }

  lemma TakeKeepsTry(r: GoodRam, f: Flash, preserve: bool, gets: seq<bool>)
    ensures var r1 := TakeSource(r, f, preserve, gets).0;
            r1.lastRetry == r.lastRetry && r1.storageReady == r.storageReady
  {
    hide LoadFrom, Loaded, LoadedSome, UseLegacy;
    LoadFromEffect(r, f, preserve, gets, 0);
  }

  /** A poll does something exactly when it is due, and then it is the latest try. */
  lemma PollTry(d: Dev, rom: GoodRom, now: U32, io: PollIo)
    requires RamShape(d.ram)
    ensures Poll(d, rom, now, io) != d <==> PollDue(d.ram, now)
    ensures Poll(d, rom, now, io) != d ==> Poll(d, rom, now, io).ram.lastRetry == now
  {
    hide LoadOrPrepare, HasPending, SaveAll, BatchEach;
    if PollDue(d.ram, now) {
      var d0 := d.(ram := d.ram.(lastRetry := now));
      CaptureKeepsTry(d0.ram, rom, io.init.failAt);
      var r1 := OpenStorage(d0.ram, rom, io.init).0.(storageReady := true);
      LoadKeepsTry(r1, d.kv.flash, d.ram.clearPending || HasPending(d0.ram), io.load);
      var (d1, ok) := PollOpen(d0, rom, io);
      assert d1.ram.lastRetry == now;
      if ok {
        RestKeepsTry(d1, io);
      }
    }
  }

  lemma RestKeepsTry(d: Dev, io: PollIo)
    requires RamShape(d.ram)
    ensures PollRest(d, io).ram.lastRetry == d.ram.lastRetry
  {
    hide SaveAll, BatchEach, HasPending;
  }

  lemma SetTry(d: Dev, i: Index, active: bool, withDetail: bool, detail: U8, utc: U32, now: U32, io: BatchIo)
    requires RamShape(d.ram)
    ensures var d' := SetActive(d, i, active, withDetail, detail, utc, now, io);
            var vain := Settled(d'.ram) && d'.ram.pending[i] && d'.ram.dtcs[i] != d.ram.dtcs[i].(active := active);
            d'.ram.lastRetry == if vain then now else d.ram.lastRetry
  {
    hide Batch;
  }

  lemma StepTry(d: Dev, rom: GoodRom, ev: Event, last: U32)
    requires RamShape(d.ram) && d.ram.lastRetry == last
    ensures Step(d, rom, ev).ram.lastRetry == NextTry(d, rom, ev, Step(d, rom, ev), last)
  {
    hide Init, InitTry, Poll, SetActive, BatchEach, ClearOps, Settled;
    match ev
    case EvSet(i, active, withDetail, detail, utc, now, boot, io) =>
      InitKeepsTry(d, rom, boot, last);
      SetTry(Init(d, rom, boot), i, active, withDetail, detail, utc, now, io);
    case EvPoll(now, boot, poll) =>
      InitKeepsTry(d, rom, boot, last);
      PollTry(Init(d, rom, boot), rom, now, poll);
    case EvClear(now, boot, io) => InitKeepsTry(d, rom, boot, last);
    case EvQuery(boot) => InitKeepsTry(d, rom, boot, last);
    case EvShared(_) =>
    case EvRestart(_) =>
  }

  lemma {:induction false} RunTry(f: Flash, rom: GoodRom, evs: seq<Event>, ds: seq<Dev>, k: nat)
    requires IsRun(f, rom, evs, ds) && k < |ds|
    ensures ds[k].ram.lastRetry == LastTry(rom, evs, ds, k)
    decreases k
  {
    hide Step, NextTry;
    if k > 0 {
      var ev := evs[k - 1];
      RunTry(f, rom, evs, ds, k - 1);
      StepTry(ds[k - 1], rom, ev, LastTry(rom, evs, ds, k - 1));
    }
  }

  /** In every run a poll changes neither the table nor the store exactly if
      nothing is due or, by the counter, the latest try is less than a second old;
      so failed writes are repeated, and not more often than once a second. */
  lemma PollIsHeldBack(f: Flash, rom: GoodRom, evs: seq<Event>, ds: seq<Dev>, k: nat)
    requires IsRun(f, rom, evs, ds) && k < |evs| && evs[k].EvPoll?
    ensures var ev := evs[k];
            var d := Init(ds[k], rom, ev.boot);
            var last := InitTry(ds[k], rom, ev.boot, LastTry(rom, evs, ds, k));
            ds[k + 1] == d <==> !Open(d.ram) || Sub32(ev.now, last) < 1000
  {
    hide Init, InitTry, Poll, LastTry;
    RunTry(f, rom, evs, ds, k);
    InitKeepsTry(ds[k], rom, evs[k].boot, LastTry(rom, evs, ds, k));
    PollTry(Init(ds[k], rom, evs[k].boot), rom, evs[k].now, evs[k].poll);
  }

  // ---- clears and starts ------------------------------------------------------------

  /** A clear empties the table, whatever the storage does; the store too if the
      storage is in order and its calls succeed, and then it returns true. If it
      returns false the clear is queued. */
  lemma ClearEmpties(f: Flash, rom: GoodRom, evs: seq<Event>, ds: seq<Dev>, k: nat)
    requires IsRun(f, rom, evs, ds) && k < |evs| && evs[k].EvClear?
    ensures var d := Init(ds[k], rom, evs[k].boot);
            var done := ClearAll(d, evs[k].now, evs[k].io).1;
            var r := ds[k + 1].ram;
            && (forall i: Index :: r.dtcs[i] == EMPTY && !r.pending[i])
            && (done <==> !r.clearPending)
            && (d.ram.storageReady && !d.ram.schemaPending && Succeeds(evs[k].io) ==> done)
            && (done ==> forall i: Index :: FlagsKey(i) !in ds[k + 1].kv.flash && StampKey(i) !in ds[k + 1].kv.flash)
  {
    hide Init, StageEach, ClearOps, FlagsKey, StampKey;
    var d := Init(ds[k], rom, evs[k].boot);
    var (d', done) := ClearAll(d, evs[k].now, evs[k].io);
    if evs[k].io.open && Succeeds(evs[k].io) {
      AllCleared(d.kv, evs[k].io);
    }
    if done {
      BatchDone(d.kv, ClearOps(COUNT), evs[k].io);
      ClearOpsClear(ApplyAll(d.kv.flash, d.kv.staged), COUNT);
    }
  }

  lemma AllCleared(kv: Kv, io: BatchIo)
    requires Succeeds(io)
    ensures BatchEach(kv, ClearOps(COUNT), io).1
  {
    hide ClearOps;
    AllStaged(kv.staged, ClearOps(COUNT), io.writes, 0);
  }

  /** The storage comes up exactly if its steps succeed and the legacy bytes are known
      or all read: magic and version, and if they are valid the nine flags. */
  lemma StorageOpensExactly(r: GoodRam, rom: GoodRom, io: InitIo)
    ensures OpenStorage(r, rom, io).1 <==>
              io.before && io.after && (r.legacyChecked || io.failAt >= (if rom.valid then 11 else 2))
  {
  }

  /** After a start whose storage calls succeed the table is what the store holds,
      or the flags of the legacy bytes if the store was never written. */
  lemma GoodStartTakesSource(f: Flash, rom: GoodRom, now: U32, i: Index)
    ensures var d := Init(Boot(f), rom, BootIo(now, GOOD_INIT, GOOD_LOAD, GOOD_BATCH));
            && Settled(d.ram) && !d.ram.pending[i]
            && d.ram.dtcs[i] == (if !LegacyCase(f, rom) then Loaded(f, i)
                                 else if i < LEGACY_COUNT then WithFlags(EMPTY, rom.bytes[i]) else EMPTY)
            && Recorded(d.kv.flash, i, d.ram.dtcs[i]) && HasMarkers(d.kv.flash)
  {
    hide LoadOrPrepare, SaveAll, Recorded, Agrees, HasMarkers, LegacyCase, Loaded;
    var boot := BootIo(now, GOOD_INIT, GOOD_LOAD, GOOD_BATCH);
    BootInv(f, rom);
    InitInv(Boot(f), rom, boot);
    GoodStart(PowerUp(), rom);
    CaptureInv(PowerUp(), rom, GOOD_INIT.failAt);
    var r := OpenStorage(PowerUp(), rom, GOOD_INIT).0.(storageReady := true);
    FirstTable(r, f, rom, i);
    var r1 := LoadOrPrepare(r, f, false, GOOD_LOAD).0;
    FirstSaved(r1, f);
    var d := Init(Boot(f), rom, boot);
    assert d.ram.dtcs == r1.dtcs;
    AlwaysNow(d.kv, g => Agrees(d.ram, g));
    assert Agrees(d.ram, d.kv.flash);
    AgreesAt(d.ram, d.kv.flash, i);
  }

  lemma AgreesAt(r: GoodRam, f: Flash, i: Index)
    requires Agrees(r, f) && !r.pending[i]
    ensures Recorded(f, i, r.dtcs[i])
  {
  }

  lemma FirstTable(r: GoodRam, f: Flash, rom: GoodRom, i: Index)
    requires r.legacyChecked && r.legacyValid == rom.valid && (rom.valid ==> r.legacyFlags == rom.bytes)
    requires r.dtcs == PowerUp().dtcs && r.pending == PowerUp().pending && !r.clearPending
    ensures var (r1, ok) := LoadOrPrepare(r, f, false, GOOD_LOAD);
            && ok && !r1.clearPending && r1.storageReady == r.storageReady
            && (!r1.schemaPending ==> HasMarkers(f) && !r1.pending[i])
            && r1.dtcs[i] == if !LegacyCase(f, rom) then Loaded(f, i)
                             else if i < LEGACY_COUNT then WithFlags(EMPTY, rom.bytes[i]) else EMPTY
  {
    hide LoadFrom, LoadedSome, Loaded;
    GoodLoad(r, f, false, 0);
    LoadFromEffect(r, f, false, [], 0);
  }

  lemma FirstSaved(r: GoodRam, f: Flash)
    ensures var (kv', saved) := SaveAll(r, Kv(f, []), true, GOOD_BATCH);
            saved && HasMarkers(kv'.flash)
  {
    hide SnapshotOps, Batch;
    GoodBatch(Kv(f, []), SnapshotOps(r.dtcs, true));
    SnapshotAgrees(r, Kv(f, []), true, GOOD_BATCH);
  }

  // ---- the report that is forgotten ----------------------------------------------------

  /** While the storage is down, one report of entry i, then a poll that works: the
      code is still shown as reported exactly if it is inactive, or the report left
      the entry marked, or the legacy bytes are the source, have none for it and are
      merged. */
  lemma ActiveBeforeStorage(d: Dev, rom: GoodRom, i: Index, active: bool, withDetail: bool, detail: U8,
                            utc: U32, t: U32, now: U32)
    requires Inv(d, rom) && d.ram.initialized && !d.ram.storageReady && !d.ram.clearPending
    requires Sub32(now, d.ram.lastRetry) >= RETRY_MS
    ensures var d1 := SetActive(d, i, active, withDetail, detail, utc, t, GOOD_BATCH);
            var d2 := Poll(d1, rom, now, GOOD_POLL);
            var e := d.ram.dtcs[i];
            var news := (withDetail && detail != e.detail) || (active && !(e.stored && e.permanent));
            d2.ram.dtcs[i].active == active <==>
              !active || d.ram.pending[i] || news
              || (LegacyCase(d.kv.flash, rom) && i >= LEGACY_COUNT && HasPending(d.ram))
  {
    hide SetActive, Poll, Recorded, Agrees, Loaded, HasMarkers, LegacyCase, HasPending, SourceFlags;
    var d1 := SetActive(d, i, active, withDetail, detail, utc, t, GOOD_BATCH);
    SetActiveInv(d, rom, i, active, withDetail, detail, utc, t, GOOD_BATCH);
    ReportMarks(d, i, active, withDetail, detail, utc, t);
    GoodPollTakes(d1, rom, i, now);
    var news := (withDetail && detail != d.ram.dtcs[i].detail)
                || (active && !(d.ram.dtcs[i].stored && d.ram.dtcs[i].permanent));
    if !news {
      assert d1.ram.pending == d.ram.pending;
      SamePending(d1.ram, d.ram);
    }
  }

  lemma SamePending(a: Ram, b: Ram)
    requires a.pending == b.pending
    ensures HasPending(a) == HasPending(b)
  {
  }

  /** At a start the first entry loads and the second read fails. */
  const SECOND_READ_FAILS := BootIo(0, GOOD_INIT, LoadIo(true, true, [true, true, false]), GOOD_BATCH)

  /** An input that forgets: the store holds the first code, the load of a start
      stops behind it, the code is reported active, and the next poll brings the
      storage up with the code inactive. */
  lemma ActiveForgotten(rom: GoodRom)
    ensures var f: Flash := map[FlagsKey(0) := 3, SCHEMA_KEY := MARKER_VERSION, MIGRATED_KEY := MARKER_VERSION];
            var d1 := Step(Boot(f), rom, EvQuery(SECOND_READ_FAILS));
            var d2 := Step(d1, rom, EvSet(0, true, false, 0, 0, 0, SECOND_READ_FAILS, GOOD_BATCH));
            var d3 := Step(d2, rom, EvPoll(RETRY_MS, SECOND_READ_FAILS, GOOD_POLL));
            d2.ram.dtcs[0].active && !d3.ram.dtcs[0].active
  {
    hide Poll, SetActive, Inv, LegacyCase;
    var f: Flash := map[FlagsKey(0) := 3, SCHEMA_KEY := MARKER_VERSION, MIGRATED_KEY := MARKER_VERSION];
    var d1 := Init(Boot(f), rom, SECOND_READ_FAILS);
    BootInv(f, rom);
    InitInv(Boot(f), rom, SECOND_READ_FAILS);
    HalfLoaded(f, rom);
    ActiveBeforeStorage(d1, rom, 0, true, false, 0, 0, 0, RETRY_MS);
    var d2 := SetActive(d1, 0, true, false, 0, 0, 0, GOOD_BATCH);
    ReportMarks(d1, 0, true, false, 0, 0, 0);
  }

  lemma HalfLoaded(f: Flash, rom: GoodRom)
    requires HasMarkers(f) && FlagsKey(0) in f && f[FlagsKey(0)] == 3 && FlagsKey(1) !in f && StampKey(0) !in f
    ensures var r := Init(Boot(f), rom, SECOND_READ_FAILS).ram;
            && !r.storageReady && !r.clearPending && r.lastRetry == 0 && !LegacyCase(f, rom)
            && !r.pending[0] && r.dtcs[0].stored && r.dtcs[0].permanent
  {
    hide LoadFrom;
    var gets := [true, true, false];
    var r0 := PowerUp();
    CaptureInv(r0, rom, GOOD_INIT.failAt);
    GoodStart(r0, rom);
    var r := OpenStorage(r0, rom, GOOD_INIT).0.(storageReady := true);
    LoadFromUnfold(r, f, false, gets, 0);
    var e := LoadEntry(r.dtcs[0], f, 0, true, true).0;
    assert LoadEntry(r.dtcs[0], f, 0, true, true) == (e, true) && e.stored && e.permanent;
    LoadFromUnfold(r.(dtcs := r.dtcs[0 := e]), f, false, gets, 1);
  }
}
