/**
 * The runtime table agrees with the store: the invariant of every reachable
 * state, through failed batches, reloads and restarts, and the poll that
 * always settles once the storage works.
 */
module DtcAgreement {
  import opened Words
  import opened KvStore
  import opened DtcSpec
  import opened DtcBatches

  /** Neither marker is in the store and the older area holds valid bytes. */
  predicate LegacyCase(f: Flash, rom: GoodRom) {
    !Marker(f, SCHEMA_KEY) && !Marker(f, MIGRATED_KEY) && rom.valid
  }

  predicate Settled(r: Ram) { r.storageReady && !r.schemaPending && !r.clearPending }

  ghost predicate RamInv(r: Ram, rom: GoodRom) {
    && RamShape(r)
    && (r.legacyChecked ==> r.legacyValid == rom.valid && (rom.valid ==> r.legacyFlags == rom.bytes))
    && (r.legacyValid ==> r.legacyChecked)
    && (r.storageReady ==> r.legacyChecked)
    && (forall i: Index :: Flagged(r.dtcs[i]) || r.dtcs[i].first == 0)
    && (r.clearPending ==> forall i: Index :: !r.pending[i] ==> !Flagged(r.dtcs[i]))
  }

  ghost predicate Inv(d: Dev, rom: GoodRom) {
    && RamInv(d.ram, rom)
    && (!d.ram.initialized ==> d.ram == PowerUp())
    && (!d.ram.storageReady ==> d.kv.staged == [])
    && (!d.ram.storageReady && LegacyCase(d.kv.flash, rom) ==>
          forall i: Index :: !d.ram.pending[i] ==> d.ram.dtcs[i].first == 0)
    && (Settled(d.ram) ==> Always(d.kv, f => Agrees(d.ram, f)))
  }

  // ---- loads ----------------------------------------------------------------

  /** What a load that may stop early has done to one entry: nothing, all of
      it, or everything but the time of first occurrence. */
  predicate LoadedSome(e: Entry, e': Entry, f: Flash, i: Index) {
    e' == e || e' == Loaded(f, i) || (Flagged(Loaded(f, i)) && e' == Loaded(f, i).(first := e.first))
  }

  lemma LoadEntryEffect(e: Entry, f: Flash, i: Index, flagsOk: bool, stampOk: bool)
    ensures var (e', ok) := LoadEntry(e, f, i, flagsOk, stampOk);
            LoadedSome(e, e', f, i) && (ok ==> e' == Loaded(f, i))
  {
    FlagBits(LowByte(RecordAt(f, FlagsKey(i))));
  }

  /** What a load of the entries from i on has done to the table. */
  ghost predicate LoadedFrom(r: GoodRam, r1: GoodRam, ok: bool, f: Flash, skip: bool, i: nat) {
    && r1 == r.(dtcs := r1.dtcs)
    && (forall j: Index :: j < i || (skip && r.pending[j]) ==> r1.dtcs[j] == r.dtcs[j])
    && (forall j: Index :: LoadedSome(r.dtcs[j], r1.dtcs[j], f, j))
    && (ok ==> forall j: Index :: i <= j && !(skip && r.pending[j]) ==> r1.dtcs[j] == Loaded(f, j))
  }

  lemma LoadedFromStep(r: GoodRam, e: Entry, r1: GoodRam, ok: bool, f: Flash, skip: bool, i: Index)
    requires !(skip && r.pending[i]) && LoadedSome(r.dtcs[i], e, f, i)
    requires LoadedFrom(r.(dtcs := r.dtcs[i := e]), r1, ok, f, skip, i + 1)
    requires ok ==> e == Loaded(f, i)
    ensures LoadedFrom(r, r1, ok, f, skip, i)
  {
    var r' := r.(dtcs := r.dtcs[i := e]);
    assert r1.dtcs[i] == r'.dtcs[i] == e;
    forall j: Index ensures LoadedSome(r.dtcs[j], r1.dtcs[j], f, j) {
      assert LoadedSome(r'.dtcs[j], r1.dtcs[j], f, j);
    }
  }

  /** A load touches only the entries it may, replaces each by what its records
      mean when it succeeds, and changes nothing else. */
  lemma {:induction false} LoadFromEffect(r: GoodRam, f: Flash, skip: bool, gets: seq<bool>, i: nat)
    requires i <= COUNT
    ensures LoadedFrom(r, LoadFrom(r, f, skip, gets, i).0, LoadFrom(r, f, skip, gets, i).1, f, skip, i)
    decreases COUNT - i
  {
    hide LoadEntry, LoadedFrom;
    if i == COUNT {
      LoadedNothing(r, true, f, skip, i);
    } else if skip && r.pending[i] {
      LoadFromEffect(r, f, skip, gets, i + 1);
      LoadedFromSkip(r, LoadFrom(r, f, skip, gets, i).0, LoadFrom(r, f, skip, gets, i).1, f, i);
    } else {
      var res := LoadEntry(r.dtcs[i], f, i, ReadOk(gets, 2 * i), ReadOk(gets, 2 * i + 1));
      LoadFromEffect(r.(dtcs := r.dtcs[i := res.0]), f, skip, gets, i + 1);
      LoadFromHere(r, f, skip, gets, i);
    }
  }

  lemma LoadFromHere(r: GoodRam, f: Flash, skip: bool, gets: seq<bool>, i: Index)
    requires !(skip && r.pending[i])
    requires var res := LoadEntry(r.dtcs[i], f, i, ReadOk(gets, 2 * i), ReadOk(gets, 2 * i + 1));
             var next := LoadFrom(r.(dtcs := r.dtcs[i := res.0]), f, skip, gets, i + 1);
             LoadedFrom(r.(dtcs := r.dtcs[i := res.0]), next.0, next.1, f, skip, i + 1)
    ensures LoadedFrom(r, LoadFrom(r, f, skip, gets, i).0, LoadFrom(r, f, skip, gets, i).1, f, skip, i)
  {
    hide LoadEntry, Loaded, LoadedFrom;
    var res := LoadEntry(r.dtcs[i], f, i, ReadOk(gets, 2 * i), ReadOk(gets, 2 * i + 1));
    LoadEntryEffect(r.dtcs[i], f, i, ReadOk(gets, 2 * i), ReadOk(gets, 2 * i + 1));
    LoadFromUnfold(r, f, skip, gets, i);
    var r' := r.(dtcs := r.dtcs[i := res.0]);
    LoadedNothing(r', false, f, skip, i + 1);
    LoadedFromStep(r, res.0, LoadFrom(r, f, skip, gets, i).0, LoadFrom(r, f, skip, gets, i).1, f, skip, i);
  }

  lemma LoadFromUnfold(r: GoodRam, f: Flash, skip: bool, gets: seq<bool>, i: Index)
    requires !(skip && r.pending[i])
    ensures var res := LoadEntry(r.dtcs[i], f, i, ReadOk(gets, 2 * i), ReadOk(gets, 2 * i + 1));
            var r' := r.(dtcs := r.dtcs[i := res.0]);
            LoadFrom(r, f, skip, gets, i) == if res.1 then LoadFrom(r', f, skip, gets, i + 1) else (r', false)
  {
  }

  lemma LoadedNothing(r: GoodRam, ok: bool, f: Flash, skip: bool, i: nat)
    requires ok ==> i == COUNT
    ensures LoadedFrom(r, r, ok, f, skip, i)
  {
  }

  lemma LoadedFromSkip(r: GoodRam, r1: GoodRam, ok: bool, f: Flash, i: Index)
    requires r.pending[i] && LoadedFrom(r, r1, ok, f, true, i + 1)
    ensures LoadedFrom(r, r1, ok, f, true, i)
  {
  }

  lemma LoadedSomeFacts(e: Entry, e': Entry, f: Flash, i: Index)
    requires LoadedSome(e, e', f, i) && (Flagged(e) || e.first == 0)
    ensures Flagged(e') || e'.first == 0
    ensures Flagged(e') ==> Flagged(e) || Flagged(Loaded(f, i))
  {
    FlagBits(LowByte(RecordAt(f, FlagsKey(i))));
  }

  lemma CaptureInv(r: GoodRam, rom: GoodRom, failAt: nat)
    requires RamInv(r, rom)
    ensures var (r1, ok) := Capture(r, rom, failAt);
            && RamInv(r1, rom) && (ok ==> r1.legacyChecked)
            && r1 == r.(legacyChecked := r1.legacyChecked, legacyValid := r1.legacyValid, legacyFlags := r1.legacyFlags)
  {
    if rom.valid {
      assert rom.bytes[..LEGACY_COUNT] + r.legacyFlags[LEGACY_COUNT..] == rom.bytes;
    }
  }

  /** A load that succeeds leaves a state that agrees, or a snapshot is due. */
  lemma LoadOrPrepareInv(r: GoodRam, kv: Kv, rom: GoodRom, preserve: bool, io: LoadIo)
    requires RamInv(r, rom) && r.legacyChecked && kv.staged == []
    requires LegacyCase(kv.flash, rom) ==> forall i: Index :: !r.pending[i] ==> r.dtcs[i].first == 0
    requires !preserve ==> !r.clearPending && !HasPending(r)
    ensures var (r1, ok) := LoadOrPrepare(r, kv.flash, preserve, io);
            && RamInv(r1, rom) && r1.initialized == r.initialized
            && r1.storageReady == r.storageReady && r1.clearPending == r.clearPending
            && (!ok ==> LegacyCase(kv.flash, rom) ==>
                  forall i: Index :: !r1.pending[i] ==> r1.dtcs[i].first == 0)
            && (ok && !r1.schemaPending && !r1.clearPending ==> Always(kv, f => Agrees(r1, f)))
  {
    hide TakeSource, Recorded;
    var f := kv.flash;
    var (r1, ok) := LoadOrPrepare(r, f, preserve, io);
    if io.schemaOk && io.migratedOk {
      TakeSourceInv(r, f, rom, preserve, io.gets);
      if ok && !r1.schemaPending && !r1.clearPending {
        AlwaysEmpty(f, g => Agrees(r1, g));
      }
    }
  }

  lemma TakeSourceInv(r: GoodRam, f: Flash, rom: GoodRom, preserve: bool, gets: seq<bool>)
    requires RamInv(r, rom) && r.legacyChecked
    requires LegacyCase(f, rom) ==> forall i: Index :: !r.pending[i] ==> r.dtcs[i].first == 0
    requires !preserve ==> !r.clearPending && !HasPending(r)
    ensures var (r1, ok) := TakeSource(r, f, preserve, gets);
            && RamInv(r1, rom)
            && r1.initialized == r.initialized && r1.storageReady == r.storageReady && r1.clearPending == r.clearPending
            && (LegacyCase(f, rom) ==> ok)
            && (ok && HasMarkers(f) && !r1.clearPending ==>
                  forall i: Index :: !r1.pending[i] ==> Recorded(f, i, r1.dtcs[i]))
  {
    hide Loaded, LoadedSome, LoadFrom;
    if !UseLegacy(r, f) {
      LoadFromEffect(r, f, preserve, gets, 0);
      var (r2, ok) := LoadFrom(r, f, preserve, gets, 0);
      forall i: Index ensures Flagged(r2.dtcs[i]) || r2.dtcs[i].first == 0 {
        if r2.dtcs[i] != r.dtcs[i] {
          LoadedSomeFacts(r.dtcs[i], r2.dtcs[i], f, i);
        }
      }
      if ok {
        forall i: Index | r2.dtcs[i] == Loaded(f, i) ensures Recorded(f, i, r2.dtcs[i]) {
          LoadedIsNormal(f, i);
        }
      }
    }
  }

  // ---- batches --------------------------------------------------------------

  /** After a complete snapshot every entry agrees and nothing is staged. */
  lemma SnapshotAgrees(r: GoodRam, kv: Kv, markers: bool, io: BatchIo)
    requires SaveAll(r, kv, markers, io).1
    ensures var kv' := SaveAll(r, kv, markers, io).0;
            && Always(kv', f => Agrees(ClearMarks(r), f))
            && (markers ==> HasMarkers(kv'.flash))
  {
    BatchDone(kv, SnapshotOps(r.dtcs, markers), io);
    var g := ApplyAll(kv.flash, kv.staged);
    SnapshotRecords(g, r.dtcs, markers);
    AlwaysEmpty(ApplyAll(g, SnapshotOps(r.dtcs, markers)), f => Agrees(ClearMarks(r), f));
  }

  /** A failed snapshot breaks no entry that agreed: it rewrites what is there. */
  lemma SnapshotKeepsAgreement(r: GoodRam, kv: Kv, io: BatchIo)
    requires Always(kv, f => Agrees(r, f))
    ensures Always(SaveAll(r, kv, false, io).0, f => Agrees(r, f))
  {
    var ops := SnapshotOps(r.dtcs, false);
    var P := f => Agrees(r, f);
    forall g, k | 0 <= k < |ops| && P(g) ensures P(Apply(g, ops[k])) {
      SnapshotOpAt(r.dtcs, false, k);
      forall i: Index | !r.pending[i] ensures Recorded(Apply(g, ops[k]), i, r.dtcs[i]) {
        RewriteKeepsRecord(g, i, r.dtcs[i], k / 2, r.dtcs[k / 2], k % 2);
      }
    }
    BatchKeeps(kv, ops, io, P);
  }

  /** After a complete clear the entries without flags agree. */
  lemma ClearAgrees(r: GoodRam, kv: Kv, io: BatchIo)
    requires BatchEach(kv, ClearOps(COUNT), io).1
    requires forall i: Index :: !r.pending[i] ==> !Flagged(r.dtcs[i])
    ensures Always(BatchEach(kv, ClearOps(COUNT), io).0, f => Agrees(r, f))
  {
    hide BatchEach, ClearOps, Agrees;
    BatchDone(kv, ClearOps(COUNT), io);
    var g := ApplyAll(kv.flash, kv.staged);
    ClearOpsClear(g, COUNT);
    NothingRecorded(r, ApplyAll(g, ClearOps(COUNT)));
    AlwaysEmpty(ApplyAll(g, ClearOps(COUNT)), f => Agrees(r, f));
  }

  lemma NothingRecorded(r: GoodRam, f: Flash)
    requires forall i: Index :: !r.pending[i] ==> !Flagged(r.dtcs[i])
    requires forall i: Index :: FlagsKey(i) !in f && StampKey(i) !in f
    ensures Agrees(r, f)
  {
    hide FlagsKey, StampKey;
  }

  // ---- the calls --------------------------------------------------------------

  lemma InitInv(d: Dev, rom: GoodRom, io: BootIo)
    requires Inv(d, rom)
    ensures Inv(Init(d, rom, io), rom) && Init(d, rom, io).ram.initialized
  {
    if !d.ram.initialized {
      CaptureInv(d.ram, rom, io.init.failAt);
      var (r1, up) := OpenStorage(d.ram, rom, io.init);
      if up {
        var r1s := r1.(storageReady := true);
        LoadOrPrepareInv(r1s, d.kv, rom, false, io.load);
        var (r2, loaded) := LoadOrPrepare(r1s, d.kv.flash, false, io.load);
        if loaded && r2.schemaPending {
          var (kv', saved) := SaveAll(r2, d.kv, true, io.save);
          if saved {
            SnapshotAgrees(r2, d.kv, true, io.save);
            AlwaysSame(kv', ClearMarks(r2),
                       ClearMarks(r2).(schemaPending := false, clearPending := false, initialized := true));
          }
        } else if loaded && !r2.clearPending {
          AlwaysSame(d.kv, r2, r2.(initialized := true));
        }
      }
    }
  }

  /** Agreement depends on the table and the pending marks only. */
  lemma AlwaysSame(kv: Kv, r: GoodRam, r': GoodRam)
    requires Always(kv, f => Agrees(r, f))
    requires forall i: Index :: !r'.pending[i] ==> !r.pending[i] && Norm(r'.dtcs[i]) == Norm(r.dtcs[i])
    ensures Always(kv, f => Agrees(r', f))
  {
    forall n | 0 <= n <= |kv.staged| ensures Agrees(r', ApplyAll(kv.flash, kv.staged[..n])) {
      assert Agrees(r, ApplyAll(kv.flash, kv.staged[..n]));
    }
  }

  lemma SetActiveInv(d: Dev, rom: GoodRom, i: Index, active: bool, withDetail: bool, detail: U8, utc: U32,
                     now: U32, io: BatchIo)
    requires Inv(d, rom) && d.ram.initialized
    ensures Inv(SetActive(d, i, active, withDetail, detail, utc, now, io), rom)
  {
    hide Agrees, Batch, RecordOps;
    var (e, changed) := Report(d.ram.dtcs[i], active, withDetail, detail, utc);
    var r1 := d.ram.(dtcs := d.ram.dtcs[i := e]);
    var r2 := r1.(pending := r1.pending[i := true]);
    if Settled(d.ram) {
      if !changed {
        AlwaysSame(d.kv, d.ram, r1);
      } else {
        AlwaysSame(d.kv, d.ram, r2);
        SingleSave(r2, d.kv, i, io);
        var (kv', saved) := Batch(d.kv, RecordOps(i, e), io);
        if saved {
          assert r2.pending[i := false] == r1.pending[i := false];
          AlwaysSame(kv', r1.(pending := r1.pending[i := false]), r1.(pending := r1.pending[i := false]));
        } else {
          AlwaysSame(kv', r2, r2.(lastRetry := now));
        }
      }
    }
  }

  /** Saving one entry: it agrees on success, and no other entry is disturbed. */
  lemma SingleSave(r: GoodRam, kv: Kv, i: Index, io: BatchIo)
    requires Always(kv, f => Agrees(r, f)) && r.pending[i]
    ensures var (kv', saved) := Batch(kv, RecordOps(i, r.dtcs[i]), io);
            && Always(kv', f => Agrees(r, f))
            && (saved ==> Always(kv', f => Agrees(r.(pending := r.pending[i := false]), f)))
  {
    var ops := RecordOps(i, r.dtcs[i]);
    var P := f => Agrees(r, f);
    forall g, k | 0 <= k < |ops| && P(g) ensures P(Apply(g, ops[k])) {
      forall j: Index | !r.pending[j] ensures Recorded(Apply(g, ops[k]), j, r.dtcs[j]) {
        OtherKeysKeepRecord(g, ops[k], j);
      }
    }
    BatchKeeps(kv, ops, io, P);
    var (kv', saved) := Batch(kv, ops, io);
    if saved {
      BatchDone(kv, ops, io);
      RecordOpsRecord(ApplyAll(kv.flash, kv.staged), i, r.dtcs[i]);
      AlwaysNow(kv', P);
      AlwaysEmpty(kv'.flash, f => Agrees(r.(pending := r.pending[i := false]), f));
    }
  }

  lemma PollOpenInv(d: Dev, rom: GoodRom, io: PollIo)
    requires Inv(d, rom) && d.ram.initialized
    ensures var (d1, ok) := PollOpen(d, rom, io);
            Inv(d1, rom) && d1.ram.initialized && (ok ==> d1.ram.storageReady)
  {
    if !d.ram.storageReady {
      CaptureInv(d.ram, rom, io.init.failAt);
      var (r1, up) := OpenStorage(d.ram, rom, io.init);
      if up {
        LoadOrPrepareInv(r1.(storageReady := true), d.kv, rom, d.ram.clearPending || HasPending(d.ram), io.load);
      }
    }
  }

  lemma PollSchemaInv(d: Dev, rom: GoodRom, io: PollIo)
    requires Inv(d, rom) && d.ram.initialized && d.ram.storageReady
    ensures var (d1, ok) := PollSchema(d, io);
            Inv(d1, rom) && d1.ram.initialized && d1.ram.storageReady && (ok ==> !d1.ram.schemaPending)
  {
    if d.ram.schemaPending && SaveAll(d.ram, d.kv, true, io.schema).1 {
      var (kv', saved) := SaveAll(d.ram, d.kv, true, io.schema);
      SnapshotAgrees(d.ram, d.kv, true, io.schema);
      AlwaysSame(kv', ClearMarks(d.ram), ClearMarks(d.ram).(schemaPending := false, clearPending := false));
    }
  }

  lemma PollClearInv(d: Dev, rom: GoodRom, io: PollIo)
    requires Inv(d, rom) && d.ram.initialized && d.ram.storageReady && !d.ram.schemaPending
    ensures var (d1, ok) := PollClear(d, io);
            Inv(d1, rom) && d1.ram.storageReady && (ok ==> Settled(d1.ram))
  {
    if d.ram.clearPending && BatchEach(d.kv, ClearOps(COUNT), io.clear).1 {
      var (kv', cleared) := BatchEach(d.kv, ClearOps(COUNT), io.clear);
      ClearAgrees(d.ram, d.kv, io.clear);
      AlwaysSame(kv', d.ram, d.ram.(clearPending := false));
    }
  }

  lemma PollSaveInv(d: Dev, rom: GoodRom, io: PollIo)
    requires Inv(d, rom) && Settled(d.ram)
    ensures Inv(PollSave(d, io), rom) && Settled(PollSave(d, io).ram)
  {
    if HasPending(d.ram) {
      SnapshotKeepsAgreement(d.ram, d.kv, io.save);
      if SaveAll(d.ram, d.kv, false, io.save).1 {
        SnapshotAgrees(d.ram, d.kv, false, io.save);
      }
    }
  }

  lemma PollInv(d: Dev, rom: GoodRom, now: U32, io: PollIo)
    requires Inv(d, rom) && d.ram.initialized
    ensures Inv(Poll(d, rom, now, io), rom)
  {
    hide PollOpen, PollRest;
    if PollDue(d.ram, now) {
      var d0 := d.(ram := d.ram.(lastRetry := now));
      if Settled(d.ram) {
        AlwaysSame(d.kv, d.ram, d0.ram);
      }
      PollOpenInv(d0, rom, io);
      var (d1, ok1) := PollOpen(d0, rom, io);
      if ok1 {
        PollRestInv(d1, rom, io);
      }
    }
  }

  lemma PollRestInv(d: Dev, rom: GoodRom, io: PollIo)
    requires Inv(d, rom) && d.ram.initialized && d.ram.storageReady
    ensures Inv(PollRest(d, io), rom)
  {
    hide PollSchema, PollClear, PollSave, Agrees;
    PollSchemaInv(d, rom, io);
    var (d1, ok1) := PollSchema(d, io);
    if ok1 {
      PollClearInv(d1, rom, io);
      var (d2, ok2) := PollClear(d1, io);
      if ok2 {
        PollSaveInv(d2, rom, io);
      }
    }
  }

  lemma ClearAllInv(d: Dev, rom: GoodRom, now: U32, io: BatchIo)
    requires Inv(d, rom) && d.ram.initialized
    ensures Inv(ClearAll(d, now, io).0, rom)
  {
    var r := ResetAll(d.ram);
    if r.storageReady && !r.schemaPending && BatchEach(d.kv, ClearOps(COUNT), io).1 {
      ClearAgrees(r, d.kv, io);
      AlwaysSame(BatchEach(d.kv, ClearOps(COUNT), io).0, r, r.(clearPending := false));
    }
  }

  lemma StepInv(d: Dev, rom: GoodRom, ev: Event)
    requires Inv(d, rom)
    ensures Inv(Step(d, rom, ev), rom)
  {
    match ev
    case EvSet(i, active, withDetail, detail, utc, now, boot, io) =>
      InitInv(d, rom, boot);
      SetActiveInv(Init(d, rom, boot), rom, i, active, withDetail, detail, utc, now, io);
    case EvPoll(now, boot, poll) =>
      InitInv(d, rom, boot);
      PollInv(Init(d, rom, boot), rom, now, poll);
    case EvClear(now, boot, io) =>
      InitInv(d, rom, boot);
      ClearAllInv(Init(d, rom, boot), rom, now, io);
    case EvQuery(boot) => InitInv(d, rom, boot);
    case EvShared(commit) =>
      if Settled(d.ram) {
        AlwaysCommit(d.kv, commit, f => Agrees(d.ram, f));
      }
    case EvRestart(durable) =>
  }

  lemma {:induction false} RunInv(f: Flash, rom: GoodRom, evs: seq<Event>, ds: seq<Dev>, k: nat)
    requires IsRun(f, rom, evs, ds) && k < |ds|
    ensures Inv(ds[k], rom)
    decreases k
  {
    hide Inv, Step;
    if k == 0 {
      BootInv(f, rom);
    } else {
      RunInv(f, rom, evs, ds, k - 1);
      StepInv(ds[k - 1], rom, evs[k - 1]);
    }
  }

  // ---- main results -------------------------------------------------------------

  /** In every settled state d of every run, an entry that is not pending is
      recorded, now and after any staged write becomes durable; and loading its
      records gives exactly the runtime entry (but for `active`) if and only if
      the entry has a flag or no detail. */
  lemma ReachableAgreement(f: Flash, rom: GoodRom, evs: seq<Event>, ds: seq<Dev>, k: nat, i: Index, n: nat)
    requires IsRun(f, rom, evs, ds) && k < |ds|
    requires Settled(ds[k].ram) && !ds[k].ram.pending[i] && n <= |ds[k].kv.staged|
    ensures var e := ds[k].ram.dtcs[i];
            var g := ApplyAll(ds[k].kv.flash, ds[k].kv.staged[..n]);
            && Loaded(g, i) == Norm(e)
            && (Loaded(g, i) == e.(active := false) <==> Flagged(e) || e.detail == 0)
  {
    RunInv(f, rom, evs, ds, k);
    var d := ds[k];
    assert Agrees(d.ram, ApplyAll(d.kv.flash, d.kv.staged[..n]));
  }

  const GOOD_BATCH := BatchIo(true, [], CommitIo(true, 0, false), true)
  const GOOD_INIT := InitIo(true, 2 + LEGACY_COUNT, true)
  const GOOD_LOAD := LoadIo(true, true, [])
  const GOOD_POLL := PollIo(GOOD_INIT, GOOD_LOAD, GOOD_BATCH, GOOD_BATCH, GOOD_BATCH)

  const GOOD_BOOT := BootIo(0, GOOD_INIT, GOOD_LOAD, GOOD_BATCH)

  /** So a detail reported with a code that has no flag stays at run time but is
      lost by the next load: here on a store in order, with no call failing. */
  lemma DetailWithoutFlags(rom: GoodRom)
    ensures var f: Flash := map[SCHEMA_KEY := MARKER_VERSION, MIGRATED_KEY := MARKER_VERSION];
            var d1 := Step(Boot(f), rom, EvQuery(GOOD_BOOT));
            var d := Step(d1, rom, EvSet(0, false, true, 5, 0, 0, GOOD_BOOT, GOOD_BATCH));
            && Settled(d.ram) && !d.ram.pending[0]
            && d.ram.dtcs[0].detail == 5 && Loaded(d.kv.flash, 0).detail == 0
  {
    hide Init, SetActive, Loaded, Inv, Settled;
    var f: Flash := map[SCHEMA_KEY := MARKER_VERSION, MIGRATED_KEY := MARKER_VERSION];
    var d1 := Init(Boot(f), rom, GOOD_BOOT);
    BootInv(f, rom);
    InitInv(Boot(f), rom, GOOD_BOOT);
    GoodBootOfEmpty(f, rom);
    InitTwice(d1, rom);
    DetailReport(d1, rom);
  }

  lemma BootInv(f: Flash, rom: GoodRom)
    ensures Inv(Boot(f), rom)
  {
  }

  lemma InitTwice(d: Dev, rom: GoodRom)
    requires RamShape(d.ram) && d.ram.initialized
    ensures Init(d, rom, GOOD_BOOT) == d
  {
  }

  lemma DetailReport(d: Dev, rom: GoodRom)
    requires Inv(d, rom) && d.ram.initialized && Settled(d.ram) && d.ram.dtcs[0] == EMPTY
    ensures var d' := SetActive(d, 0, false, true, 5, 0, 0, GOOD_BATCH);
            && Settled(d'.ram) && !d'.ram.pending[0]
            && d'.ram.dtcs[0].detail == 5 && Loaded(d'.kv.flash, 0).detail == 0
  {
    var e := EMPTY.(detail := 5);
    assert Report(EMPTY, false, true, 5, 0) == (e, true);
    GoodBatch(d.kv, RecordOps(0, e));
    SetActiveInv(d, rom, 0, false, true, 5, 0, 0, GOOD_BATCH);
    var d' := SetActive(d, 0, false, true, 5, 0, 0, GOOD_BATCH);
    AlwaysNow(d'.kv, g => Agrees(d'.ram, g));
    assert Recorded(d'.kv.flash, 0, d'.ram.dtcs[0]);
  }

  lemma GoodBootOfEmpty(f: Flash, rom: GoodRom)
    requires HasMarkers(f) && FlagsKey(0) !in f
    ensures var r := Init(Boot(f), rom, GOOD_BOOT).ram;
            r.initialized && Settled(r) && !r.pending[0] && r.dtcs[0] == EMPTY
  {
    hide LoadEntry, LoadFrom;
    var r0 := PowerUp();
    CaptureInv(r0, rom, GOOD_INIT.failAt);
    var r1 := Capture(r0, rom, GOOD_INIT.failAt).0;
    assert OpenStorage(r0, rom, GOOD_INIT) == (r1, true);
    var r2 := r1.(storageReady := true);
    GoodLoad(r2, f, false, 0);
    LoadFromEffect(r2, f, false, [], 0);
    var r3 := LoadFrom(r2, f, false, [], 0).0;
    assert LoadOrPrepare(r2, f, false, GOOD_LOAD) == (r3.(schemaPending := false), true);
    assert r3.dtcs[0] == Loaded(f, 0) == EMPTY;
    assert Init(Boot(f), rom, GOOD_BOOT).ram == r3.(schemaPending := false, initialized := true);
  }

  /** A poll that is due and whose storage calls all succeed leaves nothing
      pending, whatever failed before, and every entry recorded; also as the first
      call, whatever the init it makes first meets. */
  lemma GoodPollSettles(f: Flash, rom: GoodRom, evs: seq<Event>, ds: seq<Dev>, k: nat, now: U32, boot: BootIo)
    requires IsRun(f, rom, evs, ds) && k < |ds|
    requires Sub32(now, Init(ds[k], rom, boot).ram.lastRetry) >= RETRY_MS
    ensures var d := Step(ds[k], rom, EvPoll(now, boot, GOOD_POLL));
            && Settled(d.ram) && !HasPending(d.ram)
            && forall i: Index :: Recorded(d.kv.flash, i, d.ram.dtcs[i])
  {
    hide Poll, Init;
    RunInv(f, rom, evs, ds, k);
    InitInv(ds[k], rom, boot);
    GoodPoll(Init(ds[k], rom, boot), rom, now);
  }

  lemma GoodPoll(d: Dev, rom: GoodRom, now: U32)
    requires Inv(d, rom) && d.ram.initialized && Sub32(now, d.ram.lastRetry) >= RETRY_MS
    ensures var d' := Poll(d, rom, now, GOOD_POLL);
            && Settled(d'.ram) && !HasPending(d'.ram)
            && forall i: Index :: Recorded(d'.kv.flash, i, d'.ram.dtcs[i])
  {
    hide PollOpen, PollRest, Recorded;
    if PollDue(d.ram, now) {
      var d0 := d.(ram := d.ram.(lastRetry := now));
      if Settled(d.ram) {
        AlwaysSame(d.kv, d.ram, d0.ram);
      }
      GoodOpen(d0, rom);
      PollOpenInv(d0, rom, GOOD_POLL);
      GoodRest(PollOpen(d0, rom, GOOD_POLL).0, rom);
    } else {
      AlwaysNow(d.kv, g => Agrees(d.ram, g));
    }
  }

  lemma GoodBatch(kv: Kv, ops: seq<Op>)
    ensures Batch(kv, ops, GOOD_BATCH).1 && BatchEach(kv, ops, GOOD_BATCH).1
  {
    StageFromAllOk(kv.staged, ops, 0);
  }

  lemma GoodRest(d: Dev, rom: GoodRom)
    requires Inv(d, rom) && d.ram.initialized && d.ram.storageReady
    ensures var d' := PollRest(d, GOOD_POLL);
            && Settled(d'.ram) && !HasPending(d'.ram)
            && forall i: Index :: Recorded(d'.kv.flash, i, d'.ram.dtcs[i])
  {
    GoodBatch(d.kv, SnapshotOps(d.ram.dtcs, true));
    PollSchemaInv(d, rom, GOOD_POLL);
    var d2 := PollSchema(d, GOOD_POLL).0;
    GoodBatch(d2.kv, ClearOps(COUNT));
    PollClearInv(d2, rom, GOOD_POLL);
    var d3 := PollClear(d2, GOOD_POLL).0;
    GoodBatch(d3.kv, SnapshotOps(d3.ram.dtcs, false));
    PollSaveInv(d3, rom, GOOD_POLL);
    var d' := PollSave(d3, GOOD_POLL);
    AlwaysNow(d'.kv, g => Agrees(d'.ram, g));
  }

  lemma GoodOpen(d: Dev, rom: GoodRom)
    requires Inv(d, rom) && d.ram.initialized
    ensures PollOpen(d, rom, GOOD_POLL).1
  {
    hide OpenStorage, LoadOrPrepare, HasPending, Agrees;
    GoodStart(d.ram, rom);
    var r1 := OpenStorage(d.ram, rom, GOOD_INIT).0.(storageReady := true);
    GoodPrepare(r1, d.kv.flash, d.ram.clearPending || HasPending(d.ram));
  }

  lemma GoodStart(r: GoodRam, rom: GoodRom)
    ensures OpenStorage(r, rom, GOOD_INIT).1
  {
  }

  lemma GoodPrepare(r: GoodRam, f: Flash, preserve: bool)
    ensures LoadOrPrepare(r, f, preserve, GOOD_LOAD).1
  {
    hide LoadFrom, ApplyLegacy, ResetAll, MarkAll, UseLegacy;
    GoodLoad(r, f, preserve, 0);
  }

  lemma {:induction false} GoodLoad(r: GoodRam, f: Flash, skip: bool, i: nat)
    requires i <= COUNT
    ensures LoadFrom(r, f, skip, [], i).1
    decreases COUNT - i
  {
    hide LoadEntry, Loaded;
    if i < COUNT {
      if skip && r.pending[i] {
        GoodLoad(r, f, skip, i + 1);
      } else {
        LoadForgets(r.dtcs[i], f, i);
        GoodLoad(r.(dtcs := r.dtcs[i := Loaded(f, i)]), f, skip, i + 1);
      }
    }
  }
}
