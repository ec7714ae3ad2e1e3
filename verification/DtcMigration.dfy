/**
 * Flags last: the one-time migration from the older storage loses no legacy flag
 * to a stop after any write, nothing loses a stored one but a clear, and the one
 * report that can lose either is characterised.
 */
module DtcMigration {
  import opened Words
  import opened KvStore
  import opened DtcSpec
  import opened DtcBatches
  import opened DtcAgreement

  /** Entry e shows every flag of legacy byte b. */
  predicate Shows(e: Entry, b: U8) {
    (StoredBit(b) ==> e.stored) && (PermanentBit(b) ==> e.permanent)
  }

  /** The flags of a are among those of the entry. */
  predicate Holds(e: Entry, a: (bool, bool)) { (a.0 ==> e.stored) && (a.1 ==> e.permanent) }

  predicate AnyMarker(f: Flash) { Marker(f, SCHEMA_KEY) || Marker(f, MIGRATED_KEY) }

  /** Flags of an entry that are to last: those of its legacy byte, which a store
      with a marker must hold; or, of a store that has both markers, those it holds. */
  datatype Goal = Goal(entry: Index, flags: U8, marked: bool)

  predicate Sensible(goal: Goal, rom: GoodRom) {
    !goal.marked ==> rom.valid && goal.entry < LEGACY_COUNT && goal.flags == rom.bytes[goal.entry]
  }

  predicate Kept(f: Flash, goal: Goal) {
    if goal.marked then HasMarkers(f) && Shows(Loaded(f, goal.entry), goal.flags)
    else AnyMarker(f) ==> Shows(Loaded(f, goal.entry), goal.flags)
  }

  ghost predicate MigInv(d: Dev, goal: Goal)
    requires RamShape(d.ram)
  {
    && !d.ram.clearPending
    && Always(d.kv, f => Kept(f, goal))
    && (d.ram.storageReady || d.ram.pending[goal.entry] ==> Shows(d.ram.dtcs[goal.entry], goal.flags))
  }

  /** A call that cannot lose a flag of entry j: no clear, and before the storage
      is up no new detail with its code while inactive. */
  predicate Quiet(d: Dev, rom: GoodRom, ev: Event, j: Index)
    requires RamShape(d.ram)
  {
    match ev
    case EvClear(_, _, _) => false
    case EvSet(i, active, withDetail, detail, _, _, boot, _) =>
      var r := Init(d, rom, boot).ram;
      i != j || active || !withDetail || r.storageReady || detail == r.dtcs[i].detail
    case _ => true
  }

  lemma FlagsAreBits(f: Flash, j: Index)
    ensures var b := LowByte(RecordAt(f, FlagsKey(j)));
            Loaded(f, j).stored == StoredBit(b) && Loaded(f, j).permanent == PermanentBit(b)
  {
    FlagBits(LowByte(RecordAt(f, FlagsKey(j))));
  }

  /** The first write of an entry gives it its flags, the second leaves them. */
  lemma FlagsAfterOp(f: Flash, i: Index, e: Entry, k: nat)
    requires k < 2
    ensures var after := Loaded(Apply(f, RecordOps(i, e)[k]), i);
            var flags := if k == 0 then e else Loaded(f, i);
            after.stored == flags.stored && after.permanent == flags.permanent
  {
    hide Loaded, LowByte, StoredBit, PermanentBit, Word;
    FlagsAreBits(f, i);
    FlagsAreBits(Apply(f, RecordOps(i, e)[k]), i);
    WordDecodes(e);
  }

  lemma MarkersAfterOp(f: Flash, i: Index, e: Entry, k: nat)
    requires k < 2
    ensures var g := Apply(f, RecordOps(i, e)[k]);
            HasMarkers(g) == HasMarkers(f) && AnyMarker(g) == AnyMarker(f)
  {
  }

  lemma LoadedAfterOp(f: Flash, i: Index, e: Entry, k: nat, goal: Goal)
    requires k < 2 && (i == goal.entry ==> Shows(e, goal.flags))
    requires Kept(f, goal)
    ensures Kept(Apply(f, RecordOps(i, e)[k]), goal)
  {
    hide Loaded, HasMarkers, AnyMarker, Apply, StoredBit, PermanentBit, Word;
    MarkersAfterOp(f, i, e, k);
    if goal.entry != i {
      OtherKeysKeepRecord(f, RecordOps(i, e)[k], goal.entry);
    } else {
      FlagsAfterOp(f, i, e, k);
    }
  }

  /** Every prefix of a full snapshot keeps the migration safe: the markers come
      after all records, the schema last. */
  lemma SnapshotPrefixSafe(g: Flash, dtcs: seq<Entry>, markers: bool, k: nat, goal: Goal)
    requires |dtcs| == COUNT && Shows(dtcs[goal.entry], goal.flags) && Kept(g, goal)
    requires k <= |SnapshotOps(dtcs, markers)|
    ensures Kept(ApplyAll(g, SnapshotOps(dtcs, markers)[..k]), goal)
  {
    hide Kept, Shows, Loaded, Norm;
    var ops := SnapshotOps(dtcs, markers);
    RecordsOpsLength(dtcs, COUNT);
    if goal.marked || k <= 2 * COUNT {
      var P := f => Kept(f, goal);
      forall f, m | 0 <= m < k && P(f) ensures P(Apply(f, ops[..k][m])) {
        SnapshotOpAt(dtcs, markers, m);
        if m < 2 * COUNT {
          LoadedAfterOp(f, m / 2, dtcs[m / 2], m % 2, goal);
        } else {
          MarkerKeeps(f, m - 2 * COUNT, goal);
        }
      }
      KeptByEach(g, ops[..k], P);
    } else {
      var body := RecordsOps(dtcs, COUNT);
      var h := ApplyAll(g, body);
      RecordsOpsRecord(g, dtcs, COUNT);
      assert Recorded(h, goal.entry, dtcs[goal.entry]);
      var tail := MARKER_OPS[..k - 2 * COUNT];
      assert ops[..k] == body + tail;
      ApplyAllConcat(g, body, tail);
      RecordedShows(h, dtcs[goal.entry], goal);
      var P := f => Shows(Loaded(f, goal.entry), goal.flags);
      forall f, m | 0 <= m < |tail| && P(f) ensures P(Apply(f, tail[m])) {
        OtherKeysKeepRecord(f, tail[m], goal.entry);
      }
      KeptByEach(h, tail, P);
      ShownIsKept(ApplyAll(h, tail), goal);
    }
  }

  /** In a marked store writing a marker again changes nothing. */
  lemma MarkerKeeps(f: Flash, m: nat, goal: Goal)
    requires m < |MARKER_OPS| && goal.marked && Kept(f, goal)
    ensures Kept(Apply(f, MARKER_OPS[m]), goal)
  {
    OtherKeysKeepRecord(f, MARKER_OPS[m], goal.entry);
  }

  lemma ShownIsKept(f: Flash, goal: Goal)
    requires !goal.marked && Shows(Loaded(f, goal.entry), goal.flags)
    ensures Kept(f, goal)
  {
  }

  lemma RecordedShows(f: Flash, e: Entry, goal: Goal)
    requires Shows(e, goal.flags) && Recorded(f, goal.entry, e)
    ensures Shows(Loaded(f, goal.entry), goal.flags)
  {
  }

  lemma SnapshotMig(r: GoodRam, kv: Kv, markers: bool, io: BatchIo, goal: Goal)
    requires Shows(r.dtcs[goal.entry], goal.flags) && Always(kv, f => Kept(f, goal))
    ensures Always(SaveAll(r, kv, markers, io).0, f => Kept(f, goal))
  {
    hide Kept, Shows, SnapshotOps;
    var P := f => Kept(f, goal);
    AlwaysNow(kv, P);
    var g := ApplyAll(kv.flash, kv.staged);
    var ops := SnapshotOps(r.dtcs, markers);
    forall k | 0 <= k <= |ops| ensures P(ApplyAll(g, ops[..k])) {
      SnapshotPrefixSafe(g, r.dtcs, markers, k, goal);
    }
    BatchAlways(kv, ops, io, P);
  }

  lemma SingleMig(kv: Kv, i: Index, e: Entry, io: BatchIo, goal: Goal)
    requires (i == goal.entry ==> Shows(e, goal.flags)) && Always(kv, f => Kept(f, goal))
    ensures Always(Batch(kv, RecordOps(i, e), io).0, f => Kept(f, goal))
  {
    var P := f => Kept(f, goal);
    forall g, k | 0 <= k < 2 && P(g) ensures P(Apply(g, RecordOps(i, e)[k])) {
      LoadedAfterOp(g, i, e, k, goal);
    }
    BatchKeeps(kv, RecordOps(i, e), io, P);
  }

  /** A load that succeeds brings up every legacy flag, from either source. */
  lemma LoadShows(r: GoodRam, f: Flash, preserve: bool, io: LoadIo, rom: GoodRom, goal: Goal)
    requires RamInv(r, rom) && Sensible(goal, rom) && r.legacyChecked && !r.clearPending && Kept(f, goal)
    requires !preserve ==> !HasPending(r)
    requires r.pending[goal.entry] ==> Shows(r.dtcs[goal.entry], goal.flags)
    ensures var (r1, ok) := LoadOrPrepare(r, f, preserve, io);
            && !r1.clearPending
            && (ok || r1.pending[goal.entry] ==> Shows(r1.dtcs[goal.entry], goal.flags))
  {
    hide LoadFrom, Loaded, LoadedSome, Shows;
    if io.schemaOk && io.migratedOk {
      if UseLegacy(r, f) {
        LegacyShows(r, preserve, goal);
      } else {
        LoadFromEffect(r, f, preserve, io.gets, 0);
        var (r2, ok) := LoadFrom(r, f, preserve, io.gets, 0);
        if ok {
          assert r.pending[goal.entry] || r2.dtcs[goal.entry] == Loaded(f, goal.entry);
        }
      }
    }
  }

  lemma LegacyShows(r: GoodRam, preserve: bool, goal: Goal)
    requires r.legacyValid && goal.entry < LEGACY_COUNT && r.legacyFlags[goal.entry] == goal.flags
    requires r.pending[goal.entry] ==> Shows(r.dtcs[goal.entry], goal.flags)
    ensures Shows(ApplyLegacy(if preserve then r else ResetAll(r), preserve).dtcs[goal.entry], goal.flags)
  {
  }

  lemma InitMig(d: Dev, rom: GoodRom, io: BootIo, goal: Goal)
    requires Inv(d, rom) && Sensible(goal, rom) && MigInv(d, goal)
    ensures MigInv(Init(d, rom, io), goal)
  {
    hide LoadOrPrepare, SaveAll, Shows, Kept, Always;
    if !d.ram.initialized {
      CaptureInv(d.ram, rom, io.init.failAt);
      var (r1, up) := OpenStorage(d.ram, rom, io.init);
      if up {
        AlwaysNow(d.kv, f => Kept(f, goal));
        var r1s := r1.(storageReady := true);
        LoadShows(r1s, d.kv.flash, false, io.load, rom, goal);
        var (r2, loaded) := LoadOrPrepare(r1s, d.kv.flash, false, io.load);
        if loaded && r2.schemaPending {
          SnapshotMig(r2, d.kv, true, io.save, goal);
        }
      }
    }
  }

  lemma SetActiveMig(d: Dev, rom: GoodRom, i: Index, active: bool, withDetail: bool, detail: U8, utc: U32,
                     now: U32, io: BatchIo, goal: Goal)
    requires Inv(d, rom) && Sensible(goal, rom) && MigInv(d, goal)
    requires i != goal.entry || active || !withDetail || d.ram.storageReady || detail == d.ram.dtcs[i].detail
    ensures MigInv(SetActive(d, i, active, withDetail, detail, utc, now, io), goal)
  {
    hide Batch, Kept, Always, RecordOps;
    var (e, changed) := Report(d.ram.dtcs[i], active, withDetail, detail, utc);
    if Settled(d.ram) && changed {
      SingleMig(d.kv, i, e, io, goal);
    }
  }

  lemma PollMig(d: Dev, rom: GoodRom, now: U32, io: PollIo, goal: Goal)
    requires Inv(d, rom) && d.ram.initialized && Sensible(goal, rom) && MigInv(d, goal)
    ensures MigInv(Poll(d, rom, now, io), goal)
  {
    hide PollOpen, SaveAll, Shows, Kept, Always, Agrees;
    if PollDue(d.ram, now) {
      var d0 := d.(ram := d.ram.(lastRetry := now));
      if Settled(d.ram) {
        AlwaysSame(d.kv, d.ram, d0.ram);
      }
      PollOpenInv(d0, rom, io);
      PollOpenMig(d0, rom, io, goal);
      var (d1, ok1) := PollOpen(d0, rom, io);
      if ok1 {
        PollRestMig(d1, io, goal);
      }
    }
  }

  lemma PollRestMig(d: Dev, io: PollIo, goal: Goal)
    requires RamShape(d.ram) && d.ram.storageReady && MigInv(d, goal)
    ensures var (d1, ok1) := PollSchema(d, io);
            && MigInv(d1, goal)
            && !d1.ram.clearPending
            && MigInv(PollSave(d1, io), goal)
  {
    hide SaveAll, Shows, Kept, Always;
    if d.ram.schemaPending {
      SnapshotMig(d.ram, d.kv, true, io.schema, goal);
    }
    var d1 := PollSchema(d, io).0;
    if HasPending(d1.ram) {
      SnapshotMig(d1.ram, d1.kv, false, io.save, goal);
    }
  }

  lemma PollOpenMig(d: Dev, rom: GoodRom, io: PollIo, goal: Goal)
    requires Inv(d, rom) && d.ram.initialized && Sensible(goal, rom) && MigInv(d, goal)
    ensures MigInv(PollOpen(d, rom, io).0, goal)
    ensures PollOpen(d, rom, io).1 ==> PollOpen(d, rom, io).0.ram.storageReady
  {
    hide LoadOrPrepare, Shows, Kept;
    if !d.ram.storageReady {
      CaptureInv(d.ram, rom, io.init.failAt);
      var (r1, up) := OpenStorage(d.ram, rom, io.init);
      if up {
        AlwaysNow(d.kv, f => Kept(f, goal));
        LoadShows(r1.(storageReady := true), d.kv.flash, HasPending(d.ram), io.load, rom, goal);
      }
    }
  }

  lemma StepMig(d: Dev, rom: GoodRom, ev: Event, goal: Goal)
    requires Inv(d, rom) && Sensible(goal, rom) && MigInv(d, goal) && Quiet(d, rom, ev, goal.entry)
    ensures MigInv(Step(d, rom, ev), goal)
  {
    hide Init, SetActive, Poll, Shows, Kept;
    match ev
    case EvSet(i, active, withDetail, detail, utc, now, boot, io) =>
      InitInv(d, rom, boot);
      InitMig(d, rom, boot, goal);
      SetActiveMig(Init(d, rom, boot), rom, i, active, withDetail, detail, utc, now, io, goal);
    case EvPoll(now, boot, poll) =>
      InitInv(d, rom, boot);
      InitMig(d, rom, boot, goal);
      PollMig(Init(d, rom, boot), rom, now, poll, goal);
    case EvQuery(boot) => InitMig(d, rom, boot, goal);
    case EvShared(commit) => AlwaysCommit(d.kv, commit, f => Kept(f, goal));
    case EvRestart(durable) => AlwaysCommit(d.kv, CommitIo(false, durable, false), f => Kept(f, goal));
  }

  lemma BootMig(f: Flash, goal: Goal)
    requires Kept(f, goal)
    ensures MigInv(Boot(f), goal)
  {
    AlwaysEmpty(f, g => Kept(g, goal));
  }

  lemma {:induction false} RunMig(f: Flash, rom: GoodRom, evs: seq<Event>, ds: seq<Dev>, k: nat, goal: Goal)
    requires IsRun(f, rom, evs, ds) && k < |ds| && Sensible(goal, rom) && Kept(f, goal)
    requires forall n {:trigger evs[n]} :: 0 <= n < k ==> Quiet(ds[n], rom, evs[n], goal.entry)
    ensures MigInv(ds[k], goal)
    decreases k
  {
    hide Inv, Step, MigInv, Quiet;
    if k == 0 {
      BootMig(f, goal);
    } else {
      var ev := evs[k - 1];
      RunMig(f, rom, evs, ds, k - 1, goal);
      RunInv(f, rom, evs, ds, k - 1);
      StepMig(ds[k - 1], rom, ev, goal);
    }
  }

  /** Entry by entry, from a store without markers, in any run of calls that are
      quiet for the entry, with stops after any write: once the storage is up the
      entry shows every legacy flag, and whenever a marker is durable, now or by
      any staged write, so is every legacy flag of the entry. */
  lemma MigrationKeepsLegacyFlags(f: Flash, rom: GoodRom, evs: seq<Event>, ds: seq<Dev>, k: nat, n: nat, j: Index)
    requires IsRun(f, rom, evs, ds) && k < |ds| && rom.valid && j < LEGACY_COUNT && !AnyMarker(f)
    requires forall m {:trigger evs[m]} :: 0 <= m < k ==> Quiet(ds[m], rom, evs[m], j)
    requires n <= |ds[k].kv.staged|
    ensures ds[k].ram.storageReady ==> Shows(ds[k].ram.dtcs[j], rom.bytes[j])
    ensures var g := ApplyAll(ds[k].kv.flash, ds[k].kv.staged[..n]);
            AnyMarker(g) ==> Shows(Loaded(g, j), rom.bytes[j])
  {
    var goal := Goal(j, rom.bytes[j], false);
    RunMig(f, rom, evs, ds, k, goal);
    assert Kept(ApplyAll(ds[k].kv.flash, ds[k].kv.staged[..n]), goal);
  }

  /** Nothing stored is lost without a clear: from a store with both markers, in
      any run of calls that are quiet for the entry, with stops and failures of any
      write, every flag the store held for the entry is in the table whenever the
      storage is up, and in every store that may still become durable. */
  lemma StoredFlagsLast(f: Flash, rom: GoodRom, evs: seq<Event>, ds: seq<Dev>, k: nat, n: nat, j: Index)
    requires IsRun(f, rom, evs, ds) && k < |ds| && HasMarkers(f)
    requires forall m {:trigger evs[m]} :: 0 <= m < k ==> Quiet(ds[m], rom, evs[m], j)
    requires n <= |ds[k].kv.staged|
    ensures var flags := (Loaded(f, j).stored, Loaded(f, j).permanent);
            var g := ApplyAll(ds[k].kv.flash, ds[k].kv.staged[..n]);
            && (ds[k].ram.storageReady ==> Holds(ds[k].ram.dtcs[j], flags))
            && HasMarkers(g) && Holds(Loaded(g, j), flags)
  {
    var goal := Goal(j, LowByte(RecordAt(f, FlagsKey(j))), true);
    FlagsAreBits(f, j);
    RunMig(f, rom, evs, ds, k, goal);
    assert Kept(ApplyAll(ds[k].kv.flash, ds[k].kv.staged[..n]), goal);
  }

  /** The schema marker is durable only together with the migration marker, if
      the store began without it. */
  lemma SchemaMarkerIsLast(g: Flash, dtcs: seq<Entry>, k: nat)
    requires |dtcs| == COUNT && !Marker(g, SCHEMA_KEY) && k <= |SnapshotOps(dtcs, true)|
    ensures Marker(ApplyAll(g, SnapshotOps(dtcs, true)[..k]), SCHEMA_KEY) ==> k == |SnapshotOps(dtcs, true)|
  {
    var ops := SnapshotOps(dtcs, true);
    RecordsOpsLength(dtcs, COUNT);
    if k < |ops| {
      forall f, m | 0 <= m < k && !Marker(f, SCHEMA_KEY) ensures !Marker(Apply(f, ops[..k][m]), SCHEMA_KEY) {
        SnapshotOpAt(dtcs, true, m);
      }
      KeptByEach(g, ops[..k], f => !Marker(f, SCHEMA_KEY));
    }
  }

  // ---- the report that loses a flag -----------------------------------------------

  /** The flags a load would bring up for entry i. */
  function SourceFlags(f: Flash, rom: GoodRom, i: Index): (bool, bool) {
    if LegacyCase(f, rom) then
      if i < LEGACY_COUNT then (StoredBit(rom.bytes[i]), PermanentBit(rom.bytes[i])) else (false, false)
    else (Loaded(f, i).stored, Loaded(f, i).permanent)
  }

  /** While the storage is down, one report of entry i, then a poll that works:
      the flags in the source are kept exactly when the code was active, or the
      report left the entry unmarked, or the entry showed them already. Otherwise
      the entry is left with the flags it showed, in the table and in the store,
      for good. */
  lemma ReportBeforeStorage(d: Dev, rom: GoodRom, i: Index, active: bool, withDetail: bool, detail: U8,
                            utc: U32, t: U32, now: U32)
    requires Inv(d, rom) && d.ram.initialized && !d.ram.storageReady && !d.ram.clearPending
    requires Sub32(now, d.ram.lastRetry) >= RETRY_MS
    ensures var d1 := SetActive(d, i, active, withDetail, detail, utc, t, GOOD_BATCH);
            var d2 := Poll(d1, rom, now, GOOD_POLL);
            var e, e2 := d.ram.dtcs[i], d2.ram.dtcs[i];
            var source := SourceFlags(d.kv.flash, rom, i);
            var unmarked := !d.ram.pending[i] && (!withDetail || detail == e.detail);
            && (Holds(e2, source) <==> active || unmarked || Holds(e, source))
            && (!Holds(e2, source) ==> (e2.stored, e2.permanent) == (e.stored, e.permanent))
            && Recorded(d2.kv.flash, i, e2) && HasMarkers(d2.kv.flash)
  {
    hide SetActive, Poll, Recorded, Agrees, Loaded, HasMarkers, LegacyCase;
    var d1 := SetActive(d, i, active, withDetail, detail, utc, t, GOOD_BATCH);
    SetActiveInv(d, rom, i, active, withDetail, detail, utc, t, GOOD_BATCH);
    ReportMarks(d, i, active, withDetail, detail, utc, t);
    GoodPollTakes(d1, rom, i, now);
  }

  /** While the storage is down a report is kept in the table alone, its entry
      marked if anything stored changed. */
  lemma ReportMarks(d: Dev, i: Index, active: bool, withDetail: bool, detail: U8, utc: U32, t: U32)
    requires RamShape(d.ram) && !d.ram.storageReady
    ensures var d1 := SetActive(d, i, active, withDetail, detail, utc, t, GOOD_BATCH);
            var (e, changed) := Report(d.ram.dtcs[i], active, withDetail, detail, utc);
            d1.kv == d.kv
            && d1.ram == d.ram.(dtcs := d.ram.dtcs[i := e], pending := d.ram.pending[i := d.ram.pending[i] || changed])
  {
    hide Batch;
  }

  /** A poll that works brings the storage up: a marked entry stays as it is, any
      other shows the flags of the source and is inactive, but for one the legacy
      bytes do not have; all are recorded. */
  lemma GoodPollTakes(d: Dev, rom: GoodRom, i: Index, now: U32)
    requires Inv(d, rom) && d.ram.initialized && !d.ram.storageReady && !d.ram.clearPending
    requires Sub32(now, d.ram.lastRetry) >= RETRY_MS
    ensures var d1 := Poll(d, rom, now, GOOD_POLL);
            && (d.ram.pending[i] ==> d1.ram.dtcs[i] == d.ram.dtcs[i])
            && (!d.ram.pending[i] && !(LegacyCase(d.kv.flash, rom) && i >= LEGACY_COUNT) ==>
                  && (d1.ram.dtcs[i].stored, d1.ram.dtcs[i].permanent) == SourceFlags(d.kv.flash, rom, i)
                  && !d1.ram.dtcs[i].active)
            && (!d.ram.pending[i] && LegacyCase(d.kv.flash, rom) && i >= LEGACY_COUNT ==>
                  d1.ram.dtcs[i] == if HasPending(d.ram) then d.ram.dtcs[i] else EMPTY)
            && Recorded(d1.kv.flash, i, d1.ram.dtcs[i]) && HasMarkers(d1.kv.flash)
  {
    hide PollOpen, PollRest, Recorded, HasMarkers, LegacyCase, SourceFlags, Agrees;
    GoodPoll(d, rom, now);
    var d0 := d.(ram := d.ram.(lastRetry := now));
    GoodOpen(d0, rom);
    PollOpenInv(d0, rom, GOOD_POLL);
    OpenTakesSource(d0, rom, i);
    GoodPollEntry(PollOpen(d0, rom, GOOD_POLL).0, i);
  }

  const STORAGE_DOWN := BootIo(0, InitIo(false, 0, false), GOOD_LOAD, GOOD_BATCH)

  /** An input that loses a flag: the storage is down at the start of a device
      whose store holds the first code, a detail of that code comes in while it is
      inactive, and the next poll brings the storage up. */
  lemma FlagLost(rom: GoodRom)
    ensures var f: Flash := map[FlagsKey(0) := 1, SCHEMA_KEY := MARKER_VERSION, MIGRATED_KEY := MARKER_VERSION];
            var d1 := Step(Boot(f), rom, EvQuery(STORAGE_DOWN));
            var d2 := Step(d1, rom, EvSet(0, false, true, 5, 0, 0, STORAGE_DOWN, GOOD_BATCH));
            var d3 := Step(d2, rom, EvPoll(RETRY_MS, STORAGE_DOWN, GOOD_POLL));
            && Loaded(f, 0).stored
            && !Flagged(d3.ram.dtcs[0]) && !Flagged(Loaded(d3.kv.flash, 0)) && HasMarkers(d3.kv.flash)
  {
    hide Poll, SetActive, Inv, RecordAt, LegacyCase;
    var f: Flash := map[FlagsKey(0) := 1, SCHEMA_KEY := MARKER_VERSION, MIGRATED_KEY := MARKER_VERSION];
    var d1 := Init(Boot(f), rom, STORAGE_DOWN);
    BootInv(f, rom);
    InitInv(Boot(f), rom, STORAGE_DOWN);
    assert d1.ram.initialized && !d1.ram.storageReady && d1.ram.dtcs[0] == EMPTY && d1.kv == Kv(f, []);
    FirstStored(f, rom);
    ReportBeforeStorage(d1, rom, 0, false, true, 5, 0, 0, RETRY_MS);
    ReportKeepsInit(d1);
  }

  lemma FirstStored(f: Flash, rom: GoodRom)
    requires FlagsKey(0) in f && f[FlagsKey(0)] == 1 && HasMarkers(f)
    ensures Loaded(f, 0).stored && SourceFlags(f, rom, 0) == (true, false)
  {
  }

  lemma ReportKeepsInit(d: Dev)
    requires RamShape(d.ram)
    ensures SetActive(d, 0, false, true, 5, 0, 0, GOOD_BATCH).ram.initialized == d.ram.initialized
  {
    hide Batch;
  }

  /** The storage comes up: an entry that is not pending takes the flags of the
      store, a pending one keeps its own. */
  lemma OpenTakesSource(d: Dev, rom: GoodRom, i: Index)
    requires Inv(d, rom) && d.ram.initialized && !d.ram.storageReady && !d.ram.clearPending
    ensures var r := PollOpen(d, rom, GOOD_POLL).0.ram;
            && !r.clearPending
            && (!d.ram.pending[i] && !(LegacyCase(d.kv.flash, rom) && i >= LEGACY_COUNT) ==>
                  && (r.dtcs[i].stored, r.dtcs[i].permanent) == SourceFlags(d.kv.flash, rom, i)
                  && !r.dtcs[i].active)
            && (!d.ram.pending[i] && LegacyCase(d.kv.flash, rom) && i >= LEGACY_COUNT ==>
                  r.dtcs[i] == if HasPending(d.ram) then d.ram.dtcs[i] else EMPTY)
            && (d.ram.pending[i] ==> r.dtcs[i] == d.ram.dtcs[i])
            && (!r.schemaPending ==> HasMarkers(d.kv.flash))
            && PollOpen(d, rom, GOOD_POLL).0.kv == d.kv
  {
    hide LoadOrPrepare, HasPending, SourceFlags, Agrees;
    CaptureInv(d.ram, rom, GOOD_INIT.failAt);
    GoodStart(d.ram, rom);
    var r1 := OpenStorage(d.ram, rom, GOOD_INIT).0.(storageReady := true);
    var preserve := HasPending(d.ram);
    GoodPrepare(r1, d.kv.flash, preserve);
    NonePending(d.ram);
    PrepareTakesSource(r1, d.kv.flash, rom, preserve, i);
  }

  lemma NonePending(r: GoodRam)
    ensures !HasPending(r) ==> forall i: Index :: !r.pending[i]
  {
  }

  lemma PrepareTakesSource(r: GoodRam, f: Flash, rom: GoodRom, preserve: bool, i: Index)
    requires RamInv(r, rom) && r.legacyChecked && !r.clearPending
    requires !preserve ==> forall j: Index :: !r.pending[j]
    ensures var r1 := LoadOrPrepare(r, f, preserve, GOOD_LOAD).0;
            && !r1.clearPending
            && (!r.pending[i] && !(LegacyCase(f, rom) && i >= LEGACY_COUNT) ==>
                  && (r1.dtcs[i].stored, r1.dtcs[i].permanent) == SourceFlags(f, rom, i)
                  && !r1.dtcs[i].active)
            && (!r.pending[i] && LegacyCase(f, rom) && i >= LEGACY_COUNT ==>
                  r1.dtcs[i] == if preserve then r.dtcs[i] else EMPTY)
            && (r.pending[i] ==> r1.dtcs[i] == r.dtcs[i])
            && (!r1.schemaPending ==> HasMarkers(f))
  {
    hide TakeSource, HasMarkers, SourceFlags, LegacyCase;
    TakeTakesSource(r, f, rom, preserve, i);
  }

  lemma TakeTakesSource(r: GoodRam, f: Flash, rom: GoodRom, preserve: bool, i: Index)
    requires RamInv(r, rom) && r.legacyChecked && !r.clearPending
    requires !preserve ==> forall j: Index :: !r.pending[j]
    ensures var (r1, ok) := TakeSource(r, f, preserve, []);
            && ok && !r1.clearPending
            && (!r.pending[i] && !(LegacyCase(f, rom) && i >= LEGACY_COUNT) ==>
                  && (r1.dtcs[i].stored, r1.dtcs[i].permanent) == SourceFlags(f, rom, i)
                  && !r1.dtcs[i].active)
            && (!r.pending[i] && LegacyCase(f, rom) && i >= LEGACY_COUNT ==>
                  r1.dtcs[i] == if preserve then r.dtcs[i] else EMPTY)
            && (r.pending[i] ==> r1.dtcs[i] == r.dtcs[i])
  {
    hide LoadFrom, Loaded, LoadedSome;
    GoodLoad(r, f, preserve, 0);
    LoadFromEffect(r, f, preserve, [], 0);
    LoadedIsInactive(f, i);
  }

  lemma LoadedIsInactive(f: Flash, i: Index)
    ensures !Loaded(f, i).active
  {
  }

  /** The rest of a good poll changes no entry, and leaves the markers in place. */
  lemma GoodPollEntry(d: Dev, i: Index)
    requires RamShape(d.ram) && !d.ram.clearPending
    requires !d.ram.schemaPending ==> d.kv.staged == [] && HasMarkers(d.kv.flash)
    ensures var d' := PollRest(d, GOOD_POLL);
            d'.ram.dtcs == d.ram.dtcs && HasMarkers(d'.kv.flash)
  {
    hide Batch, BatchEach, SnapshotOps, HasMarkers, Recorded;
    var ops := SnapshotOps(d.ram.dtcs, true);
    GoodBatch(d.kv, ops);
    BatchDone(d.kv, ops, GOOD_BATCH);
    SnapshotMarkers(ApplyAll(d.kv.flash, d.kv.staged), d.ram.dtcs);
    var d1 := PollSchema(d, GOOD_POLL).0;
    assert d1.kv.staged == [] && HasMarkers(d1.kv.flash);
    var ops1 := SnapshotOps(d1.ram.dtcs, false);
    GoodBatch(d1.kv, ops1);
    BatchDone(d1.kv, ops1, GOOD_BATCH);
    forall f, k | 0 <= k < |ops1| && HasMarkers(f) ensures HasMarkers(Apply(f, ops1[k])) {
      RecordKeepsMarkers(f, d1.ram.dtcs, k);
    }
    KeptByEach(d1.kv.flash, ops1, f => HasMarkers(f));
  }

  lemma SnapshotMarkers(f: Flash, dtcs: seq<Entry>)
    requires |dtcs| == COUNT
    ensures HasMarkers(ApplyAll(f, SnapshotOps(dtcs, true)))
  {
    SnapshotRecords(f, dtcs, true);
  }

  lemma RecordKeepsMarkers(f: Flash, dtcs: seq<Entry>, k: nat)
    requires |dtcs| == COUNT && HasMarkers(f) && k < |SnapshotOps(dtcs, false)|
    ensures HasMarkers(Apply(f, SnapshotOps(dtcs, false)[k]))
  {
    SnapshotOpAt(dtcs, false, k);
  }
}
