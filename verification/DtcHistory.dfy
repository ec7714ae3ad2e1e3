/**
 * What clears guarantee over whole runs: a cleared code comes back only when it
 * is reported again, across restarts too once the clear has reached the store,
 * at once or by a later poll.
 */
module DtcHistory {
  import opened Words
  import opened KvStore
  import opened DtcSpec
  import opened DtcBatches
  import opened DtcAgreement

  // ---- no resurrection --------------------------------------------------------

  /** The codes reported active since a clear, if there was one. */
  datatype Since = Never | Since(codes: set<Index>)

  /** `ram` counts from the last clear this start has seen, `durable` from the
      last clear that returned true or was queued and then done by a poll that
      left nothing open; a restart forgets a clear that is still queued. */
  datatype Hist = Hist(ram: Since, durable: Since)

  function Reported(s: Since, i: Index): Since {
    if s.Since? then Since(s.codes + {i}) else s
  }

  function HistStep(h: Hist, d: Dev, rom: GoodRom, ev: Event): Hist
    requires RamShape(d.ram)
  {
    match ev
    case EvSet(i, active, _, _, _, _, _, _) =>
      if active then Hist(Reported(h.ram, i), Reported(h.durable, i)) else h
    case EvClear(now, boot, io) =>
      var cleared := ClearAll(Init(d, rom, boot), now, io).1;
      Hist(Since({}), if cleared then Since({}) else h.durable)
    case EvPoll(_, _, _) => if Settled(Step(d, rom, ev).ram) then Hist(h.ram, h.ram) else h
    case EvRestart(_) => Hist(h.durable, h.durable)
    case _ => h
  }

  /** The history of clears and reports beside the states of a run. */
  ghost predicate IsHistory(rom: GoodRom, evs: seq<Event>, ds: seq<Dev>, hs: seq<Hist>)
    requires |ds| == |evs| + 1
  {
    && |hs| == |evs| + 1
    && hs[0] == Hist(Never, Never)
    && (forall k {:trigger evs[k]} :: 0 <= k < |evs| && RamShape(ds[k].ram) ==> hs[k + 1] == HistStep(hs[k], ds[k], rom, evs[k]))
  }

  /** No record outside `codes` carries a flag, and the legacy bytes are retired. */
  ghost predicate Clean(f: Flash, codes: set<Index>) {
    HasMarkers(f) && forall i: Index :: i !in codes ==> !Flagged(Loaded(f, i))
  }

  ghost predicate Within(r: GoodRam, codes: set<Index>) {
    forall i: Index :: Flagged(r.dtcs[i]) ==> i in codes
  }

  ghost predicate HistInv(d: Dev, h: Hist)
    requires RamShape(d.ram)
  {
    && (d.ram.storageReady && !d.ram.schemaPending ==> Always(d.kv, f => HasMarkers(f)))
    && (h.durable.Since? ==>
          && Always(d.kv, f => Clean(f, h.durable.codes))
          && Within(d.ram, h.durable.codes)
          && (d.ram.storageReady ==> !d.ram.schemaPending))
    && (h.ram.Since? ==> Within(d.ram, h.ram.codes))
    && (!d.ram.clearPending ==> h.durable == h.ram)
  }

  lemma FlagsDecideLoaded(f: Flash, i: Index)
    ensures Flagged(Loaded(f, i)) <==> LowByte(RecordAt(f, FlagsKey(i))) % 4 != 0
  {
    FlagBits(LowByte(RecordAt(f, FlagsKey(i))));
  }

  /** Writing a record that is allowed a flag, or has none, keeps the rest clean. */
  lemma RecordOpKeepsClean(f: Flash, j: Index, e: Entry, k: nat, codes: set<Index>)
    requires k < 2 && Clean(f, codes) && (Flagged(e) ==> j in codes)
    ensures Clean(Apply(f, RecordOps(j, e)[k]), codes)
  {
    var op := RecordOps(j, e)[k];
    WordDecodes(e);
    forall i: Index | i !in codes ensures !Flagged(Loaded(Apply(f, op), i)) {
      FlagsDecideLoaded(f, i);
      FlagsDecideLoaded(Apply(f, op), i);
    }
  }

  lemma DelKeepsClean(f: Flash, op: Op, codes: set<Index>)
    requires Clean(f, codes) && op.Del? && op.key >= FLAGS_BASE
    ensures Clean(Apply(f, op), codes)
  {
    forall i: Index | i !in codes ensures !Flagged(Loaded(Apply(f, op), i)) {
      FlagsDecideLoaded(f, i);
      FlagsDecideLoaded(Apply(f, op), i);
    }
  }

  lemma RecordBatchKeeps(kv: Kv, dtcs: seq<Entry>, io: BatchIo, codes: set<Index>, all: bool)
    requires |dtcs| == COUNT
    requires Always(kv, f => HasMarkers(f))
    requires all ==> Always(kv, f => Clean(f, codes))
    requires all ==> forall i: Index :: Flagged(dtcs[i]) ==> i in codes
    ensures Always(Batch(kv, SnapshotOps(dtcs, false), io).0, f => HasMarkers(f))
    ensures all ==> Always(Batch(kv, SnapshotOps(dtcs, false), io).0, f => Clean(f, codes))
  {
    var ops := SnapshotOps(dtcs, false);
    forall g, k | 0 <= k < |ops| && HasMarkers(g) ensures HasMarkers(Apply(g, ops[k])) {
      SnapshotOpAt(dtcs, false, k);
    }
    BatchKeeps(kv, ops, io, f => HasMarkers(f));
    if all {
      forall g, k | 0 <= k < |ops| && Clean(g, codes) ensures Clean(Apply(g, ops[k]), codes) {
        SnapshotOpAt(dtcs, false, k);
        RecordOpKeepsClean(g, k / 2, dtcs[k / 2], k % 2, codes);
      }
      BatchKeeps(kv, ops, io, f => Clean(f, codes));
    }
  }

  lemma SingleBatchKeeps(kv: Kv, i: Index, e: Entry, io: BatchIo, codes: set<Index>, all: bool)
    requires Always(kv, f => HasMarkers(f))
    requires all ==> Always(kv, f => Clean(f, codes)) && (Flagged(e) ==> i in codes)
    ensures Always(Batch(kv, RecordOps(i, e), io).0, f => HasMarkers(f))
    ensures all ==> Always(Batch(kv, RecordOps(i, e), io).0, f => Clean(f, codes))
  {
    var ops := RecordOps(i, e);
    BatchKeeps(kv, ops, io, f => HasMarkers(f));
    if all {
      forall g, k | 0 <= k < |ops| && Clean(g, codes) ensures Clean(Apply(g, ops[k]), codes) {
        RecordOpKeepsClean(g, i, e, k, codes);
      }
      BatchKeeps(kv, ops, io, f => Clean(f, codes));
    }
  }

  lemma ClearBatchKeeps(kv: Kv, io: BatchIo, codes: set<Index>, all: bool)
    requires Always(kv, f => HasMarkers(f))
    requires all ==> Always(kv, f => Clean(f, codes))
    ensures var res := BatchEach(kv, ClearOps(COUNT), io);
            && Always(res.0, f => HasMarkers(f))
            && (all ==> Always(res.0, f => Clean(f, codes)))
            && (res.1 ==> Always(res.0, f => Clean(f, {})))
  {
    hide Clean, ClearOps, HasMarkers, BatchEach;
    var ops := ClearOps(COUNT);
    ClearOpsLength(COUNT);
    forall g, k | 0 <= k < |ops| && HasMarkers(g) ensures HasMarkers(Apply(g, ops[k])) {
      ClearOpPair(COUNT, k / 2);
      DelKeepsMarkers(g, ops[k]);
    }
    BatchKeeps(kv, ops, io, f => HasMarkers(f));
    if all {
      forall g, k | 0 <= k < |ops| && Clean(g, codes) ensures Clean(Apply(g, ops[k]), codes) {
        ClearOpPair(COUNT, k / 2);
        DelKeepsClean(g, ops[k], codes);
      }
      BatchKeeps(kv, ops, io, f => Clean(f, codes));
    }
    if BatchEach(kv, ops, io).1 {
      BatchDone(kv, ops, io);
      AlwaysNow(BatchEach(kv, ops, io).0, f => HasMarkers(f));
      var g := ApplyAll(kv.flash, kv.staged);
      ClearOpsClear(g, COUNT);
      NoRecordIsClean(ApplyAll(g, ops));
      AlwaysEmpty(ApplyAll(g, ops), f => Clean(f, {}));
    }
  }

  lemma DelKeepsMarkers(f: Flash, op: Op)
    requires HasMarkers(f) && op.Del? && op.key >= FLAGS_BASE
    ensures HasMarkers(Apply(f, op))
  {
  }

  lemma NoRecordIsClean(f: Flash)
    requires HasMarkers(f) && forall i: Index :: FlagsKey(i) !in f
    ensures Clean(f, {})
  {
  }

  lemma SnapshotMarks(r: GoodRam, kv: Kv, io: BatchIo)
    requires SaveAll(r, kv, true, io).1
    ensures Always(SaveAll(r, kv, true, io).0, f => HasMarkers(f))
  {
    SnapshotAgrees(r, kv, true, io);
    BatchDone(kv, SnapshotOps(r.dtcs, true), io);
    AlwaysEmpty(SaveAll(r, kv, true, io).0.flash, f => HasMarkers(f));
  }

  /** From a clean store a load brings no flag back, and needs no snapshot. */
  lemma LoadStaysWithin(r: GoodRam, f: Flash, preserve: bool, io: LoadIo, codes: set<Index>)
    requires Within(r, codes) && Clean(f, codes)
    requires forall i: Index :: Flagged(r.dtcs[i]) || r.dtcs[i].first == 0
    ensures var (r1, ok) := LoadOrPrepare(r, f, preserve, io);
            Within(r1, codes) && (ok ==> !r1.schemaPending)
  {
    LoadFromEffect(r, f, preserve, io.gets, 0);
    var r2 := LoadFrom(r, f, preserve, io.gets, 0).0;
    forall i: Index | Flagged(r2.dtcs[i]) ensures i in codes {
      LoadedSomeFacts(r.dtcs[i], r2.dtcs[i], f, i);
    }
  }

  lemma InitHist(d: Dev, rom: GoodRom, io: BootIo, h: Hist)
    requires Inv(d, rom) && HistInv(d, h)
    ensures HistInv(Init(d, rom, io), h)
  {
    if !d.ram.initialized {
      CaptureInv(d.ram, rom, io.init.failAt);
      var (r1, up) := OpenStorage(d.ram, rom, io.init);
      if up {
        var r1s := r1.(storageReady := true);
        var (r2, loaded) := LoadOrPrepare(r1s, d.kv.flash, false, io.load);
        if h.durable.Since? {
          AlwaysNow(d.kv, f => Clean(f, h.durable.codes));
          LoadStaysWithin(r1s, d.kv.flash, false, io.load, h.durable.codes);
        }
        LoadOrPrepareInv(r1s, d.kv, rom, false, io.load);
        if loaded && !r2.schemaPending {
          AlwaysEmpty(d.kv.flash, f => HasMarkers(f));
        } else if loaded && SaveAll(r2, d.kv, true, io.save).1 {
          SnapshotMarks(r2, d.kv, io.save);
        }
      }
    }
  }

  lemma SetActiveHist(d: Dev, rom: GoodRom, i: Index, active: bool, withDetail: bool, detail: U8, utc: U32,
                      now: U32, io: BatchIo, h: Hist)
    requires Inv(d, rom) && HistInv(d, h)
    ensures HistInv(SetActive(d, i, active, withDetail, detail, utc, now, io),
                    if active then Hist(Reported(h.ram, i), Reported(h.durable, i)) else h)
  {
    hide Batch, Agrees, RecordOps, Clean;
    var (e, changed) := Report(d.ram.dtcs[i], active, withDetail, detail, utc);
    var h' := if active then Hist(Reported(h.ram, i), Reported(h.durable, i)) else h;
    var r1 := d.ram.(dtcs := d.ram.dtcs[i := e]);
    ReportHist(d, i, e, active, h);
    assert HistInv(d.(ram := r1), h');
    if changed && r1.storageReady && !r1.schemaPending && !r1.clearPending {
      SingleSaveHist(d.(ram := r1), i, io, h');
    }
  }

  lemma ReportHist(d: Dev, i: Index, e: Entry, active: bool, h: Hist)
    requires RamShape(d.ram) && HistInv(d, h)
    requires Flagged(e) ==> Flagged(d.ram.dtcs[i]) || active
    ensures HistInv(d.(ram := d.ram.(dtcs := d.ram.dtcs[i := e])),
                    if active then Hist(Reported(h.ram, i), Reported(h.durable, i)) else h)
  {
    if h.durable.Since? {
      var codes := if active then h.durable.codes + {i} else h.durable.codes;
      forall n | 0 <= n <= |d.kv.staged| ensures Clean(ApplyAll(d.kv.flash, d.kv.staged[..n]), codes) {
        assert Clean(ApplyAll(d.kv.flash, d.kv.staged[..n]), h.durable.codes);
      }
    }
  }

  lemma SingleSaveHist(d: Dev, i: Index, io: BatchIo, h: Hist)
    requires RamShape(d.ram) && d.ram.storageReady && !d.ram.schemaPending && HistInv(d, h)
    ensures HistInv(d.(kv := Batch(d.kv, RecordOps(i, d.ram.dtcs[i]), io).0), h)
  {
    SingleBatchKeeps(d.kv, i, d.ram.dtcs[i], io, if h.durable.Since? then h.durable.codes else {}, h.durable.Since?);
  }

  lemma SettledHasMarkers(r: GoodRam, f: Flash, preserve: bool, io: LoadIo)
    requires LoadOrPrepare(r, f, preserve, io).1 && !LoadOrPrepare(r, f, preserve, io).0.schemaPending
    ensures HasMarkers(f)
  {
    hide LoadFrom, ApplyLegacy, ResetAll;
  }

  lemma ClearKeepsTable(r: GoodRam, f: Flash, io: LoadIo)
    ensures r.clearPending ==> LoadOrPrepare(r, f, true, io).0.dtcs == r.dtcs
  {
    hide LoadFrom, ApplyLegacy, ResetAll;
  }

  lemma PollOpenHist(d: Dev, rom: GoodRom, io: PollIo, h: Hist)
    requires Inv(d, rom) && HistInv(d, h)
    ensures HistInv(PollOpen(d, rom, io).0, h)
  {
    hide LoadOrPrepare, Clean, HasMarkers, Agrees;
    if !d.ram.storageReady {
      CaptureInv(d.ram, rom, io.init.failAt);
      var (r1, up) := OpenStorage(d.ram, rom, io.init);
      if up {
        var r1s := r1.(storageReady := true);
        var preserve := d.ram.clearPending || HasPending(d.ram);
        var (r2, loaded) := LoadOrPrepare(r1s, d.kv.flash, preserve, io.load);
        LoadOrPrepareInv(r1s, d.kv, rom, preserve, io.load);
        ClearKeepsTable(r1s, d.kv.flash, io.load);
        if h.durable.Since? {
          AlwaysNow(d.kv, f => Clean(f, h.durable.codes));
          LoadStaysWithin(r1s, d.kv.flash, preserve, io.load, h.durable.codes);
        }
        if loaded && !r2.schemaPending {
          SettledHasMarkers(r1s, d.kv.flash, preserve, io.load);
          AlwaysEmpty(d.kv.flash, f => HasMarkers(f));
        }
      }
    }
  }

  /** The account once a queued clear has reached the store. */
  function Done(h: Hist): Hist { Hist(h.ram, h.ram) }

  lemma PollHist(d: Dev, rom: GoodRom, now: U32, io: PollIo, h: Hist)
    requires Inv(d, rom) && d.ram.initialized && HistInv(d, h)
    ensures var d' := Poll(d, rom, now, io);
            HistInv(d', if Settled(d'.ram) then Done(h) else h)
  {
    hide HistInv, PollOpen, PollSchema, PollClear, PollSave, Agrees;
    if PollDue(d.ram, now) {
      var d0 := d.(ram := d.ram.(lastRetry := now));
      if Settled(d.ram) {
        AlwaysSame(d.kv, d.ram, d0.ram);
      }
      LaterTry(d, now, h);
      PollOpenHist(d0, rom, io, h);
      PollOpenInv(d0, rom, io);
      var (d1, ok1) := PollOpen(d0, rom, io);
      NotSettled(d0, rom, io);
      if ok1 {
        PollSchemaHist(d1, io, h);
      }
    }
    UnqueuedIsDone(Poll(d, rom, now, io), h);
  }

  lemma LaterTry(d: Dev, now: U32, h: Hist)
    requires RamShape(d.ram) && HistInv(d, h)
    ensures HistInv(d.(ram := d.ram.(lastRetry := now)), h)
  {
  }

  /** Without a queued clear both accounts are the same. */
  lemma UnqueuedIsDone(d: Dev, h: Hist)
    requires RamShape(d.ram)
    ensures HistInv(d, h) && !d.ram.clearPending ==> Done(h) == h
  {
  }

  lemma NotSettled(d: Dev, rom: GoodRom, io: PollIo)
    requires RamShape(d.ram)
    ensures var (d1, ok) := PollOpen(d, rom, io); ok <==> d1.ram.storageReady
  {
  }

  lemma PollSchemaHist(d: Dev, io: PollIo, h: Hist)
    requires RamShape(d.ram) && d.ram.storageReady && HistInv(d, h)
    ensures var (d1, ok) := PollSchema(d, io);
            && (!ok ==> HistInv(d1, h) && !Settled(d1.ram))
            && (ok ==>
                  var (d2, ok2) := PollClear(d1, io);
                  && (!ok2 ==> HistInv(d2, h) && !Settled(d2.ram))
                  && (ok2 ==> HistInv(PollSave(d2, io), Done(h)) && Settled(PollSave(d2, io).ram)))
  {
    hide SaveAll, Clean, PollClear, PollSave;
    var (d1, ok) := PollSchema(d, io);
    if d.ram.schemaPending {
      if ok {
        SnapshotMarks(d.ram, d.kv, io.schema);
        if h.ram.Since? {
          SnapshotClean(d.ram, d.kv, io.schema, h.ram.codes);
        }
        PollRestHist(d1, io, Done(h));
      }
    } else {
      PollRestHist(d1, io, h);
    }
  }

  /** A full snapshot of cleared codes makes the store as clean as the table. */
  lemma SnapshotClean(r: GoodRam, kv: Kv, io: BatchIo, codes: set<Index>)
    requires SaveAll(r, kv, true, io).1 && Within(r, codes)
    ensures Always(SaveAll(r, kv, true, io).0, f => Clean(f, codes))
  {
    hide Batch, SnapshotOps, Loaded;
    var ops := SnapshotOps(r.dtcs, true);
    BatchDone(kv, ops, io);
    var g := ApplyAll(ApplyAll(kv.flash, kv.staged), ops);
    SnapshotRecords(ApplyAll(kv.flash, kv.staged), r.dtcs, true);
    forall i: Index | i !in codes ensures !Flagged(Loaded(g, i)) {
      assert Recorded(g, i, r.dtcs[i]);
    }
    AlwaysEmpty(g, f => Clean(f, codes));
  }

  /** A clear that is done makes the store clean of all codes, one that is not
      queued leaves it as clean as it was. */
  lemma PollRestHist(d: Dev, io: PollIo, h: Hist)
    requires RamShape(d.ram) && d.ram.storageReady && !d.ram.schemaPending && HistInv(d, h)
    ensures var (d1, ok) := PollClear(d, io);
            && (!ok ==> d.ram.clearPending && HistInv(d1, h) && !Settled(d1.ram))
            && (ok ==> HistInv(PollSave(d1, io), Done(h)) && Settled(PollSave(d1, io).ram))
  {
    hide BatchEach, ClearOps, Clean, PollSave;
    ClearBatchKeeps(d.kv, io.clear, if h.durable.Since? then h.durable.codes else {}, h.durable.Since?);
    var (d1, ok) := PollClear(d, io);
    if ok {
      if d.ram.clearPending && h.ram.Since? {
        CleanWidens(d1.kv, {}, h.ram.codes);
      }
      assert HistInv(d1, Done(h));
      PollSaveHist(d1, io, Done(h));
    }
  }

  lemma CleanWidens(kv: Kv, codes: set<Index>, wider: set<Index>)
    requires Always(kv, f => Clean(f, codes)) && codes <= wider
    ensures Always(kv, f => Clean(f, wider))
  {
    forall n | 0 <= n <= |kv.staged| ensures Clean(ApplyAll(kv.flash, kv.staged[..n]), wider) {
      assert Clean(ApplyAll(kv.flash, kv.staged[..n]), codes);
    }
  }

  lemma PollSaveHist(d: Dev, io: PollIo, h: Hist)
    requires RamShape(d.ram) && d.ram.storageReady && !d.ram.schemaPending && HistInv(d, h)
    ensures HistInv(PollSave(d, io), h)
    ensures !d.ram.clearPending ==> Settled(PollSave(d, io).ram)
  {
    hide Batch, SnapshotOps, Clean;
    RecordBatchKeeps(d.kv, d.ram.dtcs, io.save, if h.durable.Since? then h.durable.codes else {}, h.durable.Since?);
  }

  lemma ClearAllHist(d: Dev, rom: GoodRom, now: U32, io: BatchIo, h: Hist)
    requires Inv(d, rom) && HistInv(d, h)
    ensures var (d', cleared) := ClearAll(d, now, io);
            HistInv(d', Hist(Since({}), if cleared then Since({}) else h.durable))
  {
    if d.ram.storageReady && !d.ram.schemaPending {
      ClearBatchKeeps(d.kv, io, if h.durable.Since? then h.durable.codes else {}, h.durable.Since?);
    }
  }

  lemma StepHist(d: Dev, rom: GoodRom, ev: Event, h: Hist)
    requires Inv(d, rom) && HistInv(d, h)
    ensures HistInv(Step(d, rom, ev), HistStep(h, d, rom, ev))
  {
    match ev
    case EvSet(i, active, withDetail, detail, utc, now, boot, io) =>
      InitInv(d, rom, boot);
      InitHist(d, rom, boot, h);
      SetActiveHist(Init(d, rom, boot), rom, i, active, withDetail, detail, utc, now, io, h);
    case EvPoll(now, boot, poll) =>
      InitInv(d, rom, boot);
      InitHist(d, rom, boot, h);
      PollHist(Init(d, rom, boot), rom, now, poll, h);
    case EvClear(now, boot, io) =>
      InitInv(d, rom, boot);
      InitHist(d, rom, boot, h);
      ClearAllHist(Init(d, rom, boot), rom, now, io, h);
    case EvQuery(boot) => InitHist(d, rom, boot, h);
    case EvShared(commit) => CommitHist(d, commit, h);
    case EvRestart(durable) => CommitHist(d, CommitIo(false, durable, false), h);
  }

  lemma CommitHist(d: Dev, c: CommitIo, h: Hist)
    requires RamShape(d.ram) && HistInv(d, h)
    ensures HistInv(d.(kv := CommitKv(d.kv, c)), h)
  {
    if d.ram.storageReady && !d.ram.schemaPending {
      AlwaysCommit(d.kv, c, f => HasMarkers(f));
    }
    if h.durable.Since? {
      AlwaysCommit(d.kv, c, f => Clean(f, h.durable.codes));
    }
  }

  lemma BootHist(f: Flash)
    ensures HistInv(Boot(f), Hist(Never, Never))
  {
  }

  lemma {:induction false} RunHist(f: Flash, rom: GoodRom, evs: seq<Event>, ds: seq<Dev>, hs: seq<Hist>, k: nat)
    requires IsRun(f, rom, evs, ds) && IsHistory(rom, evs, ds, hs) && k < |ds|
    ensures HistInv(ds[k], hs[k])
    decreases k
  {
    hide Inv, Step, HistInv, HistStep;
    if k == 0 {
      BootHist(f);
    } else {
      RunInv(f, rom, evs, ds, k - 1);
      RunHist(f, rom, evs, ds, hs, k - 1);
      StepHist(ds[k - 1], rom, evs[k - 1], hs[k - 1]);
    }
  }

  /** Over any run from any store: once the codes were cleared, a code is stored
      or permanent only if it was reported active since that clear, whether or
      not the clear reached the store. */
  lemma NoResurrection(f: Flash, rom: GoodRom, evs: seq<Event>, ds: seq<Dev>, hs: seq<Hist>, k: nat, i: Index)
    requires IsRun(f, rom, evs, ds) && IsHistory(rom, evs, ds, hs) && k < |ds|
    requires hs[k].ram.Since? && Flagged(ds[k].ram.dtcs[i])
    ensures i in hs[k].ram.codes
  {
    RunHist(f, rom, evs, ds, hs, k);
  }

  /** While nothing is open, both accounts are the same: the latest clear counts
      as durable, whether it returned true or a later poll did it. */
  lemma SettledClearIsDurable(f: Flash, rom: GoodRom, evs: seq<Event>, ds: seq<Dev>, hs: seq<Hist>, k: nat)
    requires IsRun(f, rom, evs, ds) && IsHistory(rom, evs, ds, hs) && k < |ds|
    requires Settled(ds[k].ram)
    ensures hs[k].durable == hs[k].ram
  {
    hide Step, HistStep;
    RunHist(f, rom, evs, ds, hs, k);
  }

  /** After a clear that returned true, or that a later poll did, this also holds
      across restarts: of the table, of the durable records, and of all that may
      still become durable; and the legacy bytes are never applied again. */
  lemma NoResurrectionAcrossRestarts(f: Flash, rom: GoodRom, evs: seq<Event>, ds: seq<Dev>, hs: seq<Hist>,
                                     k: nat, n: nat)
    requires IsRun(f, rom, evs, ds) && IsHistory(rom, evs, ds, hs) && k < |ds|
    requires hs[k].durable.Since? && n <= |ds[k].kv.staged|
    ensures var g := ApplyAll(ds[k].kv.flash, ds[k].kv.staged[..n]);
            && (forall i: Index :: Flagged(ds[k].ram.dtcs[i]) ==> i in hs[k].durable.codes)
            && (forall i: Index :: Flagged(Loaded(g, i)) ==> i in hs[k].durable.codes)
            && (forall r: Ram :: !UseLegacy(r, g))
  {
    RunHist(f, rom, evs, ds, hs, k);
    assert Clean(ApplyAll(ds[k].kv.flash, ds[k].kv.staged[..n]), hs[k].durable.codes);
  }
}
