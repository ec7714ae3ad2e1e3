/**
 * The DTC manager as the firmware runs it: one table updated in place, loops
 * over the entries, and calls into the store. Every method is tied to the
 * function of DtcSpec that says what it does.
 */
module DtcManager {
  import opened Words
  import opened KvStore
  import opened DtcSpec
  import opened DtcBatches

  class Manager {
    const kv: Store
    const dtcs: array<Entry>
    const pending: array<bool>
    const legacyFlags: array<U8>
    var clearPending: bool
    var storageReady: bool
    var schemaPending: bool
    var legacyChecked: bool
    var legacyValid: bool
    var lastRetry: U32
    var initialized: bool

    ghost predicate Valid() {
      dtcs.Length == COUNT && pending.Length == COUNT && legacyFlags.Length == LEGACY_COUNT
    }

    ghost function Table(): GoodRam
      requires Valid()
      reads this, dtcs, pending, legacyFlags
    {
      Ram(dtcs[..], pending[..], clearPending, storageReady, schemaPending, legacyChecked, legacyValid,
          legacyFlags[..], lastRetry, initialized)
    }

    ghost function Value(): (d: Dev)
      requires Valid()
      reads this, kv, dtcs, pending, legacyFlags
      ensures RamShape(d.ram)
    {
      Dev(Table(), kv.Value())
    }

    constructor (store: Store)
      ensures Valid() && kv == store
      ensures Table() == PowerUp()
      ensures fresh(dtcs) && fresh(pending) && fresh(legacyFlags)
    {
      kv := store;
      dtcs := new Entry[COUNT](_ => EMPTY);
      pending := new bool[COUNT](_ => false);
      legacyFlags := new U8[LEGACY_COUNT](_ => 0);
      clearPending, storageReady, schemaPending := false, false, false;
      legacyChecked, legacyValid := false, false;
      lastRetry := 0;
      initialized := false;
      new;
      assert Table().dtcs == PowerUp().dtcs && Table().pending == PowerUp().pending;
      assert Table().legacyFlags == PowerUp().legacyFlags;
    }

    // ---- loops over the table ---------------------------------------------------

    method FindIndex(code: U16) returns (idx: int)
      ensures -1 <= idx < COUNT
      ensures idx >= 0 ==> CODES[idx] == code
      ensures idx < 0 <==> code !in CODES
    {
      idx := 0;
      while idx < COUNT
        invariant 0 <= idx <= COUNT
        invariant forall k :: 0 <= k < idx ==> CODES[k] != code
      {
        if CODES[idx] == code { return; }
        idx := idx + 1;
      }
      idx := -1;
    }

    method ResetTable()
      requires Valid()
      modifies dtcs, pending
      ensures Table() == ResetAll(old(Table()))
    {
      for i := 0 to COUNT
        invariant forall k :: 0 <= k < i ==> dtcs[k] == EMPTY && !pending[k]
      {
        dtcs[i] := EMPTY;
        pending[i] := false;
      }
      assert dtcs[..] == ResetAll(old(Table())).dtcs;
      assert pending[..] == ResetAll(old(Table())).pending;
    }

    method AnyPending() returns (any: bool)
      requires Valid()
      ensures any == HasPending(Table())
    {
      for i := 0 to COUNT
        invariant forall k :: 0 <= k < i ==> !pending[k]
      {
        if pending[i] {
          assert Table().pending[i];
          return true;
        }
      }
      any := false;
    }

    method SetMarks(value: bool)
      requires Valid()
      modifies pending
      ensures Table() == if value then MarkAll(old(Table())) else ClearMarks(old(Table()))
    {
      for i := 0 to COUNT
        invariant forall k :: 0 <= k < i ==> pending[k] == value
      {
        pending[i] := value;
      }
      assert pending[..] == (if value then MarkAll(old(Table())) else ClearMarks(old(Table()))).pending;
    }

    method TakeLegacy(skip: bool)
      requires Valid()
      modifies dtcs
      ensures Table() == ApplyLegacy(old(Table()), skip)
    {
      if !legacyValid {
        return;
      }
      for i := 0 to LEGACY_COUNT
        invariant forall k :: 0 <= k < COUNT ==>
                    dtcs[k] == if k < i && !(skip && pending[k])
                               then WithFlags(old(dtcs[k]), legacyFlags[k]).(active := false)
                               else old(dtcs[k])
      {
        if !(skip && pending[i]) {
          dtcs[i] := WithFlags(dtcs[i], legacyFlags[i]).(active := false);
        }
      }
      assert dtcs[..] == ApplyLegacy(old(Table()), skip).dtcs;
    }

    // ---- storage start and load ---------------------------------------------------

    method CaptureLegacy(rom: GoodRom, failAt: nat) returns (ok: bool)
      requires Valid()
      modifies this, legacyFlags
      ensures (Table(), ok) == Capture(old(Table()), rom, failAt)
    {
      if legacyChecked {
        return true;
      }
      if failAt < 2 {
        return false;
      }
      if rom.valid {
        ok := CopyLegacy(rom, failAt - 2);
        if !ok {
          return;
        }
      }
      legacyValid := rom.valid;
      legacyChecked := true;
      ok := true;
    }

    method CopyLegacy(rom: GoodRom, readable: nat) returns (ok: bool)
      requires Valid()
      modifies legacyFlags
      ensures var n := if readable < LEGACY_COUNT then readable else LEGACY_COUNT;
              legacyFlags[..] == rom.bytes[..n] + old(legacyFlags[..])[n..]
      ensures ok == (readable >= LEGACY_COUNT)
    {
      for i := 0 to LEGACY_COUNT
        invariant i <= readable
        invariant forall k :: 0 <= k < LEGACY_COUNT ==>
                    legacyFlags[k] == if k < i then rom.bytes[k] else old(legacyFlags[k])
      {
        if readable == i {
          return false;
        }
        legacyFlags[i] := rom.bytes[i];
      }
      ok := true;
    }

    method Open(rom: GoodRom, io: InitIo) returns (ok: bool)
      requires Valid()
      modifies this, legacyFlags
      ensures (Table(), ok) == OpenStorage(old(Table()), rom, io)
    {
      if !io.before {
        return false;
      }
      ok := CaptureLegacy(rom, io.failAt);
      ok := ok && io.after;
    }

    method LoadOne(i: Index, flagsOk: bool, stampOk: bool) returns (ok: bool)
      requires Valid()
      modifies dtcs
      ensures dtcs[..] == old(dtcs[..])[i := dtcs[i]]
      ensures (dtcs[i], ok) == LoadEntry(old(dtcs[i]), kv.flash, i, flagsOk, stampOk)
    {
      var r := kv.Read(FlagsKey(i), flagsOk);
      if r.Failed? {
        return false;
      }
      var word: U32 := if r.Found? then r.value else 0;
      var flags := LowByte(word);
      dtcs[i] := WithFlags(dtcs[i], flags);
      dtcs[i] := dtcs[i].(detail := DetailByte(word));
      dtcs[i] := dtcs[i].(active := false);
      if flags % 4 == 0 {
        dtcs[i] := dtcs[i].(first := 0);
        dtcs[i] := dtcs[i].(detail := 0);
        return true;
      }
      var t := kv.Read(StampKey(i), stampOk);
      if t.Failed? {
        return false;
      }
      dtcs[i] := dtcs[i].(first := if t.Found? then t.value else 0);
      ok := true;
    }

    /** loadAllFromKv, and with `skip` mergeNonPendingFromKv. */
    method LoadAll(skip: bool, gets: seq<bool>) returns (ok: bool)
      requires Valid()
      modifies dtcs
      ensures (Table(), ok) == LoadFrom(old(Table()), kv.flash, skip, gets, 0)
    {
      hide LoadFrom, LoadEntry, ReadOk;
      for i := 0 to COUNT
        invariant LoadFrom(Table(), kv.flash, skip, gets, i) == LoadFrom(old(Table()), kv.flash, skip, gets, 0)
        invariant Table() == old(Table()).(dtcs := dtcs[..])
      {
        LoadStep(Table(), kv.flash, skip, gets, i);
        if skip && pending[i] {
        } else {
          ghost var before := Table();
          ok := LoadOne(i, ReadOk(gets, 2 * i), ReadOk(gets, 2 * i + 1));
          assert Table() == before.(dtcs := before.dtcs[i := dtcs[i]]);
          if !ok {
            return;
          }
        }
      }
      LoadEnds(Table(), kv.flash, skip, gets);
      ok := true;
    }

    static lemma LoadStep(r: GoodRam, f: Flash, skip: bool, gets: seq<bool>, i: Index)
      ensures LoadFrom(r, f, skip, gets, i) ==
              if skip && r.pending[i] then LoadFrom(r, f, skip, gets, i + 1)
              else
                var (e, ok) := LoadEntry(r.dtcs[i], f, i, ReadOk(gets, 2 * i), ReadOk(gets, 2 * i + 1));
                var r1 := r.(dtcs := r.dtcs[i := e]);
                if ok then LoadFrom(r1, f, skip, gets, i + 1) else (r1, false)
    {
      hide LoadEntry, ReadOk;
    }

    static lemma LoadEnds(r: GoodRam, f: Flash, skip: bool, gets: seq<bool>)
      ensures LoadFrom(r, f, skip, gets, COUNT) == (r, true)
    {
    }

    method Take(useLegacy: bool, preserve: bool, gets: seq<bool>) returns (ok: bool)
      requires Valid() && useLegacy == UseLegacy(Table(), kv.flash)
      modifies dtcs, pending
      ensures (Table(), ok) == TakeSource(old(Table()), kv.flash, preserve, gets)
    {
      hide LoadFrom, ApplyLegacy, ResetAll;
      ok := true;
      if useLegacy {
        if !preserve {
          ResetTable();
          TakeLegacy(false);
        } else if !clearPending {
          TakeLegacy(true);
        }
      } else if !preserve {
        ok := LoadAll(false, gets);
      } else if !clearPending {
        ok := LoadAll(true, gets);
      }
    }

    method LoadOrPrepareSchema(preserve: bool, io: LoadIo) returns (ok: bool)
      requires Valid()
      modifies this, dtcs, pending
      ensures (Table(), ok) == LoadOrPrepare(old(Table()), kv.flash, preserve, io)
    {
      hide TakeSource, MarkAll, UseLegacy, HasMarkers;
      var schema := kv.Read(SCHEMA_KEY, io.schemaOk);
      if schema.Failed? {
        return false;
      }
      var migrated := kv.Read(MIGRATED_KEY, io.migratedOk);
      if migrated.Failed? {
        return false;
      }
      var schemaValid := schema.Found? && schema.value == MARKER_VERSION;
      var migratedValid := migrated.Found? && migrated.value == MARKER_VERSION;
      ok := TakeAndMark(schemaValid, migratedValid, preserve, io);
    }

    /** What the markers, once read, make of the table. */
    method TakeAndMark(schemaValid: bool, migratedValid: bool, preserve: bool, io: LoadIo) returns (ok: bool)
      requires Valid() && io.schemaOk && io.migratedOk
      requires schemaValid == Marker(kv.flash, SCHEMA_KEY) && migratedValid == Marker(kv.flash, MIGRATED_KEY)
      modifies this, dtcs, pending
      ensures (Table(), ok) == LoadOrPrepare(old(Table()), kv.flash, preserve, io)
    {
      hide TakeSource, MarkAll, Marker;
      var useLegacy := !schemaValid && !migratedValid && legacyValid;
      ok := Take(useLegacy, preserve, io.gets);
      if !ok {
        return;
      }
      if schemaValid && migratedValid {
        schemaPending := false;
        return;
      }
      SetMarks(true);
      schemaPending := true;
    }

    // ---- batches ------------------------------------------------------------------

    method Finish(ok: bool, io: BatchIo, ghost staged: seq<Op>) returns (saved: bool)
      requires Valid() && kv.staged == staged
      modifies kv
      ensures (kv.Value(), saved) == FinishBatch(Kv(old(kv.flash), staged), staged, ok, io)
    {
      var committed := kv.Commit(io.commit);
      saved := ok && committed && io.restore;
    }

    /** saveDtcRecords: the flags word, then the time or its removal. */
    method SaveRecords(i: Index, e: Entry, first: Io, second: Io) returns (ok: bool)
      requires Valid()
      modifies kv`staged
      ensures ok == (first.ok && second.ok)
      ensures kv.staged == var s := StageOne(old(kv.staged), RecordOps(i, e)[0], first);
                           if first.ok then StageOne(s, RecordOps(i, e)[1], second) else s
    {
      ok := kv.Write(Put(FlagsKey(i), Word(FlagsOf(e), e.detail)), first);
      if ok {
        if e.first != 0 {
          ok := kv.Write(Put(StampKey(i), e.first), second);
        } else {
          ok := kv.Write(Del(StampKey(i)), second);
        }
      }
    }

    method SaveOne(i: Index, io: BatchIo) returns (saved: bool)
      requires Valid()
      modifies kv
      ensures (kv.Value(), saved) == Batch(old(kv.Value()), RecordOps(i, dtcs[i]), io)
    {
      if !io.open {
        return false;
      }
      ghost var ops := RecordOps(i, dtcs[i]);
      var ok := SaveRecords(i, dtcs[i], IoAt(io.writes, 0), IoAt(io.writes, 1));
      StageTwo(old(kv.staged), ops, io.writes, 0);
      assert StageFrom(old(kv.staged), ops, io.writes, 0) == (kv.staged, ok);
      saved := Finish(ok, io, kv.staged);
    }

    static lemma StageTwo(staged: seq<Op>, ops: seq<Op>, ios: seq<Io>, k: nat)
      requires k + 2 <= |ops|
      ensures var s1 := StageOne(staged, ops[k], IoAt(ios, k));
              var s2 := StageOne(s1, ops[k + 1], IoAt(ios, k + 1));
              StageFrom(staged, ops, ios, k) ==
              if !IoAt(ios, k).ok then (s1, false)
              else if !IoAt(ios, k + 1).ok then (s2, false)
              else StageFrom(s2, ops, ios, k + 2)
    {
      var s1 := StageOne(staged, ops[k], IoAt(ios, k));
      if IoAt(ios, k).ok {
        assert StageFrom(staged, ops, ios, k) == StageFrom(s1, ops, ios, k + 1);
      }
    }

    /** saveAllToKvOperation: every entry, then with `markers` the migration
        marker and last the schema. */
    method SaveSnapshot(markers: bool, io: BatchIo) returns (saved: bool)
      requires Valid()
      modifies kv
      ensures (kv.Value(), saved) == SaveAll(old(Table()), old(kv.Value()), markers, io)
    {
      if !io.open {
        return false;
      }
      ghost var ops := SnapshotOps(dtcs[..], markers);
      SnapshotLength(dtcs[..], markers);
      var ok := StageRecords(markers, io.writes);
      if ok && markers {
        SnapshotOpAt(dtcs[..], markers, 2 * COUNT);
        SnapshotOpAt(dtcs[..], markers, 2 * COUNT + 1);
        StageTwo(kv.staged, ops, io.writes, 2 * COUNT);
        ok := kv.Write(Put(MIGRATED_KEY, MARKER_VERSION), IoAt(io.writes, 2 * COUNT));
        if ok {
          ok := kv.Write(Put(SCHEMA_KEY, MARKER_VERSION), IoAt(io.writes, 2 * COUNT + 1));
        }
      }
      assert (kv.staged, ok) == StageFrom(old(kv.staged), ops, io.writes, 0);
      saved := Finish(ok, io, kv.staged);
    }

    /** Stage the records entry by entry, up to the first failure. */
    method StageRecords(markers: bool, ios: seq<Io>) returns (ok: bool)
      requires Valid() && |SnapshotOps(dtcs[..], markers)| == 2 * COUNT + (if markers then 2 else 0)
      modifies kv`staged
      ensures var ops := SnapshotOps(dtcs[..], markers);
              StageFrom(old(kv.staged), ops, ios, 0) ==
              if ok then StageFrom(kv.staged, ops, ios, 2 * COUNT) else (kv.staged, false)
    {
      hide StageOne, SnapshotOps, StageFrom, RecordOps;
      ghost var ops := SnapshotOps(dtcs[..], markers);
      ok := true;
      var i := 0;
      while i < COUNT && ok
        invariant 0 <= i <= COUNT
        invariant StageFrom(old(kv.staged), ops, ios, 0) ==
                  if ok then StageFrom(kv.staged, ops, ios, 2 * i) else (kv.staged, false)
      {
        StageTwo(kv.staged, ops, ios, 2 * i);
        SnapshotOpAt(dtcs[..], markers, 2 * i);
        SnapshotOpAt(dtcs[..], markers, 2 * i + 1);
        ok := SaveRecords(i, dtcs[i], IoAt(ios, 2 * i), IoAt(ios, 2 * i + 1));
        i := i + 1;
      }
    }

    /** clearDtcKeysOperation: try every deletion, whatever fails. */
    method ClearKeys(io: BatchIo) returns (cleared: bool)
      requires Valid()
      modifies kv
      ensures (kv.Value(), cleared) == BatchEach(old(kv.Value()), ClearOps(COUNT), io)
    {
      if !io.open {
        return false;
      }
      hide ClearOps, StageOne, StageEach;
      ghost var ops := ClearOps(COUNT);
      ClearOpsLength(COUNT);
      ghost var goal := StageEach(kv.staged, ops, io.writes, 0, true);
      var good := true;
      for i := 0 to COUNT
        invariant kv.flash == old(kv.flash)
        invariant StageEach(kv.staged, ops, io.writes, 2 * i, good) == goal
      {
        ClearOpPair(COUNT, i);
        EachTwo(kv.staged, ops, io.writes, 2 * i, good);
        var ok := kv.Write(Del(FlagsKey(i)), IoAt(io.writes, 2 * i));
        good := good && ok;
        ok := kv.Write(Del(StampKey(i)), IoAt(io.writes, 2 * i + 1));
        good := good && ok;
      }
      EachEnds(kv.staged, ops, io.writes, good);
      cleared := Finish(good, io, kv.staged);
    }

    static lemma EachTwo(staged: seq<Op>, ops: seq<Op>, ios: seq<Io>, k: nat, good: bool)
      requires k + 2 <= |ops|
      ensures StageEach(staged, ops, ios, k, good) ==
              StageEach(StageOne(StageOne(staged, ops[k], IoAt(ios, k)), ops[k + 1], IoAt(ios, k + 1)),
                        ops, ios, k + 2, good && IoAt(ios, k).ok && IoAt(ios, k + 1).ok)
    {
      hide StageOne;
    }

    static lemma EachEnds(staged: seq<Op>, ops: seq<Op>, ios: seq<Io>, good: bool)
      ensures StageEach(staged, ops, ios, |ops|, good) == (staged, good)
    {
    }

    // ---- the module's calls ---------------------------------------------------------

    method Initialize(rom: GoodRom, io: BootIo)
      requires Valid()
      modifies this, kv, dtcs, pending, legacyFlags
      ensures Value() == Init(old(Value()), rom, io)
    {
      hide OpenStorage, FirstLoad;
      if initialized {
        return;
      }
      var up := Open(rom, io.init);
      if !up {
        ResetTable();
        storageReady := false;
        schemaPending := true;
        lastRetry := io.now;
        initialized := true;
        return;
      }
      storageReady := true;
      LoadFirst(io);
    }

    method LoadFirst(io: BootIo)
      requires Valid()
      modifies this, kv, dtcs, pending
      ensures Value() == FirstLoad(old(Value()), io)
    {
      hide LoadOrPrepare, FirstSave;
      var loaded := LoadOrPrepareSchema(false, io.load);
      if !loaded {
        storageReady := false;
        schemaPending := true;
        lastRetry := io.now;
      } else if schemaPending {
        SaveFirst(io);
      }
      initialized := true;
    }

    method SaveFirst(io: BootIo)
      requires Valid()
      modifies this, kv, pending
      ensures Value() == FirstSave(old(Value()), io)
    {
      hide SaveAll;
      var saved := SaveSnapshot(true, io.save);
      if saved {
        schemaPending := false;
        clearPending := false;
        SetMarks(false);
      } else {
        lastRetry := io.now;
      }
    }

    /** An unknown code changes nothing but the first initialization. */
    method SetActiveCode(code: U16, active: bool, withDetail: bool, detail: U8, rom: GoodRom, utc: U32, now: U32,
                         boot: BootIo, io: BatchIo)
      requires Valid()
      modifies this, kv, dtcs, pending, legacyFlags
      ensures forall i: Index :: CODES[i] == code ==>
                Value() == Step(old(Value()), rom, EvSet(i, active, withDetail, detail, utc, now, boot, io))
      ensures code !in CODES ==> Value() == Step(old(Value()), rom, EvQuery(boot))
    {
      hide Init, SetActive;
      Initialize(rom, boot);
      var found := FindIndex(code);
      CodesDistinct();
      if found < 0 {
        return;
      }
      SetActiveAt(found, active, withDetail, detail, utc, now, io);
    }

    method SetActiveAt(idx: Index, active: bool, withDetail: bool, detail: U8, utc: U32, now: U32, io: BatchIo)
      requires Valid()
      modifies this`lastRetry, kv, dtcs, pending
      ensures Value() == SetActive(old(Value()), idx, active, withDetail, detail, utc, now, io)
    {
      hide Report, Batch, RecordOps;
      ghost var d := Value();
      var changed := ReportEntry(idx, active, withDetail, detail, utc);
      assert (dtcs[idx], changed) == Report(d.ram.dtcs[idx], active, withDetail, detail, utc);
      assert Table() == d.ram.(dtcs := d.ram.dtcs[idx := dtcs[idx]]);
      PersistReport(idx, changed, now, io);
    }

    method ReportEntry(idx: Index, active: bool, withDetail: bool, detail: U8, utc: U32) returns (changed: bool)
      requires Valid()
      modifies dtcs
      ensures dtcs[..] == old(dtcs[..])[idx := dtcs[idx]]
      ensures (dtcs[idx], changed) == Report(old(dtcs[idx]), active, withDetail, detail, utc)
    {
      changed := false;
      if withDetail && dtcs[idx].detail != detail {
        dtcs[idx] := dtcs[idx].(detail := detail);
        changed := true;
      }
      if dtcs[idx].active != active {
        dtcs[idx] := dtcs[idx].(active := active);
      }
      if active {
        if !dtcs[idx].stored {
          dtcs[idx] := dtcs[idx].(stored := true);
          changed := true;
          if dtcs[idx].first == 0 {
            dtcs[idx] := dtcs[idx].(first := utc);
          }
        }
        if !dtcs[idx].permanent {
          dtcs[idx] := dtcs[idx].(permanent := true);
          changed := true;
        }
      }
    }

    /** Mark the entry pending, and save it at once unless a clear or a full
        snapshot has to come first. */
    method PersistReport(idx: Index, changed: bool, now: U32, io: BatchIo)
      requires Valid()
      modifies this`lastRetry, kv, pending
      ensures var r := old(Table());
              var saves := changed && r.storageReady && !r.schemaPending && !r.clearPending;
              var (kv', saved) := Batch(old(kv.Value()), RecordOps(idx, r.dtcs[idx]), io);
              Value() ==
              if !changed then old(Value())
              else if !saves then Dev(r.(pending := r.pending[idx := true]), old(kv.Value()))
              else if saved then Dev(r.(pending := r.pending[idx := false]), kv')
              else Dev(r.(pending := r.pending[idx := true], lastRetry := now), kv')
    {
      if changed {
        pending[idx] := true;
      }
      if changed && storageReady && !schemaPending && !clearPending {
        var saved := SaveOne(idx, io);
        if saved {
          pending[idx] := false;
          assert pending[..] == old(pending[..])[idx := false];
        } else {
          lastRetry := now;
        }
      }
    }

    static lemma CodesDistinct()
      ensures |CODES| == COUNT
      ensures forall i, j :: 0 <= i < j < COUNT ==> CODES[i] != CODES[j]
    {
    }

    method PollOnce(rom: GoodRom, now: U32, boot: BootIo, io: PollIo)
      requires Valid()
      modifies this, kv, dtcs, pending, legacyFlags
      ensures Value() == Step(old(Value()), rom, EvPoll(now, boot, io))
    {
      hide Init, Poll;
      Initialize(rom, boot);
      PollNow(rom, now, io);
    }

    method PollNow(rom: GoodRom, now: U32, io: PollIo)
      requires Valid()
      modifies this, kv, dtcs, pending, legacyFlags
      ensures Value() == Poll(old(Value()), rom, now, io)
    {
      hide PollOpen, PollRest, HasPending, RamShape;
      if Sub32(now, lastRetry) < RETRY_MS {
        return;
      }
      var any := AnyPending();
      if storageReady && !schemaPending && !clearPending && !any {
        return;
      }
      lastRetry := now;
      var ok := PollStorage(rom, io);
      if ok {
        PollParts(io);
      }
    }

    method PollParts(io: PollIo)
      requires Valid()
      modifies this, kv, pending
      ensures Value() == PollRest(old(Value()), io)
    {
      hide PollSchema, PollClear, PollSave, RamShape;
      var ok := PollMarkers(io);
      if ok {
        ok := PollQueuedClear(io);
      }
      if ok {
        PollSnapshot(io);
      }
    }

    method PollStorage(rom: GoodRom, io: PollIo) returns (ok: bool)
      requires Valid()
      modifies this, dtcs, pending, legacyFlags
      ensures (Value(), ok) == PollOpen(old(Value()), rom, io)
    {
      hide OpenStorage, LoadOrPrepare, RamShape;
      if storageReady {
        return true;
      }
      var any := AnyPending();
      var preserve := clearPending || any;
      ok := Open(rom, io.init);
      if ok {
        ok := LoadOpened(preserve, io.load);
      }
    }

    /** Up while it loads, down again if the load fails. */
    method LoadOpened(preserve: bool, io: LoadIo) returns (ok: bool)
      requires Valid()
      modifies this, dtcs, pending
      ensures ok == LoadOrPrepare(old(Table()).(storageReady := true), kv.flash, preserve, io).1
      ensures Table() == LoadOrPrepare(old(Table()).(storageReady := true), kv.flash, preserve, io).0.(storageReady := ok)
    {
      hide LoadOrPrepare;
      storageReady := true;
      ghost var r := Table();
      assert r == old(Table()).(storageReady := true);
      ReadyIs(r, kv.flash, preserve, io);
      ok := LoadOrPrepareSchema(preserve, io);
      storageReady := ok;
    }

    /** A load does not touch the storage flag. */
    static lemma ReadyIs(r: GoodRam, f: Flash, preserve: bool, io: LoadIo)
      ensures LoadOrPrepare(r, f, preserve, io).0.storageReady == r.storageReady
    {
      LoadKeepsReady(r, f, preserve, io.gets, 0);
    }

    static lemma {:induction false} LoadKeepsReady(r: GoodRam, f: Flash, skip: bool, gets: seq<bool>, i: nat)
      requires i <= COUNT
      ensures LoadFrom(r, f, skip, gets, i).0.storageReady == r.storageReady
      decreases COUNT - i
    {
      hide LoadEntry, ReadOk;
      if i < COUNT {
        if skip && r.pending[i] {
          LoadKeepsReady(r, f, skip, gets, i + 1);
        } else {
          var res := LoadEntry(r.dtcs[i], f, i, ReadOk(gets, 2 * i), ReadOk(gets, 2 * i + 1));
          LoadKeepsReady(r.(dtcs := r.dtcs[i := res.0]), f, skip, gets, i + 1);
        }
      }
    }

    method PollMarkers(io: PollIo) returns (ok: bool)
      requires Valid()
      modifies this, kv, pending
      ensures (Value(), ok) == PollSchema(old(Value()), io)
    {
      ok := true;
      if schemaPending {
        ok := SaveSnapshot(true, io.schema);
        if ok {
          schemaPending := false;
          clearPending := false;
          SetMarks(false);
        }
      }
    }

    method PollQueuedClear(io: PollIo) returns (ok: bool)
      requires Valid()
      modifies this, kv
      ensures (Value(), ok) == PollClear(old(Value()), io)
    {
      ok := true;
      if clearPending {
        ok := ClearKeys(io.clear);
        if ok {
          clearPending := false;
        }
      }
    }

    method PollSnapshot(io: PollIo)
      requires Valid()
      modifies kv, pending
      ensures Value() == PollSave(old(Value()), io)
    {
      var any := AnyPending();
      if any {
        var saved := SaveSnapshot(false, io.save);
        if saved {
          SetMarks(false);
        }
      }
    }

    method ClearCodes(rom: GoodRom, now: U32, boot: BootIo, io: BatchIo) returns (done: bool)
      requires Valid()
      modifies this, kv, dtcs, pending, legacyFlags
      ensures Value() == Step(old(Value()), rom, EvClear(now, boot, io))
      ensures done == ClearAll(Init(old(Value()), rom, boot), now, io).1
    {
      hide Init, ClearAll;
      Initialize(rom, boot);
      done := ClearNow(now, io);
    }

    method ClearNow(now: U32, io: BatchIo) returns (done: bool)
      requires Valid()
      modifies this, kv, dtcs, pending
      ensures (Value(), done) == ClearAll(old(Value()), now, io)
    {
      hide BatchEach, ClearOps;
      ResetTable();
      var cleared := false;
      if storageReady && !schemaPending {
        cleared := ClearKeys(io);
      }
      clearPending := !cleared;
      if clearPending {
        lastRetry := now;
      }
      done := !clearPending;
    }
  }
}
