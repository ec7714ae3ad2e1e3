/**
 * The DTC manager as functions on values: the runtime table, its flags, and
 * every call as a function of the state and of the driver outcomes.
 */
module DtcSpec {
  import opened Words
  import opened KvStore

  const COUNT: nat := 11
  const LEGACY_COUNT: nat := 9
  const SCHEMA_KEY: U16 := 0xD700
  const MIGRATED_KEY: U16 := 0xD701
  const FLAGS_BASE: U16 := 0xD800
  const STAMP_BASE: U16 := 0xD900
  const MARKER_VERSION: U32 := 1
  const RETRY_MS: nat := 1000

  /** The registered codes; their order is the index of the persisted records. */
  const CODES: seq<U16> :=
    [0xD900, 0xD90D, 0x0657, 0xC100, 0xD902, 0xD908, 0xD909, 0xD90A, 0xD90B, 0xD90C, 0xC073]

  datatype Entry = Entry(active: bool, stored: bool, permanent: bool, first: U32, detail: U8)

  const EMPTY := Entry(false, false, false, 0, 0)

  type Index = i: nat | i < COUNT

  datatype Ram = Ram(
    dtcs: seq<Entry>,
    pending: seq<bool>,
    clearPending: bool,
    storageReady: bool,
    schemaPending: bool,
    legacyChecked: bool,
    legacyValid: bool,
    legacyFlags: seq<U8>,
    lastRetry: U32,
    initialized: bool)

  datatype Dev = Dev(ram: Ram, kv: Kv)

  /** The bytes of the older DTC area; nothing ever writes them. */
  datatype Rom = Rom(valid: bool, bytes: seq<U8>)

  /** Storage start: the steps before the legacy bytes are read, the read that
      fails (magic, version, then one per byte), and the steps after it. */
  datatype InitIo = InitIo(before: bool, failAt: nat, after: bool)

  datatype LoadIo = LoadIo(schemaOk: bool, migratedOk: bool, gets: seq<bool>)

  datatype BootIo = BootIo(now: U32, init: InitIo, load: LoadIo, save: BatchIo)

  datatype PollIo = PollIo(init: InitIo, load: LoadIo, schema: BatchIo, clear: BatchIo, save: BatchIo)

  ghost predicate RamShape(r: Ram) {
    |r.dtcs| == COUNT && |r.pending| == COUNT && |r.legacyFlags| == LEGACY_COUNT
  }

  type GoodRam = r: Ram | RamShape(r)
    ghost witness Ram(seq(COUNT, _ => EMPTY), seq(COUNT, _ => false), false, false, false, false, false,
                      seq(LEGACY_COUNT, _ => 0), 0, false)

  type GoodRom = r: Rom | |r.bytes| == LEGACY_COUNT
    ghost witness Rom(false, seq(LEGACY_COUNT, _ => 0))

  function PowerUp(): GoodRam {
    Ram(seq(COUNT, _ => EMPTY), seq(COUNT, _ => false), false, false, false, false, false,
        seq(LEGACY_COUNT, _ => 0), 0, false)
  }

  // ---- one record -------------------------------------------------------

  function FlagsKey(i: Index): U16 { FLAGS_BASE + i }

  function StampKey(i: Index): U16 { STAMP_BASE + i }

  function FlagsOf(e: Entry): (flags: U8) {
    (if e.stored then 1 else 0) + (if e.permanent then 2 else 0)
  }

  predicate StoredBit(flags: nat) { flags % 2 == 1 }

  predicate PermanentBit(flags: nat) { (flags / 2) % 2 == 1 }

  function WithFlags(e: Entry, flags: U8): Entry {
    e.(stored := StoredBit(flags), permanent := PermanentBit(flags))
  }

  predicate Flagged(e: Entry) { e.stored || e.permanent }

  /** The word of one entry: flags in the low byte, failure type byte above. */
  function Word(flags: U8, detail: U8): (w: U32) {
    flags + detail * 0x100
  }

  function LowByte(w: U32): (b: U8) { w % 0x100 }

  function DetailByte(w: U32): (b: U8) { (w / 0x100) % 0x100 }

  function RecordOps(i: Index, e: Entry): seq<Op> {
    [Put(FlagsKey(i), Word(FlagsOf(e), e.detail)),
     if e.first != 0 then Put(StampKey(i), e.first) else Del(StampKey(i))]
  }

  /** Load one entry; an entry without flags keeps neither detail nor time. */
  function LoadEntry(e: Entry, f: Flash, i: Index, flagsOk: bool, stampOk: bool): (Entry, bool) {
    var r := ReadKv(f, FlagsKey(i), flagsOk);
    if r.Failed? then (e, false)
    else
      var word: U32 := if r.Found? then r.value else 0;
      var e1 := WithFlags(e, LowByte(word)).(detail := DetailByte(word), active := false);
      if LowByte(word) % 4 == 0 then (e1.(first := 0, detail := 0), true)
      else
        var t := ReadKv(f, StampKey(i), stampOk);
        if t.Failed? then (e1, false)
        else (e1.(first := if t.Found? then t.value else 0), true)
  }

  // ---- whole-table steps ------------------------------------------------

  function ResetAll(r: GoodRam): (r': GoodRam) {
    r.(dtcs := seq(COUNT, _ => EMPTY), pending := seq(COUNT, _ => false))
  }

  function ClearMarks(r: GoodRam): (r': GoodRam) { r.(pending := seq(COUNT, _ => false)) }

  function MarkAll(r: GoodRam): (r': GoodRam) { r.(pending := seq(COUNT, _ => true)) }

  predicate HasPending(r: Ram) { exists i :: 0 <= i < |r.pending| && r.pending[i] }

  /** Take the flags of the older area over the entries that are not pending
      (`skip`), or over all of them. */
  function ApplyLegacy(r: GoodRam, skip: bool): (r': GoodRam) {
    if !r.legacyValid then r
    else r.(dtcs := seq(COUNT, i requires 0 <= i < COUNT =>
              if i < LEGACY_COUNT && !(skip && r.pending[i])
              then WithFlags(r.dtcs[i], r.legacyFlags[i]).(active := false)
              else r.dtcs[i]))
  }

  function ReadOk(gets: seq<bool>, k: nat): bool { k < |gets| ==> gets[k] }

  /** Load entries i.. in order, stopping at the first read that fails. */
  function LoadFrom(r: GoodRam, f: Flash, skip: bool, gets: seq<bool>, i: nat): (res: (GoodRam, bool))
    requires i <= COUNT
    decreases COUNT - i
  {
    if i == COUNT then (r, true)
    else if skip && r.pending[i] then LoadFrom(r, f, skip, gets, i + 1)
    else
      var (e, ok) := LoadEntry(r.dtcs[i], f, i, ReadOk(gets, 2 * i), ReadOk(gets, 2 * i + 1));
      var r1 := r.(dtcs := r.dtcs[i := e]);
      if ok then LoadFrom(r1, f, skip, gets, i + 1) else (r1, false)
  }

  /** Read the legacy area once; a failed read leaves it unchecked. */
  function Capture(r: GoodRam, rom: GoodRom, failAt: nat): (res: (GoodRam, bool)) {
    if r.legacyChecked then (r, true)
    else if failAt < 2 then (r, false)
    else if !rom.valid then (r.(legacyValid := false, legacyChecked := true), true)
    else
      var n := if failAt - 2 < LEGACY_COUNT then failAt - 2 else LEGACY_COUNT;
      var flags := rom.bytes[..n] + r.legacyFlags[n..];
      if n < LEGACY_COUNT then (r.(legacyFlags := flags), false)
      else (r.(legacyFlags := flags, legacyValid := true, legacyChecked := true), true)
  }

  function OpenStorage(r: GoodRam, rom: GoodRom, io: InitIo): (res: (GoodRam, bool)) {
    if !io.before then (r, false)
    else
      var (r1, ok) := Capture(r, rom, io.failAt);
      (r1, ok && io.after)
  }

  predicate Marker(f: Flash, key: U16) { key in f && f[key] == MARKER_VERSION }

  predicate HasMarkers(f: Flash) { Marker(f, SCHEMA_KEY) && Marker(f, MIGRATED_KEY) }

  predicate UseLegacy(r: Ram, f: Flash) {
    !Marker(f, SCHEMA_KEY) && !Marker(f, MIGRATED_KEY) && r.legacyValid
  }

  /** The table from the legacy bytes or from the store; while a clear is queued
      the table of a running device is kept. */
  function TakeSource(r: GoodRam, f: Flash, preserve: bool, gets: seq<bool>): (res: (GoodRam, bool)) {
    if preserve && r.clearPending then (r, true)
    else if UseLegacy(r, f) then (ApplyLegacy(if preserve then r else ResetAll(r), preserve), true)
    else LoadFrom(r, f, preserve, gets, 0)
  }

  function LoadOrPrepare(r: GoodRam, f: Flash, preserve: bool, io: LoadIo): (res: (GoodRam, bool)) {
    if !io.schemaOk || !io.migratedOk then (r, false)
    else
      var (r1, ok) := TakeSource(r, f, preserve, io.gets);
      if !ok then (r1, false)
      else if HasMarkers(f) then (r1.(schemaPending := false), true)
      else (MarkAll(r1).(schemaPending := true), true)
  }

  // ---- batches ----------------------------------------------------------

  /** Stage writes k.. up to the first that fails. */
  function StageFrom(staged: seq<Op>, ops: seq<Op>, ios: seq<Io>, k: nat): (seq<Op>, bool)
    requires k <= |ops|
    decreases |ops| - k
  {
    if k == |ops| then (staged, true)
    else
      var staged1 := StageOne(staged, ops[k], IoAt(ios, k));
      if IoAt(ios, k).ok then StageFrom(staged1, ops, ios, k + 1) else (staged1, false)
  }

  /** Stage writes k.. whatever fails; good only if none did. */
  function StageEach(staged: seq<Op>, ops: seq<Op>, ios: seq<Io>, k: nat, good: bool): (seq<Op>, bool)
    requires k <= |ops|
    decreases |ops| - k
  {
    if k == |ops| then (staged, good)
    else
      StageEach(StageOne(staged, ops[k], IoAt(ios, k)), ops, ios, k + 1, good && IoAt(ios, k).ok)
  }

  function FinishBatch(kv: Kv, staged: seq<Op>, good: bool, io: BatchIo): (Kv, bool) {
    (CommitKv(Kv(kv.flash, staged), io.commit), good && io.commit.ok && io.restore)
  }

  function Batch(kv: Kv, ops: seq<Op>, io: BatchIo): (Kv, bool) {
    if !io.open then (kv, false)
    else
      var (staged, good) := StageFrom(kv.staged, ops, io.writes, 0);
      FinishBatch(kv, staged, good, io)
  }

  function BatchEach(kv: Kv, ops: seq<Op>, io: BatchIo): (Kv, bool) {
    if !io.open then (kv, false)
    else
      var (staged, good) := StageEach(kv.staged, ops, io.writes, 0, true);
      FinishBatch(kv, staged, good, io)
  }

  function RecordsOps(dtcs: seq<Entry>, n: nat): seq<Op>
    requires n <= COUNT && |dtcs| == COUNT
  {
    if n == 0 then [] else RecordsOps(dtcs, n - 1) + RecordOps(n - 1, dtcs[n - 1])
  }

  const MARKER_OPS: seq<Op> := [Put(MIGRATED_KEY, MARKER_VERSION), Put(SCHEMA_KEY, MARKER_VERSION)]

  /** The full snapshot: all records, then the migration marker, the schema last. */
  function SnapshotOps(dtcs: seq<Entry>, markers: bool): seq<Op>
    requires |dtcs| == COUNT
  {
    RecordsOps(dtcs, COUNT) + (if markers then MARKER_OPS else [])
  }

  function ClearOps(n: nat): seq<Op>
    requires n <= COUNT
  {
    if n == 0 then [] else ClearOps(n - 1) + [Del(FlagsKey(n - 1)), Del(StampKey(n - 1))]
  }

  function SaveAll(r: GoodRam, kv: Kv, markers: bool, io: BatchIo): (Kv, bool) {
    Batch(kv, SnapshotOps(r.dtcs, markers), io)
  }

  // ---- the calls --------------------------------------------------------

  /** The schema snapshot of an init. */
  function FirstSave(d: Dev, io: BootIo): (d': Dev)
    requires RamShape(d.ram)
    ensures RamShape(d'.ram)
  {
    var (kv', saved) := SaveAll(d.ram, d.kv, true, io.save);
    if saved then Dev(ClearMarks(d.ram).(schemaPending := false, clearPending := false), kv')
    else Dev(d.ram.(lastRetry := io.now), kv')
  }

  /** The rest of an init, once the storage is up. */
  function FirstLoad(d: Dev, io: BootIo): (d': Dev)
    requires RamShape(d.ram)
    ensures RamShape(d'.ram)
  {
    var (r, loaded) := LoadOrPrepare(d.ram, d.kv.flash, false, io.load);
    if !loaded then
      Dev(r.(storageReady := false, schemaPending := true, lastRetry := io.now, initialized := true), d.kv)
    else
      var d1 := if r.schemaPending then FirstSave(Dev(r, d.kv), io) else Dev(r, d.kv);
      d1.(ram := d1.ram.(initialized := true))
  }

  /** dtcManagerInit, on the first call of the module after a start. */
  function Init(d: Dev, rom: GoodRom, io: BootIo): (d': Dev)
    requires RamShape(d.ram)
    ensures RamShape(d'.ram)
  {
    if d.ram.initialized then d
    else
      var (r1, up) := OpenStorage(d.ram, rom, io.init);
      if !up then
        Dev(ResetAll(r1).(storageReady := false, schemaPending := true, lastRetry := io.now, initialized := true), d.kv)
      else FirstLoad(d.(ram := r1.(storageReady := true)), io)
  }

  /** The entry after a report, and whether anything persisted changed. */
  function Report(e: Entry, active: bool, withDetail: bool, detail: U8, utc: U32): (res: (Entry, bool)) {
    var e1 := if withDetail then e.(detail := detail) else e;
    var e2 := if active then
                e1.(stored := true, permanent := true,
                    first := if !e.stored && e.first == 0 then utc else e.first)
              else e1;
    (e2.(active := active), (withDetail && e.detail != detail) || (active && !(e.stored && e.permanent)))
  }

  /** setActiveImpl for a registered code. */
  function SetActive(d: Dev, i: Index, active: bool, withDetail: bool, detail: U8, utc: U32, now: U32, io: BatchIo)
    : (d': Dev)
    requires RamShape(d.ram)
    ensures RamShape(d'.ram)
  {
    var (e, changed) := Report(d.ram.dtcs[i], active, withDetail, detail, utc);
    var r1 := d.ram.(dtcs := d.ram.dtcs[i := e]);
    if !changed then d.(ram := r1)
    else if !r1.storageReady || r1.schemaPending || r1.clearPending then
      d.(ram := r1.(pending := r1.pending[i := true]))
    else
      var (kv', saved) := Batch(d.kv, RecordOps(i, e), io);
      if saved then Dev(r1.(pending := r1.pending[i := false]), kv')
      else Dev(r1.(pending := r1.pending[i := true], lastRetry := now), kv')
  }

  predicate PollDue(r: Ram, now: U32) {
    Sub32(now, r.lastRetry) >= RETRY_MS &&
    !(r.storageReady && !r.schemaPending && !r.clearPending && !HasPending(r))
  }

  /** First part of a poll: bring the storage up. */
  function PollOpen(d: Dev, rom: GoodRom, io: PollIo): (res: (Dev, bool))
    requires RamShape(d.ram)
    ensures RamShape(res.0.ram)
  {
    if d.ram.storageReady then (d, true)
    else
      var preserve := d.ram.clearPending || HasPending(d.ram);
      var (r1, up) := OpenStorage(d.ram, rom, io.init);
      if !up then (d.(ram := r1), false)
      else
        var (r2, loaded) := LoadOrPrepare(r1.(storageReady := true), d.kv.flash, preserve, io.load);
        (d.(ram := r2.(storageReady := loaded)), loaded)
  }

  /** Second part: the snapshot with the markers. */
  function PollSchema(d: Dev, io: PollIo): (res: (Dev, bool))
    requires RamShape(d.ram)
    ensures RamShape(res.0.ram)
  {
    if !d.ram.schemaPending then (d, true)
    else
      var (kv', saved) := SaveAll(d.ram, d.kv, true, io.schema);
      if saved then (Dev(ClearMarks(d.ram).(schemaPending := false, clearPending := false), kv'), true)
      else (d.(kv := kv'), false)
  }

  /** Third part: the queued clear. */
  function PollClear(d: Dev, io: PollIo): (res: (Dev, bool))
    requires RamShape(d.ram)
    ensures RamShape(res.0.ram)
  {
    if !d.ram.clearPending then (d, true)
    else
      var (kv', cleared) := BatchEach(d.kv, ClearOps(COUNT), io.clear);
      if cleared then (Dev(d.ram.(clearPending := false), kv'), true) else (d.(kv := kv'), false)
  }

  /** Last part: the pending entries, as one snapshot. */
  function PollSave(d: Dev, io: PollIo): (d': Dev)
    requires RamShape(d.ram)
    ensures RamShape(d'.ram)
  {
    if !HasPending(d.ram) then d
    else
      var (kv', saved) := SaveAll(d.ram, d.kv, false, io.save);
      Dev(if saved then ClearMarks(d.ram) else d.ram, kv')
  }

  /** The parts after the first, each only after the one before succeeded. */
  function PollRest(d: Dev, io: PollIo): (d': Dev)
    requires RamShape(d.ram)
    ensures RamShape(d'.ram)
  {
    var (d1, ok1) := PollSchema(d, io);
    if !ok1 then d1
    else
      var (d2, ok2) := PollClear(d1, io);
      if !ok2 then d2 else PollSave(d2, io)
  }

  function Poll(d: Dev, rom: GoodRom, now: U32, io: PollIo): (d': Dev)
    requires RamShape(d.ram)
    ensures RamShape(d'.ram)
  {
    if !PollDue(d.ram, now) then d
    else
      var (d1, ok1) := PollOpen(d.(ram := d.ram.(lastRetry := now)), rom, io);
      if !ok1 then d1 else PollRest(d1, io)
  }

  function ClearAll(d: Dev, now: U32, io: BatchIo): (res: (Dev, bool))
    requires RamShape(d.ram)
    ensures RamShape(res.0.ram)
  {
    var r := ResetAll(d.ram);
    if !r.storageReady || r.schemaPending then
      (d.(ram := r.(clearPending := true, lastRetry := now)), false)
    else
      var (kv', cleared) := BatchEach(d.kv, ClearOps(COUNT), io);
      if cleared then (Dev(r.(clearPending := false), kv'), true)
      else (Dev(r.(clearPending := true, lastRetry := now), kv'), false)
  }

  /** The device stops and starts again. */
  function Restart(d: Dev, durable: nat): (d': Dev)
    ensures RamShape(d'.ram)
  {
    Dev(PowerUp(), StopKv(d.kv, durable))
  }

  // ---- runs -------------------------------------------------------------

  datatype Event =
    | EvSet(i: Index, active: bool, withDetail: bool, detail: U8, utc: U32, now: U32, boot: BootIo, io: BatchIo)
    | EvPoll(now: U32, boot: BootIo, poll: PollIo)
    | EvClear(now: U32, boot: BootIo, io: BatchIo)
    | EvQuery(boot: BootIo)                  // any read-only call
    | EvShared(commit: CommitIo)             // another user of the store commits
    | EvRestart(durable: nat)

  function Step(d: Dev, rom: GoodRom, ev: Event): (d': Dev)
    requires RamShape(d.ram)
    ensures RamShape(d'.ram)
  {
    match ev
    case EvSet(i, active, withDetail, detail, utc, now, boot, io) =>
      SetActive(Init(d, rom, boot), i, active, withDetail, detail, utc, now, io)
    case EvPoll(now, boot, poll) => Poll(Init(d, rom, boot), rom, now, poll)
    case EvClear(now, boot, io) => ClearAll(Init(d, rom, boot), now, io).0
    case EvQuery(boot) => Init(d, rom, boot)
    case EvShared(commit) => d.(kv := CommitKv(d.kv, commit))
    case EvRestart(durable) => Restart(d, durable)
  }

  function Boot(f: Flash): (d: Dev)
    ensures RamShape(d.ram)
  {
    Dev(PowerUp(), Kv(f, []))
  }

  /** The states `ds` of a device that starts on store `f` and sees `evs`. */
  ghost predicate IsRun(f: Flash, rom: GoodRom, evs: seq<Event>, ds: seq<Dev>) {
    && |ds| == |evs| + 1
    && ds[0] == Boot(f)
    && (forall k :: 0 <= k < |ds| ==> RamShape(ds[k].ram))
    && (forall k {:trigger evs[k]} :: 0 <= k < |evs| ==> ds[k + 1] == Step(ds[k], rom, evs[k]))
  }
}
