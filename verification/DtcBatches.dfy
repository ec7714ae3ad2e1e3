/**
 * What the batches of the DTC manager leave in the store, for every driver
 * outcome: which prefix was issued, and what each single write keeps.
 */
module DtcBatches {
  import opened Words
  import opened KvStore
  import opened DtcSpec

  // ---- records and their loaded meaning -----------------------------------

  function RecordAt(f: Flash, key: U16): U32 { if key in f then f[key] else 0 }

  /** The entry a flags word and a timestamp stand for. */
  function Decode(word: U32, stamp: U32): (e: Entry) {
    if LowByte(word) % 4 == 0 then EMPTY
    else Entry(false, StoredBit(LowByte(word)), PermanentBit(LowByte(word)), stamp, DetailByte(word))
  }

  /** What the records of entry i mean. */
  function Loaded(f: Flash, i: Index): (e: Entry) {
    Decode(RecordAt(f, FlagsKey(i)), RecordAt(f, StampKey(i)))
  }

  /** The part of a runtime entry the records can carry. */
  function Norm(e: Entry): (n: Entry) {
    if Flagged(e) then e.(active := false) else EMPTY
  }

  predicate Recorded(f: Flash, i: Index, e: Entry) { Loaded(f, i) == Norm(e) }

  ghost predicate Agrees(r: GoodRam, f: Flash) {
    forall i: Index :: !r.pending[i] ==> Recorded(f, i, r.dtcs[i])
  }

  /** The flags word carries both flags and the detail, and nothing else does. */
  lemma WordDecodes(e: Entry)
    ensures var w := Word(FlagsOf(e), e.detail);
            && DetailByte(w) == e.detail
            && StoredBit(LowByte(w)) == e.stored && PermanentBit(LowByte(w)) == e.permanent
            && (LowByte(w) % 4 == 0 <==> !Flagged(e))
  {
    SplitWord(FlagsOf(e), e.detail);
  }

  lemma SplitWord(flags: U8, detail: U8)
    ensures LowByte(Word(flags, detail)) == flags && DetailByte(Word(flags, detail)) == detail
  {
    var w := Word(flags, detail);
    assert w == 0x100 * (w / 0x100) + w % 0x100;
    assert 0x100 * (w / 0x100 - detail) == flags - w % 0x100;
  }

  lemma FlagBits(b: U8)
    ensures b % 4 == 0 <==> !StoredBit(b) && !PermanentBit(b)
  {
    assert b == 4 * (b / 4) + b % 4;
  }

  lemma LoadedIsNormal(f: Flash, i: Index)
    ensures Norm(Loaded(f, i)) == Loaded(f, i)
  {
    FlagBits(LowByte(RecordAt(f, FlagsKey(i))));
  }

  /** A load whose reads all succeed makes of the records what they mean; the
      entry before it is irrelevant. */
  lemma LoadForgets(e: Entry, f: Flash, i: Index)
    ensures LoadEntry(e, f, i, true, true) == (Loaded(f, i), true)
  {
    FlagBits(LowByte(RecordAt(f, FlagsKey(i))));
  }

  lemma ApplyTwo(f: Flash, a: Op, b: Op)
    ensures ApplyAll(f, [a, b]) == Apply(Apply(f, a), b)
  {
    assert [a, b] == [a] + [b] && [a] == [] + [a];
    ApplyAllAppend(f, [a], b);
    ApplyAllAppend(f, [], a);
  }

  lemma OtherKeysKeepRecord(f: Flash, op: Op, i: Index)
    requires op.key != FlagsKey(i) && op.key != StampKey(i)
    ensures Loaded(Apply(f, op), i) == Loaded(f, i)
  {
  }

  /** Writing the records of an entry, from any earlier contents, records it. */
  lemma RecordOpsRecord(f: Flash, i: Index, e: Entry)
    ensures Recorded(ApplyAll(f, RecordOps(i, e)), i, e)
  {
    var ops := RecordOps(i, e);
    WordDecodes(e);
    ApplyTwo(f, ops[0], ops[1]);
  }

  /** Writing an entry that is recorded again never breaks its record half way. */
  lemma RewriteKeepsRecord(f: Flash, i: Index, e: Entry, j: Index, e': Entry, k: nat)
    requires k < 2 && Recorded(f, i, e) && (i == j ==> e == e')
    ensures Recorded(Apply(f, RecordOps(j, e')[k]), i, e)
  {
    var op := RecordOps(j, e')[k];
    if i != j {
      hide Loaded, Norm;
      OtherKeysKeepRecord(f, op, i);
    } else {
      hide Decode, Norm, Word;
      SameRecord(RecordAt(f, FlagsKey(i)), RecordAt(f, StampKey(i)), e);
    }
  }

  /** Either word of a record may be written again alone. */
  lemma SameRecord(word: U32, stamp: U32, e: Entry)
    requires Decode(word, stamp) == Norm(e)
    ensures Decode(Word(FlagsOf(e), e.detail), stamp) == Norm(e)
    ensures Decode(word, e.first) == Norm(e)
  {
    hide Word;
    WordDecodes(e);
  }

  lemma {:induction false} RecordsOpsLength(dtcs: seq<Entry>, n: nat)
    requires n <= COUNT && |dtcs| == COUNT
    ensures |RecordsOps(dtcs, n)| == 2 * n
    ensures forall k :: 0 <= k < 2 * n ==> RecordsOps(dtcs, n)[k] == RecordOps(k / 2, dtcs[k / 2])[k % 2]
  {
    if n > 0 {
      RecordsOpsLength(dtcs, n - 1);
    }
  }

  lemma {:induction false} RecordsOpsRecord(f: Flash, dtcs: seq<Entry>, n: nat)
    requires n <= COUNT && |dtcs| == COUNT
    ensures forall i: Index :: i < n ==> Recorded(ApplyAll(f, RecordsOps(dtcs, n)), i, dtcs[i])
  {
    hide Loaded, Norm, Apply;
    if n > 0 {
      var head, last := RecordsOps(dtcs, n - 1), RecordOps(n - 1, dtcs[n - 1]);
      var g := ApplyAll(f, head);
      RecordsOpsRecord(f, dtcs, n - 1);
      ApplyAllConcat(f, head, last);
      RecordOpsRecord(g, n - 1, dtcs[n - 1]);
      forall i: Index | i < n - 1 ensures Recorded(ApplyAll(g, last), i, dtcs[i]) {
        ApplyTwo(g, last[0], last[1]);
        OtherKeysKeepRecord(g, last[0], i);
        OtherKeysKeepRecord(Apply(g, last[0]), last[1], i);
      }
    }
  }

  lemma MarkerOpsApplied(f: Flash)
    ensures var g := ApplyAll(f, MARKER_OPS);
            HasMarkers(g) &&
            (forall i: Index :: Loaded(g, i) == Loaded(f, i))
  {
    ApplyTwo(f, MARKER_OPS[0], MARKER_OPS[1]);
  }

  /** A complete snapshot records all eleven entries, markers included. */
  lemma SnapshotRecords(f: Flash, dtcs: seq<Entry>, markers: bool)
    requires |dtcs| == COUNT
    ensures var g := ApplyAll(f, SnapshotOps(dtcs, markers));
            && (forall i: Index :: Recorded(g, i, dtcs[i]))
            && (markers ==> HasMarkers(g))
  {
    var body := RecordsOps(dtcs, COUNT);
    RecordsOpsRecord(f, dtcs, COUNT);
    if markers {
      ApplyAllConcat(f, body, MARKER_OPS);
      MarkerOpsApplied(ApplyAll(f, body));
    } else {
      assert SnapshotOps(dtcs, false) == body;
    }
  }

  lemma SnapshotLength(dtcs: seq<Entry>, markers: bool)
    requires |dtcs| == COUNT
    ensures |SnapshotOps(dtcs, markers)| == 2 * COUNT + (if markers then 2 else 0)
  {
    RecordsOpsLength(dtcs, COUNT);
  }

  /** The operations of a snapshot: records of the entries, or the markers. */
  lemma SnapshotOpAt(dtcs: seq<Entry>, markers: bool, k: nat)
    requires |dtcs| == COUNT && k < |SnapshotOps(dtcs, markers)|
    ensures |SnapshotOps(dtcs, markers)| == 2 * COUNT + (if markers then 2 else 0)
    ensures k < 2 * COUNT ==> SnapshotOps(dtcs, markers)[k] == RecordOps(k / 2, dtcs[k / 2])[k % 2]
    ensures k >= 2 * COUNT ==> SnapshotOps(dtcs, markers)[k] == MARKER_OPS[k - 2 * COUNT]
  {
    RecordsOpsLength(dtcs, COUNT);
  }

  lemma {:induction false} ClearOpsLength(n: nat)
    requires n <= COUNT
    ensures |ClearOps(n)| == 2 * n
  {
    if n > 0 {
      ClearOpsLength(n - 1);
    }
  }

  lemma {:induction false} ClearOpPair(n: nat, i: nat)
    requires i < n <= COUNT
    ensures |ClearOps(n)| == 2 * n
    ensures ClearOps(n)[2 * i] == Del(FlagsKey(i)) && ClearOps(n)[2 * i + 1] == Del(StampKey(i))
    decreases n
  {
    ClearOpsLength(n - 1);
    if i < n - 1 {
      ClearOpPair(n - 1, i);
    }
  }

  /** A complete clear leaves no record of any entry and no other change. */
  lemma {:induction false} ClearOpsClear(f: Flash, n: nat)
    requires n <= COUNT
    ensures var g := ApplyAll(f, ClearOps(n));
            && (forall i: Index :: i < n ==> FlagsKey(i) !in g && StampKey(i) !in g)
            && (forall key: U16 :: key < FLAGS_BASE ==> (key in g <==> key in f) && (key in g ==> g[key] == f[key]))
  {
    if n > 0 {
      var head := ClearOps(n - 1);
      var last := [Del(FlagsKey(n - 1)), Del(StampKey(n - 1))];
      ClearOpsClear(f, n - 1);
      ApplyAllConcat(f, head, last);
      var g := ApplyAll(f, head);
      ApplyTwo(g, last[0], last[1]);
    }
  }

  // ---- what a batch issues ------------------------------------------------

  /** A batch that stops at the first failure issues a prefix of its writes. */
  lemma {:induction false} StageFromIssues(staged: seq<Op>, ops: seq<Op>, ios: seq<Io>, k: nat) returns (m: nat)
    requires k <= |ops|
    ensures k <= m <= |ops|
    ensures StageFrom(staged, ops, ios, k).0 == staged + ops[k..m]
    ensures StageFrom(staged, ops, ios, k).1 ==> m == |ops|
    decreases |ops| - k
  {
    if k == |ops| {
      m := k;
    } else {
      var staged1 := StageOne(staged, ops[k], IoAt(ios, k));
      if IoAt(ios, k).ok {
        m := StageFromIssues(staged1, ops, ios, k + 1);
        assert staged1 + ops[k + 1..m] == staged + ops[k..m];
      } else {
        m := if IoAt(ios, k).kept then k + 1 else k;
        assert staged1 == staged + ops[k..m];
      }
    }
  }

  /** A batch that tries every write issues some of them, all if nothing failed. */
  lemma {:induction false} StageEachIssues(staged: seq<Op>, ops: seq<Op>, ios: seq<Io>, k: nat, good: bool)
    returns (issued: seq<Op>)
    requires k <= |ops|
    ensures StageEach(staged, ops, ios, k, good).0 == staged + issued
    ensures forall j :: 0 <= j < |issued| ==> issued[j] in ops
    ensures StageEach(staged, ops, ios, k, good).1 ==> good && issued == ops[k..]
    decreases |ops| - k
  {
    if k == |ops| {
      issued := [];
    } else {
      var staged1 := StageOne(staged, ops[k], IoAt(ios, k));
      var rest := StageEachIssues(staged1, ops, ios, k + 1, good && IoAt(ios, k).ok);
      issued := staged1[|staged|..] + rest;
      assert staged1 + rest == staged + issued;
    }
  }

  lemma BatchDone(kv: Kv, ops: seq<Op>, io: BatchIo)
    ensures Batch(kv, ops, io).1 ==> Batch(kv, ops, io).0 == Kv(ApplyAll(ApplyAll(kv.flash, kv.staged), ops), [])
    ensures BatchEach(kv, ops, io).1 ==> BatchEach(kv, ops, io).0 == Kv(ApplyAll(ApplyAll(kv.flash, kv.staged), ops), [])
  {
    if io.open {
      var m := StageFromIssues(kv.staged, ops, io.writes, 0);
      var issued := StageEachIssues(kv.staged, ops, io.writes, 0, true);
      assert ops[0..|ops|] == ops && ops[0..] == ops;
      ApplyAllConcat(kv.flash, kv.staged, ops);
    }
  }

  /** Every durable state a batch can leave, now or later, has property P when
      each prefix of its writes has it. */
  lemma BatchAlways(kv: Kv, ops: seq<Op>, io: BatchIo, P: Flash -> bool)
    requires Always(kv, P)
    requires forall k {:trigger ops[..k]} :: 0 <= k <= |ops| ==> P(ApplyAll(ApplyAll(kv.flash, kv.staged), ops[..k]))
    ensures Always(Batch(kv, ops, io).0, P)
  {
    if io.open {
      var m := StageFromIssues(kv.staged, ops, io.writes, 0);
      var issued := ops[..m];
      assert ops[0..m] == issued;
      forall k | 0 <= k <= |issued| ensures P(ApplyAll(ApplyAll(kv.flash, kv.staged), issued[..k])) {
        assert issued[..k] == ops[..k];
      }
      AlwaysStage(kv, issued, P);
      AlwaysCommit(kv.(staged := kv.staged + issued), io.commit, P);
    }
  }

  /** The same for a property that every single write of the batch keeps. */
  lemma BatchKeeps(kv: Kv, ops: seq<Op>, io: BatchIo, P: Flash -> bool)
    requires Always(kv, P)
    requires forall g, k :: 0 <= k < |ops| && P(g) ==> P(Apply(g, ops[k]))
    ensures Always(Batch(kv, ops, io).0, P)
    ensures Always(BatchEach(kv, ops, io).0, P)
  {
    AlwaysNow(kv, P);
    var g0 := ApplyAll(kv.flash, kv.staged);
    forall k | 0 <= k <= |ops| ensures P(ApplyAll(g0, ops[..k])) {
      KeptByEach(g0, ops[..k], P);
    }
    BatchAlways(kv, ops, io, P);
    if io.open {
      var issued := StageEachIssues(kv.staged, ops, io.writes, 0, true);
      forall g, j | 0 <= j < |issued| && P(g) ensures P(Apply(g, issued[j])) {
        var k :| 0 <= k < |ops| && ops[k] == issued[j];
        assert P(Apply(g, ops[k]));
      }
      forall k | 0 <= k <= |issued| ensures P(ApplyAll(g0, issued[..k])) {
        KeptByEach(g0, issued[..k], P);
      }
      AlwaysStage(kv, issued, P);
      AlwaysCommit(kv.(staged := kv.staged + issued), io.commit, P);
    }
  }

  /** With every call succeeding, a batch makes all its writes durable. */
  lemma {:induction false} StageFromAllOk(staged: seq<Op>, ops: seq<Op>, k: nat)
    requires k <= |ops|
    ensures StageFrom(staged, ops, [], k) == (staged + ops[k..], true)
    ensures StageEach(staged, ops, [], k, true) == (staged + ops[k..], true)
    decreases |ops| - k
  {
    if k < |ops| {
      StageFromAllOk(staged + [ops[k]], ops, k + 1);
      assert (staged + [ops[k]]) + ops[k + 1..] == staged + ops[k..];
    } else {
      assert staged + ops[k..] == staged;
    }
  }
}
