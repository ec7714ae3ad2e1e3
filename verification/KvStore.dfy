/**
 * The key-value store under the DTC manager: durable records, and the writes of
 * a deferred batch that are staged until a commit makes them durable in order.
 * Every outcome of the storage driver is an input.
 */
module KvStore {
  import opened Words

  datatype Op = Put(key: U16, value: U32) | Del(key: U16)

  type Flash = map<U16, U32>

  /** What one staging call did: its status, and whether the write is in the batch. */
  datatype Io = Io(ok: bool, kept: bool)

  /** A commit that fails leaves some prefix durable and may keep the rest for
      the next commit or drop it. */
  datatype CommitIo = CommitIo(ok: bool, durable: nat, keep: bool)

  datatype BatchIo = BatchIo(open: bool, writes: seq<Io>, commit: CommitIo, restore: bool)

  datatype Kv = Kv(flash: Flash, staged: seq<Op>)

  datatype ReadResult = Found(value: U32) | Missing | Failed

  function Apply(f: Flash, op: Op): Flash {
    match op
    case Put(k, v) => f[k := v]
    case Del(k) => f - {k}
  }

  function ApplyAll(f: Flash, ops: seq<Op>): Flash {
    if ops == [] then f else Apply(ApplyAll(f, ops[..|ops| - 1]), ops[|ops| - 1])
  }

  function IoAt(ios: seq<Io>, k: nat): Io {
    if k < |ios| then ios[k] else Io(true, true)
  }

  function StageOne(staged: seq<Op>, op: Op, io: Io): seq<Op> {
    if io.ok || io.kept then staged + [op] else staged
  }

  function CommitKv(kv: Kv, c: CommitIo): Kv {
    if c.ok then Kv(ApplyAll(kv.flash, kv.staged), [])
    else
      var n := if c.durable <= |kv.staged| then c.durable else |kv.staged|;
      Kv(ApplyAll(kv.flash, kv.staged[..n]), if c.keep then kv.staged[n..] else [])
  }

  /** The device stops: what was durable stays, the rest of the batch is gone. */
  function StopKv(kv: Kv, durable: nat): Kv {
    CommitKv(kv, CommitIo(false, durable, false))
  }

  function ReadKv(f: Flash, key: U16, ok: bool): ReadResult {
    if !ok then Failed else if key in f then Found(f[key]) else Missing
  }

  /** P holds of the durable records now, and after every further staged write
      that may still become durable. */
  ghost predicate Always(kv: Kv, P: Flash -> bool) {
    forall n :: 0 <= n <= |kv.staged| ==> P(ApplyAll(kv.flash, kv.staged[..n]))
  }

  lemma ApplyAllAppend(f: Flash, a: seq<Op>, op: Op)
    ensures ApplyAll(f, a + [op]) == Apply(ApplyAll(f, a), op)
  {
    assert (a + [op])[..|a + [op]| - 1] == a;
  }

  /** Committing a batch in two parts is committing it whole. */
  lemma {:induction false} ApplyAllConcat(f: Flash, a: seq<Op>, b: seq<Op>)
    ensures ApplyAll(f, a + b) == ApplyAll(ApplyAll(f, a), b)
    decreases |b|
  {
    if b == [] {
      assert a + b == a;
    } else {
      var c := b[..|b| - 1];
      ApplyAllConcat(f, a, c);
      assert a + b == (a + c) + [b[|b| - 1]];
      ApplyAllAppend(f, a + c, b[|b| - 1]);
    }
  }

  lemma AlwaysNow(kv: Kv, P: Flash -> bool)
    requires Always(kv, P)
    ensures P(kv.flash) && P(ApplyAll(kv.flash, kv.staged))
  {
    assert kv.staged[..0] == [];
    assert kv.staged[..|kv.staged|] == kv.staged;
    assert P(ApplyAll(kv.flash, kv.staged[..0]));
    assert P(ApplyAll(kv.flash, kv.staged[..|kv.staged|]));
  }

  lemma AlwaysEmpty(f: Flash, P: Flash -> bool)
    requires P(f)
    ensures Always(Kv(f, []), P)
  {
    assert ApplyAll(f, []) == f;
  }

  lemma TakeTake(s: seq<Op>, n: nat, m: nat)
    requires n <= |s| && m <= |s| - n
    ensures s[..n] + s[n..][..m] == s[..n + m]
  {
  }

  /** Whatever a commit does, a property of every durable prefix stays one. */
  lemma AlwaysCommit(kv: Kv, c: CommitIo, P: Flash -> bool)
    requires Always(kv, P)
    ensures Always(CommitKv(kv, c), P)
    ensures Always(CommitKv(kv, c).(staged := []), P)
  {
    AlwaysNow(kv, P);
    var n := if c.ok || c.durable > |kv.staged| then |kv.staged| else c.durable;
    var g := ApplyAll(kv.flash, kv.staged[..n]);
    assert kv.staged[..|kv.staged|] == kv.staged;
    assert CommitKv(kv, c).flash == g;
    assert P(g);
    AlwaysEmpty(g, P);
    var rest := kv.staged[n..];
    forall m | 0 <= m <= |rest| ensures P(ApplyAll(g, rest[..m])) {
      ApplyAllConcat(kv.flash, kv.staged[..n], rest[..m]);
      TakeTake(kv.staged, n, m);
    }
  }

  /** Staging writes keeps the property when every stage of the new writes has it. */
  lemma AlwaysStage(kv: Kv, ops: seq<Op>, P: Flash -> bool)
    requires Always(kv, P)
    requires forall k {:trigger ops[..k]} :: 0 <= k <= |ops| ==> P(ApplyAll(ApplyAll(kv.flash, kv.staged), ops[..k]))
    ensures Always(kv.(staged := kv.staged + ops), P)
  {
    var all := kv.staged + ops;
    forall n | 0 <= n <= |all| ensures P(ApplyAll(kv.flash, all[..n])) {
      if n <= |kv.staged| {
        assert all[..n] == kv.staged[..n];
      } else {
        var k := n - |kv.staged|;
        assert all[..n] == kv.staged + ops[..k];
        ApplyAllConcat(kv.flash, kv.staged, ops[..k]);
      }
    }
  }

  /** A property every single write keeps is kept by all of them. */
  lemma {:induction false} KeptByEach(f: Flash, ops: seq<Op>, P: Flash -> bool)
    requires P(f)
    requires forall g, k :: 0 <= k < |ops| && P(g) ==> P(Apply(g, ops[k]))
    ensures P(ApplyAll(f, ops))
    decreases |ops|
  {
    if ops != [] {
      KeptByEach(f, ops[..|ops| - 1], P);
    }
  }

  /** The two stop models agree: a device that stops after issuing some of a
      batch, with some of the issued writes durable, leaves the records of a
      batch whose commit failed there. */
  lemma StopIsFailedCommit(kv: Kv, issued: seq<Op>, durable: nat)
    requires durable <= |kv.staged| + |issued|
    ensures StopKv(kv.(staged := kv.staged + issued), durable).flash
         == ApplyAll(ApplyAll(kv.flash, kv.staged[..if durable <= |kv.staged| then durable else |kv.staged|]),
                     issued[..if durable <= |kv.staged| then 0 else durable - |kv.staged|])
  {
    var all := kv.staged + issued;
    if durable <= |kv.staged| {
      assert all[..durable] == kv.staged[..durable];
    } else {
      var k := durable - |kv.staged|;
      assert all[..durable] == kv.staged[..|kv.staged|] + issued[..k];
      ApplyAllConcat(kv.flash, kv.staged[..|kv.staged|], issued[..k]);
    }
  }

  /** The store as the firmware calls it. */
  class Store {
    var flash: Flash
    var staged: seq<Op>

    ghost function Value(): Kv
      reads this
    {
      Kv(flash, staged)
    }

    constructor (f: Flash)
      ensures Value() == Kv(f, [])
    {
      flash, staged := f, [];
    }

    method Write(op: Op, io: Io) returns (ok: bool)
      modifies this`staged
      ensures ok == io.ok
      ensures staged == StageOne(old(staged), op, io)
    {
      if io.ok || io.kept {
        staged := staged + [op];
      }
      ok := io.ok;
    }

    method Read(key: U16, driverOk: bool) returns (r: ReadResult)
      ensures r == ReadKv(flash, key, driverOk)
    {
      if !driverOk {
        r := Failed;
      } else if key in flash {
        r := Found(flash[key]);
      } else {
        r := Missing;
      }
    }

    /** Write the staged operations out one by one, up to the failure. */
    method Commit(c: CommitIo) returns (ok: bool)
      modifies this
      ensures ok == c.ok
      ensures Value() == CommitKv(old(Value()), c)
    {
      var target := if c.ok || c.durable > |staged| then |staged| else c.durable;
      var k := 0;
      assert staged[..0] == [];
      while k < target
        invariant 0 <= k <= target <= |staged|
        invariant staged == old(staged)
        invariant flash == ApplyAll(old(flash), staged[..k])
      {
        var op := staged[k];
        assert staged[..k + 1] == staged[..k] + [op];
        ApplyAllAppend(old(flash), staged[..k], op);
        match op {
          case Put(key, v) => flash := flash[key := v];
          case Del(key) => flash := flash - {key};
        }
        k := k + 1;
      }
      assert staged[..|staged|] == staged;
      staged := if c.ok || !c.keep then [] else staged[target..];
      ok := c.ok;
    }
  }
}
