/** Versioned storage: the LevelDB-backed store and the in-memory store behave alike. */
module Storage {
  import opened Messages
  import opened OrderedKeys

  type Version = (string, int)

  type History = seq<Version>

  /** Versions are 1, 2, ..., oldest first. */
  predicate Versioned(h: History) {
    forall i :: 0 <= i < |h| ==> h[i].1 == i + 1
  }

  // ----- reading a history, newest first, as the loops of both stores do

  /** The backward search among the first n versions. */
  function Search(h: History, n: nat, version: int): Option<Version>
    requires n <= |h|
  {
    if n == 0 || h[n - 1].1 < version then None
    else if h[n - 1].1 == version then Some(h[n - 1])
    else Search(h, n - 1, version)
  }

  function Range(h: History, n: nat, lo: int, hi: int): History
    requires n <= |h|
  {
    if n == 0 || h[n - 1].1 < lo then []
    else (if h[n - 1].1 <= hi then [h[n - 1]] else []) + Range(h, n - 1, lo, hi)
  }

  /** The newest `count` of the first n versions, newest first. */
  function Newest(h: History, n: nat, count: nat): History
    requires n <= |h|
  {
    if n == 0 || count == 0 then [] else [h[n - 1]] + Newest(h, n - 1, count - 1)
  }

  const NOTHING: Version := ("", 0)

  function Last(h: History): Version
    requires h != []
  {
    h[|h| - 1]
  }

  /** `ResLevelDB::GetValueWithVersion`: searches only for positive versions. */
  function LevelGet(h: History, version: int): Version {
    if h == [] then NOTHING
    else if version > 0 && Search(h, |h|, version).Some? then Search(h, |h|, version).value
    else Last(h)
  }

  /** `MemoryDB::GetValueWithVersion`: always searches. */
  function MemoryGet(h: History, version: int): Version {
    if h == [] then NOTHING
    else if Search(h, |h|, version).Some? then Search(h, |h|, version).value
    else Last(h)
  }

  const SIZE_MAX: nat := 0xFFFF_FFFF_FFFF_FFFF

  /** The conversion of a 32-bit count to `size_t`. */
  function AsSize(n: int): nat
    requires -0x8000_0000 <= n < 0x8000_0000
  {
    if n < 0 then (SIZE_MAX + 1 + n) as nat else n
  }

  function LevelTop(h: History, n: int): History
    requires -0x8000_0000 <= n < 0x8000_0000
  {
    Newest(h, |h|, AsSize(n))
  }

  /** The do-while loop of `MemoryDB::GetTopHistory` takes one version before it looks at the count. */
  function MemoryTop(h: History, n: int): History
    requires -0x8000_0000 <= n < 0x8000_0000
  {
    if h == [] then [] else [Last(h)] + Newest(h, |h| - 1, if AsSize(n) == 0 then 0 else AsSize(n) - 1)
  }

  // ----- what the reads mean

  lemma {:induction false} SearchExact(h: History, n: nat, version: int)
    requires Versioned(h) && n <= |h|
    ensures Search(h, n, version) == if 1 <= version <= n then Some(h[version - 1]) else None
  {
    if n > 0 && h[n - 1].1 > version {
      SearchExact(h, n - 1, version);
    }
  }

  /** Both stores answer a read with that very version if it exists, else with the newest one. */
  lemma GetExact(h: History, version: int)
    requires Versioned(h)
    ensures LevelGet(h, version) == MemoryGet(h, version)
         == if h == [] then NOTHING else if 1 <= version <= |h| then h[version - 1] else Last(h)
  {
    SearchExact(h, |h|, version);
  }

  /** A history query yields the existing versions from hi down to lo, each with its value. */
  lemma {:induction false} RangeExact(h: History, n: nat, lo: int, hi: int)
    requires Versioned(h) && n <= |h|
    ensures var r, top, bottom := Range(h, n, lo, hi), Min(hi, n), Max(lo, 1);
      && |r| == Max(top - bottom + 1, 0)
      && forall i :: 0 <= i < |r| ==> r[i] == h[top - 1 - i]
  {
    if n > 0 && n >= lo {
      RangeExact(h, n - 1, lo, hi);
    }
  }

  lemma {:induction false} NewestExact(h: History, n: nat, count: nat)
    requires n <= |h|
    ensures var r := Newest(h, n, count); |r| == Min(n, count) && forall i :: 0 <= i < |r| ==> r[i] == h[n - 1 - i]
  {
    if n > 0 && count > 0 {
      NewestExact(h, n - 1, count - 1);
    }
  }

  /** The newest-versions query yields that many versions, or all there are, newest first; a negative count is huge. */
  lemma TopContents(h: History, n: int, i: nat)
    requires -0x8000_0000 <= n < 0x8000_0000
    ensures |LevelTop(h, n)| == (if n < 0 then Min(|h|, 0x1_0000_0000_0000_0000 + n) else Min(|h|, n))
    ensures |MemoryTop(h, n)| == Min(|h|, Max(|LevelTop(h, n)|, 1))
    ensures i < |LevelTop(h, n)| ==> LevelTop(h, n)[i] == h[|h| - 1 - i]
    ensures i < |MemoryTop(h, n)| ==> MemoryTop(h, n)[i] == h[|h| - 1 - i]
  {
    NewestExact(h, |h|, AsSize(n));
    if h != [] {
      NewestExact(h, |h| - 1, if AsSize(n) == 0 then 0 else AsSize(n) - 1);
    }
  }

  /** The newest-versions query differs between the stores exactly for count 0 on a key that has versions. */
  lemma TopExact(h: History, n: int)
    requires -0x8000_0000 <= n < 0x8000_0000
    ensures LevelTop(h, n) == MemoryTop(h, n) <==> n != 0 || h == []
  {
  }

  // ----- the stores

  datatype Op =
    | Set(key: string, value: string, version: int)
    | Get(key: string, version: int)
    | GetHistory(key: string, lo: int, hi: int)
    | GetTop(key: string, count: int)

  datatype Result = Code(ret: int) | One(found: Version) | Many(list: History)

  predicate Valid(op: Op) {
    op.GetTop? ==> -0x8000_0000 <= op.count < 0x8000_0000
  }

  type Table = map<string, History>

  function Lookup(t: Table, key: string): History {
    if key in t then t[key] else []
  }

  /** The LevelDB store: what is written, and the batch not written yet. */
  datatype Level = Level(db: Table, batch: seq<(string, History)>)

  /** Encoded size of one put; a batch holds a 12-byte header and its puts. */
  type Sizer = (string, History) -> nat

  const BATCH_HEADER: nat := 12

  function BatchSize(size: Sizer, batch: seq<(string, History)>): nat {
    if batch == [] then BATCH_HEADER
    else BatchSize(size, batch[..|batch| - 1]) + size(batch[|batch| - 1].0, batch[|batch| - 1].1)
  }

  function WriteBatch(db: Table, batch: seq<(string, History)>): Table {
    if batch == [] then db
    else WriteBatch(db, batch[..|batch| - 1])[batch[|batch| - 1].0 := batch[|batch| - 1].1]
  }

  /** `SetValue`: put into the batch, write the batch once it is large enough. */
  function Put(s: Level, size: Sizer, limit: nat, key: string, h: History): Level {
    var batch := s.batch + [(key, h)];
    if BatchSize(size, batch) >= limit then Level(WriteBatch(s.db, batch), []) else s.(batch := batch)
  }

  function LevelStep(s: Level, size: Sizer, limit: nat, op: Op): (Level, Result)
    requires Valid(op)
  {
    var h := Lookup(s.db, op.key);
    match op
    case Set(key, value, version) =>
      var last := if h == [] then 0 else Last(h).1;
      if last != version then (s, Code(-2))
      else (Put(s, size, limit, key, h + [(value, version + 1)]), Code(0))
    case Get(key, version) => (s, One(LevelGet(h, version)))
    case GetHistory(key, lo, hi) => (s, Many(Range(h, |h|, lo, hi)))
    case GetTop(key, count) => (s, Many(LevelTop(h, count)))
  }

  function MemoryStep(t: Table, op: Op): (Table, Result)
    requires Valid(op)
  {
    var h := Lookup(t, op.key);
    match op
    case Set(key, value, version) =>
      if (h == [] && version != 0) || (h != [] && Last(h).1 != version) then (t, Code(-2))
      else (t[key := h + [(value, version + 1)]], Code(0))
    case Get(key, version) => (t, One(MemoryGet(h, version)))
    case GetHistory(key, lo, hi) => (t, Many(Range(h, |h|, lo, hi)))
    case GetTop(key, count) => (t, Many(MemoryTop(h, count)))
  }

  function LevelRun(size: Sizer, limit: nat, ops: seq<Op>): (Level, seq<Result>)
    requires forall op :: op in ops ==> Valid(op)
  {
    if ops == [] then (Level(map[], []), [])
    else
      var (s, rs) := LevelRun(size, limit, ops[..|ops| - 1]);
      var (s', r) := LevelStep(s, size, limit, ops[|ops| - 1]);
      (s', rs + [r])
  }

  function MemoryRun(ops: seq<Op>): (Table, seq<Result>)
    requires forall op :: op in ops ==> Valid(op)
  {
    if ops == [] then (map[], [])
    else
      var (t, rs) := MemoryRun(ops[..|ops| - 1]);
      var (t', r) := MemoryStep(t, ops[|ops| - 1]);
      (t', rs + [r])
  }

  /** All keys hold versions 1..m with m at least 1. */
  ghost predicate AllVersioned(t: Table) {
    forall k :: k in t ==> t[k] != [] && Versioned(t[k])
  }

  /** The read that tells the stores apart. */
  predicate Divergent(t: Table, op: Op) {
    op.GetTop? && op.count == 0 && Lookup(t, op.key) != []
  }

  /** A write succeeds exactly when its version is the number of versions so far; versions stay 1..m. */
  lemma WriteExact(t: Table, op: Op)
    requires AllVersioned(t) && op.Set?
    ensures AllVersioned(MemoryStep(t, op).0)
    ensures MemoryStep(t, op).1 == Code(0) <==> op.version == |Lookup(t, op.key)|
  {
  }

  /** Every single put fills a batch: writes reach the database at once. */
  ghost predicate WritesThrough(size: Sizer, limit: nat) {
    forall key, h :: h != [] && Versioned(h) ==> limit <= BATCH_HEADER + size(key, h)
  }

  lemma PutWrites(t: Table, size: Sizer, limit: nat, key: string, h: History)
    requires limit <= BATCH_HEADER + size(key, h)
    ensures Put(Level(t, []), size, limit, key, h) == Level(t[key := h], [])
  {
    var put := [(key, h)];
    assert [] + put == put && put[..|put| - 1] == [];
    assert BatchSize(size, []) == BATCH_HEADER && BatchSize(size, put) == BATCH_HEADER + size(key, h);
    assert WriteBatch(t, []) == t && WriteBatch(t, put) == t[key := h];
  }

  lemma SetAgrees(t: Table, size: Sizer, limit: nat, op: Op)
    requires AllVersioned(t) && op.Set? && WritesThrough(size, limit)
    ensures var (s, r) := LevelStep(Level(t, []), size, limit, op); var (t', r') := MemoryStep(t, op);
      s == Level(t', []) && r == r'
  {
    var h := Lookup(t, op.key);
    var more := h + [(op.value, op.version + 1)];
    if op.version == |h| {
      assert Versioned(more) && more != [];
      PutWrites(t, size, limit, op.key, more);
    }
  }

  /** One operation, with every write reaching the database: same new contents, same answer but for one query. */
  lemma StepAgrees(t: Table, size: Sizer, limit: nat, op: Op)
    requires AllVersioned(t) && Valid(op) && WritesThrough(size, limit)
    ensures var (s, r) := LevelStep(Level(t, []), size, limit, op); var (t', r') := MemoryStep(t, op);
      && s == Level(t', []) && AllVersioned(t')
      && (r == r' <==> !Divergent(t, op))
  {
    var h := Lookup(t, op.key);
    match op
    case Set(key, value, version) =>
      SetAgrees(t, size, limit, op);
      WriteExact(t, op);
    case Get(key, version) => GetExact(h, version);
    case GetHistory(key, lo, hi) =>
    case GetTop(key, count) => TopExact(h, count);
  }

  /** Operation i gets the same answer from both stores exactly when it is not the divergent query. */
  ghost predicate SameAnswers(ops: seq<Op>, level: seq<Result>, memory: seq<Result>)
    requires forall op :: op in ops ==> Valid(op)
  {
    && |level| == |memory| == |ops|
    && forall i :: 0 <= i < |ops| ==> (level[i] == memory[i] <==> !Divergent(Before(ops, i), ops[i]))
  }

  /** What is stored when operation i starts. */
  function Before(ops: seq<Op>, i: nat): Table
    requires i <= |ops| && forall op :: op in ops ==> Valid(op)
  {
    MemoryRun(ops[..i]).0
  }

  lemma SameAnswersAppend(ops: seq<Op>, level: seq<Result>, memory: seq<Result>, r: Result, r': Result)
    requires ops != [] && forall op :: op in ops ==> Valid(op)
    requires SameAnswers(ops[..|ops| - 1], level, memory)
    requires r == r' <==> !Divergent(Before(ops, |ops| - 1), ops[|ops| - 1])
    ensures SameAnswers(ops, level + [r], memory + [r'])
  {
    var init := ops[..|ops| - 1];
    forall i | 0 <= i < |ops|
      ensures (level + [r])[i] == (memory + [r'])[i] <==> !Divergent(Before(ops, i), ops[i])
    {
      if i < |init| {
        assert init[..i] == ops[..i] && init[i] == ops[i];
        assert Before(init, i) == Before(ops, i);
      }
    }
  }

  /**
    * After these operations both stores hold the same histories, and only divergent queries were answered
    * differently.
    */
  ghost predicate Agree(size: Sizer, limit: nat, ops: seq<Op>)
    requires forall op :: op in ops ==> Valid(op)
  {
    var (s, rs) := LevelRun(size, limit, ops); var (t, rs') := MemoryRun(ops);
    s == Level(t, []) && AllVersioned(t) && SameAnswers(ops, rs, rs')
  }

  /**
    * The stores agree. Over every sequence of versioned operations, with every write reaching the database:
    * both hold the same histories, versions 1..m for each key, and operation i gets the same answer from both
    * exactly when it does not ask for the newest 0 versions of a key that has some.
    */
  lemma {:induction false} StoresAgree(size: Sizer, limit: nat, ops: seq<Op>)
    requires (forall op :: op in ops ==> Valid(op)) && WritesThrough(size, limit)
    ensures Agree(size, limit, ops)
  {
    if ops != [] {
      var init, op := ops[..|ops| - 1], ops[|ops| - 1];
      StoresAgree(size, limit, init);
      var (t, rs') := MemoryRun(init);
      StepAgrees(t, size, limit, op);
      SameAnswersAppend(ops, LevelRun(size, limit, init).1, rs',
                        LevelStep(Level(t, []), size, limit, op).1, MemoryStep(t, op).1);
    }
  }

  /** A write left in the batch is not seen: the same version can be written twice, and only memory refuses. */
  lemma UnwrittenDisagrees(size: Sizer, limit: nat, key: string, a: string, b: string)
    requires BATCH_HEADER + size(key, [(a, 1)]) < limit
    ensures var ops := [Set(key, a, 0), Set(key, b, 0)];
      LevelRun(size, limit, ops).1 == [Code(0), Code(0)] && MemoryRun(ops).1 == [Code(0), Code(-2)]
  {
    var first, second := Set(key, a, 0), Set(key, b, 0);
    LevelTwo(size, limit, first, second);
    MemoryTwo(first, second);
    var put := [(key, [(a, 1)])];
    assert [] + [(a, 1)] == [(a, 1)] && [] + put == put && put[..|put| - 1] == [];
    assert BatchSize(size, []) == BATCH_HEADER;
    assert LevelStep(Level(map[], []), size, limit, first) == (Level(map[], put), Code(0));
    assert LevelStep(Level(map[], put), size, limit, second).1 == Code(0);
    assert MemoryStep(map[], first) == (map[key := [(a, 1)]], Code(0));
  }

  /** A longer history takes no less room. */
  ghost predicate Grows(size: Sizer) {
    forall key, h, n: nat :: n <= |h| ==> size(key, h[..n]) <= size(key, h)
  }

  /**
    * For sizes that grow with the history the stores agree over all operations exactly when every write goes through.
    */
  lemma AgreeExactly(size: Sizer, limit: nat)
    requires Grows(size)
    ensures (forall ops: seq<Op> :: (forall op :: op in ops ==> Valid(op)) ==> Agree(size, limit, ops)) <==>
      WritesThrough(size, limit)
  {
    if WritesThrough(size, limit) {
      forall ops: seq<Op> | forall op :: op in ops ==> Valid(op) ensures Agree(size, limit, ops) {
        StoresAgree(size, limit, ops);
      }
    } else {
      var key: string, h: History :| h != [] && Versioned(h) && limit > BATCH_HEADER + size(key, h);
      ShortDisagrees(size, limit, key, h);
    }
  }

  lemma ShortDisagrees(size: Sizer, limit: nat, key: string, h: History)
    requires Grows(size) && h != [] && Versioned(h) && limit > BATCH_HEADER + size(key, h)
    ensures var ops := [Set(key, h[0].0, 0), Set(key, h[0].0, 0)]; !Agree(size, limit, ops)
  {
    var a := h[0].0;
    assert h[..1] == [(a, 1)] && size(key, h[..1]) <= size(key, h);
    UnwrittenDisagrees(size, limit, key, a, a);
    var ops := [Set(key, a, 0), Set(key, a, 0)];
    assert !Divergent(Before(ops, 1), ops[1]);
  }

  lemma LevelTwo(size: Sizer, limit: nat, first: Op, second: Op)
    requires Valid(first) && Valid(second)
    ensures var (s, r) := LevelStep(Level(map[], []), size, limit, first);
      LevelRun(size, limit, [first, second]).1 == [r, LevelStep(s, size, limit, second).1]
  {
    assert [first, second][..1] == [first] && [first][..0] == [];
    assert LevelRun(size, limit, []) == (Level(map[], []), []);
    assert LevelRun(size, limit, [first]).0 == LevelStep(Level(map[], []), size, limit, first).0;
  }

  lemma MemoryTwo(first: Op, second: Op)
    requires Valid(first) && Valid(second)
    ensures var (t, r) := MemoryStep(map[], first); MemoryRun([first, second]).1 == [r, MemoryStep(t, second).1]
  {
    assert [first, second][..1] == [first] && [first][..0] == [];
    assert MemoryRun([]) == (map[], []);
    assert MemoryRun([first]).0 == MemoryStep(map[], first).0;
  }

  // ----- batches of any size

  ghost predicate LastPut(batch: seq<(string, History)>, key: string, i: nat) {
    i < |batch| && batch[i].0 == key && forall j :: i < j < |batch| ==> batch[j].0 != key
  }

  /** Of the puts of a batch the last one for a key wins. */
  lemma {:induction false} BatchWrites(db: Table, batch: seq<(string, History)>, key: string, i: nat)
    requires LastPut(batch, key, i)
    ensures key in WriteBatch(db, batch) && WriteBatch(db, batch)[key] == batch[i].1
  {
    var init := batch[..|batch| - 1];
    if i < |init| {
      assert LastPut(init, key, i);
      BatchWrites(db, init, key, i);
    }
  }

  /** A key the batch does not put keeps what it had, if anything. */
  lemma {:induction false} BatchKeeps(db: Table, batch: seq<(string, History)>, key: string)
    requires forall i :: 0 <= i < |batch| ==> batch[i].0 != key
    ensures (key in WriteBatch(db, batch) <==> key in db) && Lookup(WriteBatch(db, batch), key) == Lookup(db, key)
  {
    if batch != [] {
      BatchKeeps(db, batch[..|batch| - 1], key);
    }
  }

  /** What a reader would see once the pending batch is written. */
  function Flushed(s: Level): Table {
    WriteBatch(s.db, s.batch)
  }

  /** Whatever is pending and whatever the limit, a put overrides its key and nothing else, now or at the next write. */
  lemma PutFlushed(s: Level, size: Sizer, limit: nat, key: string, h: History)
    ensures var s' := Put(s, size, limit, key, h);
      && Flushed(s') == Flushed(s)[key := h]
      && (s'.db == s.db || (s'.db == Flushed(s') && s'.batch == []))
  {
    var batch := s.batch + [(key, h)];
    assert batch[..|batch| - 1] == s.batch;
    assert WriteBatch(Flushed(s)[key := h], []) == Flushed(s)[key := h];
  }

  /** A batch is as large as its parts, with one header. */
  lemma {:induction false} BatchSizeSplits(size: Sizer, a: seq<(string, History)>, b: seq<(string, History)>)
    ensures BatchSize(size, a + b) == BatchSize(size, a) + BatchSize(size, b) - BATCH_HEADER
  {
    if b == [] {
      assert a + b == a;
    } else {
      BatchSizeSplits(size, a, b[..|b| - 1]);
      assert (a + b)[..|a + b| - 1] == a + b[..|b| - 1];
    }
  }

  function LevelAt(size: Sizer, limit: nat, ops: seq<Op>, i: nat): Level
    requires i <= |ops| && forall op :: op in ops ==> Valid(op)
  {
    LevelRun(size, limit, ops[..i]).0
  }

  /** Operation i wrote this key and was not refused. */
  ghost predicate Wrote(size: Sizer, limit: nat, ops: seq<Op>, key: string, i: nat)
    requires forall op :: op in ops ==> Valid(op)
  {
    && i < |ops| && ops[i].Set? && ops[i].key == key
    && LevelStep(LevelAt(size, limit, ops, i), size, limit, ops[i]).1 == Code(0)
  }

  ghost predicate LastWrote(size: Sizer, limit: nat, ops: seq<Op>, key: string, i: nat)
    requires forall op :: op in ops ==> Valid(op)
  {
    Wrote(size, limit, ops, key, i) && forall j: nat :: i < j < |ops| ==> !Wrote(size, limit, ops, key, j)
  }

  lemma WrotePrefix(size: Sizer, limit: nat, ops: seq<Op>, key: string, i: nat)
    requires (forall op :: op in ops ==> Valid(op)) && i < |ops| - 1
    ensures Wrote(size, limit, ops, key, i) <==> Wrote(size, limit, ops[..|ops| - 1], key, i)
  {
    assert ops[..|ops| - 1][..i] == ops[..i];
  }

  /** What an operation adds to the contents `t`, being answered with `r` and reading the history `h`. */
  function Adding(t: Table, op: Op, r: Result, h: History): Table {
    if op.Set? && r == Code(0) then t[op.key := h + [(op.value, op.version + 1)]] else t
  }

  lemma StepFlushed(s: Level, size: Sizer, limit: nat, op: Op)
    requires Valid(op)
    ensures var (s', r) := LevelStep(s, size, limit, op);
      Flushed(s') == Adding(Flushed(s), op, r, Lookup(s.db, op.key))
  {
    if op.Set? {
      PutFlushed(s, size, limit, op.key, Lookup(s.db, op.key) + [(op.value, op.version + 1)]);
    }
  }

  /** The last operation of a run, in these terms. */
  lemma RunFlushed(size: Sizer, limit: nat, ops: seq<Op>)
    requires (forall op :: op in ops ==> Valid(op)) && ops != []
    ensures var n, op := |ops| - 1, ops[|ops| - 1];
      var s := LevelAt(size, limit, ops, n);
      Flushed(LevelRun(size, limit, ops).0)
        == Adding(Flushed(s), op, LevelStep(s, size, limit, op).1, Lookup(s.db, op.key))
  {
    StepFlushed(LevelAt(size, limit, ops, |ops| - 1), size, limit, ops[|ops| - 1]);
  }

  /** What the write of operation i makes of the history stored at that time. */
  function Made(size: Sizer, limit: nat, ops: seq<Op>, i: nat): History
    requires (forall op :: op in ops ==> Valid(op)) && i < |ops| && ops[i].Set?
  {
    Lookup(LevelAt(size, limit, ops, i).db, ops[i].key) + [(ops[i].value, ops[i].version + 1)]
  }

  lemma LastPrefix(size: Sizer, limit: nat, ops: seq<Op>, key: string, i: nat)
    requires (forall op :: op in ops ==> Valid(op)) && LastWrote(size, limit, ops, key, i) && i < |ops| - 1
    ensures var init := ops[..|ops| - 1];
      && LastWrote(size, limit, init, key, i) && Made(size, limit, init, i) == Made(size, limit, ops, i)
      && !Wrote(size, limit, ops, key, |ops| - 1)
  {
    var n := |ops| - 1;
    forall j: nat | j < n ensures Wrote(size, limit, ops, key, j) <==> Wrote(size, limit, ops[..n], key, j) {
      WrotePrefix(size, limit, ops, key, j);
    }
    assert ops[..n][..i] == ops[..i];
  }

  ghost predicate Shows(size: Sizer, limit: nat, ops: seq<Op>, key: string, h: History)
    requires forall op :: op in ops ==> Valid(op)
  {
    var t := Flushed(LevelRun(size, limit, ops).0);
    key in t && t[key] == h
  }

  lemma ShowsLast(size: Sizer, limit: nat, ops: seq<Op>, key: string)
    requires (forall op :: op in ops ==> Valid(op)) && ops != []
    ensures var n := |ops| - 1;
      if Wrote(size, limit, ops, key, n) then Shows(size, limit, ops, key, Made(size, limit, ops, n))
      else forall h :: Shows(size, limit, ops[..n], key, h) ==> Shows(size, limit, ops, key, h)
  {
    RunFlushed(size, limit, ops);
  }

  /**
    * With any limit: once what is pending is written, a key holds what its last write that was not refused made of
    * the history stored at that time.
    */
  lemma {:induction false} LastWriteWins(size: Sizer, limit: nat, ops: seq<Op>, key: string, i: nat)
    requires (forall op :: op in ops ==> Valid(op)) && LastWrote(size, limit, ops, key, i)
    ensures Shows(size, limit, ops, key, Made(size, limit, ops, i))
    decreases |ops|
  {
    ShowsLast(size, limit, ops, key);
    if i < |ops| - 1 {
      LastPrefix(size, limit, ops, key, i);
      LastWriteWins(size, limit, ops[..|ops| - 1], key, i);
    }
  }

  lemma {:induction false} UnwrittenAbsent(size: Sizer, limit: nat, ops: seq<Op>, key: string)
    requires (forall op :: op in ops ==> Valid(op)) && forall i: nat :: !Wrote(size, limit, ops, key, i)
    ensures key !in Flushed(LevelRun(size, limit, ops).0)
  {
    if ops != [] {
      var n := |ops| - 1;
      RunFlushed(size, limit, ops);
      forall j: nat ensures !Wrote(size, limit, ops[..n], key, j) {
        if j < n {
          WrotePrefix(size, limit, ops, key, j);
        }
      }
      UnwrittenAbsent(size, limit, ops[..n], key);
      assert !Wrote(size, limit, ops, key, n);
    }
  }

  // ----- the loops of the source

  class ResLevelDB {
    const size: Sizer
    const limit: nat
    var db: Table
    var batch: seq<(string, History)>

    function View(): Level
      reads this
    {
      Level(db, batch)
    }

    constructor (size: Sizer, limit: nat)
      ensures View() == Level(map[], []) && this.size == size && this.limit == limit
    {
      this.size, this.limit, db, batch := size, limit, map[], [];
    }

    /** `written` tells whether the database takes the batch, should it be written now. */
    method SetValue(key: string, h: History, written: bool) returns (ret: int)
      modifies this
      ensures written ==> View() == Put(old(View()), size, limit, key, h) && ret == 0
      ensures !written ==>
        && View() == old(View()).(batch := old(batch) + [(key, h)])
        && ret == if BatchSize(size, batch) >= limit then -1 else 0
    {
      batch := batch + [(key, h)];
      if BatchSize(size, batch) >= limit {
        if !written {
          return -1;
        }
        db := WriteBatch(db, batch);
        batch := [];
      }
      return 0;
    }

    method SetValueWithVersion(key: string, value: string, version: int, written: bool) returns (ret: int)
      modifies this
      ensures written ==> (View(), Code(ret)) == LevelStep(old(View()), size, limit, Set(key, value, version))
      ensures !written ==> db == old(db) && (ret == 0 ==> |batch| == |old(batch)| + 1 && BatchSize(size, batch) < limit)
    {
      var h := Lookup(db, key);
      var last := 0;
      if |h| > 0 {
        last := h[|h| - 1].1;
      }
      if last != version {
        return -2;
      }
      ret := SetValue(key, h + [(value, version + 1)], written);
    }

    method GetValueWithVersion(key: string, version: int) returns (v: Version)
      ensures One(v) == LevelStep(View(), size, limit, Get(key, version)).1
    {
      var h := Lookup(db, key);
      if |h| == 0 {
        return NOTHING;
      }
      if version > 0 {
        var i := |h|;
        while i > 0
          invariant 0 <= i <= |h| && Search(h, i, version) == Search(h, |h|, version)
        {
          if h[i - 1].1 == version {
            return h[i - 1];
          }
          if h[i - 1].1 < version {
            break;
          }
          i := i - 1;
        }
      }
      return h[|h| - 1];
    }

    method GetHistory(key: string, lo: int, hi: int) returns (r: History)
      ensures Many(r) == LevelStep(View(), size, limit, Op.GetHistory(key, lo, hi)).1
    {
      var h := Lookup(db, key);
      r := [];
      var i := |h|;
      while i > 0
        invariant 0 <= i <= |h| && r + Range(h, i, lo, hi) == Range(h, |h|, lo, hi)
      {
        if h[i - 1].1 < lo {
          break;
        }
        if h[i - 1].1 <= hi {
          r := r + [h[i - 1]];
        }
        i := i - 1;
      }
    }

    method GetTopHistory(key: string, count: int) returns (r: History)
      requires Valid(GetTop(key, count))
      ensures Many(r) == LevelStep(View(), size, limit, GetTop(key, count)).1
    {
      var h := Lookup(db, key);
      r := [];
      var i := |h|;
      while i > 0 && |r| < AsSize(count)
        invariant 0 <= i <= |h| && |r| <= AsSize(count)
        invariant r + Newest(h, i, AsSize(count) - |r|) == LevelTop(h, count)
      {
        r := r + [h[i - 1]];
        i := i - 1;
      }
    }
  }

  class MemoryDB {
    var table: Table

    constructor ()
      ensures table == map[]
    {
      table := map[];
    }

    method SetValueWithVersion(key: string, value: string, version: int) returns (ret: int)
      requires AllVersioned(table)
      modifies this
      ensures (table, Code(ret)) == MemoryStep(old(table), Set(key, value, version)) && AllVersioned(table)
    {
      WriteExact(table, Set(key, value, version));
      if (key !in table && version != 0) || (key in table && Last(table[key]).1 != version) {
        return -2;
      }
      table := table[key := Lookup(table, key) + [(value, version + 1)]];
      return 0;
    }

    method GetValueWithVersion(key: string, version: int) returns (v: Version)
      ensures One(v) == MemoryStep(table, Get(key, version)).1
    {
      var h := Lookup(table, key);
      if |h| == 0 {
        return NOTHING;
      }
      var i := |h|;
      while i > 0
        invariant 0 <= i <= |h| && Search(h, i, version) == Search(h, |h|, version)
      {
        i := i - 1;
        if h[i].1 == version {
          return h[i];
        }
        if h[i].1 < version {
          break;
        }
      }
      return h[|h| - 1];
    }

    method GetHistory(key: string, lo: int, hi: int) returns (r: History)
      ensures Many(r) == MemoryStep(table, Op.GetHistory(key, lo, hi)).1
    {
      var h := Lookup(table, key);
      r := [];
      var i := |h|;
      while i > 0
        invariant 0 <= i <= |h| && r + Range(h, i, lo, hi) == Range(h, |h|, lo, hi)
      {
        i := i - 1;
        if h[i].1 < lo {
          break;
        }
        if h[i].1 <= hi {
          r := r + [h[i]];
        }
      }
    }

    method GetTopHistory(key: string, count: int) returns (r: History)
      requires Valid(GetTop(key, count))
      ensures Many(r) == MemoryStep(table, GetTop(key, count)).1
    {
      var h := Lookup(table, key);
      if |h| == 0 {
        return [];
      }
      r := [h[|h| - 1]];
      var i := |h| - 1;
      while i > 0 && |r| < AsSize(count)
        invariant 0 <= i <= |h| && 1 <= |r| <= MaxOne(AsSize(count))
        invariant r + Newest(h, i, MaxOne(AsSize(count)) - |r|) == MemoryTop(h, count)
      {
        i := i - 1;
        r := r + [h[i]];
      }
    }
  }

  function MaxOne(n: nat): nat { if n == 0 then 1 else n }
}
