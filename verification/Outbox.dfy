/**
 Operations, the cache, and what queueing a command does: each operation
 changes the cache at once and records what it changed, all in one
 transaction.
 */
module Outbox {
  import opened Entities

  datatype Action =
    Add | Complete | Reopen | Edit | Remove | MyDayAdd | MyDayRemove | MyDayRollover

  /** What an operation sends. A create also says what the cached task becomes. */
  datatype Kind = Create(raw: Entity) | Update | Delete | Extension

  /** An operation to queue. `partOf` and `after` name operations of the same command. */
  datatype NewOp = NewOp(
    id: string, task: string, kind: Kind, action: Action, body: Entity,
    partOf: Option<string>, after: Option<string>, expected: Option<Entity>)

  /** `Skipped` is done without being sent: a precondition didn't hold. */
  datatype State = Pending | Inflight | Unknown | Failed | Done | Skipped

  /** An operation as queued, with the task or extension before it. */
  datatype Op = Op(op: NewOp, rollback: Option<Entity>, state: State)

  datatype Task = Task(raw: Entity, extension: Entity, deleted: bool)

  type Cache = map<string, Task>

  // ----- Applying operations -----

  function ApplyToTask(op: NewOp, task: Task): Task
  {
    match op.kind
    case Create(raw) => Task(raw, task.extension, false)
    case Update => Task(Merge(task.raw, op.body), task.extension, false)
    case Delete => task.(deleted := true)
    case Extension => task.(extension := Merge(task.extension, op.body))
  }

  function ApplyOp(cache: Cache, op: NewOp): Cache
    requires op.task in cache
  {
    cache[op.task := ApplyToTask(op, cache[op.task])]
  }

  ghost predicate Cached(cache: Cache, ops: seq<NewOp>)
  {
    forall i :: 0 <= i < |ops| ==> ops[i].task in cache
  }

  /** The cache after the first `n` of `ops`. */
  function ApplyFirst(cache: Cache, ops: seq<NewOp>, n: nat): (after: Cache)
    requires n <= |ops| && Cached(cache, ops)
    ensures after.Keys == cache.Keys
  {
    if n == 0 then cache else ApplyOp(ApplyFirst(cache, ops, n - 1), ops[n - 1])
  }

  function ApplyAll(cache: Cache, ops: seq<NewOp>): Cache
    requires Cached(cache, ops)
  {
    ApplyFirst(cache, ops, |ops|)
  }

  /** What an operation records before it changes `task`; a create has nothing before it. */
  function Before(op: NewOp, task: Task): Option<Entity>
  {
    match op.kind
    case Create(_) => None
    case Update => Some(task.raw)
    case Delete => Some(task.raw)
    case Extension => Some(task.extension)
  }

  function Queue(cache: Cache, ops: seq<NewOp>): (queued: seq<Op>)
    requires Cached(cache, ops)
    ensures |queued| == |ops|
  {
    seq(|ops|, i requires 0 <= i < |ops| =>
      Op(ops[i], Before(ops[i], ApplyFirst(cache, ops, i)[ops[i].task]), Pending))
  }

  function Sent(ops: seq<Op>): (r: seq<NewOp>)
    ensures |r| == |ops|
    ensures forall i :: 0 <= i < |ops| ==> r[i] == ops[i].op
  {
    seq(|ops|, i requires 0 <= i < |ops| => ops[i].op)
  }

  // ----- The cache field by field -----

  /** One field of a task's JSON (`inExtension` false) or of its extension. */
  datatype Slot = Slot(task: string, inExtension: bool, field: Key)

  ghost function Document(task: Task, inExtension: bool): Entity
  {
    if inExtension then task.extension else task.raw
  }

  ghost function At(cache: Cache, s: Slot): Value
  {
    if s.task in cache then Get(Document(cache[s.task], s.inExtension), s.field) else Null
  }

  ghost predicate CleanCache(cache: Cache)
  {
    forall t :: t in cache ==> Clean(cache[t].raw) && Clean(cache[t].extension)
  }

  /** Caches are told apart by which tasks are live and by their fields. */
  lemma SlotsEqual(a: Cache, b: Cache)
    requires CleanCache(a) && CleanCache(b) && a.Keys == b.Keys
    requires forall t :: t in a ==> a[t].deleted == b[t].deleted
    requires forall s: Slot :: At(a, s) == At(b, s)
    ensures a == b
  {
    forall t | t in a ensures a[t] == b[t] {
      forall f: Key
        ensures Get(a[t].raw, f) == Get(b[t].raw, f) && Get(a[t].extension, f) == Get(b[t].extension, f)
      {
        assert At(a, Slot(t, false, f)) == At(b, Slot(t, false, f));
        assert At(a, Slot(t, true, f)) == At(b, Slot(t, true, f));
      }
      CleanEqual(a[t].raw, b[t].raw);
      CleanEqual(a[t].extension, b[t].extension);
    }
  }

  /** An operation that sets fields of a task or of its extension. */
  predicate FieldOp(op: NewOp)
  {
    op.kind.Update? || op.kind.Extension?
  }

  predicate Writes(op: NewOp, s: Slot)
  {
    op.task == s.task && op.kind.Extension? == s.inExtension && s.field in op.body
  }

  lemma ApplyFieldOp(cache: Cache, op: NewOp, s: Slot)
    requires op.task in cache && FieldOp(op)
    ensures At(ApplyOp(cache, op), s) == if Writes(op, s) then op.body[s.field] else At(cache, s)
  {
    var before := cache[op.task];
    MergeReads(Document(before, op.kind.Extension?), op.body, s.field);
  }

  ghost predicate AllFieldOps(ops: seq<NewOp>)
  {
    forall i :: 0 <= i < |ops| ==> FieldOp(ops[i])
  }

  /** A field no operation writes keeps its value. */
  lemma {:induction false} Unwritten(cache: Cache, ops: seq<NewOp>, n: nat, s: Slot)
    requires n <= |ops| && Cached(cache, ops) && AllFieldOps(ops)
    requires forall i :: 0 <= i < n ==> !Writes(ops[i], s)
    ensures At(ApplyFirst(cache, ops, n), s) == At(cache, s)
  {
    if n > 0 {
      Unwritten(cache, ops, n - 1, s);
      ApplyFieldOp(ApplyFirst(cache, ops, n - 1), ops[n - 1], s);
    }
  }

  /** A field holds what its last writer gave it. */
  lemma {:induction false} LastWriter(cache: Cache, ops: seq<NewOp>, n: nat, w: nat, s: Slot)
    requires w < n <= |ops| && Cached(cache, ops) && AllFieldOps(ops)
    requires Writes(ops[w], s)
    requires forall i :: w < i < n ==> !Writes(ops[i], s)
    ensures At(ApplyFirst(cache, ops, n), s) == ops[w].body[s.field]
  {
    ApplyFieldOp(ApplyFirst(cache, ops, n - 1), ops[n - 1], s);
    if w < n - 1 {
      LastWriter(cache, ops, n - 1, w, s);
    }
  }

  // ----- What a command gives a field -----

  /** The value the operations give the field, if any gives it one. */
  ghost function SentAt(ops: seq<NewOp>, s: Slot): Option<Value>
  {
    if ops == [] then None
    else
      var last := ops[|ops| - 1];
      if Writes(last, s) then Some(last.body[s.field]) else SentAt(ops[..|ops| - 1], s)
  }

  lemma SentMore(ops: seq<NewOp>, op: NewOp, s: Slot)
    ensures SentAt(ops + [op], s) == if Writes(op, s) then Some(op.body[s.field]) else SentAt(ops, s)
  {
    assert (ops + [op])[..|ops|] == ops;
  }

  lemma {:induction false} SentConcat(a: seq<NewOp>, b: seq<NewOp>, s: Slot)
    ensures SentAt(a + b, s) == if SentAt(b, s).Some? then SentAt(b, s) else SentAt(a, s)
  {
    if b == [] {
      assert a + b == a;
    } else {
      var n := |b| - 1;
      assert a + b == a + b[..n] + [b[n]] && b == b[..n] + [b[n]];
      SentConcat(a, b[..n], s);
      SentMore(a + b[..n], b[n], s);
    }
  }

  /** Of up to three operations, the last to write a field decides. */
  lemma SentByThree(parts: seq<NewOp>, s: Slot)
    requires 0 < |parts| <= 3
    ensures SentAt(parts, s)
            == if |parts| > 2 && Writes(parts[2], s) then Some(parts[2].body[s.field])
               else if |parts| > 1 && Writes(parts[1], s) then Some(parts[1].body[s.field])
               else if Writes(parts[0], s) then Some(parts[0].body[s.field])
               else None
  {
    assert SentAt([], s) == None;
    assert parts[..1] == [] + [parts[0]];
    SentMore([], parts[0], s);
    if |parts| > 1 {
      assert parts[..2] == parts[..1] + [parts[1]];
      SentMore(parts[..1], parts[1], s);
    }
    if |parts| > 2 {
      assert parts[..3] == parts[..2] + [parts[2]];
      SentMore(parts[..2], parts[2], s);
    }
    assert parts[..|parts|] == parts;
  }

  /** A field gets a value exactly if some operation writes it. */
  lemma {:induction false} SentBySome(ops: seq<NewOp>, s: Slot)
    ensures SentAt(ops, s).Some? <==> exists k :: 0 <= k < |ops| && Writes(ops[k], s)
  {
    if ops != [] {
      var n := |ops| - 1;
      SentBySome(ops[..n], s);
      if !Writes(ops[n], s) {
        assert forall k :: 0 <= k < n ==> ops[..n][k] == ops[k];
        if k :| 0 <= k < |ops| && Writes(ops[k], s) {
          assert Writes(ops[..n][k], s);
        }
      }
    }
  }

  /** And then it holds that, or else what it held. */
  lemma SentLands(cache: Cache, ops: seq<NewOp>, s: Slot)
    requires Cached(cache, ops) && AllFieldOps(ops)
    ensures At(ApplyAll(cache, ops), s) == if SentAt(ops, s).Some? then SentAt(ops, s).value else At(cache, s)
  {
    SentLandsFirst(cache, ops, |ops|, s);
    assert ops[..|ops|] == ops;
  }

  lemma {:induction false} SentLandsFirst(cache: Cache, ops: seq<NewOp>, n: nat, s: Slot)
    requires n <= |ops| && Cached(cache, ops) && AllFieldOps(ops)
    ensures At(ApplyFirst(cache, ops, n), s)
            == if SentAt(ops[..n], s).Some? then SentAt(ops[..n], s).value else At(cache, s)
  {
    if n > 0 {
      SentLandsFirst(cache, ops, n - 1, s);
      ApplyFieldOp(ApplyFirst(cache, ops, n - 1), ops[n - 1], s);
      assert ops[..n] == ops[..n - 1] + [ops[n - 1]];
      SentMore(ops[..n - 1], ops[n - 1], s);
    }
  }

  /** Field operations keep documents clean. */
  lemma {:induction false} FieldOpsKeepClean(cache: Cache, ops: seq<NewOp>, n: nat)
    requires n <= |ops| && Cached(cache, ops) && AllFieldOps(ops) && CleanCache(cache)
    ensures CleanCache(ApplyFirst(cache, ops, n))
  {
    if n > 0 {
      FieldOpsKeepClean(cache, ops, n - 1);
      OpKeepsClean(ApplyFirst(cache, ops, n - 1), ops[n - 1]);
    }
  }

  lemma OpKeepsClean(cache: Cache, op: NewOp)
    requires op.task in cache && FieldOp(op) && CleanCache(cache)
    ensures CleanCache(ApplyOp(cache, op))
  {
  }

  /** And live tasks live. */
  lemma {:induction false} FieldOpsKeepLife(cache: Cache, ops: seq<NewOp>, n: nat)
    requires n <= |ops| && Cached(cache, ops) && AllFieldOps(ops)
    requires forall i :: 0 <= i < |ops| ==> !cache[ops[i].task].deleted
    ensures forall t :: t in cache ==> ApplyFirst(cache, ops, n)[t].deleted == cache[t].deleted
    ensures CleanCache(cache) ==> CleanCache(ApplyFirst(cache, ops, n))
  {
    if CleanCache(cache) {
      FieldOpsKeepClean(cache, ops, n);
    }
    if n > 0 {
      FieldOpsKeepLife(cache, ops, n - 1);
      OpKeepsLife(ApplyFirst(cache, ops, n - 1), ops[n - 1]);
    }
  }

  lemma OpKeepsLife(cache: Cache, op: NewOp)
    requires op.task in cache && FieldOp(op) && !cache[op.task].deleted
    ensures forall t :: t in cache ==> ApplyOp(cache, op)[t].deleted == cache[t].deleted
  {
  }

  lemma {:induction false} ApplyPrefix(cache: Cache, a: seq<NewOp>, b: seq<NewOp>, n: nat)
    requires n <= |a| && n <= |b| && a[..n] == b[..n] && Cached(cache, a) && Cached(cache, b)
    ensures ApplyFirst(cache, a, n) == ApplyFirst(cache, b, n)
  {
    if n > 0 {
      assert a[n - 1] == a[..n][n - 1] && b[n - 1] == b[..n][n - 1];
      assert a[..n - 1] == a[..n][..n - 1] && b[..n - 1] == b[..n][..n - 1];
      ApplyPrefix(cache, a, b, n - 1);
    }
  }

  // ----- Commands whose operations keep out of each other's way -----

  /** The fields an operation or its undo may write: completing and reopening pair with the reminder. */
  function Claims(op: NewOp): set<Key>
  {
    op.body.Keys
    + if op.kind.Update? && (op.action.Complete? || op.action.Reopen?) then {REMINDER_ON, REMINDER} else {}
  }

  /** No two operations of the command have a field in common. */
  ghost predicate DisjointClaims(ops: seq<NewOp>)
  {
    forall i, j :: 0 <= i < j < |ops|
      && ops[i].task == ops[j].task && ops[i].kind.Extension? == ops[j].kind.Extension?
      ==> Claims(ops[i]) !! Claims(ops[j])
  }

  ghost predicate Names(ops: seq<NewOp>, j: nat, named: Option<string>)
    requires j < |ops|
  {
    named.Some? ==> exists i :: 0 <= i < j && ops[i].id == named.value && ops[i].task == ops[j].task
  }

  /** IDs are distinct, and an operation refers only to an earlier one on its own task. */
  ghost predicate RefsInOrder(ops: seq<NewOp>)
  {
    && (forall i, j :: 0 <= i < j < |ops| ==> ops[i].id != ops[j].id)
    && (forall j :: 0 <= j < |ops| ==> Names(ops, j, ops[j].partOf) && Names(ops, j, ops[j].after))
  }
}
