/**
 Whole runs of commands and undos with no writes from elsewhere: the log of
 operations and inverses behaves as a stack of snapshots would.
 */
module UndoRuns {
  import opened Entities
  import opened Sequences
  import opened OpIds
  import opened Outbox
  import opened Undo
  import opened UndoSafety
  import opened CommandLog

  // ----- One command and its undo -----

  /** The reminder after `op`. */
  predicate OnAfter(op: NewOp, before: Entity)
  {
    if REMINDER_ON in op.body then op.body[REMINDER_ON] == Flag(true) else ReminderOn(before)
  }

  /** A reopen that moves the time of a reminder that was off: its undo leaves the time out. */
  ghost predicate LosesTime(op: NewOp, before: Entity)
  {
    LeavesTimeOut(op, before) && REMINDER in op.body && op.body[REMINDER] != Get(before, REMINDER)
  }

  /** Nor does a completion move the time of one it leaves off, which the undo of its undo would lose. */
  ghost predicate KeepsTime(op: NewOp, before: Entity)
  {
    && !LosesTime(op, before)
    && (op.kind.Update? && op.action.Complete? && REMINDER in op.body && !OnAfter(op, before) ==>
          op.body[REMINDER] == Get(before, REMINDER))
  }

  /** A command of field changes to live tasks, no two with a field in common. */
  ghost predicate Queueable(cache: Cache, ops: seq<NewOp>)
  {
    && CleanCache(cache) && Cached(cache, ops) && AllFieldOps(ops) && DisjointClaims(ops)
    && forall i :: 0 <= i < |ops| ==> !cache[ops[i].task].deleted
  }

  /** One whose undo, and its undo in turn, take everything back. */
  ghost predicate Planned(cache: Cache, ops: seq<NewOp>)
  {
    Queueable(cache, ops) && forall i :: 0 <= i < |ops| ==> KeepsTime(ops[i], cache[ops[i].task].raw)
  }

  /** `row` recorded what `from` held of each field it claims. */
  ghost predicate RecordedOp(row: Op, from: Cache)
  {
    && TookEffect(row) && row.rollback.Some?
    && (forall f :: f in Claims(row.op) ==> Get(row.rollback.value, f) == At(from, SlotOf(row.op, f)))
  }

  /** The command `ops` took the cache from `from` to `to`, and recorded it. */
  ghost predicate Recorded(ops: seq<Op>, from: Cache, to: Cache)
  {
    && CleanCache(from)
    && Cached(from, Sent(ops)) && FieldCommand(ops) && DisjointClaims(Sent(ops))
    && (forall i :: 0 <= i < |ops| ==> !from[ops[i].op.task].deleted)
    && (forall i :: 0 <= i < |ops| ==> RecordedOp(ops[i], from))
    && to == ApplyAll(from, Sent(ops))
  }

  ghost predicate Timely(row: Op)
  {
    row.rollback.Some? ==> KeepsTime(row.op, row.rollback.value)
  }

  ghost predicate Transition(ops: seq<Op>, from: Cache, to: Cache)
  {
    Recorded(ops, from, to) && forall i :: 0 <= i < |ops| ==> Timely(ops[i])
  }

  ghost predicate ClaimsSlot(op: NewOp, s: Slot)
  {
    op.task == s.task && op.kind.Extension? == s.inExtension && s.field in Claims(op)
  }

  lemma ClaimedOnce(ops: seq<NewOp>, i: nat, j: nat, s: Slot)
    requires DisjointClaims(ops) && i < |ops| && j < |ops|
    requires ClaimsSlot(ops[i], s) && ClaimsSlot(ops[j], s)
    ensures i == j
  {
  }

  /** A claimed field is as it was, but for what its own operation wrote. */
  lemma OnlyOwnWrite(cache: Cache, ops: seq<NewOp>, i: nat, n: nat, s: Slot)
    requires Cached(cache, ops) && AllFieldOps(ops) && DisjointClaims(ops)
    requires i < |ops| && n <= |ops| && ClaimsSlot(ops[i], s)
    ensures At(ApplyFirst(cache, ops, n), s)
            == if i < n && Writes(ops[i], s) then ops[i].body[s.field] else At(cache, s)
  {
    forall j | 0 <= j < |ops| && Writes(ops[j], s) ensures j == i {
      ClaimedOnce(ops, i, j, s);
    }
    if i < n && Writes(ops[i], s) {
      LastWriter(cache, ops, n, i, s);
    } else {
      Unwritten(cache, ops, n, s);
    }
  }

  /** Each operation records what the cache held of the fields it claims. */
  lemma QueuedRecordsOp(cache: Cache, ops: seq<NewOp>, i: nat)
    requires Cached(cache, ops) && AllFieldOps(ops) && DisjointClaims(ops) && i < |ops|
    ensures RecordedOp(Queue(cache, ops)[i], cache)
  {
    var op, now, row := ops[i], ApplyFirst(cache, ops, i), Queue(cache, ops)[i];
    assert row == Op(op, Before(op, now[op.task]), Pending);
    forall f | f in Claims(op) ensures Get(row.rollback.value, f) == At(cache, SlotOf(op, f)) {
      OnlyOwnWrite(cache, ops, i, i, SlotOf(op, f));
      assert Get(row.rollback.value, f) == At(now, SlotOf(op, f));
    }
  }

  lemma QueuedRecords(cache: Cache, ops: seq<NewOp>)
    requires Queueable(cache, ops)
    ensures Sent(Queue(cache, ops)) == ops
    ensures Recorded(Queue(cache, ops), cache, ApplyAll(cache, ops))
  {
    assert Sent(Queue(cache, ops)) == ops;
    forall i | 0 <= i < |ops| ensures RecordedOp(Queue(cache, ops)[i], cache) {
      QueuedRecordsOp(cache, ops, i);
    }
  }

  /** What a row recorded of the reminder is what its cache held, wherever the time is at stake. */
  lemma SameTime(row: Op, from: Cache)
    requires RecordedOp(row, from) && row.op.task in from
    ensures LosesTime(row.op, row.rollback.value) <==> LosesTime(row.op, from[row.op.task].raw)
    ensures KeepsTime(row.op, row.rollback.value) <==> KeepsTime(row.op, from[row.op.task].raw)
  {
    var op, raw := row.op, from[row.op.task].raw;
    if op.kind.Update? && (op.action.Complete? || op.action.Reopen?) {
      assert At(from, SlotOf(op, REMINDER)) == Get(raw, REMINDER);
      assert At(from, SlotOf(op, REMINDER_ON)) == Get(raw, REMINDER_ON);
    }
  }

  /** Queueing records what the cache held. */
  lemma QueueRecords(cache: Cache, ops: seq<NewOp>)
    requires Planned(cache, ops)
    ensures Sent(Queue(cache, ops)) == ops
    ensures Transition(Queue(cache, ops), cache, ApplyAll(cache, ops))
  {
    var queued := Queue(cache, ops);
    QueuedRecords(cache, ops);
    forall i | 0 <= i < |queued| ensures Timely(queued[i]) {
      assert RecordedOp(queued[i], cache) && queued[i].op == ops[i];
      SameTime(queued[i], cache);
    }
  }

  lemma TransitionKeepsLife(ops: seq<Op>, from: Cache, to: Cache)
    requires Recorded(ops, from, to)
    ensures from.Keys == to.Keys && CleanCache(to)
    ensures forall t :: t in to ==> to[t].deleted == from[t].deleted
  {
    FieldOpsKeepLife(from, Sent(ops), |ops|);
  }

  /** Right after a command, everything it set holds. */
  lemma SetFieldsHold(ops: seq<Op>, from: Cache, to: Cache, i: nat)
    requires Recorded(ops, from, to) && i < |ops|
    ensures ops[i].op.task in to && !to[ops[i].op.task].deleted
    ensures Holds(ops[i].op.body, Target(ops[i].op, to[ops[i].op.task]))
  {
    var sent, op := Sent(ops), ops[i].op;
    assert sent[i] == op;
    FieldOpsKeepLife(from, sent, |sent|);
    forall f | f in op.body ensures op.body[f] == Get(Target(op, to[op.task]), f) {
      OnlyOwnWrite(from, sent, i, |sent|, SlotOf(op, f));
    }
  }

  /** The inverses of the first `n` of `ops` on the tasks in `cache`. */
  ghost function Inverses(ops: seq<Op>, cache: Cache, id: string, n: nat): (r: seq<NewOp>)
    requires n <= |ops| && forall i :: 0 <= i < |ops| ==> Undoable(ops[i], cache)
    ensures |r| == n
    ensures forall i :: 0 <= i < n ==> r[i] == InverseOf(ops[i], cache, OpIdFor(id, i))
  {
    seq(n, i requires 0 <= i < n => InverseOf(ops[i], cache, OpIdFor(id, i)))
  }

  lemma {:induction false} NothingRefused(ops: seq<Op>, cache: Cache, id: string, n: nat)
    requires n <= |ops| && FieldCommand(ops)
    requires forall i :: 0 <= i < |ops| ==> Undoable(ops[i], cache) && !cache[ops[i].op.task].deleted
    ensures After(ops, cache, id, n) == Ok(Progress(Inverses(ops, cache, id, n), [], {}, {}))
  {
    if n > 0 {
      NothingRefused(ops, cache, id, n - 1);
      StepUndoes(ops[n - 1], Inverses(ops, cache, id, n - 1), cache, id);
      OneMoreInverse(ops, cache, id, n);
    }
  }

  lemma OneMoreInverse(ops: seq<Op>, cache: Cache, id: string, n: nat)
    requires 0 < n <= |ops| && forall i :: 0 <= i < |ops| ==> Undoable(ops[i], cache)
    ensures Inverses(ops, cache, id, n)
            == Inverses(ops, cache, id, n - 1) + [InverseOf(ops[n - 1], cache, OpIdFor(id, n - 1))]
  {
  }

  /** One more operation undone, none having been refused. */
  lemma StepUndoes(row: Op, inverse: seq<NewOp>, cache: Cache, id: string)
    requires FieldOp(row.op) && Undoable(row, cache) && !cache[row.op.task].deleted
    ensures Step(Progress(inverse, [], {}, {}), row, cache, id)
            == Ok(Progress(inverse + [InverseOf(row, cache, OpIdFor(id, |inverse|))], [], {}, {}))
  {
  }

  /** Straight after a command, each of its operations can be undone. */
  lemma AllUndoable(ops: seq<Op>, from: Cache, to: Cache)
    requires Recorded(ops, from, to)
    ensures forall i :: 0 <= i < |ops| ==> Undoable(ops[i], to) && !to[ops[i].op.task].deleted
  {
    forall i | 0 <= i < |ops| ensures Undoable(ops[i], to) && !to[ops[i].op.task].deleted {
      SetFieldsHold(ops, from, to, i);
      assert RecordedOp(ops[i], from);
    }
  }

  /** Straight after a command, its undo is the inverse of each operation in turn. */
  lemma UndoIsEach(ops: seq<Op>, from: Cache, to: Cache, id: string, k: nat)
    requires Recorded(ops, from, to) && k < |ops|
    ensures UndoPlan(ops, to, id).Ok? && |UndoPlan(ops, to, id).value.inverse| == |ops|
    ensures UndoPlan(ops, to, id).value.refused == []
    ensures Undoable(ops[k], to) && UndoPlan(ops, to, id).value.inverse[k] == InverseOf(ops[k], to, OpIdFor(id, k))
  {
    AllUndoable(ops, from, to);
    NothingRefused(ops, to, id, |ops|);
  }

  /** Undone, a claimed field holds what it held before the command. */
  lemma ClaimedFieldRestored(
    ops: seq<Op>, from: Cache, to: Cache, inverse: seq<NewOp>, id: string, i: nat, s: Slot)
    requires Recorded(ops, from, to) && |inverse| == |ops|
    requires forall k :: 0 <= k < |ops| ==> Undoable(ops[k], to)
    requires forall k :: 0 <= k < |ops| ==> inverse[k] == InverseOf(ops[k], to, OpIdFor(id, k))
    requires Cached(to, inverse) && AllFieldOps(inverse) && DisjointClaims(inverse)
    requires i < |ops| && ClaimsSlot(ops[i].op, s) && !LosesTime(ops[i].op, from[ops[i].op.task].raw)
    ensures At(ApplyAll(to, inverse), s) == At(from, s)
  {
    var sent, row, op, f := Sent(ops), ops[i], ops[i].op, s.field;
    var before, now := row.rollback.value, Target(op, to[op.task]);
    assert sent[i] == op && s == SlotOf(op, f) && inverse[i] == InverseOf(row, to, OpIdFor(id, i));
    InverseKeys(op, before, now, f);
    OnlyOwnWrite(from, sent, i, |sent|, s);
    assert RecordedOp(row, from);
    SameTime(row, from);
    if f in inverse[i].body {
      OnlyOwnWrite(to, inverse, i, |inverse|, s);
      InverseValues(op, before, now, f);
    } else {
      forall k | 0 <= k < |inverse| ensures !Writes(inverse[k], s) {
        if Writes(inverse[k], s) {
          InverseWithinClaims(ops[k], to, OpIdFor(id, k), s);
          ClaimedOnce(sent, i, k, s);
        }
      }
      Unwritten(to, inverse, |inverse|, s);
    }
  }

  lemma UnclaimedFieldUntouched(
    ops: seq<Op>, from: Cache, to: Cache, inverse: seq<NewOp>, id: string, s: Slot)
    requires Recorded(ops, from, to) && |inverse| == |ops|
    requires forall k :: 0 <= k < |ops| ==> Undoable(ops[k], to)
    requires forall k :: 0 <= k < |ops| ==> inverse[k] == InverseOf(ops[k], to, OpIdFor(id, k))
    requires Cached(to, inverse) && AllFieldOps(inverse)
    requires forall i :: 0 <= i < |ops| ==> !ClaimsSlot(ops[i].op, s)
    ensures At(ApplyAll(to, inverse), s) == At(from, s)
  {
    var sent := Sent(ops);
    forall k | 0 <= k < |ops| ensures !Writes(sent[k], s) && !Writes(inverse[k], s) {
      assert !ClaimsSlot(ops[k].op, s);
      if Writes(inverse[k], s) {
        InverseWithinClaims(ops[k], to, OpIdFor(id, k), s);
      }
    }
    Unwritten(from, sent, |sent|, s);
    Unwritten(to, inverse, |inverse|, s);
  }

  lemma InversesDisjoint(ops: seq<Op>, to: Cache, inverse: seq<NewOp>, id: string)
    requires FieldCommand(ops) && DisjointClaims(Sent(ops)) && |inverse| == |ops|
    requires forall k :: 0 <= k < |ops| ==> Undoable(ops[k], to)
    requires forall k :: 0 <= k < |ops| ==> inverse[k] == InverseOf(ops[k], to, OpIdFor(id, k))
    ensures Cached(to, inverse) && AllFieldOps(inverse) && DisjointClaims(inverse)
  {
    forall i | 0 <= i < |ops|
      ensures inverse[i].task == Sent(ops)[i].task && inverse[i].task in to && FieldOp(inverse[i])
      ensures inverse[i].kind.Extension? == Sent(ops)[i].kind.Extension?
      ensures Claims(inverse[i]) <= Claims(Sent(ops)[i])
    {
      InverseClaims(ops[i], to, OpIdFor(id, i));
    }
  }

  /**
   Undoing a command right after it: every operation is undone, nothing is
   refused, and the cache is back to what it was. The undo is a command of
   the same kind, from `to` back to `from`, and so can itself be undone.
   */
  lemma UndoRestores(ops: seq<Op>, from: Cache, to: Cache, id: string)
    requires Transition(ops, from, to) && ops != []
    ensures UndoPlan(ops, to, id).Ok?
    ensures var plan := UndoPlan(ops, to, id).value;
            && plan.refused == [] && |plan.inverse| == |ops|
            && Planned(to, plan.inverse)
            && ApplyAll(to, plan.inverse) == from
            && Transition(Queue(to, plan.inverse), to, from)
  {
    AllUndoable(ops, from, to);
    NothingRefused(ops, to, id, |ops|);
    var inverse := Inverses(ops, to, id, |ops|);
    assert UndoPlan(ops, to, id) == Ok(Plan(inverse, []));
    InversesDisjoint(ops, to, inverse, id);
    InversesPlanned(ops, from, to, inverse, id);
    forall k | 0 <= k < |ops| ensures !LosesTime(ops[k].op, from[ops[k].op.task].raw) {
      assert RecordedOp(ops[k], from) && Timely(ops[k]);
      SameTime(ops[k], from);
    }
    UndoneIsBefore(ops, from, to, inverse, id);
    QueueRecords(to, inverse);
  }

  /** A reopen that moved the time of a reminder that was off leaves it moved. */
  lemma TimeStaysMoved(ops: seq<Op>, from: Cache, to: Cache, id: string, i: nat)
    requires Recorded(ops, from, to) && i < |ops| && LosesTime(ops[i].op, from[ops[i].op.task].raw)
    ensures UndoPlan(ops, to, id).Ok? && Cached(to, UndoPlan(ops, to, id).value.inverse)
    ensures var s := SlotOf(ops[i].op, REMINDER);
            At(ApplyAll(to, UndoPlan(ops, to, id).value.inverse), s) != At(from, s)
  {
    UndoIsEach(ops, from, to, id, i);
    AllUndone(ops, from, to, id, i);
    assert RecordedOp(ops[i], from);
    SameTime(ops[i], from);
    RestoredWhole(ops, to, id, i, REMINDER);
  }

  lemma AllUndone(ops: seq<Op>, from: Cache, to: Cache, id: string, i: nat)
    requires Recorded(ops, from, to) && i < |ops| && UndoPlan(ops, to, id).Ok?
    ensures i in UndoSafety.Restored(ops, to, id, |ops|)
    ensures Cached(to, UndoPlan(ops, to, id).value.inverse)
  {
    PlanShape(ops, to, id);
    SetFieldsHold(ops, from, to, i);
    assert RecordedOp(ops[i], from);
    StepDecides(ops, to, id, i);
    UndoIsEveryOne(ops, from, to, id, i);
  }

  /** Straight after a command, each step of its undo's loop queues one more inverse. */
  lemma UndoIsEveryOne(ops: seq<Op>, from: Cache, to: Cache, id: string, i: nat)
    requires Recorded(ops, from, to) && i < |ops|
    ensures After(ops, to, id, i).Ok? && After(ops, to, id, i + 1).Ok?
    ensures |After(ops, to, id, i).value.inverse| == i && |After(ops, to, id, i + 1).value.inverse| == i + 1
  {
    AllUndoable(ops, from, to);
    NothingRefused(ops, to, id, i);
    NothingRefused(ops, to, id, i + 1);
  }

  /**
   A command undone straight after, whatever it did to reminders: nothing is
   refused, and the cache is what it was exactly when no operation lost a time.
   */
  lemma UndoRestoresExactly(ops: seq<Op>, from: Cache, to: Cache, id: string)
    requires Recorded(ops, from, to) && ops != []
    ensures UndoPlan(ops, to, id).Ok? && UndoPlan(ops, to, id).value.refused == []
    ensures Cached(to, UndoPlan(ops, to, id).value.inverse)
    ensures ApplyAll(to, UndoPlan(ops, to, id).value.inverse) == from <==>
            forall i :: 0 <= i < |ops| ==> !LosesTime(ops[i].op, from[ops[i].op.task].raw)
  {
    UndoIsEach(ops, from, to, id, 0);
    PlanCached(ops, to, id);
    if i :| 0 <= i < |ops| && LosesTime(ops[i].op, from[ops[i].op.task].raw) {
      TimeStaysMoved(ops, from, to, id, i);
    } else {
      UndoneWholly(ops, from, to, id);
    }
  }

  lemma UndoneWholly(ops: seq<Op>, from: Cache, to: Cache, id: string)
    requires Recorded(ops, from, to) && ops != []
    requires forall k :: 0 <= k < |ops| ==> !LosesTime(ops[k].op, from[ops[k].op.task].raw)
    ensures UndoPlan(ops, to, id).Ok? && Cached(to, UndoPlan(ops, to, id).value.inverse)
    ensures ApplyAll(to, UndoPlan(ops, to, id).value.inverse) == from
  {
    UndoIsEach(ops, from, to, id, 0);
    var inverse := UndoPlan(ops, to, id).value.inverse;
    forall i | 0 <= i < |ops|
      ensures Undoable(ops[i], to) && !to[ops[i].op.task].deleted && inverse[i] == InverseOf(ops[i], to, OpIdFor(id, i))
    {
      UndoIsEach(ops, from, to, id, i);
      SetFieldsHold(ops, from, to, i);
    }
    InversesDisjoint(ops, to, inverse, id);
    UndoneIsBefore(ops, from, to, inverse, id);
  }

  /** The operation finds its task live, and loses no time. */
  ghost predicate Restorable(op: NewOp, cache: Cache)
  {
    op.task in cache && !cache[op.task].deleted && !LosesTime(op, cache[op.task].raw)
  }

  /** An undo straight after the command was queued succeeds, and leaves `cache` as it was. */
  ghost predicate TakenBack(cache: Cache, ops: seq<NewOp>, undo: string)
    requires Cached(cache, ops)
  {
    var to := ApplyAll(cache, ops);
    var undone := UndoPlan(Queue(cache, ops), to, undo);
    && undone.Ok? && undone.value.refused == []
    && Cached(to, undone.value.inverse) && ApplyAll(to, undone.value.inverse) == cache
  }

  /**
   Any command of field operations with no field in common, queued and undone
   straight after: it is taken back exactly when every operation found its
   task live and lost no time.
   */
  lemma TakenBackExactly(cache: Cache, ops: seq<NewOp>, undo: string)
    requires CleanCache(cache) && Cached(cache, ops) && AllFieldOps(ops) && DisjointClaims(ops) && RefsInOrder(ops)
    requires ops != []
    ensures TakenBack(cache, ops, undo) <==> forall i :: 0 <= i < |ops| ==> Restorable(ops[i], cache)
  {
    if i :| 0 <= i < |ops| && cache[ops[i].task].deleted {
      DeletedStaysOut(cache, ops, undo, i);
    } else {
      QueuedRecords(cache, ops);
      TimesDecide(Queue(cache, ops), cache, ApplyAll(cache, ops), ops, undo);
    }
  }

  lemma TimesDecide(rows: seq<Op>, from: Cache, to: Cache, ops: seq<NewOp>, undo: string)
    requires Recorded(rows, from, to) && Sent(rows) == ops && ops != []
    ensures UndoPlan(rows, to, undo).Ok? && UndoPlan(rows, to, undo).value.refused == []
    ensures Cached(to, UndoPlan(rows, to, undo).value.inverse)
    ensures ApplyAll(to, UndoPlan(rows, to, undo).value.inverse) == from <==>
            forall i :: 0 <= i < |ops| ==> !LosesTime(ops[i], from[ops[i].task].raw)
  {
    UndoRestoresExactly(rows, from, to, undo);
    assert forall k :: 0 <= k < |ops| ==> rows[k].op == ops[k];
    if i :| 0 <= i < |ops| && LosesTime(ops[i], from[ops[i].task].raw) {
      assert LosesTime(rows[i].op, from[rows[i].op.task].raw);
    }
  }

  /** A task deleted by then comes back to life, or stops the undo. */
  lemma DeletedStaysOut(cache: Cache, ops: seq<NewOp>, undo: string, i: nat)
    requires Cached(cache, ops) && AllFieldOps(ops) && RefsInOrder(ops)
    requires i < |ops| && cache[ops[i].task].deleted
    ensures !TakenBack(cache, ops, undo)
  {
    var rows, to := Queue(cache, ops), ApplyAll(cache, ops);
    assert Sent(rows) == ops;
    if UndoPlan(rows, to, undo).Ok? {
      PlanShape(rows, to, undo);
      UndoneFindsLive(rows, to, undo, i);
      var inverse := UndoPlan(rows, to, undo).value.inverse;
      StaysLive(to, inverse, |inverse|, ops[i].task);
    }
  }

  lemma {:induction false} StaysLive(cache: Cache, ops: seq<NewOp>, n: nat, t: string)
    requires Cached(cache, ops) && AllFieldOps(ops) && n <= |ops| && t in cache && !cache[t].deleted
    ensures !ApplyFirst(cache, ops, n)[t].deleted
  {
    if n > 0 {
      StaysLive(cache, ops, n - 1, t);
    }
  }

  /** An undo that succeeds found every task its command wrote live. */
  lemma {:induction false} UndoneFindsLive(rows: seq<Op>, cache: Cache, id: string, i: nat)
    requires FieldCommand(rows) && RefsInOrder(Sent(rows)) && After(rows, cache, id, |rows|).Ok?
    requires i < |rows|
    requires forall k :: 0 <= k < |rows| ==> TookEffect(rows[k])
    ensures rows[i].op.task in cache && !cache[rows[i].op.task].deleted
  {
    StepDecides(rows, cache, id, i);
    CreatesNothing(rows, cache, id, i);
    var p, op := After(rows, cache, id, i).value, rows[i].op;
    if op.partOf.Some? && op.partOf.value in p.leftAlone {
      LeftAloneReported(rows, cache, id, i);
      assert Reported(rows, i, op.partOf.value, p.refused);
      var k :| 0 <= k < i && rows[k].op.id == op.partOf.value;
      PartIsOnSameTask(rows, k, i);
      UndoneFindsLive(rows, cache, id, k);
    }
  }

  /** The inverse of one operation, on the task as it left it, keeps the time in turn. */
  lemma InverseKeepsTime(row: Op, to: Cache, id: string)
    requires Undoable(row, to) && FieldOp(row.op) && Timely(row)
    requires row.op.kind.Update? && (row.op.action.Complete? || row.op.action.Reopen?) ==>
               var before, now := row.rollback.value, to[row.op.task].raw;
               && Get(now, REMINDER) == (if REMINDER in row.op.body then row.op.body[REMINDER] else Get(before, REMINDER))
               && ReminderOn(now) == OnAfter(row.op, before)
    ensures KeepsTime(InverseOf(row, to, id), to[row.op.task].raw)
  {
    var op, before, now := row.op, row.rollback.value, Target(row.op, to[row.op.task]);
    InverseSends(op, before, now, REMINDER);
    InverseSends(op, before, now, REMINDER_ON);
    if REMINDER in InverseBody(op, before, now) {
      InverseValues(op, before, now, REMINDER);
    }
    if REMINDER_ON in InverseBody(op, before, now) {
      InverseValues(op, before, now, REMINDER_ON);
    }
  }

  lemma InversesPlanned(ops: seq<Op>, from: Cache, to: Cache, inverse: seq<NewOp>, id: string)
    requires Transition(ops, from, to) && |inverse| == |ops|
    requires forall k :: 0 <= k < |ops| ==> Undoable(ops[k], to) && !to[ops[k].op.task].deleted
    requires forall k :: 0 <= k < |ops| ==> inverse[k] == InverseOf(ops[k], to, OpIdFor(id, k))
    requires Cached(to, inverse) && AllFieldOps(inverse) && DisjointClaims(inverse)
    ensures Planned(to, inverse)
  {
    TransitionKeepsLife(ops, from, to);
    forall i | 0 <= i < |ops|
      ensures !to[inverse[i].task].deleted && KeepsTime(inverse[i], to[inverse[i].task].raw)
    {
      assert inverse[i] == InverseOf(ops[i], to, OpIdFor(id, i)) && Timely(ops[i]);
      if ops[i].op.kind.Update? && (ops[i].op.action.Complete? || ops[i].op.action.Reopen?) {
        ReminderRightAfter(ops, from, to, i);
      }
      InverseKeepsTime(ops[i], to, OpIdFor(id, i));
    }
  }

  lemma ReminderRightAfter(ops: seq<Op>, from: Cache, to: Cache, i: nat)
    requires Recorded(ops, from, to) && i < |ops| && ops[i].op.task in to
    requires ops[i].op.kind.Update? && (ops[i].op.action.Complete? || ops[i].op.action.Reopen?)
    ensures ops[i].rollback.Some?
    ensures var op, before, now := ops[i].op, ops[i].rollback.value, to[ops[i].op.task].raw;
            && Get(now, REMINDER) == (if REMINDER in op.body then op.body[REMINDER] else Get(before, REMINDER))
            && ReminderOn(now) == OnAfter(op, before)
  {
    var sent, op := Sent(ops), ops[i].op;
    assert sent[i] == op && RecordedOp(ops[i], from);
    OnlyOwnWrite(from, sent, i, |sent|, SlotOf(op, REMINDER));
    OnlyOwnWrite(from, sent, i, |sent|, SlotOf(op, REMINDER_ON));
  }

  lemma UndoneIsBefore(ops: seq<Op>, from: Cache, to: Cache, inverse: seq<NewOp>, id: string)
    requires Recorded(ops, from, to) && |inverse| == |ops|
    requires forall k :: 0 <= k < |ops| ==> !LosesTime(ops[k].op, from[ops[k].op.task].raw)
    requires forall k :: 0 <= k < |ops| ==> Undoable(ops[k], to) && !to[ops[k].op.task].deleted
    requires forall k :: 0 <= k < |ops| ==> inverse[k] == InverseOf(ops[k], to, OpIdFor(id, k))
    requires Cached(to, inverse) && AllFieldOps(inverse) && DisjointClaims(inverse)
    ensures ApplyAll(to, inverse) == from
  {
    var after := ApplyAll(to, inverse);
    TransitionKeepsLife(ops, from, to);
    forall k | 0 <= k < |inverse| ensures !to[inverse[k].task].deleted {
      assert inverse[k] == InverseOf(ops[k], to, OpIdFor(id, k));
    }
    FieldOpsKeepLife(to, inverse, |inverse|);
    forall s: Slot ensures At(after, s) == At(from, s) {
      if i :| 0 <= i < |ops| && ClaimsSlot(ops[i].op, s) {
        ClaimedFieldRestored(ops, from, to, inverse, id, i, s);
      } else {
        UnclaimedFieldUntouched(ops, from, to, inverse, id, s);
      }
    }
    SlotsEqual(after, from);
  }

  // ----- The command log -----

  type Command = CommandLog.Command<seq<Op>>

  datatype World = World(cache: Cache, log: seq<Command>)

  /** Queue a planned command; one that plans nothing leaves no trace. */
  ghost function Issue(w: World, id: string, ops: seq<NewOp>): World
    requires Cached(w.cache, ops)
  {
    if ops == [] then w
    else World(ApplyAll(w.cache, ops), w.log + [Command(id, None, false, Queue(w.cache, ops))])
  }

  /** Undo the command at `target`; an error queues nothing. */
  ghost function UndoAt(w: World, target: nat, id: string): (r: Result<World, Error>)
    requires target < |w.log|
    ensures r.Ok? ==> |r.value.log| == |w.log| + 1
  {
    var command := w.log[target];
    if WasUndone(w.log, target) then
      Err(NothingToUndo)
    else
      match UndoPlan(command.ops, w.cache, id)
      case Err(e) => Err(e)
      case Ok(plan) =>
        PlanCached(command.ops, w.cache, id);
        Ok(World(ApplyAll(w.cache, plan.inverse),
                 w.log + [Command(id, Some(target), false, Queue(w.cache, plan.inverse))]))
  }

  ghost function UndoLast(w: World, id: string): Result<World, Error>
  {
    match LastUndoable(w.log, |w.log|)
    case None => Err(NothingToUndo)
    case Some(i) => UndoAt(w, i, id)
  }

  // ----- Runs, and the stack of snapshots they behave as -----

  datatype RunStep = Do(id: string, ops: seq<NewOp>) | Undo(id: string)

  /** Each command is one that can be taken back from the cache as it is. */
  ghost predicate CanStep(w: World, step: RunStep)
  {
    step.Do? ==> Planned(w.cache, step.ops)
  }

  ghost function Next(w: World, step: RunStep): World
    requires CanStep(w, step)
  {
    match step
    case Do(id, ops) => Issue(w, id, ops)
    case Undo(id) => (match UndoLast(w, id) case Ok(undone) => undone case Err(_) => w)
  }

  /**
   The simple form: a copy of the cache from before each command, the oldest
   first, then the cache now. A command adds a copy; an undo drops the last.
   */
  ghost function HistoryNext(h: seq<Cache>, step: RunStep): seq<Cache>
    requires h != []
  {
    match step
    case Do(_, ops) =>
      var now := h[|h| - 1];
      if ops != [] && Cached(now, ops) then h + [ApplyAll(now, ops)] else h
    case Undo(_) => if |h| == 1 then h else h[..|h| - 1]
  }

  /** A command that did something, from one cache to the next. */
  ghost predicate Leads(ops: seq<Op>, from: Cache, to: Cache)
  {
    ops != [] && Transition(ops, from, to)
  }

  ghost predicate Behaves(w: World, h: seq<Cache>, live: seq<nat>, base: nat)
  {
    Refines(Leads, w.cache, w.log, h, live, base)
  }

  lemma DoRefines(w: World, h: seq<Cache>, live: seq<nat>, base: nat, step: RunStep)
    requires Behaves(w, h, live, base) && step.Do? && step.ops != [] && CanStep(w, step)
    ensures Cached(h[|live|], step.ops)
    ensures Behaves(Next(w, step), HistoryNext(h, step), live + [|w.log|], base)
  {
    QueueRecords(w.cache, step.ops);
    var c := Command(step.id, None, false, Queue(w.cache, step.ops));
    PushedRefines(Leads, w.cache, w.log, h, live, base, c, ApplyAll(w.cache, step.ops));
  }

  lemma UndoIs(w: World, target: nat, from: Cache, id: string) returns (c: Command)
    requires target < |w.log| && !WasUndone(w.log, target) && Leads(w.log[target].ops, from, w.cache)
    ensures UndoAt(w, target, id) == Ok(World(from, w.log + [c]))
    ensures c.undoes == Some(target) && Leads(c.ops, w.cache, from)
  {
    var ops := w.log[target].ops;
    UndoRestores(ops, from, w.cache, id);
    c := Command(id, Some(target), false, Queue(w.cache, UndoPlan(ops, w.cache, id).value.inverse));
  }

  lemma LatestUndoes(w: World, h: seq<Cache>, live: seq<nat>, base: nat, id: string) returns (c: Command)
    requires Behaves(w, h, live, base) && live != []
    ensures UndoLast(w, id) == Ok(World(h[|live| - 1], w.log + [c])) && c.undoes == Some(live[|live| - 1])
  {
    PicksTheLast(Leads, w.cache, w.log, h, live, base);
    c := UndoIs(w, live[|live| - 1], h[|live| - 1], id);
  }

  /** With a copy to go back to, the undo succeeds and goes back to it. */
  lemma UndoRefines(w: World, h: seq<Cache>, live: seq<nat>, base: nat, step: RunStep)
    requires Behaves(w, h, live, base) && step.Undo? && CanStep(w, step) && live != []
    ensures UndoLast(w, step.id).Ok?
    ensures Behaves(Next(w, step), HistoryNext(h, step), live[..|live| - 1], base)
  {
    var c := LatestUndoes(w, h, live, base, step.id);
    PoppedRefines(Leads, w.cache, w.log, h, live, base, c);
  }

  // ----- Theorems about runs -----

  ghost predicate ValidRun(w: World, steps: seq<RunStep>)
    decreases |steps|
  {
    steps != [] ==> CanStep(w, steps[0]) && ValidRun(Next(w, steps[0]), steps[1..])
  }

  ghost function Final(w: World, steps: seq<RunStep>): World
    requires ValidRun(w, steps)
    decreases |steps|
  {
    if steps == [] then w else Final(Next(w, steps[0]), steps[1..])
  }

  ghost function FinalHistory(h: seq<Cache>, steps: seq<RunStep>): (r: seq<Cache>)
    requires h != []
    ensures r != []
    decreases |steps|
  {
    if steps == [] then h else FinalHistory(HistoryNext(h, steps[0]), steps[1..])
  }

  /** No undo of the run goes back further than the run itself. */
  ghost predicate StaysAbove(h: seq<Cache>, steps: seq<RunStep>)
    requires h != []
    decreases |steps|
  {
    steps != [] ==> (steps[0].Undo? ==> |h| > 1) && StaysAbove(HistoryNext(h, steps[0]), steps[1..])
  }

  /** What a run may do once it has undone all its own commands: nothing is left to undo, or it stops there. */
  ghost predicate KeepsToItself(w: World, h: seq<Cache>, base: nat, steps: seq<RunStep>)
    requires h != []
  {
    NoneLive(w.log, base) || StaysAbove(h, steps)
  }

  lemma StepKeepsNoneLive(w: World, step: RunStep, base: nat)
    requires CanStep(w, step) && base <= |w.log| && NoneLive(w.log, base)
    ensures base <= |Next(w, step).log| && NoneLive(Next(w, step).log, base)
  {
    var v := Next(w, step);
    if |v.log| > |w.log| {
      assert v.log == w.log + [v.log[|w.log|]];
      NoneLiveStays(w.log, v.log[|w.log|], base);
    }
  }

  lemma StepRefines(w: World, h: seq<Cache>, live: seq<nat>, base: nat, step: RunStep) returns (live': seq<nat>)
    requires Behaves(w, h, live, base) && CanStep(w, step)
    requires NoneLive(w.log, base) || (step.Undo? ==> |h| > 1)
    ensures Behaves(Next(w, step), HistoryNext(h, step), live', base)
  {
    if step.Do? && step.ops != [] {
      DoRefines(w, h, live, base, step);
      live' := live + [|w.log|];
    } else if step.Undo? && live != [] {
      UndoRefines(w, h, live, base, step);
      live' := live[..|live| - 1];
    } else {
      PicksTheLast(Leads, w.cache, w.log, h, live, base);
      live' := live;
    }
  }

  lemma {:induction false} RunRefines(w: World, h: seq<Cache>, live: seq<nat>, base: nat, steps: seq<RunStep>)
    returns (live': seq<nat>)
    requires Behaves(w, h, live, base) && ValidRun(w, steps) && KeepsToItself(w, h, base, steps)
    ensures Behaves(Final(w, steps), FinalHistory(h, steps), live', base)
    ensures NoneLive(w.log, base) ==> NoneLive(Final(w, steps).log, base)
    decreases |steps|
  {
    live' := live;
    if steps != [] {
      if NoneLive(w.log, base) {
        StepKeepsNoneLive(w, steps[0], base);
      }
      live' := StepRefines(w, h, live, base, steps[0]);
      live' := RunRefines(Next(w, steps[0]), HistoryNext(h, steps[0]), live', base, steps[1..]);
    }
  }

  /**
   Whatever the log holds when a run of field commands and bare undos starts:
   the cache is always what a stack of copies would hold, and while the stack
   has a copy to go back to, a bare undo succeeds and goes back to it. If
   nothing before the run can be undone, it succeeds only then.
   */
  lemma UndoIsAStackOfSnapshots(w: World, steps: seq<RunStep>, id: string)
    requires GoodLog(w.log) && ValidRun(w, steps) && KeepsToItself(w, [w.cache], |w.log|, steps)
    ensures var v, h := Final(w, steps), FinalHistory([w.cache], steps);
            && h != [] && v.cache == h[|h| - 1]
            && (|h| > 1 ==> UndoLast(v, id).Ok? && UndoLast(v, id).value.cache == h[|h| - 2])
            && (NoneLive(w.log, |w.log|) ==> (UndoLast(v, id).Ok? <==> |h| > 1))
  {
    StartRefines(Leads, w.cache, w.log);
    var base := |w.log|;
    var live := RunRefines(w, [w.cache], [], base, steps);
    NextUndo(Final(w, steps), FinalHistory([w.cache], steps), live, base, id);
  }

  /** What the next bare undo does. */
  lemma NextUndo(v: World, h: seq<Cache>, live: seq<nat>, base: nat, id: string)
    requires Behaves(v, h, live, base)
    ensures |h| > 1 ==> UndoLast(v, id).Ok? && UndoLast(v, id).value.cache == h[|h| - 2]
    ensures NoneLive(v.log, base) ==> (UndoLast(v, id).Ok? <==> |h| > 1)
  {
    if live != [] {
      var _ := LatestUndoes(v, h, live, base, id);
    } else {
      PicksTheLast(Leads, v.cache, v.log, h, live, base);
    }
  }

  lemma {:induction false} DosPush(w: World, h: seq<Cache>, steps: seq<RunStep>)
    requires h != [] && w.cache == h[|h| - 1] && ValidRun(w, steps)
    requires forall i :: 0 <= i < |steps| ==> steps[i].Do? && steps[i].ops != []
    ensures |FinalHistory(h, steps)| == |h| + |steps| && FinalHistory(h, steps)[0] == h[0]
    decreases |steps|
  {
    if steps != [] {
      DoPushes(w, h, steps[0]);
      DosPush(Next(w, steps[0]), HistoryNext(h, steps[0]), steps[1..]);
    }
  }

  lemma DoPushes(w: World, h: seq<Cache>, step: RunStep)
    requires h != [] && w.cache == h[|h| - 1] && step.Do? && step.ops != [] && CanStep(w, step)
    ensures |HistoryNext(h, step)| == |h| + 1 && HistoryNext(h, step)[0] == h[0]
    ensures Next(w, step).cache == HistoryNext(h, step)[|h|]
  {
  }

  lemma {:induction false} UndosPop(h: seq<Cache>, steps: seq<RunStep>)
    requires |steps| < |h| && forall i :: 0 <= i < |steps| ==> steps[i].Undo?
    ensures FinalHistory(h, steps) == h[..|h| - |steps|] && StaysAbove(h, steps)
    decreases |steps|
  {
    if steps != [] {
      UndosPop(h[..|h| - 1], steps[1..]);
    }
  }

  lemma {:induction false} RunSplits(w: World, h: seq<Cache>, a: seq<RunStep>, b: seq<RunStep>)
    requires ValidRun(w, a + b) && h != []
    ensures ValidRun(w, a) && ValidRun(Final(w, a), b)
    ensures Final(w, a + b) == Final(Final(w, a), b)
    ensures FinalHistory(h, a + b) == FinalHistory(FinalHistory(h, a), b)
    decreases |a|
  {
    if a == [] {
      assert a + b == b;
    } else {
      assert (a + b)[0] == a[0] && (a + b)[1..] == a[1..] + b;
      RunSplits(Next(w, a[0]), HistoryNext(h, a[0]), a[1..], b);
    }
  }

  lemma {:induction false} DosThenUndosStayAbove(h: seq<Cache>, dos: seq<RunStep>, undos: seq<RunStep>)
    requires h != [] && (forall i :: 0 <= i < |dos| ==> dos[i].Do?) && StaysAbove(FinalHistory(h, dos), undos)
    ensures StaysAbove(h, dos + undos)
    decreases |dos|
  {
    if dos == [] {
      assert dos + undos == undos;
    } else {
      assert (dos + undos)[0] == dos[0] && (dos + undos)[1..] == dos[1..] + undos;
      DosThenUndosStayAbove(HistoryNext(h, dos[0]), dos[1..], undos);
    }
  }

  /**
   Last in, first out, whatever the log holds already: after any commands, as
   many bare undos all succeed and bring every task back to what it was before
   the first of them.
   */
  lemma LastInFirstOut(w: World, dos: seq<RunStep>, undos: seq<RunStep>, id: string)
    requires GoodLog(w.log) && ValidRun(w, dos + undos) && |undos| <= |dos|
    requires forall i :: 0 <= i < |dos| ==> dos[i].Do? && dos[i].ops != []
    requires forall i :: 0 <= i < |undos| ==> undos[i].Undo?
    ensures var v := Final(w, dos + undos);
            && (|undos| < |dos| ==> UndoLast(v, id).Ok?)
            && (|undos| == |dos| ==> v.cache == w.cache)
            && (|undos| == |dos| && NoneLive(w.log, |w.log|) ==> UndoLast(v, id).Err?)
  {
    BackToTheStart(w, dos, undos);
    InTurn(w, dos + undos, |dos| - |undos|, id);
  }

  /** A run that ends `n` copies above where it started. */
  lemma InTurn(w: World, run: seq<RunStep>, n: nat, id: string)
    requires GoodLog(w.log) && ValidRun(w, run) && StaysAbove([w.cache], run)
    requires |FinalHistory([w.cache], run)| == 1 + n && FinalHistory([w.cache], run)[0] == w.cache
    ensures n > 0 ==> UndoLast(Final(w, run), id).Ok?
    ensures n == 0 ==> Final(w, run).cache == w.cache
    ensures n == 0 && NoneLive(w.log, |w.log|) ==> UndoLast(Final(w, run), id).Err?
  {
    UndoIsAStackOfSnapshots(w, run, id);
  }

  lemma BackToTheStart(w: World, dos: seq<RunStep>, undos: seq<RunStep>)
    requires GoodLog(w.log) && ValidRun(w, dos + undos) && |undos| <= |dos|
    requires forall i :: 0 <= i < |dos| ==> dos[i].Do? && dos[i].ops != []
    requires forall i :: 0 <= i < |undos| ==> undos[i].Undo?
    ensures StaysAbove([w.cache], dos + undos)
    ensures var h := FinalHistory([w.cache], dos + undos);
            |h| == 1 + |dos| - |undos| && h[0] == w.cache
  {
    RunSplits(w, [w.cache], dos, undos);
    DosPush(w, [w.cache], dos);
    UndosPop(FinalHistory([w.cache], dos), undos);
    DosThenUndosStayAbove([w.cache], dos, undos);
  }

  // ----- Undo and redo -----

  ghost predicate Undoes(w: World, target: nat, id: string, undone: World)
  {
    target < |w.log| && UndoAt(w, target, id) == Ok(undone) && |undone.log| == |w.log| + 1
  }

  /** The command at `target` led from `from` to the cache now, and isn't undone. */
  ghost predicate Ready(leads: (seq<Op>, Cache, Cache) -> bool, w: World, target: nat, from: Cache)
  {
    && GoodLog(w.log) && target < |w.log| && !WasUndone(w.log, target)
    && leads(w.log[target].ops, from, w.cache)
  }

  /** `undone` is `w` with that command undone, by a command that led back and can be undone in turn. */
  ghost predicate Flipped(
    leads: (seq<Op>, Cache, Cache) -> bool, undoes: (World, nat, string, World) -> bool,
    w: World, target: nat, from: Cache, id: string, undone: World)
  {
    undoes(w, target, id, undone) && undone.cache == from && Ready(leads, undone, |w.log|, w.cache)
  }

  ghost predicate CanFlip(
    leads: (seq<Op>, Cache, Cache) -> bool, undoes: (World, nat, string, World) -> bool,
    w: World, target: nat, from: Cache, id: string)
  {
    Ready(leads, w, target, from) ==> exists undone :: Flipped(leads, undoes, w, target, from, id, undone)
  }

  ghost predicate Flips(
    leads: (seq<Op>, Cache, Cache) -> bool, undoes: (World, nat, string, World) -> bool)
  {
    forall w, target, from, id :: CanFlip(leads, undoes, w, target, from, id)
  }

  lemma UndoFlips()
    ensures Flips(Leads, Undoes)
  {
    forall w, target, from, id ensures CanFlip(Leads, Undoes, w, target, from, id) {
      if Ready(Leads, w, target, from) {
        var c := UndoIs(w, target, from, id);
        NewNotUndone(w.log, c);
        assert Flipped(Leads, Undoes, w, target, from, id, World(from, w.log + [c]));
      }
    }
  }

  /** `ws` undoes the command at `target`, then undoes that undo, and so on, once for each of `ids`. */
  ghost predicate Toggles(
    undoes: (World, nat, string, World) -> bool, ws: seq<World>, target: nat, ids: seq<string>)
    decreases |ids|
  {
    && |ws| == |ids| + 1
    && (ids != [] ==> undoes(ws[0], target, ids[0], ws[1]) && Toggles(undoes, ws[1..], |ws[0].log|, ids[1..]))
  }

  lemma {:induction false} FlippingAlternates(
    leads: (seq<Op>, Cache, Cache) -> bool, undoes: (World, nat, string, World) -> bool,
    w: World, target: nat, from: Cache, ids: seq<string>) returns (ws: seq<World>)
    requires Flips(leads, undoes) && Ready(leads, w, target, from)
    ensures Toggles(undoes, ws, target, ids)
    ensures ws[0] == w && ws[|ids|].cache == Side(w.cache, from, |ids|)
    decreases |ids|
  {
    if ids == [] {
      return [w];
    }
    assert CanFlip(leads, undoes, w, target, from, ids[0]);
    var undone :| Flipped(leads, undoes, w, target, from, ids[0], undone);
    SideFlips(w.cache, from, |ids|);
    var rest := FlippingAlternates(leads, undoes, undone, |w.log|, w.cache, ids[1..]);
    ws := [w] + rest;
    assert ws[1..] == rest;
  }

  /**
   Undo and redo for ever: however often the latest change is undone and
   redone, each succeeds, and the cache alternates between what it was before
   the command and what it was after.
   */
  lemma UndoRedoAlternates(w: World, target: nat, from: Cache, ids: seq<string>) returns (ws: seq<World>)
    requires Ready(Leads, w, target, from)
    ensures Toggles(Undoes, ws, target, ids)
    ensures ws[0] == w && ws[|ids|].cache == if |ids| % 2 == 0 then w.cache else from
  {
    UndoFlips();
    ws := FlippingAlternates(Leads, Undoes, w, target, from, ids);
  }
}
