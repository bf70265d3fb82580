/**
 Undoing an earlier command: when no later operation touched what it set,
 the cache becomes what replaying every other operation would have given.
 */
module UndoSelective {
  import opened Entities
  import opened OpIds
  import opened Outbox
  import opened Undo
  import opened UndoSafety
  import opened UndoRuns

  /** What undoing `row` depends on: the fields it set, and a reminder that was on when it completed. */
  ghost predicate Footprint(row: Op, s: Slot)
  {
    || Writes(row.op, s)
    || (&& row.op.kind.Update? && row.op.action.Complete? && row.rollback.Some?
        && ReminderOn(row.rollback.value) && s == Slot(row.op.task, false, REMINDER_ON))
  }

  /** No later operation touches what the command's undo depends on. */
  ghost predicate Untouched(ops: seq<Op>, later: seq<NewOp>)
  {
    forall i, j, s :: 0 <= i < |ops| && 0 <= j < |later| && Footprint(ops[i], s) ==> !Writes(later[j], s)
  }

  /** A reminder's time is never written without its flag. */
  ghost predicate WritesFlagWithTime(op: NewOp)
  {
    op.kind.Update? && REMINDER in op.body ==> REMINDER_ON in op.body
  }

  lemma {:induction false} ApplyConcat(cache: Cache, a: seq<NewOp>, b: seq<NewOp>, n: nat)
    requires Cached(cache, a) && Cached(cache, b) && n <= |b|
    ensures ApplyFirst(cache, a + b, |a| + n) == ApplyFirst(ApplyAll(cache, a), b, n)
  {
    if n == 0 {
      ApplyPrefix(cache, a + b, a, |a|);
    } else {
      ApplyConcat(cache, a, b, n - 1);
    }
  }

  lemma ApplyAllConcat(cache: Cache, a: seq<NewOp>, b: seq<NewOp>)
    requires Cached(cache, a) && Cached(cache, b)
    ensures ApplyAll(cache, a + b) == ApplyAll(ApplyAll(cache, a), b)
  {
    ApplyConcat(cache, a, b, |b|);
  }

  /** The same later operations on two caches: a field ends the same if one wrote it, else as it began. */
  lemma SameAfterLater(x: Cache, y: Cache, later: seq<NewOp>, s: Slot)
    requires x.Keys == y.Keys && Cached(x, later) && AllFieldOps(later)
    requires At(x, s) == At(y, s) || exists j :: 0 <= j < |later| && Writes(later[j], s)
    ensures At(ApplyAll(x, later), s) == At(ApplyAll(y, later), s)
  {
    if j :| 0 <= j < |later| && Writes(later[j], s) {
      var w := LastWriterExists(later, |later|, s);
      LastWriter(x, later, |later|, w, s);
      LastWriter(y, later, |later|, w, s);
    } else {
      Unwritten(x, later, |later|, s);
      Unwritten(y, later, |later|, s);
    }
  }

  /** The hypotheses: `ops` took `from` to `to`, and `later` led on to `now`. */
  ghost predicate Earlier(ops: seq<Op>, later: seq<NewOp>, from: Cache, to: Cache, now: Cache)
  {
    && Transition(ops, from, to) && ops != []
    && Cached(to, later) && AllFieldOps(later) && Untouched(ops, later)
    && (forall j :: 0 <= j < |later| ==> WritesFlagWithTime(later[j]) && !to[later[j].task].deleted)
    && now == ApplyAll(to, later)
  }

  lemma StillHolds(ops: seq<Op>, later: seq<NewOp>, from: Cache, to: Cache, now: Cache, i: nat)
    requires Earlier(ops, later, from, to, now) && i < |ops|
    ensures Undoable(ops[i], now) && !now[ops[i].op.task].deleted
  {
    SetFieldsHold(ops, from, to, i);
    assert RecordedOp(ops[i], from);
    TransitionKeepsLife(ops, from, to);
    FieldOpsKeepLife(to, later, |later|);
    var op := ops[i].op;
    forall f | f in op.body ensures op.body[f] == Get(Target(op, now[op.task]), f) {
      assert Footprint(ops[i], SlotOf(op, f));
      Unwritten(to, later, |later|, SlotOf(op, f));
      HoldsField(op.body, Target(op, to[op.task]), f);
    }
  }

  /** What an inverse writes, no later operation wrote. */
  lemma InverseOutOfTheWay(
    ops: seq<Op>, later: seq<NewOp>, from: Cache, to: Cache, now: Cache, id: string, i: nat, j: nat, s: Slot)
    requires Earlier(ops, later, from, to, now) && i < |ops| && j < |later| && Undoable(ops[i], now)
    requires Writes(InverseOf(ops[i], now, id), s)
    ensures !Writes(later[j], s)
  {
    var row := ops[i];
    InverseKeys(row.op, row.rollback.value, Target(row.op, now[row.op.task]), s.field);
    if !Writes(row.op, s) {
      assert Footprint(row, Slot(row.op.task, false, REMINDER_ON));
      assert !Writes(later[j], Slot(row.op.task, false, REMINDER_ON));
      assert WritesFlagWithTime(later[j]);
    } else {
      assert Footprint(row, s);
    }
  }

  /** A field the undo writes ends as it was before the command. */
  lemma UndoneSlot(
    ops: seq<Op>, later: seq<NewOp>, from: Cache, to: Cache, now: Cache, inverse: seq<NewOp>, id: string,
    i: nat, s: Slot)
    requires Earlier(ops, later, from, to, now) && |inverse| == |ops| && i < |ops|
    requires forall k :: 0 <= k < |ops| ==> Undoable(ops[k], now)
    requires forall k :: 0 <= k < |ops| ==> inverse[k] == InverseOf(ops[k], now, OpIdFor(id, k))
    requires Cached(now, inverse) && AllFieldOps(inverse) && DisjointClaims(inverse)
    requires Writes(inverse[i], s)
    ensures At(ApplyAll(now, inverse), s) == At(ApplyAll(from, later), s)
  {
    var row := ops[i];
    OnlyOwnWrite(now, inverse, i, |inverse|, s);
    InverseValues(row.op, row.rollback.value, Target(row.op, now[row.op.task]), s.field);
    InverseWithinClaims(row, now, OpIdFor(id, i), s);
    assert RecordedOp(row, from) && s == SlotOf(row.op, s.field);
    forall j | 0 <= j < |later| ensures !Writes(later[j], s) {
      InverseOutOfTheWay(ops, later, from, to, now, OpIdFor(id, i), i, j, s);
    }
    Unwritten(from, later, |later|, s);
  }

  /** A field the command set and its undo doesn't send was set to what it was. */
  lemma UnsentWasKept(ops: seq<Op>, from: Cache, to: Cache, now: Cache, id: string, i: nat, s: Slot)
    requires Transition(ops, from, to) && i < |ops| && Undoable(ops[i], now)
    requires Writes(ops[i].op, s) && !Writes(InverseOf(ops[i], now, id), s)
    ensures At(ApplyAll(from, Sent(ops)), s) == At(from, s)
  {
    var row, sent := ops[i], Sent(ops);
    assert sent[i] == row.op && s == SlotOf(row.op, s.field);
    InverseKeys(row.op, row.rollback.value, Target(row.op, now[row.op.task]), s.field);
    assert RecordedOp(row, from);
    OnlyOwnWrite(from, sent, i, |sent|, s);
  }

  /** A field the undo doesn't write ends as the other operations left it. */
  lemma OtherSlot(
    ops: seq<Op>, later: seq<NewOp>, from: Cache, to: Cache, now: Cache, inverse: seq<NewOp>, id: string,
    s: Slot)
    requires Earlier(ops, later, from, to, now) && |inverse| == |ops|
    requires forall k :: 0 <= k < |ops| ==> Undoable(ops[k], now)
    requires forall k :: 0 <= k < |ops| ==> inverse[k] == InverseOf(ops[k], now, OpIdFor(id, k))
    requires Cached(now, inverse) && AllFieldOps(inverse)
    requires forall k :: 0 <= k < |ops| ==> !Writes(inverse[k], s)
    ensures At(ApplyAll(now, inverse), s) == At(ApplyAll(from, later), s)
  {
    assert At(ApplyAll(now, inverse), s) == At(ApplyAll(to, later), s) by {
      Unwritten(now, inverse, |inverse|, s);
    }
    assert At(to, s) == At(from, s) by {
      var sent := Sent(ops);
      if i :| 0 <= i < |ops| && Writes(ops[i].op, s) {
        UnsentWasKept(ops, from, to, now, OpIdFor(id, i), i, s);
      } else {
        Unwritten(from, sent, |sent|, s);
      }
    }
    SameAfterLater(to, from, later, s);
  }

  lemma WholePlan(
    ops: seq<Op>, later: seq<NewOp>, from: Cache, to: Cache, now: Cache, id: string)
    returns (inverse: seq<NewOp>)
    requires Earlier(ops, later, from, to, now)
    ensures UndoPlan(ops, now, id) == Ok(Plan(inverse, [])) && |inverse| == |ops|
    ensures forall k :: 0 <= k < |ops| ==> Undoable(ops[k], now) && !now[ops[k].op.task].deleted
    ensures forall k :: 0 <= k < |ops| ==> inverse[k] == InverseOf(ops[k], now, OpIdFor(id, k))
    ensures Cached(now, inverse) && AllFieldOps(inverse) && DisjointClaims(inverse)
  {
    forall i | 0 <= i < |ops| ensures Undoable(ops[i], now) && !now[ops[i].op.task].deleted {
      StillHolds(ops, later, from, to, now, i);
    }
    NothingRefused(ops, now, id, |ops|);
    inverse := Inverses(ops, now, id, |ops|);
    InversesDisjoint(ops, now, inverse, id);
  }

  lemma UndoneAsIfNever(ops: seq<Op>, later: seq<NewOp>, from: Cache, to: Cache, now: Cache, id: string)
    requires Earlier(ops, later, from, to, now) && Cached(from, later)
    ensures UndoPlan(ops, now, id).Ok? && UndoPlan(ops, now, id).value.refused == []
    ensures Undone(ops, now, id) == ApplyAll(from, later)
  {
    var inverse := WholePlan(ops, later, from, to, now, id);
    UndoneWithout(ops, later, from, to, now, inverse, id);
    assert Undone(ops, now, id) == ApplyAll(now, inverse);
  }

  /**
   Undoing any earlier command whose fields no later operation touched: it
   succeeds whole, and the cache is then what `before` and `later` give from
   `start` without the command.
   */
  lemma SelectiveUndo(
    start: Cache, before: seq<NewOp>, ops: seq<Op>, later: seq<NewOp>, to: Cache, now: Cache, id: string)
    requires Cached(start, before) && Cached(start, later)
    requires Earlier(ops, later, ApplyAll(start, before), to, now)
    ensures UndoPlan(ops, now, id).Ok? && UndoPlan(ops, now, id).value.refused == []
    ensures Undone(ops, now, id) == ApplyAll(start, before + later)
  {
    var from := ApplyAll(start, before);
    UndoneAsIfNever(ops, later, from, to, now, id);
    ApplyAllConcat(start, before, later);
  }

  lemma UndoneWithout(
    ops: seq<Op>, later: seq<NewOp>, from: Cache, to: Cache, now: Cache, inverse: seq<NewOp>, id: string)
    requires Earlier(ops, later, from, to, now) && |inverse| == |ops| && Cached(from, later)
    requires forall k :: 0 <= k < |ops| ==> Undoable(ops[k], now) && !now[ops[k].op.task].deleted
    requires forall k :: 0 <= k < |ops| ==> inverse[k] == InverseOf(ops[k], now, OpIdFor(id, k))
    requires Cached(now, inverse) && AllFieldOps(inverse) && DisjointClaims(inverse)
    ensures ApplyAll(now, inverse) == ApplyAll(from, later)
  {
    var after, without := ApplyAll(now, inverse), ApplyAll(from, later);
    forall s: Slot ensures At(after, s) == At(without, s) {
      if i :| 0 <= i < |ops| && Writes(inverse[i], s) {
        UndoneSlot(ops, later, from, to, now, inverse, id, i, s);
      } else {
        OtherSlot(ops, later, from, to, now, inverse, id, s);
      }
    }
    forall k | 0 <= k < |inverse| ensures !now[inverse[k].task].deleted {
      assert inverse[k] == InverseOf(ops[k], now, OpIdFor(id, k));
    }
    LifeWithout(ops, later, from, to, now);
    FieldOpsKeepLife(now, inverse, |inverse|);
    SlotsEqual(after, without);
  }

  lemma LifeWithout(ops: seq<Op>, later: seq<NewOp>, from: Cache, to: Cache, now: Cache)
    requires Earlier(ops, later, from, to, now) && Cached(from, later)
    ensures from.Keys == now.Keys && CleanCache(now) && CleanCache(ApplyAll(from, later))
    ensures forall t :: t in now ==> now[t].deleted == ApplyAll(from, later)[t].deleted
  {
    TransitionKeepsLife(ops, from, to);
    FieldOpsKeepLife(to, later, |later|);
    FieldOpsKeepLife(from, later, |later|);
  }
}
