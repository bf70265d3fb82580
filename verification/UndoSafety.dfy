/**
 What an undo may change, whatever other devices wrote since: nothing but
 the fields of operations whose every field still holds what they set, and
 those only back to what they were.
 */
module UndoSafety {
  import opened Entities
  import opened OpIds
  import opened Outbox
  import opened Undo

  // ----- Inverse bodies -----

  /** An inverse gives every field it sends the value from before the operation. */
  lemma InverseValues(op: NewOp, before: Entity, now: Entity, f: Key)
    requires f in InverseBody(op, before, now)
    ensures InverseBody(op, before, now)[f] == Get(before, f)
  {
  }

  /** Reminders are times, as Graph gives them. */
  ghost predicate Timed(task: Entity)
  {
    REMINDER in task ==> task[REMINDER].Minute?
  }

  ghost predicate TimedCache(cache: Cache)
  {
    forall t :: t in cache ==> Timed(cache[t].raw)
  }

  /** A completion's inverse may also send the reminder, when it was on and its time is the same. */
  ghost predicate BringsReminderBack(op: NewOp, before: Entity, now: Entity)
  {
    && op.kind.Update? && op.action.Complete?
    && ReminderOn(before) && ReminderAt(before) == ReminderAt(now)
  }

  /** A reopen's inverse leaves out the time, when the reminder was off before the reopen. */
  ghost predicate LeavesTimeOut(op: NewOp, before: Entity)
  {
    op.kind.Update? && op.action.Reopen? && !ReminderOn(before)
  }

  lemma InverseKeys(op: NewOp, before: Entity, now: Entity, f: Key)
    ensures f in InverseBody(op, before, now) ==>
              f in op.body || (BringsReminderBack(op, before, now) && f in {REMINDER_ON, REMINDER})
    ensures f in op.body && !(LeavesTimeOut(op, before) && f == REMINDER) ==>
              f in InverseBody(op, before, now)
    ensures LeavesTimeOut(op, before) ==> REMINDER !in InverseBody(op, before, now)
  {
  }

  /** Exactly the fields an inverse sends. */
  lemma InverseSends(op: NewOp, before: Entity, now: Entity, f: Key)
    ensures f in InverseBody(op, before, now) <==>
            || (f in op.body && !(LeavesTimeOut(op, before) && f == REMINDER))
            || (BringsReminderBack(op, before, now) && REMINDER in before && f in {REMINDER_ON, REMINDER})
  {
  }

  // ----- Which operations are undone -----

  ghost predicate TookEffect(row: Op)
  {
    row.state.Pending? || row.state.Inflight? || row.state.Done?
  }

  /** The operations whose inverse the loop has queued after `n`, in order. */
  ghost function Restored(ops: seq<Op>, cache: Cache, id: string, n: nat): seq<nat>
    requires n <= |ops|
  {
    if n == 0 || After(ops, cache, id, n).Err? then []
    else
      var was, now := After(ops, cache, id, n - 1).value, After(ops, cache, id, n).value;
      Restored(ops, cache, id, n - 1) + if |now.inverse| > |was.inverse| then [n - 1] else []
  }

  /** `i` can be undone: a field operation only while all it set still holds. */
  ghost predicate Undoable(row: Op, cache: Cache)
  {
    && row.op.task in cache
    && !row.state.Failed? && !row.state.Skipped? && !row.state.Unknown?
    && (!row.op.kind.Create? ==> row.rollback.Some?)
    && (FieldOp(row.op) ==> Holds(row.op.body, Target(row.op, cache[row.op.task])))
  }

  ghost function InverseOf(row: Op, cache: Cache, id: string): NewOp
    requires Undoable(row, cache)
  {
    var before := if row.op.kind.Create? then map[] else row.rollback.value;
    Inverse(id, row.op, before, cache[row.op.task])
  }

  ghost predicate Matches(ops: seq<Op>, cache: Cache, id: string, r: seq<nat>, inverse: seq<NewOp>)
  {
    && |r| == |inverse|
    && (forall k :: 0 <= k < |r| ==> r[k] < |ops| && Undoable(ops[r[k]], cache))
    && (forall k :: 0 <= k < |r| ==> inverse[k] == InverseOf(ops[r[k]], cache, OpIdFor(id, k)))
    && (forall j, k :: 0 <= j < k < |r| ==> r[j] < r[k])
  }

  /** One step queues at most one operation: its own inverse, if it can be undone. */
  lemma StepQueues(p: Progress, row: Op, cache: Cache, id: string)
    requires Step(p, row, cache, id).Ok?
    ensures var q := Step(p, row, cache, id).value;
            || q.inverse == p.inverse
            || (Undoable(row, cache)
                && q.inverse == p.inverse + [InverseOf(row, cache, OpIdFor(id, |p.inverse|))])
  {
  }

  lemma MatchesPush(ops: seq<Op>, cache: Cache, id: string, r: seq<nat>, inverse: seq<NewOp>, i: nat)
    requires Matches(ops, cache, id, r, inverse) && i < |ops| && Undoable(ops[i], cache)
    requires forall k :: 0 <= k < |r| ==> r[k] < i
    ensures Matches(ops, cache, id, r + [i],
                    inverse + [InverseOf(ops[i], cache, OpIdFor(id, |inverse|))])
  {
    var more, longer := r + [i], inverse + [InverseOf(ops[i], cache, OpIdFor(id, |inverse|))];
    forall k | 0 <= k < |more|
      ensures more[k] < |ops| && Undoable(ops[more[k]], cache) && longer[k] == InverseOf(ops[more[k]], cache, OpIdFor(id, k))
    {
      if k < |r| {
        assert more[k] == r[k] && longer[k] == inverse[k];
      }
    }
  }

  lemma {:induction false} RestoredMatches(ops: seq<Op>, cache: Cache, id: string, n: nat)
    requires n <= |ops| && After(ops, cache, id, n).Ok?
    ensures Matches(ops, cache, id, Restored(ops, cache, id, n), After(ops, cache, id, n).value.inverse)
    ensures forall k :: 0 <= k < |Restored(ops, cache, id, n)| ==> Restored(ops, cache, id, n)[k] < n
  {
    if n > 0 {
      RestoredMatches(ops, cache, id, n - 1);
      var p, q := After(ops, cache, id, n - 1).value, After(ops, cache, id, n).value;
      MatchesStep(ops, cache, id, n - 1, Restored(ops, cache, id, n - 1), p, q);
    }
  }

  lemma MatchesStep(ops: seq<Op>, cache: Cache, id: string, i: nat, r: seq<nat>, p: Progress, q: Progress)
    requires i < |ops| && Step(p, ops[i], cache, id) == Ok(q) && Matches(ops, cache, id, r, p.inverse)
    requires forall k :: 0 <= k < |r| ==> r[k] < i
    ensures if |q.inverse| > |p.inverse| then Matches(ops, cache, id, r + [i], q.inverse)
            else Matches(ops, cache, id, r, q.inverse)
  {
    StepQueues(p, ops[i], cache, id);
    if q.inverse != p.inverse {
      MatchesPush(ops, cache, id, r, p.inverse, i);
    }
  }

  /** Progress only grows. */
  lemma {:induction false} ProgressGrows(ops: seq<Op>, cache: Cache, id: string, m: nat, n: nat)
    requires m <= n <= |ops| && After(ops, cache, id, n).Ok?
    ensures After(ops, cache, id, m).Ok?
    ensures var p, q := After(ops, cache, id, m).value, After(ops, cache, id, n).value;
            p.leftAlone <= q.leftAlone && p.refused <= q.refused && p.created <= q.created
    ensures Restored(ops, cache, id, m) <= Restored(ops, cache, id, n)
    ensures forall k :: |Restored(ops, cache, id, m)| <= k < |Restored(ops, cache, id, n)| ==>
              m <= Restored(ops, cache, id, n)[k]
  {
    if m < n {
      ProgressGrows(ops, cache, id, m, n - 1);
    }
  }

  /** `i` is undone exactly if its own step queued its inverse. */
  lemma StepDecides(ops: seq<Op>, cache: Cache, id: string, i: nat)
    requires i < |ops| && After(ops, cache, id, |ops|).Ok?
    ensures After(ops, cache, id, i).Ok? && After(ops, cache, id, i + 1).Ok?
    ensures i in Restored(ops, cache, id, |ops|) <==>
            |After(ops, cache, id, i + 1).value.inverse| > |After(ops, cache, id, i).value.inverse|
  {
    ProgressGrows(ops, cache, id, i + 1, |ops|);
    ProgressGrows(ops, cache, id, i, i + 1);
    RestoredMatches(ops, cache, id, i);
    var r := Restored(ops, cache, id, |ops|);
    var here := Restored(ops, cache, id, i + 1);
    assert forall k :: 0 <= k < |here| ==> r[k] == here[k];
    if i in here {
      var k :| 0 <= k < |here| && here[k] == i;
      assert r[k] == i;
    }
  }

  // ----- What an undo changes -----

  ghost predicate FieldCommand(ops: seq<Op>)
  {
    forall i :: 0 <= i < |ops| ==> FieldOp(ops[i].op)
  }

  lemma PlanShape(ops: seq<Op>, cache: Cache, id: string)
    requires FieldCommand(ops) && UndoPlan(ops, cache, id).Ok?
    ensures After(ops, cache, id, |ops|).Ok?
    ensures var inverse := UndoPlan(ops, cache, id).value.inverse;
            && Matches(ops, cache, id, Restored(ops, cache, id, |ops|), inverse)
            && Cached(cache, inverse) && AllFieldOps(inverse)
  {
    RestoredMatches(ops, cache, id, |ops|);
    MatchesAreFieldOps(ops, cache, id, Restored(ops, cache, id, |ops|), UndoPlan(ops, cache, id).value.inverse);
  }

  lemma MatchesAreFieldOps(ops: seq<Op>, cache: Cache, id: string, r: seq<nat>, inverse: seq<NewOp>)
    requires FieldCommand(ops) && Matches(ops, cache, id, r, inverse)
    ensures Cached(cache, inverse) && AllFieldOps(inverse)
  {
    forall k | 0 <= k < |inverse| ensures inverse[k].task in cache && FieldOp(inverse[k]) {
      assert inverse[k] == InverseOf(ops[r[k]], cache, OpIdFor(id, k));
    }
  }

  /** An undo sends operations only to cached tasks, whatever its command did. */
  lemma PlanCached(ops: seq<Op>, cache: Cache, id: string)
    requires UndoPlan(ops, cache, id).Ok?
    ensures Cached(cache, UndoPlan(ops, cache, id).value.inverse)
  {
    RestoredMatches(ops, cache, id, |ops|);
    MatchesCached(ops, cache, id, Restored(ops, cache, id, |ops|), UndoPlan(ops, cache, id).value.inverse);
  }

  lemma MatchesCached(ops: seq<Op>, cache: Cache, id: string, r: seq<nat>, inverse: seq<NewOp>)
    requires Matches(ops, cache, id, r, inverse)
    ensures Cached(cache, inverse)
  {
    forall k | 0 <= k < |inverse| ensures inverse[k].task in cache {
      assert inverse[k] == InverseOf(ops[r[k]], cache, OpIdFor(id, k));
    }
  }

  /** Undoing `row` may change `s`: it set it, or it completed a task whose reminder comes back on. */
  ghost predicate MayChange(row: Op, cache: Cache, s: Slot)
    requires Undoable(row, cache) && FieldOp(row.op)
  {
    var before, now := row.rollback.value, Target(row.op, cache[row.op.task]);
    || Writes(row.op, s)
    || (&& row.op.task == s.task && !s.inExtension && BringsReminderBack(row.op, before, now) && REMINDER in before
        && (s.field == REMINDER_ON || (s.field == REMINDER && ReminderAt(before).None?)))
  }

  ghost predicate Explains(row: Op, cache: Cache, s: Slot, value: Value)
  {
    && FieldOp(row.op) && Undoable(row, cache) && MayChange(row, cache, s)
    && value == Get(row.rollback.value, s.field)
  }

  /** The cache after the undo. */
  ghost function Undone(ops: seq<Op>, cache: Cache, id: string): Cache
    requires FieldCommand(ops) && UndoPlan(ops, cache, id).Ok?
  {
    PlanShape(ops, cache, id);
    ApplyAll(cache, UndoPlan(ops, cache, id).value.inverse)
  }

  lemma {:induction false} LastWriterExists(ops: seq<NewOp>, n: nat, s: Slot) returns (w: nat)
    requires n <= |ops| && exists i :: 0 <= i < n && Writes(ops[i], s)
    ensures w < n && Writes(ops[w], s) && forall i :: w < i < n ==> !Writes(ops[i], s)
  {
    if Writes(ops[n - 1], s) {
      w := n - 1;
    } else {
      w := LastWriterExists(ops, n - 1, s);
    }
  }

  lemma InverseExplained(row: Op, cache: Cache, id: string, s: Slot)
    requires FieldOp(row.op) && Undoable(row, cache) && Writes(InverseOf(row, cache, id), s)
    ensures var value := InverseOf(row, cache, id).body[s.field];
            value != At(cache, s) ==> Explains(row, cache, s, value)
  {
    var before, now := row.rollback.value, Target(row.op, cache[row.op.task]);
    InverseValues(row.op, before, now, s.field);
    InverseSends(row.op, before, now, s.field);
  }

  /**
   Whatever other devices wrote since (`cache` is arbitrary): a field the undo
   changes is one an operation set, all of whose fields still hold what it
   set, and it goes back to what that operation recorded. The one exception
   is the reminder of a completed task, which goes back with its status.
   */
  lemma UndoChangesOnlyWhatHolds(ops: seq<Op>, cache: Cache, id: string, s: Slot)
    requires FieldCommand(ops) && UndoPlan(ops, cache, id).Ok?
    ensures var after := Undone(ops, cache, id);
            At(after, s) != At(cache, s) ==>
              exists i :: 0 <= i < |ops| && Explains(ops[i], cache, s, At(after, s))
  {
    PlanShape(ops, cache, id);
    var inverse := UndoPlan(ops, cache, id).value.inverse;
    var r := Restored(ops, cache, id, |ops|);
    var after := Undone(ops, cache, id);
    if forall k :: 0 <= k < |inverse| ==> !Writes(inverse[k], s) {
      Unwritten(cache, inverse, |inverse|, s);
    } else {
      var w := LastWriterExists(inverse, |inverse|, s);
      LastWriter(cache, inverse, |inverse|, w, s);
      InverseExplained(ops[r[w]], cache, OpIdFor(id, w), s);
    }
  }

  /** An inverse writes only fields its operation claims. */
  lemma InverseWithinClaims(row: Op, cache: Cache, id: string, s: Slot)
    requires Undoable(row, cache) && FieldOp(row.op)
    requires Writes(InverseOf(row, cache, id), s)
    ensures row.op.task == s.task && row.op.kind.Extension? == s.inExtension && s.field in Claims(row.op)
  {
    InverseKeys(row.op, row.rollback.value, Target(row.op, cache[row.op.task]), s.field);
  }

  /** An inverse claims no field its operation doesn't. */
  lemma InverseClaims(row: Op, cache: Cache, id: string)
    requires Undoable(row, cache) && FieldOp(row.op)
    ensures var inv := InverseOf(row, cache, id);
            && FieldOp(inv) && inv.task == row.op.task && inv.kind.Extension? == row.op.kind.Extension?
            && Claims(inv) <= Claims(row.op)
  {
    var inv := InverseOf(row, cache, id);
    forall f | f in Claims(inv) ensures f in Claims(row.op) {
      InverseKeys(row.op, row.rollback.value, Target(row.op, cache[row.op.task]), f);
    }
  }

  /**
   So an undo, even one that left some operations alone, is a command whose
   operations have no field in common: what holds of undoing a command holds
   of undoing an undo.
   */
  lemma UndoDisjoint(ops: seq<Op>, cache: Cache, id: string)
    requires FieldCommand(ops) && UndoPlan(ops, cache, id).Ok? && DisjointClaims(Sent(ops))
    ensures Cached(cache, UndoPlan(ops, cache, id).value.inverse)
    ensures AllFieldOps(UndoPlan(ops, cache, id).value.inverse)
    ensures DisjointClaims(UndoPlan(ops, cache, id).value.inverse)
  {
    PlanShape(ops, cache, id);
    MatchesDisjoint(ops, cache, id, Restored(ops, cache, id, |ops|), UndoPlan(ops, cache, id).value.inverse);
  }

  lemma MatchesDisjoint(ops: seq<Op>, cache: Cache, id: string, r: seq<nat>, inverse: seq<NewOp>)
    requires FieldCommand(ops) && DisjointClaims(Sent(ops)) && Matches(ops, cache, id, r, inverse)
    ensures DisjointClaims(inverse)
  {
    forall j, k | 0 <= j < k < |inverse| && inverse[j].task == inverse[k].task
                  && inverse[j].kind.Extension? == inverse[k].kind.Extension?
      ensures Claims(inverse[j]) !! Claims(inverse[k])
    {
      InverseClaims(ops[r[j]], cache, OpIdFor(id, j));
      InverseClaims(ops[r[k]], cache, OpIdFor(id, k));
      assert Claims(Sent(ops)[r[j]]) !! Claims(Sent(ops)[r[k]]);
    }
  }

  /** Of operations with no field in common, only its own inverse writes what one claims. */
  lemma OnlyOwnInverse(ops: seq<Op>, cache: Cache, id: string, i: nat, k: nat, s: Slot)
    requires FieldCommand(ops) && UndoPlan(ops, cache, id).Ok? && DisjointClaims(Sent(ops))
    requires i < |ops| && ops[i].op.task == s.task && ops[i].op.kind.Extension? == s.inExtension
    requires s.field in Claims(ops[i].op)
    requires k < |UndoPlan(ops, cache, id).value.inverse|
    requires Writes(UndoPlan(ops, cache, id).value.inverse[k], s)
    ensures |Restored(ops, cache, id, |ops|)| == |UndoPlan(ops, cache, id).value.inverse|
    ensures Restored(ops, cache, id, |ops|)[k] == i
  {
    PlanShape(ops, cache, id);
    var j := Restored(ops, cache, id, |ops|)[k];
    InverseWithinClaims(ops[j], cache, OpIdFor(id, k), s);
    assert s.field in Claims(Sent(ops)[i]) && s.field in Claims(Sent(ops)[j]);
  }

  /** Where `f`, a field of the operation `op`, is. */
  ghost function SlotOf(op: NewOp, f: Key): Slot
  {
    Slot(op.task, op.kind.Extension?, f)
  }

  /** An operation that is undone is undone whole. */
  lemma RestoredWhole(ops: seq<Op>, cache: Cache, id: string, i: nat, f: Key)
    requires FieldCommand(ops) && UndoPlan(ops, cache, id).Ok? && DisjointClaims(Sent(ops))
    requires i < |ops| && i in Restored(ops, cache, id, |ops|) && f in ops[i].op.body
    ensures Undoable(ops[i], cache)
    ensures var before := ops[i].rollback.value;
            At(Undone(ops, cache, id), SlotOf(ops[i].op, f))
            == if LeavesTimeOut(ops[i].op, before) && f == REMINDER then ops[i].op.body[f]
               else Get(before, f)
  {
    ClaimedAfterUndo(ops, cache, id, i, f);
    var op, before, now := ops[i].op, ops[i].rollback.value, Target(ops[i].op, cache[ops[i].op.task]);
    InverseSends(op, before, now, f);
    HoldsField(op.body, now, f);
    InverseKeys(op, before, now, f);
  }

  /** An operation that isn't undone keeps every field it set as it is now. */
  lemma LeftAloneWhole(ops: seq<Op>, cache: Cache, id: string, i: nat, f: Key)
    requires FieldCommand(ops) && UndoPlan(ops, cache, id).Ok? && DisjointClaims(Sent(ops))
    requires i < |ops| && i !in Restored(ops, cache, id, |ops|) && f in ops[i].op.body
    ensures At(Undone(ops, cache, id), SlotOf(ops[i].op, f)) == At(cache, SlotOf(ops[i].op, f))
  {
    PlanShape(ops, cache, id);
    var inverse, s := UndoPlan(ops, cache, id).value.inverse, SlotOf(ops[i].op, f);
    forall k | 0 <= k < |inverse| ensures !Writes(inverse[k], s) {
      if Writes(inverse[k], s) {
        OnlyOwnInverse(ops, cache, id, i, k, s);
      }
    }
    Unwritten(cache, inverse, |inverse|, s);
  }

  /** What a step leaves alone is its own operation: one that moved on, or part of one left alone before. */
  lemma StepLeaves(p: Progress, row: Op, cache: Cache, id: string, left: string)
    requires Step(p, row, cache, id).Ok? && left in Step(p, row, cache, id).value.leftAlone && left !in p.leftAlone
    ensures left == row.op.id
    ensures row.op.task in Step(p, row, cache, id).value.refused
            || (row.op.partOf.Some? && row.op.partOf.value in p.leftAlone && Step(p, row, cache, id).value.refused == p.refused)
  {
  }

  /** One of the first `n` operations has the ID `left`, and its task is among the refused. */
  ghost predicate Reported(ops: seq<Op>, n: nat, left: string, refused: seq<string>)
  {
    exists i :: 0 <= i < n && i < |ops| && ops[i].op.id == left && ops[i].op.task in refused
  }

  ghost predicate AllReported(ops: seq<Op>, n: nat, p: Progress)
  {
    forall left :: left in p.leftAlone ==> Reported(ops, n, left, p.refused)
  }

  lemma StepReports(ops: seq<Op>, cache: Cache, id: string, n: nat, p: Progress, q: Progress)
    requires n < |ops| && RefsInOrder(Sent(ops)) && Step(p, ops[n], cache, id) == Ok(q)
    requires AllReported(ops, n, p)
    ensures AllReported(ops, n + 1, q)
  {
    StepRefuses(p, ops[n], cache, id);
    forall left | left in q.leftAlone ensures Reported(ops, n + 1, left, q.refused) {
      if left in p.leftAlone {
        StaysReported(ops, n, left, p.refused, q.refused);
      } else {
        StepLeaves(p, ops[n], cache, id, left);
        if ops[n].op.task !in q.refused {
          PartReported(ops, n, p.refused);
        }
        assert ops[n].op.id == left && ops[n].op.task in q.refused;
      }
    }
  }

  lemma StepRefuses(p: Progress, row: Op, cache: Cache, id: string)
    requires Step(p, row, cache, id).Ok?
    ensures p.refused <= Step(p, row, cache, id).value.refused
  {
  }

  lemma StaysReported(ops: seq<Op>, n: nat, left: string, refused: seq<string>, more: seq<string>)
    requires Reported(ops, n, left, refused) && refused <= more
    ensures Reported(ops, n + 1, left, more)
  {
    var i :| 0 <= i < n && i < |ops| && ops[i].op.id == left && ops[i].op.task in refused;
    assert ops[i].op.task in more;
  }

  /** With the whole's task reported, so is its part's, which is the same. */
  lemma PartReported(ops: seq<Op>, j: nat, refused: seq<string>)
    requires RefsInOrder(Sent(ops)) && j < |ops| && ops[j].op.partOf.Some?
    requires Reported(ops, j, ops[j].op.partOf.value, refused)
    ensures ops[j].op.task in refused
  {
    var i :| 0 <= i < j && ops[i].op.id == ops[j].op.partOf.value && ops[i].op.task in refused;
    PartIsOnSameTask(ops, i, j);
  }

  /** Every operation left alone has its task reported. */
  lemma {:induction false} LeftAloneReported(ops: seq<Op>, cache: Cache, id: string, n: nat)
    requires n <= |ops| && RefsInOrder(Sent(ops)) && After(ops, cache, id, n).Ok?
    ensures AllReported(ops, n, After(ops, cache, id, n).value)
  {
    if n > 0 {
      var p, q := LastStep(ops, cache, id, n);
      LeftAloneReported(ops, cache, id, n - 1);
      StepReports(ops, cache, id, n - 1, p, q);
    }
  }

  lemma LastStep(ops: seq<Op>, cache: Cache, id: string, n: nat) returns (p: Progress, q: Progress)
    requires 0 < n <= |ops| && After(ops, cache, id, n).Ok?
    ensures After(ops, cache, id, n - 1) == Ok(p) && After(ops, cache, id, n) == Ok(q)
    ensures Step(p, ops[n - 1], cache, id) == Ok(q)
  {
    p, q := After(ops, cache, id, n - 1).value, After(ops, cache, id, n).value;
  }

  lemma PartIsOnSameTask(ops: seq<Op>, i: nat, j: nat)
    requires RefsInOrder(Sent(ops)) && i < j < |ops| && ops[j].op.partOf == Some(ops[i].op.id)
    ensures ops[i].op.task == ops[j].op.task
  {
    var sent := Sent(ops);
    assert Names(sent, j, sent[j].partOf);
    var k :| 0 <= k < j && sent[k].id == sent[i].id && sent[k].task == sent[j].task;
  }

  /** A step on a field operation that took effect undoes it or leaves it alone. */
  lemma StepFate(p: Progress, row: Op, cache: Cache, id: string)
    requires FieldOp(row.op) && p.created == {} && !row.state.Failed? && !row.state.Skipped?
    requires Step(p, row, cache, id).Ok?
    ensures var q := Step(p, row, cache, id).value;
            |q.inverse| > |p.inverse| || row.op.id in q.leftAlone
  {
  }

  lemma StepLeavesPart(p: Progress, row: Op, cache: Cache, id: string)
    requires row.op.partOf.Some? && row.op.partOf.value in p.leftAlone && Step(p, row, cache, id).Ok?
    ensures Step(p, row, cache, id).value.inverse == p.inverse
  {
  }

  /**
   Each operation that took effect is undone, all its fields holding, or left
   alone with its task among the refused. An undo that fails queues nothing.
   */
  lemma UndoneOrReported(ops: seq<Op>, cache: Cache, id: string, i: nat)
    requires FieldCommand(ops) && UndoPlan(ops, cache, id).Ok? && RefsInOrder(Sent(ops))
    requires i < |ops| && !ops[i].state.Failed? && !ops[i].state.Skipped?
    ensures if i in Restored(ops, cache, id, |ops|)
            then Undoable(ops[i], cache)
            else ops[i].op.task in UndoPlan(ops, cache, id).value.refused
  {
    RestoredMatches(ops, cache, id, |ops|);
    var r := Restored(ops, cache, id, |ops|);
    if i in r {
      var k :| 0 <= k < |r| && r[k] == i;
    } else {
      NotUndoneIsReported(ops, cache, id, i);
    }
  }

  lemma NotUndoneIsReported(ops: seq<Op>, cache: Cache, id: string, i: nat)
    requires FieldCommand(ops) && After(ops, cache, id, |ops|).Ok? && RefsInOrder(Sent(ops))
    requires i < |ops| && !ops[i].state.Failed? && !ops[i].state.Skipped?
    requires i !in Restored(ops, cache, id, |ops|)
    ensures ops[i].op.task in After(ops, cache, id, |ops|).value.refused
  {
    LeftByItsStep(ops, cache, id, i);
    LeftAloneReported(ops, cache, id, i + 1);
    var p := After(ops, cache, id, i + 1).value;
    assert Reported(ops, i + 1, ops[i].op.id, p.refused);
    ReportedItself(ops, i + 1, i, p.refused);
    StaysRefused(ops, cache, id, i + 1, |ops|, ops[i].op.task);
  }

  lemma StaysRefused(ops: seq<Op>, cache: Cache, id: string, m: nat, n: nat, task: string)
    requires m <= n <= |ops| && After(ops, cache, id, n).Ok? && After(ops, cache, id, m).Ok?
    requires task in After(ops, cache, id, m).value.refused
    ensures task in After(ops, cache, id, n).value.refused
  {
    ProgressGrows(ops, cache, id, m, n);
  }

  lemma ReportedItself(ops: seq<Op>, n: nat, i: nat, refused: seq<string>)
    requires RefsInOrder(Sent(ops)) && i < |ops| && Reported(ops, n, ops[i].op.id, refused)
    ensures ops[i].op.task in refused
  {
    var j :| 0 <= j < n && j < |ops| && ops[j].op.id == ops[i].op.id && ops[j].op.task in refused;
    assert Sent(ops)[j].id == Sent(ops)[i].id;
  }

  lemma LeftByItsStep(ops: seq<Op>, cache: Cache, id: string, i: nat)
    requires FieldCommand(ops) && After(ops, cache, id, |ops|).Ok? && i < |ops|
    requires !ops[i].state.Failed? && !ops[i].state.Skipped? && i !in Restored(ops, cache, id, |ops|)
    ensures After(ops, cache, id, i + 1).Ok? && ops[i].op.id in After(ops, cache, id, i + 1).value.leftAlone
  {
    StepDecides(ops, cache, id, i);
    CreatesNothing(ops, cache, id, i);
    StepFate(After(ops, cache, id, i).value, ops[i], cache, id);
  }

  lemma {:induction false} CreatesNothing(ops: seq<Op>, cache: Cache, id: string, n: nat)
    requires FieldCommand(ops) && n <= |ops| && After(ops, cache, id, n).Ok?
    ensures After(ops, cache, id, n).value.created == {}
  {
    if n > 0 {
      CreatesNothing(ops, cache, id, n - 1);
    }
  }

  /**
   An operation that is part of one left alone (an assignment's status and
   flag, when the assignee has moved on) is never undone.
   */
  lemma PartStaysWithWhole(ops: seq<Op>, cache: Cache, id: string, i: nat, j: nat)
    requires After(ops, cache, id, |ops|).Ok? && RefsInOrder(Sent(ops)) && i < j < |ops|
    requires ops[j].op.partOf == Some(ops[i].op.id)
    requires ops[i].op.id in After(ops, cache, id, |ops|).value.leftAlone
    ensures j !in Restored(ops, cache, id, |ops|)
  {
    LeftAloneByItsStep(ops, cache, id, |ops|, i);
    PartSkipped(ops, cache, id, i, j);
  }

  lemma PartSkipped(ops: seq<Op>, cache: Cache, id: string, i: nat, j: nat)
    requires After(ops, cache, id, |ops|).Ok? && i < j < |ops|
    requires ops[j].op.partOf == Some(ops[i].op.id)
    requires After(ops, cache, id, i + 1).Ok? && ops[i].op.id in After(ops, cache, id, i + 1).value.leftAlone
    ensures j !in Restored(ops, cache, id, |ops|)
  {
    StepDecides(ops, cache, id, j);
    ProgressGrows(ops, cache, id, i + 1, j);
    StepLeavesPart(After(ops, cache, id, j).value, ops[j], cache, id);
  }

  /** With distinct IDs, an operation is left alone by its own step or never. */
  lemma {:induction false} LeftAloneByItsStep(ops: seq<Op>, cache: Cache, id: string, n: nat, i: nat)
    requires n <= |ops| && RefsInOrder(Sent(ops)) && After(ops, cache, id, n).Ok? && i < |ops|
    requires ops[i].op.id in After(ops, cache, id, n).value.leftAlone
    ensures i < n && After(ops, cache, id, i + 1).Ok?
    ensures ops[i].op.id in After(ops, cache, id, i + 1).value.leftAlone
  {
    if n - 1 != i {
      assert Sent(ops)[n - 1].id != Sent(ops)[i].id;
      LeftAloneByItsStep(ops, cache, id, n - 1, i);
    }
  }

  // ----- Exactly what an undo does -----

  /** An operation that took effect is undone exactly while what it set holds and it isn't part of one left alone. */
  lemma StepOutcome(p: Progress, row: Op, cache: Cache, id: string)
    requires FieldOp(row.op) && p.created == {} && TookEffect(row) && Step(p, row, cache, id).Ok?
    ensures |Step(p, row, cache, id).value.inverse| > |p.inverse| <==>
            && !(row.op.partOf.Some? && row.op.partOf.value in p.leftAlone)
            && row.op.task in cache && Holds(row.op.body, Target(row.op, cache[row.op.task]))
  {
  }

  /** Of the operations of a command, `i` moved on since: what it set no longer holds. */
  ghost predicate MovedOn(ops: seq<Op>, cache: Cache, i: nat)
  {
    && i < |ops| && TookEffect(ops[i]) && ops[i].op.partOf.None? && ops[i].op.task in cache
    && !Holds(ops[i].op.body, Target(ops[i].op, cache[ops[i].op.task]))
  }

  lemma MovedOnIsLeftAlone(ops: seq<Op>, cache: Cache, id: string, i: nat)
    requires FieldCommand(ops) && After(ops, cache, id, |ops|).Ok? && MovedOn(ops, cache, i)
    ensures After(ops, cache, id, i + 1).Ok? && ops[i].op.id in After(ops, cache, id, i + 1).value.leftAlone
  {
    StepDecides(ops, cache, id, i);
    CreatesNothing(ops, cache, id, i);
  }

  /** With `i` moved on, another operation is put back exactly if it isn't part of `i` and what it set still holds. */
  lemma PutBackExactly(ops: seq<Op>, cache: Cache, id: string, i: nat, j: nat)
    requires FieldCommand(ops) && After(ops, cache, id, |ops|).Ok? && RefsInOrder(Sent(ops)) && MovedOn(ops, cache, i)
    requires j < |ops| && TookEffect(ops[j]) && ops[j].op.partOf in {None, Some(ops[i].op.id)}
    ensures j in Restored(ops, cache, id, |ops|) <==>
            && ops[j].op.partOf.None? && ops[j].op.task in cache
            && Holds(ops[j].op.body, Target(ops[j].op, cache[ops[j].op.task]))
  {
    if ops[j].op.partOf.None? {
      WholePutBack(ops, cache, id, j);
    } else {
      MovedOnIsLeftAlone(ops, cache, id, i);
      PartComesLater(ops, i, j);
      PartSkipped(ops, cache, id, i, j);
    }
  }

  /** An operation that is part of none is put back exactly while what it set holds. */
  lemma WholePutBack(ops: seq<Op>, cache: Cache, id: string, j: nat)
    requires FieldCommand(ops) && After(ops, cache, id, |ops|).Ok?
    requires j < |ops| && TookEffect(ops[j]) && ops[j].op.partOf.None?
    ensures j in Restored(ops, cache, id, |ops|) <==>
            ops[j].op.task in cache && Holds(ops[j].op.body, Target(ops[j].op, cache[ops[j].op.task]))
  {
    StepDecides(ops, cache, id, j);
    CreatesNothing(ops, cache, id, j);
    StepOutcome(After(ops, cache, id, j).value, ops[j], cache, id);
  }

  lemma PartComesLater(ops: seq<Op>, i: nat, j: nat)
    requires RefsInOrder(Sent(ops)) && i < |ops| && j < |ops| && ops[j].op.partOf == Some(ops[i].op.id)
    ensures i < j
  {
    var sent := Sent(ops);
    assert Names(sent, j, sent[j].partOf);
    var k :| 0 <= k < j && sent[k].id == sent[i].id && sent[k].task == sent[j].task;
  }

  /** An undo of field operations that all took effect, on live cached tasks, meets no error. */
  lemma {:induction false} NoErrors(ops: seq<Op>, cache: Cache, id: string, n: nat)
    requires FieldCommand(ops) && n <= |ops|
    requires forall i :: 0 <= i < |ops| ==>
               TookEffect(ops[i]) && ops[i].rollback.Some? && ops[i].op.task in cache && !cache[ops[i].op.task].deleted
    ensures After(ops, cache, id, n).Ok?
  {
    if n > 0 {
      NoErrors(ops, cache, id, n - 1);
      CreatesNothing(ops, cache, id, n - 1);
    }
  }

  /** Every field a restored operation claims: back to what it was if its inverse sends it, else as it is now. */
  lemma ClaimedAfterUndo(ops: seq<Op>, cache: Cache, id: string, i: nat, f: Key)
    requires FieldCommand(ops) && UndoPlan(ops, cache, id).Ok? && DisjointClaims(Sent(ops))
    requires i < |ops| && i in Restored(ops, cache, id, |ops|) && f in Claims(ops[i].op)
    ensures Undoable(ops[i], cache)
    ensures var s := SlotOf(ops[i].op, f);
            At(Undone(ops, cache, id), s)
            == if f in InverseOf(ops[i], cache, id).body then Get(ops[i].rollback.value, f) else At(cache, s)
  {
    var k := OwnInverse(ops, cache, id, i);
    var inverse, row, s := UndoPlan(ops, cache, id).value.inverse, ops[i], SlotOf(ops[i].op, f);
    forall j | 0 <= j < |inverse| && Writes(inverse[j], s) ensures j == k {
      OnlyOwnInverse(ops, cache, id, i, j, s);
      PlanShape(ops, cache, id);
    }
    if f in inverse[k].body {
      LastWriter(cache, inverse, |inverse|, k, s);
      InverseValues(row.op, row.rollback.value, Target(row.op, cache[row.op.task]), f);
    } else {
      Unwritten(cache, inverse, |inverse|, s);
    }
  }

  /** Where a restored operation's inverse is. */
  lemma OwnInverse(ops: seq<Op>, cache: Cache, id: string, i: nat) returns (k: nat)
    requires FieldCommand(ops) && UndoPlan(ops, cache, id).Ok? && i < |ops| && i in Restored(ops, cache, id, |ops|)
    ensures var inverse, r := UndoPlan(ops, cache, id).value.inverse, Restored(ops, cache, id, |ops|);
            && Cached(cache, inverse) && AllFieldOps(inverse) && k < |r| == |inverse| && r[k] == i
            && Undoable(ops[i], cache) && inverse[k] == InverseOf(ops[i], cache, OpIdFor(id, k))
  {
    PlanShape(ops, cache, id);
    var r := Restored(ops, cache, id, |ops|);
    k :| 0 <= k < |r| && r[k] == i;
  }

  /**
   The exception is exact: undoing an operation that completes or reopens a
   task and said nothing of its reminder turns it on if it was on before with
   the time it has now, and otherwise leaves it as it is.
   */
  lemma ReminderAfterUndo(ops: seq<Op>, cache: Cache, id: string, i: nat)
    requires FieldCommand(ops) && UndoPlan(ops, cache, id).Ok? && DisjointClaims(Sent(ops))
    requires i < |ops| && i in Restored(ops, cache, id, |ops|)
    requires ops[i].op.kind.Update? && (ops[i].op.action.Complete? || ops[i].op.action.Reopen?)
    requires REMINDER_ON !in ops[i].op.body
    ensures Undoable(ops[i], cache)
    ensures var op, before, s := ops[i].op, ops[i].rollback.value, SlotOf(ops[i].op, REMINDER_ON);
            At(Undone(ops, cache, id), s)
            == if BringsReminderBack(op, before, cache[op.task].raw) && REMINDER in before then Flag(true)
               else At(cache, s)
  {
    ClaimedAfterUndo(ops, cache, id, i, REMINDER_ON);
    var op, before := ops[i].op, ops[i].rollback.value;
    InverseSends(op, before, cache[op.task].raw, REMINDER_ON);
  }

  /** An undo's own operations are part of nothing and wait for nothing. */
  lemma UndoHasNoParts(ops: seq<Op>, cache: Cache, id: string)
    requires UndoPlan(ops, cache, id).Ok?
    ensures var inverse := UndoPlan(ops, cache, id).value.inverse;
            forall k :: 0 <= k < |inverse| ==> inverse[k].partOf.None? && inverse[k].after.None?
  {
    RestoredMatches(ops, cache, id, |ops|);
    MatchesHaveNoParts(ops, cache, id, Restored(ops, cache, id, |ops|), UndoPlan(ops, cache, id).value.inverse);
  }

  lemma MatchesHaveNoParts(ops: seq<Op>, cache: Cache, id: string, r: seq<nat>, inverse: seq<NewOp>)
    requires Matches(ops, cache, id, r, inverse)
    ensures forall k :: 0 <= k < |inverse| ==>
              inverse[k].id == OpIdFor(id, k) && inverse[k].partOf.None? && inverse[k].after.None?
  {
    forall k | 0 <= k < |inverse|
      ensures inverse[k].id == OpIdFor(id, k) && inverse[k].partOf.None? && inverse[k].after.None?
    {
      assert inverse[k] == InverseOf(ops[r[k]], cache, OpIdFor(id, k));
    }
  }

  lemma UndoRefs(ops: seq<Op>, cache: Cache, id: string)
    requires UndoPlan(ops, cache, id).Ok?
    ensures RefsInOrder(UndoPlan(ops, cache, id).value.inverse)
  {
    RestoredMatches(ops, cache, id, |ops|);
    MatchesRefer(ops, cache, id, Restored(ops, cache, id, |ops|), UndoPlan(ops, cache, id).value.inverse);
  }

  lemma MatchesRefer(ops: seq<Op>, cache: Cache, id: string, r: seq<nat>, inverse: seq<NewOp>)
    requires Matches(ops, cache, id, r, inverse)
    ensures RefsInOrder(inverse)
  {
    MatchesHaveNoParts(ops, cache, id, r, inverse);
    forall i, j | 0 <= i < j < |inverse| ensures inverse[i].id != inverse[j].id {
      OpIdsDistinct(id, i, j);
    }
  }
}
