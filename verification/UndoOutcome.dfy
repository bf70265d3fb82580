/**
 What becomes of each operation of a command that is undone, told from the
 operations and the cache alone, for commands of any kind: which stops the
 undo, which is taken back, which task is reported, and nothing else.
 */
module UndoOutcome {
  import opened Entities
  import opened OpIds
  import opened Outbox
  import opened Undo
  import opened UndoSafety

  // ----- The fate of one operation -----

  /** What `row` set no longer holds. */
  ghost predicate Moved(row: Op, cache: Cache)
  {
    FieldOp(row.op) && row.op.task in cache && !Holds(row.op.body, Target(row.op, cache[row.op.task]))
  }

  /** An earlier operation of the command made its task, so undoing that one undoes all. */
  ghost predicate Made(ops: seq<Op>, cache: Cache, i: nat)
    requires i < |ops|
    decreases i, 0
  {
    exists j :: 0 <= j < i && ops[j].op.task == ops[i].op.task && Makes(ops, cache, j)
  }

  ghost predicate Makes(ops: seq<Op>, cache: Cache, i: nat)
    requires i < |ops|
    decreases i, 3
  {
    ops[i].op.kind.Create? && TookEffect(ops[i]) && !Made(ops, cache, i) && !PartAside(ops, cache, i)
  }

  /** It is part of an earlier operation that is left alone. */
  ghost predicate PartAside(ops: seq<Op>, cache: Cache, i: nat)
    requires i < |ops|
    decreases i, 1
  {
    ops[i].op.partOf.Some? && exists j :: 0 <= j < i && ops[j].op.id == ops[i].op.partOf.value && Aside(ops, cache, j)
  }

  /** It took effect and is left alone: it moved on, or is part of one that is. */
  ghost predicate Aside(ops: seq<Op>, cache: Cache, i: nat)
    requires i < |ops|
    decreases i, 2
  {
    TookEffect(ops[i]) && !Made(ops, cache, i) && (PartAside(ops, cache, i) || Moved(ops[i], cache))
  }

  /** It is its own undoing that is at stake. */
  ghost predicate OnItsOwn(ops: seq<Op>, cache: Cache, i: nat)
    requires i < |ops|
  {
    TookEffect(ops[i]) && !Made(ops, cache, i) && !PartAside(ops, cache, i)
  }

  /** Its task is reported: it moved on. */
  ghost predicate Refuses(ops: seq<Op>, cache: Cache, i: nat)
    requires i < |ops|
  {
    OnItsOwn(ops, cache, i) && Moved(ops[i], cache)
  }

  /** It is taken back. */
  ghost predicate TakenBack(ops: seq<Op>, cache: Cache, i: nat)
    requires i < |ops|
  {
    OnItsOwn(ops, cache, i) && !Moved(ops[i], cache)
  }

  /** The whole undo stops at it: its outcome isn't known, its task is gone, or deleted or live as it shouldn't be. */
  ghost predicate Stops(ops: seq<Op>, cache: Cache, i: nat, error: Error)
    requires i < |ops|
  {
    var row, op := ops[i], ops[i].op;
    || (row.state.Unknown? && !Made(ops, cache, i) && error == OutcomeUnknown(op.id))
    || (OnItsOwn(ops, cache, i) &&
          (|| (op.task !in cache && error == NotCached(op.task))
           || (op.task in cache && op.kind.Delete? != cache[op.task].deleted && error == ChangedSince(op.id))
           || (&& op.task in cache && op.kind.Delete? == cache[op.task].deleted && !op.kind.Create?
               && !Moved(row, cache) && row.rollback.None? && error == NoRecord(op.id))))
  }

  ghost predicate Goes(ops: seq<Op>, cache: Cache, i: nat)
    requires i < |ops|
  {
    forall error :: !Stops(ops, cache, i, error)
  }

  // ----- What the loop has so far is that -----

  ghost predicate MadeBy(ops: seq<Op>, cache: Cache, n: nat, task: string)
    requires n <= |ops|
  {
    exists j :: 0 <= j < n && ops[j].op.task == task && Makes(ops, cache, j)
  }

  ghost predicate AsideBy(ops: seq<Op>, cache: Cache, n: nat, id: string)
    requires n <= |ops|
  {
    exists j :: 0 <= j < n && ops[j].op.id == id && Aside(ops, cache, j)
  }

  ghost predicate RefusedBy(ops: seq<Op>, cache: Cache, n: nat, task: string)
    requires n <= |ops|
  {
    exists j :: 0 <= j < n && ops[j].op.task == task && Refuses(ops, cache, j)
  }

  ghost predicate Tells(ops: seq<Op>, cache: Cache, n: nat, p: Progress)
    requires n <= |ops|
  {
    && (forall t :: t in p.created <==> MadeBy(ops, cache, n, t))
    && (forall x :: x in p.leftAlone <==> AsideBy(ops, cache, n, x))
    && (forall t :: t in p.refused <==> RefusedBy(ops, cache, n, t))
  }

  lemma MadeByMore(ops: seq<Op>, cache: Cache, n: nat, task: string)
    requires n < |ops|
    ensures MadeBy(ops, cache, n + 1, task) <==> MadeBy(ops, cache, n, task) || (ops[n].op.task == task && Makes(ops, cache, n))
  {
  }

  lemma AsideByMore(ops: seq<Op>, cache: Cache, n: nat, id: string)
    requires n < |ops|
    ensures AsideBy(ops, cache, n + 1, id) <==> AsideBy(ops, cache, n, id) || (ops[n].op.id == id && Aside(ops, cache, n))
  {
  }

  lemma RefusedByMore(ops: seq<Op>, cache: Cache, n: nat, task: string)
    requires n < |ops|
    ensures RefusedBy(ops, cache, n + 1, task) <==>
            RefusedBy(ops, cache, n, task) || (ops[n].op.task == task && Refuses(ops, cache, n))
  {
  }

  /** One step, by what the operation itself is. */
  lemma StepDoes(ops: seq<Op>, cache: Cache, id: string, n: nat, p: Progress)
    requires n < |ops| && Tells(ops, cache, n, p)
    ensures Step(p, ops[n], cache, id).Err? ==> Stops(ops, cache, n, Step(p, ops[n], cache, id).error)
    ensures Step(p, ops[n], cache, id).Ok? ==>
              var q := Step(p, ops[n], cache, id).value;
              && Goes(ops, cache, n)
              && q.created == p.created + (if Makes(ops, cache, n) then {ops[n].op.task} else {})
              && q.leftAlone == p.leftAlone + (if Aside(ops, cache, n) then {ops[n].op.id} else {})
              && q.refused == p.refused + (if Refuses(ops, cache, n) then [ops[n].op.task] else [])
              && (|q.inverse| > |p.inverse| <==> TakenBack(ops, cache, n))
              && |q.inverse| >= |p.inverse|
  {
    var row, op := ops[n], ops[n].op;
    assert op.task in p.created <==> Made(ops, cache, n);
    assert op.partOf.Some? && op.partOf.value in p.leftAlone <==> PartAside(ops, cache, n);
  }

  lemma StepTells(ops: seq<Op>, cache: Cache, id: string, n: nat, p: Progress, q: Progress)
    requires n < |ops| && Tells(ops, cache, n, p) && Step(p, ops[n], cache, id) == Ok(q)
    ensures Tells(ops, cache, n + 1, q)
  {
    StepDoes(ops, cache, id, n, p);
    forall t ensures t in q.created <==> MadeBy(ops, cache, n + 1, t) {
      MadeByMore(ops, cache, n, t);
    }
    forall x ensures x in q.leftAlone <==> AsideBy(ops, cache, n + 1, x) {
      AsideByMore(ops, cache, n, x);
    }
    forall t ensures t in q.refused <==> RefusedBy(ops, cache, n + 1, t) {
      RefusedByMore(ops, cache, n, t);
    }
  }

  ghost predicate AllGo(ops: seq<Op>, cache: Cache, n: nat)
    requires n <= |ops|
  {
    forall i :: 0 <= i < n ==> Goes(ops, cache, i)
  }

  lemma {:induction false} LoopTells(ops: seq<Op>, cache: Cache, id: string, n: nat)
    requires n <= |ops|
    ensures After(ops, cache, id, n).Ok? <==> AllGo(ops, cache, n)
    ensures After(ops, cache, id, n).Ok? ==> Tells(ops, cache, n, After(ops, cache, id, n).value)
    ensures After(ops, cache, id, n).Err? ==>
              exists i :: 0 <= i < n && AllGo(ops, cache, i) && Stops(ops, cache, i, After(ops, cache, id, n).error)
  {
    if n > 0 {
      LoopTells(ops, cache, id, n - 1);
      if After(ops, cache, id, n - 1).Ok? {
        LastTells(ops, cache, id, n - 1, After(ops, cache, id, n - 1).value);
      }
    }
  }

  lemma LastTells(ops: seq<Op>, cache: Cache, id: string, n: nat, p: Progress)
    requires n < |ops| && After(ops, cache, id, n) == Ok(p) && Tells(ops, cache, n, p) && AllGo(ops, cache, n)
    ensures After(ops, cache, id, n + 1) == Step(p, ops[n], cache, id)
    ensures After(ops, cache, id, n + 1).Ok? <==> AllGo(ops, cache, n + 1)
    ensures After(ops, cache, id, n + 1).Ok? ==> Tells(ops, cache, n + 1, After(ops, cache, id, n + 1).value)
    ensures After(ops, cache, id, n + 1).Err? ==> Stops(ops, cache, n, After(ops, cache, id, n + 1).error)
  {
    StepDoes(ops, cache, id, n, p);
    if Step(p, ops[n], cache, id).Ok? {
      StepTells(ops, cache, id, n, p, Step(p, ops[n], cache, id).value);
    } else {
      assert !Goes(ops, cache, n);
    }
  }

  // ----- The undo as a whole -----

  /** There is one first operation to stop it, and it does so in one way. */
  lemma FirstStops(ops: seq<Op>, cache: Cache, i: nat, j: nat, a: Error, b: Error)
    requires i < |ops| && AllGo(ops, cache, i) && Stops(ops, cache, i, a)
    requires j < |ops| && AllGo(ops, cache, j) && Stops(ops, cache, j, b)
    ensures i == j && a == b
  {
    assert !Goes(ops, cache, i) && !Goes(ops, cache, j);
  }

  /** The first operation to stop it decides the error. */
  lemma StopsAtTheFirst(ops: seq<Op>, cache: Cache, id: string, i: nat, error: Error)
    requires i < |ops| && AllGo(ops, cache, i) && Stops(ops, cache, i, error)
    ensures UndoPlan(ops, cache, id) == Err(error)
  {
    LoopTells(ops, cache, id, |ops|);
    assert !Goes(ops, cache, i);
    var k :| 0 <= k < |ops| && AllGo(ops, cache, k) && Stops(ops, cache, k, After(ops, cache, id, |ops|).error);
    FirstStops(ops, cache, i, k, error, After(ops, cache, id, |ops|).error);
  }

  /** An operation is undone exactly if it is to be taken back. */
  lemma UndoneExactly(ops: seq<Op>, cache: Cache, id: string, i: nat)
    requires i < |ops| && AllGo(ops, cache, |ops|)
    ensures After(ops, cache, id, |ops|).Ok?
    ensures i in Restored(ops, cache, id, |ops|) <==> TakenBack(ops, cache, i)
  {
    LoopTells(ops, cache, id, |ops|);
    LoopTells(ops, cache, id, i);
    StepDecides(ops, cache, id, i);
    StepDoes(ops, cache, id, i, After(ops, cache, id, i).value);
  }

  /** `tasks` are those of the operations that moved on, each once. */
  ghost predicate ReportsExactly(ops: seq<Op>, cache: Cache, tasks: seq<string>)
  {
    && (forall t :: t in tasks <==> exists i :: 0 <= i < |ops| && ops[i].op.task == t && Refuses(ops, cache, i))
    && forall i, j :: 0 <= i < j < |tasks| ==> tasks[i] != tasks[j]
  }

  lemma RefusedAre(ops: seq<Op>, cache: Cache, id: string)
    requires AllGo(ops, cache, |ops|)
    ensures After(ops, cache, id, |ops|).Ok?
    ensures ReportsExactly(ops, cache, Once(After(ops, cache, id, |ops|).value.refused))
  {
    LoopTells(ops, cache, id, |ops|);
    forall t ensures RefusedBy(ops, cache, |ops|, t) <==>
                     exists i :: 0 <= i < |ops| && ops[i].op.task == t && Refuses(ops, cache, i) {
    }
  }

  /** `those` are the operations to be taken back, in order. */
  ghost predicate AreTakenBack(ops: seq<Op>, cache: Cache, those: seq<nat>)
  {
    && (forall k :: 0 <= k < |those| ==> those[k] < |ops| && TakenBack(ops, cache, those[k]))
    && (forall j, k :: 0 <= j < k < |those| ==> those[j] < those[k])
    && forall i :: 0 <= i < |ops| && TakenBack(ops, cache, i) ==> i in those
  }

  /** What the loop queues is the inverses of those. */
  lemma QueuesThose(ops: seq<Op>, cache: Cache, id: string) returns (those: seq<nat>)
    requires AllGo(ops, cache, |ops|)
    ensures AreTakenBack(ops, cache, those)
    ensures After(ops, cache, id, |ops|).Ok? && Matches(ops, cache, id, those, After(ops, cache, id, |ops|).value.inverse)
  {
    LoopTells(ops, cache, id, |ops|);
    RestoredMatches(ops, cache, id, |ops|);
    those := Restored(ops, cache, id, |ops|);
    forall i | 0 <= i < |ops| ensures i in those <==> TakenBack(ops, cache, i) {
      UndoneExactly(ops, cache, id, i);
    }
    forall k | 0 <= k < |those| ensures those[k] < |ops| && TakenBack(ops, cache, those[k]) {
      assert those[k] in those;
    }
  }

  /** Something is queued exactly if some operation is to be taken back. */
  lemma QueuesSome(ops: seq<Op>, cache: Cache, id: string)
    requires AllGo(ops, cache, |ops|)
    ensures After(ops, cache, id, |ops|).Ok?
    ensures After(ops, cache, id, |ops|).value.inverse != [] <==> exists i :: 0 <= i < |ops| && TakenBack(ops, cache, i)
  {
    var those := QueuesThose(ops, cache, id);
    assert those != [] ==> TakenBack(ops, cache, those[0]);
  }

  /**
   Whatever the command and whatever other devices wrote since, and with
   nothing to stop it: an undo succeeds exactly if some operation that took
   effect, made by no earlier one and part of none left alone, has everything
   it set; it reports exactly the tasks of those that don't, each once. If
   there is none to take back it queues nothing, and tells those tasks, or
   that there is nothing to undo.
   */
  lemma UndoOutcomeExactly(ops: seq<Op>, cache: Cache, id: string)
    requires AllGo(ops, cache, |ops|)
    ensures UndoPlan(ops, cache, id).Ok? <==> exists i :: 0 <= i < |ops| && TakenBack(ops, cache, i)
    ensures UndoPlan(ops, cache, id).Ok? ==> ReportsExactly(ops, cache, UndoPlan(ops, cache, id).value.refused)
    ensures UndoPlan(ops, cache, id).Err? ==>
              if exists i :: 0 <= i < |ops| && Refuses(ops, cache, i) then
                UndoPlan(ops, cache, id).error.AllChanged? && ReportsExactly(ops, cache, UndoPlan(ops, cache, id).error.tasks)
              else UndoPlan(ops, cache, id).error == NothingToUndo
  {
    QueuesSome(ops, cache, id);
    RefusedAre(ops, cache, id);
    SomeRefused(ops, cache, Once(After(ops, cache, id, |ops|).value.refused));
  }

  lemma SomeRefused(ops: seq<Op>, cache: Cache, tasks: seq<string>)
    requires ReportsExactly(ops, cache, tasks)
    ensures tasks != [] <==> exists i :: 0 <= i < |ops| && Refuses(ops, cache, i)
  {
    if tasks != [] {
      assert tasks[0] in tasks;
    }
    if i :| 0 <= i < |ops| && Refuses(ops, cache, i) {
      assert ops[i].op.task in tasks;
    }
  }

  // ----- What is sent -----

  /**
   `sent` takes `row` back: what was made is deleted, what was deleted is made,
   and a field set gets its value from before (with the reminder left out of a
   reopen's or added to a completion's). It waits for nothing, is part of
   nothing, and goes ahead whatever it finds.
   */
  ghost predicate Undoes(row: Op, sent: NewOp, id: string)
  {
    && sent.id == id && sent.task == row.op.task && sent.partOf.None? && sent.after.None? && sent.expected.None?
    && match row.op.kind
       case Create(_) => sent.kind.Delete?
       case Delete => sent.kind.Create?
       case _ => sent.kind == row.op.kind && row.rollback.Some? && PutsBack(row.op, sent.body, row.rollback.value)
  }

  ghost predicate PutsBack(op: NewOp, body: Entity, before: Entity)
  {
    && (forall f :: f in body ==> body[f] == Get(before, f))
    && (op.kind.Update? && (op.action.Complete? || op.action.Reopen?) ==>
          body.Keys - {REMINDER, REMINDER_ON} == op.body.Keys - {REMINDER, REMINDER_ON})
    && (!(op.kind.Update? && (op.action.Complete? || op.action.Reopen?)) ==> body.Keys == op.body.Keys)
  }

  lemma InversePutsBack(op: NewOp, before: Entity, now: Entity)
    ensures PutsBack(op, InverseBody(op, before, now), before)
  {
    forall f | f in InverseBody(op, before, now) ensures InverseBody(op, before, now)[f] == Get(before, f) {
      InverseValues(op, before, now, f);
    }
  }

  lemma InverseUndoes(row: Op, cache: Cache, id: string)
    requires Undoable(row, cache)
    ensures Undoes(row, InverseOf(row, cache, id), id)
  {
    if FieldOp(row.op) {
      InversePutsBack(row.op, row.rollback.value, Target(row.op, cache[row.op.task]));
    }
  }

  /** An undo sends one operation for each to be taken back, in order, and no other. */
  lemma UndoSendsExactly(ops: seq<Op>, cache: Cache, id: string) returns (those: seq<nat>)
    requires UndoPlan(ops, cache, id).Ok?
    ensures AreTakenBack(ops, cache, those)
    ensures var sent := UndoPlan(ops, cache, id).value.inverse;
            && |sent| == |those|
            && forall k :: 0 <= k < |sent| ==> those[k] < |ops| && Undoes(ops[those[k]], sent[k], OpIdFor(id, k))
  {
    LoopTells(ops, cache, id, |ops|);
    those := QueuesThose(ops, cache, id);
    forall k | 0 <= k < |those| ensures Undoes(ops[those[k]], UndoPlan(ops, cache, id).value.inverse[k], OpIdFor(id, k)) {
      InverseUndoes(ops[those[k]], cache, OpIdFor(id, k));
    }
  }

  // ----- What the undo is called -----

  /** Taking a task's completion back reopens it, and so on; only a rollover's undo isn't undone as it was. */
  lemma ActionsPair(op: NewOp)
    requires FieldOp(op)
    ensures InverseAction(op).Reopen? <==> op.kind.Update? && op.action.Complete?
    ensures InverseAction(op).Complete? <==> op.kind.Update? && op.action.Reopen?
    ensures InverseAction(op).MyDayRemove? <==> op.kind.Extension? && op.action.MyDayAdd?
    ensures InverseAction(op).MyDayAdd? <==> op.kind.Extension? && (op.action.MyDayRemove? || op.action.MyDayRollover?)
    ensures !InverseAction(op).Add? && !InverseAction(op).Remove? && !InverseAction(op).MyDayRollover?
  {
  }
}
