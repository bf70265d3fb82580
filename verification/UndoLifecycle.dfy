/**
 Undoing deletes and creates: a deleted task comes back with all it had, and
 a created one goes, with everything else its command did to it.
 */
module UndoLifecycle {
  import opened Entities
  import opened Sequences
  import opened OpIds
  import opened Outbox
  import opened Undo
  import Planner

  // ----- Deletes -----

  /** `rows` deleted each of `tasks` and recorded what `cache` held of it. */
  ghost predicate Deletes(rows: seq<Op>, tasks: seq<string>, cache: Cache)
  {
    && |rows| == |tasks| && Distinct(tasks)
    && forall i :: 0 <= i < |rows| ==>
         && tasks[i] in cache && rows[i].op.task == tasks[i] && rows[i].op.kind.Delete? && rows[i].op.partOf.None?
         && rows[i].rollback == Some(cache[tasks[i]].raw)
         && (rows[i].state.Pending? || rows[i].state.Inflight? || rows[i].state.Done?)
  }

  /** The tasks of `cache`, those of the first `n` of `tasks` deleted. */
  ghost function Deleted(cache: Cache, tasks: seq<string>, n: nat): (r: Cache)
    requires n <= |tasks|
    ensures r.Keys == cache.Keys
  {
    map t | t in cache :: if t in tasks[..n] then cache[t].(deleted := true) else cache[t]
  }

  /** A task deleted and made again: what it had, over Graph's defaults. */
  ghost function Recreated(task: Task): Task
  {
    Task(NEW_TASK + task.raw, task.extension, false)
  }

  ghost function Restored(cache: Cache, tasks: seq<string>, n: nat): (r: Cache)
    requires n <= |tasks|
    ensures r.Keys == cache.Keys
  {
    map t | t in cache ::
      if t in tasks[..n] then Recreated(cache[t]) else if t in tasks then cache[t].(deleted := true) else cache[t]
  }

  ghost function Recreates(rows: seq<Op>, cache: Cache, id: string, n: nat): (r: seq<NewOp>)
    requires n <= |rows| && forall i :: 0 <= i < |rows| ==> rows[i].op.task in cache
    ensures |r| == n
  {
    seq(n, i requires 0 <= i < n =>
      Write(OpIdFor(id, i), rows[i].op.task, Create(NEW_TASK + cache[rows[i].op.task].raw), Add,
            CreatableFields(cache[rows[i].op.task].raw)))
  }

  lemma StepRecreates(row: Op, inverse: seq<NewOp>, now: Cache, id: string)
    requires row.op.kind.Delete? && row.op.partOf.None? && row.rollback.Some?
    requires row.state.Pending? || row.state.Inflight? || row.state.Done?
    requires row.op.task in now && now[row.op.task].deleted
    ensures Step(Progress(inverse, [], {}, {}), row, now, id)
            == Ok(Progress(inverse + [Write(OpIdFor(id, |inverse|), row.op.task, Create(NEW_TASK + row.rollback.value), Add,
                                            CreatableFields(row.rollback.value))], [], {}, {}))
  {
  }

  lemma {:induction false} AllRecreated(
    rows: seq<Op>, tasks: seq<string>, cache: Cache, now: Cache, id: string, n: nat)
    requires Deletes(rows, tasks, cache) && n <= |rows|
    requires forall i :: 0 <= i < n ==> tasks[i] in now && now[tasks[i]].deleted
    ensures After(rows, now, id, n) == Ok(Progress(Recreates(rows, cache, id, n), [], {}, {}))
  {
    if n > 0 {
      AllRecreated(rows, tasks, cache, now, id, n - 1);
      StepRecreates(rows[n - 1], Recreates(rows, cache, id, n - 1), now, id);
      RecreatesOneMore(rows, cache, id, n);
    }
  }

  lemma RecreatesOneMore(rows: seq<Op>, cache: Cache, id: string, n: nat)
    requires 0 < n <= |rows| && forall i :: 0 <= i < |rows| ==> rows[i].op.task in cache
    ensures Recreates(rows, cache, id, n)
            == Recreates(rows, cache, id, n - 1) + [Recreates(rows, cache, id, n)[n - 1]]
  {
  }

  lemma {:induction false} RecreatesApplied(rows: seq<Op>, tasks: seq<string>, cache: Cache, now: Cache, id: string, n: nat)
    requires Deletes(rows, tasks, cache) && n <= |rows| && now == Deleted(cache, tasks, |tasks|)
    ensures Cached(now, Recreates(rows, cache, id, |rows|))
    ensures ApplyFirst(now, Recreates(rows, cache, id, |rows|), n) == Restored(cache, tasks, n)
  {
    if n == 0 {
      NoneRestored(cache, tasks);
    } else {
      RecreatesApplied(rows, tasks, cache, now, id, n - 1);
      NotYet(tasks, n);
      OneRecreated(cache, tasks, n, Recreates(rows, cache, id, |rows|)[n - 1]);
    }
  }

  lemma NoneRestored(cache: Cache, tasks: seq<string>)
    ensures Deleted(cache, tasks, |tasks|) == Restored(cache, tasks, 0)
  {
    assert tasks[..|tasks|] == tasks;
  }

  lemma NotYet(tasks: seq<string>, n: nat)
    requires 0 < n <= |tasks| && Distinct(tasks)
    ensures tasks[..n] == tasks[..n - 1] + [tasks[n - 1]] && tasks[n - 1] !in tasks[..n - 1]
  {
  }

  lemma OneRecreated(cache: Cache, tasks: seq<string>, n: nat, op: NewOp)
    requires 0 < n <= |tasks| && tasks[..n] == tasks[..n - 1] + [tasks[n - 1]] && tasks[n - 1] !in tasks[..n - 1]
    requires tasks[n - 1] in cache && op.task == tasks[n - 1] && op.kind == Create(NEW_TASK + cache[op.task].raw)
    ensures ApplyOp(Restored(cache, tasks, n - 1), op) == Restored(cache, tasks, n)
  {
  }

  /** Deletes, undone while the tasks are still deleted. */
  lemma DeletesUndone(rows: seq<Op>, tasks: seq<string>, cache: Cache, id: string)
    requires Deletes(rows, tasks, cache) && rows != []
    ensures var now := Deleted(cache, tasks, |tasks|);
            && UndoPlan(rows, now, id).Ok?
            && var plan := UndoPlan(rows, now, id).value;
               && plan.refused == [] && |plan.inverse| == |rows| && Cached(now, plan.inverse)
               && ApplyAll(now, plan.inverse) == Restored(cache, tasks, |tasks|)
               && forall i :: 0 <= i < |rows| ==> plan.inverse[i].body == CreatableFields(cache[tasks[i]].raw)
  {
    var now := Deleted(cache, tasks, |tasks|);
    assert tasks[..|tasks|] == tasks;
    AllRecreated(rows, tasks, cache, now, id, |rows|);
    RecreatesApplied(rows, tasks, cache, now, id, |rows|);
    assert UndoPlan(rows, now, id) == Ok(Plan(Recreates(rows, cache, id, |rows|), []));
  }

  ghost function DeleteOps(command: string, targets: seq<string>, n: nat): (r: seq<NewOp>)
    requires n <= |targets|
    ensures |r| == n
  {
    seq(n, i requires 0 <= i < n => Write(OpIdFor(command, i), targets[i], Delete, Remove, map[]))
  }

  lemma DeletePlanIs(command: string, cache: Cache, targets: seq<string>, bulk: bool, clock: int, ops: seq<NewOp>)
    requires forall t :: t in targets ==> t in cache
    requires Planner.ChangePlan(command, cache, targets, Planner.Delete, bulk, clock) == Ok(ops)
    ensures ops == DeleteOps(command, targets, |targets|)
  {
    var inv := (k: nat, some: seq<NewOp>) => k <= |targets| && some == DeleteOps(command, targets, k);
    forall k, some | 0 <= k < |targets|
      ensures Planner.Carries(inv, command, cache, targets, Planner.Delete, map[], clock, k, some)
    {
      OneDelete(command, targets, k + 1, cache[targets[k]], clock);
    }
    Planner.OpsInduction(inv, command, cache, targets, Planner.Delete, bulk, clock, ops);
  }

  lemma OneDelete(command: string, targets: seq<string>, n: nat, task: Task, clock: int)
    requires 0 < n <= |targets|
    ensures Planner.BodyFor(Planner.Delete, map[], task, clock) == Ok(map[])
    ensures Planner.PushTask(DeleteOps(command, targets, n - 1), command, targets[n - 1], task, Planner.Delete, map[], map[])
            == DeleteOps(command, targets, n)
  {
    var ops := DeleteOps(command, targets, n - 1);
    assert Planner.PushMain(ops, command, targets[n - 1], Planner.Delete, map[], map[])
        == ops + [Write(OpIdFor(command, n - 1), targets[n - 1], Delete, Remove, map[])];
  }

  lemma {:induction false} DeletesApplied(command: string, cache: Cache, targets: seq<string>, n: nat)
    requires n <= |targets| && forall i :: 0 <= i < |targets| ==> targets[i] in cache
    ensures Cached(cache, DeleteOps(command, targets, |targets|))
    ensures ApplyFirst(cache, DeleteOps(command, targets, |targets|), n) == Deleted(cache, targets, n)
  {
    if n > 0 {
      DeletesApplied(command, cache, targets, n - 1);
      OneMoreDeleted(cache, targets, n, DeleteOps(command, targets, |targets|)[n - 1]);
    }
  }

  lemma OneMoreDeleted(cache: Cache, targets: seq<string>, n: nat, op: NewOp)
    requires 0 < n <= |targets| && targets[n - 1] in cache && op.task == targets[n - 1] && op.kind.Delete?
    ensures ApplyOp(Deleted(cache, targets, n - 1), op) == Deleted(cache, targets, n)
  {
    assert targets[..n] == targets[..n - 1] + [targets[n - 1]];
  }

  lemma QueueDeletes(command: string, cache: Cache, targets: seq<string>)
    requires Distinct(targets) && forall i :: 0 <= i < |targets| ==> targets[i] in cache
    ensures Cached(cache, DeleteOps(command, targets, |targets|))
    ensures Deletes(Queue(cache, DeleteOps(command, targets, |targets|)), targets, cache)
  {
    DeletesApplied(command, cache, targets, 0);
    var ops := DeleteOps(command, targets, |targets|);
    var rows := Queue(cache, ops);
    forall i | 0 <= i < |rows| ensures rows[i].rollback == Some(cache[targets[i]].raw) && rows[i].op == ops[i] {
      DeletesApplied(command, cache, targets, i);
    }
  }

  /**
   Deleting any tasks, as planned and queued, and undoing that: nothing is
   refused, each create sends every creatable field its task had, and every
   task is live again with its extension and its own fields, and a default
   only where it had none.
   */
  lemma DeleteThenUndo(
    command: string, cache: Cache, targets: seq<string>, bulk: bool, clock: int, ops: seq<NewOp>, id: string)
    requires Distinct(targets) && targets != [] && forall t :: t in targets ==> t in cache
    requires Planner.ChangePlan(command, cache, targets, Planner.Delete, bulk, clock) == Ok(ops)
    ensures Cached(cache, ops) && ApplyAll(cache, ops) == Deleted(cache, targets, |targets|)
    ensures var now := ApplyAll(cache, ops);
            && UndoPlan(Queue(cache, ops), now, id).Ok?
            && var plan := UndoPlan(Queue(cache, ops), now, id).value;
               && plan.refused == [] && |plan.inverse| == |targets| && Cached(now, plan.inverse)
               && ApplyAll(now, plan.inverse) == Restored(cache, targets, |targets|)
               && forall i :: 0 <= i < |targets| ==> plan.inverse[i].body == CreatableFields(cache[targets[i]].raw)
  {
    DeletePlanIs(command, cache, targets, bulk, clock, ops);
    QueuedDeletesUndone(command, cache, targets, id);
  }

  lemma QueuedDeletesUndone(command: string, cache: Cache, targets: seq<string>, id: string)
    requires Distinct(targets) && targets != [] && forall i :: 0 <= i < |targets| ==> targets[i] in cache
    ensures var ops := DeleteOps(command, targets, |targets|);
            && Cached(cache, ops) && ApplyAll(cache, ops) == Deleted(cache, targets, |targets|)
            && var now := ApplyAll(cache, ops);
               && UndoPlan(Queue(cache, ops), now, id).Ok?
               && var plan := UndoPlan(Queue(cache, ops), now, id).value;
                  && plan.refused == [] && |plan.inverse| == |targets| && Cached(now, plan.inverse)
                  && ApplyAll(now, plan.inverse) == Restored(cache, targets, |targets|)
                  && forall i :: 0 <= i < |targets| ==> plan.inverse[i].body == CreatableFields(cache[targets[i]].raw)
  {
    DeletesApplied(command, cache, targets, |targets|);
    QueueDeletes(command, cache, targets);
    DeletesUndone(Queue(cache, DeleteOps(command, targets, |targets|)), targets, cache, id);
  }

  /** Field by field: as before the delete, but for a default Graph gives a field the task didn't have. */
  lemma RecreatedFields(task: Task, f: Key)
    ensures Get(Recreated(task).raw, f)
            == if f in task.raw then task.raw[f] else if f in NEW_TASK then NEW_TASK[f] else Null
    ensures Recreated(task).extension == task.extension && !Recreated(task).deleted
    ensures f in CREATABLE ==> Get(CreatableFields(task.raw), f) == Get(task.raw, f)
  {
  }

  /** It is exactly the task there was when that had every field a new task gets. */
  lemma RecreatedExactly(task: Task)
    requires !task.deleted
    ensures Recreated(task) == task <==> NEW_TASK.Keys <= task.raw.Keys
  {
    if NEW_TASK.Keys <= task.raw.Keys {
      assert NEW_TASK + task.raw == task.raw;
    } else {
      var f :| f in NEW_TASK && f !in task.raw;
      assert f in (NEW_TASK + task.raw);
    }
  }

  /** A task deleted and live again since refuses the whole undo. */
  lemma LiveAgainRefused(rows: seq<Op>, tasks: seq<string>, cache: Cache, now: Cache, id: string, i: nat)
    requires Deletes(rows, tasks, cache) && i < |rows|
    requires forall k :: 0 <= k < |tasks| ==> tasks[k] in now
    requires !now[tasks[i]].deleted && forall k :: 0 <= k < i ==> now[tasks[k]].deleted
    ensures UndoPlan(rows, now, id) == Err(ChangedSince(rows[i].op.id))
  {
    AllRecreated(rows, tasks, cache, now, id, i);
    StepRefuses(After(rows, now, id, i).value, rows[i], now, id);
    Stops(rows, now, id, i, ChangedSince(rows[i].op.id));
  }

  lemma Stops(rows: seq<Op>, now: Cache, id: string, i: nat, error: Error)
    requires i < |rows| && After(rows, now, id, i).Ok?
    requires Step(After(rows, now, id, i).value, rows[i], now, id) == Err(error)
    ensures UndoPlan(rows, now, id) == Err(error)
  {
    ErrorStops(rows, now, id, i + 1, |rows|);
  }

  lemma StepRefuses(p: Progress, row: Op, now: Cache, id: string)
    requires row.op.kind.Delete? && row.op.partOf.None? && p.created == {}
    requires row.state.Pending? || row.state.Inflight? || row.state.Done?
    requires row.op.task in now && !now[row.op.task].deleted
    ensures Step(p, row, now, id) == Err(ChangedSince(row.op.id))
  {
  }

  // ----- Creates -----

  lemma {:induction false} RestIsSkipped(rows: seq<Op>, cache: Cache, id: string, n: nat)
    requires 0 < n <= |rows| && After(rows, cache, id, 1).Ok?
    requires forall i :: 0 <= i < |rows| ==> rows[i].op.task in After(rows, cache, id, 1).value.created
    ensures After(rows, cache, id, n) == After(rows, cache, id, 1)
  {
    if n > 1 {
      RestIsSkipped(rows, cache, id, n - 1);
    }
  }

  /**
   A command that made a task and then did more to it is undone by deleting
   the task, whatever became of the rest.
   */
  lemma CreateUndone(rows: seq<Op>, cache: Cache, id: string)
    requires rows != [] && rows[0].op.kind.Create? && rows[0].op.partOf.None?
    requires rows[0].state.Pending? || rows[0].state.Inflight? || rows[0].state.Done?
    requires forall i :: 0 <= i < |rows| ==> rows[i].op.task == rows[0].op.task
    requires rows[0].op.task in cache && !cache[rows[0].op.task].deleted
    ensures UndoPlan(rows, cache, id) == Ok(Plan([Write(id, rows[0].op.task, Delete, Remove, map[])], []))
  {
    assert After(rows, cache, id, 0) == Ok(BEGIN);
    assert After(rows, cache, id, 1) == Step(BEGIN, rows[0], cache, id);
    RestIsSkipped(rows, cache, id, |rows|);
    var p := After(rows, cache, id, |rows|).value;
    assert p.inverse == [Write(id, rows[0].op.task, Delete, Remove, map[])] && p.refused == [];
  }
}
