/**
 What becomes of a planned change. It is planned from the tasks as they were
 read, queued on the tasks as they are by then, and undone later still; a sync
 may come in between each time.
 */
module PlannedChanges {
  import opened Entities
  import opened Sequences
  import opened OpIds
  import opened Outbox
  import opened Undo
  import opened Planner
  import UndoSafety
  import UndoRuns
  import TaskDates
  import Assignment

  // ----- What a planned change writes -----

  /**
   A field operation that writes a reminder's time only with its flag: a
   completion never, a reopen the one it read. A completion of a task that
   doesn't repeat writes the flag exactly if it read the reminder on.
   */
  ghost predicate FieldChange(op: NewOp, from: Cache)
  {
    && FieldOp(op) && op.task in from
    && (op.kind.Update? && op.action.Complete? && Get(from[op.task].raw, RECURRENCE) == Null ==>
          (REMINDER_ON in op.body <==> ReminderOn(from[op.task].raw)))
    && (op.kind.Update? && REMINDER in op.body ==>
          && REMINDER_ON in op.body && !op.action.Complete?
          && (op.action.Reopen? ==> op.body[REMINDER] == Get(from[op.task].raw, REMINDER))
          && (UndoSafety.Timed(from[op.task].raw) ==> op.body[REMINDER].Minute? || op.body[REMINDER] == Null))
  }

  ghost predicate FieldChanges(ops: seq<NewOp>, from: Cache)
  {
    forall k :: 0 <= k < |ops| ==> FieldChange(ops[k], from)
  }

  /** An edit writes a reminder's time only together with its flag. */
  lemma EditPairsReminder(edit: TaskDates.Edit, changes: Entity, raw: Entity, body: Entity)
    requires TaskDates.EditBody(edit) == Ok(changes) && TaskDates.TaskBody(changes, raw) == Ok(body)
    ensures REMINDER in body ==> REMINDER_ON in body && (body[REMINDER].Minute? || body[REMINDER] == Null)
  {
  }

  lemma MainIsFieldChange(
    id: string, op: NewOp, change: Change, changes: Entity, now: int, from: Cache)
    requires id in from && !change.Delete? && Changes(change) == Ok(changes)
    requires BodyFor(change, changes, from[id], now) == Ok(op.body)
    requires op.task == id && op.kind.Update? && op.action == ActionOf(change)
    ensures FieldChange(op, from)
  {
    match change {
      case Edit(edit, _, _, _, _) => EditPairsReminder(edit, changes, from[id].raw, op.body);
      case Complete => CompletionSays(changes, from[id], now, op.body);
      case Reopen => ReopenSays(changes, from[id], now, op.body);
    }
  }

  lemma CompletionSays(changes: Entity, task: Task, now: int, body: Entity)
    requires Changes(Change.Complete) == Ok(changes) && BodyFor(Change.Complete, changes, task, now) == Ok(body)
    ensures REMINDER !in body
    ensures Get(task.raw, RECURRENCE) == Null ==> (REMINDER_ON in body <==> ReminderOn(task.raw))
  {
  }

  lemma ReopenSays(changes: Entity, task: Task, now: int, body: Entity)
    requires Changes(Change.Reopen) == Ok(changes) && BodyFor(Change.Reopen, changes, task, now) == Ok(body)
    ensures REMINDER in body ==> REMINDER_ON in body && REMINDER in task.raw && body[REMINDER] == task.raw[REMINDER]
  {
  }

  lemma AssignmentIsFieldChanges(
    ops: seq<NewOp>, command: string, id: string, change: Change, from: Cache)
    requires id in from && FieldChanges(ops, from)
    ensures FieldChanges(PushAssignment(ops, command, id, from[id], change), from)
  {
  }

  lemma FieldsAreFieldChanges(ops: seq<NewOp>, command: string, id: string, fields: Entity, from: Cache)
    requires id in from && FieldChanges(ops, from)
    ensures FieldChanges(PushFields(ops, command, id, fields), from)
  {
  }

  lemma MainIsFieldChanges(
    ops: seq<NewOp>, command: string, id: string, change: Change, changes: Entity, now: int, body: Entity,
    from: Cache)
    requires id in from && !change.Delete? && FieldChanges(ops, from) && Changes(change) == Ok(changes)
    requires BodyFor(change, changes, from[id], now) == Ok(body)
    ensures FieldChanges(PushMain(ops, command, id, change, changes, body), from)
  {
    var main := PushMain(ops, command, id, change, changes, body);
    if |main| > |ops| {
      MainIsFieldChange(id, main[|ops|], change, changes, now, from);
    }
  }

  lemma TaskAddsFieldChanges(
    ops: seq<NewOp>, command: string, id: string, change: Change, changes: Entity, now: int, body: Entity,
    from: Cache)
    requires id in from && !change.Delete? && FieldChanges(ops, from) && Changes(change) == Ok(changes)
    requires BodyFor(change, changes, from[id], now) == Ok(body)
    ensures FieldChanges(PushTask(ops, command, id, from[id], change, changes, body), from)
  {
    MainIsFieldChanges(ops, command, id, change, changes, now, body, from);
    var main := PushMain(ops, command, id, change, changes, body);
    AssignmentIsFieldChanges(main, command, id, change, from);
    var assignment := PushAssignment(main, command, id, from[id], change);
    FieldsAreFieldChanges(assignment, command, id, DeferFields(change, from[id]), from);
    FieldsAreFieldChanges(PushFields(assignment, command, id, DeferFields(change, from[id])), command, id,
                          NagFields(change, from[id]), from);
  }

  lemma OpsAreFieldChanges(
    command: string, from: Cache, targets: seq<string>, change: Change, bulk: bool, now: int, ops: seq<NewOp>)
    requires (forall t :: t in targets ==> t in from) && !change.Delete?
    requires ChangePlan(command, from, targets, change, bulk, now) == Ok(ops)
    ensures FieldChanges(ops, from)
  {
    var inv := (k: nat, some: seq<NewOp>) => FieldChanges(some, from);
    var changes := Changes(change).value;
    forall k, some | 0 <= k < |targets| ensures Carries(inv, command, from, targets, change, changes, now, k, some) {
      var body := BodyFor(change, changes, from[targets[k]], now);
      if inv(k, some) && body.Ok? {
        TaskAddsFieldChanges(some, command, targets[k], change, changes, now, body.value, from);
      }
    }
    assert FieldChanges([], from);
    assert inv(0, []);
    OpsInduction(inv, command, from, targets, change, bulk, now, ops);
  }

  /** Every operation of a change is of its own kind. */
  lemma ActionsAre(
    command: string, from: Cache, targets: seq<string>, change: Change, bulk: bool, now: int, ops: seq<NewOp>)
    requires (forall t :: t in targets ==> t in from)
    requires ChangePlan(command, from, targets, change, bulk, now) == Ok(ops)
    ensures AllOf(ops, ActionOf(change))
  {
    var inv := (k: nat, some: seq<NewOp>) => AllOf(some, ActionOf(change));
    var changes := Changes(change).value;
    forall k, some | 0 <= k < |targets| ensures Carries(inv, command, from, targets, change, changes, now, k, some) {
      var body := BodyFor(change, changes, from[targets[k]], now);
      if inv(k, some) && body.Ok? {
        TaskActs(some, command, targets[k], from[targets[k]], change, changes, body.value);
      }
    }
    assert AllOf([], ActionOf(change));
    assert inv(0, []);
    OpsInduction(inv, command, from, targets, change, bulk, now, ops);
  }

  ghost predicate AllOf(ops: seq<NewOp>, action: Outbox.Action)
  {
    forall k :: 0 <= k < |ops| ==> ops[k].action == action
  }

  lemma TaskActs(
    ops: seq<NewOp>, command: string, id: string, task: Task, change: Change, changes: Entity, body: Entity)
    requires AllOf(ops, ActionOf(change))
    ensures AllOf(PushTask(ops, command, id, task, change, changes, body), ActionOf(change))
  {
    var main := PushMain(ops, command, id, change, changes, body);
    assert AllOf(main, ActionOf(change));
    var assignment := PushAssignment(main, command, id, task, change);
    assert AllOf(assignment, ActionOf(change));
    assert AllOf(PushFields(assignment, command, id, DeferFields(change, task)), ActionOf(change));
  }

  /** Completing a repeating task rolls it on in Graph, which undo treats apart. */
  ghost predicate RollsOn(change: Change, task: Task)
  {
    change.Complete? && Get(task.raw, RECURRENCE) != Null
  }

  /** `ops` is what `change` plans for the tasks as read in `from`; anything but a delete. */
  ghost predicate PlannedFrom(
    command: string, from: Cache, targets: seq<string>, change: Change, bulk: bool, now: int, ops: seq<NewOp>)
  {
    && (forall t :: t in targets ==> t in from && !RollsOn(change, from[t])) && Distinct(targets) && !change.Delete?
    && ChangePlan(command, from, targets, change, bulk, now) == Ok(ops)
  }

  /** Whatever the tasks are by then: field operations with no field in common, to the targets only. */
  lemma PlansFieldChanges(
    command: string, from: Cache, targets: seq<string>, change: Change, bulk: bool, now: int, ops: seq<NewOp>)
    requires PlannedFrom(command, from, targets, change, bulk, now, ops)
    ensures FieldChanges(ops, from) && AllFieldOps(ops) && DisjointClaims(ops) && RefsInOrder(ops)
    ensures forall i :: 0 <= i < |ops| ==>
              ops[i].task in targets && (ops[i].action.Complete? ==> Get(from[ops[i].task].raw, RECURRENCE) == Null)
  {
    ActionsAre(command, from, targets, change, bulk, now, ops);
    ReferenceIntegrity(command, from, targets, change, bulk, now, ops);
    OpsAreFieldChanges(command, from, targets, change, bulk, now, ops);
  }

  // ----- Queued, and undone straight after -----

  /**
   Every command but a delete, queued on the tasks as they are by then, is one
   `UndoRuns` takes back, unless a reopen brings back another reminder time
   than its task has by then.
   */
  lemma ChangesArePlanned(
    command: string, from: Cache, cache: Cache, targets: seq<string>, change: Change, bulk: bool, now: int,
    ops: seq<NewOp>)
    requires PlannedFrom(command, from, targets, change, bulk, now, ops)
    requires CleanCache(cache) && forall t :: t in targets ==> t in cache && !cache[t].deleted
    ensures UndoRuns.Queueable(cache, ops)
    ensures UndoRuns.Planned(cache, ops) <==>
            forall i :: 0 <= i < |ops| ==> !UndoRuns.LosesTime(ops[i], cache[ops[i].task].raw)
  {
    PlansFieldChanges(command, from, targets, change, bulk, now, ops);
    assert forall i :: 0 <= i < |ops| ==> FieldChange(ops[i], from);
  }

  /** A reopen loses no time while the reminder of its task is as it was read. */
  lemma AsRead(ops: seq<NewOp>, from: Cache, cache: Cache, i: nat)
    requires FieldChanges(ops, from) && i < |ops| && ops[i].task in cache
    requires Get(cache[ops[i].task].raw, REMINDER) == Get(from[ops[i].task].raw, REMINDER)
    ensures !UndoRuns.LosesTime(ops[i], cache[ops[i].task].raw)
  {
    assert FieldChange(ops[i], from);
  }

  /**
   A change to any tasks, queued on them as they are by then, and an undo
   straight after: every task is exactly as it was if and only if they were
   all live and no reopen brought back another time than its task had.
   */
  lemma ChangeThenUndo(
    command: string, from: Cache, cache: Cache, targets: seq<string>, change: Change, bulk: bool, now: int,
    ops: seq<NewOp>, undo: string)
    requires PlannedFrom(command, from, targets, change, bulk, now, ops) && ops != []
    requires CleanCache(cache) && forall t :: t in targets ==> t in cache
    ensures Cached(cache, ops)
    ensures UndoRuns.TakenBack(cache, ops, undo) <==> forall i :: 0 <= i < |ops| ==> UndoRuns.Restorable(ops[i], cache)
  {
    PlansFieldChanges(command, from, targets, change, bulk, now, ops);
    UndoRuns.TakenBackExactly(cache, ops, undo);
  }

  // ----- An assignment is taken back whole or not at all -----

  /** Of an edit's operations, those that go with an assignee: its status edit and its flag. */
  predicate GoesWithAssignee(op: NewOp)
  {
    || (op.kind.Update? && STATUS in op.body)
    || (op.kind.Extension? && STATUS_SET in op.body && op.partOf.Some?)
  }

  /** `i` is the assignee's write that `j` is part of. */
  ghost predicate PartOfAssignee(ops: seq<NewOp>, i: nat, j: nat)
  {
    && i < j < |ops| && ops[j].partOf == Some(ops[i].id) && ops[i].partOf.None?
    && ops[i].task == ops[j].task && ops[i].kind.Extension?
    && (ASSIGNEE in ops[i].body || STATUS_SET in ops[i].body)
  }

  ghost predicate Paired(ops: seq<NewOp>)
  {
    forall j :: 0 <= j < |ops| && GoesWithAssignee(ops[j]) ==> exists i :: PartOfAssignee(ops, i, j)
  }

  lemma PairedPush(ops: seq<NewOp>, op: NewOp)
    requires Paired(ops)
    requires GoesWithAssignee(op) ==> exists i :: PartOfAssignee(ops + [op], i, |ops|)
    ensures Paired(ops + [op])
  {
    var more := ops + [op];
    forall j | 0 <= j < |ops| && GoesWithAssignee(more[j]) ensures exists i :: PartOfAssignee(more, i, j) {
      assert GoesWithAssignee(ops[j]);
      var i :| PartOfAssignee(ops, i, j);
      assert PartOfAssignee(more, i, j);
    }
  }

  lemma PairedAssignment(ops: seq<NewOp>, command: string, id: string, plan: Assignment.TaskPlan)
    requires Paired(ops) && Assignment.Sound(plan) && plan.fields != map[]
    ensures Paired(ops + Assignment.PlanOps(command, |ops|, id, plan, Outbox.Edit))
  {
    var parts := Assignment.PlanOps(command, |ops|, id, plan, Outbox.Edit);
    var one := ops + [parts[0]];
    PairedPush(ops, parts[0]);
    var some :| some in plan.fields;
    assert ASSIGNEE in plan.fields || STATUS_SET in plan.fields;
    if |parts| == 1 {
      assert ops + parts == one;
    } else {
      var two := one + [parts[1]];
      assert PartOfAssignee(two, |ops|, |ops| + 1);
      PairedPush(one, parts[1]);
      if |parts| == 2 {
        assert ops + parts == two;
      } else {
        assert PartOfAssignee(two + [parts[2]], |ops|, |ops| + 2);
        PairedPush(two, parts[2]);
        assert ops + parts == two + [parts[2]];
      }
    }
  }

  lemma TaskPairs(
    ops: seq<NewOp>, command: string, id: string, task: Task, change: Change, changes: Entity, body: Entity)
    requires Paired(ops) && change.Edit? && STATUS !in body
    ensures Paired(PushTask(ops, command, id, task, change, changes, body))
  {
    var main := PushMain(ops, command, id, change, changes, body);
    if |main| > |ops| {
      PairedPush(ops, main[|ops|]);
    }
    var assignment := PushAssignment(main, command, id, task, change);
    if |assignment| > |main| {
      Assignment.PlansAreSound(task, change.assign.value);
      PairedAssignment(main, command, id, Assignment.PlanFor(task, change.assign.value).value);
    }
    var deferral, nag := DeferFields(change, task), NagFields(change, task);
    PairedPush(assignment, Write(OpIdFor(command, |assignment|), id, Extension, Outbox.Edit, deferral));
    var deferred := PushFields(assignment, command, id, deferral);
    PairedPush(deferred, Write(OpIdFor(command, |deferred|), id, Extension, Outbox.Edit, nag));
  }

  lemma OpsPair(
    command: string, from: Cache, targets: seq<string>, change: Change, bulk: bool, now: int, ops: seq<NewOp>)
    requires (forall t :: t in targets ==> t in from) && change.Edit?
    requires ChangePlan(command, from, targets, change, bulk, now) == Ok(ops)
    ensures Paired(ops)
  {
    var inv := (k: nat, some: seq<NewOp>) => Paired(some);
    var changes := Changes(change).value;
    forall k, some | 0 <= k < |targets| ensures Carries(inv, command, from, targets, change, changes, now, k, some) {
      var task := from[targets[k]];
      var body := BodyFor(change, changes, task, now);
      if inv(k, some) && body.Ok? {
        BodyClaims(change, changes, task, now, body.value);
        TaskPairs(some, command, targets[k], task, change, changes, body.value);
      }
    }
    assert Paired([]);
    assert inv(0, []);
    OpsInduction(inv, command, from, targets, change, bulk, now, ops);
  }

  /** If the whole moved on, whatever else is cached, an undo leaves the part's fields as they are now. */
  lemma WholeMovedOn(rows: seq<Op>, cache: Cache, id: string, i: nat, j: nat, f: Key)
    requires RefsInOrder(Sent(rows)) && DisjointClaims(Sent(rows)) && UndoSafety.FieldCommand(rows)
    requires UndoPlan(rows, cache, id).Ok?
    requires i < j < |rows| && rows[j].op.partOf == Some(rows[i].op.id) && f in rows[j].op.body
    requires UndoSafety.TookEffect(rows[i]) && rows[i].op.partOf.None? && rows[i].op.task in cache
    requires !Holds(rows[i].op.body, Target(rows[i].op, cache[rows[i].op.task]))
    ensures var s := UndoSafety.SlotOf(rows[j].op, f);
            At(UndoSafety.Undone(rows, cache, id), s) == At(cache, s)
  {
    UndoSafety.StepDecides(rows, cache, id, i);
    UndoSafety.CreatesNothing(rows, cache, id, i);
    UndoSafety.PartSkipped(rows, cache, id, i, j);
    UndoSafety.LeftAloneWhole(rows, cache, id, j, f);
  }

  /**
   An edit's status change or flag `rows[j]` goes with an assignee write
   `rows[i]` of the same task. Whatever was written since, if that assignee
   isn't what the edit made it, an undo leaves the status and the flag alone.
   */
  lemma AssigneeMovedOn(
    command: string, from: Cache, targets: seq<string>, change: Change, bulk: bool, now: int, rows: seq<Op>,
    later: Cache, undo: string, j: nat) returns (i: nat)
    requires (forall t :: t in targets ==> t in from) && Distinct(targets) && change.Edit?
    requires ChangePlan(command, from, targets, change, bulk, now) == Ok(Sent(rows))
    requires j < |rows| && GoesWithAssignee(rows[j].op)
    ensures PartOfAssignee(Sent(rows), i, j) && UndoSafety.FieldCommand(rows)
    ensures UndoSafety.TookEffect(rows[i]) && rows[i].op.task in later
            && !Holds(rows[i].op.body, later[rows[i].op.task].extension)
            && UndoPlan(rows, later, undo).Ok? ==>
              forall f :: f in rows[j].op.body ==>
                var s := UndoSafety.SlotOf(rows[j].op, f);
                At(UndoSafety.Undone(rows, later, undo), s) == At(later, s)
  {
    var ops := Sent(rows);
    ReferenceIntegrity(command, from, targets, change, bulk, now, ops);
    OpsAreFieldChanges(command, from, targets, change, bulk, now, ops);
    OpsPair(command, from, targets, change, bulk, now, ops);
    assert UndoSafety.FieldCommand(rows) by {
      forall k | 0 <= k < |rows| ensures FieldOp(rows[k].op) {
        assert FieldChange(ops[k], from);
      }
    }
    assert GoesWithAssignee(ops[j]);
    i :| PartOfAssignee(ops, i, j);
    if UndoSafety.TookEffect(rows[i]) && rows[i].op.task in later
       && !Holds(rows[i].op.body, later[rows[i].op.task].extension) && UndoPlan(rows, later, undo).Ok?
    {
      forall f | f in rows[j].op.body
        ensures var s := UndoSafety.SlotOf(rows[j].op, f);
                At(UndoSafety.Undone(rows, later, undo), s) == At(later, s)
      {
        WholeMovedOn(rows, later, undo, i, j, f);
      }
    }
  }

}
