/**
 Planning a change to tasks: one command, whose operations are numbered as
 they are pushed. Whatever the change and the tasks, the references line up
 and no two operations have a field in common, so an undo can take the
 command back whole.
 */
module Planner {
  import opened Entities
  import opened Sequences
  import opened OpIds
  import opened Outbox
  import opened Undo
  import TaskDates
  import Assignment

  datatype Change =
    | Complete
    | Reopen
    | Delete
    | Edit(
        edit: TaskDates.Edit, assign: Option<Assignment.Change>,
        deferUntil: Option<TaskDates.Clearable<int>>, someday: Option<bool>,
        nag: Option<TaskDates.Clearable<nat>>)

  datatype Error =
    | InvalidEdit(why: TaskDates.Error)
    | InvalidTask(task: string, why: TaskDates.Error)
    | NagInterval
    | NagNeedsReminder
    | OneTaskOnly

  const NAG_MIN := 5
  const NAG_MAX := 1440

  function ActionOf(change: Change): Outbox.Action
  {
    match change
    case Complete => Outbox.Complete
    case Reopen => Outbox.Reopen
    case Delete => Outbox.Remove
    case Edit(_, _, _, _, _) => Outbox.Edit
  }

  // ----- Checks before anything is planned -----

  function NagError(change: Change): Option<Error>
  {
    if change.Edit? && change.nag.Some? && change.nag.value.Set? then
      if !(NAG_MIN <= change.nag.value.value <= NAG_MAX) then Some(NagInterval)
      else if change.edit.reminder == Some(TaskDates.Clear) then Some(NagNeedsReminder)
      else None
    else None
  }

  /** A nag starts at the reminder: the edit's, else each task's own. */
  predicate NeedsReminders(change: Change)
  {
    change.Edit? && change.nag.Some? && change.nag.value.Set? && change.edit.reminder.None?
  }

  predicate OneTaskEdit(change: Change)
  {
    change.Edit? && (change.edit.title.Some? || change.edit.notes.Some?)
  }

  function Changes(change: Change): Result<Entity, TaskDates.Error>
  {
    match change
    case Complete => Ok(map[STATUS := Text(Assignment.COMPLETED_STATUS)])
    case Reopen => Ok(map[STATUS := Text(Assignment.NOT_STARTED)])
    case Delete => Ok(map[])
    case Edit(edit, assign, deferUntil, someday, nag) =>
      match TaskDates.EditBody(edit)
      case Err(why) => Err(why)
      case Ok(body) =>
        var ours := assign.Some? || deferUntil.Some? || someday.Some? || nag.Some?;
        if body == map[] && !ours then Err(TaskDates.NothingToChange) else Ok(body)
  }

  function Check(change: Change, cache: Cache, targets: seq<string>, bulk: bool): Option<Error>
    requires forall t :: t in targets ==> t in cache
  {
    if NagError(change).Some? then NagError(change)
    else if Changes(change).Err? then Some(InvalidEdit(Changes(change).error))
    else if NeedsReminders(change) && exists t :: t in targets && ReminderAt(cache[t].raw).None? then
      Some(NagNeedsReminder)
    else if (bulk || |targets| > 1) && OneTaskEdit(change) then Some(OneTaskOnly)
    else None
  }

  // ----- What one task is sent -----

  /** A reopen turns the reminder of a completed task back on while its time is ahead. */
  function TurnReminderBackOn(body: Entity, task: Task, now: int): Entity
  {
    if Assignment.IsCompleted(task) && ReminderAt(task.raw).Some? && ReminderAt(task.raw).value > now
    then ResendReminder(body, task.raw) else body
  }

  /** A completion turns it off; a repeating task rolls on with it on. */
  function TurnReminderOff(body: Entity, task: Task): Entity
  {
    if ReminderOn(task.raw) && !Get(task.raw, RECURRENCE).Repeats?
    then body[REMINDER_ON := Flag(false)] else body
  }

  function BodyFor(change: Change, changes: Entity, task: Task, now: int): Result<Entity, TaskDates.Error>
  {
    match TaskDates.TaskBody(changes, task.raw)
    case Err(why) => Err(why)
    case Ok(body) =>
      Ok(match change
         case Complete => TurnReminderOff(body, task)
         case Reopen => TurnReminderBackOn(body, task, now)
         case _ => body)
  }

  /** The deferral fields of an edit that change the task's extension. */
  function DeferFields(change: Change, task: Task): Entity
  {
    if !change.Edit? then map[]
    else
      var fields: Entity := map[];
      var fields := match change.deferUntil
                    case None => fields
                    case Some(Set(day)) => fields[DEFER_UNTIL := Day(day)]
                    case Some(Clear) => fields[DEFER_UNTIL := Null];
      var fields := if change.someday.Some?
                    then fields[SOMEDAY := if change.someday.value then Flag(true) else Null] else fields;
      map f | f in fields && fields[f] != Get(task.extension, f) :: fields[f]
  }

  /** A task's nag interval, if it has one that is a u32. */
  function NagOf(task: Task): Option<int>
  {
    match Get(task.extension, NAG)
    case Number(minutes) => if 0 <= minutes < 0x1_0000_0000 then Some(minutes) else None
    case _ => None
  }

  function NagFields(change: Change, task: Task): Entity
  {
    if !change.Edit? || change.nag.None? then map[]
    else
      var value := if change.nag.value.Set? then Number(change.nag.value.value) else Null;
      var now := if NagOf(task).Some? then Number(NagOf(task).value) else Null;
      if value == now then map[] else map[NAG := value]
  }

  function PushWrite(
    ops: seq<NewOp>, command: string, task: string, kind: Kind, action: Outbox.Action, body: Entity)
    : seq<NewOp>
  {
    ops + [Write(OpIdFor(command, |ops|), task, kind, action, body)]
  }

  /** The first operation of a task: its delete, or the edit of its fields if there are any. */
  function PushMain(ops: seq<NewOp>, command: string, id: string, change: Change, changes: Entity, body: Entity)
    : seq<NewOp>
  {
    if change.Delete? then PushWrite(ops, command, id, Outbox.Delete, Outbox.Remove, map[])
    else if changes != map[] then PushWrite(ops, command, id, Update, ActionOf(change), body)
    else ops
  }

  function PushAssignment(ops: seq<NewOp>, command: string, id: string, task: Task, change: Change): seq<NewOp>
  {
    if change.Edit? && change.assign.Some? && Assignment.PlanFor(task, change.assign.value).Some? then
      ops + Assignment.PlanOps(command, |ops|, id, Assignment.PlanFor(task, change.assign.value).value, Outbox.Edit)
    else ops
  }

  function PushFields(ops: seq<NewOp>, command: string, id: string, fields: Entity): seq<NewOp>
  {
    if fields == map[] then ops else PushWrite(ops, command, id, Extension, Outbox.Edit, fields)
  }

  /** `ops` with the operations of one more task. */
  function PushTask(
    ops: seq<NewOp>, command: string, id: string, task: Task, change: Change, changes: Entity, body: Entity)
    : seq<NewOp>
  {
    var main := PushMain(ops, command, id, change, changes, body);
    var assignment := PushAssignment(main, command, id, task, change);
    var deferral := PushFields(assignment, command, id, DeferFields(change, task));
    PushFields(deferral, command, id, NagFields(change, task))
  }

  /** What each of the first `n` targets is sent, or the first task that refuses the change. */
  function Bodies(cache: Cache, targets: seq<string>, change: Change, changes: Entity, now: int, n: nat)
    : (r: Result<seq<Entity>, Error>)
    requires n <= |targets| && forall t :: t in targets ==> t in cache
    ensures r.Ok? ==> |r.value| == n
  {
    if n == 0 then Ok([])
    else
      match Bodies(cache, targets, change, changes, now, n - 1)
      case Err(e) => Err(e)
      case Ok(bodies) =>
        match BodyFor(change, changes, cache[targets[n - 1]], now)
        case Err(why) => Err(InvalidTask(targets[n - 1], why))
        case Ok(body) => Ok(bodies + [body])
  }

  /** The operations of the first `n` targets. */
  function OpsFor(
    command: string, cache: Cache, targets: seq<string>, change: Change, changes: Entity, bodies: seq<Entity>, n: nat)
    : seq<NewOp>
    requires n <= |targets| == |bodies| && forall t :: t in targets ==> t in cache
  {
    if n == 0 then []
    else
      var ops := OpsFor(command, cache, targets, change, changes, bodies, n - 1);
      PushTask(ops, command, targets[n - 1], cache[targets[n - 1]], change, changes, bodies[n - 1])
  }

  function ChangePlan(
    command: string, cache: Cache, targets: seq<string>, change: Change, bulk: bool, now: int)
    : Result<seq<NewOp>, Error>
    requires forall t :: t in targets ==> t in cache
  {
    if Check(change, cache, targets, bulk).Some? then Err(Check(change, cache, targets, bulk).value)
    else
      var changes := Changes(change).value;
      match Bodies(cache, targets, change, changes, now, |targets|)
      case Err(e) => Err(e)
      case Ok(bodies) => Ok(OpsFor(command, cache, targets, change, changes, bodies, |targets|))
  }

  // ----- The loops themselves -----

  /** The first task that refuses the change is what everything comes to. */
  lemma {:induction false} RefusalStays(
    cache: Cache, targets: seq<string>, change: Change, changes: Entity, now: int, m: nat, n: nat)
    requires m <= n <= |targets| && (forall t :: t in targets ==> t in cache)
    requires Bodies(cache, targets, change, changes, now, m).Err?
    ensures Bodies(cache, targets, change, changes, now, n) == Bodies(cache, targets, change, changes, now, m)
  {
    if m < n {
      RefusalStays(cache, targets, change, changes, now, m, n - 1);
    }
  }

  /** Every task's body is worked out before the first operation is made. */
  method TaskBodies(cache: Cache, targets: seq<string>, change: Change, changes: Entity, now: int)
    returns (r: Result<seq<Entity>, Error>)
    requires forall t :: t in targets ==> t in cache
    ensures r == Bodies(cache, targets, change, changes, now, |targets|)
  {
    var bodies: seq<Entity> := [];
    for i := 0 to |targets|
      invariant Bodies(cache, targets, change, changes, now, i) == Ok(bodies)
    {
      var id := targets[i];
      var body := TaskDates.FillTaskBody(changes, cache[id].raw);
      match body {
        case Err(why) =>
          RefusalStays(cache, targets, change, changes, now, i + 1, |targets|);
          return Err(InvalidTask(id, why));
        case Ok(fields) =>
          match change {
            case Complete => fields := TurnReminderOff(fields, cache[id]);
            case Reopen => fields := TurnReminderBackOn(fields, cache[id], now);
            case _ =>
          }
          bodies := bodies + [fields];
      }
    }
    r := Ok(bodies);
  }

  method ChangeTasks(
    command: string, cache: Cache, targets: seq<string>, change: Change, bulk: bool, now: int)
    returns (r: Result<seq<NewOp>, Error>)
    requires forall t :: t in targets ==> t in cache
    ensures r == ChangePlan(command, cache, targets, change, bulk, now)
  {
    var refused := Check(change, cache, targets, bulk);
    if refused.Some? {
      return Err(refused.value);
    }
    var changes := Changes(change).value;
    var checked := TaskBodies(cache, targets, change, changes, now);
    if checked.Err? {
      return Err(checked.error);
    }
    var bodies := checked.value;
    var ops: seq<NewOp> := [];
    for i := 0 to |targets|
      invariant ops == OpsFor(command, cache, targets, change, changes, bodies, i)
    {
      var id, task := targets[i], cache[targets[i]];
      ghost var before := ops;
      if change.Delete? {
        ops := ops + [Write(OpIdFor(command, |ops|), id, Outbox.Delete, Outbox.Remove, map[])];
      } else if changes != map[] {
        ops := ops + [Write(OpIdFor(command, |ops|), id, Update, ActionOf(change), bodies[i])];
      }
      if change.Edit? && change.assign.Some? {
        var plan := Assignment.PlanFor(task, change.assign.value);
        if plan.Some? {
          var more := Assignment.PushPlanOps(command, |ops|, id, plan.value, Outbox.Edit);
          ops := ops + more;
        }
      }
      var fields := DeferFields(change, task);
      if fields != map[] {
        ops := ops + [Write(OpIdFor(command, |ops|), id, Extension, Outbox.Edit, fields)];
      }
      fields := NagFields(change, task);
      if fields != map[] {
        ops := ops + [Write(OpIdFor(command, |ops|), id, Extension, Outbox.Edit, fields)];
      }
      assert ops == PushTask(before, command, id, task, change, changes, bodies[i]);
    }
    r := Ok(ops);
  }

  // ----- Induction over the tasks of a plan -----

  /** One more task keeps `inv`, which is about the operations so far and how many tasks they are for. */
  ghost predicate Carries(
    inv: (nat, seq<NewOp>) -> bool, command: string, cache: Cache, targets: seq<string>, change: Change, changes: Entity,
    now: int, k: nat, ops: seq<NewOp>)
    requires k < |targets| && forall t :: t in targets ==> t in cache
  {
    var id := targets[k];
    var body := BodyFor(change, changes, cache[id], now);
    inv(k, ops) && body.Ok? ==> inv(k + 1, PushTask(ops, command, id, cache[id], change, changes, body.value))
  }

  lemma {:induction false} BodiesAre(
    cache: Cache, targets: seq<string>, change: Change, changes: Entity, now: int, n: nat, k: nat)
    requires k < n <= |targets| && (forall t :: t in targets ==> t in cache)
    requires Bodies(cache, targets, change, changes, now, n).Ok?
    ensures BodyFor(change, changes, cache[targets[k]], now) == Ok(Bodies(cache, targets, change, changes, now, n).value[k])
  {
    if k < n - 1 {
      BodiesAre(cache, targets, change, changes, now, n - 1, k);
    }
  }

  lemma {:induction false} CarriedThrough(
    inv: (nat, seq<NewOp>) -> bool, command: string, cache: Cache, targets: seq<string>, change: Change, changes: Entity,
    now: int, bodies: seq<Entity>, n: nat)
    requires n <= |targets| && (forall t :: t in targets ==> t in cache)
    requires Bodies(cache, targets, change, changes, now, |targets|) == Ok(bodies)
    requires inv(0, [])
    requires forall k, some :: 0 <= k < |targets| ==> Carries(inv, command, cache, targets, change, changes, now, k, some)
    ensures inv(n, OpsFor(command, cache, targets, change, changes, bodies, n))
  {
    if n > 0 {
      CarriedThrough(inv, command, cache, targets, change, changes, now, bodies, n - 1);
      BodiesAre(cache, targets, change, changes, now, |targets|, n - 1);
      assert Carries(inv, command, cache, targets, change, changes, now, n - 1,
                     OpsFor(command, cache, targets, change, changes, bodies, n - 1));
    }
  }

  /** What holds of no operations, and each task keeps, holds of the whole plan. */
  lemma OpsInduction(
    inv: (nat, seq<NewOp>) -> bool, command: string, cache: Cache, targets: seq<string>, change: Change, bulk: bool,
    now: int, ops: seq<NewOp>)
    requires forall t :: t in targets ==> t in cache
    requires ChangePlan(command, cache, targets, change, bulk, now) == Ok(ops)
    requires inv(0, [])
    requires forall k, some :: 0 <= k < |targets| ==>
               Carries(inv, command, cache, targets, change, Changes(change).value, now, k, some)
    ensures inv(|targets|, ops)
  {
    var changes := Changes(change).value;
    var bodies := Bodies(cache, targets, change, changes, now, |targets|).value;
    CarriedThrough(inv, command, cache, targets, change, changes, now, bodies, |targets|);
  }

  /** The plan for one task. */
  lemma OneTask(
    command: string, cache: Cache, t: string, change: Change, now: int, changes: Entity, body: Entity)
    requires t in cache && Check(change, cache, [t], false).None? && Changes(change) == Ok(changes)
    requires BodyFor(change, changes, cache[t], now) == Ok(body)
    ensures ChangePlan(command, cache, [t], change, false, now)
            == Ok(PushTask([], command, t, cache[t], change, changes, body))
  {
    assert [t][0] == t && [] + [body] == [body];
    assert Bodies(cache, [t], change, changes, now, 0) == Ok([]);
    assert Bodies(cache, [t], change, changes, now, 1) == Ok([] + [body]);
    assert OpsFor(command, cache, [t], change, changes, [body], 0) == [];
  }

  // ----- What every plan keeps to -----

  /** Operations numbered by position and referring back. */
  ghost predicate Numbered(command: string, ops: seq<NewOp>)
  {
    && (forall k :: 0 <= k < |ops| ==> ops[k].id == OpIdFor(command, k))
    && (forall j :: 0 <= j < |ops| ==> Names(ops, j, ops[j].partOf) && Names(ops, j, ops[j].after))
  }

  /** And with no field in common. */
  ghost predicate WellFormed(command: string, ops: seq<NewOp>)
  {
    Numbered(command, ops) && DisjointClaims(ops)
  }

  /** The operations on `task` claim fields of `raw` and, in the extension, of `ours`. */
  ghost predicate Within(ops: seq<NewOp>, task: string, raw: set<Key>, ours: set<Key>)
  {
    forall k :: 0 <= k < |ops| && ops[k].task == task ==>
      Claims(ops[k]) <= if ops[k].kind.Extension? then ours else raw
  }

  lemma NumberedRefs(command: string, ops: seq<NewOp>)
    requires Numbered(command, ops)
    ensures RefsInOrder(ops)
  {
    forall i, j | 0 <= i < j < |ops| ensures ops[i].id != ops[j].id {
      OpIdsDistinct(command, i, j);
    }
  }

  lemma PushNumbers(command: string, ops: seq<NewOp>, op: NewOp)
    requires Numbered(command, ops) && op.id == OpIdFor(command, |ops|)
    requires Names(ops + [op], |ops|, op.partOf) && Names(ops + [op], |ops|, op.after)
    ensures Numbered(command, ops + [op])
  {
    var more := ops + [op];
    forall j | 0 <= j < |more| ensures Names(more, j, more[j].partOf) && Names(more, j, more[j].after) {
      if j < |ops| {
        assert more[j] == ops[j];
        NamesKept(ops, op, j, ops[j].partOf);
        NamesKept(ops, op, j, ops[j].after);
      }
    }
  }

  lemma PushKeeps(
    command: string, ops: seq<NewOp>, op: NewOp, raw: set<Key>, ours: set<Key>)
    requires WellFormed(command, ops) && Within(ops, op.task, raw, ours)
    requires op.id == OpIdFor(command, |ops|)
    requires Names(ops + [op], |ops|, op.partOf) && Names(ops + [op], |ops|, op.after)
    requires Claims(op) !! if op.kind.Extension? then ours else raw
    ensures WellFormed(command, ops + [op])
    ensures Within(ops + [op], op.task,
                   if op.kind.Extension? then raw else raw + Claims(op),
                   if op.kind.Extension? then ours + Claims(op) else ours)
  {
    PushNumbers(command, ops, op);
  }

  lemma NamesKept(ops: seq<NewOp>, op: NewOp, j: nat, named: Option<string>)
    requires j < |ops| && Names(ops, j, named)
    ensures Names(ops + [op], j, named)
  {
    if named.Some? {
      var i :| 0 <= i < j && ops[i].id == named.value && ops[i].task == ops[j].task;
      assert (ops + [op])[i] == ops[i];
    }
  }

  lemma NamesEarlier(ops: seq<NewOp>, op: NewOp, i: nat)
    requires i < |ops| && ops[i].task == op.task
    ensures Names(ops + [op], |ops|, Some(ops[i].id))
  {
    assert (ops + [op])[i] == ops[i];
  }

  ghost predicate Tidy(command: string, ops: seq<NewOp>, task: string, raw: set<Key>, ours: set<Key>)
  {
    WellFormed(command, ops) && Within(ops, task, raw, ours)
  }

  lemma PushAssignee(command: string, ops: seq<NewOp>, op: NewOp, raw: set<Key>)
    requires Tidy(command, ops, op.task, raw, {}) && op.id == OpIdFor(command, |ops|)
    requires op.kind.Extension? && op.partOf.None? && op.after.None?
    ensures Tidy(command, ops + [op], op.task, raw, op.body.Keys)
  {
    PushKeeps(command, ops, op, raw, {});
  }

  lemma PushStatus(command: string, ops: seq<NewOp>, op: NewOp, raw: set<Key>, ours: set<Key>)
    requires ops != [] && Tidy(command, ops, op.task, raw, ours) && op.id == OpIdFor(command, |ops|)
    requires op.kind.Update? && op.action.Edit? && op.body.Keys == {STATUS} && STATUS !in raw
    requires ops[|ops| - 1].task == op.task && op.partOf == Some(ops[|ops| - 1].id) && op.after.None?
    ensures Tidy(command, ops + [op], op.task, raw + {STATUS}, ours)
  {
    NamesEarlier(ops, op, |ops| - 1);
    PushKeeps(command, ops, op, raw, ours);
  }

  lemma PushFlag(command: string, ops: seq<NewOp>, op: NewOp, raw: set<Key>)
    requires |ops| > 1 && Tidy(command, ops, op.task, raw, {ASSIGNEE}) && op.id == OpIdFor(command, |ops|)
    requires op.kind.Extension? && op.body.Keys == {STATUS_SET}
    requires ops[|ops| - 2].task == op.task && op.partOf == Some(ops[|ops| - 2].id)
    requires ops[|ops| - 1].task == op.task && op.after == Some(ops[|ops| - 1].id)
    ensures Tidy(command, ops + [op], op.task, raw, {ASSIGNEE, STATUS_SET})
  {
    NamesEarlier(ops, op, |ops| - 2);
    NamesEarlier(ops, op, |ops| - 1);
    PushKeeps(command, ops, op, raw, {ASSIGNEE});
  }

  lemma Widen(
    command: string, ops: seq<NewOp>, task: string, raw: set<Key>, ours: set<Key>, raw': set<Key>, ours': set<Key>)
    requires Tidy(command, ops, task, raw, ours) && raw <= raw' && ours <= ours'
    ensures Tidy(command, ops, task, raw', ours')
  {
  }

  /** What an assignment pushes: the assignee, then perhaps the status, then perhaps the flag. */
  ghost predicate AssignmentParts(command: string, first: nat, id: string, parts: seq<NewOp>)
  {
    && 0 < |parts| <= 3
    && (forall k :: 0 <= k < |parts| ==> parts[k].id == OpIdFor(command, first + k) && parts[k].task == id)
    && parts[0].kind.Extension? && parts[0].partOf.None? && parts[0].after.None?
    && parts[0].body.Keys <= {ASSIGNEE, STATUS_SET}
    && (|parts| > 1 ==>
          && parts[1].kind.Update? && parts[1].action.Edit? && parts[1].body.Keys == {STATUS}
          && parts[1].partOf == Some(parts[0].id) && parts[1].after.None?)
    && (|parts| > 2 ==>
          && parts[0].body.Keys == {ASSIGNEE} && parts[2].kind.Extension? && parts[2].body.Keys == {STATUS_SET}
          && parts[2].partOf == Some(parts[0].id) && parts[2].after == Some(parts[1].id))
  }

  lemma PlanParts(command: string, first: nat, id: string, plan: Assignment.TaskPlan)
    requires Assignment.Sound(plan)
    ensures AssignmentParts(command, first, id, Assignment.PlanOps(command, first, id, plan, Outbox.Edit))
  {
  }

  /** An assignment's operations claim its two fields and the status, and refer to each other. */
  lemma AssignmentKeeps(command: string, ops: seq<NewOp>, id: string, parts: seq<NewOp>, raw: set<Key>)
    requires Tidy(command, ops, id, raw, {}) && STATUS !in raw && AssignmentParts(command, |ops|, id, parts)
    ensures Tidy(command, ops + parts, id, raw + {STATUS}, {ASSIGNEE, STATUS_SET})
  {
    var one := ops + [parts[0]];
    PushAssignee(command, ops, parts[0], raw);
    if |parts| == 1 {
      Widen(command, one, id, raw, parts[0].body.Keys, raw + {STATUS}, {ASSIGNEE, STATUS_SET});
      assert parts == [parts[0]];
    } else {
      StatusStage(command, one, parts[0], parts[1], parts[2..], raw);
      Joined(ops, parts);
    }
  }

  lemma Joined(ops: seq<NewOp>, parts: seq<NewOp>)
    requires |parts| > 1
    ensures ops + parts == ops + [parts[0]] + [parts[1]] + parts[2..]
  {
  }

  /** After the assignee `a`, the last of `ops`: the status, then perhaps the flag. */
  lemma StatusStage(command: string, ops: seq<NewOp>, a: NewOp, b: NewOp, rest: seq<NewOp>, raw: set<Key>)
    requires ops != [] && ops[|ops| - 1] == a && Tidy(command, ops, a.task, raw, a.body.Keys) && STATUS !in raw
    requires AssignmentParts(command, |ops| - 1, a.task, [a, b] + rest)
    ensures Tidy(command, ops + [b] + rest, a.task, raw + {STATUS}, {ASSIGNEE, STATUS_SET})
  {
    var parts := [a, b] + rest;
    assert parts[0] == a && parts[1] == b && (rest != [] ==> parts[2] == rest[0]);
    PushStatus(command, ops, b, raw, a.body.Keys);
    FlagStage(command, ops + [b], rest, a.task, a.body.Keys, raw + {STATUS});
  }

  lemma FlagStage(
    command: string, ops: seq<NewOp>, rest: seq<NewOp>, id: string, fields: set<Key>, raw: set<Key>)
    requires |ops| > 1 && Tidy(command, ops, id, raw, fields) && fields <= {ASSIGNEE, STATUS_SET} && |rest| <= 1
    requires rest != [] ==>
               && fields == {ASSIGNEE} && rest[0].task == id && rest[0].id == OpIdFor(command, |ops|)
               && rest[0].kind.Extension? && rest[0].body.Keys == {STATUS_SET}
               && ops[|ops| - 2].task == id && rest[0].partOf == Some(ops[|ops| - 2].id)
               && ops[|ops| - 1].task == id && rest[0].after == Some(ops[|ops| - 1].id)
    ensures Tidy(command, ops + rest, id, raw, {ASSIGNEE, STATUS_SET})
  {
    if rest == [] {
      Widen(command, ops, id, raw, fields, raw, {ASSIGNEE, STATUS_SET});
      assert ops + rest == ops;
    } else {
      PushFlag(command, ops, rest[0], raw);
      assert ops + rest == ops + [rest[0]];
    }
  }

  /** An edit's own fields never include the status. */
  lemma BodyClaims(change: Change, changes: Entity, task: Task, now: int, body: Entity)
    requires Changes(change) == Ok(changes) && BodyFor(change, changes, task, now) == Ok(body)
    ensures change.Edit? ==> STATUS !in body
  {
    if change.Edit? {
      TaskDates.EditKeepsTheRest(change.edit, changes, task.raw, body);
    }
  }

  /** The first operation leaves the extension alone, and the status too if it is an edit. */
  lemma MainKeeps(command: string, ops: seq<NewOp>, id: string, change: Change, changes: Entity, body: Entity)
    returns (raw: set<Key>)
    requires Tidy(command, ops, id, {}, {}) && (change.Edit? ==> STATUS !in body)
    ensures Tidy(command, PushMain(ops, command, id, change, changes, body), id, raw, {})
    ensures change.Edit? ==> STATUS !in raw
  {
    raw := {};
    var main := PushMain(ops, command, id, change, changes, body);
    if |main| > |ops| {
      PushKeeps(command, ops, main[|ops|], {}, {});
      raw := Claims(main[|ops|]);
    }
  }

  lemma FieldsKeep(
    command: string, ops: seq<NewOp>, id: string, fields: Entity, raw: set<Key>, ours: set<Key>)
    requires Tidy(command, ops, id, raw, ours) && fields.Keys !! ours
    ensures Tidy(command, PushFields(ops, command, id, fields), id, raw, ours + fields.Keys)
  {
    if fields != map[] {
      PushKeeps(command, ops, Write(OpIdFor(command, |ops|), id, Extension, Outbox.Edit, fields), raw, ours);
    }
  }

  lemma AssignmentStage(
    command: string, ops: seq<NewOp>, id: string, task: Task, change: Change, raw: set<Key>)
    requires Tidy(command, ops, id, raw, {}) && (change.Edit? ==> STATUS !in raw)
    ensures Tidy(command, PushAssignment(ops, command, id, task, change), id,
                 raw + {STATUS}, {ASSIGNEE, STATUS_SET})
  {
    if change.Edit? && change.assign.Some? && Assignment.PlanFor(task, change.assign.value).Some? {
      Assignment.PlansAreSound(task, change.assign.value);
      var plan := Assignment.PlanFor(task, change.assign.value).value;
      PlanParts(command, |ops|, id, plan);
      AssignmentKeeps(command, ops, id, Assignment.PlanOps(command, |ops|, id, plan, Outbox.Edit), raw);
    } else {
      Widen(command, ops, id, raw, {}, raw + {STATUS}, {ASSIGNEE, STATUS_SET});
    }
  }

  lemma FirstStages(
    command: string, ops: seq<NewOp>, id: string, task: Task, change: Change, changes: Entity, body: Entity)
    returns (raw: set<Key>)
    requires (change.Edit? ==> STATUS !in body) && Tidy(command, ops, id, {}, {})
    ensures var main := PushMain(ops, command, id, change, changes, body);
            Tidy(command, PushAssignment(main, command, id, task, change), id, raw, {ASSIGNEE, STATUS_SET})
  {
    raw := MainKeeps(command, ops, id, change, changes, body);
    AssignmentStage(command, PushMain(ops, command, id, change, changes, body), id, task, change, raw);
    raw := raw + {STATUS};
  }

  lemma LastStages(command: string, ops: seq<NewOp>, id: string, deferral: Entity, nag: Entity, raw: set<Key>)
    requires Tidy(command, ops, id, raw, {ASSIGNEE, STATUS_SET})
    requires deferral.Keys <= {DEFER_UNTIL, SOMEDAY} && nag.Keys <= {NAG}
    ensures WellFormed(command, PushFields(PushFields(ops, command, id, deferral), command, id, nag))
  {
    FieldsKeep(command, ops, id, deferral, raw, {ASSIGNEE, STATUS_SET});
    FieldsKeep(command, PushFields(ops, command, id, deferral), id, nag, raw, {ASSIGNEE, STATUS_SET} + deferral.Keys);
  }

  lemma OurFields(change: Change, task: Task)
    ensures DeferFields(change, task).Keys <= {DEFER_UNTIL, SOMEDAY} && NagFields(change, task).Keys <= {NAG}
  {
  }

  lemma TaskKeeps(
    command: string, ops: seq<NewOp>, id: string, task: Task, change: Change, changes: Entity, body: Entity)
    requires (change.Edit? ==> STATUS !in body) && Tidy(command, ops, id, {}, {})
    ensures WellFormed(command, PushTask(ops, command, id, task, change, changes, body))
  {
    var raw := FirstStages(command, ops, id, task, change, changes, body);
    var main := PushMain(ops, command, id, change, changes, body);
    OurFields(change, task);
    LastStages(command, PushAssignment(main, command, id, task, change), id,
               DeferFields(change, task), NagFields(change, task), raw);
  }

  ghost predicate OnTasks(ops: seq<NewOp>, tasks: seq<string>)
  {
    forall k :: 0 <= k < |ops| ==> ops[k].task in tasks
  }

  lemma TaskStaysOn(
    ops: seq<NewOp>, command: string, id: string, task: Task, change: Change, changes: Entity, body: Entity,
    tasks: seq<string>)
    requires OnTasks(ops, tasks) && id in tasks
    ensures OnTasks(PushTask(ops, command, id, task, change, changes, body), tasks)
  {
    var main := PushMain(ops, command, id, change, changes, body);
    assert OnTasks(main, tasks);
    var assignment := PushAssignment(main, command, id, task, change);
    assert OnTasks(assignment, tasks);
    assert OnTasks(PushFields(assignment, command, id, DeferFields(change, task)), tasks);
  }

  lemma OnOneMore(ops: seq<NewOp>, targets: seq<string>, n: nat)
    requires n < |targets| && OnTasks(ops, targets[..n])
    ensures OnTasks(ops, targets[..n + 1]) && targets[n] in targets[..n + 1]
  {
    assert targets[..n + 1] == targets[..n] + [targets[n]];
  }

  lemma NewTaskIsTidy(command: string, ops: seq<NewOp>, targets: seq<string>, n: nat)
    requires n < |targets| && Distinct(targets) && WellFormed(command, ops) && OnTasks(ops, targets[..n])
    ensures Tidy(command, ops, targets[n], {}, {})
  {
    assert targets[n] !in targets[..n];
  }

  lemma NextTaskKeeps(
    command: string, ops: seq<NewOp>, targets: seq<string>, n: nat, task: Task, change: Change, changes: Entity,
    body: Entity, more: seq<NewOp>)
    requires n < |targets| && Distinct(targets) && WellFormed(command, ops) && OnTasks(ops, targets[..n])
    requires change.Edit? ==> STATUS !in body
    requires more == PushTask(ops, command, targets[n], task, change, changes, body)
    ensures WellFormed(command, more) && OnTasks(more, targets[..n + 1])
  {
    NewTaskIsTidy(command, ops, targets, n);
    TaskKeeps(command, ops, targets[n], task, change, changes, body);
    OnOneMore(ops, targets, n);
    TaskStaysOn(ops, command, targets[n], task, change, changes, body, targets[..n + 1]);
  }

  lemma OpsKeep(
    command: string, cache: Cache, targets: seq<string>, change: Change, bulk: bool, now: int, ops: seq<NewOp>)
    requires (forall t :: t in targets ==> t in cache) && Distinct(targets)
    requires ChangePlan(command, cache, targets, change, bulk, now) == Ok(ops)
    ensures WellFormed(command, ops) && OnTasks(ops, targets)
  {
    var inv := (k: nat, some: seq<NewOp>) =>
      k <= |targets| && WellFormed(command, some) && OnTasks(some, targets[..k]);
    var changes := Changes(change).value;
    forall k, some | 0 <= k < |targets|
      ensures Carries(inv, command, cache, targets, change, changes, now, k, some)
    {
      var task := cache[targets[k]];
      var body := BodyFor(change, changes, task, now);
      if inv(k, some) && body.Ok? {
        BodyClaims(change, changes, task, now, body.value);
        NextTaskKeeps(command, some, targets, k, task, change, changes, body.value,
                      PushTask(some, command, targets[k], task, change, changes, body.value));
      }
    }
    assert WellFormed(command, []) && OnTasks([], targets[..0]);
    assert inv(0, []);
    OpsInduction(inv, command, cache, targets, change, bulk, now, ops);
    assert targets[..|targets|] == targets;
  }

  /**
   Every command planned for a change: operation IDs are distinct and run in
   order, each `after` and `partOf` names an earlier operation on the same
   task, and no two operations have a field in common.
   */
  lemma ReferenceIntegrity(
    command: string, cache: Cache, targets: seq<string>, change: Change, bulk: bool, now: int, ops: seq<NewOp>)
    requires (forall t :: t in targets ==> t in cache) && Distinct(targets)
    requires ChangePlan(command, cache, targets, change, bulk, now) == Ok(ops)
    ensures RefsInOrder(ops) && DisjointClaims(ops)
    ensures forall k :: 0 <= k < |ops| ==> ops[k].id == OpIdFor(command, k) && ops[k].task in targets
  {
    OpsKeep(command, cache, targets, change, bulk, now, ops);
    NumberedRefs(command, ops);
  }

  // ----- The answer -----

  /** Each task once, as it is after its last operation: rows with a later row of the same task left out. */
  function LastRows(rows: seq<(string, Task)>): seq<(string, Task)>
  {
    if rows == [] then []
    else if exists k :: 0 < k < |rows| && rows[k].0 == rows[0].0 then LastRows(rows[1..])
    else [rows[0]] + LastRows(rows[1..])
  }

  /** Reverse, keep the first of each, and reverse back. */
  method AnswerRows(rows: seq<(string, Task)>) returns (kept: seq<(string, Task)>)
    ensures kept == LastRows(rows)
  {
    var seen: set<string> := {};
    kept := [];
    var i := |rows|;
    while i > 0
      invariant 0 <= i <= |rows|
      invariant kept == LastRows(rows[i..])
      invariant forall t :: t in seen <==> exists k :: i <= k < |rows| && rows[k].0 == t
    {
      i := i - 1;
      assert rows[i..][1..] == rows[i + 1..];
      if rows[i].0 !in seen {
        kept := [rows[i]] + kept;
        assert forall k :: 0 < k < |rows[i..]| ==> rows[i..][k] == rows[i + k];
      } else {
        var k :| i + 1 <= k < |rows| && rows[k].0 == rows[i].0;
        assert rows[i..][k - i] == rows[k];
      }
      seen := seen + {rows[i].0};
    }
  }

  /** Every task is answered exactly once, with its last row. */
  lemma {:induction false} LastRowsAnswers(rows: seq<(string, Task)>, k: nat)
    requires k < |rows| && forall j :: k < j < |rows| ==> rows[j].0 != rows[k].0
    ensures rows[k] in LastRows(rows)
    ensures forall r :: r in LastRows(rows) && r.0 == rows[k].0 ==> r == rows[k]
    ensures forall i, j :: 0 <= i < j < |LastRows(rows)| ==> LastRows(rows)[i].0 != LastRows(rows)[j].0
  {
    LastRowsOnce(rows);
    LastRowKept(rows, k);
  }

  lemma {:induction false} LastRowKept(rows: seq<(string, Task)>, k: nat)
    requires k < |rows| && forall j :: k < j < |rows| ==> rows[j].0 != rows[k].0
    ensures rows[k] in LastRows(rows)
  {
    if k > 0 {
      LastRowKept(rows[1..], k - 1);
    }
  }

  lemma {:induction false} LastRowsOnce(rows: seq<(string, Task)>)
    ensures forall r :: r in LastRows(rows) ==> r in rows
    ensures forall i, j :: 0 <= i < j < |LastRows(rows)| ==> LastRows(rows)[i].0 != LastRows(rows)[j].0
  {
    if rows != [] {
      LastRowsOnce(rows[1..]);
      if LastRows(rows) != LastRows(rows[1..]) {
        forall r | r in LastRows(rows[1..]) ensures r.0 != rows[0].0 {
          var k :| 0 <= k < |rows[1..]| && rows[1..][k] == r;
          assert rows[k + 1] == r;
        }
      }
    }
  }
}
