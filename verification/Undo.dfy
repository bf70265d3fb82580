/**
 Taking a command back: for each of its operations the one that reverses it,
 logged together as a new command. An operation with a field that is no longer
 what it made it stays as it is, with its parts, and its task is reported.
 */
module Undo {
  import opened Entities
  import opened OpIds
  import opened Outbox

  datatype Error =
    | NotCached(task: string)
    | ChangedSince(op: string)
    | OutcomeUnknown(op: string)
    | NoRecord(op: string)
    | NothingToUndo
    | AllChanged(tasks: seq<string>)

  // ----- The inverse of one operation -----

  predicate ReminderOn(task: Entity)
  {
    Get(task, REMINDER_ON) == Flag(true)
  }

  function ReminderAt(task: Entity): Option<int>
  {
    match Get(task, REMINDER)
    case Minute(at) => Some(at)
    case _ => None
  }

  /** Graph turns a reminder on only when sent its time, which is why that is repeated. */
  function ResendReminder(body: Entity, task: Entity): Entity
  {
    if REMINDER in task then body[REMINDER_ON := Flag(true)][REMINDER := task[REMINDER]] else body
  }

  /** The reminder of a task no longer completed comes on again, if the time it had is the time it has. */
  function RestoreReminder(body: Entity, before: Entity, now: Entity): Entity
  {
    if ReminderOn(before) && ReminderAt(before) == ReminderAt(now) then
      ResendReminder(body, before)
    else
      body
  }

  /** What `op` overwrote. */
  function InverseFields(op: NewOp, before: Entity): Entity
  {
    map f | f in op.body :: Get(before, f)
  }

  function InverseAction(op: NewOp): Action
  {
    match (op.kind, op.action)
    case (Update, Complete) => Reopen
    case (Update, Reopen) => Complete
    case (Extension, MyDayAdd) => MyDayRemove
    case (Extension, MyDayRemove) => MyDayAdd
    case (Extension, MyDayRollover) => MyDayAdd
    case _ => Edit
  }

  function InverseBody(op: NewOp, before: Entity, now: Entity): Entity
  {
    var fields := InverseFields(op, before);
    if op.kind.Update? && op.action.Complete? then
      RestoreReminder(fields, before, now)
    else if op.kind.Update? && op.action.Reopen? && !ReminderOn(before) then
      fields - {REMINDER}
    else
      fields
  }

  /** The document of `task` a field operation writes. */
  function Target(op: NewOp, task: Task): Entity
  {
    if op.kind.Extension? then task.extension else task.raw
  }

  function Write(id: string, task: string, kind: Kind, action: Action, body: Entity): NewOp
  {
    NewOp(id, task, kind, action, body, None, None, None)
  }

  /** The fields a create can set, nulls left out. */
  const CREATABLE := {
    TITLE, NOTES, IMPORTANCE, STATUS, REMINDER_ON, REMINDER, DUE, START, COMPLETED,
    CATEGORIES, RECURRENCE}

  function CreatableFields(task: Entity): Entity
  {
    map f | f in task && f in CREATABLE && task[f] != Null :: task[f]
  }

  const MODIFIED_AT := OTHER("lastModifiedDateTime")

  /** A time read from the clock. */
  const STAMP := Text("now")

  /** Graph's defaults for a new task, as the cache shows one before Graph answers. */
  const NEW_TASK: Entity := map[
    TITLE := Text(""), STATUS := Text("notStarted"), IMPORTANCE := Text("normal"),
    REMINDER_ON := Flag(false), CATEGORIES := Ids([]), CREATED_AT := STAMP, MODIFIED_AT := STAMP]

  /** The inverse of an operation whose task is `task` now. */
  function Inverse(id: string, op: NewOp, before: Entity, task: Task): NewOp
  {
    match op.kind
    case Create(_) => Write(id, op.task, Delete, Remove, map[])
    case Delete => Write(id, op.task, Create(NEW_TASK + before), Add, CreatableFields(before))
    case _ => Write(id, op.task, op.kind, InverseAction(op), InverseBody(op, before, Target(op, task)))
  }

  // ----- Undoing a command -----

  /** What the loop over a command's operations has so far. */
  datatype Progress = Progress(
    inverse: seq<NewOp>, refused: seq<string>, leftAlone: set<string>, created: set<string>)

  const BEGIN := Progress([], [], {}, {})

  function Step(p: Progress, row: Op, cache: Cache, id: string): Result<Progress, Error>
  {
    var op := row.op;
    if op.task in p.created || row.state.Failed? then
      Ok(p)
    else if row.state.Unknown? then
      Err(OutcomeUnknown(op.id))
    else if row.state.Skipped? then
      Ok(p)
    else if op.partOf.Some? && op.partOf.value in p.leftAlone then
      Ok(p.(leftAlone := p.leftAlone + {op.id}))
    else if op.task !in cache then
      Err(NotCached(op.task))
    else if op.kind.Delete? != cache[op.task].deleted then
      Err(ChangedSince(op.id))
    else if op.kind.Create? then
      Ok(p.(created := p.created + {op.task},
            inverse := p.inverse + [Inverse(OpIdFor(id, |p.inverse|), op, map[], cache[op.task])]))
    else if FieldOp(op) && !Holds(op.body, Target(op, cache[op.task])) then
      Ok(p.(refused := p.refused + [op.task], leftAlone := p.leftAlone + {op.id}))
    else if row.rollback.None? then
      Err(NoRecord(op.id))
    else
      Ok(p.(inverse := p.inverse
              + [Inverse(OpIdFor(id, |p.inverse|), op, row.rollback.value, cache[op.task])]))
  }

  /** Where the loop is after the first `n` operations. */
  function After(ops: seq<Op>, cache: Cache, id: string, n: nat): Result<Progress, Error>
    requires n <= |ops|
  {
    if n == 0 then Ok(BEGIN)
    else
      match After(ops, cache, id, n - 1)
      case Err(e) => Err(e)
      case Ok(p) => Step(p, ops[n - 1], cache, id)
  }

  datatype Plan = Plan(inverse: seq<NewOp>, refused: seq<string>)

  /** Each task once, where it first comes. */
  function Once(tasks: seq<string>): (r: seq<string>)
    ensures forall t :: t in r <==> t in tasks
    ensures forall i, j :: 0 <= i < j < |r| ==> r[i] != r[j]
  {
    if tasks == [] then []
    else
      var n := |tasks| - 1;
      var first := Once(tasks[..n]);
      assert forall t :: t in tasks <==> t in tasks[..n] || t == tasks[n];
      if tasks[n] in first then first else first + [tasks[n]]
  }

  function Conclude(p: Progress): Result<Plan, Error>
  {
    if p.inverse != [] then Ok(Plan(p.inverse, Once(p.refused)))
    else if p.refused == [] then Err(NothingToUndo)
    else Err(AllChanged(Once(p.refused)))
  }

  /** The operations that undo `ops` on the tasks as cached now, or why nothing is queued. */
  function UndoPlan(ops: seq<Op>, cache: Cache, id: string): Result<Plan, Error>
  {
    match After(ops, cache, id, |ops|)
    case Err(e) => Err(e)
    case Ok(p) => Conclude(p)
  }

  /** The loop itself: one pass over the operations, stopping at the first error. */
  method UndoCommand(ops: seq<Op>, cache: Cache, id: string) returns (r: Result<Plan, Error>)
    ensures r == UndoPlan(ops, cache, id)
  {
    var inverse: seq<NewOp>, refused: seq<string> := [], [];
    var leftAlone: set<string>, created: set<string> := {}, {};
    var i := 0;
    while i < |ops|
      invariant 0 <= i <= |ops|
      invariant After(ops, cache, id, i) == Ok(Progress(inverse, refused, leftAlone, created))
    {
      var row, op := ops[i], ops[i].op;
      i := i + 1;
      ghost var step := Step(Progress(inverse, refused, leftAlone, created), row, cache, id);
      assert After(ops, cache, id, i) == step;
      if op.task in created || row.state.Failed? { continue; }
      if row.state.Unknown? {
        ErrorStops(ops, cache, id, i, |ops|);
        return Err(OutcomeUnknown(op.id));
      }
      if row.state.Skipped? { continue; }
      if op.partOf.Some? && op.partOf.value in leftAlone {
        leftAlone := leftAlone + {op.id};
        continue;
      }
      if step.Err? { ErrorStops(ops, cache, id, i, |ops|); }
      if op.task !in cache { return Err(NotCached(op.task)); }
      var task := cache[op.task];
      match op.kind {
        case Delete =>
          if !task.deleted { return Err(ChangedSince(op.id)); }
          if row.rollback.None? { return Err(NoRecord(op.id)); }
          inverse := inverse + [Inverse(OpIdFor(id, |inverse|), op, row.rollback.value, task)];
        case Create(_) =>
          if task.deleted { return Err(ChangedSince(op.id)); }
          created := created + {op.task};
          inverse := inverse + [Inverse(OpIdFor(id, |inverse|), op, map[], task)];
        case _ =>
          if task.deleted { return Err(ChangedSince(op.id)); }
          var moved := FieldsNotHolding(op.body, Target(op, task));
          if moved != {} {
            refused := refused + [op.task];
            leftAlone := leftAlone + {op.id};
            continue;
          }
          if row.rollback.None? { return Err(NoRecord(op.id)); }
          inverse := inverse + [Inverse(OpIdFor(id, |inverse|), op, row.rollback.value, task)];
      }
    }
    r := Conclude(Progress(inverse, refused, leftAlone, created));
  }

  lemma {:induction false} ErrorStops(ops: seq<Op>, cache: Cache, id: string, m: nat, n: nat)
    requires m <= n <= |ops| && After(ops, cache, id, m).Err?
    ensures After(ops, cache, id, n) == After(ops, cache, id, m)
  {
    if m < n {
      ErrorStops(ops, cache, id, m, n - 1);
    }
  }
}
