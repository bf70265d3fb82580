/**
 Giving a task to someone, by name. An open task also gets the status
 `waitingOnOthers`, and a flag to say that ms-todo gave it; taking the name
 away takes back that status, and no other.
 */
module Assignment {
  import opened Entities
  import opened OpIds
  import opened Outbox

  const WAITING := "waitingOnOthers"
  const NOT_STARTED := "notStarted"
  const COMPLETED_STATUS := "completed"

  /** The writes to one task: extension fields, a new status, the flag. */
  datatype TaskPlan = TaskPlan(fields: Entity, status: Option<StatusEdit>, setsFlag: bool)

  /** The new status, and the one it is planned from. */
  datatype StatusEdit = StatusEdit(target: string, plannedFrom: string)

  datatype Change = Assign(name: string, keepStatus: bool) | Unassign(keepStatus: bool)

  function AssigneeOf(task: Task): Option<string>
  {
    match Get(task.extension, ASSIGNEE)
    case Text(name) => if Trim(name) == "" then None else Some(Trim(name))
    case _ => None
  }

  predicate FlagSet(task: Task)
  {
    Get(task.extension, STATUS_SET) == Flag(true)
  }

  function StatusOf(task: Task): string
  {
    match Get(task.raw, STATUS)
    case Text(status) => status
    case _ => NOT_STARTED
  }

  predicate IsCompleted(task: Task)
  {
    Get(task.raw, STATUS) == Text(COMPLETED_STATUS)
  }

  function SetPlan(task: Task, name: string, keepStatus: bool): Option<TaskPlan>
  {
    if AssigneeOf(task) == Some(name) then None
    else
      var now := StatusOf(task);
      var changes := !keepStatus && now != WAITING && !IsCompleted(task);
      Some(TaskPlan(map[ASSIGNEE := Text(name)],
                    if changes then Some(StatusEdit(WAITING, now)) else None,
                    changes && !FlagSet(task)))
  }

  function ClearPlan(task: Task, keepStatus: bool): Option<TaskPlan>
  {
    var fields: Entity := map f | f in {ASSIGNEE, STATUS_SET} && f in task.extension :: Null;
    if fields == map[] then None
    else
      var now := StatusOf(task);
      var restores := !keepStatus && FlagSet(task) && now == WAITING;
      Some(TaskPlan(fields, if restores then Some(StatusEdit(NOT_STARTED, now)) else None, false))
  }

  function PlanFor(task: Task, change: Change): Option<TaskPlan>
  {
    match change
    case Assign(name, keepStatus) => SetPlan(task, name, keepStatus)
    case Unassign(keepStatus) => ClearPlan(task, keepStatus)
  }

  /** Up to three operations, numbered from `first`: the name, the status and the flag. */
  function PlanOps(command: string, first: nat, task: string, plan: TaskPlan, action: Action): seq<NewOp>
  {
    var assignee := OpIdFor(command, first);
    var write := NewOp(assignee, task, Extension, action, plan.fields, None, None, None);
    if plan.status.None? then [write]
    else
      var edit := NewOp(OpIdFor(command, first + 1), task, Update, action,
                        map[STATUS := Text(plan.status.value.target)], Some(assignee), None,
                        Some(map[STATUS := Text(plan.status.value.plannedFrom)]));
      if !plan.setsFlag then [write, edit]
      else
        var flag := NewOp(OpIdFor(command, first + 2), task, Extension, action,
                          map[STATUS_SET := Flag(true)], Some(assignee), Some(edit.id), None);
        [write, edit, flag]
  }

  /** The same, pushed one by one and given their references as they are. */
  method PushPlanOps(command: string, first: nat, task: string, plan: TaskPlan, action: Action)
    returns (ops: seq<NewOp>)
    ensures ops == PlanOps(command, first, task, plan, action)
  {
    var assignee := OpIdFor(command, first);
    ops := [NewOp(assignee, task, Extension, action, plan.fields, None, None, None)];
    if plan.status.None? {
      return;
    }
    var edit := NewOp(OpIdFor(command, first + 1), task, Update, action,
                      map[STATUS := Text(plan.status.value.target)], None, None, None);
    edit := edit.(expected := Some(map[STATUS := Text(plan.status.value.plannedFrom)]));
    edit := edit.(partOf := Some(assignee));
    ops := ops + [edit];
    if plan.setsFlag {
      var flag := NewOp(OpIdFor(command, first + 2), task, Extension, action,
                        map[STATUS_SET := Flag(true)], None, None, None);
      flag := flag.(after := Some(edit.id), partOf := Some(assignee));
      ops := ops + [flag];
    }
  }

  /** What every plan keeps to, whatever the task. */
  ghost predicate Sound(plan: TaskPlan)
  {
    && plan.fields.Keys <= {ASSIGNEE, STATUS_SET}
    && (plan.status.Some? ==>
          && plan.status.value.plannedFrom != COMPLETED_STATUS
          && plan.status.value.target != COMPLETED_STATUS
          && plan.status.value.target != plan.status.value.plannedFrom)
    && (plan.setsFlag ==>
          && plan.status.Some? && plan.status.value.target == WAITING
          && plan.fields.Keys == {ASSIGNEE})
  }

  lemma PlansAreSound(task: Task, change: Change)
    requires PlanFor(task, change).Some?
    ensures Sound(PlanFor(task, change).value)
  {
  }

  /** `task` once every operation of `plan` is applied. */
  ghost function Planned(task: Task, plan: TaskPlan): Task
  {
    var status: Entity := if plan.status.Some? then map[STATUS := Text(plan.status.value.target)] else map[];
    var flag: Entity := if plan.setsFlag then map[STATUS_SET := Flag(true)] else map[];
    Task(Merge(task.raw, status), Merge(Merge(task.extension, plan.fields), flag), task.deleted)
  }

  /**
   Assigning and then clearing with nothing in between: the clear takes the
   status back to `notStarted` if the assignment set it, and otherwise exactly
   if the status was already ms-todo's own.
   */
  lemma AssignThenClear(task: Task, name: string, keepStatus: bool)
    requires SetPlan(task, name, keepStatus).Some?
    ensures ClearPlan(Planned(task, SetPlan(task, name, keepStatus).value), false).Some?
    ensures var plan := SetPlan(task, name, keepStatus).value;
            var cleared := ClearPlan(Planned(task, plan), false).value;
            && ASSIGNEE in cleared.fields
            && cleared.status == if plan.status.Some? || (FlagSet(task) && StatusOf(task) == WAITING)
                                 then Some(StatusEdit(NOT_STARTED, WAITING)) else None
  {
    AssignedFields(task, SetPlan(task, name, keepStatus).value);
    var planned := Planned(task, SetPlan(task, name, keepStatus).value);
    assert Get(planned.extension, ASSIGNEE) == Text(name);
    var fields: Entity := map f | f in {ASSIGNEE, STATUS_SET} && f in planned.extension :: Null;
    assert ASSIGNEE in fields;
  }

  lemma AssignedFields(task: Task, plan: TaskPlan)
    ensures Get(Planned(task, plan).extension, ASSIGNEE)
            == if ASSIGNEE in plan.fields then plan.fields[ASSIGNEE] else Get(task.extension, ASSIGNEE)
    ensures Get(Planned(task, plan).extension, STATUS_SET)
            == if plan.setsFlag then Flag(true)
               else if STATUS_SET in plan.fields then plan.fields[STATUS_SET] else Get(task.extension, STATUS_SET)
    ensures Get(Planned(task, plan).raw, STATUS)
            == if plan.status.Some? then Text(plan.status.value.target) else Get(task.raw, STATUS)
  {
    var status: Entity := if plan.status.Some? then map[STATUS := Text(plan.status.value.target)] else map[];
    var flag: Entity := if plan.setsFlag then map[STATUS_SET := Flag(true)] else map[];
    var named := Merge(task.extension, plan.fields);
    MergeReads(task.raw, status, STATUS);
    MergeReads(task.extension, plan.fields, ASSIGNEE);
    MergeReads(task.extension, plan.fields, STATUS_SET);
    MergeReads(named, flag, ASSIGNEE);
    MergeReads(named, flag, STATUS_SET);
  }
}
