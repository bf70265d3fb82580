/**
 What My Day commands send and make of the tasks: which days, due dates and
 flags, guarded by what.
 */
module MyDayOutcome {
  import opened Entities
  import opened Sequences
  import opened OpIds
  import opened Outbox
  import opened Planner
  import opened MyDay
  import Assignment

  // ----- What is asked of each field -----

  predicate InMyDay(task: Task, day: int)
  {
    Get(task.extension, MY_DAY) == Day(day)
  }

  /** It is due on the day whose My Day it is in, and ms-todo made it so. */
  predicate DueForMyDay(task: Task)
  {
    DueSet(task) && !Recurs(task) && Get(task.raw, DUE).Day? && Get(task.raw, DUE) == Get(task.extension, MY_DAY)
  }

  /** Added to today's My Day, it becomes due today: it has no due date, or one for an earlier My Day. */
  predicate BecomesDue(task: Task)
  {
    !Get(task.raw, DUE).Day? || DueForMyDay(task)
  }

  function AddAsks(task: Task, today: int, inExtension: bool, f: Key): Option<Value>
  {
    if InMyDay(task, today) then None
    else if inExtension && f == MY_DAY then Some(Day(today))
    else if inExtension && f == MY_DAY_DUE_SET then
      if BecomesDue(task) then Some(Flag(true))
      else if MY_DAY_DUE_SET in task.extension then Some(Null)
      else None
    else if !inExtension && f == DUE && BecomesDue(task) then Some(Day(today))
    else None
  }

  /** A task taken out that is not completed is no longer due, if it was for My Day alone. */
  function RemoveAsks(task: Task, inExtension: bool, f: Key): Option<Value>
  {
    if MY_DAY !in task.extension then None
    else if inExtension && f == MY_DAY then Some(Null)
    else if inExtension && f == MY_DAY_DUE_SET && MY_DAY_DUE_SET in task.extension then Some(Null)
    else if !inExtension && f == DUE && DueForMyDay(task) && !Assignment.IsCompleted(task) then Some(Null)
    else None
  }

  function MyDayAsks(task: Task, action: Outbox.Action, today: int, s: Slot): Option<Value>
  {
    if action.MyDayAdd? then AddAsks(task, today, s.inExtension, s.field) else RemoveAsks(task, s.inExtension, s.field)
  }

  // ----- The operations of one task -----

  lemma DayIs(v: Value, day: int)
    ensures DayOf(v) == Some(day) <==> v == Day(day)
  {
  }

  lemma DueForMyDayIs(task: Task)
    ensures DueForMyDay(task) <==>
            && DueSet(task) && !Recurs(task) && DayOf(Get(task.raw, DUE)).Some?
            && DayOf(Get(task.raw, DUE)) == DayOf(Get(task.extension, MY_DAY))
  {
  }

  /** What a plan's operations give the field `f`. */
  function PlanGives(task: Task, plan: TaskPlan, inExtension: bool, f: Key): Option<Value>
  {
    if !inExtension then
      if f == DUE && plan.due.Some? then Some(DueValue(plan.due.value)) else None
    else if SetsFlag(plan) && f == MY_DAY_DUE_SET then Some(Flag(true))
    else if f in FirstFields(task, plan) then Some(FirstFields(task, plan)[f])
    else None
  }

  lemma PlanSends(command: string, first: nat, id: string, task: Task, plan: TaskPlan, action: Outbox.Action, s: Slot)
    ensures SentAt(PlanOps(command, first, id, task, plan, action), s)
            == if s.task == id then PlanGives(task, plan, s.inExtension, s.field) else None
  {
    SentByThree(PlanOps(command, first, id, task, plan, action), s);
  }

  lemma AddGives(task: Task, today: int, inExtension: bool, f: Key)
    ensures (if AddPlan(task, today).Some? then PlanGives(task, AddPlan(task, today).value, inExtension, f) else None)
            == AddAsks(task, today, inExtension, f)
  {
    DayIs(Get(task.extension, MY_DAY), today);
    DueForMyDayIs(task);
  }

  lemma RemoveGives(task: Task, inExtension: bool, f: Key)
    requires MY_DAY in task.extension ==> task.extension[MY_DAY] != Null
    ensures (if RemovePlan(task).Some? then PlanGives(task, RemovePlan(task).value, inExtension, f) else None)
            == RemoveAsks(task, inExtension, f)
  {
    DueForMyDayIs(task);
  }

  lemma TaskSends(
    ops: seq<NewOp>, command: string, id: string, task: Task, action: Outbox.Action, today: int, s: Slot)
    requires action in {MyDayAdd, MyDayRemove} && Clean(task.extension)
    requires s.task == id ==> SentAt(ops, s).None?
    ensures SentAt(MyDay.PushTask(ops, command, id, task, action, today), s)
            == if s.task == id then MyDayAsks(task, action, today, s) else SentAt(ops, s)
  {
    AddGives(task, today, s.inExtension, s.field);
    RemoveGives(task, s.inExtension, s.field);
    var plan := MyDay.PlanFor(task, action, today);
    if plan.Some? {
      SentConcat(ops, PlanOps(command, |ops|, id, task, plan.value, action), s);
      PlanSends(command, |ops|, id, task, plan.value, action, s);
    }
  }

  // ----- The whole command -----

  function Asked(from: Cache, targets: seq<string>, action: Outbox.Action, today: int, s: Slot): Option<Value>
  {
    if s.task in targets && s.task in from then MyDayAsks(from[s.task], action, today, s) else None
  }

  /** A My Day command gives every field of every task exactly the value asked of it. */
  lemma SendsWhatIsAsked(
    command: string, from: Cache, targets: seq<string>, action: Outbox.Action, today: int, s: Slot)
    requires (forall t :: t in targets ==> t in from) && Distinct(targets) && action in {MyDayAdd, MyDayRemove}
    requires CleanCache(from)
    ensures SentAt(CommandOps(command, from, targets, action, today, |targets|), s) == Asked(from, targets, action, today, s)
  {
    var inv := (k: nat, some: seq<NewOp>) => k <= |targets| && SentAt(some, s) == Asked(from, targets[..k], action, today, s);
    forall k, some | 0 <= k < |targets| ensures MyDay.Carries(inv, command, from, targets, action, today, k, some) {
      if inv(k, some) {
        assert targets[..k + 1] == targets[..k] + [targets[k]] && targets[k] !in targets[..k];
        TaskSends(some, command, targets[k], from[targets[k]], action, today, s);
      }
    }
    assert SentAt([], s) == None && Asked(from, targets[..0], action, today, s) == None;
    assert inv(0, []);
    MyDay.OpsInduction(inv, command, from, targets, action, today, |targets|);
    assert targets[..|targets|] == targets;
  }

  /** So each task is in My Day or not, due today or not, and flagged or not, as asked, and else as it was. */
  lemma MyDayMeans(
    command: string, from: Cache, targets: seq<string>, action: Outbox.Action, today: int, ops: seq<NewOp>, cache: Cache,
    s: Slot)
    requires (forall t :: t in targets ==> t in from && t in cache) && Distinct(targets) && CleanCache(from)
    requires action in {MyDayAdd, MyDayRemove} && ops == CommandOps(command, from, targets, action, today, |targets|)
    ensures Cached(cache, ops)
    ensures At(ApplyAll(cache, ops), s)
            == if Asked(from, targets, action, today, s).Some? then Asked(from, targets, action, today, s).value
               else At(cache, s)
  {
    OpsArePlain(command, from, targets, action, today, |targets|);
    assert targets[..|targets|] == targets;
    SendsWhatIsAsked(command, from, targets, action, today, s);
    SentLands(cache, ops, s);
  }

  // ----- How the operations hang together -----

  predicate FlagsDue(op: NewOp)
  {
    op.kind.Extension? && op.body == map[MY_DAY_DUE_SET := Flag(true)]
  }

  function DueAsRead(task: Task): Value
  {
    if Get(task.raw, DUE).Day? then Get(task.raw, DUE) else Null
  }

  ghost predicate WaitsForDue(ops: seq<NewOp>, i: nat, j: nat)
  {
    i < j < |ops| && ops[i].kind.Update? && ops[i].task == ops[j].task && ops[j].after == Some(ops[i].id)
  }

  /** A due date is changed only from the one the task was read with, and its flag waits for that; nothing else does either. */
  ghost predicate HangsTogether(ops: seq<NewOp>, from: Cache, action: Outbox.Action, j: nat)
    requires j < |ops|
  {
    var op := ops[j];
    && op.task in from && op.action == action && op.partOf.None?
    && op.expected == (if op.kind.Update? then Some(map[DUE := DueAsRead(from[op.task])]) else None)
    && (if FlagsDue(op) then exists i :: WaitsForDue(ops, i, j) else op.after.None?)
  }

  ghost predicate AllHang(ops: seq<NewOp>, from: Cache, action: Outbox.Action)
  {
    forall j :: 0 <= j < |ops| ==> HangsTogether(ops, from, action, j)
  }

  lemma PushHangs(ops: seq<NewOp>, op: NewOp, from: Cache, action: Outbox.Action)
    requires AllHang(ops, from, action) && HangsTogether(ops + [op], from, action, |ops|)
    ensures AllHang(ops + [op], from, action)
  {
    var more := ops + [op];
    forall j | 0 <= j < |more| ensures HangsTogether(more, from, action, j) {
      if j < |ops| {
        assert more[j] == ops[j] && HangsTogether(ops, from, action, j);
        if i :| WaitsForDue(ops, i, j) {
          assert WaitsForDue(more, i, j);
        }
      }
    }
  }

  lemma PlanHangs(
    ops: seq<NewOp>, command: string, id: string, from: Cache, plan: TaskPlan, action: Outbox.Action)
    requires AllHang(ops, from, action) && id in from && MY_DAY in FirstFields(from[id], plan)
    ensures AllHang(ops + PlanOps(command, |ops|, id, from[id], plan, action), from, action)
  {
    var parts := PlanOps(command, |ops|, id, from[id], plan, action);
    var one := ops + [parts[0]];
    assert MY_DAY in parts[0].body && !FlagsDue(parts[0]);
    PushHangs(ops, parts[0], from, action);
    MyDay.Joined(ops, parts);
    if |parts| > 1 {
      PushHangs(one, parts[1], from, action);
    }
    if |parts| > 2 {
      assert WaitsForDue(one + [parts[1]] + [parts[2]], |ops| + 1, |ops| + 2);
      PushHangs(one + [parts[1]], parts[2], from, action);
    }
  }

  lemma MyDayIsWritten(task: Task, action: Outbox.Action, today: int)
    requires MyDay.PlanFor(task, action, today).Some?
    ensures MY_DAY in FirstFields(task, MyDay.PlanFor(task, action, today).value)
  {
  }

  lemma CommandsHangTogether(
    command: string, from: Cache, targets: seq<string>, action: Outbox.Action, today: int, j: nat)
    requires (forall t :: t in targets ==> t in from)
    requires j < |CommandOps(command, from, targets, action, today, |targets|)|
    ensures HangsTogether(CommandOps(command, from, targets, action, today, |targets|), from, action, j)
  {
    var inv := (k: nat, some: seq<NewOp>) => AllHang(some, from, action);
    forall k, some | 0 <= k < |targets| ensures MyDay.Carries(inv, command, from, targets, action, today, k, some) {
      var id := targets[k];
      if inv(k, some) && MyDay.PlanFor(from[id], action, today).Some? {
        MyDayIsWritten(from[id], action, today);
        PlanHangs(some, command, id, from, MyDay.PlanFor(from[id], action, today).value, action);
      }
    }
    assert AllHang([], from, action);
    assert inv(0, []);
    MyDay.OpsInduction(inv, command, from, targets, action, today, |targets|);
  }
}
