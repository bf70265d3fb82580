/**
 My Day: `myDay` in our extension, with a due date of its own while ms-todo
 set it, which `myDayDueSet` says. Its plans are where one command can write
 the same field twice.
 */
module MyDay {
  import opened Entities
  import opened OpIds
  import opened Outbox
  import opened Undo
  import opened Sequences
  import opened Planner
  import opened UndoSafety
  import UndoRuns
  import Assignment

  /** The extension fields, and the new due date if it changes. */
  datatype TaskPlan = TaskPlan(fields: Entity, due: Option<Option<int>>)

  function DayOf(v: Value): Option<int>
  {
    match v
    case Day(day) => Some(day)
    case _ => None
  }

  predicate DueSet(task: Task)
  {
    Get(task.extension, MY_DAY_DUE_SET) == Flag(true)
  }

  predicate Recurs(task: Task)
  {
    Get(task.raw, RECURRENCE).Repeats?
  }

  /** Unless it has a due date that isn't ms-todo's, from an earlier day, the task becomes due today. */
  function AddPlan(task: Task, today: int): Option<TaskPlan>
  {
    var current, due := DayOf(Get(task.extension, MY_DAY)), DayOf(Get(task.raw, DUE));
    if current == Some(today) then None
    else
      var ours := DueSet(task) && due.Some? && due == current && !Recurs(task);
      var fields: Entity := map[MY_DAY := Day(today)];
      Some(if due.None? || ours then
             TaskPlan(fields[MY_DAY_DUE_SET := Flag(true)], Some(Some(today)))
           else if MY_DAY_DUE_SET in task.extension then
             TaskPlan(fields[MY_DAY_DUE_SET := Null], None)
           else
             TaskPlan(fields, None))
  }

  /** A due date that is ms-todo's, on an open task that doesn't repeat and is still due that day, is cleared with it. */
  function RemovePlan(task: Task): Option<TaskPlan>
  {
    if MY_DAY !in task.extension then None
    else
      var day, due := DayOf(task.extension[MY_DAY]), DayOf(Get(task.raw, DUE));
      var fields: Entity := map[MY_DAY := Null];
      var clears := DueSet(task) && !Assignment.IsCompleted(task) && !Recurs(task) && day.Some? && due == day;
      Some(TaskPlan(if MY_DAY_DUE_SET in task.extension then fields[MY_DAY_DUE_SET := Null] else fields,
                    if clears then Some(None) else None))
  }

  predicate SetsFlag(plan: TaskPlan)
  {
    Get(plan.fields, MY_DAY_DUE_SET) == Flag(true) && plan.due.Some?
  }

  function DueValue(due: Option<int>): Value
  {
    if due.Some? then Day(due.value) else Null
  }

  /** What the extension write sends: the flag, when it is to be set, waits for the due date, and is taken out till then. */
  function FirstFields(task: Task, plan: TaskPlan): Entity
  {
    if !SetsFlag(plan) then plan.fields
    else if MY_DAY_DUE_SET in task.extension then plan.fields[MY_DAY_DUE_SET := Null]
    else plan.fields - {MY_DAY_DUE_SET}
  }

  /** Up to three operations: the day, the due date, and the flag, sent only after the due date. */
  function PlanOps(command: string, first: nat, id: string, task: Task, plan: TaskPlan, action: Outbox.Action)
    : seq<NewOp>
  {
    var write := Write(OpIdFor(command, first), id, Extension, action, FirstFields(task, plan));
    if plan.due.None? then [write]
    else
      var edit := Write(OpIdFor(command, first + 1), id, Update, action, map[DUE := DueValue(plan.due.value)])
                  .(expected := Some(map[DUE := DueValue(DayOf(Get(task.raw, DUE)))]));
      if !SetsFlag(plan) then [write, edit]
      else
        [write, edit,
         Write(OpIdFor(command, first + 2), id, Extension, action, map[MY_DAY_DUE_SET := Flag(true)])
         .(after := Some(edit.id))]
  }

  function PlanFor(task: Task, action: Outbox.Action, today: int): Option<TaskPlan>
  {
    if action.MyDayAdd? then AddPlan(task, today) else RemovePlan(task)
  }

  /** The plan writes the flag twice: adding a task that has the flag, and making it due today. */
  predicate FlagTwice(task: Task, plan: TaskPlan)
  {
    SetsFlag(plan) && MY_DAY_DUE_SET in task.extension
  }

  /** Such a task, read like this. */
  predicate Twice(task: Task, action: Outbox.Action, today: int)
  {
    PlanFor(task, action, today).Some? && FlagTwice(task, PlanFor(task, action, today).value)
  }

  // ----- One command for any tasks -----

  /** `ops` with those of one more task; one already where it is asked to be has none. */
  function PushTask(
    ops: seq<NewOp>, command: string, id: string, task: Task, action: Outbox.Action, today: int): seq<NewOp>
  {
    match PlanFor(task, action, today)
    case None => ops
    case Some(plan) => ops + PlanOps(command, |ops|, id, task, plan, action)
  }

  /** The operations of the first `n` targets. */
  function CommandOps(
    command: string, from: Cache, targets: seq<string>, action: Outbox.Action, today: int, n: nat): seq<NewOp>
    requires n <= |targets| && forall t :: t in targets ==> t in from
  {
    if n == 0 then []
    else
      var ops := CommandOps(command, from, targets, action, today, n - 1);
      PushTask(ops, command, targets[n - 1], from[targets[n - 1]], action, today)
  }

  method Change(command: string, from: Cache, targets: seq<string>, action: Outbox.Action, today: int)
    returns (ops: seq<NewOp>)
    requires forall t :: t in targets ==> t in from
    ensures ops == CommandOps(command, from, targets, action, today, |targets|)
  {
    ops := [];
    for i := 0 to |targets|
      invariant ops == CommandOps(command, from, targets, action, today, i)
    {
      var task := from[targets[i]];
      var plan := PlanFor(task, action, today);
      if plan.Some? {
        var more := PlanOps(command, |ops|, targets[i], task, plan.value, action);
        ops := ops + more;
      }
    }
  }

  /** One more task keeps `inv`, which is about the operations so far and how many tasks they are for. */
  ghost predicate Carries(
    inv: (nat, seq<NewOp>) -> bool, command: string, from: Cache, targets: seq<string>, action: Outbox.Action, today: int,
    k: nat, ops: seq<NewOp>)
    requires k < |targets| && forall t :: t in targets ==> t in from
  {
    inv(k, ops) ==> inv(k + 1, PushTask(ops, command, targets[k], from[targets[k]], action, today))
  }

  lemma {:induction false} OpsInduction(
    inv: (nat, seq<NewOp>) -> bool, command: string, from: Cache, targets: seq<string>, action: Outbox.Action, today: int,
    n: nat)
    requires n <= |targets| && (forall t :: t in targets ==> t in from) && inv(0, [])
    requires forall k, some :: 0 <= k < |targets| ==> Carries(inv, command, from, targets, action, today, k, some)
    ensures inv(n, CommandOps(command, from, targets, action, today, n))
  {
    if n > 0 {
      OpsInduction(inv, command, from, targets, action, today, n - 1);
      assert Carries(inv, command, from, targets, action, today, n - 1,
                     CommandOps(command, from, targets, action, today, n - 1));
    }
  }

  ghost predicate Part(op: NewOp, command: string, n: nat, id: string)
  {
    op.id == OpIdFor(command, n) && op.task == id && op.partOf.None? && op.action in {MyDayAdd, MyDayRemove}
  }

  /** What one task adds: the extension write, then perhaps the due date, then perhaps the flag. */
  ghost predicate Parts(command: string, first: nat, id: string, parts: seq<NewOp>)
  {
    && 0 < |parts| <= 3
    && Part(parts[0], command, first, id)
    && parts[0].kind.Extension? && parts[0].after.None? && parts[0].body.Keys <= {MY_DAY, MY_DAY_DUE_SET}
    && (|parts| > 1 ==>
          && Part(parts[1], command, first + 1, id)
          && parts[1].kind.Update? && parts[1].after.None? && parts[1].body.Keys == {DUE})
    && (|parts| > 2 ==>
          && Part(parts[2], command, first + 2, id)
          && parts[2].kind.Extension? && parts[2].after == Some(parts[1].id) && parts[2].body.Keys == {MY_DAY_DUE_SET})
  }

  /** No two of them have a field in common, unless the flag is written twice. */
  ghost predicate Apart(parts: seq<NewOp>)
  {
    |parts| > 2 ==> MY_DAY_DUE_SET !in parts[0].body
  }

  lemma PlanKeys(task: Task, action: Outbox.Action, today: int)
    requires PlanFor(task, action, today).Some?
    ensures var plan := PlanFor(task, action, today).value;
            && FirstFields(task, plan).Keys <= {MY_DAY, MY_DAY_DUE_SET}
            && (SetsFlag(plan) ==> (MY_DAY_DUE_SET in FirstFields(task, plan) <==> FlagTwice(task, plan)))
  {
  }

  lemma PlanParts(command: string, first: nat, id: string, task: Task, action: Outbox.Action, today: int, plan: TaskPlan)
    requires action in {MyDayAdd, MyDayRemove} && FirstFields(task, plan).Keys <= {MY_DAY, MY_DAY_DUE_SET}
    ensures Parts(command, first, id, PlanOps(command, first, id, task, plan, action))
    ensures |PlanOps(command, first, id, task, plan, action)| > 2 <==> SetsFlag(plan)
    ensures PlanOps(command, first, id, task, plan, action)[0].body == FirstFields(task, plan)
  {
  }

  /** What pushing one more task adds, if anything. */
  lemma Pushed(ops: seq<NewOp>, command: string, id: string, task: Task, action: Outbox.Action, today: int)
    returns (parts: seq<NewOp>)
    requires action in {MyDayAdd, MyDayRemove}
    ensures PushTask(ops, command, id, task, action, today) == ops + parts
    ensures parts != [] ==> Parts(command, |ops|, id, parts) && (Apart(parts) <==> !Twice(task, action, today))
  {
    parts := [];
    if PlanFor(task, action, today).Some? {
      var plan := PlanFor(task, action, today).value;
      PlanKeys(task, action, today);
      PlanParts(command, |ops|, id, task, action, today, plan);
      parts := PlanOps(command, |ops|, id, task, plan, action);
    }
  }

  lemma Joined(ops: seq<NewOp>, parts: seq<NewOp>)
    requires 0 < |parts| <= 3
    ensures |parts| == 1 ==> ops + parts == ops + [parts[0]]
    ensures |parts| == 2 ==> ops + parts == ops + [parts[0]] + [parts[1]]
    ensures |parts| == 3 ==> ops + parts == ops + [parts[0]] + [parts[1]] + [parts[2]]
  {
  }

  lemma PartsNumbered(command: string, ops: seq<NewOp>, id: string, parts: seq<NewOp>)
    requires Numbered(command, ops) && Parts(command, |ops|, id, parts)
    ensures Numbered(command, ops + parts)
  {
    var one := ops + [parts[0]];
    PushNumbers(command, ops, parts[0]);
    if |parts| > 1 {
      PushNumbers(command, one, parts[1]);
    }
    if |parts| > 2 {
      NamesEarlier(one + [parts[1]], parts[2], |one|);
      PushNumbers(command, one + [parts[1]], parts[2]);
    }
    Joined(ops, parts);
  }

  lemma PartsTidy(command: string, ops: seq<NewOp>, id: string, parts: seq<NewOp>)
    requires Tidy(command, ops, id, {}, {}) && Parts(command, |ops|, id, parts) && Apart(parts)
    ensures WellFormed(command, ops + parts)
  {
    var one := ops + [parts[0]];
    PushKeeps(command, ops, parts[0], {}, {});
    if |parts| > 1 {
      PushKeeps(command, one, parts[1], {}, parts[0].body.Keys);
    }
    if |parts| > 2 {
      NamesEarlier(one + [parts[1]], parts[2], |one|);
      PushKeeps(command, one + [parts[1]], parts[2], {DUE}, parts[0].body.Keys);
    }
    Joined(ops, parts);
  }

  /** Field operations on the targets, none of which touches a reminder. */
  ghost predicate Plain(ops: seq<NewOp>, targets: seq<string>)
  {
    && AllFieldOps(ops) && OnTasks(ops, targets)
    && forall k :: 0 <= k < |ops| ==>
         ops[k].partOf.None? && REMINDER !in ops[k].body && !ops[k].action.Complete? && !ops[k].action.Reopen?
  }

  lemma PartsPlain(command: string, ops: seq<NewOp>, targets: seq<string>, n: nat, parts: seq<NewOp>)
    requires n < |targets| && Plain(ops, targets[..n])
    requires parts != [] ==> Parts(command, |ops|, targets[n], parts)
    ensures Plain(ops + parts, targets[..n + 1])
  {
    OnOneMore(ops, targets, n);
    PlainParts(command, |ops|, targets[n], parts, targets[..n + 1]);
  }

  lemma PlainParts(command: string, first: nat, id: string, parts: seq<NewOp>, targets: seq<string>)
    requires (parts != [] ==> Parts(command, first, id, parts)) && id in targets
    ensures Plain(parts, targets)
  {
  }

  /** Whatever the tasks: IDs in order, references back, field operations on the targets. */
  lemma OpsArePlain(
    command: string, from: Cache, targets: seq<string>, action: Outbox.Action, today: int, n: nat)
    requires n <= |targets| && (forall t :: t in targets ==> t in from) && action in {MyDayAdd, MyDayRemove}
    ensures Numbered(command, CommandOps(command, from, targets, action, today, n))
    ensures Plain(CommandOps(command, from, targets, action, today, n), targets[..n])
  {
    var inv := (k: nat, some: seq<NewOp>) => k <= |targets| && Numbered(command, some) && Plain(some, targets[..k]);
    forall k, some | 0 <= k < |targets| ensures Carries(inv, command, from, targets, action, today, k, some) {
      if inv(k, some) {
        var parts := Pushed(some, command, targets[k], from[targets[k]], action, today);
        PartsPlain(command, some, targets, k, parts);
        if parts == [] {
          assert some + parts == some;
        } else {
          PartsNumbered(command, some, targets[k], parts);
        }
      }
    }
    assert Numbered(command, []) && Plain([], targets[..0]);
    assert inv(0, []);
    OpsInduction(inv, command, from, targets, action, today, n);
  }

  lemma OpsRefer(command: string, from: Cache, targets: seq<string>, action: Outbox.Action, today: int)
    requires (forall t :: t in targets ==> t in from) && action in {MyDayAdd, MyDayRemove}
    ensures RefsInOrder(CommandOps(command, from, targets, action, today, |targets|))
  {
    OpsArePlain(command, from, targets, action, today, |targets|);
    NumberedRefs(command, CommandOps(command, from, targets, action, today, |targets|));
  }

  /** And no field in common, if no task has its flag written twice. */
  lemma OpsApart(
    command: string, from: Cache, targets: seq<string>, action: Outbox.Action, today: int)
    requires (forall t :: t in targets ==> t in from) && action in {MyDayAdd, MyDayRemove}
    requires Distinct(targets) && forall t :: t in targets ==> !Twice(from[t], action, today)
    ensures WellFormed(command, CommandOps(command, from, targets, action, today, |targets|))
  {
    var inv := (k: nat, some: seq<NewOp>) => k <= |targets| && WellFormed(command, some) && Plain(some, targets[..k]);
    forall k, some | 0 <= k < |targets| ensures Carries(inv, command, from, targets, action, today, k, some) {
      if inv(k, some) {
        var parts := Pushed(some, command, targets[k], from[targets[k]], action, today);
        PartsPlain(command, some, targets, k, parts);
        if parts == [] {
          assert some + parts == some;
        } else {
          NewTaskIsTidy(command, some, targets, k);
          PartsTidy(command, some, targets[k], parts);
        }
      }
    }
    assert WellFormed(command, []) && Plain([], targets[..0]);
    assert inv(0, []);
    OpsInduction(inv, command, from, targets, action, today, |targets|);
  }

  /** Read in `from`, queued on `cache`: a command `UndoRuns` takes back. */
  lemma OpsArePlanned(
    command: string, from: Cache, cache: Cache, targets: seq<string>, action: Outbox.Action, today: int,
    ops: seq<NewOp>)
    requires (forall t :: t in targets ==> t in from && !Twice(from[t], action, today)) && Distinct(targets)
    requires action in {MyDayAdd, MyDayRemove} && ops == CommandOps(command, from, targets, action, today, |targets|)
    requires CleanCache(cache) && forall t :: t in targets ==> t in cache && !cache[t].deleted
    ensures UndoRuns.Planned(cache, ops) && Plain(ops, targets)
  {
    OpsArePlain(command, from, targets, action, today, |targets|);
    OpsApart(command, from, targets, action, today);
    assert targets[..|targets|] == targets;
  }

  // ----- Undone straight after -----

  ghost predicate AllLive(ops: seq<NewOp>, cache: Cache)
  {
    forall i :: 0 <= i < |ops| ==> ops[i].task in cache && !cache[ops[i].task].deleted
  }

  lemma OnceIsTakenBack(
    command: string, from: Cache, cache: Cache, targets: seq<string>, action: Outbox.Action, today: int,
    ops: seq<NewOp>, undo: string)
    requires (forall t :: t in targets ==> t in from && t in cache && !Twice(from[t], action, today)) && Distinct(targets)
    requires action in {MyDayAdd, MyDayRemove} && CleanCache(cache)
    requires ops == CommandOps(command, from, targets, action, today, |targets|) && ops != []
    ensures Cached(cache, ops)
    ensures UndoRuns.TakenBack(cache, ops, undo) <==> AllLive(ops, cache)
  {
    OpsArePlain(command, from, targets, action, today, |targets|);
    OpsApart(command, from, targets, action, today);
    NumberedRefs(command, ops);
    assert targets[..|targets|] == targets;
    UndoRuns.TakenBackExactly(cache, ops, undo);
  }

  /** An undo straight after taking tasks out of My Day puts them back, due dates and flags with them, if they are live. */
  lemma RemoveThenUndo(
    command: string, from: Cache, cache: Cache, targets: seq<string>, today: int, ops: seq<NewOp>, undo: string)
    requires (forall t :: t in targets ==> t in from && t in cache) && Distinct(targets) && CleanCache(cache)
    requires ops == CommandOps(command, from, targets, MyDayRemove, today, |targets|) && ops != []
    ensures Cached(cache, ops)
    ensures UndoRuns.TakenBack(cache, ops, undo) <==> AllLive(ops, cache)
  {
    OnceIsTakenBack(command, from, cache, targets, MyDayRemove, today, ops, undo);
  }

  /**
   An undo straight after adding tasks to My Day puts them back exactly when
   they are live and the add wrote no task's flag twice.
   */
  lemma AddThenUndo(
    command: string, from: Cache, cache: Cache, targets: seq<string>, today: int, ops: seq<NewOp>, undo: string)
    requires (forall t :: t in targets ==> t in from && t in cache) && Distinct(targets) && CleanCache(cache)
    requires ops == CommandOps(command, from, targets, MyDayAdd, today, |targets|) && ops != []
    ensures Cached(cache, ops)
    ensures UndoRuns.TakenBack(cache, ops, undo) <==>
            AllLive(ops, cache) && forall t :: t in targets ==> !Twice(from[t], MyDayAdd, today)
  {
    OpsArePlain(command, from, targets, MyDayAdd, today, |targets|);
    assert targets[..|targets|] == targets;
    if k :| 0 <= k < |targets| && Twice(from[targets[k]], MyDayAdd, today) {
      NumberedRefs(command, ops);
      if AllLive(ops, cache) {
        TwiceIsRefused(command, from, cache, targets, today, ops, undo, k);
      } else {
        var i :| 0 <= i < |ops| && cache[ops[i].task].deleted;
        UndoRuns.DeletedStaysOut(cache, ops, undo, i);
      }
    } else {
      OnceIsTakenBack(command, from, cache, targets, MyDayAdd, today, ops, undo);
    }
  }

  /** The operations from `i` on write the flag of `id` twice, and no other operation is on it. */
  ghost predicate WritesTwice(ops: seq<NewOp>, i: nat, id: string, today: int)
  {
    && i + 2 < |ops| && (forall k :: 0 <= k < |ops| && ops[k].task == id <==> i <= k <= i + 2)
    && ops[i].kind.Extension? && ops[i].body == map[MY_DAY := Day(today), MY_DAY_DUE_SET := Null]
    && ops[i + 1].kind.Update? && ops[i + 1].body == map[DUE := Day(today)]
    && ops[i + 2].kind.Extension? && ops[i + 2].body == map[MY_DAY_DUE_SET := Flag(true)]
  }

  lemma TwicePushed(ops: seq<NewOp>, command: string, id: string, task: Task, today: int)
    requires Twice(task, MyDayAdd, today) && forall k :: 0 <= k < |ops| ==> ops[k].task != id
    ensures WritesTwice(PushTask(ops, command, id, task, MyDayAdd, today), |ops|, id, today)
  {
    var plan := AddPlan(task, today).value;
    assert FirstFields(task, plan) == map[MY_DAY := Day(today), MY_DAY_DUE_SET := Null];
    var parts := PlanOps(command, |ops|, id, task, plan, MyDayAdd);
    assert |parts| == 3 && forall k :: 0 <= k < 3 ==> parts[k].task == id;
  }

  lemma TwiceKept(ops: seq<NewOp>, more: seq<NewOp>, i: nat, id: string, today: int)
    requires WritesTwice(ops, i, id, today) && forall k :: 0 <= k < |more| ==> more[k].task != id
    ensures WritesTwice(ops + more, i, id, today)
  {
  }

  /** Once the task at `k` is pushed, its flag is written twice; `some` are the operations of the first `n` targets. */
  ghost predicate TwiceSince(some: seq<NewOp>, targets: seq<string>, n: nat, k: nat, today: int)
  {
    && k < |targets| && n <= |targets| && Plain(some, targets[..n])
    && (k < n ==> exists i :: WritesTwice(some, i, targets[k], today))
  }

  lemma TwiceCarries(
    command: string, from: Cache, targets: seq<string>, today: int, n: nat, k: nat, some: seq<NewOp>)
    requires n < |targets| && (forall t :: t in targets ==> t in from) && Distinct(targets)
    requires TwiceSince(some, targets, n, k, today) && Twice(from[targets[k]], MyDayAdd, today)
    ensures TwiceSince(PushTask(some, command, targets[n], from[targets[n]], MyDayAdd, today), targets, n + 1, k, today)
  {
    var id := targets[n];
    var parts := Pushed(some, command, id, from[id], MyDayAdd, today);
    PartsPlain(command, some, targets, n, parts);
    if k == n {
      assert id !in targets[..n];
      TwicePushed(some, command, id, from[id], today);
    } else if k < n {
      var i :| WritesTwice(some, i, targets[k], today);
      TwiceKept(some, parts, i, targets[k], today);
    }
  }

  lemma TwiceAt(command: string, from: Cache, targets: seq<string>, today: int, k: nat) returns (i: nat)
    requires k < |targets| && (forall t :: t in targets ==> t in from) && Distinct(targets)
    requires Twice(from[targets[k]], MyDayAdd, today)
    ensures WritesTwice(CommandOps(command, from, targets, MyDayAdd, today, |targets|), i, targets[k], today)
  {
    var inv := (n: nat, some: seq<NewOp>) => TwiceSince(some, targets, n, k, today);
    forall n, some | 0 <= n < |targets| ensures Carries(inv, command, from, targets, MyDayAdd, today, n, some) {
      if inv(n, some) {
        TwiceCarries(command, from, targets, today, n, k, some);
      }
    }
    assert Plain([], targets[..0]);
    assert inv(0, []);
    OpsInduction(inv, command, from, targets, MyDayAdd, today, |targets|);
    i :| WritesTwice(CommandOps(command, from, targets, MyDayAdd, today, |targets|), i, targets[k], today);
  }

  /** An undo of `ops` straight after them reports the task and leaves it in today's My Day. */
  ghost predicate StaysInMyDay(cache: Cache, ops: seq<NewOp>, undo: string, id: string, today: int)
    requires Cached(cache, ops)
  {
    var to := ApplyAll(cache, ops);
    var undone := UndoPlan(Queue(cache, ops), to, undo);
    && undone.Ok? && Cached(to, undone.value.inverse) && id in undone.value.refused
    && At(ApplyAll(to, undone.value.inverse), Slot(id, true, MY_DAY)) == Day(today)
  }

  /** Each task whose flag is written twice is reported, and stays in today's My Day. */
  lemma TwiceIsRefused(
    command: string, from: Cache, cache: Cache, targets: seq<string>, today: int, ops: seq<NewOp>, undo: string, k: nat)
    requires (forall t :: t in targets ==> t in from && t in cache) && Distinct(targets) && CleanCache(cache)
    requires ops == CommandOps(command, from, targets, MyDayAdd, today, |targets|) && AllLive(ops, cache)
    requires k < |targets| && Twice(from[targets[k]], MyDayAdd, today)
    ensures Cached(cache, ops) && StaysInMyDay(cache, ops, undo, targets[k], today)
  {
    OpsArePlain(command, from, targets, MyDayAdd, today, |targets|);
    NumberedRefs(command, ops);
    assert targets[..|targets|] == targets;
    var i := TwiceAt(command, from, targets, today, k);
    TwiceUndone(cache, ops, undo, targets, i, targets[k], today);
  }

  lemma TwiceUndone(
    cache: Cache, ops: seq<NewOp>, undo: string, targets: seq<string>, i: nat, id: string, today: int)
    requires CleanCache(cache) && AllLive(ops, cache) && Plain(ops, targets) && RefsInOrder(ops)
    requires WritesTwice(ops, i, id, today)
    ensures Cached(cache, ops) && StaysInMyDay(cache, ops, undo, id, today)
  {
    QueuedLands(cache, ops, targets);
    TwiceLands(cache, ops, i, id, today);
    TwiceRefused(Queue(cache, ops), ops, ApplyAll(cache, ops), undo, i, id, today);
  }

  lemma TwiceRefused(rows: seq<Op>, ops: seq<NewOp>, to: Cache, undo: string, i: nat, id: string, today: int)
    requires Landed(rows, to) && Sent(rows) == ops && WritesTwice(ops, i, id, today) && id in to
    requires Holds(ops[i + 1].body, to[id].raw) && !Holds(ops[i].body, to[id].extension)
    requires Get(to[id].extension, MY_DAY) == Day(today)
    ensures UndoPlan(rows, to, undo).Ok? && id in UndoPlan(rows, to, undo).value.refused
    ensures Cached(to, UndoPlan(rows, to, undo).value.inverse)
    ensures At(ApplyAll(to, UndoPlan(rows, to, undo).value.inverse), Slot(id, true, MY_DAY)) == Day(today)
  {
    assert rows[i].op == ops[i] && rows[i + 1].op == ops[i + 1];
    FirstIsRefused(rows, to, undo, i, id);
    FirstStays(rows, to, undo, i, id, today);
  }

  lemma QueuedLands(cache: Cache, ops: seq<NewOp>, targets: seq<string>)
    requires AllLive(ops, cache) && Plain(ops, targets) && RefsInOrder(ops)
    ensures Cached(cache, ops) && Sent(Queue(cache, ops)) == ops && Landed(Queue(cache, ops), ApplyAll(cache, ops))
  {
    var rows, to := Queue(cache, ops), ApplyAll(cache, ops);
    FieldOpsKeepLife(cache, ops, |ops|);
    assert Sent(rows) == ops;
    forall k | 0 <= k < |rows| ensures LandedRow(rows[k], to) {
      assert rows[k] == Op(ops[k], Before(ops[k], ApplyFirst(cache, ops, k)[ops[k].task]), Pending);
    }
  }

  lemma TwiceLands(cache: Cache, ops: seq<NewOp>, i: nat, id: string, today: int)
    requires Cached(cache, ops) && AllFieldOps(ops) && WritesTwice(ops, i, id, today)
    ensures var to := ApplyAll(cache, ops);
            && id in to && Holds(ops[i + 1].body, to[id].raw) && !Holds(ops[i].body, to[id].extension)
            && Get(to[id].extension, MY_DAY) == Day(today)
  {
    var to := ApplyAll(cache, ops);
    LastWriter(cache, ops, |ops|, i, Slot(id, true, MY_DAY));
    assert At(to, Slot(id, true, MY_DAY)) == Day(today);
    LastWriter(cache, ops, |ops|, i + 1, Slot(id, false, DUE));
    assert At(to, Slot(id, false, DUE)) == Day(today);
    LastWriter(cache, ops, |ops|, i + 2, Slot(id, true, MY_DAY_DUE_SET));
    assert MY_DAY_DUE_SET in FieldsNotHolding(ops[i].body, to[id].extension);
    assert FieldsNotHolding(ops[i + 1].body, to[id].raw) == {};
  }

  /** An operation that took effect, on a live task, and is part of nothing. */
  ghost predicate LandedRow(row: Op, to: Cache)
  {
    && FieldOp(row.op) && TookEffect(row) && row.rollback.Some? && row.op.partOf.None?
    && row.op.task in to && !to[row.op.task].deleted
  }

  ghost predicate Landed(rows: seq<Op>, to: Cache)
  {
    RefsInOrder(Sent(rows)) && forall k :: 0 <= k < |rows| ==> LandedRow(rows[k], to)
  }

  /** The loop refuses the first operation, whose flag the last one wrote again, and undoes the due date. */
  lemma FirstIsRefused(rows: seq<Op>, to: Cache, undo: string, i: nat, id: string)
    requires Landed(rows, to) && i + 1 < |rows| && rows[i].op.task == id && rows[i + 1].op.task == id
    requires !Holds(rows[i].op.body, Target(rows[i].op, to[id])) && Holds(rows[i + 1].op.body, Target(rows[i + 1].op, to[id]))
    ensures UndoPlan(rows, to, undo).Ok? && id in UndoPlan(rows, to, undo).value.refused
  {
    NoErrors(rows, to, undo, |rows|);
    WholePutBack(rows, to, undo, i);
    WholePutBack(rows, to, undo, i + 1);
    RestoredMatches(rows, to, undo, |rows|);
    NotUndoneIsReported(rows, to, undo, i);
  }

  lemma FirstStays(rows: seq<Op>, to: Cache, undo: string, i: nat, id: string, today: int)
    requires FieldCommand(rows) && WritesTwice(Sent(rows), i, id, today) && UndoPlan(rows, to, undo).Ok? && id in to
    requires !Holds(rows[i].op.body, to[id].extension) && Get(to[id].extension, MY_DAY) == Day(today)
    ensures Cached(to, UndoPlan(rows, to, undo).value.inverse)
    ensures At(ApplyAll(to, UndoPlan(rows, to, undo).value.inverse), Slot(id, true, MY_DAY)) == Day(today)
  {
    PlanShape(rows, to, undo);
    var s := Slot(id, true, MY_DAY);
    UndoChangesOnlyWhatHolds(rows, to, undo, s);
    if At(Undone(rows, to, undo), s) != At(to, s) {
      var j :| 0 <= j < |rows| && Explains(rows[j], to, s, At(Undone(rows, to, undo), s));
      OnlyFirstWrites(Sent(rows), i, id, today, j);
    }
  }

  lemma OnlyFirstWrites(ops: seq<NewOp>, i: nat, id: string, today: int, j: nat)
    requires WritesTwice(ops, i, id, today) && j < |ops| && Writes(ops[j], Slot(id, true, MY_DAY))
    ensures j == i
  {
  }

  /** A task put in yesterday's My Day by ms-todo and added again today is such a case. */
  lemma AddedAgainNextDay(today: int)
    ensures var task := Task(map[DUE := Day(today - 1)],
                             map[MY_DAY := Day(today - 1), MY_DAY_DUE_SET := Flag(true)], false);
            AddPlan(task, today).Some? && FlagTwice(task, AddPlan(task, today).value)
  {
  }
}
