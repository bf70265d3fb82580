/**
 What a planned change sends, field by field, told from what was asked and
 the task as it was read; what its tasks become; which changes are accepted;
 and how an assignment's operations hang together.
 */
module ChangeOutcome {
  import opened Entities
  import opened Sequences
  import opened OpIds
  import opened Outbox
  import opened Undo
  import opened Planner
  import TaskDates
  import Assignment
  import AssignmentRace
  import PlannedChanges

  // ----- What is asked of each field -----

  predicate Starting(edit: TaskDates.Edit)
  {
    edit.start.Some? && edit.start.value.Set? && edit.start.value.value.Some?
  }

  predicate Repeating(edit: TaskDates.Edit)
  {
    edit.recurrence.Some? && edit.recurrence.value.Set? && edit.recurrence.value.value.first.Some?
  }

  /** The day, or none at all, that a change of a date asks for. */
  function DayAsked(day: TaskDates.Clearable<Option<int>>): Value
  {
    match day
    case Clear => Null
    case Set(None) => Null
    case Set(Some(d)) => Day(d)
  }

  /** What an edit asks of a field of the task's own, `raw` being the task as read. */
  function AskedOfEdit(edit: TaskDates.Edit, raw: Entity, f: Key): Option<Value>
  {
    match f
    case TITLE => if edit.title.Some? then Some(Text(edit.title.value)) else None
    case NOTES => if edit.notes.Some? then Some(Text(edit.notes.value)) else None
    case IMPORTANCE => if edit.importance.Some? then Some(Text(edit.importance.value)) else None
    case CATEGORIES => if edit.categories.Some? then Some(Ids(edit.categories.value)) else None
    case REMINDER_ON => if edit.reminder.Some? then Some(Flag(edit.reminder.value.Set?)) else None
    case REMINDER =>
      (match edit.reminder
       case None => None
       case Some(Set(Some(at))) => Some(Minute(at))
       case Some(_) => Some(Null))
    case RECURRENCE =>
      if Repeating(edit) then
        Some(Repeats(edit.recurrence.value.value.pattern, edit.recurrence.value.value.first.value))
      else if edit.recurrence == Some(TaskDates.Clear) then Some(Null)
      else None
    case DUE =>
      // A recurrence is due first on its first day; a start date leaves the
      // due date there is, or makes one.
      if edit.due.Some? then Some(DayAsked(edit.due.value))
      else if Repeating(edit) then Some(Day(edit.recurrence.value.value.first.value))
      else if Starting(edit) then Some(if Get(raw, DUE) != Null then Get(raw, DUE) else Day(edit.start.value.value.value))
      else None
    case START =>
      // A recurrence takes a start date there is to its first day.
      if edit.start.Some? then Some(DayAsked(edit.start.value))
      else if Repeating(edit) && Get(raw, START) != Null then Some(Day(edit.recurrence.value.value.first.value))
      else None
    case _ => None
  }

  /** The status an assignment sets: of an open task not waiting yet, or of one ms-todo made waiting. */
  function AskedStatus(assign: Assignment.Change, task: Task): Option<string>
  {
    match assign
    case Assign(name, keepStatus) =>
      if Assignment.AssigneeOf(task) != Some(name) && !keepStatus
         && Assignment.StatusOf(task) != Assignment.WAITING && !Assignment.IsCompleted(task)
      then Some(Assignment.WAITING) else None
    case Unassign(keepStatus) =>
      if !keepStatus && Assignment.FlagSet(task) && Assignment.StatusOf(task) == Assignment.WAITING
      then Some(Assignment.NOT_STARTED) else None
  }

  function AskedOfRaw(change: Change, task: Task, now: int, f: Key): Option<Value>
  {
    match change
    case Complete =>
      if f == STATUS then Some(Text(Assignment.COMPLETED_STATUS))
      else if f == REMINDER_ON && ReminderOn(task.raw) && !Get(task.raw, RECURRENCE).Repeats? then Some(Flag(false))
      else None
    case Reopen =>
      var ahead := ReminderAt(task.raw).Some? && ReminderAt(task.raw).value > now;
      if f == STATUS then Some(Text(Assignment.NOT_STARTED))
      else if f == REMINDER_ON && Assignment.IsCompleted(task) && ahead then Some(Flag(true))
      else if f == REMINDER && Assignment.IsCompleted(task) && ahead then Some(Get(task.raw, REMINDER))
      else None
    case Delete => None
    case Edit(edit, assign, _, _, _) =>
      if f != STATUS then AskedOfEdit(edit, task.raw, f)
      else if assign.Some? && AskedStatus(assign.value, task).Some? then Some(Text(AskedStatus(assign.value, task).value))
      else None
  }

  /** `value`, unless the field has it already. */
  function Unless(value: Value, now: Value): Option<Value>
  {
    if value == now then None else Some(value)
  }

  /** What is asked of a field of our extension. */
  function AskedOfOurs(change: Change, task: Task, f: Key): Option<Value>
  {
    if !change.Edit? then None
    else
      match f
      case DEFER_UNTIL =>
        (match change.deferUntil
         case None => None
         case Some(Set(day)) => Unless(Day(day), Get(task.extension, DEFER_UNTIL))
         case Some(Clear) => Unless(Null, Get(task.extension, DEFER_UNTIL)))
      case SOMEDAY =>
        (match change.someday
         case None => None
         case Some(true) => Unless(Flag(true), Get(task.extension, SOMEDAY))
         case Some(false) => Unless(Null, Get(task.extension, SOMEDAY)))
      case NAG =>
        (match change.nag
         case None => None
         case Some(Set(minutes)) => if NagOf(task) == Some(minutes) then None else Some(Number(minutes))
         case Some(Clear) => if NagOf(task).None? then None else Some(Null))
      case ASSIGNEE =>
        (match change.assign
         case None => None
         case Some(Assign(name, _)) => if Assignment.AssigneeOf(task) == Some(name) then None else Some(Text(name))
         case Some(Unassign(_)) => if ASSIGNEE in task.extension then Some(Null) else None)
      case STATUS_SET =>
        (match change.assign
         case None => None
         case Some(Assign(name, keepStatus)) =>
           if AskedStatus(Assignment.Assign(name, keepStatus), task).Some? && !Assignment.FlagSet(task)
           then Some(Flag(true)) else None
         case Some(Unassign(_)) => if STATUS_SET in task.extension then Some(Null) else None)
      case _ => None
  }

  function AskedOf(change: Change, task: Task, now: int, s: Slot): Option<Value>
  {
    if s.inExtension then AskedOfOurs(change, task, s.field) else AskedOfRaw(change, task, now, s.field)
  }

  /** What is asked of any field of any task. */
  function Asked(change: Change, cache: Cache, targets: seq<string>, now: int, s: Slot): Option<Value>
  {
    if s.task in targets && s.task in cache then AskedOf(change, cache[s.task], now, s) else None
  }

  // ----- The body of one task is what is asked -----

  /** A body gives `f` the value, and gives it none if there is none. */
  ghost predicate Gives(body: Entity, f: Key, value: Option<Value>)
  {
    if value.Some? then f in body && body[f] == value.value else f !in body
  }

  const DATES := {DUE, START, RECURRENCE}

  lemma EditGives(edit: TaskDates.Edit, changes: Entity, raw: Entity, f: Key)
    requires TaskDates.EditBody(edit) == Ok(changes) && f !in DATES
    ensures Gives(changes, f, AskedOfEdit(edit, raw, f))
  {
  }

  lemma BodyKeeps(changes: Entity, raw: Entity, body: Entity, f: Key)
    requires TaskDates.TaskBody(changes, raw) == Ok(body) && f !in {DUE, START}
    ensures f in body <==> f in changes
    ensures f in body ==> body[f] == changes[f]
  {
  }

  lemma DatesGiven(edit: TaskDates.Edit, changes: Entity, raw: Entity, body: Entity, f: Key)
    requires TaskDates.EditBody(edit) == Ok(changes) && TaskDates.TaskBody(changes, raw) == Ok(body) && f in DATES
    ensures Gives(body, f, AskedOfEdit(edit, raw, f))
  {
    TaskDates.EditAsks(edit, changes);
  }

  lemma EditBodyGives(edit: TaskDates.Edit, changes: Entity, raw: Entity, body: Entity, f: Key)
    requires TaskDates.EditBody(edit) == Ok(changes) && TaskDates.TaskBody(changes, raw) == Ok(body)
    ensures Gives(body, f, AskedOfEdit(edit, raw, f))
  {
    if f in DATES {
      DatesGiven(edit, changes, raw, body, f);
    } else {
      EditGives(edit, changes, raw, f);
      BodyKeeps(changes, raw, body, f);
    }
  }

  /** But for a status an assignment sets, which has an operation of its own. */
  lemma BodyGives(change: Change, changes: Entity, task: Task, now: int, body: Entity, f: Key)
    requires Changes(change) == Ok(changes) && BodyFor(change, changes, task, now) == Ok(body) && !change.Delete?
    ensures if change.Edit? && f == STATUS then f !in body else Gives(body, f, AskedOfRaw(change, task, now, f))
  {
    if change.Edit? {
      EditBodyGives(change.edit, changes, task.raw, body, f);
    }
  }

  // ----- The operations of one task -----

  lemma MainSends(ops: seq<NewOp>, command: string, id: string, change: Change, changes: Entity, body: Entity, s: Slot)
    requires !change.Delete? && (changes == map[] ==> body == map[])
    ensures SentAt(PushMain(ops, command, id, change, changes, body), s)
            == if s.task == id && !s.inExtension && s.field in body then Some(body[s.field]) else SentAt(ops, s)
  {
    if changes != map[] {
      SentMore(ops, Write(OpIdFor(command, |ops|), id, Update, ActionOf(change), body), s);
    }
  }

  lemma FieldsSend(ops: seq<NewOp>, command: string, id: string, fields: Entity, s: Slot)
    ensures SentAt(PushFields(ops, command, id, fields), s)
            == if s.task == id && s.inExtension && s.field in fields then Some(fields[s.field]) else SentAt(ops, s)
  {
    SentMore(ops, Write(OpIdFor(command, |ops|), id, Extension, Outbox.Edit, fields), s);
  }

  /** What an assignment's operations give the field `f` of the extension or, not `ours`, of the task. */
  function AssignmentGives(plan: Assignment.TaskPlan, ours: bool, f: Key): Option<Value>
  {
    if !ours then
      if f == STATUS && plan.status.Some? then Some(Text(plan.status.value.target)) else None
    else if f == STATUS_SET && plan.status.Some? && plan.setsFlag then Some(Flag(true))
    else if f in plan.fields then Some(plan.fields[f])
    else None
  }

  lemma AssignmentSends(ops: seq<NewOp>, command: string, id: string, plan: Assignment.TaskPlan, s: Slot)
    ensures var given := if s.task == id then AssignmentGives(plan, s.inExtension, s.field) else None;
            SentAt(ops + Assignment.PlanOps(command, |ops|, id, plan, Outbox.Edit), s)
            == if given.Some? then given else SentAt(ops, s)
  {
    var parts := Assignment.PlanOps(command, |ops|, id, plan, Outbox.Edit);
    SentConcat(ops, parts, s);
    PartsSend(command, |ops|, id, plan, s);
  }

  lemma PartsSend(command: string, first: nat, id: string, plan: Assignment.TaskPlan, s: Slot)
    ensures SentAt(Assignment.PlanOps(command, first, id, plan, Outbox.Edit), s)
            == if s.task == id then AssignmentGives(plan, s.inExtension, s.field) else None
  {
    SentByThree(Assignment.PlanOps(command, first, id, plan, Outbox.Edit), s);
  }

  /** Which is what is asked of the assignee, the status and the flag. */
  lemma AssignmentIsAsked(change: Change, task: Task, now: int, ours: bool, f: Key)
    requires change.Edit? && change.assign.Some? && (if ours then f in {ASSIGNEE, STATUS_SET} else f == STATUS)
    ensures var plan := Assignment.PlanFor(task, change.assign.value);
            (if plan.Some? then AssignmentGives(plan.value, ours, f) else None)
            == if ours then AskedOfOurs(change, task, f) else AskedOfRaw(change, task, now, f)
  {
    if change.assign.value.Unassign? {
      ClearsWhatIsThere(task, change.assign.value.keepStatus);
    }
  }

  lemma ClearsWhatIsThere(task: Task, keepStatus: bool)
    ensures Assignment.ClearPlan(task, keepStatus).None? <==>
            ASSIGNEE !in task.extension && STATUS_SET !in task.extension
    ensures Assignment.ClearPlan(task, keepStatus).Some? ==>
              var plan := Assignment.ClearPlan(task, keepStatus).value;
              && Gives(plan.fields, ASSIGNEE, if ASSIGNEE in task.extension then Some(Null) else None)
              && Gives(plan.fields, STATUS_SET, if STATUS_SET in task.extension then Some(Null) else None)
    ensures Assignment.FlagSet(task) ==> STATUS_SET in task.extension
  {
    var fields: Entity := map f | f in {ASSIGNEE, STATUS_SET} && f in task.extension :: Null;
    assert ASSIGNEE in task.extension ==> ASSIGNEE in fields;
    assert STATUS_SET in task.extension ==> STATUS_SET in fields;
  }

  lemma AssignmentGivesThese(task: Task, assign: Assignment.Change, ours: bool, f: Key)
    requires Assignment.PlanFor(task, assign).Some?
    requires if ours then f !in {ASSIGNEE, STATUS_SET} else f != STATUS
    ensures AssignmentGives(Assignment.PlanFor(task, assign).value, ours, f).None?
  {
  }

  lemma AssignmentStageSends(ops: seq<NewOp>, command: string, id: string, task: Task, change: Change, now: int, s: Slot)
    ensures var mine := s.task == id && if s.inExtension then s.field in {ASSIGNEE, STATUS_SET}
                                        else s.field == STATUS && change.Edit?;
            SentAt(PushAssignment(ops, command, id, task, change), s)
            == if mine && AskedOf(change, task, now, s).Some? then AskedOf(change, task, now, s) else SentAt(ops, s)
  {
    if change.Edit? && change.assign.Some? {
      var plan := Assignment.PlanFor(task, change.assign.value);
      if plan.Some? {
        AssignmentSends(ops, command, id, plan.value, s);
      }
      if s.task == id {
        if (if s.inExtension then s.field in {ASSIGNEE, STATUS_SET} else s.field == STATUS) {
          AssignmentIsAsked(change, task, now, s.inExtension, s.field);
        } else if plan.Some? {
          AssignmentGivesThese(task, change.assign.value, s.inExtension, s.field);
        }
      }
    }
  }

  lemma OursAreAsked(change: Change, task: Task, f: Key)
    ensures Gives(DeferFields(change, task), f, if f in {DEFER_UNTIL, SOMEDAY} then AskedOfOurs(change, task, f) else None)
    ensures Gives(NagFields(change, task), f, if f == NAG then AskedOfOurs(change, task, f) else None)
  {
  }

  /** The operations pushed for one task send exactly what is asked of it. */
  lemma TaskSends(
    ops: seq<NewOp>, command: string, id: string, task: Task, change: Change, changes: Entity, body: Entity, now: int, s: Slot)
    requires Changes(change) == Ok(changes) && BodyFor(change, changes, task, now) == Ok(body) && !change.Delete?
    requires s.task == id ==> SentAt(ops, s).None?
    ensures SentAt(PushTask(ops, command, id, task, change, changes, body), s)
            == if s.task == id then AskedOf(change, task, now, s) else SentAt(ops, s)
  {
    BodyGives(change, changes, task, now, body, s.field);
    NoChangesNoBody(change, changes, task, now, body);
    var main := PushMain(ops, command, id, change, changes, body);
    MainSends(ops, command, id, change, changes, body, s);
    var assignment := PushAssignment(main, command, id, task, change);
    AssignmentStageSends(main, command, id, task, change, now, s);
    OursAreAsked(change, task, s.field);
    var deferral := PushFields(assignment, command, id, DeferFields(change, task));
    FieldsSend(assignment, command, id, DeferFields(change, task), s);
    FieldsSend(deferral, command, id, NagFields(change, task), s);
  }

  lemma NoChangesNoBody(change: Change, changes: Entity, task: Task, now: int, body: Entity)
    requires Changes(change) == Ok(changes) && BodyFor(change, changes, task, now) == Ok(body) && !change.Delete?
    ensures changes == map[] ==> body == map[]
  {
    if !change.Edit? {
      assert STATUS in changes;
    }
  }

  // ----- The whole plan -----

  /** One more target, not among those before. */
  lemma AskedMore(change: Change, from: Cache, targets: seq<string>, now: int, k: nat, s: Slot)
    requires k < |targets| && Distinct(targets) && targets[k] in from
    ensures s.task == targets[k] ==> Asked(change, from, targets[..k], now, s).None?
    ensures Asked(change, from, targets[..k + 1], now, s)
            == if s.task == targets[k] then AskedOf(change, from[targets[k]], now, s)
               else Asked(change, from, targets[..k], now, s)
  {
    assert targets[..k + 1] == targets[..k] + [targets[k]] && targets[k] !in targets[..k];
  }

  /**
   A planned change gives every field of every task exactly the value asked of
   it, and no other field a value at all.
   */
  lemma SendsWhatIsAsked(
    command: string, from: Cache, targets: seq<string>, change: Change, bulk: bool, now: int, ops: seq<NewOp>, s: Slot)
    requires (forall t :: t in targets ==> t in from) && Distinct(targets) && !change.Delete?
    requires ChangePlan(command, from, targets, change, bulk, now) == Ok(ops)
    ensures SentAt(ops, s) == Asked(change, from, targets, now, s)
  {
    var inv := (k: nat, some: seq<NewOp>) => k <= |targets| && SentAt(some, s) == Asked(change, from, targets[..k], now, s);
    var changes := Changes(change).value;
    forall k, some | 0 <= k < |targets| ensures Carries(inv, command, from, targets, change, changes, now, k, some) {
      var id, body := targets[k], BodyFor(change, changes, from[targets[k]], now);
      if inv(k, some) && body.Ok? {
        AskedMore(change, from, targets, now, k, s);
        TaskSends(some, command, id, from[id], change, changes, body.value, now, s);
      }
    }
    assert SentAt([], s) == None && Asked(change, from, targets[..0], now, s) == None;
    assert inv(0, []);
    OpsInduction(inv, command, from, targets, change, bulk, now, ops);
    assert targets[..|targets|] == targets;
  }

  lemma ChangesAreFieldOps(
    command: string, from: Cache, targets: seq<string>, change: Change, bulk: bool, now: int, ops: seq<NewOp>)
    requires (forall t :: t in targets ==> t in from) && Distinct(targets) && !change.Delete?
    requires ChangePlan(command, from, targets, change, bulk, now) == Ok(ops)
    ensures AllFieldOps(ops) && forall k :: 0 <= k < |ops| ==> ops[k].task in targets
  {
    PlannedChanges.OpsAreFieldChanges(command, from, targets, change, bulk, now, ops);
    ReferenceIntegrity(command, from, targets, change, bulk, now, ops);
    assert forall k :: 0 <= k < |ops| ==> PlannedChanges.FieldChange(ops[k], from);
  }

  /**
   So, queued on the tasks as they are by then: every field of every target is
   what was asked of it, every other field of it is as it was, and so is every
   task that isn't a target.
   */
  lemma ChangeMeans(
    command: string, from: Cache, targets: seq<string>, change: Change, bulk: bool, now: int, ops: seq<NewOp>,
    cache: Cache, s: Slot)
    requires (forall t :: t in targets ==> t in from && t in cache) && Distinct(targets) && !change.Delete?
    requires ChangePlan(command, from, targets, change, bulk, now) == Ok(ops)
    ensures Cached(cache, ops)
    ensures At(ApplyAll(cache, ops), s)
            == if Asked(change, from, targets, now, s).Some? then Asked(change, from, targets, now, s).value else At(cache, s)
  {
    ChangesAreFieldOps(command, from, targets, change, bulk, now, ops);
    SendsWhatIsAsked(command, from, targets, change, bulk, now, ops, s);
    SentLands(cache, ops, s);
  }

  // ----- Which changes are accepted -----

  predicate OnlySpace(text: string)
  {
    forall c :: c in text ==> Space(c)
  }

  /** A day or time that was typed, if any, could be read. */
  predicate CanRead(day: Option<TaskDates.Clearable<Option<int>>>)
  {
    day.None? || day.value.Clear? || day.value.value.Some?
  }

  /** What a recurrence needs of the edit it comes with. */
  predicate RecurrenceFits(edit: TaskDates.Edit, r: TaskDates.RecurrenceText)
  {
    && r.shaped && r.first.Some?
    && (edit.due.Some? ==> edit.due.value == TaskDates.Set(r.first))
    && (edit.start.Some? && edit.start.value.Set? ==> edit.start.value == TaskDates.Set(r.first))
  }

  predicate AcceptableEdit(edit: TaskDates.Edit)
  {
    && (edit.title.Some? ==> !OnlySpace(edit.title.value))
    && CanRead(edit.due) && CanRead(edit.reminder) && CanRead(edit.start)
    && (edit.start.Some? && edit.start.value.Set? ==> edit.due != Some(TaskDates.Clear))
    && (edit.recurrence.Some? && edit.recurrence.value.Set? ==> RecurrenceFits(edit, edit.recurrence.value.value))
    && (edit.categories.Some? ==> forall name :: name in edit.categories.value ==> !OnlySpace(name))
  }

  predicate NamesAField(edit: TaskDates.Edit)
  {
    || edit.title.Some? || edit.due.Some? || edit.importance.Some? || edit.reminder.Some? || edit.notes.Some?
    || edit.start.Some? || edit.recurrence.Some? || edit.categories.Some?
  }

  /** A nag is from five minutes to a day, and starts at a reminder: the edit's, or each task's own. */
  predicate NagFits(change: Change, cache: Cache, targets: seq<string>)
    requires change.Edit? && forall t :: t in targets ==> t in cache
  {
    change.nag.Some? && change.nag.value.Set? ==>
      && 5 <= change.nag.value.value <= 1440
      && change.edit.reminder != Some(TaskDates.Clear)
      && (change.edit.reminder.None? ==> forall t :: t in targets ==> ReminderAt(cache[t].raw).Some?)
  }

  /** A repeating task takes a start date only with a new recurrence, or none any more. */
  predicate StartsAfresh(change: Change, cache: Cache, t: string)
    requires change.Edit? && t in cache
  {
    Starting(change.edit) && change.edit.recurrence.None? ==> Get(cache[t].raw, RECURRENCE) == Null
  }

  predicate Accepted(change: Change, cache: Cache, targets: seq<string>, bulk: bool)
    requires forall t :: t in targets ==> t in cache
  {
    change.Edit? ==>
      && AcceptableEdit(change.edit)
      && (NamesAField(change.edit) || change.assign.Some? || change.deferUntil.Some? || change.someday.Some? || change.nag.Some?)
      && NagFits(change, cache, targets)
      && (bulk || |targets| > 1 ==> change.edit.title.None? && change.edit.notes.None?)
      && forall t :: t in targets ==> Takes(change, cache, t)
  }

  lemma EditErrorExactly(edit: TaskDates.Edit)
    ensures TaskDates.EditError(edit).None? <==> AcceptableEdit(edit)
  {
    BlankIsOnlySpace();
    if edit.recurrence.Some? && edit.recurrence.value.Set? {
      RecurrenceErrorExactly(edit, edit.recurrence.value.value);
    }
  }

  lemma BlankIsOnlySpace()
    ensures forall text :: TaskDates.Blank(text) <==> OnlySpace(text)
  {
    forall text ensures TaskDates.Blank(text) <==> OnlySpace(text) {
    }
  }

  lemma RecurrenceErrorExactly(edit: TaskDates.Edit, r: TaskDates.RecurrenceText)
    requires edit.recurrence == Some(TaskDates.Set(r))
    ensures TaskDates.RecurrenceError(edit).None? <==> RecurrenceFits(edit, r)
  {
  }

  /** A body has a field for every one the edit names, and no other. */
  lemma EmptyBody(edit: TaskDates.Edit, body: Entity)
    requires TaskDates.EditBody(edit) == Ok(body)
    ensures body == map[] <==> !NamesAField(edit)
  {
    if edit.title.Some? { assert TITLE in body; }
    if edit.due.Some? { assert DUE in body; }
    if edit.importance.Some? { assert IMPORTANCE in body; }
    if edit.reminder.Some? { assert REMINDER in body; }
    if edit.notes.Some? { assert NOTES in body; }
    if edit.start.Some? { assert START in body; }
    if edit.recurrence.Some? { assert RECURRENCE in body; }
    if edit.categories.Some? { assert CATEGORIES in body; }
  }

  lemma ChangesExactly(change: Change)
    ensures Changes(change).Ok? <==>
            change.Edit? ==>
              && AcceptableEdit(change.edit)
              && (NamesAField(change.edit) || change.assign.Some? || change.deferUntil.Some? || change.someday.Some?
                  || change.nag.Some?)
  {
    if change.Edit? {
      EditErrorExactly(change.edit);
      if TaskDates.EditBody(change.edit).Ok? {
        EmptyBody(change.edit, TaskDates.EditBody(change.edit).value);
      }
    }
  }

  lemma BodyRefusedExactly(change: Change, changes: Entity, cache: Cache, t: string, now: int)
    requires Changes(change) == Ok(changes) && t in cache
    ensures BodyFor(change, changes, cache[t], now).Err? <==> change.Edit? && !StartsAfresh(change, cache, t)
    ensures BodyFor(change, changes, cache[t], now).Err? ==>
              BodyFor(change, changes, cache[t], now).error == TaskDates.RepeatsAlready
  {
    if change.Edit? {
      EditErrorExactly(change.edit);
      TaskDates.StartOnRepeatingRefused(change.edit, changes, cache[t].raw);
    }
  }

  /** A task takes the change. */
  predicate Takes(change: Change, cache: Cache, t: string)
    requires t in cache
  {
    change.Edit? ==> StartsAfresh(change, cache, t)
  }

  /** `error` names the first task that doesn't. */
  ghost predicate FirstRefuses(change: Change, cache: Cache, targets: seq<string>, i: nat, error: Planner.Error)
    requires i < |targets| && forall t :: t in targets ==> t in cache
  {
    && !Takes(change, cache, targets[i]) && error == InvalidTask(targets[i], TaskDates.RepeatsAlready)
    && forall j :: 0 <= j < i ==> Takes(change, cache, targets[j])
  }

  ghost predicate AllTake(change: Change, cache: Cache, targets: seq<string>, n: nat)
    requires n <= |targets| && forall t :: t in targets ==> t in cache
  {
    forall i :: 0 <= i < n ==> Takes(change, cache, targets[i])
  }

  /** The bodies of the first `n` are worked out exactly if all take it; else the first that doesn't is named. */
  ghost predicate BodiesFit(
    change: Change, cache: Cache, targets: seq<string>, n: nat, bodies: Result<seq<Entity>, Planner.Error>)
    requires n <= |targets| && forall t :: t in targets ==> t in cache
  {
    if bodies.Ok? then AllTake(change, cache, targets, n)
    else exists i :: 0 <= i < n && FirstRefuses(change, cache, targets, i, bodies.error)
  }

  lemma {:induction false} BodiesExactly(
    cache: Cache, targets: seq<string>, change: Change, changes: Entity, now: int, n: nat)
    requires n <= |targets| && (forall t :: t in targets ==> t in cache) && Changes(change) == Ok(changes)
    ensures BodiesFit(change, cache, targets, n, Bodies(cache, targets, change, changes, now, n))
  {
    if n > 0 {
      BodiesExactly(cache, targets, change, changes, now, n - 1);
      LastBody(cache, targets, change, changes, now, n);
      BodyRefusedExactly(change, changes, cache, targets[n - 1], now);
      OneMoreFits(change, cache, targets, n, Bodies(cache, targets, change, changes, now, n - 1),
                  Bodies(cache, targets, change, changes, now, n));
    }
  }

  lemma OneMoreFits(
    change: Change, cache: Cache, targets: seq<string>, n: nat, before: Result<seq<Entity>, Planner.Error>,
    after: Result<seq<Entity>, Planner.Error>)
    requires 0 < n <= |targets| && (forall t :: t in targets ==> t in cache)
    requires BodiesFit(change, cache, targets, n - 1, before)
    requires before.Err? ==> after == before
    requires before.Ok? ==> (after.Ok? <==> Takes(change, cache, targets[n - 1]))
    requires before.Ok? && after.Err? ==> after.error == InvalidTask(targets[n - 1], TaskDates.RepeatsAlready)
    ensures BodiesFit(change, cache, targets, n, after)
  {
    if before.Ok? && after.Err? {
      assert FirstRefuses(change, cache, targets, n - 1, after.error);
    }
  }

  lemma LastBody(cache: Cache, targets: seq<string>, change: Change, changes: Entity, now: int, n: nat)
    requires 0 < n <= |targets| && (forall t :: t in targets ==> t in cache)
    ensures var before := Bodies(cache, targets, change, changes, now, n - 1);
            var body := BodyFor(change, changes, cache[targets[n - 1]], now);
            && (before.Err? ==> Bodies(cache, targets, change, changes, now, n) == before)
            && (before.Ok? && body.Err? ==>
                  Bodies(cache, targets, change, changes, now, n) == Err(InvalidTask(targets[n - 1], body.error)))
            && (before.Ok? && body.Ok? ==> Bodies(cache, targets, change, changes, now, n).Ok?)
  {
  }

  /** A change is planned exactly if it is one of these. */
  lemma AcceptedExactly(command: string, cache: Cache, targets: seq<string>, change: Change, bulk: bool, now: int)
    requires forall t :: t in targets ==> t in cache
    ensures ChangePlan(command, cache, targets, change, bulk, now).Ok? <==> Accepted(change, cache, targets, bulk)
  {
    ChangesExactly(change);
    if Changes(change).Ok? {
      BodiesExactly(cache, targets, change, Changes(change).value, now, |targets|);
      AllTakeIt(change, cache, targets, Bodies(cache, targets, change, Changes(change).value, now, |targets|));
    }
  }

  lemma AllTakeIt(change: Change, cache: Cache, targets: seq<string>, bodies: Result<seq<Entity>, Planner.Error>)
    requires (forall t :: t in targets ==> t in cache) && BodiesFit(change, cache, targets, |targets|, bodies)
    ensures bodies.Ok? <==> forall t :: t in targets ==> Takes(change, cache, t)
  {
    if bodies.Err? {
      var i :| 0 <= i < |targets| && FirstRefuses(change, cache, targets, i, bodies.error);
      assert targets[i] in targets;
    }
  }

  /** What an error says of the edit is so. */
  predicate True(why: TaskDates.Error, edit: TaskDates.Edit)
  {
    match why
    case EmptyTitle => edit.title.Some? && OnlySpace(edit.title.value)
    case Unreadable =>
      || !CanRead(edit.due) || !CanRead(edit.reminder) || !CanRead(edit.start)
      || (edit.recurrence.Some? && edit.recurrence.value.Set?
          && !(edit.recurrence.value.value.shaped && edit.recurrence.value.value.first.Some?))
    case EmptyCategory => edit.categories.Some? && exists name :: name in edit.categories.value && OnlySpace(name)
    case NeedsDue =>
      && edit.due == Some(TaskDates.Clear)
      && ((edit.start.Some? && edit.start.value.Set?) || (edit.recurrence.Some? && edit.recurrence.value.Set?))
    case NotTheSameDay =>
      && Repeating(edit) && edit.due.Some? && edit.due != Some(TaskDates.Set(edit.recurrence.value.value.first))
    case StartNotFirst =>
      && Repeating(edit) && edit.start.Some? && edit.start != Some(TaskDates.Set(edit.recurrence.value.value.first))
    case NothingToChange => !NamesAField(edit)
    case RepeatsAlready => false
  }

  /** And what one says of the change. */
  predicate Explains(error: Planner.Error, change: Change, cache: Cache, targets: seq<string>, bulk: bool)
    requires forall t :: t in targets ==> t in cache
  {
    change.Edit? &&
    match error
    case InvalidEdit(why) => True(why, change.edit)
    case InvalidTask(t, why) => t in targets && !StartsAfresh(change, cache, t) && why == TaskDates.RepeatsAlready
    case NagInterval =>
      change.nag.Some? && change.nag.value.Set? && !(5 <= change.nag.value.value <= 1440)
    case NagNeedsReminder =>
      && change.nag.Some? && change.nag.value.Set?
      && (|| change.edit.reminder == Some(TaskDates.Clear)
          || (change.edit.reminder.None? && exists t :: t in targets && ReminderAt(cache[t].raw).None?))
    case OneTaskOnly => (bulk || |targets| > 1) && (change.edit.title.Some? || change.edit.notes.Some?)
  }

  /** Whatever error a change is refused with is so. */
  lemma ErrorsAreTrue(command: string, cache: Cache, targets: seq<string>, change: Change, bulk: bool, now: int)
    requires forall t :: t in targets ==> t in cache
    requires ChangePlan(command, cache, targets, change, bulk, now).Err?
    ensures Explains(ChangePlan(command, cache, targets, change, bulk, now).error, change, cache, targets, bulk)
  {
    if Changes(change).Ok? {
      BodiesExactly(cache, targets, change, Changes(change).value, now, |targets|);
      var bodies := Bodies(cache, targets, change, Changes(change).value, now, |targets|);
      if bodies.Err? {
        var i :| 0 <= i < |targets| && FirstRefuses(change, cache, targets, i, bodies.error);
      }
    } else {
      EditErrorsAreTrue(change);
    }
  }

  lemma EditErrorsAreTrue(change: Change)
    requires Changes(change).Err?
    ensures change.Edit? && True(Changes(change).error, change.edit)
  {
    if TaskDates.EditBody(change.edit).Ok? {
      EmptyBody(change.edit, TaskDates.EditBody(change.edit).value);
    }
  }

  // ----- How an assignment's operations hang together -----

  /** Sets a status because of an assignment. */
  predicate SetsStatus(change: Change, op: NewOp)
  {
    change.Edit? && op.kind.Update? && STATUS in op.body
  }

  /** Flags that ms-todo set that status. */
  predicate SetsFlag(change: Change, op: NewOp)
  {
    change.Edit? && op.kind.Extension? && op.body == map[STATUS_SET := Flag(true)]
  }

  /** Gives a task to someone, or takes it away. */
  predicate Whole(op: NewOp)
  {
    op.kind.Extension? && (ASSIGNEE in op.body || STATUS_SET in op.body) && op.partOf.None?
  }

  ghost predicate PartOf(ops: seq<NewOp>, i: nat, j: nat)
  {
    i < j < |ops| && Whole(ops[i]) && ops[i].task == ops[j].task && ops[j].partOf == Some(ops[i].id)
  }

  ghost predicate WaitsFor(ops: seq<NewOp>, change: Change, i: nat, j: nat)
  {
    i < j < |ops| && SetsStatus(change, ops[i]) && ops[i].task == ops[j].task && ops[j].after == Some(ops[i].id)
  }

  /**
   A status goes ahead only from the one the task was read with, and is part of
   the assignment; its flag is too, and waits for it. Nothing else has a guard,
   is part of anything or waits for anything.
   */
  ghost predicate HangsTogether(ops: seq<NewOp>, change: Change, from: Cache, j: nat)
    requires j < |ops|
  {
    var op := ops[j];
    && op.task in from
    && op.expected == (if SetsStatus(change, op) then Some(map[STATUS := Text(Assignment.StatusOf(from[op.task]))]) else None)
    && (if SetsStatus(change, op) || SetsFlag(change, op) then exists i :: PartOf(ops, i, j) else op.partOf.None?)
    && (if SetsFlag(change, op) then exists i :: WaitsFor(ops, change, i, j) else op.after.None?)
  }

  ghost predicate AllHang(ops: seq<NewOp>, change: Change, from: Cache)
  {
    forall j :: 0 <= j < |ops| ==> HangsTogether(ops, change, from, j)
  }

  lemma StillHangs(ops: seq<NewOp>, op: NewOp, change: Change, from: Cache, j: nat)
    requires j < |ops| && HangsTogether(ops, change, from, j)
    ensures HangsTogether(ops + [op], change, from, j)
  {
    var more := ops + [op];
    assert more[j] == ops[j];
    if i :| PartOf(ops, i, j) {
      assert PartOf(more, i, j);
    }
    if i :| WaitsFor(ops, change, i, j) {
      assert WaitsFor(more, change, i, j);
    }
  }

  lemma PushHangs(ops: seq<NewOp>, op: NewOp, change: Change, from: Cache)
    requires AllHang(ops, change, from) && HangsTogether(ops + [op], change, from, |ops|)
    ensures AllHang(ops + [op], change, from)
  {
    forall j | 0 <= j < |ops + [op]| ensures HangsTogether(ops + [op], change, from, j) {
      if j < |ops| {
        StillHangs(ops, op, change, from, j);
      }
    }
  }

  /** An operation with nothing to do with an assignment. */
  lemma PlainHangs(ops: seq<NewOp>, op: NewOp, change: Change, from: Cache)
    requires AllHang(ops, change, from) && op.task in from && op.partOf.None? && op.after.None? && op.expected.None?
    requires !SetsStatus(change, op) && !SetsFlag(change, op)
    ensures AllHang(ops + [op], change, from)
  {
    PushHangs(ops, op, change, from);
  }

  lemma AssignmentHangs(
    ops: seq<NewOp>, command: string, id: string, change: Change, from: Cache, plan: Assignment.TaskPlan)
    requires AllHang(ops, change, from) && change.Edit? && change.assign.Some? && id in from
    requires Assignment.PlanFor(from[id], change.assign.value) == Some(plan)
    ensures AllHang(ops + Assignment.PlanOps(command, |ops|, id, plan, Outbox.Edit), change, from)
  {
    var parts := Assignment.PlanOps(command, |ops|, id, plan, Outbox.Edit);
    PlanReads(from[id], change.assign.value, plan);
    var one := ops + [parts[0]];
    PlainHangs(ops, parts[0], change, from);
    if |parts| == 1 {
      assert ops + parts == one;
    } else {
      var two := one + [parts[1]];
      assert PartOf(two, |ops|, |ops| + 1);
      PushHangs(one, parts[1], change, from);
      if |parts| == 2 {
        assert ops + parts == two;
      } else {
        assert PartOf(two + [parts[2]], |ops|, |ops| + 2) && WaitsFor(two + [parts[2]], change, |ops| + 1, |ops| + 2);
        PushHangs(two, parts[2], change, from);
        assert ops + parts == two + [parts[2]];
      }
    }
  }

  /** What an assignment is planned from. */
  lemma PlanReads(task: Task, assign: Assignment.Change, plan: Assignment.TaskPlan)
    requires Assignment.PlanFor(task, assign) == Some(plan)
    ensures plan.status.Some? ==> plan.status.value.plannedFrom == Assignment.StatusOf(task)
    ensures ASSIGNEE in plan.fields || STATUS_SET in plan.fields
    ensures plan.fields != map[STATUS_SET := Flag(true)]
  {
    if assign.Unassign? {
      ClearsWhatIsThere(task, assign.keepStatus);
    }
  }

  lemma TaskHangs(
    ops: seq<NewOp>, command: string, id: string, change: Change, from: Cache, changes: Entity, body: Entity)
    requires AllHang(ops, change, from) && id in from && (change.Edit? ==> STATUS !in body)
    ensures AllHang(PushTask(ops, command, id, from[id], change, changes, body), change, from)
  {
    var main := PushMain(ops, command, id, change, changes, body);
    if |main| > |ops| {
      PlainHangs(ops, main[|ops|], change, from);
    }
    var assignment := PushAssignment(main, command, id, from[id], change);
    if |assignment| > |main| {
      AssignmentHangs(main, command, id, change, from, Assignment.PlanFor(from[id], change.assign.value).value);
    }
    OurFields(change, from[id]);
    var deferral, nag := DeferFields(change, from[id]), NagFields(change, from[id]);
    var deferred := PushFields(assignment, command, id, deferral);
    if deferral != map[] {
      PlainHangs(assignment, Write(OpIdFor(command, |assignment|), id, Extension, Outbox.Edit, deferral), change, from);
    }
    if nag != map[] {
      PlainHangs(deferred, Write(OpIdFor(command, |deferred|), id, Extension, Outbox.Edit, nag), change, from);
    }
  }

  /**
   In every planned change, each operation of an assignment is guarded, joined
   and ordered like that, and no other operation is.
   */
  lemma AssignmentsHangTogether(
    command: string, from: Cache, targets: seq<string>, change: Change, bulk: bool, now: int, ops: seq<NewOp>, j: nat)
    requires (forall t :: t in targets ==> t in from)
    requires ChangePlan(command, from, targets, change, bulk, now) == Ok(ops) && j < |ops|
    ensures HangsTogether(ops, change, from, j)
  {
    var inv := (k: nat, some: seq<NewOp>) => AllHang(some, change, from);
    var changes := Changes(change).value;
    forall k, some | 0 <= k < |targets| ensures Carries(inv, command, from, targets, change, changes, now, k, some) {
      var body := BodyFor(change, changes, from[targets[k]], now);
      if inv(k, some) && body.Ok? {
        BodyClaims(change, changes, from[targets[k]], now, body.value);
        TaskHangs(some, command, targets[k], change, from, changes, body.value);
      }
    }
    assert AllHang([], change, from);
    assert inv(0, []);
    OpsInduction(inv, command, from, targets, change, bulk, now, ops);
  }

  /** So a status is set exactly where one is asked for, and only from the status the task was read with. */
  lemma StatusIsGuarded(
    command: string, from: Cache, targets: seq<string>, change: Change, bulk: bool, now: int, ops: seq<NewOp>, t: string)
    requires (forall t :: t in targets ==> t in from) && Distinct(targets) && change.Edit? && t in targets
    requires ChangePlan(command, from, targets, change, bulk, now) == Ok(ops)
    ensures (exists j :: 0 <= j < |ops| && SetsStatus(change, ops[j]) && ops[j].task == t) <==>
            change.assign.Some? && AskedStatus(change.assign.value, from[t]).Some?
    ensures forall j :: 0 <= j < |ops| && SetsStatus(change, ops[j]) && ops[j].task == t ==>
              && change.assign.Some? && AskedStatus(change.assign.value, from[t]).Some?
              && ops[j].body[STATUS] == Text(AskedStatus(change.assign.value, from[t]).value)
              && ops[j].expected == Some(map[STATUS := Text(Assignment.StatusOf(from[t]))])
  {
    var s := Slot(t, false, STATUS);
    ChangesAreFieldOps(command, from, targets, change, bulk, now, ops);
    SendsWhatIsAsked(command, from, targets, change, bulk, now, ops, s);
    SentBySome(ops, s);
    ReferenceIntegrity(command, from, targets, change, bulk, now, ops);
    forall j | 0 <= j < |ops| ensures Writes(ops[j], s) <==> SetsStatus(change, ops[j]) && ops[j].task == t {
      assert FieldOp(ops[j]);
    }
    forall j | 0 <= j < |ops| && Writes(ops[j], s) ensures SentAt(ops, s) == Some(ops[j].body[STATUS]) {
      SentByTheOne(ops, j, s);
    }
    forall j | 0 <= j < |ops| && SetsStatus(change, ops[j]) && ops[j].task == t
      ensures ops[j].expected == Some(map[STATUS := Text(Assignment.StatusOf(from[t]))])
    {
      AssignmentsHangTogether(command, from, targets, change, bulk, now, ops, j);
    }
  }

  /** With no field in common, the one that writes a field decides it. */
  lemma {:induction false} SentByTheOne(ops: seq<NewOp>, j: nat, s: Slot)
    requires DisjointClaims(ops) && j < |ops| && Writes(ops[j], s)
    ensures SentAt(ops, s) == Some(ops[j].body[s.field])
  {
    var n := |ops| - 1;
    if j < n {
      assert !Writes(ops[n], s) by {
        assert s.field in Claims(ops[j]);
      }
      assert ops[..n][j] == ops[j];
      SentByTheOne(ops[..n], j, s);
    }
  }

  /** That operation is the one `AssignmentRace` sends: it says the same. */
  lemma RacesAsPlanned(
    command: string, from: Cache, targets: seq<string>, change: Change, bulk: bool, now: int, ops: seq<NewOp>, j: nat,
    before: Option<string>)
    requires (forall t :: t in targets ==> t in from) && Distinct(targets) && change.Edit? && j < |ops|
    requires ChangePlan(command, from, targets, change, bulk, now) == Ok(ops) && SetsStatus(change, ops[j])
    ensures ops[j].task in from && change.assign.Some? && AssignmentRace.CanPlan(from[ops[j].task], change.assign.value)
    ensures AssignmentRace.EditOf(ops[j])
            == AssignmentRace.Asked(from[ops[j].task], change.assign.value, before).edit
  {
    ChangesAreFieldOps(command, from, targets, change, bulk, now, ops);
    StatusIsGuarded(command, from, targets, change, bulk, now, ops, ops[j].task);
    AskedIsPlanned(from[ops[j].task], change.assign.value);
    AssignmentRace.AskedIs(from[ops[j].task], change.assign.value, before);
  }

  lemma AskedIsPlanned(task: Task, assign: Assignment.Change)
    requires AskedStatus(assign, task).Some?
    ensures AssignmentRace.CanPlan(task, assign)
    ensures AskedStatus(assign, task).value == if assign.Assign? then Assignment.WAITING else Assignment.NOT_STARTED
  {
    if assign.Unassign? {
      ClearsWhatIsThere(task, assign.keepStatus);
    }
  }
}
