/**
 Dates and recurrences of tasks: what an edit may ask for, and the body it
 sends, complete enough that Graph has nothing to work out itself.
 */
module TaskDates {
  import opened Entities

  datatype Clearable<+T> = Set(value: T) | Clear

  /** A recurrence as sent by a client: `shaped` if it has a pattern type and a start date. */
  datatype RecurrenceText = RecurrenceText(shaped: bool, pattern: string, first: Option<int>)

  /** An edit. A day or a time is `None` where what was typed can't be read as one. */
  datatype Edit = Edit(
    title: Option<string>, due: Option<Clearable<Option<int>>>, importance: Option<string>,
    reminder: Option<Clearable<Option<int>>>, notes: Option<string>,
    start: Option<Clearable<Option<int>>>, recurrence: Option<Clearable<RecurrenceText>>,
    categories: Option<seq<string>>)

  datatype Error = Unreadable | EmptyTitle | EmptyCategory | NeedsDue | NotTheSameDay | StartNotFirst
                 | NothingToChange | RepeatsAlready

  // ----- What an edit sends -----

  function DayValue(day: Option<int>): Value
  {
    if day.Some? then Day(day.value) else Null
  }

  function TimeValue(at: Option<int>): Value
  {
    if at.Some? then Minute(at.value) else Null
  }

  /** A day or time as typed can be read, if there is one. */
  predicate Readable(day: Option<Clearable<Option<int>>>)
  {
    day.Some? && day.value.Set? ==> day.value.value.Some?
  }

  function Typed(day: Clearable<Option<int>>): Option<int>
  {
    if day.Set? then day.value else None
  }

  predicate Blank(text: string)
  {
    forall c :: c in text ==> Space(c)
  }

  /** Why an edit can't be made, in the order it is checked. */
  function EditError(edit: Edit): Option<Error>
  {
    if edit.title.Some? && Blank(edit.title.value) then Some(EmptyTitle)
    else if !Readable(edit.due) || !Readable(edit.reminder) then Some(Unreadable)
    else if edit.start.Some? && edit.start.value.Set? && edit.due == Some(Clear) then Some(NeedsDue)
    else if !Readable(edit.start) then Some(Unreadable)
    else if edit.recurrence.Some? && edit.recurrence.value.Set? && RecurrenceError(edit).Some? then
      RecurrenceError(edit)
    else if edit.categories.Some? && exists name :: name in edit.categories.value && Blank(name) then
      Some(EmptyCategory)
    else None
  }

  /** A recurrence starts on the due date, and on the start date, of the edit that sets it. */
  function RecurrenceError(edit: Edit): Option<Error>
    requires edit.recurrence.Some? && edit.recurrence.value.Set?
  {
    var r := edit.recurrence.value.value;
    if !r.shaped || r.first.None? then Some(Unreadable)
    else if edit.start.Some? && edit.start.value.Set? && edit.start.value.value != r.first then Some(StartNotFirst)
    else if edit.due == Some(Clear) then Some(NeedsDue)
    else if edit.due.Some? && edit.due.value.value != r.first then Some(NotTheSameDay)
    else None
  }

  /** The fields in the order they are pushed, written into one body; one with none is for the caller to refuse. */
  function EditBody(edit: Edit): Result<Entity, Error>
  {
    if EditError(edit).Some? then Err(EditError(edit).value)
    else
      var body: Entity := map[];
      var body := if edit.title.Some? then body[TITLE := Text(edit.title.value)] else body;
      var body := if edit.due.Some? then body[DUE := DayValue(Typed(edit.due.value))] else body;
      var body := if edit.importance.Some? then body[IMPORTANCE := Text(edit.importance.value)] else body;
      var body := if edit.reminder.Some?
                  then body[REMINDER_ON := Flag(edit.reminder.value.Set?)]
                           [REMINDER := TimeValue(Typed(edit.reminder.value))] else body;
      var body := if edit.notes.Some? then body[NOTES := Text(edit.notes.value)] else body;
      var body := if edit.start.Some? then body[START := DayValue(Typed(edit.start.value))] else body;
      var body := match edit.recurrence
                  case None => body
                  case Some(Clear) => body[RECURRENCE := Null]
                  case Some(Set(r)) =>
                    (if edit.due.None? then body[DUE := DayValue(r.first)] else body)
                    [RECURRENCE := Repeats(r.pattern, r.first.value)];
      var body := if edit.categories.Some? then body[CATEGORIES := Ids(edit.categories.value)] else body;
      Ok(body)
  }

  // ----- What a task is sent of it -----

  predicate IsSet(e: Entity, f: Key)
  {
    Get(e, f) != Null
  }

  /** `changes`, one change's fields, as the task `raw` is sent them. */
  function TaskBody(changes: Entity, raw: Entity): Result<Entity, Error>
  {
    var start, due, recurrence := Get(changes, START), Get(changes, DUE), Get(changes, RECURRENCE);
    var repeats := if RECURRENCE in changes then recurrence != Null else IsSet(raw, RECURRENCE);
    if start != Null && repeats && recurrence == Null then
      Err(RepeatsAlready)
    else
      var dated := if start != Null && due == Null
                   then changes[DUE := if IsSet(raw, DUE) then raw[DUE] else start] else changes;
      Ok(if recurrence != Null && start == Null && due != Null && IsSet(raw, START) && START !in changes
         then dated[START := due] else dated)
  }

  /** As the source writes it: a copy of the changes, with the dates put in place. */
  method FillTaskBody(changes: Entity, raw: Entity) returns (r: Result<Entity, Error>)
    ensures r == TaskBody(changes, raw)
  {
    var body := changes;
    var start, due, recurrence := Get(body, START), Get(body, DUE), Get(body, RECURRENCE);
    var repeats := IsSet(raw, RECURRENCE);
    if RECURRENCE in body {
      repeats := body[RECURRENCE] != Null;
    }
    if start != Null && repeats && recurrence == Null {
      return Err(RepeatsAlready);
    }
    if start != Null && due == Null {
      var own := start;
      if IsSet(raw, DUE) {
        own := raw[DUE];
      }
      body := body[DUE := own];
    }
    if recurrence != Null && start == Null && due != Null && IsSet(raw, START) && START !in body {
      body := body[START := due];
    }
    return Ok(body);
  }

  // ----- Date bodies are closed -----

  predicate Repeating(edit: Edit)
  {
    edit.recurrence.Some? && edit.recurrence.value.Set?
  }

  predicate Starting(edit: Edit)
  {
    edit.start.Some? && edit.start.value.Set?
  }

  ghost predicate Carries(body: Entity, f: Key, value: Option<Value>)
  {
    if value.Some? then f in body && body[f] == value.value else f !in body
  }

  /** What an edit asks for of each date: a recurrence asks for its first day as due date. */
  ghost predicate Asks(edit: Edit, changes: Entity)
  {
    && Carries(changes, START, if edit.start.Some? then Some(DayValue(Typed(edit.start.value))) else None)
    && Carries(changes, DUE,
         if edit.due.Some? then Some(DayValue(Typed(edit.due.value)))
         else if Repeating(edit) then Some(DayValue(edit.recurrence.value.value.first)) else None)
    && STATUS !in changes
    && (edit.recurrence.None? ==> RECURRENCE !in changes)
    && (edit.recurrence == Some(Clear) ==> RECURRENCE in changes && changes[RECURRENCE] == Null)
    && (Repeating(edit) ==>
          var r := edit.recurrence.value.value;
          && r.first.Some? && RECURRENCE in changes && changes[RECURRENCE] == Repeats(r.pattern, r.first.value)
          && (edit.due.Some? ==> edit.due.value == Set(r.first))
          && (Starting(edit) ==> edit.start.value.value == r.first))
    && (Starting(edit) ==> edit.start.value.value.Some? && edit.due != Some(Clear))
    && Readable(edit.due)
  }

  /** An accepted edit sends what it asks for. */
  lemma EditAsks(edit: Edit, changes: Entity)
    requires EditBody(edit) == Ok(changes)
    ensures Asks(edit, changes)
  {
  }

  /** Setting a recurrence leaves the due date on its first day, and the start date there or nowhere. */
  lemma RecurrenceSetsItsDay(edit: Edit, changes: Entity, raw: Entity, body: Entity)
    requires EditBody(edit) == Ok(changes) && TaskBody(changes, raw) == Ok(body) && Repeating(edit)
    ensures edit.recurrence.value.value.first.Some?
    ensures var first, after := edit.recurrence.value.value.first.value, Merge(raw, body);
            && Get(after, DUE) == Day(first)
            && Get(after, START) in {Null, Day(first)}
            && Get(after, RECURRENCE) == Repeats(edit.recurrence.value.value.pattern, first)
  {
    EditAsks(edit, changes);
    RecurrenceInBody(edit, changes, raw, body);
    MergeReads(raw, body, DUE);
    MergeReads(raw, body, START);
    MergeReads(raw, body, RECURRENCE);
  }

  lemma RecurrenceInBody(edit: Edit, changes: Entity, raw: Entity, body: Entity)
    requires Asks(edit, changes) && TaskBody(changes, raw) == Ok(body) && Repeating(edit)
    ensures var r := edit.recurrence.value.value;
            && Carries(body, DUE, Some(Day(r.first.value)))
            && Carries(body, RECURRENCE, Some(Repeats(r.pattern, r.first.value)))
            && (if START in body then body[START] in {Null, Day(r.first.value)} else !IsSet(raw, START))
  {
  }

  /** Setting a start date leaves a due date: the edit's, else the recurrence's, else the task's, else the start. */
  lemma StartLeavesADueDate(edit: Edit, changes: Entity, raw: Entity, body: Entity)
    requires EditBody(edit) == Ok(changes) && TaskBody(changes, raw) == Ok(body) && Starting(edit)
    ensures edit.start.value.value.Some?
    ensures var day, after := edit.start.value.value.value, Merge(raw, body);
            && Get(after, START) == Day(day)
            && Get(after, DUE)
               == (if edit.due.Some? then DayValue(Typed(edit.due.value))
                   else if Repeating(edit) then DayValue(edit.recurrence.value.value.first)
                   else if Get(raw, DUE) != Null then Get(raw, DUE)
                   else Day(day))
            && Get(after, DUE) != Null
  {
    EditAsks(edit, changes);
    StartInBody(edit, changes, raw, body);
    MergeReads(raw, body, DUE);
    MergeReads(raw, body, START);
  }

  lemma StartInBody(edit: Edit, changes: Entity, raw: Entity, body: Entity)
    requires Asks(edit, changes) && TaskBody(changes, raw) == Ok(body) && Starting(edit)
    ensures var day := edit.start.value.value.value;
            && Carries(body, START, Some(Day(day)))
            && Carries(body, DUE, Some(
                 if edit.due.Some? then DayValue(Typed(edit.due.value))
                 else if Repeating(edit) then DayValue(edit.recurrence.value.value.first)
                 else if Get(raw, DUE) != Null then Get(raw, DUE)
                 else Day(day)))
            && body[DUE] != Null
            && (Repeating(edit) || edit.recurrence == Some(Clear) || !IsSet(raw, RECURRENCE))
  {
  }

  /** The one thing a task refuses: a start date while it goes on repeating with no new recurrence. */
  lemma StartOnRepeatingRefused(edit: Edit, changes: Entity, raw: Entity)
    requires EditBody(edit) == Ok(changes)
    ensures TaskBody(changes, raw).Err?
            <==> Starting(edit) && edit.recurrence.None? && Get(raw, RECURRENCE) != Null
  {
    EditAsks(edit, changes);
  }

  /** An edit never touches the status, nor a date it says nothing about and nothing it sets brings. */
  lemma EditKeepsTheRest(edit: Edit, changes: Entity, raw: Entity, body: Entity)
    requires EditBody(edit) == Ok(changes) && TaskBody(changes, raw) == Ok(body)
    ensures STATUS !in body && (edit.recurrence.None? ==> RECURRENCE !in body)
    ensures edit.due.None? && edit.start.None? && edit.recurrence.None? ==> DUE !in body
    ensures edit.start.None? && edit.recurrence.None? ==> START !in body
  {
    EditAsks(edit, changes);
  }

  /**
   What Graph makes of a body. A start with no due date, sent or had, is made
   the due date; a lone start changes nothing if the task repeats. A recurrence
   takes a start it comes with to its first day, and shifts the due date as
   far; with no due date, Graph makes one up, `made`.
   */
  function GraphApply(raw: Entity, body: Entity, made: int): Entity
  {
    var after := Merge(raw, body);
    if IsSet(body, START) && RECURRENCE !in body && IsSet(raw, RECURRENCE) then
      Merge(raw, body - {START})
    else if IsSet(body, RECURRENCE) && body[RECURRENCE].Repeats? then
      var due := if Get(after, DUE).Day? then Get(after, DUE).day else made;
      if Get(after, START).Day? then
        var first := body[RECURRENCE].first;
        after[START := Day(first)][DUE := Day(due + first - Get(after, START).day)]
      else
        after[DUE := Day(due)]
    else if IsSet(body, START) && DUE !in body && !IsSet(raw, DUE) then
      after[DUE := body[START]]
    else
      after
  }

  /**
   Graph has nothing to work out: for every task and every accepted edit, what
   it makes of the body is the body over the task, as the cache shows at once.
   */
  lemma NothingLeftToInfer(edit: Edit, changes: Entity, raw: Entity, body: Entity, made: int)
    requires EditBody(edit) == Ok(changes) && TaskBody(changes, raw) == Ok(body)
    ensures GraphApply(raw, body, made) == Merge(raw, body)
  {
    EditAsks(edit, changes);
    if Repeating(edit) {
      RecurrenceSetsItsDay(edit, changes, raw, body);
      RecurrenceInBody(edit, changes, raw, body);
      SettledRecurrence(raw, body, made);
    } else {
      NoRecurrence(edit, changes, raw, body, made);
    }
  }

  /** Graph moves nothing when a recurrence comes with its first day as due date, and start date if any. */
  lemma SettledRecurrence(raw: Entity, body: Entity, made: int)
    requires IsSet(body, RECURRENCE) && body[RECURRENCE].Repeats?
    requires Get(Merge(raw, body), DUE) == Day(body[RECURRENCE].first)
    requires Get(Merge(raw, body), START) in {Null, Day(body[RECURRENCE].first)}
    ensures GraphApply(raw, body, made) == Merge(raw, body)
  {
    var after, first := Merge(raw, body), body[RECURRENCE].first;
    if Get(after, START).Day? {
      assert after[START := Day(first)][DUE := Day(first)] == after;
    } else {
      assert after[DUE := Day(first)] == after;
    }
  }

  lemma NoRecurrence(edit: Edit, changes: Entity, raw: Entity, body: Entity, made: int)
    requires Asks(edit, changes) && TaskBody(changes, raw) == Ok(body) && !Repeating(edit)
    ensures GraphApply(raw, body, made) == Merge(raw, body)
  {
    if Starting(edit) {
      StartInBody(edit, changes, raw, body);
    }
  }
}
