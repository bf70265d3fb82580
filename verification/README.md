# The write planner and undo engine of ms-todo, in Dafny

ms-todo's daemon turns every change a user asks for into a *command*: a list of
operations, each with the fields it sets, a record of what they were, and
references to other operations of the command. A command changes the local
cache at once and is sent to Microsoft Graph later, while phones and other
machines write to the same tasks. It can be undone, the undo can be undone, and
it can be repeated under an idempotency key. This project models that engine
and proves what it keeps over whole runs and under interference.

`dafny verify dfyconfig.toml` checks everything.

## The modules

| file | models |
|---|---|
| `Entities`, `OpIds`, `Outbox` | JSON documents field by field, operation IDs, queueing a command |
| `Sequences` | small things about sequences |
| `UndoLifecycle` | undoing deletes and creates |
| `Undo` | the undo loop: inverses, refusals, operations left alone with the one they are part of |
| `UndoSafety` | undo under interference: the cache at the undo is arbitrary |
| `UndoOutcome` | what an undo takes back, reports and refuses, told operation by operation |
| `CommandLog` | a log of commands and undos of anything: what a bare undo picks, and the stack of copies it behaves as |
| `UndoRuns` | runs of commands and undos: the log of inverses refines a stack of snapshots |
| `UndoSelective`, `SelectiveRuns` | undoing an earlier command among others, and in the log of any run |
| `TaskDates`, `Dates` | start, due and recurrence bodies; days that travel as instants |
| `Assignment`, `AssignmentRace` | who a task waits on, and its guarded protocol as a state machine |
| `Planner`, `MyDay` | building commands for task changes |
| `ChangeOutcome`, `MyDayOutcome` | what such a command sends and makes of the tasks, told from what was asked; which changes are accepted |
| `PlannedChanges`, `UndoOfPlanned` | planned commands, read from one cache and queued on another, and their undos under interference |
| `AskedRuns` | runs of changes as users ask for them |
| `Reminder`, `ReminderRuns` | a reminder in the cache and in Graph over completions, reopens, undos and redos |
| `Idempotency` | at-most-once keys as a store object and as a state machine with crashes |
| `StableSort`, `Folders`, `FolderOrdering`, `FolderRuns` | list folders and their ordering plans |
| `FolderOutcome` | the order lists are shown in, what each folder command makes of each list, and which are refused |
| `ListUndo`, `FolderUndo`, `FolderUndoRuns`, `FolderUndoCases` | undoing folder commands, one by one and over runs |
| `Related`, `RelatedRuns` | links between tasks, as sets kept in sequences |
| `Steps` | checklist items and their undo |

Dates are day numbers and reminders minutes, except in `Dates`, which is about
the instants they travel as, with zones as fixed offsets. A field that is
absent and one that is null read the same everywhere in the daemon, so
documents hold no nulls. Lists are told by their position in first-seen order,
as the source's references to rows do. The lower-casing used to compare folder
names, the clock, and generated IDs are parameters.

## What turned out not to hold

Each of these is proved: the input that shows it, and exactly when the property
holds.

- *Undo straight after adding tasks to My Day puts them back.* Not when one
  already carries `myDayDueSet` and becomes due today (added yesterday and
  added again today, say): the command writes the flag twice, the undo takes
  that for a later change, and the task stays in today's My Day. It holds
  exactly when the tasks are live and the command writes no flag twice
  (`MyDay.AddThenUndo`).
- *A change undone straight after leaves every task as it was.* A change is
  planned from tasks as read, and queued on them as they are by then. A reopen
  brings back the reminder's time it read; if a sync moved the time in between
  and the reminder is off, the undo leaves the old time there and reports
  nothing (`UndoOfPlanned.ReopenedAsItMoved`); and a task deleted in between
  comes back to life, or stops the undo. It holds exactly when neither happened
  (`PlannedChanges.ChangeThenUndo`).
- *An assignment's status edit never overwrites a status it was not planned
  from.* After a refused etag the edit is compared with the record made when it
  was queued, not with the status it was planned from. If the cached status
  changed between planning and queueing, the re-send can go over that status,
  even `completed`. It holds exactly when the recorded status is the planned
  one or the one the edit sets (`AssignmentRace.SafeExactlyWhenConsistent`).
- *An undo changes a field only if its operation set it.* A completion's undo
  also brings back a reminder the completion found on. A planned completion
  says that it turns the reminder off if it read it on. Planned while the
  reminder was off and queued once a sync had turned it on, it says nothing:
  if another device then turns the reminder off, the undo turns it on, and
  refuses nothing (`UndoOfPlanned.CompletedAsItCameOn`). For commands as planned
  the property holds exactly when each completion whose task had its reminder
  on, with a time, when it was queued had read it on
  (`UndoOfPlanned.PlannedUndoChangesOnlyWhatHolds`). The undo of a reopen is a
  completion that may say nothing either: undoing it turns on a reminder
  another device turned off (`UndoOfPlanned.UndoneReopenTurnsReminderOn`). For
  any command, it does exactly when the reminder was on before it at the time it
  has now (`UndoSafety.ReminderAfterUndo`).
- *No undo puts back an assignment's status or flag when it left the assignee
  alone.* It holds of the assignment's own undo (`PlannedChanges.AssigneeMovedOn`),
  but an undo's operations are part of nothing: with the assignment undone and
  the task given to someone else, undoing the undo makes it `waitingOnOthers` and
  flags it under them (`UndoOfPlanned.RedoneUnderAnother`). With the assignee
  moved on, an operation is put back exactly when it isn't part of the assignee's
  and what it set still holds (`UndoSafety.PutBackExactly`,
  `UndoOfPlanned.RedoPutsBackExactly`).
- *The cache and Graph agree on the reminder after every undo.* Undos by name
  and out of order can complete a task again, saying nothing of its reminder,
  while it is on; Graph turns it off and the cache doesn't. They agree exactly
  when the undo doesn't do that, nor the reverse (`Reminder.UndoAgreesExactly`).
  They agree after every run in order (`ReminderRuns.InOrderRunAgrees`): bare
  undos, and redos straight after an undo, while the clock doesn't go back. A
  redo that waits, or a clock set back, can part them
  (`ReminderRuns.LateRedoParts`, `ReminderRuns.ClockBackParts`).
- *The lists of a folder keep one `folderOrder`.* An undo that succeeds can bring
  back a number its folder no longer has: an undo by name
  (`FolderUndoCases.OldNumberComesBack`), and a bare one once a redo has come
  between (`FolderUndoCases.BareUndoAfterRedo`). It holds after an undo exactly
  when, by what the command recorded and what the lists carry now, it fits: a
  move or a folder's delete, when each recorded number is the one the other
  lists of the recorded folder carry; a folder's order, when it is the one the
  other lists of the present folder carry; a rename, when its lists carry the
  number of their old folder; an order of lists, always
  (`FolderUndo.UndoKeepsCommonExactly`). With folder commands and bare undos alone
  it holds with no condition (`FolderUndoRuns.InOrderRunKeeps`).
- *Undoing an uncheck puts a step back.* Its checked time stays gone
  (`Steps.CheckThenUndo`).
- *Planning the same folder move again is empty.* A name that fits two folders
  by case alone can find the other one once they are reordered
  (`FolderRuns.AmbiguousAgain`). It is empty exactly when the folders the names
  then find stand next to each other (`FolderRuns.OrderFolderAgainExactly`),
  which unambiguous names always do (`FolderRuns.OrderFolderAgain`).
- *Every answer after a key's first success is that result or `outcome_unknown`.*
  A request that failed and freed its key before can be told so after
  (`Idempotency.LateFailure`), and one whose claim fails in the store is told
  that. Every request that comes after the success gets one of those answers
  (`Idempotency.AnswersFit`), and which one depends only on whether the result
  was recorded (`Idempotency.ToldExactly`).

## Model

| member | source | states |
|---|---|---|
| `OpIds.OpIdsDistinct` | crates/daemon/src/outbox/mod.rs:87-99 | Two operations of a command have the same ID exactly when they have the same index. |
| `OpIds.OpIdReads` | crates/daemon/src/outbox/mod.rs:87-99 | The first operation has the command's own ID, every other that, a dot and its index in decimal. |
| `Entities.MergeReads` | crates/store/src/outbox/enqueue.rs:72-80 | Applying a body gives each field it names its value, a null taking it out, and leaves the others. |
| `Outbox.LastWriter` | crates/store/src/outbox/enqueue.rs:86-248 | After a command's operations are applied in order, a field holds what the last operation that writes it gave it. |
| `UndoRuns.QueuedRecordsOp` | crates/store/src/outbox/enqueue.rs:86-248 | Queueing a command whose operations have no field in common records, for each, what its fields were before the command. |
| `Undo.UndoCommand` | crates/daemon/src/undo.rs:107-313 | The loop, with its early errors, computes the plan every theorem below is about. |
| `UndoOutcome.UndoOutcomeExactly` | crates/daemon/src/undo.rs:115-313 | Of any command over any cache, with nothing to stop the undo: it succeeds if and only if some operation that took effect, on no task the command made earlier and part of none left alone, still has every field it set; it reports exactly the tasks of those operations that don't, each once; with none to take back it names exactly those tasks, or says there is nothing to undo. |
| `UndoOutcome.StopsAtTheFirst` | crates/daemon/src/undo.rs:115-151 | The first operation with an unknown outcome, an uncached task, a task deleted or live as it shouldn't be, or no record refuses the whole undo, with that error. |
| `UndoOutcome.UndoSendsExactly` | crates/daemon/src/undo.rs:115-313 | An undo queues one operation for each to be taken back, in their order, and no other: a delete for a create, a create for a delete, and else the same fields with their values from before (but the reminder's for a completion or reopen), part of nothing, waiting for nothing and with no guard. |
| `UndoOutcome.ActionsPair` | crates/daemon/src/undo.rs:342-416 | The undo of a completion is a reopen, of adding to My Day a removal, and the other way round; a rollover's is an addition. |
| `UndoSafety.UndoChangesOnlyWhatHolds` | crates/daemon/src/undo.rs:164-195 | Of any command, whatever other devices wrote since: a field an undo changes was set by an operation all of whose fields still hold what it set, and goes back to what that operation recorded; or it is the reminder of an operation that completed, on before it at the time it has now. |
| `UndoSafety.ReminderAfterUndo` | crates/daemon/src/undo.rs:181-194 | That exception is exact: undoing a completion or reopen that said nothing of the reminder turns it on when it was on before at the time it has now, and otherwise leaves it. |
| `UndoOfPlanned.PlannedUndoChangesOnlyWhatHolds` | crates/daemon/src/undo.rs:164-195 | Of a command planned from tasks as read and queued on them as they are by then: whatever other devices write and whatever becomes of its operations, a field its undo changes is one an operation of it set, all of whose fields still hold, and goes back to what it was, if and only if each completion whose task had its reminder on, with a time, when queued had read it on. |
| `UndoOfPlanned.CompletedAsItCameOn` | crates/daemon/src/task_writes.rs:521-540 | For every task read with its reminder off and queued on with it on: completed, the reminder turned off elsewhere; the undo turns it on, which no operation set, and refuses nothing. |
| `UndoOfPlanned.ReopenedAsItMoved` | crates/daemon/src/task_writes.rs:521-540 | A reopen that read one reminder time and is queued once it is another, undone straight after: nothing is refused, and the time read stays. |
| `UndoOfPlanned.UndoneReopenTurnsReminderOn` | crates/daemon/src/undo.rs:424-430 | For every task under way with its reminder on: reopened, that undone, the reminder turned off elsewhere; undoing the undo turns it on and reports nothing, though no operation of it set the reminder. |
| `UndoSafety.RestoredWhole` | crates/daemon/src/undo.rs:410-452 | An operation that is undone has every field it set back to its value before (but the reminder time a reopen sent for a reminder that was off stays). |
| `UndoSafety.LeftAloneWhole` | crates/daemon/src/undo.rs:164-180 | An operation that is not undone keeps every field it set as it is now. |
| `UndoSafety.UndoneOrReported` | crates/daemon/src/undo.rs:116-133 | Every operation that took effect is undone while all its fields hold, or left alone with its task among the refused. |
| `UndoSafety.PartStaysWithWhole` | crates/daemon/src/undo.rs:125-133 | An operation that is part of one left alone is never undone. |
| `UndoSafety.PutBackExactly` | crates/daemon/src/undo.rs:125-180 | With one operation moved on, another is put back exactly if it is not part of it and what it set still holds. |
| `UndoSafety.InverseValues` | crates/daemon/src/undo.rs:410-447 | Every field an inverse sends has its value from before the operation. |
| `UndoSafety.UndoDisjoint` | crates/daemon/src/undo.rs:342-360 | An undo, partly refused or not, of a command no two of whose operations have a field in common is such a command. |
| `UndoRuns.UndoRestores` | crates/daemon/src/undo.rs:57-313 | Undoing a command straight after it refuses nothing, gives exactly the cache from before, and is itself a command that can be undone. |
| `UndoRuns.TakenBackExactly` | crates/daemon/src/undo.rs:57-313 | Any command of field writes with no field in common, undone straight after, is taken back with nothing refused exactly when each operation found its task live and no reopen moved the time of a reminder that was off. |
| `UndoRuns.UndoIsAStackOfSnapshots` | crates/store/src/outbox/reads.rs:111-143 | Whatever the log holds when a run of field commands and bare undos starts, commands the daemon made itself among it, the cache is always what a stack of whole copies would hold; while the stack has one to go back to, a bare undo succeeds and goes back to it, and if nothing before the run can be undone, only then. |
| `CommandLog.LastIsLatest` | crates/store/src/outbox/reads.rs:111-143 | A bare undo picks the latest command that is a user's, no undo, and not undone, whatever was logged since. |
| `UndoRuns.LastInFirstOut` | crates/daemon/src/undo.rs:57-313 | Whatever the log holds already, after n commands n bare undos all succeed and bring every task back to its state before the run; if nothing before it can be undone, one more is refused. |
| `UndoRuns.UndoRedoAlternates` | crates/daemon/src/undo.rs:57-313 | However often the latest command is undone and redone, each succeeds and the cache alternates between its two states. |
| `UndoSelective.SelectiveUndo` | crates/daemon/src/undo.rs:144-264 | Undoing an earlier command whose fields no later operation touched gives exactly what replaying all the other operations without it gives. |
| `SelectiveRuns.SelectiveInRun` | crates/daemon/src/undo.rs:57-264 | After any run of changes as users ask for them and of undos, bare or by name, whole or partly refused, so does undoing by name any of its commands or undos not undone whose fields nothing logged later touched: the cache is what replaying the run's other logged operations from its start gives. |
| `SelectiveRuns.UndoIsPlanned` | crates/daemon/src/undo.rs:107-313 | The undo of a command in such a run, however much of it is refused, is a command the undo theorems apply to. |
| `UndoLifecycle.DeleteThenUndo` | crates/daemon/src/undo.rs:451-475 | Deleting any tasks, as planned and queued, and undoing that refuses nothing, sends every creatable field each had, and leaves every task live with its fields over Graph's defaults and its extension as it was. |
| `UndoLifecycle.RecreatedFields` | crates/daemon/src/undo.rs:451-475 | A re-created task has every field it had, and a default only where it had none. |
| `UndoLifecycle.RecreatedExactly` | crates/daemon/src/task_writes.rs:498-511 | It is exactly the task there was when that had every field a new task gets, its created and modified times among them. |
| `UndoLifecycle.LiveAgainRefused` | crates/daemon/src/undo.rs:145-147 | A deleted task that is live again refuses the whole undo. |
| `UndoLifecycle.CreateUndone` | crates/daemon/src/undo.rs:111-151 | A command that made a task and did more to it is undone by one delete, whatever became of the rest. |
| `Planner.ChangeTasks` | crates/daemon/src/task_writes.rs:128-285 | The checks, bodies and operation loop compute the plan the theorems below are about, with the first error that stops it. |
| `ChangeOutcome.SendsWhatIsAsked` | crates/daemon/src/task_writes.rs:128-285 | An accepted change gives each field of each task exactly the value asked for it, told field by field from the edit and the task as read, and writes no other. |
| `ChangeOutcome.ChangeMeans` | crates/daemon/src/task_fields.rs:143-229 | So after it is queued, on any cache, each target's title, notes, importance, categories, dates, recurrence, reminder with its flag, status, deferral day, someday, nag, assignee and flag are as asked, and every other field and task is as it was. |
| `ChangeOutcome.AcceptedExactly` | crates/daemon/src/task_writes.rs:128-285 | A change is planned if and only if its edit names something, everything typed can be read, its dates agree with its recurrence, its nag fits and has a reminder on every task, a title or notes go to one task, and no task starts afresh while it goes on repeating. |
| `ChangeOutcome.ErrorsAreTrue` | crates/daemon/src/task_writes.rs:128-285 | What a refused change is told is so, of the edit or of the task named. |
| `Planner.ReferenceIntegrity` | crates/daemon/src/task_writes.rs:250-277 | Every planned command numbers its operations in order with distinct IDs, each `after` and `part_of` names an earlier operation on the same task, and no two operations have a field in common. |
| `PlannedChanges.ChangesArePlanned` | crates/daemon/src/task_writes.rs:128-285 | Every change but a delete or the completion of a repeating task, planned from tasks as read, is on the tasks it is queued on a command the undo theorems apply to, exactly when no reopen brings another reminder time than a task with its reminder off has. |
| `PlannedChanges.AsRead` | crates/daemon/src/task_writes.rs:521-529 | A reopen is never such a one while the task's reminder time is the one it read. |
| `PlannedChanges.ChangeThenUndo` | crates/daemon/src/task_writes.rs:250-277 | Any such change to any tasks, queued on them as they are by then and undone straight after, leaves every task exactly as it was if and only if they were all live and no such reopen was among it. |
| `AskedRuns.AskedRunsAreValid` | crates/daemon/src/task_writes.rs:128-285 | Every run of such changes, of My Day commands that write no flag twice, and of bare undos, whenever the tasks of each were read, is one `UndoRuns` covers. |
| `AskedRuns.ChangesUndoneInTurn` | crates/daemon/src/undo.rs:57-313 | Last in, first out for runs of edits, completions, reopens, deferrals, nags, assignments and My Day changes as users ask for them, whatever the log holds already. |
| `PlannedChanges.AssigneeMovedOn` | crates/daemon/src/assignment.rs:177-200 | An edit's status change and flag are part of an assignee write on the same task, and if that assignee has moved on, whatever else was written, an undo of the edit leaves both as they are. |
| `UndoOfPlanned.RedoPutsBackExactly` | crates/daemon/src/undo.rs:342-360 | An operation of an undo is put back exactly if what it set still holds, whatever became of the others: it is part of none. |
| `UndoOfPlanned.RedoneUnderAnother` | crates/daemon/src/undo.rs:342-360 | For every task that assigning makes waiting: assigned, that undone, given to someone else elsewhere; undoing the undo reports the task, leaves that assignee, and puts back the status and the flag. |
| `Planner.AnswerRows` | crates/daemon/src/task_writes.rs:406-413 | Reversing, keeping the first of each and reversing back keeps each task's last row. |
| `Planner.LastRowsAnswers` | crates/daemon/src/task_writes.rs:406-413 | Every task is answered exactly once, as it is after its last operation. |
| `MyDay.Change` | crates/daemon/src/my_day/mod.rs:187-264 | The loop over the tasks computes the command the theorems below are about. |
| `MyDayOutcome.MyDayMeans` | crates/daemon/src/my_day/mod.rs:85-264 | A task added is in today's My Day, due today exactly where it had no due date or one ms-todo set for an earlier My Day, and flagged exactly then; one removed is in none, unflagged, and loses its due date exactly when ms-todo set it, it is that day, and the task is open and doesn't repeat; all else is as it was. |
| `MyDayOutcome.CommandsHangTogether` | crates/daemon/src/my_day/mod.rs:138-183 | Each due-date write is guarded by the due date the task was read with, a flag waits for its task's, and nothing else is guarded, waits or is part of anything. |
| `MyDay.AddThenUndo` | crates/daemon/src/my_day/mod.rs:138-264 | Adding any tasks to My Day, planned from tasks as read, and undone straight after, is taken back with nothing refused exactly when the tasks are live and no task's `myDayDueSet` was written twice. |
| `MyDay.TwiceIsRefused` | crates/daemon/src/my_day/mod.rs:138-264 | Every task it was written twice for is reported, and stays in today's My Day. |
| `MyDay.AddedAgainNextDay` | crates/daemon/src/my_day/mod.rs:85-110 | A task due since yesterday's My Day and added again today is such a case. |
| `MyDay.RemoveThenUndo` | crates/daemon/src/my_day/mod.rs:114-264 | An undo straight after taking any tasks out of My Day puts them back, due dates and flags with them, exactly when they are live. |
| `MyDay.OpsRefer` | crates/daemon/src/my_day/mod.rs:138-264 | A My Day command's operation IDs are distinct across its tasks, and each flag waits for an earlier operation on the same task. |
| `Assignment.PushPlanOps` | crates/daemon/src/assignment.rs:169-201 | The operations pushed one by one, with their references and precondition, are the planned ones. |
| `ChangeOutcome.AssignmentsHangTogether` | crates/daemon/src/assignment.rs:169-201 | In every planned change, each status an assignment sets is guarded by exactly the status the task was read with and is part of the assignee's write; its flag is part of that too and waits for the status; no other operation has a guard, is part of anything or waits. |
| `ChangeOutcome.StatusIsGuarded` | crates/daemon/src/assignment.rs:115-153 | A status is set if and only if an open task not waiting yet is given to someone new, or one that waits by ms-todo's doing is taken away, never keeping the status; it is then `waitingOnOthers` or `notStarted` as asked, guarded by the status read. |
| `ChangeOutcome.RacesAsPlanned` | crates/daemon/src/outbox/send.rs:433-463 | The edit `AssignmentRace` sends is the body and guard of that planned operation. |
| `Assignment.PlansAreSound` | crates/daemon/src/assignment.rs:115-165 | A plan never sets or starts from `completed`, never sets a status to itself, and sets the flag only with a status edit to `waitingOnOthers`. |
| `Assignment.AssignThenClear` | crates/daemon/src/assignment.rs:111-153 | Clearing right after assigning takes the status back exactly if assigning set it, or it was ms-todo's already. |
| `AssignmentRace.ReplacesOnlyThePlannedStatus` | crates/daemon/src/outbox/send.rs:433-558 | In every interleaving with other devices' writes, lost answers, crashes and resends, an edit queued on its planned status only ever replaces that status, never `completed` nor one written since that differs. |
| `AssignmentRace.SafeExactlyWhenConsistent` | crates/daemon/src/outbox/send.rs:532-558 | An edit can go over a status it was not planned from in some run exactly when the status recorded at queueing was neither the planned one nor its target. |
| `AssignmentRace.FlagOnlyAfterItsEdit` | crates/daemon/src/outbox/extension_write.rs:105-167 | In every interleaving, `assigneeStatusSet` is written only for a plan whose own status edit Graph made. |
| `AssignmentRace.FlagGoesWithItsEdit` | crates/daemon/src/outbox/extension_write.rs:105-167 | In every interleaving a flag dealt with was written exactly if its edit was made, skipped if that was skipped, and failed if that failed. |
| `AssignmentRace.AloneItLands` | crates/daemon/src/outbox/send.rs:433-480 | With no other device in between, every planned edit is made. |
| `AssignmentRace.MovedBeforeIsSkipped` | crates/daemon/src/outbox/send.rs:433-463 | One that finds another status than it was planned from is skipped for good. |
| `AssignmentRace.MovedBetweenDecides` | crates/daemon/src/outbox/send.rs:493-558 | A status written between the read and the write decides it: the target's own skips it, the one recorded at queueing sends it again, any other fails it. |
| `AssignmentRace.CompletedStays` | crates/daemon/src/assignment.rs:182-188 | From any reachable state with the task completed, no run without outside status writes, and with every edit queued on its planned status or its target, takes it out of `completed`. |
| `AssignmentRace.CompletedCanBeOverwritten` | crates/daemon/src/outbox/send.rs:532-558 | For every planned edit recorded on a completed task, a run that takes it out of `completed`. |
| `Idempotency.KeyStore.ClaimKey` | crates/store/src/idempotency.rs:27-72 | A claim answers fresh, replay, running or mismatch by what the store holds, and holds an unused key. |
| `Idempotency.KeyStore.FinishKey` | crates/store/src/idempotency.rs:74-84 | A held key gets its result, and nothing else changes. |
| `Idempotency.KeyStore.ReleaseKey` | crates/store/src/idempotency.rs:86-93 | The key is forgotten, and nothing else changes. |
| `Idempotency.KeyStore.RunOnce` | crates/daemon/src/idempotency.rs:109-162 | A change runs exactly when its key is unused; the answer and the key afterwards, the failed bookkeeping write included. |
| `Idempotency.KeyStore.SettleUnfinished` | crates/daemon/src/idempotency.rs:166-196 | The start-up loop gives every unfinished key an unknown outcome, but for those whose write fails. |
| `Idempotency.AtMostOnce` | crates/daemon/src/idempotency.rs:109-196 | In every interleaving of requests, abandoned requests, failed writes, crashes and restarts, a key's change is queued at most once. |
| `Idempotency.RecordedIsTold` | crates/daemon/src/idempotency.rs:109-196 | In every interleaving, once a request's result was recorded, whatever follows, restarts among it, every repeat with its fingerprint whose claim doesn't fail in the store is told that result. |
| `Idempotency.ToldExactly` | crates/store/src/idempotency.rs:52-68 | At any moment of any run: a request whose key is unused runs, one with another fingerprint is told so, and a repeat is told its result if and only if that was recorded, and the unknown outcome of the key's operation if and only if none was. |
| `Idempotency.StartUpSettles` | crates/daemon/src/idempotency.rs:166-196 | A start-up changes only keys with no result, whose outcome becomes unknown, unless that write fails. |
| `Idempotency.AnswersAfterSuccess` | crates/daemon/src/idempotency.rs:122-148 | Once it is queued, every request that then comes under the key changes nothing and is answered with that result, or `outcome_unknown` and its operation, or a failure of the store to claim the key; a different request is refused. |
| `Idempotency.AnswersFit` | crates/daemon/src/idempotency.rs:109-162 | In every interleaving, whatever such a request is told, whenever it is told it, is one of those answers. |
| `Idempotency.LateFailure` | crates/daemon/src/idempotency.rs:149-162 | A request that failed and freed its key can be told so after a repeat of it succeeded. |
| `Idempotency.NeverForAnother` | crates/store/src/idempotency.rs:52-68 | While a key is claimed, a change under it is queued only with the fingerprint and operation it is claimed for. |
| `Idempotency.FailureFreesTheKey` | crates/daemon/src/idempotency.rs:149-153 | A failed request queued nothing, and once its key is freed a repeat may run. |
| `ReminderRuns.InOrderRunAgrees` | crates/daemon/src/task_writes.rs:521-540 | From any task on which they agree, the cache and Graph agree on the reminder after every run of completions, reopens, bare undos of the latest command not undone and redos straight after an undo, while the clock doesn't go back. |
| `ReminderRuns.LateRedoParts` | crates/daemon/src/undo.rs:187-192 | A redo of the latest undo that comes after other commands can leave the cache with the reminder on and Graph with it off. |
| `ReminderRuns.ClockBackParts` | crates/store/src/outbox/reads.rs:119-133 | So can a bare undo, in order, once the clock was set back: a redone command is no longer the one it picks. |
| `Reminder.RunAgrees` | crates/daemon/src/undo.rs:181-194 | They agree after every run of completions, reopens, undos and redos of any command in any order, none stranding the reminder. |
| `Reminder.UndoAgreesExactly` | crates/daemon/src/undo.rs:181-194 | After an undo the two agree exactly when it doesn't strand the reminder. |
| `Reminder.InOrderNeverStrands` | crates/daemon/src/undo.rs:181-194 | An undo on the task as its command left it never strands the reminder, nor makes a command whose undo would. |
| `Reminder.TogglingAlternates` | crates/daemon/src/undo.rs:424-430 | Undoing and redoing for ever, the cache and Graph both alternate between two fixed states. |
| `Reminder.OutOfOrderParts` | crates/daemon/src/undo.rs:187-192 | A run of two completions and a late reopen, undone out of order, after which the cache shows the reminder on and Graph has it off. |
| `TaskDates.FillTaskBody` | crates/daemon/src/task_dates.rs:22-63 | The dates put in place one by one give the body the theorems below are about. |
| `TaskDates.RecurrenceSetsItsDay` | crates/daemon/src/task_fields.rs:143-205 | Setting a recurrence leaves the due date on its first day, and the start date there or nowhere. |
| `TaskDates.StartLeavesADueDate` | crates/daemon/src/task_dates.rs:43-54 | Setting a start leaves a due date: the edit's, else the recurrence's first day, else the task's own, else the start. |
| `TaskDates.StartOnRepeatingRefused` | crates/daemon/src/task_dates.rs:32-42 | The only edit a task refuses is a start while it goes on repeating with no new recurrence. |
| `TaskDates.NothingLeftToInfer` | crates/daemon/src/task_dates.rs:22-63 | What Graph's rules for start, due and recurrence make of a body is the body over the task, for every task and accepted edit. |
| `Dates.DayRecovered` | crates/core/src/dates.rs:20-35 | For every day and any two offsets, the day read back is the day written exactly when the offsets are equal, or not whole days apart with the writer's in (-12h, +12h]. |
| `Dates.DayRecoveredOnEarth` | crates/core/src/dates.rs:20-35 | The same for offsets from -12h to +14h, where whole days apart means 24h. |
| `Dates.CompletionIsItsUtcDate` | crates/core/src/dates.rs:47-64 | A completion recorded as a UTC date is that date for every reader; read as a due date it is exactly where the reader's offset isn't a whole number of days. |
| `Dates.CompletionIsItsLocalDay` | crates/core/src/dates.rs:47-64 | A completion given in UTC is of its own user's local day at any time of day, except at midnight in UTC, when it is exactly where the time of day equals the offset; given in another zone it is of the day written. |
| `Dates.NamedZoneIsItsOwnDay` | crates/core/src/dates.rs:20-35 | A due date in a named zone is the day of the nearest midnight there for every reader. |
| `Dates.NoDrift` | crates/daemon/src/task_fields.rs:366-389 | Any number of read, write-back and store cycles in one zone leave the local day of a date from Graph unchanged. |
| `Dates.AsGivenDrifts` | crates/daemon/src/task_fields.rs:366-389 | Sending the value back as it came would lose a day for every user up to 12h east of UTC. |
| `Dates.WrittenAtMidnight` | crates/daemon/src/task_fields.rs:366-389 | What is written back is at midnight: the value itself if it was, else that of its local day, in the user's zone. |
| `StableSort.OnlyOrder` | crates/daemon/src/folders.rs:79-81 | An order sorted by key with ties as found is the one `sort_by_key` gives. |
| `StableSort.NumberedIsSorted` | crates/daemon/src/folders.rs:156-169 | Numbering items 1, 2, 3, … decides their order whatever order they are found in. |
| `Folders.CollectGroups` | crates/daemon/src/folders.rs:30-45 | The loop collects each folder once, where first seen, with all its lists. |
| `Folders.BuildGroups` | crates/daemon/src/folders.rs:30-57 | Collecting, then sorting the folders, then each one's lists gives the groups in order. |
| `Folders.PlaceItem` | crates/daemon/src/folders.rs:247-265 | Taking out, finding the anchor and splicing in gives the placed sequence. |
| `FolderOrdering.PlaceMoves` | crates/daemon/src/folders.rs:247-265 | Placing leaves the others in order and puts the item right before or after its anchor. |
| `FolderOrdering.OrderListIsRight` | crates/daemon/src/folders.rs:132-169 | Applying the plan and sorting again gives the old order with only the list moved next to its anchor, and nothing else in any folder changes place. |
| `FolderOrdering.OrderListIsMinimal` | crates/daemon/src/folders.rs:163-169 | Only lists whose number changes are written, and planning again gives an empty plan. |
| `FolderOrdering.OrderFolderIsRight` | crates/daemon/src/folders.rs:206-235 | Applying the plan and sorting again moves only the folder, next to its anchor, and every folder's lists stay in order. |
| `FolderOrdering.OrderFolderIsMinimal` | crates/daemon/src/folders.rs:224-235 | Only lists whose folder number changes are written, and planning again is empty while both names find the same folders. |
| `FolderRuns.SortedIsPermutation` | crates/daemon/src/folders.rs:60-67 | Display order lists every list exactly once. |
| `FolderOutcome.SortedIsInOrder` | crates/daemon/src/folders.rs:30-81 | And folder by folder, by their smallest numbers and then first seen, those in none last; within each by their own numbers and then as cached. |
| `FolderOutcome.DeleteMeans` | crates/daemon/src/folders.rs:195-203 | After a folder's delete no list is in it: each of its lists is in none, with no number for a folder and no place, and every other is as it was; the other folders are in the order they were. |
| `FolderOutcome.MoveOutMeans` | crates/daemon/src/folders.rs:102-110 | Exactly the lists moved out are in no folder, with no numbers, and every other list is as it was. |
| `FolderOutcome.MoveInMeans` | crates/daemon/src/folders.rs:102-129 | Lists moved in are in the folder the name finds, or a new one, with the number of the first of its lists shown that has one, and keep their place only if they were there; every other list is as it was. |
| `FolderOutcome.RenameMeans` | crates/daemon/src/folders.rs:172-192 | A renamed folder's lists have the new name and else what they had; every other list is as it was. |
| `FolderOutcome.PutListNumbers` | crates/daemon/src/folders.rs:156-169 | A list put next to another leaves its folder's lists numbered from 1 as then shown. |
| `FolderOutcome.PutFolderNumbers` | crates/daemon/src/folders.rs:224-235 | A folder put next to another leaves every folder's lists with its place, from 1, as then shown. |
| `FolderOutcome.FindsTheFirst` | crates/daemon/src/folders.rs:85-97 | A name finds the folder spelt like it, else the first in order that is but for case, else none. |
| `FolderOutcome.RefusedExactly` | crates/daemon/src/folders.rs:102-235 | Which folder commands are refused, for every command, as an if-and-only-if. |
| `FolderOutcome.RefusalsAreTrue` | crates/daemon/src/folders.rs:102-300 | What a refused one is told is so. |
| `FolderUndoRuns.InOrderRunKeeps` | crates/store/src/outbox/reads.rs:111-143 | After any run of folder commands and bare undos, with no condition, the lists are what a stack of copies would hold, the lists of each folder carry one `folderOrder`, and a bare undo succeeds and goes back to the last copy. |
| `FolderUndoRuns.CommandsUndoneInTurn` | crates/daemon/src/list_undo.rs:26-67 | Whatever the log holds already, after any folder commands bare undos bring every list back to before the last so many that changed something; all undone, every list and the display order are what they were. |
| `FolderUndoRuns.RunKeeps` | crates/daemon/src/folders.rs:102-235 | After any run of folder commands and of undos, bare or by name, each of which fits by what it recorded and what the lists then carry, the lists of each folder carry one common `folderOrder`, and every list is shown exactly once. |
| `FolderUndoRuns.UndoStepGood` | crates/daemon/src/list_undo.rs:40-67 | One undo in such a run keeps that exactly when it fits. |
| `FolderRuns.StepKeepsCommon` | crates/daemon/src/folders.rs:102-235 | Every folder command keeps one common `folderOrder` per folder. |
| `FolderUndo.UndoKeepsCommonExactly` | crates/daemon/src/list_undo.rs:40-67 | An undo of any folder command, whatever came since, keeps one number per folder exactly when: of a move or a folder's delete, each recorded number is the one the recorded folder's other lists carry now; of a folder's order, the one the present folder's others carry, and were recorded with; of a rename, its lists carry the number the old folder's others do; of an order of lists, always. |
| `FolderUndo.CommandIsUniform` | crates/daemon/src/folders.rs:102-235 | Every folder command is of one of these four kinds, a rename from one folder to one. |
| `FolderUndo.UndoIsUniform` | crates/daemon/src/list_undo.rs:221-252 | So is every undo of one, and every undo of an undo. |
| `FolderUndoCases.OldNumberComesBack` | crates/daemon/src/list_undo.rs:40-67 | For any two folder names: a move, a folder put before the other, and the undo of the move by name leave one folder with two numbers. |
| `FolderUndoCases.BareUndoAfterRedo` | crates/store/src/outbox/reads.rs:119-133 | So do a move, a folder put before the other, a bare undo, a redo of it, and a bare undo, which picks the move. |
| `FolderRuns.MovedInComeLast` | crates/daemon/src/folders.rs:99-129 | A list moved into a folder comes after another of its lists exactly when that one has a number under i64::MAX, or none that is and is cached first. |
| `FolderRuns.RenameKeepsOrder` | crates/daemon/src/folders.rs:172-192 | A rename changes neither which lists are together nor the display order. |
| `FolderRuns.FindIgnoresOrder` | crates/daemon/src/folders.rs:85-97 | A name finds the same folder in every order of the folders exactly when it is a folder's own spelling or fits only one. |
| `FolderRuns.OrderFolderAgain` | crates/daemon/src/folders.rs:206-235 | With such names, planning the same folder move again gives an empty plan. |
| `FolderRuns.OrderFolderAgainExactly` | crates/daemon/src/folders.rs:206-235 | For any names, planning again is empty exactly when the folders they find in the new order stand next to each other in it. |
| `FolderRuns.AmbiguousAgain` | crates/daemon/src/folders.rs:85-97 | With two folders told apart by case alone, a move of one after the other by a third spelling is refused when asked again. |
| `FolderRuns.TwoFolders` | crates/daemon/src/folders.rs:30-57 | Two unnumbered folders of any names stand in first-seen order. |
| `ListUndo.UndoLists` | crates/daemon/src/list_undo.rs:26-67 | The loop with its early errors computes the plan below. |
| `ListUndo.AllOrNothing` | crates/daemon/src/list_undo.rs:40-67 | A folder undo goes ahead exactly when every write that was made still holds on a list still there; otherwise nothing is queued. |
| `ListUndo.StopsAtTheFirst` | crates/daemon/src/list_undo.rs:40-67 | The first write that can't be taken back decides what the undo is refused with. |
| `ListUndo.TakesBackWhatWasMade` | crates/daemon/src/list_undo.rs:40-67 | One write is queued for each that was made, in order: the same fields of the same list, with their values from before. |
| `ListUndo.UndoRestoresFields` | crates/daemon/src/list_undo.rs:221-252 | Every field the command wrote goes back to its value before it, every other field stays as it is now. |
| `ListUndo.UndoRestoresOrder` | crates/daemon/src/list_undo.rs:56-66 | With no other folder change since, every list's folder fields and the whole display order are what they were. |
| `ListUndo.CommandThenUndo` | crates/daemon/src/list_undo.rs:26-67 | So it is for every folder command: move, order, rename, delete. |
| `Related.ApplyLink` | crates/daemon/src/related.rs:123-141 | The loop gives the sequence the theorems below are about. |
| `Related.ApplyIs` | crates/daemon/src/related.rs:123-141 | As a set: what was there but for what the change removes, and what it adds. |
| `Related.ApplyDistinct` | crates/daemon/src/related.rs:123-141 | Nothing becomes listed twice. |
| `Related.ApplyInOrder` | crates/daemon/src/related.rs:123-141 | The IDs kept stay in the order they were, and a new one comes last. |
| `Related.NoChangeExactly` | crates/daemon/src/related.rs:146-161 | The sequence is unchanged, so nothing is queued, exactly when no membership changes. |
| `Related.RebaseTouchesOnlyRelated` | crates/daemon/src/related.rs:175-183 | Rebasing changes `related` alone, to Graph's own list with the change made. |
| `Related.ConvergeExactly` | crates/daemon/src/related.rs:123-183 | Any pending changes, each rebased on Graph's copy when it is sent, give the same IDs in every send order from every extension Graph may hold exactly when none adds an ID another takes away. |
| `Related.ApartIsCompatible` | crates/daemon/src/related.rs:123-183 | Changes none of which names another's ID are such. |
| `RelatedRuns.ChangeOps` | crates/daemon/src/related.rs:87-92 | A relate or unrelate queues, in order, the directions that change. |
| `RelatedRuns.WritesWhatChanges` | crates/daemon/src/related.rs:87-92 | On any links, two-way or not, exactly those of the two tasks whose link isn't as asked are written. |
| `RelatedRuns.ChangeMends` | crates/daemon/src/related.rs:47-161 | After it the two are linked both ways, or neither, as asked, and every other link of every task is as it was. |
| `RelatedRuns.LinksStayTwoWay` | crates/daemon/src/related.rs:47-161 | Every run of relate, unrelate, undo and redo, of any command in any order, keeps every link two-way and listed once. |
| `RelatedRuns.UndoKeepsTheOthers` | crates/daemon/src/undo.rs:236-247 | Undoing one command, whenever, changes that link in both directions and no other link of any task. |
| `RelatedRuns.RedoPutsItBack` | crates/daemon/src/undo.rs:236-247 | An undo that changed something and its redo leave every link as it was before the undo. |
| `Steps.UndoWrite` | crates/daemon/src/child_undo.rs:21-111 | The writes, or the refusal, that undo one step write. |
| `Steps.UpdateInverse` | crates/daemon/src/child_undo.rs:62-97 | The loop over the fields, and its early return when one wasn't there before. |
| `Steps.FindAll` | crates/daemon/src/task_children.rs:297-315 | Steps named by ID, number or text, or the first name that finds none. |
| `Steps.NamedById` | crates/daemon/src/task_children.rs:319-327 | A step's own ID finds it, whatever the other steps are called. |
| `Steps.NamedByNumber` | crates/daemon/src/task_children.rs:328-338 | A number that is no step's ID finds the step that many down, counting from 1, if there are so many. |
| `Steps.NamedByText` | crates/daemon/src/task_children.rs:339-360 | Any other name finds a step exactly if it alone has that text, and none exactly if no step has. |
| `Steps.CreateMeans` | crates/daemon/src/task_children.rs:275-279 | A new step comes last, with its text, unchecked. |
| `Steps.RenameMeans` | crates/daemon/src/task_children.rs:208-226 | A rename changes the text of its step and nothing else. |
| `Steps.ChecksMean` | crates/daemon/src/task_children.rs:227-239 | Checking or unchecking makes each step named so, unchecked ones losing their time, and leaves every other. |
| `Steps.FoundOnce` | crates/daemon/src/task_children.rs:297-360 | Each step named is found once, in no step unnamed. |
| `Steps.RenameUndoneWhen` | crates/daemon/src/child_undo.rs:137-155 | A rename is undone exactly while the step is there with the text it gave. |
| `Steps.RenameUndoKeepsTheRest` | crates/daemon/src/child_undo.rs:62-97 | Undoing it restores only the text: a check made since, and every other step, stay. |
| `Steps.RenameUndoIsARename` | crates/daemon/src/child_undo.rs:62-97 | It is the rename back, so it can be undone as one. |
| `Steps.CheckUndoneWhen` | crates/daemon/src/child_undo.rs:137-155 | A check or uncheck is undone exactly while the step is there and still so. |
| `Steps.CheckUndoKeepsTheRest` | crates/daemon/src/child_undo.rs:62-97 | Undoing it restores only the check, and clears its time when unchecking; a rename since, and every other step, stay. |
| `Steps.CheckUndoIsACheck` | crates/daemon/src/child_undo.rs:62-97 | It is the uncheck or check back. |
| `Steps.CheckThenUndo` | crates/store/src/children.rs:177-186 | Undone straight after, a check is taken back whole, an uncheck exactly when the step had no checked time. |
| `Steps.CreateUndo` | crates/daemon/src/child_undo.rs:54-61 | An add is undone exactly while its step is there with both fields as added, and then only it goes. |
| `Steps.DeleteUndo` | crates/daemon/src/child_undo.rs:98-108 | A delete is always undone: the step comes back last, under a new ID, with every creatable field it had. |

## Left out

- Undo.UndoCommand: a move's undo, the undo of a repeating task's completion (which picks a copy Graph made) and Graph's own shift of a repeating task's due date are not modelled; an undo by operation ID names a whole command here.
- UndoRuns.UndoIsAStackOfSnapshots: the daemon's own commands, which a bare undo passes over, may be in the log before the run; during the run there are none.
- UndoOfPlanned.PlannedUndoChangesOnlyWhatHolds: reminders in the cache are times or absent, as Graph gives them.
- SelectiveRuns.SelectiveInRun: the run's undos are of commands and undos of the run itself; reminders are times or absent.
- UndoLifecycle.DeleteThenUndo: the operation's ID and Graph's own keys, which a re-creation writes into the extension, are not modelled.
- Planner.ChangeTasks: deferral days come in parsed, names of assignees and categories come in checked, and tasks are already resolved to distinct IDs; dry runs and moves are left out.
- PlannedChanges.ChangesArePlanned: completing a repeating task is excluded, since Graph rolls it on and undo treats it apart.
- Entities.MergeReads: dates compare as days and reminders as minutes; the source compares them so only after reading Graph's own shapes.
- AssignmentRace.ReplacesOnlyThePlannedStatus: every Graph answer carries an etag; the outbox's own order among one task's operations is looser here than in the source, so more interleavings are covered.
- Idempotency.AnswersAfterSuccess: keys don't expire (24 hours in the source), fingerprints are compared as given, and stored results are read back as written; SHA-256 and `in_context` are not part of this model.
- Idempotency.KeyStore.ClaimKey: the deletion of keys finished over 24 hours ago, which a claim does first, is left out.
- Idempotency.AtMostOnce: requests that can fail after queueing (merging lists with a delete, nag edits) are not part of this model.
- ReminderRuns.InOrderRunAgrees: a redo that waits, and a clock that goes back, are excluded, since with them it is false.
- Reminder.RunAgrees: a reminder whose time changes in between, which the inverse still carries the old flag for, is excluded.
- Dates.DayRecovered: offsets are fixed; daylight saving gaps at local midnight are left out.
- TaskDates.NothingLeftToInfer: Graph's rules are those the source's comments report, not Graph itself.
- FolderOrdering.OrderListIsRight: a list numbered i64::MAX ties with one that has no number, as in the source; lists are at most i64::MAX.
- MyDay.Change: the daemon's own rollover of yesterday's My Day is left out.
- ListUndo.UndoLists: creating, renaming and deleting lists is left out; only folder writes are.
- RelatedRuns.LinksStayTwoWay: tasks keep their Graph IDs, and no write is rejected; links across task moves are left out.
- Steps.CreateMeans: texts come in trimmed and checked.
- Steps.UpdateInverse: a linked resource's fields are not modelled; the branch that deletes and adds again is there, and the theorems are about steps, whose fields are always set.
- Sending, retries, sync, SQLite, move jobs, attachments, categories, contexts, filters, the CLI, the terminal UI and service files: I/O, or easier members of the same kinds.
