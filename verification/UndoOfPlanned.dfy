/**
 Planned commands and undos under interference. What a planned command's own
 parts and bodies guarantee, and where the undo of an undo, whose operations
 have no parts and smaller bodies, does not.
 */
module UndoOfPlanned {
  import opened Entities
  import opened Sequences
  import opened OpIds
  import opened Outbox
  import opened Undo
  import opened UndoSafety
  import UndoRuns
  import TaskDates
  import Assignment
  import Planner
  import PlannedChanges

  // ----- A planned command and the reminder -----

  /** `rows` is the command `ops` as queued on `cache`, in whatever state since. */
  ghost predicate QueuedOn(rows: seq<Op>, ops: seq<NewOp>, cache: Cache)
    requires Cached(cache, ops)
  {
    && |rows| == |ops|
    && forall i :: 0 <= i < |rows| ==> rows[i].op == ops[i] && rows[i].rollback == Queue(cache, ops)[i].rollback
  }

  /** The reminder is on, with a time. */
  ghost predicate RemindsAt(task: Entity)
  {
    ReminderOn(task) && REMINDER in task
  }

  /** A completion, queued on a task whose reminder is on, says that it goes off. */
  ghost predicate SaysReminder(op: NewOp, cache: Cache)
  {
    op.kind.Update? && op.action.Complete? && op.task in cache && RemindsAt(cache[op.task].raw) ==> REMINDER_ON in op.body
  }

  ghost predicate AllSay(ops: seq<NewOp>, cache: Cache)
  {
    forall k :: 0 <= k < |ops| ==> SaysReminder(ops[k], cache)
  }

  /** A completion of a task whose reminder is on when it is queued read it on when it was planned. */
  ghost predicate ReadOn(op: NewOp, from: Cache, cache: Cache)
  {
    op.kind.Update? && op.action.Complete? && op.task in from && op.task in cache && RemindsAt(cache[op.task].raw) ==>
      ReminderOn(from[op.task].raw)
  }

  /** What a completion says is what it read. */
  lemma SaysWhatItRead(
    command: string, from: Cache, targets: seq<string>, change: Planner.Change, bulk: bool, clock: int,
    ops: seq<NewOp>, cache: Cache)
    requires PlannedChanges.PlannedFrom(command, from, targets, change, bulk, clock, ops)
    ensures AllSay(ops, cache) <==> forall i :: 0 <= i < |ops| ==> ReadOn(ops[i], from, cache)
  {
    PlannedChanges.PlansFieldChanges(command, from, targets, change, bulk, clock, ops);
    forall i | 0 <= i < |ops| ensures SaysReminder(ops[i], cache) <==> ReadOn(ops[i], from, cache) {
      assert PlannedChanges.FieldChange(ops[i], from);
    }
  }

  /** Operations that can be queued together. */
  ghost predicate Together(ops: seq<NewOp>, cache: Cache)
  {
    Cached(cache, ops) && AllFieldOps(ops) && DisjointClaims(ops) && CleanCache(cache)
  }

  /** What a row recorded of a field it claims is what the cache held. */
  lemma RecordedIs(rows: seq<Op>, ops: seq<NewOp>, cache: Cache, i: nat, f: Key)
    requires Together(ops, cache) && QueuedOn(rows, ops, cache) && i < |rows| && f in Claims(ops[i])
    ensures rows[i].rollback.Some? && Get(rows[i].rollback.value, f) == At(cache, SlotOf(ops[i], f))
  {
    UndoRuns.QueuedRecordsOp(cache, ops, i);
  }

  lemma RecordedIsClean(rows: seq<Op>, ops: seq<NewOp>, cache: Cache, i: nat)
    requires Together(ops, cache) && QueuedOn(rows, ops, cache) && i < |rows|
    ensures rows[i].rollback.Some? && Clean(rows[i].rollback.value)
  {
    FieldOpsKeepClean(cache, ops, i);
  }

  /** What a completion recorded of the reminder. */
  lemma ReminderRecorded(rows: seq<Op>, ops: seq<NewOp>, cache: Cache, i: nat)
    requires Together(ops, cache) && QueuedOn(rows, ops, cache) && i < |rows|
    requires ops[i].kind.Update? && ops[i].action.Complete?
    ensures rows[i].rollback.Some?
    ensures var before, raw := rows[i].rollback.value, cache[ops[i].task].raw;
            && Get(before, REMINDER) == Get(raw, REMINDER) && Get(before, REMINDER_ON) == Get(raw, REMINDER_ON)
            && (REMINDER in before <==> REMINDER in raw)
  {
    RecordedIs(rows, ops, cache, i, REMINDER);
    RecordedIs(rows, ops, cache, i, REMINDER_ON);
    RecordedIsClean(rows, ops, cache, i);
    var raw := cache[ops[i].task].raw;
    assert At(cache, SlotOf(ops[i], REMINDER)) == Get(raw, REMINDER);
    assert At(cache, SlotOf(ops[i], REMINDER_ON)) == Get(raw, REMINDER_ON);
  }

  /** A field the undo changes is one an operation set, all of whose fields still hold, and goes back to what it was. */
  ghost predicate ChangesItsOwn(rows: seq<Op>, now: Cache, id: string, s: Slot)
  {
    FieldCommand(rows) && UndoPlan(rows, now, id).Ok? && At(Undone(rows, now, id), s) != At(now, s) ==>
      exists i :: 0 <= i < |rows| && SetsIt(rows[i], now, s, At(Undone(rows, now, id), s))
  }

  ghost predicate SetsIt(row: Op, now: Cache, s: Slot, value: Value)
  {
    Writes(row.op, s) && Undoable(row, now) && row.rollback.Some? && value == Get(row.rollback.value, s.field)
  }

  /** An operation that says what becomes of the reminder never meets the exception. */
  lemma SaidExplains(rows: seq<Op>, ops: seq<NewOp>, cache: Cache, now: Cache, i: nat, s: Slot, value: Value)
    requires Together(ops, cache) && QueuedOn(rows, ops, cache) && AllSay(ops, cache) && TimedCache(cache)
    requires i < |rows| && Explains(rows[i], now, s, value)
    ensures SetsIt(rows[i], now, s, value)
  {
    assert SaysReminder(ops[i], cache) && Timed(cache[ops[i].task].raw);
    if !Writes(rows[i].op, s) {
      ReminderRecorded(rows, ops, cache, i);
    }
  }

  lemma SaidUndoIsItsOwn(
    command: string, from: Cache, targets: seq<string>, change: Planner.Change, bulk: bool, clock: int,
    ops: seq<NewOp>, cache: Cache, rows: seq<Op>, now: Cache, id: string, s: Slot)
    requires PlannedChanges.PlannedFrom(command, from, targets, change, bulk, clock, ops)
    requires CleanCache(cache) && TimedCache(cache) && Cached(cache, ops) && QueuedOn(rows, ops, cache)
    requires AllSay(ops, cache)
    ensures FieldCommand(rows) && ChangesItsOwn(rows, now, id, s)
  {
    PlannedChanges.PlansFieldChanges(command, from, targets, change, bulk, clock, ops);
    if UndoPlan(rows, now, id).Ok? {
      UndoChangesOnlyWhatHolds(rows, now, id, s);
      var after := At(Undone(rows, now, id), s);
      if after != At(now, s) {
        var i :| 0 <= i < |rows| && Explains(rows[i], now, s, after);
        assert PlannedChanges.FieldChange(ops[i], from);
        SaidExplains(rows, ops, cache, now, i, s, after);
      }
    }
  }

  /** `cache` with one field of one task written by another device. */
  ghost function Outside(cache: Cache, s: Slot, value: Value): Cache
    requires s.task in cache && value != Null
  {
    var task := cache[s.task];
    cache[s.task := if s.inExtension then task.(extension := task.extension[s.field := value])
                    else task.(raw := task.raw[s.field := value])]
  }

  /** The cache after the command, once another device has turned the reminder of `t` off. */
  ghost function TurnedOff(cache: Cache, ops: seq<NewOp>, t: string): Cache
    requires Cached(cache, ops) && t in cache
  {
    Outside(ApplyAll(cache, ops), Slot(t, false, REMINDER_ON), Flag(false))
  }

  /** That touches nothing the command set. */
  lemma OthersHold(rows: seq<Op>, cache: Cache, to: Cache, now: Cache, i: nat, k: nat)
    requires UndoRuns.Recorded(rows, cache, to) && i < |rows| && k < |rows|
    requires rows[i].op.kind.Update? && rows[i].op.action.Complete? && REMINDER_ON !in rows[i].op.body
    requires rows[i].op.task in to && now == Outside(to, Slot(rows[i].op.task, false, REMINDER_ON), Flag(false))
    ensures Undoable(rows[k], now) && !now[rows[k].op.task].deleted
    ensures !Writes(rows[k].op, Slot(rows[i].op.task, false, REMINDER_ON))
  {
    UndoRuns.SetFieldsHold(rows, cache, to, k);
    assert UndoRuns.RecordedOp(rows[k], cache);
    var op, s := rows[k].op, Slot(rows[i].op.task, false, REMINDER_ON);
    if Writes(op, s) {
      UndoRuns.ClaimedOnce(Sent(rows), i, k, s);
    }
    forall f | f in op.body ensures op.body[f] == Get(Target(op, now[op.task]), f) {
      HoldsField(op.body, Target(op, to[op.task]), f);
    }
  }

  /** An undo that refuses nothing turns on a reminder that is off, though no operation of the command set it. */
  ghost predicate TurnsOn(rows: seq<Op>, now: Cache, undo: string, t: string)
  {
    var s := Slot(t, false, REMINDER_ON);
    && FieldCommand(rows) && UndoPlan(rows, now, undo).Ok? && UndoPlan(rows, now, undo).value.refused == []
    && At(now, s) == Flag(false) && At(Undone(rows, now, undo), s) == Flag(true)
    && forall k :: 0 <= k < |rows| ==> !Writes(rows[k].op, s)
  }

  /** A completion that said nothing of a reminder it found on: another device turns it off, and the undo turns it on. */
  lemma UnsaidComesOn(rows: seq<Op>, cache: Cache, to: Cache, now: Cache, i: nat, undo: string)
    requires UndoRuns.Recorded(rows, cache, to) && i < |rows| && rows[i].op.task in to
    requires rows[i].op.kind.Update? && rows[i].op.action.Complete?
    requires REMINDER_ON !in rows[i].op.body && REMINDER !in rows[i].op.body
    requires rows[i].rollback.Some? && RemindsAt(rows[i].rollback.value)
    requires now == Outside(to, Slot(rows[i].op.task, false, REMINDER_ON), Flag(false))
    ensures TurnsOn(rows, now, undo, rows[i].op.task)
  {
    forall k | 0 <= k < |rows|
      ensures Undoable(rows[k], now) && !now[rows[k].op.task].deleted
      ensures !Writes(rows[k].op, Slot(rows[i].op.task, false, REMINDER_ON))
    {
      OthersHold(rows, cache, to, now, i, k);
    }
    AllRestored(rows, now, undo, i);
    UndoRuns.ReminderRightAfter(rows, cache, to, i);
    ComesOn(rows, now, i, undo);
  }

  lemma ComesOn(rows: seq<Op>, now: Cache, i: nat, undo: string)
    requires FieldCommand(rows) && DisjointClaims(Sent(rows)) && UndoPlan(rows, now, undo).Ok? && i < |rows|
    requires i in Restored(rows, now, undo, |rows|) && Undoable(rows[i], now)
    requires rows[i].op.kind.Update? && rows[i].op.action.Complete? && REMINDER_ON !in rows[i].op.body
    requires rows[i].rollback.Some? && RemindsAt(rows[i].rollback.value)
    requires Get(now[rows[i].op.task].raw, REMINDER) == Get(rows[i].rollback.value, REMINDER)
    ensures At(Undone(rows, now, undo), Slot(rows[i].op.task, false, REMINDER_ON)) == Flag(true)
  {
    ReminderAfterUndo(rows, now, undo, i);
  }

  lemma AllRestored(rows: seq<Op>, now: Cache, undo: string, i: nat)
    requires FieldCommand(rows) && i < |rows|
    requires forall k :: 0 <= k < |rows| ==> Undoable(rows[k], now) && !now[rows[k].op.task].deleted
    ensures UndoPlan(rows, now, undo).Ok? && UndoPlan(rows, now, undo).value.refused == []
    ensures i in Restored(rows, now, undo, |rows|)
  {
    UndoRuns.NothingRefused(rows, now, undo, |rows|);
    UndoRuns.NothingRefused(rows, now, undo, i);
    UndoRuns.NothingRefused(rows, now, undo, i + 1);
    StepDecides(rows, now, undo, i);
  }

  /** So does one planned and queued like that. */
  lemma UnsaidUndoIsNot(
    command: string, from: Cache, targets: seq<string>, change: Planner.Change, bulk: bool, clock: int,
    ops: seq<NewOp>, cache: Cache, i: nat, undo: string)
    requires PlannedChanges.PlannedFrom(command, from, targets, change, bulk, clock, ops) && i < |ops|
    requires CleanCache(cache) && (forall t :: t in targets ==> t in cache && !cache[t].deleted)
    requires !SaysReminder(ops[i], cache)
    ensures Cached(cache, ops)
    ensures TurnsOn(Queue(cache, ops), TurnedOff(cache, ops, ops[i].task), undo, ops[i].task)
  {
    PlannedChanges.ChangesArePlanned(command, from, cache, targets, change, bulk, clock, ops);
    PlannedChanges.PlansFieldChanges(command, from, targets, change, bulk, clock, ops);
    assert PlannedChanges.FieldChange(ops[i], from);
    UnsaidQueued(cache, ops, i, undo);
  }

  lemma UnsaidQueued(cache: Cache, ops: seq<NewOp>, i: nat, undo: string)
    requires UndoRuns.Queueable(cache, ops) && i < |ops| && REMINDER !in ops[i].body && !SaysReminder(ops[i], cache)
    ensures TurnsOn(Queue(cache, ops), TurnedOff(cache, ops, ops[i].task), undo, ops[i].task)
  {
    UndoRuns.QueuedRecords(cache, ops);
    var rows := Queue(cache, ops);
    assert rows[i].op == ops[i];
    ReminderRecorded(rows, ops, cache, i);
    UnsaidComesOn(rows, cache, ApplyAll(cache, ops), TurnedOff(cache, ops, ops[i].task), i, undo);
  }

  /** Whatever other devices wrote since, and whatever became of its operations, an undo of `ops` changes only its own. */
  ghost predicate AlwaysItsOwn(ops: seq<NewOp>, cache: Cache)
    requires Cached(cache, ops)
  {
    forall rows, now, id, s :: QueuedOn(rows, ops, cache) ==> ChangesItsOwn(rows, now, id, s)
  }

  /**
   Planned from the tasks as read in `from`, queued on them as they are in
   `cache`: whatever other devices write from then on, a field an undo changes
   is one an operation of the command set, all of whose fields still hold what
   it set, and it goes back to what it was, if and only if each completion
   whose task had its reminder on when it was queued had read it on.
   */
  lemma PlannedUndoChangesOnlyWhatHolds(
    command: string, from: Cache, targets: seq<string>, change: Planner.Change, bulk: bool, clock: int,
    ops: seq<NewOp>, cache: Cache)
    requires PlannedChanges.PlannedFrom(command, from, targets, change, bulk, clock, ops)
    requires CleanCache(cache) && TimedCache(cache) && (forall t :: t in targets ==> t in cache && !cache[t].deleted)
    ensures Cached(cache, ops)
    ensures AlwaysItsOwn(ops, cache) <==> forall i :: 0 <= i < |ops| ==> ReadOn(ops[i], from, cache)
  {
    PlannedChanges.ChangesArePlanned(command, from, cache, targets, change, bulk, clock, ops);
    SaysWhatItRead(command, from, targets, change, bulk, clock, ops, cache);
    if AllSay(ops, cache) {
      SaidIsItsOwn(command, from, targets, change, bulk, clock, ops, cache);
    } else {
      var i :| 0 <= i < |ops| && !SaysReminder(ops[i], cache);
      UnsaidIsNot(command, from, targets, change, bulk, clock, ops, cache, i);
    }
  }

  lemma SaidIsItsOwn(
    command: string, from: Cache, targets: seq<string>, change: Planner.Change, bulk: bool, clock: int,
    ops: seq<NewOp>, cache: Cache)
    requires PlannedChanges.PlannedFrom(command, from, targets, change, bulk, clock, ops)
    requires CleanCache(cache) && TimedCache(cache) && Cached(cache, ops) && AllSay(ops, cache)
    ensures AlwaysItsOwn(ops, cache)
  {
    forall rows, now, id, s | QueuedOn(rows, ops, cache) ensures ChangesItsOwn(rows, now, id, s) {
      SaidUndoIsItsOwn(command, from, targets, change, bulk, clock, ops, cache, rows, now, id, s);
    }
  }

  lemma UnsaidIsNot(
    command: string, from: Cache, targets: seq<string>, change: Planner.Change, bulk: bool, clock: int,
    ops: seq<NewOp>, cache: Cache, i: nat)
    requires PlannedChanges.PlannedFrom(command, from, targets, change, bulk, clock, ops) && i < |ops|
    requires CleanCache(cache) && (forall t :: t in targets ==> t in cache && !cache[t].deleted)
    requires Cached(cache, ops) && !SaysReminder(ops[i], cache)
    ensures !AlwaysItsOwn(ops, cache)
  {
    UnsaidUndoIsNot(command, from, targets, change, bulk, clock, ops, cache, i, "");
    NotItsOwn(Queue(cache, ops), TurnedOff(cache, ops, ops[i].task), "", ops[i].task);
    QueuedOnItself(cache, ops);
  }

  lemma QueuedOnItself(cache: Cache, ops: seq<NewOp>)
    requires Cached(cache, ops)
    ensures QueuedOn(Queue(cache, ops), ops, cache)
  {
  }

  lemma NotItsOwn(rows: seq<Op>, now: Cache, id: string, t: string)
    requires TurnsOn(rows, now, id, t)
    ensures !ChangesItsOwn(rows, now, id, Slot(t, false, REMINDER_ON))
  {
  }

  // ----- Two commands queued on tasks that moved since they were read -----

  ghost function CompleteOps(command: string, t: string): seq<NewOp>
  {
    [Write(command, t, Update, Complete, map[STATUS := Text(Assignment.COMPLETED_STATUS)])]
  }

  /**
   A completion planned while the reminder was off, and queued once a sync
   had turned it on. Another device turns it off; the undo turns it on, which
   no operation did, and refuses nothing.
   */
  lemma CompletedAsItCameOn(command: string, from: Cache, cache: Cache, t: string, clock: int, undo: string)
    requires t in from && !ReminderOn(from[t].raw) && Get(from[t].raw, RECURRENCE) == Null
    requires CleanCache(cache) && t in cache && !cache[t].deleted && RemindsAt(cache[t].raw)
    ensures Planner.ChangePlan(command, from, [t], Planner.Complete, false, clock) == Ok(CompleteOps(command, t))
    ensures Cached(cache, CompleteOps(command, t))
    ensures var ops := CompleteOps(command, t); TurnsOn(Queue(cache, ops), TurnedOff(cache, ops, t), undo, t)
  {
    var changes: Entity := map[STATUS := Text(Assignment.COMPLETED_STATUS)];
    assert [t][0] == t;
    assert STATUS in changes;
    assert Planner.BodyFor(Planner.Complete, changes, from[t], clock) == Ok(changes);
    Planner.OneTask(command, from, t, Planner.Complete, clock, changes, changes);
    assert Planner.PushMain([], command, t, Planner.Complete, changes, changes) == CompleteOps(command, t);
    UnsaidUndoIsNot(command, from, [t], Planner.Complete, false, clock, CompleteOps(command, t), cache, 0, undo);
  }

  ghost function ReopenWithOps(command: string, t: string, at: int): seq<NewOp>
  {
    [Write(command, t, Update, Reopen,
           map[STATUS := Text(Assignment.NOT_STARTED), REMINDER_ON := Flag(true), REMINDER := Minute(at)])]
  }

  /**
   A reopen planned with the reminder's time at `at`, and queued once a sync
   had moved it to `moved`. Undone straight after, it refuses nothing, and the
   time stays at `at`.
   */
  lemma ReopenedAsItMoved(
    command: string, from: Cache, cache: Cache, t: string, at: int, moved: int, clock: int, undo: string)
    requires t in from && Assignment.IsCompleted(from[t]) && Get(from[t].raw, REMINDER) == Minute(at) && at > clock
    requires CleanCache(cache) && t in cache && !cache[t].deleted && !ReminderOn(cache[t].raw)
    requires Get(cache[t].raw, REMINDER) == Minute(moved) && moved != at
    ensures Planner.ChangePlan(command, from, [t], Planner.Reopen, false, clock) == Ok(ReopenWithOps(command, t, at))
    ensures Cached(cache, ReopenWithOps(command, t, at))
    ensures var ops := ReopenWithOps(command, t, at);
            var to := ApplyAll(cache, ops);
            var undone := UndoPlan(Queue(cache, ops), to, undo);
            && undone.Ok? && undone.value.refused == [] && Cached(to, undone.value.inverse)
            && At(ApplyAll(to, undone.value.inverse), Slot(t, false, REMINDER)) == Minute(at)
  {
    var ops := ReopenWithOps(command, t, at);
    ReopenWithPlans(command, from, t, at, clock);
    PlannedChanges.ChangesArePlanned(command, from, cache, [t], Planner.Reopen, false, clock, ops);
    UndoRuns.QueuedRecords(cache, ops);
    ReopenKeepsTime(Queue(cache, ops), cache, ApplyAll(cache, ops), undo);
  }

  lemma ReopenWithPlans(command: string, from: Cache, t: string, at: int, clock: int)
    requires t in from && Assignment.IsCompleted(from[t]) && Get(from[t].raw, REMINDER) == Minute(at) && at > clock
    ensures Planner.ChangePlan(command, from, [t], Planner.Reopen, false, clock) == Ok(ReopenWithOps(command, t, at))
  {
    var changes: Entity := map[STATUS := Text(Assignment.NOT_STARTED)];
    var ops := ReopenWithOps(command, t, at);
    assert [t][0] == t;
    assert STATUS in changes;
    assert Planner.BodyFor(Planner.Reopen, changes, from[t], clock) == Ok(ops[0].body);
    Planner.OneTask(command, from, t, Planner.Reopen, clock, changes, ops[0].body);
    assert Planner.PushMain([], command, t, Planner.Reopen, changes, ops[0].body) == ops;
  }

  /** Undone straight after, a reopen of a task whose reminder was off leaves the time it brought. */
  lemma ReopenKeepsTime(rows: seq<Op>, cache: Cache, to: Cache, undo: string)
    requires UndoRuns.Recorded(rows, cache, to) && |rows| == 1 && REMINDER in rows[0].op.body
    requires rows[0].op.kind.Update? && rows[0].op.action.Reopen? && !ReminderOn(cache[rows[0].op.task].raw)
    ensures UndoPlan(rows, to, undo).Ok? && UndoPlan(rows, to, undo).value.refused == []
    ensures Cached(to, UndoPlan(rows, to, undo).value.inverse)
    ensures At(ApplyAll(to, UndoPlan(rows, to, undo).value.inverse), SlotOf(rows[0].op, REMINDER)) == rows[0].op.body[REMINDER]
  {
    UndoRuns.UndoIsEach(rows, cache, to, undo, 0);
    UndoRuns.AllUndone(rows, cache, to, undo, 0);
    assert UndoRuns.RecordedOp(rows[0], cache);
    assert At(cache, SlotOf(rows[0].op, REMINDER_ON)) == Get(cache[rows[0].op.task].raw, REMINDER_ON);
    RestoredWhole(rows, to, undo, 0, REMINDER);
  }

  // ----- The undo of an undo and the reminder -----

  /** An open task, neither new nor completed, with its reminder on. */
  ghost predicate UnderWay(cache: Cache, t: string)
  {
    && CleanCache(cache) && t in cache && !cache[t].deleted && ReminderOn(cache[t].raw)
    && Get(cache[t].raw, REMINDER).Minute? && Get(cache[t].raw, STATUS).Text?
    && Get(cache[t].raw, STATUS).text !in {Assignment.COMPLETED_STATUS, Assignment.NOT_STARTED}
  }

  ghost function ReopenOps(command: string, t: string): seq<NewOp>
  {
    [Write(command, t, Update, Reopen, map[STATUS := Text(Assignment.NOT_STARTED)])]
  }

  lemma ReopenPlans(command: string, cache: Cache, t: string, clock: int)
    requires UnderWay(cache, t)
    ensures Planner.ChangePlan(command, cache, [t], Planner.Reopen, false, clock) == Ok(ReopenOps(command, t))
  {
    var changes: Entity := map[STATUS := Text(Assignment.NOT_STARTED)];
    assert [t][0] == t;
    assert Planner.BodyFor(Planner.Reopen, changes, cache[t], clock) == Ok(changes);
    assert STATUS in changes;
    Planner.OneTask(command, cache, t, Planner.Reopen, clock, changes, changes);
    assert Planner.PushMain([], command, t, Planner.Reopen, changes, changes) == ReopenOps(command, t);
  }

  lemma ReopenUndone(command: string, cache: Cache, t: string, undo: string, inverse: seq<NewOp>)
    requires UnderWay(cache, t) && UndoRuns.Planned(cache, ReopenOps(command, t)) && |inverse| == 1
    requires var to := ApplyAll(cache, ReopenOps(command, t));
             UndoPlan(Queue(cache, ReopenOps(command, t)), to, undo) == Ok(Plan(inverse, []))
    ensures inverse[0].task == t && inverse[0].kind.Update? && inverse[0].action.Complete?
    ensures inverse[0].body == map[STATUS := Get(cache[t].raw, STATUS)]
  {
    var ops := ReopenOps(command, t);
    UndoRuns.QueueRecords(cache, ops);
    assert Queue(cache, ops)[0] == Op(ops[0], Some(cache[t].raw), Pending);
    OneReopenUndone(Queue(cache, ops), cache, ApplyAll(cache, ops), t, undo);
  }

  lemma OneReopenUndone(rows: seq<Op>, cache: Cache, to: Cache, t: string, undo: string)
    requires UnderWay(cache, t) && |rows| == 1 && UndoRuns.Transition(rows, cache, to)
    requires rows[0].op.task == t && rows[0].op.kind.Update? && rows[0].op.action.Reopen?
    requires rows[0].op.body == map[STATUS := Text(Assignment.NOT_STARTED)] && rows[0].rollback == Some(cache[t].raw)
    ensures UndoPlan(rows, to, undo).Ok? && |UndoPlan(rows, to, undo).value.inverse| == 1
    ensures var op := UndoPlan(rows, to, undo).value.inverse[0];
            op.task == t && op.kind.Update? && op.action.Complete? && op.body == map[STATUS := Get(cache[t].raw, STATUS)]
  {
    UndoRuns.UndoIsEach(rows, cache, to, undo, 0);
    ReopenInverse(rows[0].op, cache[t].raw, to[t].raw);
  }

  lemma ReopenInverse(op: NewOp, before: Entity, now: Entity)
    requires op.kind.Update? && op.action.Reopen? && op.body.Keys == {STATUS}
    ensures InverseBody(op, before, now) == map[STATUS := Get(before, STATUS)]
  {
  }

  /** An undo of one completion that said nothing of a reminder it found on, at the time it has now. */
  lemma RedoTurnsItOn(row: Op, now: Cache, redo: string)
    requires row.op.kind.Update? && row.op.action.Complete? && row.op.partOf.None? && Undoable(row, now)
    requires !now[row.op.task].deleted && REMINDER_ON !in row.op.body
    requires BringsReminderBack(row.op, row.rollback.value, now[row.op.task].raw) && REMINDER in row.rollback.value
    ensures UndoPlan([row], now, redo).Ok? && UndoPlan([row], now, redo).value.refused == []
    ensures At(Undone([row], now, redo), Slot(row.op.task, false, REMINDER_ON)) == Flag(true)
  {
    var rows := [row];
    UndoRuns.NothingRefused(rows, now, redo, 1);
    StepDecides(rows, now, redo, 0);
    assert After(rows, now, redo, 0) == Ok(BEGIN);
    ReminderAfterUndo(rows, now, redo, 0);
  }

  lemma ReopenedReads(command: string, cache: Cache, t: string)
    requires UnderWay(cache, t)
    ensures var to := ApplyAll(cache, ReopenOps(command, t));
            && Cached(cache, ReopenOps(command, t)) && t in to && REMINDER in to[t].raw && ReminderOn(to[t].raw)
            && Get(to[t].raw, REMINDER) == Get(cache[t].raw, REMINDER)
  {
    var ops := ReopenOps(command, t);
    Unwritten(cache, ops, 1, Slot(t, false, REMINDER));
    Unwritten(cache, ops, 1, Slot(t, false, REMINDER_ON));
    var to := ApplyAll(cache, ops);
    assert At(to, Slot(t, false, REMINDER)) == At(cache, Slot(t, false, REMINDER));
    assert At(to, Slot(t, false, REMINDER_ON)) == At(cache, Slot(t, false, REMINDER_ON));
  }

  /**
   A task under way is reopened, and that is undone; another device turns its
   reminder off. Undoing the undo turns the reminder on again and reports
   nothing, though it never set it: the undo was a completion by action, and
   brings back a reminder it found on.
   */
  lemma UndoneReopenTurnsReminderOn(command: string, cache: Cache, t: string, clock: int, undo: string, redo: string)
    requires UnderWay(cache, t)
    ensures UndoRuns.Planned(cache, ReopenOps(command, t))
    ensures Planner.ChangePlan(command, cache, [t], Planner.Reopen, false, clock) == Ok(ReopenOps(command, t))
    ensures var to := ApplyAll(cache, ReopenOps(command, t));
            var undone := UndoPlan(Queue(cache, ReopenOps(command, t)), to, undo);
            && undone.Ok? && undone.value.refused == [] && Cached(to, undone.value.inverse)
            && ApplyAll(to, undone.value.inverse) == cache
            && var rows, now := Queue(to, undone.value.inverse), Outside(cache, Slot(t, false, REMINDER_ON), Flag(false));
               && FieldCommand(rows) && UndoPlan(rows, now, redo).Ok? && UndoPlan(rows, now, redo).value.refused == []
               && (forall i :: 0 <= i < |rows| ==> REMINDER_ON !in rows[i].op.body)
               && At(Undone(rows, now, redo), Slot(t, false, REMINDER_ON)) == Flag(true)
  {
    ReopenPlans(command, cache, t, clock);
    var ops := ReopenOps(command, t);
    PlannedChanges.ChangesArePlanned(command, cache, cache, [t], Planner.Reopen, false, clock, ops);
    UndoRuns.QueueRecords(cache, ops);
    var to := ApplyAll(cache, ops);
    UndoRuns.UndoRestores(Queue(cache, ops), cache, to, undo);
    var inverse := UndoPlan(Queue(cache, ops), to, undo).value.inverse;
    ReopenUndone(command, cache, t, undo, inverse);
    UndoHasNoParts(Queue(cache, ops), to, undo);
    ReopenedReads(command, cache, t);
    UndoneReopenRedone(cache, to, t, inverse, redo);
  }

  lemma UndoneReopenRedone(cache: Cache, to: Cache, t: string, inverse: seq<NewOp>, redo: string)
    requires UnderWay(cache, t) && |inverse| == 1 && t in to
    requires REMINDER in to[t].raw && ReminderOn(to[t].raw) && Get(to[t].raw, REMINDER) == Get(cache[t].raw, REMINDER)
    requires inverse[0].task == t && inverse[0].kind.Update? && inverse[0].action.Complete? && inverse[0].partOf.None?
    requires inverse[0].body == map[STATUS := Get(cache[t].raw, STATUS)]
    ensures Cached(to, inverse)
    ensures var rows, now := Queue(to, inverse), Outside(cache, Slot(t, false, REMINDER_ON), Flag(false));
            && FieldCommand(rows) && UndoPlan(rows, now, redo).Ok? && UndoPlan(rows, now, redo).value.refused == []
            && (forall i :: 0 <= i < |rows| ==> REMINDER_ON !in rows[i].op.body)
            && At(Undone(rows, now, redo), Slot(t, false, REMINDER_ON)) == Flag(true)
  {
    var rows, now := Queue(to, inverse), Outside(cache, Slot(t, false, REMINDER_ON), Flag(false));
    assert rows == [Op(inverse[0], Some(to[t].raw), Pending)];
    assert FieldsNotHolding(inverse[0].body, now[t].raw) == {};
    RedoTurnsItOn(rows[0], now, redo);
  }

  // ----- The undo of an undo and the assignee -----

  /** Of the undo of a command: whatever became of the others, an operation is put back exactly if what it set holds. */
  lemma RedoPutsBackExactly(ops: seq<Op>, cache: Cache, undo: string, rows: seq<Op>, now: Cache, redo: string, j: nat)
    requires FieldCommand(ops) && UndoPlan(ops, cache, undo).Ok? && Sent(rows) == UndoPlan(ops, cache, undo).value.inverse
    requires After(rows, now, redo, |rows|).Ok? && j < |rows| && TookEffect(rows[j])
    ensures j in Restored(rows, now, redo, |rows|) <==>
            rows[j].op.task in now && Holds(rows[j].op.body, Target(rows[j].op, now[rows[j].op.task]))
  {
    PlanShape(ops, cache, undo);
    UndoHasNoParts(ops, cache, undo);
    assert forall k :: 0 <= k < |rows| ==> rows[k].op == Sent(rows)[k];
    WholePutBack(rows, now, redo, j);
  }

  /** Assigning to `name`, and nothing else. */
  ghost function AssignTo(name: string): Planner.Change
  {
    Planner.Edit(TaskDates.Edit(None, None, None, None, None, None, None, None),
                 Some(Assignment.Assign(name, false)), None, None, None)
  }

  /** A live task that assigning makes `waitingOnOthers`, and flags. */
  ghost predicate Assignable(cache: Cache, t: string, name: string)
  {
    && CleanCache(cache) && t in cache && !cache[t].deleted
    && Assignment.SetPlan(cache[t], name, false).Some? && Assignment.SetPlan(cache[t], name, false).value.setsFlag
  }

  ghost function AssignOps(command: string, cache: Cache, t: string, name: string): seq<NewOp>
    requires Assignable(cache, t, name)
  {
    Assignment.PlanOps(command, 0, t, Assignment.SetPlan(cache[t], name, false).value, Outbox.Edit)
  }

  lemma AssignPlans(command: string, cache: Cache, t: string, name: string, clock: int)
    requires Assignable(cache, t, name)
    ensures Planner.ChangePlan(command, cache, [t], AssignTo(name), false, clock) == Ok(AssignOps(command, cache, t, name))
  {
    var change, ops := AssignTo(name), AssignOps(command, cache, t, name);
    assert [t][0] == t;
    assert Planner.Changes(change) == Ok(map[]);
    assert Planner.BodyFor(change, map[], cache[t], clock) == Ok(map[]);
    assert Planner.PushMain([], command, t, change, map[], map[]) == [];
    assert Planner.PushAssignment([], command, t, cache[t], change) == ops;
    assert Planner.DeferFields(change, cache[t]) == map[] && Planner.NagFields(change, cache[t]) == map[];
    Planner.OneTask(command, cache, t, change, clock, map[], map[]);
  }

  lemma AssignShape(command: string, cache: Cache, t: string, name: string)
    requires Assignable(cache, t, name)
    ensures var ops := AssignOps(command, cache, t, name);
            && |ops| == 3 && (forall k :: 0 <= k < 3 ==> ops[k].task == t && ops[k].action.Edit?)
            && ops[0].kind.Extension? && ops[0].body.Keys == {ASSIGNEE}
            && ops[1].kind.Update? && ops[1].body == map[STATUS := Text(Assignment.WAITING)]
            && ops[2].kind.Extension? && ops[2].body == map[STATUS_SET := Flag(true)]
  {
  }

  /** The undo of three operations with no field in common: each field back to what `cache` held. */
  lemma UndoneThree(rows: seq<Op>, cache: Cache, to: Cache, undo: string, inverse: seq<NewOp>, k: nat)
    requires |rows| == 3 && |inverse| == 3 && k < 3 && UndoRuns.Transition(rows, cache, to)
    requires UndoPlan(rows, to, undo) == Ok(Plan(inverse, [])) && rows[k].op.action.Edit?
    ensures inverse[k].task == rows[k].op.task && inverse[k].kind == rows[k].op.kind && inverse[k].action.Edit?
    ensures inverse[k].body.Keys == rows[k].op.body.Keys
    ensures forall f :: f in inverse[k].body ==> inverse[k].body[f] == At(cache, SlotOf(rows[k].op, f))
  {
    UndoRuns.UndoIsEach(rows, cache, to, undo, k);
    assert UndoRuns.RecordedOp(rows[k], cache);
  }

  /** A command of three: `rows` wrote the assignee, the status and the flag of `t`. */
  ghost predicate ThreeParts(rows: seq<Op>, t: string)
  {
    && |rows| == 3 && (forall k :: 0 <= k < 3 ==> rows[k].op.task == t && rows[k].op.action.Edit?)
    && rows[0].op.kind.Extension? && rows[0].op.body.Keys == {ASSIGNEE}
    && rows[1].op.kind.Update? && rows[1].op.body.Keys == {STATUS}
    && rows[2].op.kind.Extension? && rows[2].op.body.Keys == {STATUS_SET}
  }

  /** With the assignee another's and the other two as the command left them, undoing it takes those two back. */
  lemma TwoPutBack(rows: seq<Op>, from: Cache, cache: Cache, t: string, other: string, redo: string)
    requires ThreeParts(rows, t) && UndoRuns.Transition(rows, from, cache) && t in cache && RefsInOrder(Sent(rows))
    requires forall k :: 0 <= k < 3 ==> rows[k].op.partOf.None?
    requires Text(other) != rows[0].op.body[ASSIGNEE]
    ensures var now := Outside(cache, Slot(t, true, ASSIGNEE), Text(other));
            && UndoPlan(rows, now, redo).Ok? && t in UndoPlan(rows, now, redo).value.refused
            && At(Undone(rows, now, redo), Slot(t, true, ASSIGNEE)) == Text(other)
            && At(Undone(rows, now, redo), Slot(t, false, STATUS)) == At(from, Slot(t, false, STATUS))
            && At(Undone(rows, now, redo), Slot(t, true, STATUS_SET)) == At(from, Slot(t, true, STATUS_SET))
  {
    var now := Outside(cache, Slot(t, true, ASSIGNEE), Text(other));
    TwoHold(rows, from, cache, t, other);
    NoErrors(rows, now, redo, 3);
    PutBackExactly(rows, now, redo, 0, 0);
    PutBackExactly(rows, now, redo, 0, 1);
    PutBackExactly(rows, now, redo, 0, 2);
    RestoredMatches(rows, now, redo, 3);
    NotUndoneIsReported(rows, now, redo, 0);
    LeftAloneWhole(rows, now, redo, 0, ASSIGNEE);
    RestoredWhole(rows, now, redo, 1, STATUS);
    RestoredWhole(rows, now, redo, 2, STATUS_SET);
    assert UndoRuns.RecordedOp(rows[1], from) && UndoRuns.RecordedOp(rows[2], from);
  }

  lemma TwoHold(rows: seq<Op>, from: Cache, cache: Cache, t: string, other: string)
    requires ThreeParts(rows, t) && UndoRuns.Transition(rows, from, cache) && t in cache
    requires forall k :: 0 <= k < 3 ==> rows[k].op.partOf.None?
    requires Text(other) != rows[0].op.body[ASSIGNEE]
    ensures var now := Outside(cache, Slot(t, true, ASSIGNEE), Text(other));
            && MovedOn(rows, now, 0)
            && Holds(rows[1].op.body, now[t].raw) && Holds(rows[2].op.body, now[t].extension)
            && forall k :: 0 <= k < 3 ==> TookEffect(rows[k]) && rows[k].rollback.Some? && t in now && !now[t].deleted
  {
    var now := Outside(cache, Slot(t, true, ASSIGNEE), Text(other));
    forall k | 0 <= k < 3 ensures TookEffect(rows[k]) && rows[k].rollback.Some? && !cache[t].deleted {
      assert UndoRuns.RecordedOp(rows[k], from);
      UndoRuns.SetFieldsHold(rows, from, cache, k);
    }
    assert ASSIGNEE in FieldsNotHolding(rows[0].op.body, now[t].extension);
    UndoRuns.SetFieldsHold(rows, from, cache, 1);
    UndoRuns.SetFieldsHold(rows, from, cache, 2);
    HoldsField(rows[2].op.body, cache[t].extension, STATUS_SET);
    assert FieldsNotHolding(rows[2].op.body, now[t].extension) == {};
  }

  /**
   An assignment is undone, and another device then gives the task to someone
   else. Undoing the undo reports the task and leaves that assignee, but puts
   back the assignment's status and its flag: an undo's operations say nothing
   of being part of one another.
   */
  lemma RedoneUnderAnother(
    command: string, cache: Cache, t: string, name: string, other: string, clock: int, undo: string, redo: string)
    requires Assignable(cache, t, name) && Text(other) != Get(cache[t].extension, ASSIGNEE)
    ensures Planner.ChangePlan(command, cache, [t], AssignTo(name), false, clock) == Ok(AssignOps(command, cache, t, name))
    ensures Cached(cache, AssignOps(command, cache, t, name))
    ensures var ops := AssignOps(command, cache, t, name);
            var to := ApplyAll(cache, ops);
            var undone := UndoPlan(Queue(cache, ops), to, undo);
            && undone.Ok? && undone.value.refused == [] && Cached(to, undone.value.inverse)
            && ApplyAll(to, undone.value.inverse) == cache
            && var rows, now := Queue(to, undone.value.inverse), Outside(cache, Slot(t, true, ASSIGNEE), Text(other));
               && FieldCommand(rows) && UndoPlan(rows, now, redo).Ok? && t in UndoPlan(rows, now, redo).value.refused
               && At(Undone(rows, now, redo), Slot(t, true, ASSIGNEE)) == Text(other)
               && At(Undone(rows, now, redo), Slot(t, false, STATUS)) == Text(Assignment.WAITING)
               && At(Undone(rows, now, redo), Slot(t, true, STATUS_SET)) == Flag(true)
  {
    AssignPlans(command, cache, t, name, clock);
    var to, inverse := AssignedThenUndone(command, cache, t, name, clock, undo);
    AssignedReads(command, cache, t, name);
    AssignUndone(command, cache, t, name, undo, inverse);
    TwoPutBack(Queue(to, inverse), to, cache, t, other, redo);
  }

  lemma AssignedThenUndone(command: string, cache: Cache, t: string, name: string, clock: int, undo: string)
    returns (to: Cache, inverse: seq<NewOp>)
    requires Assignable(cache, t, name)
    ensures UndoRuns.Planned(cache, AssignOps(command, cache, t, name)) && to == ApplyAll(cache, AssignOps(command, cache, t, name))
    ensures UndoPlan(Queue(cache, AssignOps(command, cache, t, name)), to, undo) == Ok(Plan(inverse, []))
    ensures |inverse| == 3 && Cached(to, inverse) && ApplyAll(to, inverse) == cache
    ensures UndoRuns.Transition(Queue(to, inverse), to, cache)
  {
    AssignIsPlanned(command, cache, t, name, clock);
    var ops := AssignOps(command, cache, t, name);
    UndoRuns.QueueRecords(cache, ops);
    to := ApplyAll(cache, ops);
    UndoRuns.UndoRestores(Queue(cache, ops), cache, to, undo);
    inverse := UndoPlan(Queue(cache, ops), to, undo).value.inverse;
  }

  lemma AssignIsPlanned(command: string, cache: Cache, t: string, name: string, clock: int)
    requires Assignable(cache, t, name)
    ensures UndoRuns.Planned(cache, AssignOps(command, cache, t, name)) && |AssignOps(command, cache, t, name)| == 3
  {
    AssignPlans(command, cache, t, name, clock);
    AssignShape(command, cache, t, name);
    PlannedChanges.ChangesArePlanned(command, cache, cache, [t], AssignTo(name), false, clock, AssignOps(command, cache, t, name));
  }

  lemma AssignedReads(command: string, cache: Cache, t: string, name: string)
    requires Assignable(cache, t, name) && UndoRuns.Planned(cache, AssignOps(command, cache, t, name))
    ensures var to := ApplyAll(cache, AssignOps(command, cache, t, name));
            && At(to, Slot(t, false, STATUS)) == Text(Assignment.WAITING)
            && At(to, Slot(t, true, STATUS_SET)) == Flag(true)
  {
    var ops := AssignOps(command, cache, t, name);
    AssignShape(command, cache, t, name);
    LastWriter(cache, ops, |ops|, 1, Slot(t, false, STATUS));
    LastWriter(cache, ops, |ops|, 2, Slot(t, true, STATUS_SET));
  }

  lemma AssignUndone(command: string, cache: Cache, t: string, name: string, undo: string, inverse: seq<NewOp>)
    requires Assignable(cache, t, name) && UndoRuns.Planned(cache, AssignOps(command, cache, t, name)) && |inverse| == 3
    requires var ops := AssignOps(command, cache, t, name);
             && UndoPlan(Queue(cache, ops), ApplyAll(cache, ops), undo) == Ok(Plan(inverse, []))
             && Cached(ApplyAll(cache, ops), inverse)
    ensures var rows := Queue(ApplyAll(cache, AssignOps(command, cache, t, name)), inverse);
            && Sent(rows) == inverse && RefsInOrder(Sent(rows)) && ThreeParts(rows, t)
            && (forall k :: 0 <= k < 3 ==> rows[k].op.partOf.None?)
            && rows[0].op.body[ASSIGNEE] == Get(cache[t].extension, ASSIGNEE)
  {
    var ops := AssignOps(command, cache, t, name);
    UndoRuns.QueueRecords(cache, ops);
    AssignShape(command, cache, t, name);
    QueuedParts(cache, ops, t);
    PartsUndone(Queue(cache, ops), cache, ApplyAll(cache, ops), undo, inverse, t);
    NoPartsOf(Queue(cache, ops), ApplyAll(cache, ops), undo, inverse);
    SentOf(ApplyAll(cache, ops), inverse);
  }

  lemma QueuedParts(cache: Cache, ops: seq<NewOp>, t: string)
    requires Cached(cache, ops) && |ops| == 3 && (forall k :: 0 <= k < 3 ==> ops[k].task == t && ops[k].action.Edit?)
    requires ops[0].kind.Extension? && ops[0].body.Keys == {ASSIGNEE}
    requires ops[1].kind.Update? && ops[1].body.Keys == {STATUS}
    requires ops[2].kind.Extension? && ops[2].body.Keys == {STATUS_SET}
    ensures ThreeParts(Queue(cache, ops), t)
  {
    assert forall k :: 0 <= k < 3 ==> Queue(cache, ops)[k].op == ops[k];
  }

  lemma PartsUndone(rows: seq<Op>, cache: Cache, to: Cache, undo: string, inverse: seq<NewOp>, t: string)
    requires ThreeParts(rows, t) && |inverse| == 3 && UndoRuns.Transition(rows, cache, to) && Cached(to, inverse)
    requires UndoPlan(rows, to, undo) == Ok(Plan(inverse, [])) && t in cache
    ensures ThreeParts(Queue(to, inverse), t)
    ensures Queue(to, inverse)[0].op.body[ASSIGNEE] == Get(cache[t].extension, ASSIGNEE)
  {
    PartsInverse(rows, cache, to, undo, inverse, t);
    QueuedParts(to, inverse, t);
    assert Queue(to, inverse)[0].op == inverse[0];
  }

  lemma PartsInverse(rows: seq<Op>, cache: Cache, to: Cache, undo: string, inverse: seq<NewOp>, t: string)
    requires ThreeParts(rows, t) && |inverse| == 3 && UndoRuns.Transition(rows, cache, to)
    requires UndoPlan(rows, to, undo) == Ok(Plan(inverse, [])) && t in cache
    ensures forall k :: 0 <= k < 3 ==> inverse[k].task == t && inverse[k].action.Edit?
    ensures inverse[0].kind.Extension? && inverse[0].body.Keys == {ASSIGNEE}
    ensures inverse[1].kind.Update? && inverse[1].body.Keys == {STATUS}
    ensures inverse[2].kind.Extension? && inverse[2].body.Keys == {STATUS_SET}
    ensures inverse[0].body[ASSIGNEE] == Get(cache[t].extension, ASSIGNEE)
  {
    forall k | 0 <= k < 3
      ensures inverse[k].task == t && inverse[k].kind == rows[k].op.kind && inverse[k].action.Edit?
      ensures inverse[k].body.Keys == rows[k].op.body.Keys
      ensures forall f :: f in inverse[k].body ==> inverse[k].body[f] == At(cache, SlotOf(rows[k].op, f))
    {
      UndoneThree(rows, cache, to, undo, inverse, k);
    }
  }

  lemma NoPartsOf(rows: seq<Op>, to: Cache, undo: string, inverse: seq<NewOp>)
    requires UndoPlan(rows, to, undo) == Ok(Plan(inverse, []))
    ensures RefsInOrder(inverse) && forall k :: 0 <= k < |inverse| ==> inverse[k].partOf.None?
  {
    UndoHasNoParts(rows, to, undo);
    UndoRefs(rows, to, undo);
  }

  lemma SentOf(to: Cache, inverse: seq<NewOp>)
    requires Cached(to, inverse)
    ensures Sent(Queue(to, inverse)) == inverse
  {
  }
}
