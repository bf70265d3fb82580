/**
 Reminders over runs in order: completions, reopens, bare undos of the latest
 command not undone, and redos straight after an undo. While the clock does
 not go back, the cache and Graph agree all along.
 */
module ReminderRuns {
  import opened Entities
  import opened Outbox
  import opened Undo
  import opened Reminder
  import opened CommandLog
  import Assignment
  import Planner

  /** Of each command in the log, what a bare undo goes by: whether it is an undo, and of which. */
  type Mark = CommandLog.Command<()>

  function Marked(undoes: Option<nat>): Mark
  {
    CommandLog.Command("", undoes, false, ())
  }

  /** The task, Graph and the log, with what each command undid. */
  datatype History = History(world: World, marks: seq<Mark>)

  datatype Turn = Complete | Reopen(clock: int) | Undo | Redo

  // ----- Turns -----

  function Sent(h: History, op: NewOp, undoes: Option<nat>): History
  {
    History(Send(h.world, op), h.marks + [Marked(undoes)])
  }

  /** Undo the command at `k`, unless what it set no longer holds. */
  function Undone(h: History, k: nat): History
    requires k < |h.world.log|
  {
    var e := h.world.log[k];
    if CanUndo(e, h.world.raw) then Sent(h, UndoOp(e, h.world.raw), Some(k)) else h
  }

  function Next(h: History, turn: Turn): (r: History)
    requires |h.marks| == |h.world.log|
    ensures |r.marks| == |r.world.log|
  {
    match turn
    case Complete => Sent(h, CompleteOp(h.world.raw), None)
    case Reopen(clock) => Sent(h, ReopenOp(h.world.raw, clock), None)
    case Undo =>
      var latest := LastUndoable(h.marks, |h.marks|);
      if latest.Some? then Undone(h, latest.value) else h
    case Redo =>
      var n := |h.marks|;
      if n > 0 && h.marks[n - 1].undoes.Some? then Undone(h, n - 1) else h
  }

  ghost predicate Aligned(h: History)
  {
    |h.marks| == |h.world.log|
  }

  ghost function Final(h: History, turns: seq<Turn>): (r: History)
    requires Aligned(h)
    ensures Aligned(r)
    decreases |turns|
  {
    if turns == [] then h else Final(Next(h, turns[0]), turns[1..])
  }

  /** The clock never goes back. */
  ghost predicate InTime(clock: int, turns: seq<Turn>)
    decreases |turns|
  {
    turns != [] ==>
      if turns[0].Reopen? then clock <= turns[0].clock && InTime(turns[0].clock, turns[1..]) else InTime(clock, turns[1..])
  }

  ghost function Later(clock: int, turn: Turn): int
  {
    if turn.Reopen? then turn.clock else clock
  }

  // ----- What every turn keeps -----

  /** A reopen of a completed task that left its reminder off. */
  predicate Quiet(e: Entry)
  {
    e.op.action.Reopen? && Get(e.before, STATUS) == DONE && REMINDER_ON !in e.op.body
  }

  /** From `k` on, the reminder was off and no command said otherwise. */
  ghost predicate QuietFrom(w: World, k: nat)
  {
    && !ReminderOn(w.raw)
    && forall j :: k <= j < |w.log| ==> !ReminderOn(w.log[j].before) && REMINDER_ON !in w.log[j].op.body
  }

  ghost predicate Passed(time: Value, clock: int)
  {
    time.Minute? ==> time.minute <= clock
  }

  /** What holds of each command: users' completions say when a reminder goes off, and late reopens keep it off. */
  ghost predicate EntryKeeps(h: History, k: nat, time: Value, clock: int)
    requires Aligned(h) && k < |h.marks|
  {
    var e := h.world.log[k];
    && Settled(e)
    && (h.marks[k].undoes.None? && e.op.action.Complete? && ReminderOn(e.before) ==> REMINDER_ON in e.op.body)
    && (Live(h.marks, k) && Quiet(e) ==> QuietFrom(h.world, k) && Passed(time, clock))
  }

  ghost predicate Keeps(h: History, time: Value, clock: int)
  {
    && Aligned(h) && Agrees(h.world, time)
    && (forall k :: 0 <= k < |h.marks| ==> EntryKeeps(h, k, time, clock))
    && (h.marks != [] ==> RightAfter(h.world, |h.marks| - 1))
  }

  lemma QuietGrows(w: World, op: NewOp, k: nat)
    requires QuietFrom(w, k) && REMINDER_ON !in op.body
    ensures QuietFrom(Send(w, op), k)
  {
    MergeReads(w.raw, op.body, REMINDER_ON);
  }

  /** One more command, of the log's kind, that stays quiet wherever the log is. */
  lemma SentKeeps(h: History, op: NewOp, undoes: Option<nat>, time: Value, clock: int, later: int)
    requires Keeps(h, time, clock) && clock <= later && EntryOk(Entry(op, h.world.raw), time)
    requires Settled(Entry(op, h.world.raw))
    requires undoes.None? && op.action.Complete? && ReminderOn(h.world.raw) ==> REMINDER_ON in op.body
    requires undoes.None? && Quiet(Entry(op, h.world.raw)) ==> Passed(time, later)
    requires forall k :: 0 <= k < |h.marks| && Live(h.marks, k) && Quiet(h.world.log[k]) ==> REMINDER_ON !in op.body
    ensures Keeps(Sent(h, op, undoes), time, later)
  {
    var v, n := Sent(h, op, undoes), |h.marks|;
    SendAgrees(h.world, op, time);
    forall k | 0 <= k < |v.marks| ensures EntryKeeps(v, k, time, later) {
      if k < n {
        assert v.world.log[k] == h.world.log[k] && EntryKeeps(h, k, time, clock);
        if Live(v.marks, k) && Quiet(v.world.log[k]) {
          LiveAfter(h.marks, Marked(undoes), k);
          QuietGrows(h.world, op, k);
        }
      } else {
        NewKeeps(h, op, undoes, time, later);
      }
    }
  }

  lemma NewKeeps(h: History, op: NewOp, undoes: Option<nat>, time: Value, later: int)
    requires Aligned(h) && Agrees(h.world, time) && Settled(Entry(op, h.world.raw))
    requires undoes.None? && op.action.Complete? && ReminderOn(h.world.raw) ==> REMINDER_ON in op.body
    requires undoes.None? && Quiet(Entry(op, h.world.raw)) ==> Passed(time, later)
    ensures EntryKeeps(Sent(h, op, undoes), |h.marks|, time, later)
  {
    var v, n := Sent(h, op, undoes), |h.marks|;
    assert v.marks[n] == Marked(undoes) && v.world.log[n] == Entry(op, h.world.raw);
    if Live(v.marks, n) && Quiet(v.world.log[n]) {
      MergeReads(h.world.raw, op.body, REMINDER_ON);
    }
  }

  lemma CompleteKeeps(h: History, time: Value, clock: int)
    requires Keeps(h, time, clock)
    ensures Keeps(Next(h, Turn.Complete), time, clock)
  {
    var w, op := h.world, CompleteOp(h.world.raw);
    CompleteOk(w.raw, time);
    UsersAreSettled(w.raw, clock, time);
    forall k | 0 <= k < |h.marks| && Live(h.marks, k) && Quiet(w.log[k]) ensures REMINDER_ON !in op.body {
      assert EntryKeeps(h, k, time, clock);
    }
    SentKeeps(h, op, None, time, clock, clock);
  }

  lemma ReopenKeeps(h: History, time: Value, clock: int, later: int)
    requires Keeps(h, time, clock) && clock <= later
    ensures Keeps(Next(h, Turn.Reopen(later)), time, later)
  {
    var w, op := h.world, ReopenOp(h.world.raw, later);
    ReopenOk(w.raw, later, time);
    UsersAreSettled(w.raw, later, time);
    ReopenSays(w.raw, time, later);
    forall k | 0 <= k < |h.marks| && Live(h.marks, k) && Quiet(w.log[k]) ensures REMINDER_ON !in op.body {
      assert EntryKeeps(h, k, time, clock);
    }
    SentKeeps(h, op, None, time, clock, later);
  }

  /** A reopen turns the reminder of a completed task on exactly while its time is ahead. */
  lemma ReopenSays(raw: Entity, time: Value, clock: int)
    requires Proper(raw, time)
    ensures var op := ReopenOp(raw, clock);
            && op.action.Reopen?
            && (REMINDER_ON in op.body <==> Get(raw, STATUS) == DONE && time.Minute? && time.minute > clock)
  {
  }

  /** A quiet command's inverse is quiet. */
  lemma QuietInverse(e: Entry, raw: Entity, time: Value)
    requires EntryOk(e, time) && !ReminderOn(e.before) && REMINDER_ON !in e.op.body
    ensures REMINDER_ON !in UndoOp(e, raw).body
  {
  }

  /** The latest live command, undone while what it set holds, never strands the reminder. */
  lemma LatestNeverStrands(h: History, k: nat, time: Value, clock: int)
    requires Keeps(h, time, clock) && k < |h.marks| && Live(h.marks, k) && CanUndo(h.world.log[k], h.world.raw)
    ensures !Strands(h.world.log[k], h.world.raw)
  {
    var e := h.world.log[k];
    assert EntryOk(e, time) && EntryKeeps(h, k, time, clock);
    if e.op.action.Complete? {
      CompletionsDontStrand(e, h.world.raw, time);
    }
  }

  /** Its undo's own undo wouldn't either. */
  lemma LatestSettled(h: History, k: nat, time: Value, clock: int)
    requires Keeps(h, time, clock) && k < |h.marks| && Live(h.marks, k) && CanUndo(h.world.log[k], h.world.raw)
    ensures Settled(Entry(UndoOp(h.world.log[k], h.world.raw), h.world.raw))
  {
    var e := h.world.log[k];
    assert EntryOk(e, time) && EntryKeeps(h, k, time, clock);
    HoldsAll(e, h.world.raw);
  }

  lemma UndoEntryOk(w: World, k: nat, time: Value)
    requires Agrees(w, time) && k < |w.log| && CanUndo(w.log[k], w.raw) && !Strands(w.log[k], w.raw)
    ensures EntryOk(Entry(UndoOp(w.log[k], w.raw), w.raw), time)
  {
    assert EntryOk(w.log[k], time);
    if w.log[k].op.action.Complete? {
      UndoCompleteOk(w.log[k], w.raw, time);
    } else {
      UndoReopenOk(w.log[k], w.raw, time);
    }
  }

  /** Undoing a command that no live quiet one comes after. */
  lemma UndoneKeeps(h: History, k: nat, time: Value, clock: int)
    requires Keeps(h, time, clock) && k < |h.marks| && CanUndo(h.world.log[k], h.world.raw)
    requires !Strands(h.world.log[k], h.world.raw) && Settled(Entry(UndoOp(h.world.log[k], h.world.raw), h.world.raw))
    requires forall j :: 0 <= j < |h.marks| && Live(h.marks, j) ==> j <= k
    ensures Keeps(Undone(h, k), time, clock)
  {
    var w, op := h.world, UndoOp(h.world.log[k], h.world.raw);
    UndoEntryOk(w, k, time);
    assert EntryOk(w.log[k], time);
    forall j | 0 <= j < |h.marks| && Live(h.marks, j) && Quiet(w.log[j]) ensures REMINDER_ON !in op.body {
      assert EntryKeeps(h, j, time, clock);
      QuietInverse(w.log[k], w.raw, time);
    }
    SentKeeps(h, op, Some(k), time, clock, clock);
  }

  lemma UndoKeeps(h: History, time: Value, clock: int)
    requires Keeps(h, time, clock)
    ensures Keeps(Next(h, Undo), time, clock)
  {
    var latest := LastUndoable(h.marks, |h.marks|);
    if latest.Some? && CanUndo(h.world.log[latest.value], h.world.raw) {
      LatestNeverStrands(h, latest.value, time, clock);
      LatestSettled(h, latest.value, time, clock);
      UndoneKeeps(h, latest.value, time, clock);
    }
  }

  lemma RedoKeeps(h: History, time: Value, clock: int)
    requires Keeps(h, time, clock)
    ensures Keeps(Next(h, Redo), time, clock)
  {
    var n := |h.marks|;
    if n > 0 && h.marks[n - 1].undoes.Some? {
      assert EntryKeeps(h, n - 1, time, clock);
      InOrderNeverStrands(h.world, n - 1, time);
      UndoneKeeps(h, n - 1, time, clock);
    }
  }

  lemma {:induction false} RunKeeps(h: History, turns: seq<Turn>, time: Value, clock: int) returns (later: int)
    requires Keeps(h, time, clock) && InTime(clock, turns)
    ensures Keeps(Final(h, turns), time, later)
    decreases |turns|
  {
    later := clock;
    if turns != [] {
      match turns[0] {
        case Complete => CompleteKeeps(h, time, clock);
        case Reopen(now) => ReopenKeeps(h, time, clock, now);
        case Undo => UndoKeeps(h, time, clock);
        case Redo => RedoKeeps(h, time, clock);
      }
      later := RunKeeps(Next(h, turns[0]), turns[1..], time, Later(clock, turns[0]));
    }
  }

  /**
   From any task on which they agree, with nothing logged: after every run of
   completions, reopens, bare undos and redos straight after an undo, in any
   order, the cache and Graph agree on the reminder.
   */
  lemma InOrderRunAgrees(raw: Entity, turns: seq<Turn>, time: Value, clock: int)
    requires Proper(raw, time) && InTime(clock, turns)
    ensures Agrees(Final(History(World(raw, View(raw), []), []), turns).world, time)
  {
    var later := RunKeeps(History(World(raw, View(raw), []), []), turns, time, clock);
  }

  // ----- A redo that comes later -----

  /** What undoing a completion of an open task with its reminder off logs. */
  lemma QuietUndo(time: int)
    ensures var open, done := Fields(Assignment.NOT_STARTED, false, time), Fields(Assignment.COMPLETED_STATUS, false, time);
            var e := Entry(CompleteOp(open), open);
            && CanUndo(e, done) && UndoOp(e, done) == UpdateOp(Outbox.Reopen, map[STATUS := Text(Assignment.NOT_STARTED)])
            && Merge(done, UndoOp(e, done).body) == open
  {
    var open, done := Fields(Assignment.NOT_STARTED, false, time), Fields(Assignment.COMPLETED_STATUS, false, time);
    CompleteOpen(false, time);
    QuietUndoOf(Entry(CompleteOp(open), open), done, time);
  }

  lemma QuietUndoOf(e: Entry, done: Entity, time: int)
    requires e.op.kind.Update? && e.op.action.Complete? && e.op.body == map[STATUS := DONE]
    requires e.before == Fields(Assignment.NOT_STARTED, false, time) && done == Fields(Assignment.COMPLETED_STATUS, false, time)
    ensures CanUndo(e, done) && UndoOp(e, done) == UpdateOp(Outbox.Reopen, map[STATUS := Text(Assignment.NOT_STARTED)])
    ensures Merge(done, UndoOp(e, done).body) == e.before
  {
    assert FieldsNotHolding(e.op.body, done) == {};
    assert UndoOp(e, done).body == map[STATUS := Text(Assignment.NOT_STARTED)];
  }

  lemma ReopenAhead(time: int)
    ensures var done := Fields(Assignment.COMPLETED_STATUS, false, time);
            Merge(done, ReopenOp(done, time - 1).body) == Fields(Assignment.NOT_STARTED, true, time)
  {
    var done := Fields(Assignment.COMPLETED_STATUS, false, time);
    assert ReopenOp(done, time - 1).body == Fields(Assignment.NOT_STARTED, true, time);
  }

  /**
   A redo that waits can part the two: complete a task whose reminder is off,
   undo that, complete it again, reopen it while the reminder's time is ahead,
   and only then redo.
   */
  lemma LateRedoParts(time: int)
    ensures var open := Fields(Assignment.NOT_STARTED, false, time);
            var w1 := Reminder.Next(World(open, View(open), []), DoComplete);
            && Reminder.Enabled(w1, DoUndo(0))
            && var w3 := Reminder.Next(Reminder.Next(w1, DoUndo(0)), DoComplete);
               var w4 := Reminder.Next(w3, DoReopen(time - 1));
               && Reminder.Enabled(w4, DoUndo(1)) && CanUndo(w4.log[1], w4.raw)
               && var v := Reminder.Next(w4, DoUndo(1));
                  ReminderOn(v.raw) && !v.graph.on
  {
    var open := Fields(Assignment.NOT_STARTED, false, time);
    var w0 := World(open, View(open), []);
    CompleteOpen(false, time);
    var w1 := Reminder.Next(w0, DoComplete);
    QuietUndo(time);
    assert w1.log[0] == Entry(CompleteOp(open), open);
    var w2 := Reminder.Next(w1, DoUndo(0));
    var w3 := Reminder.Next(w2, DoComplete);
    ReopenAhead(time);
    var w4 := Reminder.Next(w3, DoReopen(time - 1));
    UndoSecond(w4, w4.log[1], time);
  }

  // ----- A clock that goes back -----

  /** The last command, undone: back to before it, by a command that is the last in turn. */
  lemma LastUndone(h: History, time: Value)
    requires Aligned(h) && Agrees(h.world, time) && h.marks != []
    requires RightAfter(h.world, |h.marks| - 1) && Settled(h.world.log[|h.marks| - 1])
    ensures var v, n := Undone(h, |h.marks| - 1), |h.marks|;
            && v.marks == h.marks + [Marked(Some(n - 1))] && |v.world.log| == n + 1 && h.world.log <= v.world.log
            && Agrees(v.world, time) && RightAfter(v.world, n) && Settled(v.world.log[n])
            && v.world.raw == h.world.log[n - 1].before && v.world.log[n].before == h.world.raw
  {
    var w, n := h.world, |h.marks|;
    InOrderNeverStrands(w, n - 1, time);
    UndoAgreesExactly(w, n - 1, time);
    InOrderRestores(w, n - 1, time);
  }

  /** Undoing the last command and redoing it leaves all as it was, but for the log. */
  lemma UndoRedo(h: History, time: Value)
    requires Aligned(h) && Agrees(h.world, time) && h.marks != []
    requires Live(h.marks, |h.marks| - 1) && RightAfter(h.world, |h.marks| - 1) && Settled(h.world.log[|h.marks| - 1])
    ensures var v, n := Next(Next(h, Undo), Redo), |h.marks|;
            && v.marks == h.marks + [Marked(Some(n - 1)), Marked(Some(n))] && v.world.raw == h.world.raw
            && h.world.log <= v.world.log && Agrees(v.world, time)
  {
    UndoIsLast(h);
    LastUndone(h, time);
    RedoneLast(h, Undone(h, |h.marks| - 1), time);
  }

  lemma RedoneLast(h: History, undone: History, time: Value)
    requires Aligned(undone) && Agrees(undone.world, time) && h.marks != [] && |h.world.log| == |h.marks|
    requires undone.marks == h.marks + [Marked(Some(|h.marks| - 1))] && h.world.log <= undone.world.log
    requires RightAfter(undone.world, |h.marks|) && Settled(undone.world.log[|h.marks|])
    requires undone.world.log[|h.marks|].before == h.world.raw
    ensures var v, n := Next(undone, Redo), |h.marks|;
            && v.marks == h.marks + [Marked(Some(n - 1)), Marked(Some(n))] && v.world.raw == h.world.raw
            && h.world.log <= v.world.log && Agrees(v.world, time)
  {
    RedoIsLast(undone);
    LastUndone(undone, time);
    assert h.world.log <= undone.world.log <= Next(undone, Redo).world.log;
  }

  lemma UndoIsLast(h: History)
    requires Aligned(h) && h.marks != [] && Live(h.marks, |h.marks| - 1)
    ensures Next(h, Undo) == Undone(h, |h.marks| - 1)
  {
  }

  lemma RedoIsLast(h: History)
    requires Aligned(h) && h.marks != [] && h.marks[|h.marks| - 1].undoes.Some?
    ensures Next(h, Redo) == Undone(h, |h.marks| - 1)
  {
  }

  lemma UserTurn(h: History, turn: Turn, time: Value)
    requires Aligned(h) && Agrees(h.world, time) && (turn.Complete? || turn.Reopen?)
    requires GoodLog(h.marks)
    ensures var v, n := Next(h, turn), |h.marks|;
            && Agrees(v.world, time) && v.marks == h.marks + [Marked(None)] && Live(v.marks, n)
            && RightAfter(v.world, n) && Settled(v.world.log[n]) && h.world.log <= v.world.log
  {
    CompleteOk(h.world.raw, time);
    var clock := if turn.Reopen? then turn.clock else 0;
    ReopenOk(h.world.raw, clock, time);
    UsersAreSettled(h.world.raw, clock, time);
    if turn.Complete? {
      SendAgrees(h.world, CompleteOp(h.world.raw), time);
    } else {
      SendAgrees(h.world, ReopenOp(h.world.raw, clock), time);
    }
  }

  /** Completed or reopened, and that undone and redone. */
  ghost function Twice(h: History, turn: Turn): (r: History)
    requires Aligned(h)
    ensures Aligned(r)
  {
    Next(Next(Next(h, turn), Undo), Redo)
  }

  lemma TwiceIs(h: History, turn: Turn, time: Value)
    requires Aligned(h) && Agrees(h.world, time) && (turn.Complete? || turn.Reopen?)
    requires GoodLog(h.marks)
    ensures var v, n := Twice(h, turn), |h.marks|;
            && v.marks == h.marks + [Marked(None), Marked(Some(n)), Marked(Some(n + 1))] && h.world.log <= v.world.log
            && v.world.raw == Next(h, turn).world.raw && Agrees(v.world, time)
  {
    UserTurn(h, turn, time);
    TwiceFrom(h, Next(h, turn), time);
  }

  lemma TwiceFrom(h: History, made: History, time: Value)
    requires Aligned(made) && Agrees(made.world, time) && made.marks == h.marks + [Marked(None)] && h.world.log <= made.world.log
    requires Live(made.marks, |h.marks|) && RightAfter(made.world, |h.marks|) && Settled(made.world.log[|h.marks|])
    ensures var v, n := Next(Next(made, Undo), Redo), |h.marks|;
            && v.marks == h.marks + [Marked(None), Marked(Some(n)), Marked(Some(n + 1))] && h.world.log <= v.world.log
            && v.world.raw == made.world.raw && Agrees(v.world, time)
  {
    UndoRedo(made, time);
    var v := Next(Next(made, Undo), Redo);
    assert h.world.log <= made.world.log <= v.world.log;
  }

  /** Reopened late; completed, that undone and redone; reopened ahead of time, that undone and redone. */
  ghost function ClockBack(time: int): (h: History)
    ensures Aligned(h)
  {
    var done := Fields(Assignment.COMPLETED_STATUS, false, time);
    var late := Next(History(World(done, View(done), []), []), Turn.Reopen(time));
    Twice(Twice(late, Turn.Complete), Turn.Reopen(time - 1))
  }

  lemma Late(time: int) returns (h: History)
    ensures var done := Fields(Assignment.COMPLETED_STATUS, false, time);
            h == Next(History(World(done, View(done), []), []), Turn.Reopen(time))
    ensures Aligned(h) && Agrees(h.world, Minute(time)) && h.marks == [Marked(None)]
    ensures h.world.raw == Fields(Assignment.NOT_STARTED, false, time)
    ensures h.world.log == [Entry(UpdateOp(Outbox.Reopen, map[STATUS := Text(Assignment.NOT_STARTED)]),
                                  Fields(Assignment.COMPLETED_STATUS, false, time))]
  {
    var done := Fields(Assignment.COMPLETED_STATUS, false, time);
    var h0 := History(World(done, View(done), []), []);
    ReopenLate(time);
    UserTurn(h0, Turn.Reopen(time), Minute(time));
    h := Next(h0, Turn.Reopen(time));
  }

  /** The first command of `log` is a late reopen. */
  ghost predicate LateFirst(log: seq<Entry>, time: int)
  {
    log != [] && log[0] == Entry(UpdateOp(Outbox.Reopen, map[STATUS := Text(Assignment.NOT_STARTED)]),
                                 Fields(Assignment.COMPLETED_STATUS, false, time))
  }

  lemma CompletedTwice(late: History, time: int)
    requires Aligned(late) && Agrees(late.world, Minute(time)) && late.marks == [Marked(None)]
    requires late.world.raw == Fields(Assignment.NOT_STARTED, false, time) && LateFirst(late.world.log, time)
    ensures var v := Twice(late, Turn.Complete);
            && v.marks == [Marked(None), Marked(None), Marked(Some(1)), Marked(Some(2))] && LateFirst(v.world.log, time)
            && v.world.raw == Fields(Assignment.COMPLETED_STATUS, false, time) && Agrees(v.world, Minute(time))
  {
    CompletedOnce(late, time);
    TwiceIs(late, Turn.Complete, Minute(time));
    ThreeMore(late.marks, [Marked(None), Marked(Some(1)), Marked(Some(2))]);
    LateFirstStays(late.world.log, Twice(late, Turn.Complete).world.log, time);
  }

  lemma ThreeMore(marks: seq<Mark>, more: seq<Mark>)
    requires marks == [Marked(None)] && more == [Marked(None), Marked(Some(1)), Marked(Some(2))]
    ensures marks + more == [Marked(None), Marked(None), Marked(Some(1)), Marked(Some(2))]
  {
  }

  lemma CompletedOnce(late: History, time: int)
    requires Aligned(late) && late.world.raw == Fields(Assignment.NOT_STARTED, false, time)
    ensures Next(late, Turn.Complete).world.raw == Fields(Assignment.COMPLETED_STATUS, false, time)
  {
    CompleteOpen(false, time);
  }

  lemma LateFirstStays(log: seq<Entry>, longer: seq<Entry>, time: int)
    requires LateFirst(log, time) && log <= longer
    ensures LateFirst(longer, time)
  {
  }

  lemma ReopenedTwice(done: History, time: int)
    requires Aligned(done) && Agrees(done.world, Minute(time)) && done.marks == [Marked(None), Marked(None), Marked(Some(1)), Marked(Some(2))]
    requires done.world.raw == Fields(Assignment.COMPLETED_STATUS, false, time) && LateFirst(done.world.log, time)
    ensures var v := Twice(done, Turn.Reopen(time - 1));
            && v.marks == [Marked(None), Marked(None), Marked(Some(1)), Marked(Some(2)), Marked(None), Marked(Some(4)), Marked(Some(5))] && LateFirst(v.world.log, time)
            && v.world.raw == Fields(Assignment.NOT_STARTED, true, time)
  {
    ReopenedOnce(done, time);
    TwiceIs(done, Turn.Reopen(time - 1), Minute(time));
    LateFirstStays(done.world.log, Twice(done, Turn.Reopen(time - 1)).world.log, time);
  }

  lemma ReopenedOnce(done: History, time: int)
    requires Aligned(done) && done.world.raw == Fields(Assignment.COMPLETED_STATUS, false, time)
    ensures Next(done, Turn.Reopen(time - 1)).world.raw == Fields(Assignment.NOT_STARTED, true, time)
  {
    ReopenAhead(time);
  }

  lemma FirstIsLatest(h: History)
    requires Aligned(h) && h.marks == [Marked(None), Marked(None), Marked(Some(1)), Marked(Some(2)), Marked(None), Marked(Some(4)), Marked(Some(5))]
    ensures LastUndoable(h.marks, |h.marks|) == Some(0)
  {
    assert h.marks[2].undoes == Some(1) && h.marks[5].undoes == Some(4);
    assert Live(h.marks, 0) && !Live(h.marks, 1) && !Live(h.marks, 4);
  }

  lemma LateReopenUndone(h: History, time: int)
    requires Aligned(h) && LastUndoable(h.marks, |h.marks|) == Some(0) && LateFirst(h.world.log, time)
    requires h.world.raw == Fields(Assignment.NOT_STARTED, true, time)
    ensures var v := Next(h, Undo); ReminderOn(v.world.raw) && !v.world.graph.on
  {
    UndoSecond(h.world, h.world.log[0], time);
  }

  /**
   In order, but with the clock set back: the redone commands are no longer
   the ones a bare undo picks, and the next one undoes the late reopen while
   the reminder is on.
   */
  lemma ClockBackParts(time: int)
    ensures var v := Next(ClockBack(time), Undo);
            ReminderOn(v.world.raw) && !v.world.graph.on
  {
    var late := Late(time);
    CompletedTwice(late, time);
    ReopenedTwice(Twice(late, Turn.Complete), time);
    var h := ClockBack(time);
    FirstIsLatest(h);
    LateReopenUndone(h, time);
  }
}
