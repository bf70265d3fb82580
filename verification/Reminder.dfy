/**
 One task's reminder as the cache shows it and as Graph has it, while the
 task is completed, reopened, and these are undone and redone. Graph ignores
 a written flag: writing a time turns the reminder on, completing turns it
 off. Its time never changes here.
 */
module Reminder {
  import opened Entities
  import opened Sequences
  import opened Outbox
  import opened Undo
  import Assignment
  import Planner

  const DONE := Text(Assignment.COMPLETED_STATUS)

  // ----- Graph's side -----

  datatype Graph = Graph(status: Value, on: bool, at: Option<int>)

  function GraphApply(g: Graph, body: Entity): Graph
  {
    var status := if STATUS in body then body[STATUS] else g.status;
    if REMINDER in body then Graph(status, body[REMINDER].Minute?, ReminderAt(body))
    else if STATUS in body && body[STATUS] == DONE then Graph(status, false, g.at)
    else Graph(status, g.on, g.at)
  }

  /** What Graph holds when it agrees with the cached task. */
  function View(raw: Entity): Graph
  {
    Graph(Get(raw, STATUS), ReminderOn(raw), ReminderAt(raw))
  }

  // ----- Commands on the task -----

  datatype Entry = Entry(op: NewOp, before: Entity)

  datatype World = World(raw: Entity, graph: Graph, log: seq<Entry>)

  function Send(w: World, op: NewOp): World
  {
    World(Merge(w.raw, op.body), GraphApply(w.graph, op.body), w.log + [Entry(op, w.raw)])
  }

  function UpdateOp(action: Outbox.Action, body: Entity): NewOp
  {
    Write("", "", Update, action, body)
  }

  function CompleteOp(raw: Entity): NewOp
  {
    UpdateOp(Complete, Planner.TurnReminderOff(map[STATUS := DONE], Task(raw, map[], false)))
  }

  function ReopenOp(raw: Entity, now: int): NewOp
  {
    UpdateOp(Reopen, Planner.TurnReminderBackOn(
                       map[STATUS := Text(Assignment.NOT_STARTED)], Task(raw, map[], false), now))
  }

  function UndoOp(e: Entry, raw: Entity): NewOp
  {
    UpdateOp(InverseAction(e.op), InverseBody(e.op, e.before, raw))
  }

  // ----- What every entry of such a log keeps to -----

  /** A task that doesn't repeat, whose reminder is on only with a time and while it is open. */
  ghost predicate Proper(raw: Entity, time: Value)
  {
    && Clean(raw) && Get(raw, RECURRENCE) == Null && Get(raw, REMINDER) == time && (time.Minute? || time == Null)
    && (ReminderOn(raw) ==> time.Minute? && Get(raw, STATUS) != DONE)
  }

  predicate TurnsOn(body: Entity)
  {
    REMINDER_ON in body && body[REMINDER_ON] == Flag(true)
  }

  ghost predicate Sends(body: Entity, time: Value)
  {
    && STATUS in body && body.Keys <= {STATUS, REMINDER_ON, REMINDER}
    && (REMINDER in body ==> TurnsOn(body) && body[REMINDER] == time && time.Minute?)
    && (TurnsOn(body) ==> body[STATUS] != DONE)
  }

  /** A completion: a user's, or the undo of a reopen. */
  ghost predicate Completes(body: Entity, before: Entity)
  {
    && (REMINDER_ON in body ==> ReminderOn(before))
    && (Get(before, STATUS) == DONE ==> Get(body, STATUS) == DONE)
    && (REMINDER_ON in body && !TurnsOn(body) ==> Get(body, STATUS) == DONE)
    && (TurnsOn(body) ==> REMINDER in body)
    && (Get(body, STATUS) == DONE && REMINDER_ON !in body ==> !ReminderOn(before))
  }

  /** A reopen: a user's, or the undo of a completion. */
  ghost predicate Reopens(body: Entity, before: Entity)
  {
    && (REMINDER_ON in body ==> TurnsOn(body) && REMINDER in body)
    && (Get(body, STATUS) == DONE ==> Get(before, STATUS) == DONE)
  }

  ghost predicate EntryOk(e: Entry, time: Value)
  {
    && e.op.kind.Update? && (e.op.action.Complete? || e.op.action.Reopen?)
    && Proper(e.before, time) && Sends(e.op.body, time)
    && (if e.op.action.Complete? then Completes(e.op.body, e.before) else Reopens(e.op.body, e.before))
  }

  ghost predicate Agrees(w: World, time: Value)
  {
    && Proper(w.raw, time) && w.graph == View(w.raw)
    && forall i :: 0 <= i < |w.log| ==> EntryOk(w.log[i], time)
  }

  lemma SendReads(raw: Entity, body: Entity)
    requires Clean(raw)
    ensures var after := Merge(raw, body);
            && Clean(after)
            && forall f: Key :: Get(after, f) == if f in body then body[f] else Get(raw, f)
  {
    forall f: Key ensures Get(Merge(raw, body), f) == if f in body then body[f] else Get(raw, f) {
      MergeReads(raw, body, f);
    }
  }

  /** Sending an operation that belongs in the log keeps the two sides the same. */
  lemma SendAgrees(w: World, op: NewOp, time: Value)
    requires Agrees(w, time) && EntryOk(Entry(op, w.raw), time)
    ensures Agrees(Send(w, op), time)
  {
    SendReads(w.raw, op.body);
  }

  lemma CompleteOk(raw: Entity, time: Value)
    requires Proper(raw, time)
    ensures EntryOk(Entry(CompleteOp(raw), raw), time)
  {
  }

  lemma ReopenOk(raw: Entity, now: int, time: Value)
    requires Proper(raw, time)
    ensures EntryOk(Entry(ReopenOp(raw, now), raw), time)
  {
  }

  // ----- Undo -----

  /** Everything `e` set still holds. */
  predicate CanUndo(e: Entry, raw: Entity)
  {
    Holds(e.op.body, raw)
  }

  /**
   The reminder is on, and undoing `e` would complete the task and say nothing
   of it (Graph turns it off, the cache doesn't), or would write its flag off
   without completing the task (the cache turns it off, Graph doesn't).
   */
  predicate Strands(e: Entry, raw: Entity)
  {
    && ReminderOn(raw)
    && (if Get(e.before, STATUS) == DONE then REMINDER_ON !in e.op.body
        else REMINDER_ON in e.op.body && !ReminderOn(e.before))
  }

  lemma HoldsAll(e: Entry, raw: Entity)
    requires CanUndo(e, raw)
    ensures forall f :: f in e.op.body ==> Get(raw, f) == e.op.body[f]
  {
    forall f | f in e.op.body ensures Get(raw, f) == e.op.body[f] {
      HoldsField(e.op.body, raw, f);
    }
  }

  lemma UndoCompleteOk(e: Entry, raw: Entity, time: Value)
    requires EntryOk(e, time) && Proper(raw, time) && CanUndo(e, raw) && e.op.action.Complete?
    ensures EntryOk(Entry(UndoOp(e, raw), raw), time)
  {
    HoldsAll(e, raw);
  }

  lemma UndoReopenOk(e: Entry, raw: Entity, time: Value)
    requires EntryOk(e, time) && Proper(raw, time) && CanUndo(e, raw) && e.op.action.Reopen?
    requires !Strands(e, raw)
    ensures EntryOk(Entry(UndoOp(e, raw), raw), time)
  {
    HoldsAll(e, raw);
  }

  /** A completion never strands its reminder: only a reopen's undo can. */
  lemma CompletionsDontStrand(e: Entry, raw: Entity, time: Value)
    requires EntryOk(e, time) && Proper(raw, time) && CanUndo(e, raw) && e.op.action.Complete?
    ensures !Strands(e, raw)
  {
    HoldsAll(e, raw);
  }

  /** The cache and Graph agree after an undo exactly when it doesn't strand the reminder. */
  lemma UndoAgreesExactly(w: World, k: nat, time: Value)
    requires Agrees(w, time) && k < |w.log| && CanUndo(w.log[k], w.raw)
    ensures Send(w, UndoOp(w.log[k], w.raw)).graph == View(Send(w, UndoOp(w.log[k], w.raw)).raw)
            <==> !Strands(w.log[k], w.raw)
    ensures !Strands(w.log[k], w.raw) ==> Agrees(Send(w, UndoOp(w.log[k], w.raw)), time)
  {
    var e := w.log[k];
    assert EntryOk(e, time);
    if Strands(e, w.raw) {
      StrandedDisagrees(w, e, time);
    } else {
      if e.op.action.Complete? {
        UndoCompleteOk(e, w.raw, time);
      } else {
        UndoReopenOk(e, w.raw, time);
      }
      SendAgrees(w, UndoOp(e, w.raw), time);
    }
  }

  lemma StrandedDisagrees(w: World, e: Entry, time: Value)
    requires Agrees(w, time) && EntryOk(e, time) && CanUndo(e, w.raw) && Strands(e, w.raw)
    ensures var v := Send(w, UndoOp(e, w.raw));
            ReminderOn(v.raw) != v.graph.on
  {
    if e.op.action.Complete? {
      CompletionsDontStrand(e, w.raw, time);
    }
    SendReads(w.raw, UndoOp(e, w.raw).body);
  }

  // ----- Runs -----

  datatype Act = DoComplete | DoReopen(now: int) | DoUndo(k: nat)

  predicate Enabled(w: World, act: Act)
  {
    act.DoUndo? ==> act.k < |w.log|
  }

  /** An undo whose operation no longer holds is refused, and sends nothing. */
  function Next(w: World, act: Act): World
    requires Enabled(w, act)
  {
    match act
    case DoComplete => Send(w, CompleteOp(w.raw))
    case DoReopen(now) => Send(w, ReopenOp(w.raw, now))
    case DoUndo(k) => if CanUndo(w.log[k], w.raw) then Send(w, UndoOp(w.log[k], w.raw)) else w
  }

  ghost predicate ValidRun(w: World, acts: seq<Act>)
    decreases |acts|
  {
    acts != [] ==> Enabled(w, acts[0]) && ValidRun(Next(w, acts[0]), acts[1..])
  }

  ghost function Final(w: World, acts: seq<Act>): World
    requires ValidRun(w, acts)
    decreases |acts|
  {
    if acts == [] then w else Final(Next(w, acts[0]), acts[1..])
  }

  /** No undo in the run strands the reminder when its turn comes. */
  ghost predicate NeverStrands(w: World, acts: seq<Act>)
    requires ValidRun(w, acts)
    decreases |acts|
  {
    acts != [] ==>
      && (acts[0].DoUndo? ==> !Strands(w.log[acts[0].k], w.raw))
      && NeverStrands(Next(w, acts[0]), acts[1..])
  }

  /**
   The cache and Graph agree on the reminder after every run of completions,
   reopens, undos and redos, of any earlier command, that never strands it.
   */
  lemma {:induction false} RunAgrees(w: World, acts: seq<Act>, time: Value)
    requires Agrees(w, time) && ValidRun(w, acts) && NeverStrands(w, acts)
    ensures Agrees(Final(w, acts), time)
    decreases |acts|
  {
    if acts != [] {
      match acts[0] {
        case DoComplete =>
          CompleteOk(w.raw, time);
          SendAgrees(w, CompleteOp(w.raw), time);
        case DoReopen(now) =>
          ReopenOk(w.raw, now, time);
          SendAgrees(w, ReopenOp(w.raw, now), time);
        case DoUndo(k) =>
          if CanUndo(w.log[k], w.raw) {
            UndoAgreesExactly(w, k, time);
          }
      }
      RunAgrees(Next(w, acts[0]), acts[1..], time);
    }
  }

  /** The cached task is as the command at `k` left it: what a bare undo or a redo always finds. */
  ghost predicate RightAfter(w: World, k: nat)
  {
    k < |w.log| && w.raw == Merge(w.log[k].before, w.log[k].op.body)
  }

  /** A reopen turned on a reminder that was off only on a completed task: a user's always does. */
  predicate Settled(e: Entry)
  {
    REMINDER_ON in e.op.body && !ReminderOn(e.before) ==> Get(e.before, STATUS) == DONE
  }

  lemma UsersAreSettled(raw: Entity, now: int, time: Value)
    requires Proper(raw, time)
    ensures Settled(Entry(CompleteOp(raw), raw)) && Settled(Entry(ReopenOp(raw, now), raw))
  {
  }

  /** Undoing in order never strands the reminder, nor makes a command whose undo would. */
  lemma InOrderNeverStrands(w: World, k: nat, time: Value)
    requires Agrees(w, time) && RightAfter(w, k) && Settled(w.log[k])
    ensures CanUndo(w.log[k], w.raw) && !Strands(w.log[k], w.raw)
    ensures Settled(Entry(UndoOp(w.log[k], w.raw), w.raw))
  {
    var e := w.log[k];
    assert EntryOk(e, time);
    SendReads(e.before, e.op.body);
    forall f | f in e.op.body ensures Get(w.raw, f) == e.op.body[f] {
    }
  }

  /** Its undo puts each field back: one it doesn't send was never changed. */
  lemma InverseRestores(e: Entry, raw: Entity, time: Value, f: Key)
    requires EntryOk(e, time) && forall g: Key :: Get(raw, g) == if g in e.op.body then e.op.body[g] else Get(e.before, g)
    ensures var body := UndoOp(e, raw).body; (if f in body then body[f] else Get(raw, f)) == Get(e.before, f)
  {
    assert Get(raw, REMINDER) == Get(e.before, REMINDER);
  }

  /** And it puts the task back as it was. */
  lemma InOrderRestores(w: World, k: nat, time: Value)
    requires Agrees(w, time) && RightAfter(w, k)
    ensures Merge(w.raw, UndoOp(w.log[k], w.raw).body) == w.log[k].before
  {
    var e, body := w.log[k], UndoOp(w.log[k], w.raw).body;
    assert EntryOk(e, time);
    SendReads(e.before, e.op.body);
    var after := Merge(w.raw, body);
    forall f: Key ensures Get(after, f) == Get(e.before, f) {
      MergeReads(w.raw, body, f);
      InverseRestores(e, w.raw, time, f);
    }
    CleanEqual(after, e.before);
  }

  /** `n` times: undo the latest command, redo it, undo it again. */
  function Toggle(w: World, n: nat): World
    requires w.log != []
    decreases n
  {
    if n == 0 then w else Toggle(Send(w, UndoOp(w.log[|w.log| - 1], w.raw)), n - 1)
  }

  /** For ever: the cache and Graph both alternate between two fixed states. */
  lemma {:induction false} TogglingAlternates(w: World, n: nat, time: Value)
    requires Agrees(w, time) && w.log != [] && RightAfter(w, |w.log| - 1) && Settled(w.log[|w.log| - 1])
    ensures var before, v := w.log[|w.log| - 1].before, Toggle(w, n);
            Agrees(v, time) && v.raw == Side(w.raw, before, n) && v.graph == Side(w.graph, View(before), n)
    decreases n
  {
    if n > 0 {
      var k := |w.log| - 1;
      InOrderNeverStrands(w, k, time);
      UndoAgreesExactly(w, k, time);
      InOrderRestores(w, k, time);
      var v := Send(w, UndoOp(w.log[k], w.raw));
      assert v.log[|v.log| - 1] == Entry(UndoOp(w.log[k], w.raw), w.raw);
      TogglingAlternates(v, n - 1, time);
      SideFlips(w.raw, w.log[k].before, n);
      SideFlips(w.graph, View(w.log[k].before), n);
    }
  }

  // ----- A run that strands it -----

  function Fields(status: string, on: bool, time: int): Entity
  {
    map[STATUS := Text(status), REMINDER_ON := Flag(on), REMINDER := Minute(time)]
  }

  lemma OneAct(w: World, act: Act, rest: seq<Act>)
    requires Enabled(w, act) && ValidRun(Next(w, act), rest)
    ensures ValidRun(w, [act] + rest) && Final(w, [act] + rest) == Final(Next(w, act), rest)
  {
    assert ([act] + rest)[1..] == rest;
  }

  lemma CompleteOpen(on: bool, time: int)
    ensures var open, done := Fields(Assignment.NOT_STARTED, on, time), Fields(Assignment.COMPLETED_STATUS, false, time);
            && CompleteOp(open).body == (if on then map[STATUS := DONE, REMINDER_ON := Flag(false)] else map[STATUS := DONE])
            && Merge(open, CompleteOp(open).body) == done
  {
  }

  lemma ReopenLate(time: int)
    ensures var done, late := Fields(Assignment.COMPLETED_STATUS, false, time), Fields(Assignment.NOT_STARTED, false, time);
            && ReopenOp(done, time).body == map[STATUS := Text(Assignment.NOT_STARTED)]
            && Merge(done, ReopenOp(done, time).body) == late
  {
  }

  lemma UndoFirst(e: Entry, time: int)
    requires e.before == Fields(Assignment.NOT_STARTED, true, time) && e.op == CompleteOp(e.before)
    ensures var done := Fields(Assignment.COMPLETED_STATUS, false, time);
            CanUndo(e, done) && Merge(done, UndoOp(e, done).body) == e.before
  {
    CompleteOpen(true, time);
    CompleteOk(e.before, Minute(time));
    var done := Fields(Assignment.COMPLETED_STATUS, false, time);
    var w := World(done, View(done), [e]);
    InOrderNeverStrands(w, 0, Minute(time));
    InOrderRestores(w, 0, Minute(time));
  }

  /** The reopen's undo completes the task without a word of its reminder, which is on. */
  lemma UndoSecond(w: World, e: Entry, time: int)
    requires e.op == UpdateOp(Reopen, map[STATUS := Text(Assignment.NOT_STARTED)])
    requires e.before == Fields(Assignment.COMPLETED_STATUS, false, time)
    requires w.raw == Fields(Assignment.NOT_STARTED, true, time)
    ensures CanUndo(e, w.raw)
    ensures var v := Send(w, UndoOp(e, w.raw)); ReminderOn(v.raw) && !v.graph.on
  {
    assert FieldsNotHolding(e.op.body, w.raw) == {};
    assert UndoOp(e, w.raw).body == map[STATUS := DONE];
  }

  lemma Late(time: int) returns (w: World)
    ensures var open := Fields(Assignment.NOT_STARTED, true, time);
            var start, acts := World(open, View(open), []), [DoComplete] + ([DoReopen(time)] + ([DoComplete] + []));
            ValidRun(start, acts) && Final(start, acts) == w
    ensures w.raw == Fields(Assignment.COMPLETED_STATUS, false, time) && |w.log| == 3
    ensures w.log[0].before == Fields(Assignment.NOT_STARTED, true, time) && w.log[0].op == CompleteOp(w.log[0].before)
    ensures w.log[1] == Entry(UpdateOp(Reopen, map[STATUS := Text(Assignment.NOT_STARTED)]), w.raw)
  {
    var open := Fields(Assignment.NOT_STARTED, true, time);
    var w0 := World(open, View(open), []);
    CompleteOpen(true, time);
    var w1 := Next(w0, DoComplete);
    ReopenLate(time);
    var w2 := Next(w1, DoReopen(time));
    CompleteOpen(false, time);
    w := Next(w2, DoComplete);
    OneAct(w2, DoComplete, []);
    OneAct(w1, DoReopen(time), [DoComplete] + []);
    OneAct(w0, DoComplete, [DoReopen(time)] + ([DoComplete] + []));
  }

  /**
   Undone out of order the two can part: completed with the reminder on,
   reopened once its time has passed, completed again, then the first
   completion undone, and then the reopen. Both undos succeed.
   */
  lemma OutOfOrderParts(time: int)
    ensures var open := Fields(Assignment.NOT_STARTED, true, time);
            var start, acts := World(open, View(open), []), [DoComplete] + ([DoReopen(time)] + ([DoComplete] + []));
            && ValidRun(start, acts) && ValidRun(Final(start, acts), [DoUndo(0)] + ([DoUndo(1)] + []))
            && var v := Final(Final(start, acts), [DoUndo(0)] + ([DoUndo(1)] + []));
               ReminderOn(v.raw) && !v.graph.on
  {
    var w := Late(time);
    UndoFirst(w.log[0], time);
    var w1 := Next(w, DoUndo(0));
    UndoSecond(w1, w1.log[1], time);
    OneAct(w1, DoUndo(1), []);
    OneAct(w, DoUndo(0), [DoUndo(1)] + []);
  }
}
