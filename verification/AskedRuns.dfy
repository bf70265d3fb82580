/**
 Runs of changes as users ask for them: edits, completions, reopens,
 deferrals, nags, assignments and My Day, with bare undos among them.
 */
module AskedRuns {
  import opened Entities
  import opened Sequences
  import opened Outbox
  import opened Undo
  import opened UndoSafety
  import opened CommandLog
  import opened UndoRuns
  import Planner
  import PlannedChanges
  import MyDay

  // ----- What is asked for -----

  /** The tasks a change is queued on: all live, and no reopen that brings back another reminder time than theirs. */
  ghost predicate Ready(cache: Cache, targets: seq<string>, ops: seq<NewOp>)
  {
    && (forall t :: t in targets ==> t in cache && !cache[t].deleted)
    && forall i :: 0 <= i < |ops| ==> ops[i].task in cache && !LosesTime(ops[i], cache[ops[i].task].raw)
  }

  /** `ops` is what changing the targets planned from the tasks as read in `from`, at whatever time that was. */
  ghost predicate AskedFor(
    cache: Cache, id: string, ops: seq<NewOp>, from: Cache, targets: seq<string>, change: Planner.Change, bulk: bool,
    now: int)
  {
    TimedCache(from) && PlannedChanges.PlannedFrom(id, from, targets, change, bulk, now, ops) && Ready(cache, targets, ops)
  }

  /** The same for My Day, with no task's flag written twice. */
  ghost predicate AskedMyDay(
    cache: Cache, id: string, ops: seq<NewOp>, from: Cache, targets: seq<string>, action: Outbox.Action, today: int)
  {
    && (forall t :: t in targets ==> t in from && !MyDay.Twice(from[t], action, today)) && Distinct(targets)
    && action in {MyDayAdd, MyDayRemove} && ops == MyDay.CommandOps(id, from, targets, action, today, |targets|)
    && Ready(cache, targets, ops)
  }

  ghost predicate Asked(cache: Cache, id: string, ops: seq<NewOp>)
  {
    || (exists from, targets, change, bulk, now :: AskedFor(cache, id, ops, from, targets, change, bulk, now))
    || (exists from, targets, action, today :: AskedMyDay(cache, id, ops, from, targets, action, today))
  }

  /** A reminder's time is a time, and goes with its flag. */
  ghost predicate TimesFlagged(op: NewOp)
  {
    op.kind.Update? && REMINDER in op.body ==>
      REMINDER_ON in op.body && (op.body[REMINDER].Minute? || op.body[REMINDER] == Null)
  }

  lemma AskedIsPlanned(cache: Cache, id: string, ops: seq<NewOp>)
    requires CleanCache(cache) && Asked(cache, id, ops)
    ensures Planned(cache, ops)
    ensures forall i :: 0 <= i < |ops| ==> TimesFlagged(ops[i])
  {
    if from, targets, change, bulk, now :| AskedFor(cache, id, ops, from, targets, change, bulk, now) {
      PlannedChanges.ChangesArePlanned(id, from, cache, targets, change, bulk, now, ops);
      PlannedChanges.PlansFieldChanges(id, from, targets, change, bulk, now, ops);
      forall i | 0 <= i < |ops| ensures TimesFlagged(ops[i]) {
        assert PlannedChanges.FieldChange(ops[i], from);
      }
    } else {
      var from, targets, action, today :| AskedMyDay(cache, id, ops, from, targets, action, today);
      MyDay.OpsArePlanned(id, from, cache, targets, action, today, ops);
    }
  }

  // ----- Runs -----

  /** A run in which every command is one asked for, whenever its tasks were read. */
  ghost predicate AskedRun(w: World, steps: seq<RunStep>)
    decreases |steps|
  {
    steps != [] ==>
      && (steps[0].Do? ==> Asked(w.cache, steps[0].id, steps[0].ops))
      && (CanStep(w, steps[0]) ==> AskedRun(Next(w, steps[0]), steps[1..]))
  }

  ghost predicate FieldLog(log: seq<UndoRuns.Command>)
  {
    forall i :: 0 <= i < |log| ==> FieldCommand(log[i].ops)
  }

  lemma StepKeepsClean(w: World, step: RunStep)
    requires CanStep(w, step) && CleanCache(w.cache) && FieldLog(w.log)
    ensures CleanCache(Next(w, step).cache) && FieldLog(Next(w, step).log)
  {
    if step.Do? {
      FieldOpsKeepClean(w.cache, step.ops, |step.ops|);
    } else if UndoLast(w, step.id).Ok? {
      var target := LastUndoable(w.log, |w.log|).value;
      PlanShape(w.log[target].ops, w.cache, step.id);
      var inverse := UndoPlan(w.log[target].ops, w.cache, step.id).value.inverse;
      FieldOpsKeepClean(w.cache, inverse, |inverse|);
    }
  }

  /** So every such run has the properties `UndoRuns` proves. */
  lemma {:induction false} AskedRunsAreValid(w: World, steps: seq<RunStep>)
    requires CleanCache(w.cache) && FieldLog(w.log) && AskedRun(w, steps)
    ensures ValidRun(w, steps)
    decreases |steps|
  {
    if steps != [] {
      var step := steps[0];
      if step.Do? {
        AskedIsPlanned(w.cache, step.id, step.ops);
      }
      StepKeepsClean(w, step);
      AskedRunsAreValid(Next(w, step), steps[1..]);
    }
  }

  /** So has one whose undos come last, whatever kinds of commands the log holds before it. */
  lemma {:induction false} DosThenUndosAreValid(w: World, dos: seq<RunStep>, undos: seq<RunStep>, run: seq<RunStep>)
    requires CleanCache(w.cache) && run == dos + undos && AskedRun(w, run)
    requires forall i :: 0 <= i < |dos| ==> dos[i].Do?
    requires forall i :: 0 <= i < |undos| ==> undos[i].Undo?
    ensures ValidRun(w, run)
    decreases |dos|
  {
    if dos == [] {
      assert run == undos;
      UndosAreValid(w, undos);
    } else {
      assert run[0] == dos[0] && run[1..] == dos[1..] + undos;
      AskedIsPlanned(w.cache, dos[0].id, dos[0].ops);
      FieldOpsKeepClean(w.cache, dos[0].ops, |dos[0].ops|);
      DosThenUndosAreValid(Next(w, dos[0]), dos[1..], undos, run[1..]);
    }
  }

  lemma {:induction false} UndosAreValid(w: World, undos: seq<RunStep>)
    requires AskedRun(w, undos) && forall i :: 0 <= i < |undos| ==> undos[i].Undo?
    ensures ValidRun(w, undos)
    decreases |undos|
  {
    if undos != [] {
      UndosAreValid(Next(w, undos[0]), undos[1..]);
    }
  }

  /**
   Last in, first out, for changes as users ask for them, whatever the log
   holds already: after any run of them, as many bare undos all succeed and
   bring every task back to what it was.
   */
  lemma ChangesUndoneInTurn(w: World, dos: seq<RunStep>, undos: seq<RunStep>, run: seq<RunStep>, id: string)
    requires CleanCache(w.cache) && GoodLog(w.log) && run == dos + undos && AskedRun(w, run) && |undos| <= |dos|
    requires forall i :: 0 <= i < |dos| ==> dos[i].Do? && dos[i].ops != []
    requires forall i :: 0 <= i < |undos| ==> undos[i].Undo?
    ensures ValidRun(w, run)
    ensures |undos| < |dos| ==> UndoLast(Final(w, run), id).Ok?
    ensures |undos| == |dos| ==> Final(w, run).cache == w.cache
  {
    DosThenUndosAreValid(w, dos, undos, run);
    LastInFirstOut(w, dos, undos, id);
  }
}
