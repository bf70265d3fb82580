/**
 Assignments racing with other devices. A status edit reads Graph's task and
 goes on only if it finds the status the plan was made from; its PATCH is
 conditional on the etag it read. When Graph refuses the etag, the task is
 read once more and the edit is skipped, rejected or sent again. The flag
 follows only an edit that was made.
 */
module AssignmentRace {
  import opened Entities
  import Outbox
  import opened Assignment

  /** A queued status edit, with the cached status when it was queued. */
  datatype Guarded = Guarded(edit: StatusEdit, before: Option<string>, setsFlag: bool)

  /** Where sending it is. `again` is the one re-send after a refused etag. */
  datatype Phase =
    | Queued
    | Read(status: string, etag: nat, again: bool)
    | Refused
    | Landed(again: bool)
    | Done
    | Skipped
    | Failed

  datatype FlagPhase = FlagQueued | FlagWritten | FlagSkipped | FlagFailed

  datatype Plan = Plan(guarded: Guarded, phase: Phase, flag: FlagPhase)

  /** A status edit Graph made: whose, and what it replaced. */
  datatype Landing = Landing(plan: nat, replaced: string)

  datatype World = World(status: string, etag: nat, plans: seq<Plan>, landings: seq<Landing>)

  datatype Event =
    | Planned(task: Outbox.Task, change: Change, before: Option<string>)
    | Outside(status: string)
    | Touched
    | Get(plan: nat)
    | Patch(plan: nat)
    | Reread(plan: nat)
    | Answered(plan: nat)
    | Resent(plan: nat)
    | Interrupted(plan: nat)
    | SendFlag(plan: nat)

  // ----- One step -----

  predicate CanPlan(task: Outbox.Task, change: Change)
  {
    PlanFor(task, change).Some? && PlanFor(task, change).value.status.Some?
  }

  /** The operations of an assignment, its status edit the second. */
  function OpsFor(task: Outbox.Task, change: Change): seq<Outbox.NewOp>
    requires CanPlan(task, change)
  {
    PlanOps("", 0, "", PlanFor(task, change).value, Outbox.Edit)
  }

  /** What a queued status edit says: the status it sets, and by its guard the one it may replace. */
  function EditOf(op: Outbox.NewOp): StatusEdit
  {
    StatusEdit(StatusIn(op.body), if op.expected.Some? then StatusIn(op.expected.value) else "")
  }

  function StatusIn(fields: Entity): string
  {
    match Entities.Get(fields, STATUS)
    case Text(status) => status
    case _ => ""
  }

  /** A status edit is queued with its guard, and with a flag after it or not. */
  function Asked(task: Outbox.Task, change: Change, before: Option<string>): Guarded
    requires CanPlan(task, change)
  {
    var ops := OpsFor(task, change);
    Guarded(EditOf(ops[1]), before, |ops| == 3)
  }

  /** It may replace only the status the task was read with, and the flag goes with a status newly made ms-todo's. */
  lemma AskedIs(task: Outbox.Task, change: Change, before: Option<string>)
    requires CanPlan(task, change)
    ensures var g := Asked(task, change, before);
            && g.edit.plannedFrom == StatusOf(task) && g.before == before
            && g.edit.target == (if change.Assign? then WAITING else NOT_STARTED)
            && (g.setsFlag <==> change.Assign? && !FlagSet(task))
  {
  }

  predicate Enabled(w: World, e: Event)
  {
    match e
    case Planned(task, change, _) => CanPlan(task, change)
    case Outside(_) => true
    case Touched => true
    case Get(k) => k < |w.plans| && w.plans[k].phase.Queued?
    case Patch(k) => k < |w.plans| && w.plans[k].phase.Read?
    case Reread(k) => k < |w.plans| && w.plans[k].phase.Refused?
    case Answered(k) => k < |w.plans| && w.plans[k].phase.Landed?
    case Resent(k) => k < |w.plans| && w.plans[k].phase.Landed?
    case Interrupted(k) =>
      k < |w.plans| && (w.plans[k].phase.Read? || w.plans[k].phase.Refused? || w.plans[k].phase.Landed?)
    case SendFlag(k) =>
      && k < |w.plans| && w.plans[k].guarded.setsFlag && w.plans[k].flag.FlagQueued?
      && (w.plans[k].phase.Done? || w.plans[k].phase.Skipped? || w.plans[k].phase.Failed?)
  }

  function Move(w: World, k: nat, phase: Phase): World
    requires k < |w.plans|
  {
    w.(plans := w.plans[k := w.plans[k].(phase := phase)])
  }

  /** After a refused etag: skipped if another device did the same, rejected if the status moved since it was queued. */
  function AfterReread(g: Guarded, status: string, etag: nat): Phase
  {
    if status == g.edit.target then Skipped
    else if Some(status) != g.before then Failed
    else Read(status, etag, true)
  }

  /** The flag follows an edit that was made; it fails with one that failed. */
  function AfterFlag(phase: Phase): FlagPhase
  {
    match phase
    case Done => FlagWritten
    case Skipped => FlagSkipped
    case _ => FlagFailed
  }

  function Next(w: World, e: Event): World
    requires Enabled(w, e)
  {
    match e
    case Planned(task, change, before) =>
      w.(plans := w.plans + [Plan(Asked(task, change, before), Queued, FlagQueued)])
    case Outside(status) => w.(status := status, etag := w.etag + 1)
    case Touched => w.(etag := w.etag + 1)
    case Get(k) =>
      Move(w, k, if w.status != w.plans[k].guarded.edit.plannedFrom then Skipped else Read(w.status, w.etag, false))
    case Patch(k) =>
      var p := w.plans[k];
      if w.etag == p.phase.etag then
        Move(w, k, Landed(p.phase.again))
        .(status := p.guarded.edit.target, etag := w.etag + 1, landings := w.landings + [Landing(k, w.status)])
      else
        Move(w, k, if p.phase.again then Failed else Refused)
    case Reread(k) => Move(w, k, AfterReread(w.plans[k].guarded, w.status, w.etag))
    case Answered(k) => Move(w, k, Done)
    // The answer was lost and the same PATCH goes again, its etag now stale.
    case Resent(k) => Move(w, k, if w.plans[k].phase.again then Failed else Refused)
    case Interrupted(k) => Move(w, k, Queued)
    case SendFlag(k) =>
      var flag := AfterFlag(w.plans[k].phase);
      w.(plans := w.plans[k := w.plans[k].(flag := flag)], etag := if flag.FlagWritten? then w.etag + 1 else w.etag)
  }

  ghost predicate ValidRun(w: World, run: seq<Event>)
    decreases |run|
  {
    run != [] ==> Enabled(w, run[0]) && ValidRun(Next(w, run[0]), run[1..])
  }

  ghost function Final(w: World, run: seq<Event>): World
    requires ValidRun(w, run)
    decreases |run|
  {
    if run == [] then w else Final(Next(w, run[0]), run[1..])
  }

  ghost function Start(status: string): World
  {
    World(status, 0, [], [])
  }

  // ----- What every step keeps -----

  /**
   When it was queued, the cached task had the status the edit was planned
   from, or had already the one it sets.
   */
  predicate Consistent(g: Guarded)
  {
    g.before.Some? ==> g.before.value in {g.edit.plannedFrom, g.edit.target}
  }

  ghost predicate HasLanded(w: World, k: nat)
  {
    exists i :: 0 <= i < |w.landings| && w.landings[i].plan == k
  }

  /** What holds of each plan whatever was queued: its edit is a sound one, and its flag means it landed. */
  ghost predicate Honest(w: World, k: nat)
    requires k < |w.plans|
  {
    var p := w.plans[k];
    && p.guarded.edit.plannedFrom != COMPLETED_STATUS && p.guarded.edit.target != COMPLETED_STATUS
    && (p.guarded.setsFlag ==> p.guarded.edit.target == WAITING)
    && (p.phase.Landed? || p.phase.Done? ==> HasLanded(w, k))
    && (p.flag.FlagWritten? ==> p.guarded.setsFlag && HasLanded(w, k))
    && (p.phase.Read? ==> p.phase.etag <= w.etag && (p.phase.etag == w.etag ==> p.phase.status == w.status))
  }

  /** A consistent edit's PATCH on its way was read from a task with the planned status. */
  ghost predicate Aimed(p: Plan)
  {
    Consistent(p.guarded) && p.phase.Read? ==> p.phase.status == p.guarded.edit.plannedFrom
  }

  /** A consistent edit replaced only the status it was planned from. */
  ghost predicate LandsWell(w: World, i: nat)
    requires i < |w.landings|
  {
    && w.landings[i].plan < |w.plans|
    && var g := w.plans[w.landings[i].plan].guarded;
       Consistent(g) ==> w.landings[i].replaced == g.edit.plannedFrom
  }

  ghost predicate Safe(w: World)
  {
    && (forall k :: 0 <= k < |w.plans| ==> Honest(w, k) && Aimed(w.plans[k]))
    && (forall i :: 0 <= i < |w.landings| ==> LandsWell(w, i))
  }

  lemma LandedStays(w: World, v: World, k: nat)
    requires HasLanded(w, k) && w.landings <= v.landings
    ensures HasLanded(v, k)
  {
    var i :| 0 <= i < |w.landings| && w.landings[i].plan == k;
    assert v.landings[i] == w.landings[i];
  }

  /** A step changes at most the one plan it names. */
  lemma OthersHonest(w: World, e: Event, k: nat)
    requires Safe(w) && Enabled(w, e) && k < |w.plans|
    requires Next(w, e).plans[k] == w.plans[k]
    ensures Honest(Next(w, e), k)
  {
    if HasLanded(w, k) {
      LandedStays(w, Next(w, e), k);
    }
  }

  lemma PlannedHonest(w: World, e: Event)
    requires Safe(w) && Enabled(w, e) && e.Planned?
    ensures Honest(Next(w, e), |w.plans|)
  {
    PlansAreSound(e.task, e.change);
    AskedIs(e.task, e.change, e.before);
  }

  lemma NamedHonest(w: World, e: Event)
    requires Safe(w) && Enabled(w, e) && !e.Planned? && !e.Outside? && !e.Touched?
    ensures Honest(Next(w, e), e.plan)
  {
    var v := Next(w, e);
    assert Honest(w, e.plan);
    if e.Patch? && w.etag == w.plans[e.plan].phase.etag {
      assert v.landings[|w.landings|] == Landing(e.plan, w.status);
    } else if HasLanded(w, e.plan) {
      LandedStays(w, v, e.plan);
    }
  }

  lemma StepHonest(w: World, e: Event, k: nat)
    requires Safe(w) && Enabled(w, e) && k < |Next(w, e).plans|
    ensures Honest(Next(w, e), k)
  {
    if e.Planned? && k == |w.plans| {
      PlannedHonest(w, e);
    } else if !e.Planned? && !e.Outside? && !e.Touched? && k == e.plan {
      NamedHonest(w, e);
    } else {
      OthersHonest(w, e, k);
    }
  }

  lemma StepAimed(w: World, e: Event, k: nat)
    requires Safe(w) && Enabled(w, e) && k < |Next(w, e).plans|
    ensures Aimed(Next(w, e).plans[k])
  {
    if k < |w.plans| {
      assert Aimed(w.plans[k]);
    }
  }

  lemma StepLands(w: World, e: Event, i: nat)
    requires Safe(w) && Enabled(w, e) && i < |Next(w, e).landings|
    ensures LandsWell(Next(w, e), i)
  {
    var v := Next(w, e);
    if i < |w.landings| {
      assert LandsWell(w, i) && v.landings[i] == w.landings[i];
      assert v.plans[w.landings[i].plan].guarded == w.plans[w.landings[i].plan].guarded;
    } else {
      assert Honest(w, e.plan) && Aimed(w.plans[e.plan]);
    }
  }

  lemma StepSafe(w: World, e: Event)
    requires Safe(w) && Enabled(w, e)
    ensures Safe(Next(w, e))
  {
    var v := Next(w, e);
    forall k | 0 <= k < |v.plans| ensures Honest(v, k) && Aimed(v.plans[k]) {
      StepHonest(w, e, k);
      StepAimed(w, e, k);
    }
    forall i | 0 <= i < |v.landings| ensures LandsWell(v, i) {
      StepLands(w, e, i);
    }
  }

  // ----- Theorems over every interleaving -----

  lemma {:induction false} RunSafe(w: World, run: seq<Event>)
    requires Safe(w) && ValidRun(w, run)
    ensures Safe(Final(w, run))
    decreases |run|
  {
    if run != [] {
      StepSafe(w, run[0]);
      RunSafe(Next(w, run[0]), run[1..]);
    }
  }

  /**
   In every interleaving of assignments and clears with other devices'
   writes, lost answers, crashes and resends: `assigneeStatusSet` is written
   only for a plan whose own status edit Graph made.
   */
  lemma FlagOnlyAfterItsEdit(status: string, run: seq<Event>, k: nat)
    requires ValidRun(Start(status), run) && k < |Final(Start(status), run).plans|
    ensures var w := Final(Start(status), run);
            w.plans[k].flag.FlagWritten? ==> HasLanded(w, k) && w.plans[k].guarded.edit.target == WAITING
  {
    RunSafe(Start(status), run);
    assert Honest(Final(Start(status), run), k);
  }

  /**
   In every interleaving, an edit queued on the status it was planned from
   only ever replaces that status: never `completed`, and never one written
   after planning that differs.
   */
  lemma ReplacesOnlyThePlannedStatus(status: string, run: seq<Event>, i: nat)
    requires ValidRun(Start(status), run) && i < |Final(Start(status), run).landings|
    ensures var w := Final(Start(status), run);
            && w.landings[i].plan < |w.plans|
            && var g := w.plans[w.landings[i].plan].guarded;
               Consistent(g) ==> w.landings[i].replaced == g.edit.plannedFrom && w.landings[i].replaced != COMPLETED_STATUS
  {
    var w := Final(Start(status), run);
    RunSafe(Start(status), run);
    assert LandsWell(w, i) && Honest(w, w.landings[i].plan);
  }

  /** No other device writes the status in `run`. */
  ghost predicate NoOutside(run: seq<Event>)
  {
    forall i :: 0 <= i < |run| ==> !run[i].Outside?
  }

  ghost predicate AllConsistent(w: World)
  {
    forall k :: 0 <= k < |w.plans| ==> Consistent(w.plans[k].guarded)
  }

  /** A run takes no plan away, nor changes what it set out to do. */
  lemma {:induction false} PlansStay(w: World, run: seq<Event>)
    requires ValidRun(w, run)
    ensures |w.plans| <= |Final(w, run).plans|
    ensures forall k :: 0 <= k < |w.plans| ==> Final(w, run).plans[k].guarded == w.plans[k].guarded
    decreases |run|
  {
    if run != [] {
      PlansStay(Next(w, run[0]), run[1..]);
    }
  }

  /** Only a landing or another device changes the status. */
  lemma CompletedStep(w: World, e: Event)
    requires Safe(w) && AllConsistent(w) && Enabled(w, e) && w.status == COMPLETED_STATUS && !e.Outside?
    ensures Next(w, e).status == COMPLETED_STATUS
  {
    if e.Patch? {
      assert Honest(w, e.plan) && Aimed(w.plans[e.plan]);
    }
  }

  /** A task someone completed stays completed, whatever assignments are still on their way. */
  lemma {:induction false} CompletedStays(w: World, run: seq<Event>)
    requires Safe(w) && ValidRun(w, run) && NoOutside(run) && AllConsistent(Final(w, run))
    requires w.status == COMPLETED_STATUS
    ensures Final(w, run).status == COMPLETED_STATUS
    decreases |run|
  {
    if run != [] {
      PlansStay(w, run);
      StepSafe(w, run[0]);
      CompletedStep(w, run[0]);
      CompletedStays(Next(w, run[0]), run[1..]);
    }
  }

  // ----- The condition is exact -----

  /** Another device writes the queued status between the read and the PATCH, and the re-send goes over it. */
  ghost function OverwritingRun(task: Outbox.Task, change: Change, before: string): seq<Event>
  {
    [Planned(task, change, Some(before)), Get(0), Outside(before), Patch(0), Reread(0), Patch(0)]
  }

  lemma OverwritingStages(g: Guarded, before: string)
    requires g.before == Some(before) && before != g.edit.plannedFrom && before != g.edit.target
    ensures var w := World(g.edit.plannedFrom, 0, [Plan(g, Queued, FlagQueued)], []);
            var run := [Get(0), Outside(before), Patch(0), Reread(0), Patch(0)];
            && ValidRun(w, run)
            && Final(w, run) == World(g.edit.target, 2, [Plan(g, Landed(true), FlagQueued)], [Landing(0, before)])
  {
    var w0 := World(g.edit.plannedFrom, 0, [Plan(g, Queued, FlagQueued)], []);
    var w1 := World(g.edit.plannedFrom, 0, [Plan(g, Read(g.edit.plannedFrom, 0, false), FlagQueued)], []);
    var w2 := w1.(status := before, etag := 1);
    var w3 := World(before, 1, [Plan(g, Refused, FlagQueued)], []);
    var w4 := World(before, 1, [Plan(g, Read(before, 1, true), FlagQueued)], []);
    var w5 := World(g.edit.target, 2, [Plan(g, Landed(true), FlagQueued)], [Landing(0, before)]);
    assert Next(w0, Get(0)) == w1;
    assert Next(w1, Outside(before)) == w2;
    assert Next(w2, Patch(0)) == w3;
    assert Next(w3, Reread(0)) == w4;
    assert Next(w4, Patch(0)) == w5;
    OneStep(w4, Patch(0), []);
    OneStep(w3, Reread(0), [Patch(0)]);
    OneStep(w2, Patch(0), [Reread(0), Patch(0)]);
    OneStep(w1, Outside(before), [Patch(0), Reread(0), Patch(0)]);
    OneStep(w0, Get(0), [Outside(before), Patch(0), Reread(0), Patch(0)]);
  }

  lemma OneStep(w: World, e: Event, rest: seq<Event>)
    requires Enabled(w, e) && ValidRun(Next(w, e), rest)
    ensures ValidRun(w, [e] + rest) && Final(w, [e] + rest) == Final(Next(w, e), rest)
  {
    assert ([e] + rest)[1..] == rest;
  }

  /** In `run`, an edit that set out as `g` went over `replaced`. */
  ghost predicate WentOver(status: string, run: seq<Event>, i: nat, g: Guarded, replaced: string)
  {
    && ValidRun(Start(status), run)
    && var w := Final(Start(status), run);
       && i < |w.landings| && w.landings[i].replaced == replaced
       && w.landings[i].plan < |w.plans| && w.plans[w.landings[i].plan].guarded == g
  }

  lemma OverwritingRunGoesOver(task: Outbox.Task, change: Change, before: string)
    requires CanPlan(task, change) && !Consistent(Asked(task, change, Some(before)))
    ensures var g := Asked(task, change, Some(before));
            WentOver(g.edit.plannedFrom, OverwritingRun(task, change, before), 0, g, before)
  {
    var g := Asked(task, change, Some(before));
    var e := Planned(task, change, Some(before));
    var rest := [Get(0), Outside(before), Patch(0), Reread(0), Patch(0)];
    OverwritingStages(g, before);
    assert Next(Start(g.edit.plannedFrom), e) == World(g.edit.plannedFrom, 0, [Plan(g, Queued, FlagQueued)], []);
    OneStep(Start(g.edit.plannedFrom), e, rest);
    assert OverwritingRun(task, change, before) == [e] + rest;
  }

  /**
   Whatever the task and the change: in no run does the edit go over a status
   it was not planned from, exactly when the cached status at queueing was
   the one it was planned from or the one it sets.
   */
  lemma SafeExactlyWhenConsistent(task: Outbox.Task, change: Change, before: Option<string>)
    requires CanPlan(task, change)
    ensures var g := Asked(task, change, before);
            Consistent(g) <==>
              forall status, run, i, replaced :: WentOver(status, run, i, g, replaced) ==> replaced == g.edit.plannedFrom
  {
    var g := Asked(task, change, before);
    if Consistent(g) {
      forall status, run, i, replaced | WentOver(status, run, i, g, replaced)
        ensures replaced == g.edit.plannedFrom
      {
        ReplacesOnlyThePlannedStatus(status, run, i);
      }
    } else {
      OverwritingRunGoesOver(task, change, before.value);
    }
  }

  /** In particular, an edit queued on a task completed meanwhile can take it out of `completed`. */
  lemma CompletedCanBeOverwritten(task: Outbox.Task, change: Change)
    requires CanPlan(task, change)
    ensures var g := Asked(task, change, Some(COMPLETED_STATUS));
            WentOver(g.edit.plannedFrom, OverwritingRun(task, change, COMPLETED_STATUS), 0, g, COMPLETED_STATUS)
  {
    PlansAreSound(task, change);
    OverwritingRunGoesOver(task, change, COMPLETED_STATUS);
  }

  // ----- What becomes of an edit and its flag -----

  /** A flag that was dealt with was written exactly if its edit was made, and went the way of one that wasn't. */
  ghost predicate FlagFits(p: Plan)
  {
    p.flag.FlagQueued? ||
    (p.guarded.setsFlag && match p.flag
                           case FlagWritten => p.phase.Done?
                           case FlagSkipped => p.phase.Skipped?
                           case _ => p.phase.Failed?)
  }

  ghost predicate AllFit(w: World)
  {
    forall k :: 0 <= k < |w.plans| ==> FlagFits(w.plans[k])
  }

  lemma StepFits(w: World, e: Event)
    requires AllFit(w) && Enabled(w, e)
    ensures AllFit(Next(w, e))
  {
    var v := Next(w, e);
    forall k | 0 <= k < |v.plans| ensures FlagFits(v.plans[k]) {
      if k < |w.plans| {
        assert FlagFits(w.plans[k]);
      }
    }
  }

  lemma {:induction false} RunFits(w: World, run: seq<Event>)
    requires AllFit(w) && ValidRun(w, run)
    ensures AllFit(Final(w, run))
    decreases |run|
  {
    if run != [] {
      StepFits(w, run[0]);
      RunFits(Next(w, run[0]), run[1..]);
    }
  }

  /** In every interleaving, a flag is written exactly if its edit is done, skipped with it and failed with it. */
  lemma FlagGoesWithItsEdit(status: string, run: seq<Event>, k: nat)
    requires ValidRun(Start(status), run) && k < |Final(Start(status), run).plans|
    ensures FlagFits(Final(Start(status), run).plans[k])
  {
    RunFits(Start(status), run);
  }

  /** The world with one plan, nothing landed. */
  ghost function One(g: Guarded, status: string, etag: nat, phase: Phase): World
  {
    World(status, etag, [Plan(g, phase, FlagQueued)], [])
  }

  /** With no other device in between, an edit is made: the status is the one it sets. */
  lemma AloneItLands(task: Outbox.Task, change: Change, before: Option<string>)
    requires CanPlan(task, change)
    ensures var g, run := Asked(task, change, before), [Planned(task, change, before), Get(0), Patch(0), Answered(0)];
            && ValidRun(Start(g.edit.plannedFrom), run)
            && Final(Start(g.edit.plannedFrom), run)
               == World(g.edit.target, 1, [Plan(g, Done, FlagQueued)], [Landing(0, g.edit.plannedFrom)])
  {
    var g := Asked(task, change, before);
    var from := g.edit.plannedFrom;
    var w1, w2 := One(g, from, 0, Queued), One(g, from, 0, Read(from, 0, false));
    var w3 := World(g.edit.target, 1, [Plan(g, Landed(false), FlagQueued)], [Landing(0, from)]);
    var w4 := w3.(plans := [Plan(g, Done, FlagQueued)]);
    assert Next(Start(from), Planned(task, change, before)) == w1;
    assert Next(w1, Get(0)) == w2;
    assert Next(w2, Patch(0)) == w3;
    assert Next(w3, Answered(0)) == w4;
    OneStep(w3, Answered(0), []);
    OneStep(w2, Patch(0), [Answered(0)]);
    OneStep(w1, Get(0), [Patch(0), Answered(0)]);
    OneStep(Start(from), Planned(task, change, before), [Get(0), Patch(0), Answered(0)]);
  }

  /** One that finds another status than it was planned from is skipped. */
  lemma MovedBeforeIsSkipped(task: Outbox.Task, change: Change, before: Option<string>, status: string)
    requires CanPlan(task, change) && status != StatusOf(task)
    ensures var g, run := Asked(task, change, before), [Planned(task, change, before), Get(0)];
            ValidRun(Start(status), run) && Final(Start(status), run) == One(g, status, 0, Skipped)
  {
    AskedIs(task, change, before);
    var g := Asked(task, change, before);
    assert Next(Start(status), Planned(task, change, before)) == One(g, status, 0, Queued);
    assert Next(One(g, status, 0, Queued), Get(0)) == One(g, status, 0, Skipped);
    OneStep(One(g, status, 0, Queued), Get(0), []);
    OneStep(Start(status), Planned(task, change, before), [Get(0)]);
  }

  /**
   Another device writes `status` between the read and the PATCH: the edit is
   skipped if that is what it sets, goes again if that is what it was queued
   over, and fails otherwise; nothing is written till then.
   */
  lemma MovedBetweenDecides(task: Outbox.Task, change: Change, before: Option<string>, status: string)
    requires CanPlan(task, change)
    ensures var g := Asked(task, change, before);
            var run := [Planned(task, change, before), Get(0), Outside(status), Patch(0), Reread(0)];
            && ValidRun(Start(g.edit.plannedFrom), run)
            && Final(Start(g.edit.plannedFrom), run)
               == One(g, status, 1, if status == g.edit.target then Skipped
                                    else if before == Some(status) then Read(status, 1, true)
                                    else Failed)
  {
    var g := Asked(task, change, before);
    var from := g.edit.plannedFrom;
    var w1, w2 := One(g, from, 0, Queued), One(g, from, 0, Read(from, 0, false));
    var w3, w4 := w2.(status := status, etag := 1), One(g, status, 1, Refused);
    var w5 := One(g, status, 1, if status == g.edit.target then Skipped
                                else if before == Some(status) then Read(status, 1, true) else Failed);
    assert Next(Start(from), Planned(task, change, before)) == w1;
    assert Next(w1, Get(0)) == w2;
    assert Next(w2, Outside(status)) == w3;
    assert Next(w3, Patch(0)) == w4;
    assert Next(w4, Reread(0)) == w5;
    OneStep(w4, Reread(0), []);
    OneStep(w3, Patch(0), [Reread(0)]);
    OneStep(w2, Outside(status), [Patch(0), Reread(0)]);
    OneStep(w1, Get(0), [Outside(status), Patch(0), Reread(0)]);
    OneStep(Start(from), Planned(task, change, before), [Get(0), Outside(status), Patch(0), Reread(0)]);
  }
}
