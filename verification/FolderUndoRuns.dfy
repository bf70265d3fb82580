/**
 Runs of folder commands and undos: when the lists of each folder keep one
 number for it, and why commands undone in order bring every list back.
 */
module FolderUndoRuns {
  import opened Entities
  import opened Sequences
  import opened OpIds
  import opened Folders
  import opened FolderOrdering
  import opened FolderRuns
  import opened ListUndo
  import opened FolderUndo
  import opened CommandLog
  import Outbox

  type Entry = CommandLog.Command<seq<Op>>

  datatype State = State(lists: Lists, log: seq<Entry>)

  ghost function Queued(plan: seq<Change>, lists: Lists, id: string): (r: seq<Op>)
    requires forall k :: 0 <= k < |plan| ==> plan[k].list < |lists|
    ensures |r| == |plan|
  {
    seq(|plan|, k requires 0 <= k < |plan| => Op(OpIdFor(id, k), plan[k], lists[plan[k].list], Outbox.Pending))
  }

  ghost predicate InRange(plan: seq<Change>, lists: Lists)
  {
    forall k :: 0 <= k < |plan| ==> plan[k].list < |lists|
  }

  /** Changes to lists there are are made and logged; no changes leave no trace. */
  ghost function Make(s: State, plan: seq<Change>, id: string, undoes: Option<nat>): State
  {
    if plan != [] && InRange(plan, s.lists) then
      State(Apply(s.lists, plan), s.log + [Command(id, undoes, false, Queued(plan, s.lists, id))])
    else s
  }

  ghost function UndoAt(s: State, target: nat, id: string): Result<State, ListUndo.Error>
    requires target < |s.log|
  {
    if WasUndone(s.log, target) then Err(NothingToUndo)
    else
      match UndoPlan(s.log[target].ops, s.lists, {}, id)
      case Ok(inverse) => Ok(Make(s, Changes(inverse), id, Some(target)))
      case Err(e) => Err(e)
  }

  /** A folder command, or an undo of the command at `target`, or of the last one that can be. */
  datatype Act = Do(command: FolderRuns.Command, id: string) | Undo(id: string, target: Option<nat>)

  ghost function Picked(s: State, act: Act): Option<nat>
    requires act.Undo?
  {
    if act.target.Some? then act.target else LastUndoable(s.log, |s.log|)
  }

  ghost predicate Enabled(s: State, act: Act)
  {
    match act
    case Do(command, _) => OnCached(s.lists, command)
    case Undo(_, _) => Picked(s, act).Some? ==> Picked(s, act).value < |s.log|
  }

  ghost function ActNext(s: State, act: Act, lower: string -> string): State
    requires Enabled(s, act)
  {
    match act
    case Do(command, id) =>
      (match PlanOf(s.lists, command, lower)
       case Ok(plan) => Make(s, plan, id, None)
       case Err(_) => s)
    case Undo(id, _) =>
      match Picked(s, act)
      case None => s
      case Some(target) => match UndoAt(s, target, id) case Ok(undone) => undone case Err(_) => s
  }

  ghost predicate ValidRun(s: State, acts: seq<Act>, lower: string -> string)
    decreases |acts|
  {
    acts != [] ==> Enabled(s, acts[0]) && ValidRun(ActNext(s, acts[0], lower), acts[1..], lower)
  }

  ghost function Final(s: State, acts: seq<Act>, lower: string -> string): State
    requires ValidRun(s, acts, lower)
    decreases |acts|
  {
    if acts == [] then s else Final(ActNext(s, acts[0], lower), acts[1..], lower)
  }

  // ----- Undos of any command -----

  ghost predicate Good(s: State)
  {
    && |s.lists| <= MAX && Common(s.lists)
    && forall k :: 0 <= k < |s.log| ==> Plain(s.log[k].ops, s.lists) && Uniform(s.log[k].ops)
  }

  lemma MadeIsGood(s: State, plan: seq<Change>, kind: Kind, id: string, undoes: Option<nat>)
    requires Good(s) && UniformPlan(plan, kind, s.lists) && Common(Apply(s.lists, plan))
    ensures Good(Make(s, plan, id, undoes)) && |Make(s, plan, id, undoes).lists| == |s.lists|
  {
    if plan != [] {
      var v, ops := Make(s, plan, id, undoes), Queued(plan, s.lists, id);
      assert QueuedOn(ops, plan, s.lists);
      QueuedIsUniform(ops, plan, kind, s.lists);
      forall k | 0 <= k < |v.log| ensures Plain(v.log[k].ops, v.lists) && Uniform(v.log[k].ops) {
        if k < |s.log| {
          assert v.log[k] == s.log[k] && Plain(s.log[k].ops, s.lists);
        }
      }
    }
  }

  lemma DoStepGood(s: State, command: FolderRuns.Command, id: string, lower: string -> string)
    requires Good(s) && OnCached(s.lists, command) && PlanOf(s.lists, command, lower).Ok?
    ensures var v := Make(s, PlanOf(s.lists, command, lower).value, id, None); Good(v) && |v.lists| == |s.lists|
  {
    var plan := PlanOf(s.lists, command, lower).value;
    CommandIsUniform(s.lists, command, lower, plan);
    StepKeepsCommon(s.lists, command, lower);
    MadeIsGood(s, plan, CommandKind(command), id, None);
  }

  /** An undo that goes ahead only where what it recorded fits what the lists carry now. */
  ghost predicate InPlace(s: State, act: Act)
    requires Enabled(s, act)
  {
    act.Undo? && Picked(s, act).Some? && UndoAt(s, Picked(s, act).value, act.id).Ok? ==>
      var ops := s.log[Picked(s, act).value].ops;
      ops != [] && Plain(ops, s.lists) && Fits(ops, s.lists)
  }

  /** One undo keeps everything, exactly when it is in place. */
  lemma UndoStepGood(s: State, target: nat, id: string)
    requires Good(s) && target < |s.log| && UndoAt(s, target, id).Ok?
    ensures Good(UndoAt(s, target, id).value) <==> Fits(s.log[target].ops, s.lists)
    ensures |UndoAt(s, target, id).value.lists| == |s.lists|
  {
    var ops := s.log[target].ops;
    UndoKeepsCommonExactly(ops, s.lists, id);
    var back := Changes(UndoPlan(ops, s.lists, {}, id).value);
    UndoIsUniform(ops, s.lists, id, back);
    if Fits(ops, s.lists) {
      MadeIsGood(s, back, KindOf(ops), id, Some(target));
    }
  }

  ghost predicate AllInPlace(s: State, acts: seq<Act>, lower: string -> string)
    requires ValidRun(s, acts, lower)
    decreases |acts|
  {
    acts != [] ==> InPlace(s, acts[0]) && AllInPlace(ActNext(s, acts[0], lower), acts[1..], lower)
  }

  lemma {:induction false} RunIsGood(s: State, acts: seq<Act>, lower: string -> string)
    requires Good(s) && ValidRun(s, acts, lower) && AllInPlace(s, acts, lower)
    ensures Good(Final(s, acts, lower)) && |Final(s, acts, lower).lists| == |s.lists|
    decreases |acts|
  {
    if acts != [] {
      match acts[0] {
        case Do(command, id) =>
          if PlanOf(s.lists, command, lower).Ok? {
            DoStepGood(s, command, id, lower);
          }
        case Undo(id, _) =>
          if Picked(s, acts[0]).Some? && UndoAt(s, Picked(s, acts[0]).value, id).Ok? {
            UndoStepGood(s, Picked(s, acts[0]).value, id);
          }
      }
      RunIsGood(ActNext(s, acts[0], lower), acts[1..], lower);
    }
  }

  /**
   After any run of folder commands and of undos, bare or by name, each of
   which fits by what it recorded and what the lists then carry: the lists of
   each folder carry one number for it, and every list is shown exactly once.
   */
  lemma RunKeeps(lists: Lists, acts: seq<Act>, lower: string -> string)
    requires |lists| <= MAX && Common(lists) && ValidRun(State(lists, []), acts, lower)
    requires AllInPlace(State(lists, []), acts, lower)
    ensures var now := Final(State(lists, []), acts, lower).lists;
            && Common(now) && |now| == |lists| && Distinct(Sorted(now))
            && forall i :: i in Sorted(now) <==> 0 <= i < |lists|
  {
    RunIsGood(State(lists, []), acts, lower);
    SortedIsPermutation(Final(State(lists, []), acts, lower).lists);
  }

  // ----- Undos in order -----

  ghost predicate CleanLists(lists: Lists)
  {
    forall i :: 0 <= i < |lists| ==> Clean(lists[i])
  }

  /** The command `ops` took the lists from `from` to `to`, and recorded it. */
  ghost predicate Leads(ops: seq<Op>, from: Lists, to: Lists)
  {
    CleanLists(from) && exists plan :: QueuedOn(ops, plan, from) && to == Apply(from, plan)
  }

  lemma MadeLeads(s: State, plan: seq<Change>, id: string)
    requires CleanLists(s.lists) && plan != [] && OncePerList(plan) && InRange(plan, s.lists)
    ensures Leads(Queued(plan, s.lists, id), s.lists, Apply(s.lists, plan))
    ensures CleanLists(Apply(s.lists, plan))
  {
    assert QueuedOn(Queued(plan, s.lists, id), plan, s.lists);
    ApplyKeepsClean(s.lists, plan);
  }

  lemma ApplyKeepsClean(lists: Lists, plan: seq<Change>)
    requires CleanLists(lists) && OncePerList(plan)
    ensures CleanLists(Apply(lists, plan))
  {
    forall i | 0 <= i < |lists| ensures Clean(Apply(lists, plan)[i]) {
      if k :| 0 <= k < |plan| && plan[k].list == i {
        EffectIs(plan, |plan|, k, lists[i]);
      } else {
        NoEffect(plan, |plan|, i, lists[i]);
      }
    }
  }

  /** Undone straight after, a command leaves every list exactly as it was. */
  lemma UndoneIsBefore(ops: seq<Op>, plan: seq<Change>, from: Lists, to: Lists, id: string)
    requires CleanLists(from) && QueuedOn(ops, plan, from) && to == Apply(from, plan)
    ensures UndoPlan(ops, to, {}, id).Ok? && Apply(to, Changes(UndoPlan(ops, to, {}, id).value)) == from
  {
    AllHold(ops, plan, from, to, id);
    var back := Changes(UndoPlan(ops, to, {}, id).value);
    BackIsOnce(ops, plan, from, to, id);
    ApplyKeepsClean(from, plan);
    ApplyKeepsClean(to, back);
    var undone := Apply(to, back);
    forall i | 0 <= i < |from| ensures undone[i] == from[i] {
      forall f: Key ensures Get(undone[i], f) == Get(from[i], f) {
        UndoRestoresFields(ops, plan, from, to, {}, id, i, f);
        PlanReads(from, plan, i, f);
      }
      CleanEqual(undone[i], from[i]);
    }
  }

  lemma BackIsOnce(ops: seq<Op>, plan: seq<Change>, from: Lists, to: Lists, id: string)
    requires QueuedOn(ops, plan, from) && |to| == |from| && UndoPlan(ops, to, {}, id).Ok?
    ensures var back := Changes(UndoPlan(ops, to, {}, id).value); back != [] && OncePerList(back) && InRange(back, to)
  {
    InversesAre(ops, to, {}, id, |ops|, UndoPlan(ops, to, {}, id).value);
  }

  lemma AllHold(ops: seq<Op>, plan: seq<Change>, from: Lists, to: Lists, id: string)
    requires QueuedOn(ops, plan, from) && to == Apply(from, plan)
    ensures UndoPlan(ops, to, {}, id).Ok?
  {
    forall k | 0 <= k < |ops| ensures Undoable(ops[k], to, {}) {
      var i, fields := plan[k].list, plan[k].fields;
      forall f | f in fields ensures fields[f] == Get(to[i], f) {
        PlanReads(from, plan, i, f);
      }
      assert FieldsNotHolding(fields, to[i]) == {};
    }
    assert !ops[0].state.Failed?;
    AllOrNothing(ops, to, {}, id);
  }

  /** The undo is a command of the same kind, back from `to` to `from`. */
  lemma UndoIs(s: State, target: nat, from: Lists, id: string) returns (c: Entry)
    requires target < |s.log| && !WasUndone(s.log, target) && Leads(s.log[target].ops, from, s.lists)
    ensures UndoAt(s, target, id) == Ok(State(from, s.log + [c]))
    ensures c.undoes == Some(target) && Leads(c.ops, s.lists, from) && CleanLists(s.lists)
  {
    var ops := s.log[target].ops;
    var plan :| QueuedOn(ops, plan, from) && s.lists == Apply(from, plan);
    UndoneIsBefore(ops, plan, from, s.lists, id);
    BackIsOnce(ops, plan, from, s.lists, id);
    ApplyKeepsClean(from, plan);
    var back := Changes(UndoPlan(ops, s.lists, {}, id).value);
    MadeLeads(s, back, id);
    c := Command(id, Some(target), false, Queued(back, s.lists, id));
  }

  /** `h` holds a copy of the lists from before each command not undone since, then the lists now; all with one number per folder. */
  ghost predicate Behaves(s: State, h: seq<Lists>, live: seq<nat>, base: nat)
  {
    && Refines(Leads, s.lists, s.log, h, live, base)
    && forall k :: 0 <= k < |h| ==> |h[k]| <= MAX && CleanLists(h[k]) && Common(h[k])
  }

  /** The simple form: a command that changes something adds a copy, a bare undo drops the last. */
  ghost function HistoryNext(h: seq<Lists>, act: Act, lower: string -> string): (r: seq<Lists>)
    requires h != []
    ensures r != [] && (act.Do? ==> h <= r)
  {
    match act
    case Do(command, _) =>
      var now := h[|h| - 1];
      if OnCached(now, command) && PlanOf(now, command, lower).Ok? && PlanOf(now, command, lower).value != [] then
        h + [Apply(now, PlanOf(now, command, lower).value)]
      else h
    case Undo(_, _) => if |h| == 1 then h else h[..|h| - 1]
  }

  ghost function FinalHistory(h: seq<Lists>, acts: seq<Act>, lower: string -> string): (r: seq<Lists>)
    requires h != []
    ensures r != []
    decreases |acts|
  {
    if acts == [] then h else FinalHistory(HistoryNext(h, acts[0], lower), acts[1..], lower)
  }

  /** No undo of the run goes back further than the run itself. */
  ghost predicate StaysAbove(h: seq<Lists>, acts: seq<Act>, lower: string -> string)
    requires h != []
    decreases |acts|
  {
    acts != [] ==> (acts[0].Undo? ==> |h| > 1) && StaysAbove(HistoryNext(h, acts[0], lower), acts[1..], lower)
  }

  /** A folder command, or a bare undo. */
  ghost predicate InOrder(act: Act)
  {
    act.Undo? ==> act.target.None?
  }

  lemma DoBehaves(s: State, h: seq<Lists>, live: seq<nat>, base: nat, act: Act, lower: string -> string)
    returns (live': seq<nat>)
    requires Behaves(s, h, live, base) && act.Do? && Enabled(s, act)
    ensures Behaves(ActNext(s, act, lower), HistoryNext(h, act, lower), live', base)
  {
    live' := live;
    if PlanOf(s.lists, act.command, lower).Ok? && PlanOf(s.lists, act.command, lower).value != [] {
      var plan := PlanOf(s.lists, act.command, lower).value;
      CommandIsUniform(s.lists, act.command, lower, plan);
      StepKeepsCommon(s.lists, act.command, lower);
      MadeBehaves(s, h, live, base, plan, act.id);
      live' := live + [|s.log|];
    }
  }

  lemma MadeBehaves(s: State, h: seq<Lists>, live: seq<nat>, base: nat, plan: seq<Change>, id: string)
    requires Behaves(s, h, live, base) && plan != [] && OncePerList(plan) && InRange(plan, s.lists)
    requires Common(Apply(s.lists, plan))
    ensures Behaves(Make(s, plan, id, None), h + [Apply(s.lists, plan)], live + [|s.log|], base)
  {
    MadeLeads(s, plan, id);
    var c := Command(id, None, false, Queued(plan, s.lists, id));
    PushedRefines(Leads, s.lists, s.log, h, live, base, c, Apply(s.lists, plan));
  }

  lemma UndoBehaves(s: State, h: seq<Lists>, live: seq<nat>, base: nat, id: string) returns (undone: State)
    requires Behaves(s, h, live, base) && live != []
    ensures LastUndoable(s.log, |s.log|) == Some(live[|live| - 1]) && live[|live| - 1] < |s.log|
    ensures UndoAt(s, live[|live| - 1], id) == Ok(undone) && undone.lists == h[|h| - 2]
    ensures Behaves(undone, h[..|h| - 1], live[..|live| - 1], base)
  {
    PicksTheLast(Leads, s.lists, s.log, h, live, base);
    var c := UndoIs(s, live[|live| - 1], h[|live| - 1], id);
    undone := State(h[|live| - 1], s.log + [c]);
    PoppedRefines(Leads, s.lists, s.log, h, live, base, c);
  }

  /** Nothing from before the run is left to undo, or the run doesn't try. */
  lemma ActBehaves(s: State, h: seq<Lists>, live: seq<nat>, base: nat, act: Act, lower: string -> string)
    returns (live': seq<nat>)
    requires Behaves(s, h, live, base) && InOrder(act) && Enabled(s, act)
    requires act.Undo? ==> NoneLive(s.log, base) || |h| > 1
    ensures Behaves(ActNext(s, act, lower), HistoryNext(h, act, lower), live', base)
  {
    if act.Do? {
      live' := DoBehaves(s, h, live, base, act, lower);
    } else if live != [] {
      var _ := UndoBehaves(s, h, live, base, act.id);
      live' := live[..|live| - 1];
    } else {
      PicksTheLast(Leads, s.lists, s.log, h, live, base);
      live' := live;
    }
  }

  lemma ActKeepsNoneLive(s: State, act: Act, base: nat, lower: string -> string)
    requires Enabled(s, act) && base <= |s.log| && NoneLive(s.log, base)
    ensures base <= |ActNext(s, act, lower).log| && NoneLive(ActNext(s, act, lower).log, base)
  {
    var v := ActNext(s, act, lower);
    if |v.log| > |s.log| {
      assert v.log == s.log + [v.log[|s.log|]];
      NoneLiveStays(s.log, v.log[|s.log|], base);
    }
  }

  lemma {:induction false} RunBehaves(
    s: State, h: seq<Lists>, live: seq<nat>, base: nat, acts: seq<Act>, lower: string -> string)
    returns (live': seq<nat>)
    requires Behaves(s, h, live, base) && ValidRun(s, acts, lower)
    requires forall i :: 0 <= i < |acts| ==> InOrder(acts[i])
    requires NoneLive(s.log, base) || StaysAbove(h, acts, lower)
    ensures Behaves(Final(s, acts, lower), FinalHistory(h, acts, lower), live', base)
    decreases |acts|
  {
    live' := live;
    if acts != [] {
      if NoneLive(s.log, base) {
        ActKeepsNoneLive(s, acts[0], base, lower);
      }
      live' := ActBehaves(s, h, live, base, acts[0], lower);
      live' := RunBehaves(ActNext(s, acts[0], lower), HistoryNext(h, acts[0], lower), live', base, acts[1..], lower);
    }
  }

  ghost predicate Starts(s: State)
  {
    |s.lists| <= MAX && CleanLists(s.lists) && Common(s.lists) && GoodLog(s.log)
  }

  lemma StartBehaves(s: State)
    requires Starts(s)
    ensures Behaves(s, [s.lists], [], |s.log|)
  {
    StartRefines(Leads, s.lists, s.log);
  }

  /**
   In order there is no condition: after any run of folder commands and bare
   undos, the lists are what a stack of copies would hold, the lists of each
   folder carry one number for it, and while there is a copy to go back to, a
   bare undo succeeds and goes back to it.
   */
  lemma InOrderRunKeeps(s: State, acts: seq<Act>, lower: string -> string, id: string)
    requires Starts(s) && ValidRun(s, acts, lower) && forall i :: 0 <= i < |acts| ==> InOrder(acts[i])
    requires NoneLive(s.log, |s.log|) || StaysAbove([s.lists], acts, lower)
    ensures var v, h := Final(s, acts, lower), FinalHistory([s.lists], acts, lower);
            && v.lists == h[|h| - 1] && Common(v.lists)
            && (|h| > 1 ==>
                  && LastUndoable(v.log, |v.log|).Some? && LastUndoable(v.log, |v.log|).value < |v.log|
                  && UndoAt(v, LastUndoable(v.log, |v.log|).value, id).Ok?
                  && UndoAt(v, LastUndoable(v.log, |v.log|).value, id).value.lists == h[|h| - 2])
  {
    StartBehaves(s);
    var live := RunBehaves(s, [s.lists], [], |s.log|, acts, lower);
    if live != [] {
      var _ := UndoBehaves(Final(s, acts, lower), FinalHistory([s.lists], acts, lower), live, |s.log|, id);
    }
  }

  // ----- Last in, first out -----

  lemma {:induction false} HistorySplits(h: seq<Lists>, a: seq<Act>, b: seq<Act>, run: seq<Act>, lower: string -> string)
    requires h != [] && run == a + b
    ensures FinalHistory(h, run, lower) == FinalHistory(FinalHistory(h, a, lower), b, lower)
    ensures (forall i :: 0 <= i < |a| ==> a[i].Do?) ==>
              && h <= FinalHistory(h, a, lower)
              && (StaysAbove(FinalHistory(h, a, lower), b, lower) ==> StaysAbove(h, run, lower))
    decreases |a|
  {
    if a == [] {
      assert run == b;
    } else {
      assert run[0] == a[0] && run[1..] == a[1..] + b;
      HistorySplits(HistoryNext(h, a[0], lower), a[1..], b, run[1..], lower);
    }
  }

  lemma {:induction false} UndosPop(h: seq<Lists>, undos: seq<Act>, lower: string -> string)
    requires |undos| < |h| && forall i :: 0 <= i < |undos| ==> undos[i].Undo?
    ensures FinalHistory(h, undos, lower) == h[..|h| - |undos|] && StaysAbove(h, undos, lower)
    decreases |undos|
  {
    if undos != [] {
      UndosPop(h[..|h| - 1], undos[1..], lower);
    }
  }

  /**
   Whatever the log holds already: after any folder commands, as many bare
   undos as you like, up to the number of those that changed something, bring
   every list back to what it was before the last so many of them. All undone,
   every list is what it was, and so is the display order.
   */
  lemma CommandsUndoneInTurn(
    s: State, dos: seq<Act>, undos: seq<Act>, run: seq<Act>, lower: string -> string, h: seq<Lists>)
    requires Starts(s) && run == dos + undos && ValidRun(s, run, lower)
    requires forall i :: 0 <= i < |dos| ==> dos[i].Do?
    requires forall i :: 0 <= i < |undos| ==> undos[i].Undo? && undos[i].target.None?
    requires h == FinalHistory([s.lists], dos, lower) && |undos| < |h|
    ensures var v := Final(s, run, lower);
            && v.lists == h[|h| - 1 - |undos|] && Common(v.lists)
            && (|undos| == |h| - 1 ==> v.lists == s.lists && Sorted(v.lists) == Sorted(s.lists))
  {
    var left := Popped(s.lists, dos, undos, run, lower, h);
    AllInOrder(dos, undos, run);
    EndsAt(s, run, lower, left);
  }

  /** The copies left once so many are dropped. */
  lemma Popped(lists: Lists, dos: seq<Act>, undos: seq<Act>, run: seq<Act>, lower: string -> string, h: seq<Lists>)
    returns (left: seq<Lists>)
    requires run == dos + undos && (forall i :: 0 <= i < |dos| ==> dos[i].Do?)
    requires forall i :: 0 <= i < |undos| ==> undos[i].Undo?
    requires h == FinalHistory([lists], dos, lower) && |undos| < |h|
    ensures left == FinalHistory([lists], run, lower) && StaysAbove([lists], run, lower)
    ensures |left| == |h| - |undos| && left[|left| - 1] == h[|left| - 1] && h[0] == lists
  {
    HistorySplits([lists], dos, undos, run, lower);
    UndosPop(h, undos, lower);
    left := h[..|h| - |undos|];
    assert [lists] <= h;
  }

  lemma AllInOrder(dos: seq<Act>, undos: seq<Act>, run: seq<Act>)
    requires run == dos + undos && forall i :: 0 <= i < |dos| ==> dos[i].Do?
    requires forall i :: 0 <= i < |undos| ==> undos[i].Undo? && undos[i].target.None?
    ensures forall i :: 0 <= i < |run| ==> InOrder(run[i])
  {
  }

  lemma EndsAt(s: State, run: seq<Act>, lower: string -> string, h: seq<Lists>)
    requires Starts(s) && ValidRun(s, run, lower) && (forall i :: 0 <= i < |run| ==> InOrder(run[i]))
    requires StaysAbove([s.lists], run, lower) && h == FinalHistory([s.lists], run, lower)
    ensures Final(s, run, lower).lists == h[|h| - 1] && Common(h[|h| - 1])
  {
    InOrderRunKeeps(s, run, lower, "");
  }
}
