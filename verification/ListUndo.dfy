/**
 Undoing a folder command: all of it or nothing. One list that moved on, or
 is gone, refuses the whole undo.
 */
module ListUndo {
  import opened Entities
  import opened Sequences
  import opened OpIds
  import opened StableSort
  import opened Folders
  import opened FolderOrdering
  import FolderRuns
  import Outbox

  /** A list's extension write as queued, with the extension before it. */
  datatype Op = Op(id: string, change: Change, before: Entity, state: Outbox.State)

  datatype Inverse = Inverse(id: string, change: Change)

  datatype Error = OutcomeUnknown(op: string) | Gone(list: nat) | ChangedSince(list: nat) | NothingToUndo

  function InverseFields(op: Op): Entity
  {
    map f | f in op.change.fields :: Get(op.before, f)
  }

  function InverseChange(op: Op): Change
  {
    Change(op.change.list, InverseFields(op))
  }

  predicate Cached(list: nat, lists: Lists, gone: set<nat>)
  {
    list < |lists| && list !in gone
  }

  /** The inverses of the first `n`, or the first reason to refuse. */
  function InversesOf(ops: seq<Op>, lists: Lists, gone: set<nat>, command: string, n: nat): Result<seq<Inverse>, Error>
    requires n <= |ops|
  {
    if n == 0 then Ok([])
    else
      var op := ops[n - 1];
      match InversesOf(ops, lists, gone, command, n - 1)
      case Err(e) => Err(e)
      case Ok(rest) =>
        if op.state.Failed? then Ok(rest)
        else if op.state.Unknown? then Err(OutcomeUnknown(op.id))
        else if !Cached(op.change.list, lists, gone) then Err(Gone(op.change.list))
        else if !Holds(op.change.fields, lists[op.change.list]) then Err(ChangedSince(op.change.list))
        else Ok(rest + [Inverse(OpIdFor(command, |rest|), InverseChange(op))])
  }

  function UndoPlan(ops: seq<Op>, lists: Lists, gone: set<nat>, command: string): Result<seq<Inverse>, Error>
  {
    match InversesOf(ops, lists, gone, command, |ops|)
    case Err(e) => Err(e)
    case Ok(inverse) => if inverse == [] then Err(NothingToUndo) else Ok(inverse)
  }

  lemma {:induction false} ErrorStops(ops: seq<Op>, lists: Lists, gone: set<nat>, command: string, m: nat, n: nat)
    requires m <= n <= |ops| && InversesOf(ops, lists, gone, command, m).Err?
    ensures InversesOf(ops, lists, gone, command, n) == InversesOf(ops, lists, gone, command, m)
  {
    if m < n {
      ErrorStops(ops, lists, gone, command, m, n - 1);
    }
  }

  method UndoLists(ops: seq<Op>, lists: Lists, gone: set<nat>, command: string)
    returns (r: Result<seq<Inverse>, Error>)
    ensures r == UndoPlan(ops, lists, gone, command)
  {
    var inverse: seq<Inverse> := [];
    for i := 0 to |ops|
      invariant InversesOf(ops, lists, gone, command, i) == Ok(inverse)
    {
      var op := ops[i];
      if InversesOf(ops, lists, gone, command, i + 1).Err? {
        ErrorStops(ops, lists, gone, command, i + 1, |ops|);
      }
      if op.state.Failed? {
        continue;
      }
      if op.state.Unknown? {
        return Err(OutcomeUnknown(op.id));
      }
      if op.change.list >= |lists| || op.change.list in gone {
        return Err(Gone(op.change.list));
      }
      var moved := FieldsNotHolding(op.change.fields, lists[op.change.list]);
      if moved != {} {
        return Err(ChangedSince(op.change.list));
      }
      inverse := inverse + [Inverse(OpIdFor(command, |inverse|), InverseChange(op))];
    }
    if inverse == [] {
      return Err(NothingToUndo);
    }
    return Ok(inverse);
  }

  // ----- All or nothing -----

  predicate Undoable(op: Op, lists: Lists, gone: set<nat>)
  {
    op.state.Failed? ||
    (!op.state.Unknown? && Cached(op.change.list, lists, gone) && Holds(op.change.fields, lists[op.change.list]))
  }

  /** The undo goes ahead exactly when every write that was made can be taken back, and there is one. */
  lemma {:induction false} AllOrNothing(ops: seq<Op>, lists: Lists, gone: set<nat>, command: string)
    ensures UndoPlan(ops, lists, gone, command).Ok? <==>
            && (forall i :: 0 <= i < |ops| ==> Undoable(ops[i], lists, gone))
            && (exists i :: 0 <= i < |ops| && !ops[i].state.Failed?)
  {
    AllUpTo(ops, lists, gone, command, |ops|);
  }

  lemma {:induction false} AllUpTo(ops: seq<Op>, lists: Lists, gone: set<nat>, command: string, n: nat)
    requires n <= |ops|
    ensures InversesOf(ops, lists, gone, command, n).Ok? <==> forall i :: 0 <= i < n ==> Undoable(ops[i], lists, gone)
    ensures InversesOf(ops, lists, gone, command, n).Ok? ==>
              (InversesOf(ops, lists, gone, command, n).value != [] <==> exists i :: 0 <= i < n && !ops[i].state.Failed?)
  {
    if n > 0 {
      AllUpTo(ops, lists, gone, command, n - 1);
    }
  }

  // ----- What it restores -----

  /** The plan as queued on `lists`, each list once: every write records its list's extension. */
  ghost predicate QueuedOn(ops: seq<Op>, plan: seq<Change>, lists: Lists)
  {
    && |ops| == |plan| && plan != [] && OncePerList(plan)
    && forall k :: 0 <= k < |plan| ==>
         && plan[k].list < |lists| && ops[k].change == plan[k] && ops[k].before == lists[plan[k].list]
         && !ops[k].state.Failed? && !ops[k].state.Unknown?
  }

  function Changes(inverse: seq<Inverse>): (r: seq<Change>)
    ensures |r| == |inverse|
    ensures forall k :: 0 <= k < |r| ==> r[k] == inverse[k].change
  {
    seq(|inverse|, k requires 0 <= k < |inverse| => inverse[k].change)
  }

  function LastAdded(op: Op, rest: seq<Inverse>, command: string): seq<Inverse>
  {
    if op.state.Failed? then rest else rest + [Inverse(OpIdFor(command, |rest|), InverseChange(op))]
  }

  /** What the last write adds. */
  lemma LastInverse(ops: seq<Op>, lists: Lists, gone: set<nat>, command: string, n: nat) returns (rest: seq<Inverse>)
    requires 0 < n <= |ops| && InversesOf(ops, lists, gone, command, n).Ok?
    ensures InversesOf(ops, lists, gone, command, n - 1) == Ok(rest)
    ensures InversesOf(ops, lists, gone, command, n).value == LastAdded(ops[n - 1], rest, command)
  {
    rest := InversesOf(ops, lists, gone, command, n - 1).value;
  }

  ghost predicate Inverted(ops: seq<Op>, n: nat, inverse: seq<Inverse>)
    requires n <= |ops|
  {
    |inverse| == n && forall k :: 0 <= k < n ==> inverse[k].change == InverseChange(ops[k])
  }

  lemma {:induction false} InversesAre(
    ops: seq<Op>, lists: Lists, gone: set<nat>, command: string, n: nat, inverse: seq<Inverse>)
    requires n <= |ops| && InversesOf(ops, lists, gone, command, n) == Ok(inverse)
    requires forall k :: 0 <= k < |ops| ==> !ops[k].state.Failed?
    ensures Inverted(ops, n, inverse)
  {
    if n > 0 {
      var rest := LastInverse(ops, lists, gone, command, n);
      InversesAre(ops, lists, gone, command, n - 1, rest);
      OneMoreInverted(ops, n - 1, rest, inverse);
    }
  }

  lemma OneMoreInverted(ops: seq<Op>, n: nat, rest: seq<Inverse>, inverse: seq<Inverse>)
    requires n < |ops| && Inverted(ops, n, rest)
    requires |inverse| == n + 1 && inverse[..n] == rest && inverse[n].change == InverseChange(ops[n])
    ensures Inverted(ops, n + 1, inverse)
  {
    assert forall k :: 0 <= k < n ==> inverse[k] == inverse[..n][k];
  }

  /** Every field the command wrote is as before it, and every other field as it is now. */
  lemma UndoRestoresFields(
    ops: seq<Op>, plan: seq<Change>, was: Lists, now: Lists, gone: set<nat>, command: string, i: nat, f: Key)
    requires QueuedOn(ops, plan, was) && |now| == |was| && UndoPlan(ops, now, gone, command).Ok? && i < |now|
    ensures var undone := Apply(now, Changes(UndoPlan(ops, now, gone, command).value));
            Get(undone[i], f)
            == if exists k :: 0 <= k < |plan| && plan[k].list == i && f in plan[k].fields then Get(was[i], f)
               else Get(now[i], f)
  {
    InversesAre(ops, now, gone, command, |ops|, UndoPlan(ops, now, gone, command).value);
    var back := Changes(UndoPlan(ops, now, gone, command).value);
    assert forall k :: 0 <= k < |back| ==> back[k] == Change(plan[k].list, InverseFields(ops[k]));
    PlanReads(now, back, i, f);
    if k :| 0 <= k < |plan| && plan[k].list == i && f in plan[k].fields {
      assert back[k].fields[f] == Get(was[i], f);
    }
  }

  ghost predicate SameFolderFields(a: Lists, b: Lists)
  {
    SameField(a, b, FOLDER) && SameField(a, b, ORDER) && SameField(a, b, FOLDER_ORDER)
  }

  lemma {:induction false} SameFlat(a: Lists, b: Lists, names: seq<string>)
    requires SameFolderFields(a, b)
    ensures Flat(a, names) == Flat(b, names)
  {
    if names != [] {
      SameFlat(a, b, names[..|names| - 1]);
      SameSiblings(a, b, Some(names[|names| - 1]));
    }
  }

  lemma SameSorted(a: Lists, b: Lists)
    requires SameFolderFields(a, b)
    ensures Sorted(a) == Sorted(b)
  {
    SameFolderOrder(a, b);
    SameFlat(a, b, FolderOrder(a));
    SameSiblings(a, b, None);
  }

  lemma PlanReads(lists: Lists, plan: seq<Change>, i: nat, f: Key)
    requires OncePerList(plan) && i < |lists|
    ensures forall k :: 0 <= k < |plan| && plan[k].list == i && f in plan[k].fields ==>
              Get(Apply(lists, plan)[i], f) == plan[k].fields[f]
    ensures (forall k :: 0 <= k < |plan| ==> !(plan[k].list == i && f in plan[k].fields)) ==>
              Get(Apply(lists, plan)[i], f) == Get(lists[i], f)
  {
    if k :| 0 <= k < |plan| && plan[k].list == i {
      EffectIs(plan, |plan|, k, lists[i]);
      MergeReads(lists[i], plan[k].fields, f);
    } else {
      NoEffect(plan, |plan|, i, lists[i]);
    }
  }

  /** While no list's folder fields have changed since, the undo goes ahead: all it wrote holds. */
  lemma StillHolds(ops: seq<Op>, plan: seq<Change>, was: Lists, now: Lists, command: string)
    requires QueuedOn(ops, plan, was) && SameFolderFields(Apply(was, plan), now)
    requires forall k :: 0 <= k < |plan| ==> plan[k].fields.Keys <= {FOLDER, ORDER, FOLDER_ORDER}
    ensures UndoPlan(ops, now, {}, command).Ok?
  {
    forall k | 0 <= k < |ops| ensures Undoable(ops[k], now, {}) {
      var i, fields := plan[k].list, plan[k].fields;
      forall f | f in fields ensures fields[f] == Get(now[i], f) {
        PlanReads(was, plan, i, f);
      }
      assert FieldsNotHolding(fields, now[i]) == {};
    }
    assert !ops[0].state.Failed?;
    AllOrNothing(ops, now, {}, command);
  }

  /**
   A folder command, then an undo with no other change to folders in between:
   every list is back in its folder and place, and the whole display order is
   what it was.
   */
  lemma UndoRestoresOrder(ops: seq<Op>, plan: seq<Change>, was: Lists, now: Lists, command: string)
    requires QueuedOn(ops, plan, was) && SameFolderFields(Apply(was, plan), now)
    requires forall k :: 0 <= k < |plan| ==> plan[k].fields.Keys <= {FOLDER, ORDER, FOLDER_ORDER}
    ensures UndoPlan(ops, now, {}, command).Ok?
    ensures var undone := Apply(now, Changes(UndoPlan(ops, now, {}, command).value));
            SameFolderFields(undone, was) && Sorted(undone) == Sorted(was)
  {
    StillHolds(ops, plan, was, now, command);
    var undone := Apply(now, Changes(UndoPlan(ops, now, {}, command).value));
    forall i, f | 0 <= i < |was| && f in {FOLDER, ORDER, FOLDER_ORDER} ensures Get(undone[i], f) == Get(was[i], f) {
      UndoRestoresFields(ops, plan, was, now, {}, command, i, f);
      PlanReads(was, plan, i, f);
    }
    SameSorted(undone, was);
  }

  // ----- Every folder command is one this takes back -----

  ghost predicate FolderPlan(plan: seq<Change>, lists: Lists)
  {
    && OncePerList(plan)
    && forall k :: 0 <= k < |plan| ==> plan[k].list < |lists| && plan[k].fields.Keys <= {FOLDER, ORDER, FOLDER_ORDER}
  }

  lemma RenumberIsPlan(lists: Lists, field: Key, numbers: seq<Ranked>)
    requires Numbering(lists, numbers) && field in {ORDER, FOLDER_ORDER}
    ensures FolderPlan(Renumber(lists, field, numbers, |numbers|), lists)
  {
    var plan := Renumber(lists, field, numbers, |numbers|);
    RenumberShape(lists, field, numbers, |numbers|);
    forall k | 0 <= k < |plan| ensures plan[k].list < |lists| && plan[k].fields.Keys <= {FOLDER, ORDER, FOLDER_ORDER} {
      assert plan[k] in plan;
    }
  }

  lemma EachIsPlan(lists: Lists, targets: seq<nat>, fields: Entity)
    requires Distinct(targets) && (forall k :: 0 <= k < |targets| ==> targets[k] < |lists|)
    requires fields.Keys <= {FOLDER, ORDER, FOLDER_ORDER}
    ensures FolderPlan(Each(targets, fields), lists)
  {
  }

  lemma MoveIsPlan(lists: Lists, targets: seq<nat>, folder: Option<string>, lower: string -> string, plan: seq<Change>)
    requires Distinct(targets) && (forall k :: 0 <= k < |targets| ==> targets[k] < |lists|)
    requires MoveLists(lists, targets, folder, lower) == Ok(plan)
    ensures FolderPlan(plan, lists)
  {
    assert forall k :: 0 <= k < |plan| ==> plan[k].list == targets[k];
  }

  lemma CommandPlans(lists: Lists, c: FolderRuns.Command, lower: string -> string, plan: seq<Change>)
    requires |lists| <= MAX && FolderRuns.OnCached(lists, c) && FolderRuns.PlanOf(lists, c, lower) == Ok(plan)
    ensures FolderPlan(plan, lists)
  {
    match c {
      case MoveTo(targets, into) => MoveIsPlan(lists, targets, into, lower, plan);
      case PutList(list, sibling, before) =>
        var placed := OrderListShape(lists, list, sibling, before, plan);
        RenumberIsPlan(lists, ORDER, Counted(placed));
      case RenameFolder(folder, newName) =>
        var name := Find(FolderOrder(lists), folder, lower).value;
        SiblingsAre(lists, Some(name));
        EachIsPlan(lists, Siblings(lists, Some(name)), map[FOLDER := Text(FolderName(newName).value)]);
      case DeleteFolder(folder) =>
        var name := Find(FolderOrder(lists), folder, lower).value;
        SiblingsAre(lists, Some(name));
        EachIsPlan(lists, Siblings(lists, Some(name)), NO_FOLDER);
      case PutFolder(folder, anchor, before) =>
        var moving, other, placed, numbers := OrderFolderShape(lists, folder, anchor, before, lower, plan);
        RenumberIsPlan(lists, FOLDER_ORDER, numbers);
    }
  }

  /** Any folder command that changed something, undone straight after: the order is what it was. */
  lemma CommandThenUndo(
    lists: Lists, c: FolderRuns.Command, lower: string -> string, plan: seq<Change>, ops: seq<Op>, command: string)
    requires |lists| <= MAX && FolderRuns.OnCached(lists, c) && FolderRuns.PlanOf(lists, c, lower) == Ok(plan)
    requires QueuedOn(ops, plan, lists)
    ensures UndoPlan(ops, Apply(lists, plan), {}, command).Ok?
    ensures var undone := Apply(Apply(lists, plan), Changes(UndoPlan(ops, Apply(lists, plan), {}, command).value));
            SameFolderFields(undone, lists) && Sorted(undone) == Sorted(lists)
  {
    CommandPlans(lists, c, lower, plan);
    UndoRestoresOrder(ops, plan, lists, Apply(lists, plan), command);
  }

  // ----- Which writes are taken back, and what stops it -----

  /** Why `op` stops the undo. */
  ghost predicate Stops(op: Op, lists: Lists, gone: set<nat>, error: Error)
  {
    !op.state.Failed? &&
    if op.state.Unknown? then error == OutcomeUnknown(op.id)
    else if op.change.list >= |lists| || op.change.list in gone then error == Gone(op.change.list)
    else !Holds(op.change.fields, lists[op.change.list]) && error == ChangedSince(op.change.list)
  }

  /** The first write that can't be taken back decides the error. */
  lemma StopsAtTheFirst(ops: seq<Op>, lists: Lists, gone: set<nat>, command: string, i: nat, error: Error)
    requires i < |ops| && Stops(ops[i], lists, gone, error)
    requires forall j :: 0 <= j < i ==> Undoable(ops[j], lists, gone)
    ensures UndoPlan(ops, lists, gone, command) == Err(error)
  {
    AllUpTo(ops, lists, gone, command, i);
    ErrorStops(ops, lists, gone, command, i + 1, |ops|);
  }

  /** `made` are the writes of the first `n` that were made, in order. */
  ghost predicate AreMade(ops: seq<Op>, n: nat, made: seq<nat>)
    requires n <= |ops|
  {
    && (forall k :: 0 <= k < |made| ==> made[k] < n && !ops[made[k]].state.Failed?)
    && (forall j, k :: 0 <= j < k < |made| ==> made[j] < made[k])
    && forall i :: 0 <= i < n && !ops[i].state.Failed? ==> i in made
  }

  /** The same fields of the same list, each with its value before the write. */
  ghost predicate TakesBack(op: Op, change: Change)
  {
    && change.list == op.change.list && change.fields.Keys == op.change.fields.Keys
    && forall f :: f in change.fields ==> change.fields[f] == Get(op.before, f)
  }

  lemma TakesItBack(op: Op)
    ensures TakesBack(op, InverseChange(op))
  {
  }

  /** Each write that was made is taken back, in order, field by field; one that failed isn't. */
  lemma TakesBackWhatWasMade(ops: seq<Op>, lists: Lists, gone: set<nat>, command: string, inverse: seq<Inverse>)
    returns (made: seq<nat>)
    requires UndoPlan(ops, lists, gone, command) == Ok(inverse)
    ensures AreMade(ops, |ops|, made) && |inverse| == |made|
    ensures forall k :: 0 <= k < |made| ==>
              made[k] < |ops| && TakesBack(ops[made[k]], inverse[k].change) && inverse[k].id == OpIdFor(command, k)
  {
    made := InversesOfMade(ops, lists, gone, command, |ops|, inverse);
    IdsInOrder(ops, lists, gone, command, |ops|, inverse);
    forall k | 0 <= k < |made| ensures made[k] < |ops| && TakesBack(ops[made[k]], inverse[k].change) {
      TakesItBack(ops[made[k]]);
    }
  }

  ghost predicate HaveIds(inverse: seq<Inverse>, command: string)
  {
    forall k :: 0 <= k < |inverse| ==> inverse[k].id == OpIdFor(command, k)
  }

  lemma {:induction false} IdsInOrder(
    ops: seq<Op>, lists: Lists, gone: set<nat>, command: string, n: nat, inverse: seq<Inverse>)
    requires n <= |ops| && InversesOf(ops, lists, gone, command, n) == Ok(inverse)
    ensures HaveIds(inverse, command)
  {
    if n > 0 {
      var rest := LastInverse(ops, lists, gone, command, n);
      IdsInOrder(ops, lists, gone, command, n - 1, rest);
      OneMoreId(rest, ops[n - 1], command);
    }
  }

  lemma OneMoreId(rest: seq<Inverse>, op: Op, command: string)
    requires HaveIds(rest, command)
    ensures HaveIds(LastAdded(op, rest, command), command)
  {
  }

  ghost predicate AllInverses(ops: seq<Op>, made: seq<nat>, inverse: seq<Inverse>)
  {
    |inverse| == |made| && forall k :: 0 <= k < |made| ==> made[k] < |ops| && inverse[k].change == InverseChange(ops[made[k]])
  }

  lemma {:induction false} InversesOfMade(
    ops: seq<Op>, lists: Lists, gone: set<nat>, command: string, n: nat, inverse: seq<Inverse>)
    returns (made: seq<nat>)
    requires n <= |ops| && InversesOf(ops, lists, gone, command, n) == Ok(inverse)
    ensures AreMade(ops, n, made) && AllInverses(ops, made, inverse)
  {
    if n == 0 {
      made := [];
    } else {
      var rest := LastInverse(ops, lists, gone, command, n);
      var fewer := InversesOfMade(ops, lists, gone, command, n - 1, rest);
      made := OneMore(ops, n, fewer, rest, OpIdFor(command, |rest|), inverse);
    }
  }

  lemma OneMore(ops: seq<Op>, n: nat, fewer: seq<nat>, rest: seq<Inverse>, id: string, inverse: seq<Inverse>)
    returns (made: seq<nat>)
    requires 0 < n <= |ops| && AreMade(ops, n - 1, fewer) && AllInverses(ops, fewer, rest)
    requires inverse == if ops[n - 1].state.Failed? then rest else rest + [Inverse(id, InverseChange(ops[n - 1]))]
    ensures AreMade(ops, n, made) && AllInverses(ops, made, inverse)
  {
    if ops[n - 1].state.Failed? {
      made := fewer;
      StillMade(ops, n, fewer);
    } else {
      made := fewer + [n - 1];
      OneMoreMade(ops, n, fewer);
      OneMoreInverse(ops, n - 1, fewer, rest, id);
    }
  }

  lemma OneMoreInverse(ops: seq<Op>, i: nat, fewer: seq<nat>, rest: seq<Inverse>, id: string)
    requires i < |ops| && AllInverses(ops, fewer, rest)
    ensures AllInverses(ops, fewer + [i], rest + [Inverse(id, InverseChange(ops[i]))])
  {
  }

  lemma StillMade(ops: seq<Op>, n: nat, fewer: seq<nat>)
    requires 0 < n <= |ops| && AreMade(ops, n - 1, fewer) && ops[n - 1].state.Failed?
    ensures AreMade(ops, n, fewer)
  {
  }

  lemma OneMoreMade(ops: seq<Op>, n: nat, fewer: seq<nat>)
    requires 0 < n <= |ops| && AreMade(ops, n - 1, fewer) && !ops[n - 1].state.Failed?
    ensures AreMade(ops, n, fewer + [n - 1])
  {
    var made := fewer + [n - 1];
    forall i | 0 <= i < n && !ops[i].state.Failed? ensures i in made {
      if i == n - 1 {
        assert made[|fewer|] == i;
      } else {
        assert i in fewer;
      }
    }
  }
}
