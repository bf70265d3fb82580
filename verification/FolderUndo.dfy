/**
 Undoing a folder command after others have come since: exactly when the
 lists of each folder still carry one number for it.
 */
module FolderUndo {
  import opened Entities
  import opened Sequences
  import opened Folders
  import opened FolderOrdering
  import opened FolderRuns
  import opened ListUndo

  // ----- What an undo leaves of each list -----

  /** Writes to different lists there are, none of them rejected. */
  ghost predicate Plain(ops: seq<Op>, lists: Lists)
  {
    && (forall j, k :: 0 <= j < k < |ops| ==> ops[j].change.list != ops[k].change.list)
    && forall k :: 0 <= k < |ops| ==> ops[k].change.list < |lists| && !ops[k].state.Failed?
  }

  ghost predicate Written(ops: seq<Op>, i: nat)
  {
    exists k :: 0 <= k < |ops| && ops[k].change.list == i
  }

  /** The list `op` wrote, as it is now with what `op` wrote set back. */
  ghost function Back(op: Op, lists: Lists): Entity
    requires op.change.list < |lists|
  {
    Merge(lists[op.change.list], InverseFields(op))
  }

  ghost function Undone(ops: seq<Op>, lists: Lists, id: string): (r: Lists)
    requires UndoPlan(ops, lists, {}, id).Ok?
    ensures |r| == |lists|
  {
    Apply(lists, Changes(UndoPlan(ops, lists, {}, id).value))
  }

  lemma BackPlan(ops: seq<Op>, lists: Lists, id: string)
    requires Plain(ops, lists) && UndoPlan(ops, lists, {}, id).Ok?
    ensures var back := Changes(UndoPlan(ops, lists, {}, id).value);
            && |back| == |ops| && OncePerList(back)
            && forall k :: 0 <= k < |ops| ==> back[k] == Change(ops[k].change.list, InverseFields(ops[k]))
  {
    InversesAre(ops, lists, {}, id, |ops|, UndoPlan(ops, lists, {}, id).value);
  }

  lemma UndoneIs(ops: seq<Op>, lists: Lists, id: string, i: nat)
    requires Plain(ops, lists) && UndoPlan(ops, lists, {}, id).Ok? && i < |lists|
    ensures !Written(ops, i) ==> Undone(ops, lists, id)[i] == lists[i]
    ensures forall k :: 0 <= k < |ops| && ops[k].change.list == i ==> Undone(ops, lists, id)[i] == Back(ops[k], lists)
  {
    BackPlan(ops, lists, id);
    var back := Changes(UndoPlan(ops, lists, {}, id).value);
    if Written(ops, i) {
      forall k | 0 <= k < |ops| && ops[k].change.list == i ensures Undone(ops, lists, id)[i] == Back(ops[k], lists) {
        EffectIs(back, |back|, k, lists[i]);
      }
    } else {
      forall k | 0 <= k < |back| ensures back[k].list != i {
        assert ops[k].change.list != i;
      }
      NoEffect(back, |back|, i, lists[i]);
    }
  }

  // ----- In terms of the lists as the undo leaves them -----

  function FolderNumber(list: Entity): Option<int>
  {
    Integer(Get(list, FOLDER_ORDER))
  }

  /** In the same folder, with different numbers for it. */
  ghost predicate Clash(a: Entity, b: Entity)
  {
    Folder(a).Some? && Folder(a) == Folder(b) && FolderNumber(a) != FolderNumber(b)
  }

  lemma CommonIs(lists: Lists)
    ensures Common(lists) <==> forall i, j :: 0 <= i < |lists| && 0 <= j < |lists| ==> !Clash(lists[i], lists[j])
  {
  }

  /** No two lists clash, of those set back and of those left as they are. */
  ghost predicate BackFits(ops: seq<Op>, lists: Lists)
    requires forall k :: 0 <= k < |ops| ==> ops[k].change.list < |lists|
  {
    && (forall k, j :: 0 <= k < |ops| && 0 <= j < |lists| && !Written(ops, j) ==> !Clash(Back(ops[k], lists), lists[j]))
    && (forall k, l :: 0 <= k < |ops| && 0 <= l < |ops| ==> !Clash(Back(ops[k], lists), Back(ops[l], lists)))
  }

  lemma BackFitsIsCommon(ops: seq<Op>, lists: Lists, id: string)
    requires Plain(ops, lists) && Common(lists) && UndoPlan(ops, lists, {}, id).Ok? && BackFits(ops, lists)
    ensures Common(Undone(ops, lists, id))
  {
    var undone := Undone(ops, lists, id);
    CommonIs(lists);
    CommonIs(undone);
    forall i, j | 0 <= i < |undone| && 0 <= j < |undone| ensures !Clash(undone[i], undone[j]) {
      UndoneIs(ops, lists, id, i);
      UndoneIs(ops, lists, id, j);
      if Written(ops, i) {
        var k :| 0 <= k < |ops| && ops[k].change.list == i;
        if Written(ops, j) {
          var l :| 0 <= l < |ops| && ops[l].change.list == j;
          assert !Clash(Back(ops[k], lists), Back(ops[l], lists));
        } else {
          assert !Clash(Back(ops[k], lists), lists[j]);
        }
      } else if Written(ops, j) {
        var l :| 0 <= l < |ops| && ops[l].change.list == j;
        assert !Clash(Back(ops[l], lists), lists[i]);
      }
    }
  }

  lemma CommonBackFits(ops: seq<Op>, lists: Lists, id: string)
    requires Plain(ops, lists) && UndoPlan(ops, lists, {}, id).Ok? && Common(Undone(ops, lists, id))
    ensures BackFits(ops, lists)
  {
    var undone := Undone(ops, lists, id);
    CommonIs(undone);
    forall k | 0 <= k < |ops| ensures undone[ops[k].change.list] == Back(ops[k], lists) {
      UndoneIs(ops, lists, id, ops[k].change.list);
    }
    forall k, j | 0 <= k < |ops| && 0 <= j < |lists| && !Written(ops, j) ensures !Clash(Back(ops[k], lists), lists[j]) {
      UndoneIs(ops, lists, id, j);
      assert !Clash(undone[ops[k].change.list], undone[j]);
    }
    forall k, l | 0 <= k < |ops| && 0 <= l < |ops| ensures !Clash(Back(ops[k], lists), Back(ops[l], lists)) {
      assert !Clash(undone[ops[k].change.list], undone[ops[l].change.list]);
    }
  }

  lemma BackReads(op: Op, lists: Lists)
    requires op.change.list < |lists|
    ensures var now := lists[op.change.list];
            && Folder(Back(op, lists)) == Folder(if FOLDER in op.change.fields then op.before else now)
            && FolderNumber(Back(op, lists)) == FolderNumber(if FOLDER_ORDER in op.change.fields then op.before else now)
  {
    var list := lists[op.change.list];
    MergeReads(list, InverseFields(op), FOLDER);
    MergeReads(list, InverseFields(op), FOLDER_ORDER);
  }

  // ----- In terms of what was recorded and what the lists carry now -----

  /** Moves and deletes of a folder write a list's folder and its number; the others write one field. */
  datatype Kind = Moves | Renames | OrdersFolders | OrdersLists

  ghost function KindOf(ops: seq<Op>): Kind
    requires ops != []
  {
    var fields := ops[0].change.fields;
    if FOLDER in fields then (if FOLDER_ORDER in fields then Moves else Renames)
    else if FOLDER_ORDER in fields then OrdersFolders
    else OrdersLists
  }

  ghost predicate OfKind(fields: Entity, kind: Kind)
  {
    match kind
    case Moves => FOLDER in fields && FOLDER_ORDER in fields && fields.Keys <= {FOLDER, ORDER, FOLDER_ORDER}
    case Renames => fields.Keys == {FOLDER}
    case OrdersFolders => fields.Keys == {FOLDER_ORDER}
    case OrdersLists => fields.Keys == {ORDER}
  }

  /** Lists that were all in one folder. */
  ghost predicate SameFolder(a: Entity, b: Entity)
  {
    Folder(a).Some? && Folder(a) == Folder(b)
  }

  /** Writes of one kind, recorded from lists with one number per folder; a rename's from one folder to one. */
  ghost predicate Uniform(ops: seq<Op>)
  {
    && ops != []
    && (forall k :: 0 <= k < |ops| ==> OfKind(ops[k].change.fields, KindOf(ops)))
    && (forall k, l :: 0 <= k < |ops| && 0 <= l < |ops| ==> !Clash(ops[k].before, ops[l].before))
    && (KindOf(ops).Renames? ==>
          forall k, l :: 0 <= k < |ops| && 0 <= l < |ops| ==>
            SameFolder(ops[k].before, ops[l].before) && SameFolder(ops[k].change.fields, ops[l].change.fields))
  }

  /** The renamed lists carry now the number the other lists of their old folder do. */
  ghost predicate RenameFits(ops: seq<Op>, lists: Lists)
    requires forall k :: 0 <= k < |ops| ==> ops[k].change.list < |lists|
  {
    forall k, j :: 0 <= k < |ops| && 0 <= j < |lists| && !Written(ops, j) && SameFolder(ops[k].before, lists[j]) ==>
      FolderNumber(lists[ops[k].change.list]) == FolderNumber(lists[j])
  }

  /** Each recorded number is the one the other lists of its list's present folder carry, and were recorded with. */
  ghost predicate OrderFits(ops: seq<Op>, lists: Lists)
    requires forall k :: 0 <= k < |ops| ==> ops[k].change.list < |lists|
  {
    && (forall k, j :: 0 <= k < |ops| && 0 <= j < |lists| && !Written(ops, j)
                       && SameFolder(lists[ops[k].change.list], lists[j]) ==>
          FolderNumber(ops[k].before) == FolderNumber(lists[j]))
    && (forall k, l :: 0 <= k < |ops| && 0 <= l < |ops|
                       && SameFolder(lists[ops[k].change.list], lists[ops[l].change.list]) ==>
          FolderNumber(ops[k].before) == FolderNumber(ops[l].before))
  }

  /** Each recorded number is the one the other lists of the recorded folder carry now. */
  ghost predicate MoveFits(ops: seq<Op>, lists: Lists)
  {
    forall k, j :: 0 <= k < |ops| && 0 <= j < |lists| && !Written(ops, j) && SameFolder(ops[k].before, lists[j]) ==>
      FolderNumber(ops[k].before) == FolderNumber(lists[j])
  }

  ghost predicate Fits(ops: seq<Op>, lists: Lists)
    requires ops != [] && forall k :: 0 <= k < |ops| ==> ops[k].change.list < |lists|
  {
    match KindOf(ops)
    case Moves => MoveFits(ops, lists)
    case Renames => RenameFits(ops, lists)
    case OrdersFolders => OrderFits(ops, lists)
    case OrdersLists => true
  }

  lemma MoveFitsIs(ops: seq<Op>, lists: Lists)
    requires Plain(ops, lists) && Uniform(ops) && KindOf(ops).Moves?
    ensures MoveFits(ops, lists) <==> BackFits(ops, lists)
  {
    forall k | 0 <= k < |ops|
      ensures Folder(Back(ops[k], lists)) == Folder(ops[k].before)
      ensures FolderNumber(Back(ops[k], lists)) == FolderNumber(ops[k].before)
    {
      BackReads(ops[k], lists);
    }
    if !MoveFits(ops, lists) {
      var k, j :| 0 <= k < |ops| && 0 <= j < |lists| && !Written(ops, j) && SameFolder(ops[k].before, lists[j])
                  && FolderNumber(ops[k].before) != FolderNumber(lists[j]);
      assert Clash(Back(ops[k], lists), lists[j]);
    }
  }

  lemma OrderFitsIs(ops: seq<Op>, lists: Lists)
    requires Plain(ops, lists) && Uniform(ops) && KindOf(ops).OrdersFolders?
    ensures OrderFits(ops, lists) <==> BackFits(ops, lists)
  {
    forall k | 0 <= k < |ops|
      ensures Folder(Back(ops[k], lists)) == Folder(lists[ops[k].change.list])
      ensures FolderNumber(Back(ops[k], lists)) == FolderNumber(ops[k].before)
    {
      BackReads(ops[k], lists);
    }
    if BackFits(ops, lists) {
      forall k, j | 0 <= k < |ops| && 0 <= j < |lists| && !Written(ops, j) && SameFolder(lists[ops[k].change.list], lists[j])
        ensures FolderNumber(ops[k].before) == FolderNumber(lists[j])
      {
        assert !Clash(Back(ops[k], lists), lists[j]);
      }
      forall k, l | 0 <= k < |ops| && 0 <= l < |ops| && SameFolder(lists[ops[k].change.list], lists[ops[l].change.list])
        ensures FolderNumber(ops[k].before) == FolderNumber(ops[l].before)
      {
        assert !Clash(Back(ops[k], lists), Back(ops[l], lists));
      }
    }
  }

  /** What a rename wrote still holds, so its lists are in one folder now, and were in one before. */
  lemma RenameBack(ops: seq<Op>, lists: Lists, id: string, k: nat, l: nat)
    requires Plain(ops, lists) && Uniform(ops) && KindOf(ops).Renames? && UndoPlan(ops, lists, {}, id).Ok?
    requires k < |ops| && l < |ops|
    ensures SameFolder(lists[ops[k].change.list], lists[ops[l].change.list])
    ensures SameFolder(InverseFields(ops[k]), InverseFields(ops[l]))
  {
    AllOrNothing(ops, lists, {}, id);
    assert Undoable(ops[k], lists, {}) && Undoable(ops[l], lists, {});
    HoldsField(ops[k].change.fields, lists[ops[k].change.list], FOLDER);
    HoldsField(ops[l].change.fields, lists[ops[l].change.list], FOLDER);
    assert SameFolder(ops[k].before, ops[l].before) && SameFolder(ops[k].change.fields, ops[l].change.fields);
  }

  lemma RenamedTogether(ops: seq<Op>, lists: Lists, id: string, k: nat, l: nat)
    requires Plain(ops, lists) && Uniform(ops) && KindOf(ops).Renames? && Common(lists)
    requires UndoPlan(ops, lists, {}, id).Ok? && k < |ops| && l < |ops|
    ensures FolderNumber(lists[ops[k].change.list]) == FolderNumber(lists[ops[l].change.list])
  {
    RenameBack(ops, lists, id, k, l);
  }

  lemma RenameFitsIs(ops: seq<Op>, lists: Lists, id: string)
    requires Plain(ops, lists) && Uniform(ops) && KindOf(ops).Renames? && Common(lists)
    requires UndoPlan(ops, lists, {}, id).Ok?
    ensures RenameFits(ops, lists) <==> BackFits(ops, lists)
  {
    forall k | 0 <= k < |ops|
      ensures Folder(Back(ops[k], lists)) == Folder(ops[k].before)
      ensures FolderNumber(Back(ops[k], lists)) == FolderNumber(lists[ops[k].change.list])
    {
      BackReads(ops[k], lists);
    }
    forall k, l | 0 <= k < |ops| && 0 <= l < |ops| ensures !Clash(Back(ops[k], lists), Back(ops[l], lists)) {
      RenamedTogether(ops, lists, id, k, l);
    }
    if !RenameFits(ops, lists) {
      var k, j :| 0 <= k < |ops| && 0 <= j < |lists| && !Written(ops, j) && SameFolder(ops[k].before, lists[j])
                  && FolderNumber(lists[ops[k].change.list]) != FolderNumber(lists[j]);
      assert Clash(Back(ops[k], lists), lists[j]);
    }
  }

  lemma OrdersAlwaysFit(ops: seq<Op>, lists: Lists)
    requires Plain(ops, lists) && Uniform(ops) && KindOf(ops).OrdersLists? && Common(lists)
    ensures BackFits(ops, lists)
  {
    forall k | 0 <= k < |ops|
      ensures Folder(Back(ops[k], lists)) == Folder(lists[ops[k].change.list])
      ensures FolderNumber(Back(ops[k], lists)) == FolderNumber(lists[ops[k].change.list])
    {
      BackReads(ops[k], lists);
    }
  }

  /**
   An undo of any folder command, whatever came since, leaves every folder's
   lists with one number exactly when, by what it recorded and what the lists
   carry now, it fits: a list's move or a folder's delete, and a folder's
   order, if the recorded numbers are those carried now; a rename, if its
   lists carry what their old folder does; an order of lists, always.
   */
  lemma UndoKeepsCommonExactly(ops: seq<Op>, lists: Lists, id: string)
    requires Plain(ops, lists) && Uniform(ops) && Common(lists) && UndoPlan(ops, lists, {}, id).Ok?
    ensures Common(Undone(ops, lists, id)) <==> Fits(ops, lists)
  {
    match KindOf(ops) {
      case Moves => MoveFitsIs(ops, lists);
      case Renames => RenameFitsIs(ops, lists, id);
      case OrdersFolders => OrderFitsIs(ops, lists);
      case OrdersLists => OrdersAlwaysFit(ops, lists);
    }
    if BackFits(ops, lists) {
      BackFitsIsCommon(ops, lists, id);
    }
    if Common(Undone(ops, lists, id)) {
      CommonBackFits(ops, lists, id);
    }
  }

  // ----- Every folder command, and every undo of one, is of one kind -----

  /** A plan whose writes, queued on `lists`, are of one kind. */
  ghost predicate UniformPlan(plan: seq<Change>, kind: Kind, lists: Lists)
  {
    && OncePerList(plan)
    && (forall k :: 0 <= k < |plan| ==> plan[k].list < |lists| && OfKind(plan[k].fields, kind))
    && (kind.Renames? ==>
          forall k, l :: 0 <= k < |plan| && 0 <= l < |plan| ==>
            SameFolder(lists[plan[k].list], lists[plan[l].list]) && SameFolder(plan[k].fields, plan[l].fields))
  }

  lemma QueuedIsPlain(ops: seq<Op>, plan: seq<Change>, was: Lists, lists: Lists)
    requires QueuedOn(ops, plan, was) && |lists| == |was|
    ensures Plain(ops, lists)
  {
  }

  lemma QueuedIsUniform(ops: seq<Op>, plan: seq<Change>, kind: Kind, lists: Lists)
    requires QueuedOn(ops, plan, lists) && UniformPlan(plan, kind, lists) && Common(lists)
    ensures Plain(ops, lists) && Uniform(ops) && KindOf(ops) == kind
  {
    CommonIs(lists);
  }

  lemma RenumberOf(lists: Lists, field: Key, numbers: seq<Ranked>, kind: Kind)
    requires Numbering(lists, numbers) && field in {ORDER, FOLDER_ORDER}
    requires kind == if field == ORDER then OrdersLists else OrdersFolders
    ensures UniformPlan(Renumber(lists, field, numbers, |numbers|), kind, lists)
  {
    var plan := Renumber(lists, field, numbers, |numbers|);
    RenumberShape(lists, field, numbers, |numbers|);
    forall k | 0 <= k < |plan| ensures plan[k].list < |lists| && OfKind(plan[k].fields, kind) {
      assert plan[k] in plan;
    }
  }

  lemma RenameOf(lists: Lists, folder: string, newName: string, lower: string -> string, plan: seq<Change>)
    requires Rename(lists, folder, newName, lower) == Ok(plan)
    ensures UniformPlan(plan, Renames, lists)
  {
    var name, to := Find(FolderOrder(lists), folder, lower).value, FolderName(newName).value;
    SiblingsAre(lists, Some(name));
    TrimmedName(newName, to);
    EachOf(lists, Siblings(lists, Some(name)), name, to);
  }

  lemma EachOf(lists: Lists, members: seq<nat>, name: string, to: string)
    requires Distinct(members) && Trim(to) == to && to != ""
    requires forall i :: i in members ==> i < |lists| && Folder(lists[i]) == Some(name)
    ensures UniformPlan(Each(members, map[FOLDER := Text(to)]), Renames, lists)
  {
    var fields: Entity := map[FOLDER := Text(to)];
    assert Folder(fields) == Some(to);
    forall k | 0 <= k < |members| ensures members[k] < |lists| && Folder(lists[members[k]]) == Some(name) {
      assert members[k] in members;
    }
  }

  lemma DeleteOf(lists: Lists, folder: string, lower: string -> string, plan: seq<Change>)
    requires Delete(lists, folder, lower) == Ok(plan)
    ensures UniformPlan(plan, Moves, lists)
  {
    var name := Find(FolderOrder(lists), folder, lower).value;
    SiblingsAre(lists, Some(name));
    var siblings := Siblings(lists, Some(name));
    assert forall k :: 0 <= k < |siblings| ==> siblings[k] in siblings;
  }

  ghost function CommandKind(c: Command): Kind
  {
    match c
    case MoveTo(_, _) => Moves
    case PutList(_, _, _) => OrdersLists
    case RenameFolder(_, _) => Renames
    case DeleteFolder(_) => Moves
    case PutFolder(_, _, _) => OrdersFolders
  }

  lemma CommandIsUniform(lists: Lists, c: Command, lower: string -> string, plan: seq<Change>)
    requires |lists| <= MAX && OnCached(lists, c) && PlanOf(lists, c, lower) == Ok(plan)
    ensures UniformPlan(plan, CommandKind(c), lists)
  {
    match c {
      case MoveTo(targets, into) =>
        assert forall k :: 0 <= k < |plan| ==> plan[k].list == targets[k];
      case PutList(list, sibling, before) =>
        var placed := OrderListShape(lists, list, sibling, before, plan);
        RenumberOf(lists, ORDER, Counted(placed), OrdersLists);
      case RenameFolder(folder, newName) => RenameOf(lists, folder, newName, lower, plan);
      case DeleteFolder(folder) => DeleteOf(lists, folder, lower, plan);
      case PutFolder(folder, anchor, before) =>
        var _, _, _, numbers := OrderFolderShape(lists, folder, anchor, before, lower, plan);
        RenumberOf(lists, FOLDER_ORDER, numbers, OrdersFolders);
    }
  }

  lemma UndoIsUniform(ops: seq<Op>, lists: Lists, id: string, back: seq<Change>)
    requires Plain(ops, lists) && Uniform(ops) && UndoPlan(ops, lists, {}, id).Ok?
    requires back == Changes(UndoPlan(ops, lists, {}, id).value)
    ensures UniformPlan(back, KindOf(ops), lists)
  {
    BackPlan(ops, lists, id);
    forall k | 0 <= k < |back| ensures back[k].list < |lists| && OfKind(back[k].fields, KindOf(ops)) {
      assert back[k].fields.Keys == ops[k].change.fields.Keys;
    }
    if KindOf(ops).Renames? {
      forall k, l | 0 <= k < |back| && 0 <= l < |back|
        ensures SameFolder(lists[back[k].list], lists[back[l].list]) && SameFolder(back[k].fields, back[l].fields)
      {
        RenameBack(ops, lists, id, k, l);      }
    }
  }
}
