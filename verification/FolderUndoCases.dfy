/**
 Two runs of folder commands in which an undo that succeeds brings an old
 number back to a folder: one undoes a command by name, the other by a bare
 undo after a redo.
 */
module FolderUndoCases {
  import opened Entities
  import opened Sequences
  import StableSort
  import opened OpIds
  import opened Folders
  import opened FolderOrdering
  import opened FolderRuns
  import opened ListUndo
  import opened FolderUndo
  import opened CommandLog
  import opened FolderUndoRuns
  import Outbox

  ghost function In(folder: string, number: int): Entity
  {
    map[FOLDER := Text(folder), FOLDER_ORDER := Number(number)]
  }

  /** Two lists in the folder `g`, numbered 5, and one in `f`, numbered 1. */
  ghost function ThreeLists(f: string, g: string): Lists
  {
    [In(g, 5), In(g, 5), In(f, 1)]
  }

  ghost predicate TwoNames(f: string, g: string)
  {
    f != g && FolderName(f) == Ok(f) && FolderName(g) == Ok(g)
  }

  lemma InReads(folder: string, number: int)
    requires FolderName(folder) == Ok(folder) && -MAX <= number <= MAX
    ensures Folder(In(folder, number)) == Some(folder) && FolderNumber(In(folder, number)) == Some(number)
  {
  }

  lemma ThreeRead(f: string, g: string)
    requires TwoNames(f, g)
    ensures var lists := ThreeLists(f, g);
            && Folder(lists[0]) == Some(g) && Folder(lists[1]) == Some(g) && Folder(lists[2]) == Some(f)
            && FolderNumber(lists[0]) == Some(5) && FolderNumber(lists[1]) == Some(5) && FolderNumber(lists[2]) == Some(1)
            && Common(lists)
  {
    InReads(g, 5);
    InReads(f, 1);
  }

  /** The first list moves into `f`. */
  lemma MovedToF(f: string, g: string, lower: string -> string) returns (plan: seq<Change>)
    requires TwoNames(f, g)
    ensures MoveLists(ThreeLists(f, g), [0], Some(f), lower) == Ok(plan) && |plan| == 1 && plan[0].list == 0
    ensures plan[0].fields == map[FOLDER := Text(f), FOLDER_ORDER := Number(1), ORDER := Null]
  {
    var lists := ThreeLists(f, g);
    ThreeRead(f, g);
    FolderOrderIs(lists);
    assert InUse(lists, f, 3);
    var (name, order) := Destination(lists, f, lower).value;
    assert name == f;
    DestinationIsCommon(lists, f, lower, f, order, 2);
    plan := MoveLists(lists, [0], Some(f), lower).value;
  }

  ghost function MovedLists(f: string, g: string): Lists
  {
    [In(f, 1), In(g, 5), In(f, 1)]
  }

  lemma MovedIs(f: string, g: string, plan: seq<Change>)
    requires TwoNames(f, g) && |plan| == 1 && plan[0].list == 0
    requires plan[0].fields == map[FOLDER := Text(f), FOLDER_ORDER := Number(1), ORDER := Null]
    ensures Apply(ThreeLists(f, g), plan) == MovedLists(f, g)
  {
    var lists := ThreeLists(f, g);
    assert Merge(In(g, 5), plan[0].fields) == In(f, 1);
    EffectIs(plan, 1, 0, lists[0]);
    NoEffect(plan, 1, 1, lists[1]);
    NoEffect(plan, 1, 2, lists[2]);
  }

  lemma MovedNames(f: string, g: string)
    requires TwoNames(f, g)
    ensures Names(MovedLists(f, g), 3) == [f, g]
  {
    var lists := MovedLists(f, g);
    InReads(f, 1);
    InReads(g, 5);
    assert Names(lists, 1) == [f];
    assert Names(lists, 2) == [f, g];
  }

  lemma MovedKeys(f: string, g: string)
    requires TwoNames(f, g)
    ensures FolderKey(MovedLists(f, g), f) == 1 && FolderKey(MovedLists(f, g), g) == 5
  {
    var lists := MovedLists(f, g);
    InReads(f, 1);
    InReads(g, 5);
    assert Folder(lists[0]) == Some(f) && Folder(lists[1]) == Some(g) && |lists| == 3;
    assert InUse(lists, f, |lists|) && InUse(lists, g, |lists|);
    FolderKeyIs(lists, f, 1);
    FolderKeyIs(lists, g, 5);
  }

  lemma SortTwo(f: string, g: string, keys: seq<int>)
    requires |keys| == 2 && keys[0] < keys[1]
    ensures StableSort.Sort([f, g], keys) == [f, g]
  {
    assert 0 in [0, 1] && 1 in [0, 1];
    StableSort.OnlyOrder(keys, [0, 1]);
  }

  lemma MovedOrder(f: string, g: string)
    requires TwoNames(f, g)
    ensures FolderOrder(MovedLists(f, g)) == [f, g]
  {
    MovedNames(f, g);
    MovedKeys(f, g);
    var keys := FolderKeys(MovedLists(f, g), [f, g]);
    assert keys[0] == 1 && keys[1] == 5;
    SortTwo(f, g, keys);
  }

  /** Of two folders, the first put before the second: the order stays, numbered 1 and 2. */
  lemma PutBefore(lists: Lists, f: string, g: string, lower: string -> string) returns (plan: seq<Change>)
    requires |lists| <= MAX && TwoNames(f, g) && FolderOrder(lists) == [f, g]
    ensures OrderFolder(lists, f, g, true, lower) == Ok(plan)
    ensures Numbered(Apply(lists, plan), [f, g])
  {
    FindsBoth([f, g], f, g, lower);
    plan := OrderFolder(lists, f, g, true, lower).value;
    NumberedInOrder(lists, f, g, true, lower, plan);
    PutStays(lists, f, g, lower, plan, [f, g]);
  }

  lemma FindsBoth(names: seq<string>, f: string, g: string, lower: string -> string)
    requires names == [f, g] && TwoNames(f, g)
    ensures Find(names, f, lower) == Some(f) && Find(names, g, lower) == Some(g)
    ensures Place(names, f, g, true) == names
  {
    assert names[0] == f && names[1] == g;
    assert NextTo(names, f, g, true);
    PlaceAdjacent(names, f, g, true);
  }

  lemma PutStays(lists: Lists, f: string, g: string, lower: string -> string, plan: seq<Change>, names: seq<string>)
    requires |lists| <= MAX && OrderFolder(lists, f, g, true, lower) == Ok(plan) && FolderOrder(lists) == names
    requires Find(names, f, lower) == Some(f) && Find(names, g, lower) == Some(g) && Place(names, f, g, true) == names
    ensures FolderOrder(Apply(lists, plan)) == names
  {
    var _, _ := OrderFolderIsRight(lists, f, g, true, lower, plan);
  }

  lemma PutKeeps(lists: Lists, f: string, g: string, before: bool, lower: string -> string, plan: seq<Change>, i: nat)
    requires |lists| <= MAX && OrderFolder(lists, f, g, before, lower) == Ok(plan) && i < |lists|
    ensures Get(Apply(lists, plan)[i], FOLDER) == Get(lists[i], FOLDER)
    ensures Get(Apply(lists, plan)[i], ORDER) == Get(lists[i], ORDER)
  {
    var _, _, placed, numbers := OrderFolderShape(lists, f, g, before, lower, plan);
    OtherFieldsStay(lists, FOLDER_ORDER, numbers, i, FOLDER);
    OtherFieldsStay(lists, FOLDER_ORDER, numbers, i, ORDER);
  }

  /** Putting `f` before `g` renumbers `g` alone. */
  lemma Renumbered(f: string, g: string, lower: string -> string) returns (plan: seq<Change>)
    requires TwoNames(f, g)
    ensures OrderFolder(MovedLists(f, g), f, g, true, lower) == Ok(plan)
    ensures var now := Apply(MovedLists(f, g), plan);
            && Get(now[0], FOLDER) == Text(f) && Get(now[0], ORDER) == Null && FolderNumber(now[0]) == Some(1)
            && Folder(now[1]) == Some(g) && FolderNumber(now[1]) == Some(2)
  {
    var lists := MovedLists(f, g);
    MovedOrder(f, g);
    plan := PutBefore(lists, f, g, lower);
    PutKeeps(lists, f, g, true, lower, plan, 0);
    PutKeeps(lists, f, g, true, lower, plan, 1);
    InReads(f, 1);
    InReads(g, 5);
    var now, names := Apply(lists, plan), [f, g];
    assert Folder(now[0]) == Some(names[0]) && Folder(now[1]) == Some(names[1]);
  }

  /** What undoing the move then does: the first list comes back to `g` with a number `g` no longer has. */
  lemma ComesBackOld(f: string, g: string, op: Op, now: Lists, undo: string)
    requires TwoNames(f, g) && op.before == In(g, 5) && op.state.Pending? && op.change.list == 0 && |now| == 3
    requires op.change.fields == map[FOLDER := Text(f), FOLDER_ORDER := Number(1), ORDER := Null]
    requires Get(now[0], FOLDER) == Text(f) && FolderNumber(now[0]) == Some(1) && Get(now[0], ORDER) == Null
    requires Folder(now[1]) == Some(g) && FolderNumber(now[1]) == Some(2)
    ensures UndoPlan([op], now, {}, undo).Ok? && !Common(Undone([op], now, undo))
  {
    var ops := [op];
    assert FieldsNotHolding(op.change.fields, now[0]) == {};
    assert Undoable(ops[0], now, {});
    AllOrNothing(ops, now, {}, undo);
    assert ops[0].change.list == 0 && !Written(ops, 1);
    UndoneIs(ops, now, undo, 0);
    UndoneIs(ops, now, undo, 1);
    BackReads(op, now);
    InReads(g, 5);
    CommonIs(Undone(ops, now, undo));
    assert Clash(Undone(ops, now, undo)[0], Undone(ops, now, undo)[1]);
  }

  /** Undoing the first of two plans, made one after the other, succeeds and leaves a folder with two numbers. */
  ghost predicate PartsWhenUndone(lists: Lists, plan: seq<Change>, order: seq<Change>, move: string, undo: string)
  {
    && InRange(plan, lists)
    && var ops, now := Queued(plan, lists, move), Apply(Apply(lists, plan), order);
       Common(now) && UndoPlan(ops, now, {}, undo).Ok? && !Common(Undone(ops, now, undo))
  }

  /**
   A list moves from `g` to `f`, and `f` is put before `g`, which renumbers `g`.
   Undoing the move by name succeeds, and leaves `g` with two numbers.
   */
  lemma OldNumberComesBack(f: string, g: string, lower: string -> string, move: string, undo: string)
    returns (plan: seq<Change>, order: seq<Change>)
    requires TwoNames(f, g)
    ensures Common(ThreeLists(f, g)) && MoveLists(ThreeLists(f, g), [0], Some(f), lower) == Ok(plan)
    ensures OrderFolder(Apply(ThreeLists(f, g), plan), f, g, true, lower) == Ok(order)
    ensures plan != [] && order != [] && PartsWhenUndone(ThreeLists(f, g), plan, order, move, undo)
  {
    var lists := ThreeLists(f, g);
    ThreeRead(f, g);
    plan := MovedToF(f, g, lower);
    MovedIs(f, g, plan);
    order := Renumbered(f, g, lower);
    var now := Apply(MovedLists(f, g), order);
    OrderFolderKeepsCommon(MovedLists(f, g), f, g, true, lower, order);
    InReads(g, 5);
    var ops := Queued(plan, lists, move);
    assert ops == [ops[0]];
    ComesBackOld(f, g, ops[0], now, undo);
    NotEmpty(f, g, order, now);
  }

  lemma NotEmpty(f: string, g: string, order: seq<Change>, now: Lists)
    requires TwoNames(f, g) && now == Apply(MovedLists(f, g), order) && FolderNumber(now[1]) == Some(2)
    ensures order != []
  {
    InReads(g, 5);
  }

  // ----- With bare undos and a redo -----

  /** A move and an order, as logged. */
  ghost predicate TwoLogged(log: seq<Entry>)
  {
    |log| == 2 && forall i :: 0 <= i < 2 ==> log[i].undoes.None? && !log[i].auto
  }

  /** Two commands, a bare undo, an undo of that undo, and a bare undo. */
  ghost function FiveActs(move: FolderRuns.Command, put: FolderRuns.Command): seq<Act>
  {
    [Do(move, "1"), Do(put, "2"), Undo("3", None), Undo("4", Some(2)), Undo("5", None)]
  }

  /** The run goes ahead to the end, its last undo is of the first command, and leaves a folder with two numbers. */
  ghost predicate EndsApart(s: State, acts: seq<Act>, lower: string -> string)
  {
    && ValidRun(s, acts, lower)
    && var v := Final(s, acts, lower); |v.log| == 5 && v.log[4].undoes == Some(0) && !Common(v.lists)
  }

  /** Each of the two plans something. */
  ghost predicate TwoPlans(
    lists: Lists, move: FolderRuns.Command, put: FolderRuns.Command, lower: string -> string, plan: seq<Change>, order: seq<Change>)
  {
    && |lists| <= MAX && CleanLists(lists)
    && OnCached(lists, move) && PlanOf(lists, move, lower) == Ok(plan) && plan != []
    && OnCached(Apply(lists, plan), put) && PlanOf(Apply(lists, plan), put, lower) == Ok(order) && order != []
  }

  ghost predicate Steps(s: State, act: Act, v: State, lower: string -> string)
  {
    Enabled(s, act) && v == ActNext(s, act, lower)
  }

  lemma TwoMade(
    s0: State, move: FolderRuns.Command, put: FolderRuns.Command, lower: string -> string, plan: seq<Change>, order: seq<Change>)
    returns (s1: State, s2: State)
    requires TwoPlans(s0.lists, move, put, lower, plan, order) && s0.log == []
    ensures Steps(s0, Do(move, "1"), s1, lower) && Steps(s1, Do(put, "2"), s2, lower)
    ensures InRange(plan, s0.lists) && TwoLogged(s2.log) && s2.log[0].ops == Queued(plan, s0.lists, "1")
    ensures s2.lists == Apply(Apply(s0.lists, plan), order)
    ensures Leads(s2.log[1].ops, s1.lists, s2.lists) && Plain(s2.log[0].ops, s2.lists)
  {
    s1 := MadeNext(s0, move, "1", lower, plan);
    s2 := MadeNext(s1, put, "2", lower, order);
    SecondLogged(s1.log, s2.log, Queued(order, s1.lists, "2"));
    QueuedIsPlain(Queued(plan, s0.lists, "1"), plan, s0.lists, s2.lists);
  }

  lemma SecondLogged(one: seq<Entry>, two: seq<Entry>, ops: seq<Op>)
    requires |one| == 1 && one[0].undoes.None? && !one[0].auto && two == one + [Command("2", None, false, ops)]
    ensures TwoLogged(two) && two[0] == one[0] && two[1].ops == ops
  {
  }

  /** A command that changes something is logged, and leads from the lists before it to those after. */
  lemma MadeNext(s: State, command: FolderRuns.Command, id: string, lower: string -> string, plan: seq<Change>)
    returns (v: State)
    requires |s.lists| <= MAX && CleanLists(s.lists) && OnCached(s.lists, command)
    requires PlanOf(s.lists, command, lower) == Ok(plan) && plan != []
    ensures InRange(plan, s.lists) && QueuedOn(Queued(plan, s.lists, id), plan, s.lists)
    ensures Steps(s, Do(command, id), v, lower) && CleanLists(v.lists) && v.lists == Apply(s.lists, plan)
    ensures v.log == s.log + [Command(id, None, false, Queued(plan, s.lists, id))]
    ensures Leads(Queued(plan, s.lists, id), s.lists, v.lists)
  {
    CommandIsUniform(s.lists, command, lower, plan);
    MadeLeads(s, plan, id);
    v := Make(s, plan, id, None);
  }

  /** The order undone by a bare undo. */
  lemma UndoneOnce(s: State, was: Lists, lower: string -> string) returns (v: State, c: Entry)
    requires TwoLogged(s.log) && Leads(s.log[1].ops, was, s.lists)
    ensures Steps(s, Undo("3", None), v, lower)
    ensures v == State(was, s.log + [c]) && c.undoes == Some(1) && Leads(c.ops, s.lists, was)
  {
    assert Live(s.log, 1);
    c := UndoIs(s, 1, was, "3");
    v := State(was, s.log + [c]);
  }

  /** And made again by undoing that. */
  lemma RedoneOnce(s: State, lists: Lists, lower: string -> string) returns (v: State, d: Entry)
    requires |s.log| == 3 && Leads(s.log[2].ops, lists, s.lists) && !WasUndone(s.log, 2)
    ensures Steps(s, Undo("4", Some(2)), v, lower)
    ensures v == State(lists, s.log + [d]) && d.undoes == Some(2)
  {
    d := UndoIs(s, 2, lists, "4");
    v := State(lists, s.log + [d]);
  }

  /** The move is then what a bare undo picks. */
  lemma MoveIsLast(log: seq<Entry>, c: Entry, d: Entry)
    requires TwoLogged(log) && c.undoes == Some(1) && d.undoes == Some(2)
    ensures var longer := log + [c] + [d]; !WasUndone(longer, 0) && LastUndoable(longer, 4) == Some(0)
  {
    var longer := log + [c] + [d];
    assert longer[2] == c && longer[3] == d;
    assert !WasUndone(longer, 0) && WasUndone(longer, 1);
    assert Live(longer, 0);
  }

  lemma MoveUndone(s: State, lower: string -> string) returns (v: State)
    requires |s.log| == 4 && !WasUndone(s.log, 0) && LastUndoable(s.log, 4) == Some(0)
    requires UndoPlan(s.log[0].ops, s.lists, {}, "5").Ok? && !Common(Undone(s.log[0].ops, s.lists, "5"))
    requires Plain(s.log[0].ops, s.lists)
    ensures Steps(s, Undo("5", None), v, lower)
    ensures |v.log| == 5 && v.log[4].undoes == Some(0) && !Common(v.lists)
  {
    BackPlan(s.log[0].ops, s.lists, "5");
    v := ActNext(s, Undo("5", None), lower);
  }

  /** The second undone and made again, then the first undone. */
  lemma ThreeMore(s: State, was: Lists, lower: string -> string) returns (s3: State, s4: State, s5: State)
    requires TwoLogged(s.log) && Leads(s.log[1].ops, was, s.lists) && Plain(s.log[0].ops, s.lists)
    requires UndoPlan(s.log[0].ops, s.lists, {}, "5").Ok? && !Common(Undone(s.log[0].ops, s.lists, "5"))
    ensures Steps(s, Undo("3", None), s3, lower) && Steps(s3, Undo("4", Some(2)), s4, lower)
    ensures Steps(s4, Undo("5", None), s5, lower)
    ensures |s5.log| == 5 && s5.log[4].undoes == Some(0) && !Common(s5.lists)
  {
    s3, s4 := UndoneAndRedone(s, was, lower);
    s5 := MoveUndone(s4, lower);
  }

  lemma UndoneAndRedone(s: State, was: Lists, lower: string -> string) returns (s3: State, s4: State)
    requires TwoLogged(s.log) && Leads(s.log[1].ops, was, s.lists)
    ensures Steps(s, Undo("3", None), s3, lower) && Steps(s3, Undo("4", Some(2)), s4, lower)
    ensures s4.lists == s.lists && |s4.log| == 4 && s4.log[0] == s.log[0]
    ensures !WasUndone(s4.log, 0) && LastUndoable(s4.log, 4) == Some(0)
  {
    var c, d;
    s3, c := UndoneOnce(s, was, lower);
    s4, d := RedoneOnce(s3, s.lists, lower);
    MoveIsLast(s.log, c, d);
  }

  /**
   The same by bare undos, once a redo has come between: a list moves from `g`
   to `f`, `f` is put before `g`, a bare undo takes that back, and undoing the
   undo makes it again. The next bare undo picks the move, succeeds, and
   leaves `g` with two numbers.
   */
  lemma BareUndoAfterRedo(f: string, g: string, lower: string -> string)
    requires TwoNames(f, g)
    ensures Common(ThreeLists(f, g))
    ensures EndsApart(State(ThreeLists(f, g), []), FiveActs(MoveTo([0], Some(f)), PutFolder(f, g, true)), lower)
  {
    ThreeAreClean(f, g);
    ThreeRead(f, g);
    var plan, order := OldNumberComesBack(f, g, lower, "1", "5");
    var lists := ThreeLists(f, g);
    assert 0 < |lists| <= MAX;
    FiveRunOf(lists, f, g, lower, plan, order);
  }

  lemma ThreeAreClean(f: string, g: string)
    ensures CleanLists(ThreeLists(f, g))
  {
  }

  lemma FiveRunOf(lists: Lists, f: string, g: string, lower: string -> string, plan: seq<Change>, order: seq<Change>)
    requires 0 < |lists| <= MAX && CleanLists(lists) && MoveLists(lists, [0], Some(f), lower) == Ok(plan) && plan != []
    requires OrderFolder(Apply(lists, plan), f, g, true, lower) == Ok(order) && order != []
    requires PartsWhenUndone(lists, plan, order, "1", "5")
    ensures EndsApart(State(lists, []), FiveActs(MoveTo([0], Some(f)), PutFolder(f, g, true)), lower)
  {
    MovesAndPuts(lists, f, g, lower, plan, order);
    FiveRun(State(lists, []), MoveTo([0], Some(f)), PutFolder(f, g, true), lower, plan, order);
  }

  lemma MovesAndPuts(lists: Lists, f: string, g: string, lower: string -> string, plan: seq<Change>, order: seq<Change>)
    requires 0 < |lists| <= MAX && CleanLists(lists) && MoveLists(lists, [0], Some(f), lower) == Ok(plan) && plan != []
    requires OrderFolder(Apply(lists, plan), f, g, true, lower) == Ok(order) && order != []
    ensures TwoPlans(lists, MoveTo([0], Some(f)), PutFolder(f, g, true), lower, plan, order)
  {
  }

  lemma FiveRun(
    s0: State, move: FolderRuns.Command, put: FolderRuns.Command, lower: string -> string, plan: seq<Change>, order: seq<Change>)
    requires TwoPlans(s0.lists, move, put, lower, plan, order) && PartsWhenUndone(s0.lists, plan, order, "1", "5")
    requires s0.log == []
    ensures EndsApart(s0, FiveActs(move, put), lower)
  {
    var s1, s2 := TwoMade(s0, move, put, lower, plan, order);
    FiveActsAre(move, put);
    TheRest(s0, s1, s2, Do(move, "1"), Do(put, "2"), lower, FiveActs(move, put));
  }

  lemma FiveActsAre(move: FolderRuns.Command, put: FolderRuns.Command)
    ensures FiveActs(move, put)
            == [Do(move, "1")] + ([Do(put, "2")] + [Undo("3", None), Undo("4", Some(2)), Undo("5", None)])
  {
  }

  lemma TheRest(
    s0: State, s1: State, s2: State, first: Act, second: Act, lower: string -> string, acts: seq<Act>)
    requires Steps(s0, first, s1, lower) && Steps(s1, second, s2, lower)
    requires acts == [first] + ([second] + [Undo("3", None), Undo("4", Some(2)), Undo("5", None)])
    requires TwoLogged(s2.log) && Leads(s2.log[1].ops, s1.lists, s2.lists) && Plain(s2.log[0].ops, s2.lists)
    requires UndoPlan(s2.log[0].ops, s2.lists, {}, "5").Ok? && !Common(Undone(s2.log[0].ops, s2.lists, "5"))
    ensures EndsApart(s0, acts, lower)
  {
    var last := [Undo("3", None), Undo("4", Some(2)), Undo("5", None)];
    LastThree(s2, s1.lists, lower, last);
    TwoSteps(s0, s1, s2, first, second, last, acts, lower);
  }

  lemma TwoSteps(
    s0: State, s1: State, s2: State, first: Act, second: Act, last: seq<Act>, acts: seq<Act>, lower: string -> string)
    requires Steps(s0, first, s1, lower) && Steps(s1, second, s2, lower) && ValidRun(s2, last, lower)
    requires acts == [first] + ([second] + last)
    ensures ValidRun(s0, acts, lower) && Final(s0, acts, lower) == Final(s2, last, lower)
  {
    OneStep(s1, second, s2, last, [second] + last, lower);
    OneStep(s0, first, s1, [second] + last, acts, lower);
  }

  lemma LastThree(s: State, was: Lists, lower: string -> string, last: seq<Act>)
    requires TwoLogged(s.log) && Leads(s.log[1].ops, was, s.lists) && Plain(s.log[0].ops, s.lists)
    requires UndoPlan(s.log[0].ops, s.lists, {}, "5").Ok? && !Common(Undone(s.log[0].ops, s.lists, "5"))
    requires last == [Undo("3", None), Undo("4", Some(2)), Undo("5", None)]
    ensures EndsApart(s, last, lower)
  {
    var s3, s4, s5 := ThreeMore(s, was, lower);
    ThreeSteps(s, s3, s4, s5, Undo("3", None), Undo("4", Some(2)), Undo("5", None), lower);
  }

  lemma OneStep(s: State, act: Act, v: State, rest: seq<Act>, acts: seq<Act>, lower: string -> string)
    requires Steps(s, act, v, lower) && ValidRun(v, rest, lower) && acts == [act] + rest
    ensures ValidRun(s, acts, lower) && Final(s, acts, lower) == Final(v, rest, lower)
  {
    assert acts[0] == act && acts[1..] == rest;
  }

  lemma ThreeSteps(
    s2: State, s3: State, s4: State, s5: State, a: Act, b: Act, c: Act, lower: string -> string)
    requires Steps(s2, a, s3, lower) && Steps(s3, b, s4, lower) && Steps(s4, c, s5, lower)
    ensures ValidRun(s2, [a, b, c], lower) && Final(s2, [a, b, c], lower) == s5
  {
    OneStep(s4, c, s5, [], [c], lower);
    OneStep(s3, b, s4, [c], [b, c], lower);
    OneStep(s2, a, s3, [b, c], [a, b, c], lower);
  }
}
