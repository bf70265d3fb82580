/**
 Runs of folder commands: what every one of them keeps, and what moving,
 renaming and finding folders do to the order.
 */
module FolderRuns {
  import opened Entities
  import opened Sequences
  import opened StableSort
  import opened Folders
  import opened FolderOrdering

  // ----- Every list is shown, once -----

  lemma {:induction false} FlatIs(lists: Lists, names: seq<string>)
    requires Distinct(names)
    ensures Distinct(Flat(lists, names))
    ensures forall i :: i in Flat(lists, names) <==>
              0 <= i < |lists| && Folder(lists[i]).Some? && Folder(lists[i]).value in names
  {
    if names != [] {
      var n := |names| - 1;
      assert names == names[..n] + [names[n]];
      assert names[n] !in names[..n];
      FlatIs(lists, names[..n]);
      SiblingsAre(lists, Some(names[n]));
      DistinctConcat(Flat(lists, names[..n]), Siblings(lists, Some(names[n])));
    }
  }

  lemma DistinctConcat(a: seq<nat>, b: seq<nat>)
    requires Distinct(a) && Distinct(b) && forall x :: x in a ==> x !in b
    ensures Distinct(a + b)
  {
    forall i, j | 0 <= i < j < |a + b| ensures (a + b)[i] != (a + b)[j] {
      if i < |a| <= j {
        assert a[i] in a && b[j - |a|] in b;
      }
    }
  }

  /** Display order is a permutation of the lists. */
  lemma SortedIsPermutation(lists: Lists)
    ensures Distinct(Sorted(lists)) && |Sorted(lists)| == |lists|
    ensures forall i :: i in Sorted(lists) <==> 0 <= i < |lists|
  {
    FolderOrderIs(lists);
    FlatIs(lists, FolderOrder(lists));
    SiblingsAre(lists, None);
    forall i | 0 <= i < |lists| && Folder(lists[i]).Some? ensures Folder(lists[i]).value in FolderOrder(lists) {
      assert InUse(lists, Folder(lists[i]).value, |lists|);
    }
    DistinctConcat(Flat(lists, FolderOrder(lists)), Siblings(lists, None));
    SameSize(Sorted(lists), |lists|);
  }

  lemma SameSize(s: seq<nat>, n: nat)
    requires Distinct(s) && forall i :: i in s <==> 0 <= i < n
    ensures |s| == n
  {
    RangeIs(n);
    ElementsAre(s);
    assert Elements(s) == Range(n);
  }

  // ----- What commands do, list by list -----

  /** A plan that gives each of `targets` the fields `given` says, once. */
  ghost predicate Gives(plan: seq<Change>, targets: seq<nat>, fields: seq<Entity>)
  {
    && |plan| == |targets| == |fields| && Distinct(targets)
    && forall k :: 0 <= k < |plan| ==> plan[k] == Change(targets[k], fields[k])
  }

  lemma GivenFields(lists: Lists, plan: seq<Change>, targets: seq<nat>, fields: seq<Entity>, k: nat)
    requires Gives(plan, targets, fields) && k < |targets| && targets[k] < |lists|
    ensures Apply(lists, plan)[targets[k]] == Merge(lists[targets[k]], fields[k])
  {
    EffectIs(plan, |plan|, k, lists[targets[k]]);
  }

  lemma OthersStay(lists: Lists, plan: seq<Change>, targets: seq<nat>, fields: seq<Entity>, i: nat)
    requires Gives(plan, targets, fields) && i < |lists| && i !in targets
    ensures Apply(lists, plan)[i] == lists[i]
  {
    forall k | 0 <= k < |plan| ensures plan[k].list != i {
      assert targets[k] in targets;
    }
    NoEffect(plan, |plan|, i, lists[i]);
  }

  lemma EachGives(lists: seq<nat>, fields: Entity)
    requires Distinct(lists)
    ensures Gives(Each(lists, fields), lists, seq(|lists|, k => fields))
  {
  }

  // ----- Moving lists -----

  lemma MoveShape(
    lists: Lists, targets: seq<nat>, typed: string, lower: string -> string, plan: seq<Change>, name: string, order: Value)
    requires Distinct(targets) && (forall k :: 0 <= k < |targets| ==> targets[k] < |lists|)
    requires MoveLists(lists, targets, Some(typed), lower) == Ok(plan)
    requires Destination(lists, typed, lower) == Ok((name, order))
    ensures Gives(plan, targets,
                  seq(|targets|, k requires 0 <= k < |targets| => MoveFields(lists[targets[k]], name, order)))
  {
  }

  lemma TrimmedName(typed: string, name: string)
    requires FolderName(typed) == Ok(name)
    ensures Trim(name) == name && name != ""
  {
    TrimTwice(typed);
  }

  /** A folder's name is as its lists have it, trimmed. */
  lemma InUseIsTrimmed(lists: Lists, name: string)
    requires InUse(lists, name, |lists|)
    ensures Trim(name) == name && name != ""
  {
    var i :| 0 <= i < |lists| && Folder(lists[i]) == Some(name);
    TrimTwice(lists[i][FOLDER].text);
  }

  lemma DestinationIs(lists: Lists, typed: string, lower: string -> string, name: string, order: Value)
    requires Destination(lists, typed, lower) == Ok((name, order))
    ensures Trim(name) == name && name != ""
    ensures !InUse(lists, name, |lists|) ==> order == Null
    ensures InUse(lists, name, |lists|) ==>
              (forall k :: 0 <= k < |Siblings(lists, Some(name))| ==> Siblings(lists, Some(name))[k] < |lists|)
              && order == FirstPlace(lists, Siblings(lists, Some(name)))
  {
    FolderOrderIs(lists);
    TrimmedName(typed, FolderName(typed).value);
    SiblingsAre(lists, Some(name));
    if InUse(lists, name, |lists|) {
      InUseIsTrimmed(lists, name);
    }
  }

  /** A moved list is in the folder with the folder's number, and with no place in it if it comes from elsewhere. */
  lemma Moved(list: Entity, name: string, order: Value)
    requires Trim(name) == name && name != ""
    ensures var after := Merge(list, MoveFields(list, name, order));
            && Folder(after) == Some(name) && Get(after, FOLDER_ORDER) == order
            && Get(after, ORDER) == if Folder(list) == Some(name) then Get(list, ORDER) else Null
  {
    var fields := MoveFields(list, name, order);
    MergeReads(list, fields, FOLDER);
    MergeReads(list, fields, FOLDER_ORDER);
    MergeReads(list, fields, ORDER);
  }

  /**
   A list moved into a folder comes after another of its lists exactly if that
   one's number is under i64's largest, or it was cached first; so it comes
   after every list with a number that is, and with the rest in cached order.
   */
  lemma MovedInComeLast(
    lists: Lists, targets: seq<nat>, typed: string, lower: string -> string, plan: seq<Change>, name: string, order: Value,
    t: nat, other: nat) returns (i: nat, j: nat)
    requires Distinct(targets) && (forall k :: 0 <= k < |targets| ==> targets[k] < |lists|)
    requires MoveLists(lists, targets, Some(typed), lower) == Ok(plan)
    requires Destination(lists, typed, lower) == Ok((name, order))
    requires t < |targets| && Folder(lists[targets[t]]) != Some(name) && other != targets[t]
    requires other < |lists| && Folder(Apply(lists, plan)[other]) == Some(name)
    ensures var now := Siblings(Apply(lists, plan), Some(name));
            i < |now| && j < |now| && now[i] == other && now[j] == targets[t]
    ensures i < j <==> SortKey(Integer(Get(Apply(lists, plan)[other], ORDER))) < MAX || other < targets[t]
  {
    MovedHasNoPlace(lists, targets, typed, lower, plan, name, order, t);
    i, j := PlacesOf(Apply(lists, plan), name, other, targets[t]);
  }

  lemma MovedHasNoPlace(
    lists: Lists, targets: seq<nat>, typed: string, lower: string -> string, plan: seq<Change>, name: string, order: Value,
    t: nat)
    requires Distinct(targets) && (forall k :: 0 <= k < |targets| ==> targets[k] < |lists|)
    requires MoveLists(lists, targets, Some(typed), lower) == Ok(plan)
    requires Destination(lists, typed, lower) == Ok((name, order))
    requires t < |targets| && Folder(lists[targets[t]]) != Some(name)
    ensures var after := Apply(lists, plan)[targets[t]]; Folder(after) == Some(name) && Get(after, ORDER) == Null
  {
    var fields := seq(|targets|, k requires 0 <= k < |targets| => MoveFields(lists[targets[k]], name, order));
    MoveShape(lists, targets, typed, lower, plan, name, order);
    GivenFields(lists, plan, targets, fields, t);
    DestinationIs(lists, typed, lower, name, order);
    Moved(lists[targets[t]], name, order);
  }

  /** Where two lists of a folder are, the second with no place of its own. */
  lemma PlacesOf(lists: Lists, name: string, other: nat, moved: nat) returns (i: nat, j: nat)
    requires other < |lists| && moved < |lists| && other != moved
    requires Folder(lists[other]) == Some(name) && Folder(lists[moved]) == Some(name) && Get(lists[moved], ORDER) == Null
    ensures var now := Siblings(lists, Some(name));
            i < |now| && j < |now| && now[i] == other && now[j] == moved
    ensures i < j <==> SortKey(Integer(Get(lists[other], ORDER))) < MAX || other < moved
  {
    var members := Members(lists, Some(name), |lists|);
    MembersAre(lists, Some(name), |lists|);
    MembersAscend(lists, Some(name), |lists|);
    var a :| 0 <= a < |members| && members[a] == other;
    var b :| 0 <= b < |members| && members[b] == moved;
    var keys := Keys(lists, members, ORDER);
    if Before(keys, a, b) {
      i, j := ComesFirst(members, keys, a, b);
    } else {
      j, i := ComesFirst(members, keys, b, a);
    }
  }

  // ----- One number per folder -----

  /** All the lists of a folder carry the same number for it. */
  ghost predicate Common(lists: Lists)
  {
    forall i, j :: 0 <= i < |lists| && 0 <= j < |lists| && Folder(lists[i]).Some? && Folder(lists[i]) == Folder(lists[j]) ==>
      Integer(Get(lists[i], FOLDER_ORDER)) == Integer(Get(lists[j], FOLDER_ORDER))
  }

  lemma {:induction false} FirstIsCommon(lists: Lists, members: seq<nat>, place: Option<int>)
    requires members != [] && forall k :: 0 <= k < |members| ==> members[k] < |lists|
    requires forall k :: 0 <= k < |members| ==> Integer(Get(lists[members[k]], FOLDER_ORDER)) == place
    ensures Integer(FirstPlace(lists, members)) == place
  {
    if |members| > 1 && place.None? {
      FirstIsCommon(lists, members[1..], place);
    }
  }

  /** A list moving in gets the number the folder's lists carry. */
  lemma DestinationIsCommon(lists: Lists, typed: string, lower: string -> string, name: string, order: Value, i: nat)
    requires Common(lists) && Destination(lists, typed, lower) == Ok((name, order))
    requires i < |lists| && Folder(lists[i]) == Some(name)
    ensures Integer(order) == Integer(Get(lists[i], FOLDER_ORDER))
  {
    assert InUse(lists, name, |lists|);
    DestinationIs(lists, typed, lower, name, order);
    SiblingsAre(lists, Some(name));
    var siblings := Siblings(lists, Some(name));
    assert i in siblings;
    forall k | 0 <= k < |siblings|
      ensures Integer(Get(lists[siblings[k]], FOLDER_ORDER)) == Integer(Get(lists[i], FOLDER_ORDER))
    {
      assert siblings[k] in siblings;
    }
    FirstIsCommon(lists, siblings, Integer(Get(lists[i], FOLDER_ORDER)));
  }

  /** What each list is after a move: in the folder with its number, or as it was. */
  lemma MoveEffect(
    lists: Lists, targets: seq<nat>, typed: string, lower: string -> string, plan: seq<Change>, name: string, order: Value,
    i: nat)
    requires Distinct(targets) && (forall k :: 0 <= k < |targets| ==> targets[k] < |lists|)
    requires MoveLists(lists, targets, Some(typed), lower) == Ok(plan)
    requires Destination(lists, typed, lower) == Ok((name, order)) && i < |lists|
    ensures var after := Apply(lists, plan)[i];
            if i in targets then Folder(after) == Some(name) && Get(after, FOLDER_ORDER) == order else after == lists[i]
  {
    var fields := seq(|targets|, k requires 0 <= k < |targets| => MoveFields(lists[targets[k]], name, order));
    MoveShape(lists, targets, typed, lower, plan, name, order);
    if i in targets {
      var k :| 0 <= k < |targets| && targets[k] == i;
      GivenFields(lists, plan, targets, fields, k);
      DestinationIs(lists, typed, lower, name, order);
      Moved(lists[i], name, order);
    } else {
      OthersStay(lists, plan, targets, fields, i);
    }
  }

  lemma MoveInKeepsCommon(lists: Lists, targets: seq<nat>, typed: string, lower: string -> string, plan: seq<Change>)
    requires Common(lists) && Distinct(targets) && (forall k :: 0 <= k < |targets| ==> targets[k] < |lists|)
    requires MoveLists(lists, targets, Some(typed), lower) == Ok(plan)
    ensures Common(Apply(lists, plan))
  {
    var (name, order) := Destination(lists, typed, lower).value;
    var after := Apply(lists, plan);
    forall i | 0 <= i < |lists| && Folder(after[i]).Some?
      ensures if Folder(after[i]) == Some(name) then Integer(Get(after[i], FOLDER_ORDER)) == Integer(order)
              else after[i] == lists[i]
    {
      MoveEffect(lists, targets, typed, lower, plan, name, order, i);
      if i !in targets && Folder(after[i]) == Some(name) {
        DestinationIsCommon(lists, typed, lower, name, order, i);
      }
    }
  }

  lemma OutOfFolder(list: Entity)
    ensures Folder(Merge(list, NO_FOLDER)) == None
  {
    MergeReads(list, NO_FOLDER, FOLDER);
  }

  /** Taking lists out of their folders leaves the others as they were. */
  lemma TakingOutKeepsCommon(lists: Lists, plan: seq<Change>, targets: seq<nat>)
    requires Common(lists) && Distinct(targets) && plan == Each(targets, NO_FOLDER)
    ensures Common(Apply(lists, plan))
  {
    var after, fields := Apply(lists, plan), seq(|targets|, k => NO_FOLDER);
    EachGives(targets, NO_FOLDER);
    forall i | 0 <= i < |lists| && Folder(after[i]).Some? ensures after[i] == lists[i] {
      if i in targets {
        var k :| 0 <= k < |targets| && targets[k] == i;
        GivenFields(lists, plan, targets, fields, k);
        OutOfFolder(lists[i]);
      } else {
        OthersStay(lists, plan, targets, fields, i);
      }
    }
  }

  lemma OrderListKeepsCommon(lists: Lists, list: nat, anchor: nat, before: bool, plan: seq<Change>)
    requires |lists| <= MAX && Common(lists) && list < |lists| && anchor < |lists|
    requires OrderList(lists, list, anchor, before) == Ok(plan)
    ensures Common(Apply(lists, plan))
  {
    var placed := OrderListShape(lists, list, anchor, before, plan);
    OnlyOrderChanges(lists, Apply(lists, plan), placed);
  }

  lemma OrderFolderKeepsCommon(
    lists: Lists, folder: string, anchor: string, before: bool, lower: string -> string, plan: seq<Change>)
    requires |lists| <= MAX && OrderFolder(lists, folder, anchor, before, lower) == Ok(plan)
    ensures Common(Apply(lists, plan))
  {
    var moving, other, placed, numbers := OrderFolderShape(lists, folder, anchor, before, lower, plan);
    var after := Apply(lists, plan);
    forall i | 0 <= i < |lists| ensures Get(after[i], FOLDER) == Get(lists[i], FOLDER) {
      OtherFieldsStay(lists, FOLDER_ORDER, numbers, i, FOLDER);
    }
    AllRenumbered(lists, after, placed, numbers);
    FolderOrderIs(lists);
    forall i | 0 <= i < |lists| && Folder(lists[i]).Some? ensures Folder(lists[i]).value in placed {
      assert InUse(lists, Folder(lists[i]).value, |lists|);
    }
    NumberedIsCommon(after, placed);
  }

  /** Numbered by folder, every folder's lists carry one number. */
  lemma NumberedIsCommon(lists: Lists, names: seq<string>)
    requires Numbered(lists, names)
    requires forall i :: 0 <= i < |lists| && Folder(lists[i]).Some? ==> Folder(lists[i]).value in names
    ensures Common(lists)
  {
    forall i, j | 0 <= i < |lists| && 0 <= j < |lists| && Folder(lists[i]).Some? && Folder(lists[i]) == Folder(lists[j])
      ensures Integer(Get(lists[i], FOLDER_ORDER)) == Integer(Get(lists[j], FOLDER_ORDER))
    {
      var k :| 0 <= k < |names| && names[k] == Folder(lists[i]).value;
    }
  }

  // ----- Renaming -----

  /** What a rename renames, and that the new name is nobody else's. */
  lemma RenameShape(lists: Lists, folder: string, newName: string, lower: string -> string, plan: seq<Change>)
    returns (name: string, given: string)
    requires Rename(lists, folder, newName, lower) == Ok(plan)
    ensures Find(FolderOrder(lists), folder, lower) == Some(name) && FolderName(newName) == Ok(given)
    ensures InUse(lists, name, |lists|) && (given != name ==> !InUse(lists, given, |lists|))
    ensures forall i :: 0 <= i < |lists| ==>
              && Folder(Apply(lists, plan)[i]) == Renamed(Folder(lists[i]), name, given)
              && Get(Apply(lists, plan)[i], ORDER) == Get(lists[i], ORDER)
              && Get(Apply(lists, plan)[i], FOLDER_ORDER) == Get(lists[i], FOLDER_ORDER)
  {
    name, given := Find(FolderOrder(lists), folder, lower).value, FolderName(newName).value;
    FolderOrderIs(lists);
    TrimmedName(newName, given);
    SiblingsAre(lists, Some(name));
    var targets, after := Siblings(lists, Some(name)), Apply(lists, plan);
    var fields: Entity := map[FOLDER := Text(given)];
    EachGives(targets, fields);
    forall i | 0 <= i < |lists|
      ensures Folder(after[i]) == Renamed(Folder(lists[i]), name, given)
      ensures Get(after[i], ORDER) == Get(lists[i], ORDER) && Get(after[i], FOLDER_ORDER) == Get(lists[i], FOLDER_ORDER)
    {
      if i in targets {
        var k :| 0 <= k < |targets| && targets[k] == i;
        GivenFields(lists, plan, targets, seq(|targets|, k => fields), k);
        MergeReads(lists[i], fields, FOLDER);
        MergeReads(lists[i], fields, ORDER);
        MergeReads(lists[i], fields, FOLDER_ORDER);
      } else {
        OthersStay(lists, plan, targets, seq(|targets|, k => fields), i);
      }
    }
  }

  function Renamed(folder: Option<string>, name: string, given: string): Option<string>
  {
    if folder == Some(name) then Some(given) else folder
  }

  /** `after` is `lists` with the folder `name` called `given`, which no other folder is. */
  ghost predicate OnlyRenamed(lists: Lists, after: Lists, name: string, given: string)
  {
    && |after| == |lists| && (given != name ==> !InUse(lists, given, |lists|))
    && forall i :: 0 <= i < |lists| ==>
         && Folder(after[i]) == Renamed(Folder(lists[i]), name, given)
         && Get(after[i], ORDER) == Get(lists[i], ORDER) && Get(after[i], FOLDER_ORDER) == Get(lists[i], FOLDER_ORDER)
  }

  lemma NotTaken(lists: Lists, after: Lists, name: string, given: string, i: nat)
    requires OnlyRenamed(lists, after, name, given) && i < |lists|
    ensures given != name ==> Folder(lists[i]) != Some(given)
  {
  }

  lemma {:induction false} RenamedMembers(
    lists: Lists, after: Lists, name: string, given: string, folder: Option<string>, n: nat)
    requires OnlyRenamed(lists, after, name, given) && n <= |lists|
    requires folder == Some(given) ==> given == name
    ensures Members(after, Renamed(folder, name, given), n) == Members(lists, folder, n)
  {
    if n > 0 {
      RenamedMembers(lists, after, name, given, folder, n - 1);
      NotTaken(lists, after, name, given, n - 1);
    }
  }

  lemma {:induction false} RenamedNames(lists: Lists, after: Lists, name: string, given: string, n: nat)
    requires OnlyRenamed(lists, after, name, given) && n <= |lists|
    ensures |Names(after, n)| == |Names(lists, n)|
    ensures forall k :: 0 <= k < |Names(lists, n)| ==>
              Some(Names(after, n)[k]) == Renamed(Some(Names(lists, n)[k]), name, given)
  {
    if n > 0 {
      RenamedNames(lists, after, name, given, n - 1);
      NotTaken(lists, after, name, given, n - 1);
      var was, now := Names(lists, n - 1), Names(after, n - 1);
      NamesAre(lists, n - 1);
      forall k | 0 <= k < |was| ensures given != name ==> was[k] != given {
        assert was[k] in was;
      }
      if Folder(lists[n - 1]).Some? {
        SeenAlready(was, now, Folder(lists[n - 1]).value, Folder(after[n - 1]).value, name, given);
      }
    }
  }

  /** A folder is among those seen before exactly if it is, renamed, among them renamed. */
  lemma SeenAlready(was: seq<string>, now: seq<string>, f: string, g: string, name: string, given: string)
    requires |now| == |was| && forall k :: 0 <= k < |was| ==> Some(now[k]) == Renamed(Some(was[k]), name, given)
    requires given != name ==> f != given && forall k :: 0 <= k < |was| ==> was[k] != given
    requires Some(g) == Renamed(Some(f), name, given)
    ensures f in was <==> g in now
  {
    if f in was {
      var k :| 0 <= k < |was| && was[k] == f;
      assert now[k] == g;
    }
    if g in now {
      var k :| 0 <= k < |now| && now[k] == g;
      assert was[k] == f;
    }
  }

  lemma RenamedSiblings(lists: Lists, after: Lists, name: string, given: string, folder: Option<string>)
    requires OnlyRenamed(lists, after, name, given)
    requires folder == Some(given) ==> given == name
    ensures Siblings(after, Renamed(folder, name, given)) == Siblings(lists, folder)
  {
    RenamedMembers(lists, after, name, given, folder, |lists|);
    SameKeys(lists, after, Members(lists, folder, |lists|), ORDER);
  }

  lemma RenamedKeys(lists: Lists, after: Lists, name: string, given: string)
    requires OnlyRenamed(lists, after, name, given)
    ensures FolderKeys(after, Names(after, |after|)) == FolderKeys(lists, Names(lists, |lists|))
  {
    var was, now := Names(lists, |lists|), Names(after, |after|);
    RenamedNames(lists, after, name, given, |lists|);
    NamesAre(lists, |lists|);
    forall k | 0 <= k < |was| ensures FolderKey(after, now[k]) == FolderKey(lists, was[k]) {
      assert was[k] in was;
      RenamedMembers(lists, after, name, given, Some(was[k]), |lists|);
      SameKeys(lists, after, Members(lists, Some(was[k]), |lists|), FOLDER_ORDER);
    }
  }

  lemma {:induction false} RenamedFlat(
    lists: Lists, after: Lists, name: string, given: string, was: seq<string>, now: seq<string>)
    requires OnlyRenamed(lists, after, name, given) && |was| == |now|
    requires forall k :: 0 <= k < |was| ==> was[k] == given ==> given == name
    requires forall k :: 0 <= k < |was| ==> Some(now[k]) == Renamed(Some(was[k]), name, given)
    ensures Flat(after, now) == Flat(lists, was)
  {
    if was != [] {
      var n := |was| - 1;
      RenamedFlat(lists, after, name, given, was[..n], now[..n]);
      RenamedSiblings(lists, after, name, given, Some(was[n]));
    }
  }

  lemma RenamedFolderOrder(lists: Lists, after: Lists, name: string, given: string)
    requires OnlyRenamed(lists, after, name, given)
    ensures |FolderOrder(after)| == |FolderOrder(lists)|
    ensures forall k :: 0 <= k < |FolderOrder(lists)| ==>
              Some(FolderOrder(after)[k]) == Renamed(Some(FolderOrder(lists)[k]), name, given)
  {
    RenamedNames(lists, after, name, given, |lists|);
    RenamedKeys(lists, after, name, given);
    var keys := FolderKeys(lists, Names(lists, |lists|));
    forall k | 0 <= k < |FolderOrder(lists)|
      ensures Some(FolderOrder(after)[k]) == Renamed(Some(FolderOrder(lists)[k]), name, given)
    {
      var at := Order(keys)[k];
      assert FolderOrder(lists)[k] == Names(lists, |lists|)[at] && FolderOrder(after)[k] == Names(after, |after|)[at];
    }
  }

  lemma RenamedSorted(lists: Lists, after: Lists, name: string, given: string)
    requires OnlyRenamed(lists, after, name, given)
    ensures Sorted(after) == Sorted(lists)
  {
    RenamedFolderOrder(lists, after, name, given);
    var was := FolderOrder(lists);
    FolderOrderIs(lists);
    forall k | 0 <= k < |was| ensures was[k] == given ==> given == name {
      assert was[k] in was;
    }
    RenamedFlat(lists, after, name, given, was, FolderOrder(after));
    RenamedSiblings(lists, after, name, given, None);
  }

  /** A rename changes neither which lists are together nor the order anything is shown in. */
  lemma RenameKeepsOrder(lists: Lists, folder: string, newName: string, lower: string -> string, plan: seq<Change>)
    requires Rename(lists, folder, newName, lower) == Ok(plan)
    ensures Sorted(Apply(lists, plan)) == Sorted(lists)
    ensures forall i, j :: 0 <= i < |lists| && 0 <= j < |lists| ==>
              (Folder(Apply(lists, plan)[i]) == Folder(Apply(lists, plan)[j]) <==> Folder(lists[i]) == Folder(lists[j]))
  {
    var name, given := RenameShape(lists, folder, newName, lower, plan);
    var after := Apply(lists, plan);
    assert OnlyRenamed(lists, after, name, given);
    RenamedSorted(lists, after, name, given);
    forall i, j | 0 <= i < |lists| && 0 <= j < |lists|
      ensures Folder(after[i]) == Folder(after[j]) <==> Folder(lists[i]) == Folder(lists[j])
    {
      NotTaken(lists, after, name, given, i);
      NotTaken(lists, after, name, given, j);
    }
  }

  lemma RenameKeepsCommon(lists: Lists, folder: string, newName: string, lower: string -> string, plan: seq<Change>)
    requires Common(lists) && Rename(lists, folder, newName, lower) == Ok(plan)
    ensures Common(Apply(lists, plan))
  {
    var name, given := RenameShape(lists, folder, newName, lower, plan);
    RenameKeepsOrder(lists, folder, newName, lower, plan);
  }

  // ----- Commands -----

  datatype Command =
    | MoveTo(targets: seq<nat>, into: Option<string>)
    | PutList(list: nat, sibling: nat, before: bool)
    | RenameFolder(folder: string, newName: string)
    | DeleteFolder(folder: string)
    | PutFolder(folder: string, anchor: string, before: bool)

  /** The lists a command names are cached, each once. */
  ghost predicate OnCached(lists: Lists, c: Command)
  {
    match c
    case MoveTo(targets, _) => Distinct(targets) && forall k :: 0 <= k < |targets| ==> targets[k] < |lists|
    case PutList(list, anchor, _) => list < |lists| && anchor < |lists|
    case _ => true
  }

  ghost function PlanOf(lists: Lists, c: Command, lower: string -> string): Result<seq<Change>, Error>
    requires OnCached(lists, c)
  {
    match c
    case MoveTo(targets, folder) => MoveLists(lists, targets, folder, lower)
    case PutList(list, anchor, before) => OrderList(lists, list, anchor, before)
    case RenameFolder(folder, newName) => Rename(lists, folder, newName, lower)
    case DeleteFolder(folder) => Delete(lists, folder, lower)
    case PutFolder(folder, anchor, before) => OrderFolder(lists, folder, anchor, before, lower)
  }

  /** A command that is refused changes nothing. */
  ghost function Next(lists: Lists, c: Command, lower: string -> string): (r: Lists)
    requires OnCached(lists, c)
    ensures |r| == |lists|
  {
    match PlanOf(lists, c, lower)
    case Ok(plan) => Apply(lists, plan)
    case Err(_) => lists
  }

  lemma StepKeepsCommon(lists: Lists, c: Command, lower: string -> string)
    requires |lists| <= MAX && Common(lists) && OnCached(lists, c)
    ensures Common(Next(lists, c, lower))
  {
    if PlanOf(lists, c, lower).Ok? {
      var plan := PlanOf(lists, c, lower).value;
      match c {
        case MoveTo(targets, Some(typed)) => MoveInKeepsCommon(lists, targets, typed, lower, plan);
        case MoveTo(targets, None) => TakingOutKeepsCommon(lists, plan, targets);
        case PutList(list, anchor, before) => OrderListKeepsCommon(lists, list, anchor, before, plan);
        case RenameFolder(folder, newName) => RenameKeepsCommon(lists, folder, newName, lower, plan);
        case DeleteFolder(folder) =>
          var name := Find(FolderOrder(lists), folder, lower).value;
          SiblingsAre(lists, Some(name));
          TakingOutKeepsCommon(lists, plan, Siblings(lists, Some(name)));
        case PutFolder(folder, anchor, before) => OrderFolderKeepsCommon(lists, folder, anchor, before, lower, plan);
      }
    }
  }

  // ----- Finding a folder whatever the order -----

  /** `wanted` is a folder's own spelling, or only one folder's name ignoring case. */
  ghost predicate Unambiguous(names: seq<string>, wanted: string, lower: string -> string)
  {
    || Trim(wanted) in names
    || forall a, b :: a in names && b in names && lower(a) == lower(Trim(wanted)) && lower(b) == lower(Trim(wanted)) ==> a == b
  }

  ghost predicate Reordered(names: seq<string>, other: seq<string>)
  {
    Distinct(other) && forall name :: name in other <==> name in names
  }

  /** A name finds the same folder in every order exactly when it is unambiguous. */
  lemma FindIgnoresOrder(names: seq<string>, wanted: string, lower: string -> string)
    requires Distinct(names)
    ensures Unambiguous(names, wanted, lower) <==>
            forall other :: Reordered(names, other) ==> Find(other, wanted, lower) == Find(names, wanted, lower)
  {
    if Unambiguous(names, wanted, lower) {
      forall other | Reordered(names, other) ensures Find(other, wanted, lower) == Find(names, wanted, lower) {
        FindsTheSame(names, other, wanted, lower);
      }
    } else {
      var first := Find(names, wanted, lower).value;
      var a, b :| a in names && b in names && lower(a) == lower(Trim(wanted)) && lower(b) == lower(Trim(wanted)) && a != b;
      var second := if a == first then b else a;
      var other := [second] + Without(names, second);
      assert Reordered(names, other);
      assert Find(other, wanted, lower) == Some(second);
    }
  }

  lemma FindsTheSame(names: seq<string>, other: seq<string>, wanted: string, lower: string -> string)
    requires Unambiguous(names, wanted, lower) && Reordered(names, other)
    ensures Find(other, wanted, lower) == Find(names, wanted, lower)
  {
  }

  /** So planning the same move of a folder again writes nothing, when both names are unambiguous. */
  lemma OrderFolderAgain(
    lists: Lists, folder: string, anchor: string, before: bool, lower: string -> string, plan: seq<Change>)
    requires |lists| <= MAX && OrderFolder(lists, folder, anchor, before, lower) == Ok(plan)
    requires Unambiguous(FolderOrder(lists), folder, lower) && Unambiguous(FolderOrder(lists), anchor, lower)
    ensures OrderFolder(Apply(lists, plan), folder, anchor, before, lower) == Ok([])
  {
    var moving, other := OrderFolderIsRight(lists, folder, anchor, before, lower, plan);
    FolderOrderIs(lists);
    PlacedIn(FolderOrder(lists), moving, other, before);
    var now := FolderOrder(Apply(lists, plan));
    assert Reordered(FolderOrder(lists), now);
    FindsTheSame(FolderOrder(lists), now, folder, lower);
    FindsTheSame(FolderOrder(lists), now, anchor, lower);
    OrderFolderIsMinimal(lists, folder, anchor, before, lower, plan);
  }

  /**
   For any names: planning the same move again is empty exactly when the
   folders the names find in the new order stand next to each other in it.
   */
  lemma OrderFolderAgainExactly(
    lists: Lists, folder: string, anchor: string, before: bool, lower: string -> string, plan: seq<Change>)
    requires |lists| <= MAX && OrderFolder(lists, folder, anchor, before, lower) == Ok(plan)
    ensures var now := FolderOrder(Apply(lists, plan));
            var moving, other := Find(now, folder, lower), Find(now, anchor, lower);
            OrderFolder(Apply(lists, plan), folder, anchor, before, lower) == Ok([]) <==>
              moving.Some? && other.Some? && moving.value != other.value && NextTo(now, moving.value, other.value, before)
  {
    var after := Apply(lists, plan);
    var now := FolderOrder(after);
    var moving, other := Find(now, folder, lower), Find(now, anchor, lower);
    if OrderFolder(after, folder, anchor, before, lower) == Ok([]) {
      var _, _ := OrderFolderIsRight(after, folder, anchor, before, lower, []);
      assert Apply(after, []) == after;
    } else if moving.Some? && other.Some? && moving.value != other.value && NextTo(now, moving.value, other.value, before) {
      FolderOrderIs(after);
      PlaceAdjacent(now, moving.value, other.value, before);
      NumberedInOrder(lists, folder, anchor, before, lower, plan);
      AlreadyInOrder(after, now);
    }
  }

  /** After the move, each folder's lists carry its place. */
  lemma NumberedInOrder(
    lists: Lists, folder: string, anchor: string, before: bool, lower: string -> string, plan: seq<Change>)
    requires |lists| <= MAX && OrderFolder(lists, folder, anchor, before, lower) == Ok(plan)
    ensures Numbered(Apply(lists, plan), FolderOrder(Apply(lists, plan)))
  {
    var after := Apply(lists, plan);
    var moving, other, placed, numbers := OrderFolderShape(lists, folder, anchor, before, lower, plan);
    var _, _ := OrderFolderIsRight(lists, folder, anchor, before, lower, plan);
    forall i | 0 <= i < |lists| ensures Get(after[i], FOLDER) == Get(lists[i], FOLDER) {
      OtherFieldsStay(lists, FOLDER_ORDER, numbers, i, FOLDER);
    }
    AllRenumbered(lists, after, placed, numbers);
  }

  ghost predicate Numbered(lists: Lists, names: seq<string>)
  {
    forall i, k :: 0 <= i < |lists| && 0 <= k < |names| && Folder(lists[i]) == Some(names[k]) ==>
      Integer(Get(lists[i], FOLDER_ORDER)) == Some(k + 1)
  }

  lemma AlreadyInOrder(lists: Lists, names: seq<string>)
    requires |lists| <= MAX && |names| <= |lists| && Distinct(names) && Numbered(lists, names)
    ensures var numbers := FolderNumbers(lists, names);
            Renumber(lists, FOLDER_ORDER, numbers, |numbers|) == []
  {
    var numbers := FolderNumbers(lists, names);
    NumberedOnce(lists, names);
    NumbersMean(lists, names);
    MeansNumbering(lists, names, numbers);
    forall k | 0 <= k < |numbers| ensures Integer(Get(lists[numbers[k].list], FOLDER_ORDER)) == Some(numbers[k].rank) {
      assert Means(lists, names, |names|, numbers[k]);
    }
    AlreadyNumbered(lists, FOLDER_ORDER, numbers, |numbers|);
  }

  /**
   Of two folders told apart by case alone, one found by neither's spelling and
   put after the other: asked again, the name finds the other, which can't go
   next to itself.
   */
  lemma AmbiguousAgain(lists: Lists, a: string, b: string, wanted: string, lower: string -> string)
    requires |lists| <= MAX && FolderOrder(lists) == [a, b] && Trim(wanted) != a && Trim(wanted) != b
    requires lower(a) == lower(Trim(wanted)) && lower(b) == lower(Trim(wanted))
    ensures OrderFolder(lists, wanted, b, false, lower).Ok?
    ensures var plan := OrderFolder(lists, wanted, b, false, lower).value;
            OrderFolder(Apply(lists, plan), wanted, b, false, lower) == Err(NextToItself)
  {
    var names := FolderOrder(lists);
    FolderOrderIs(lists);
    assert names[0] == a && names[1] == b && b in names;
    InUseIsTrimmed(lists, b);
    assert Find(names, wanted, lower) == Some(a);
    var plan := OrderFolder(lists, wanted, b, false, lower).value;
    var moving, other := OrderFolderIsRight(lists, wanted, b, false, lower, plan);
    PutAfter(a, b);
    var now := FolderOrder(Apply(lists, plan));
    assert now == [b, a] && now[0] == b;
    assert Find(now, wanted, lower) == Some(b);
  }

  lemma PutAfter(a: string, b: string)
    requires a != b
    ensures Place([a, b], a, b, false) == [b, a]
  {
    assert [a, b][..1] == [a] && [a][..0] == [];
    assert Without([a], a) == [];
    assert Without([a, b], a) == [b];
  }

  /** There are such lists, whatever the two names. */
  lemma TwoFolders(a: string, b: string)
    requires a != b && Trim(a) == a && a != "" && Trim(b) == b && b != ""
    ensures FolderOrder([map[FOLDER := Text(a)], map[FOLDER := Text(b)]]) == [a, b]
  {
    var lists: Lists := [map[FOLDER := Text(a)], map[FOLDER := Text(b)]];
    assert Names(lists, 1) == [a];
    assert Names(lists, 2) == [a, b];
    var keys := FolderKeys(lists, [a, b]);
    NoNumber(lists, a);
    NoNumber(lists, b);
    assert keys == [MAX, MAX];
    assert 0 in [0, 1] && 1 in [0, 1];
    OnlyOrder(keys, [0, 1]);
  }

  lemma NoNumber(lists: Lists, name: string)
    requires forall i :: 0 <= i < |lists| ==> Integer(Get(lists[i], FOLDER_ORDER)) == None
    ensures FolderKey(lists, name) == MAX
  {
    var keys := Keys(lists, Members(lists, Some(name), |lists|), FOLDER_ORDER);
    if keys != [] {
      AllTheSame(keys, MAX);
    }
  }
}
