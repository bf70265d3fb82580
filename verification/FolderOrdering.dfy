/**
 Ordering plans are right: applying one and sorting again gives the old order
 with only the moved item in its new place. They write as little as that
 takes, and nothing the second time.
 */
module FolderOrdering {
  import opened Entities
  import opened Sequences
  import opened StableSort
  import opened Folders

  // ----- Placing -----

  ghost predicate NextTo<T>(s: seq<T>, moving: T, anchor: T, before: bool)
  {
    exists k :: 0 <= k < |s| - 1 && if before then s[k] == moving && s[k + 1] == anchor
                                    else s[k] == anchor && s[k + 1] == moving
  }

  lemma {:induction false} WithoutConcat<T(!new)>(a: seq<T>, b: seq<T>, x: T)
    ensures Without(a + b, x) == Without(a, x) + Without(b, x)
  {
    if b == [] {
      assert a + b == a;
    } else {
      var n := |b| - 1;
      assert (a + b)[..|a + b| - 1] == a + b[..n];
      WithoutConcat(a, b[..n], x);
    }
  }

  lemma WithoutMoving<T(!new)>(head: seq<T>, tail: seq<T>, x: T)
    requires x !in head && x !in tail
    ensures Without(head + [x] + tail, x) == head + tail
  {
    WithoutConcat(head + [x], tail, x);
    assert (head + [x])[..|head|] == head;
  }

  /** Where it is put: `anchor` is right after the gap, or right before it. */
  lemma PlaceIs<T(!new)>(items: seq<T>, moving: T, anchor: T, before: bool) returns (head: seq<T>, tail: seq<T>)
    requires moving in items && anchor in items && moving != anchor
    ensures head + tail == Without(items, moving) && Place(items, moving, anchor, before) == head + [moving] + tail
    ensures if before then tail != [] && tail[0] == anchor else head != [] && head[|head| - 1] == anchor
  {
    var rest := Without(items, moving);
    var found := IndexOf(rest, anchor);
    assert anchor in rest;
    var at := if before then found else found + 1;
    head, tail := rest[..at], rest[at..];
  }

  lemma InTheGap<T>(head: seq<T>, moving: T, tail: seq<T>, anchor: T, before: bool)
    requires if before then tail != [] && tail[0] == anchor else head != [] && head[|head| - 1] == anchor
    ensures NextTo(head + [moving] + tail, moving, anchor, before)
  {
    var s := head + [moving] + tail;
    if before {
      assert s[|head|] == moving && s[|head| + 1] == anchor;
    } else {
      assert s[|head| - 1] == anchor && s[|head| - 1 + 1] == moving;
    }
  }

  /** Nothing moves but `moving`, and it ends next to `anchor`: what decides the order. */
  lemma PlaceMoves<T(!new)>(items: seq<T>, moving: T, anchor: T, before: bool)
    requires Distinct(items) && moving in items && anchor in items && moving != anchor
    ensures var placed := Place(items, moving, anchor, before);
            && Without(placed, moving) == Without(items, moving) && NextTo(placed, moving, anchor, before)
            && |placed| == |items|
  {
    var head, tail := PlaceIs(items, moving, anchor, before);
    assert moving !in Without(items, moving);
    assert moving !in head && moving !in tail;
    WithoutMoving(head, tail, moving);
    InTheGap(head, moving, tail, anchor, before);
    WithoutLength(items, moving);
  }

  lemma {:induction false} WithoutLength<T(!new)>(s: seq<T>, x: T)
    requires Distinct(s)
    ensures |Without(s, x)| == if x in s then |s| - 1 else |s|
  {
    if s != [] {
      var n := |s| - 1;
      assert s == s[..n] + [s[n]];
      assert s[n] !in s[..n];
      WithoutLength(s[..n], x);
    }
  }

  /** Placed once, it is placed. */
  lemma PlaceTwice<T(!new)>(items: seq<T>, moving: T, anchor: T, before: bool)
    requires Distinct(items) && moving in items && anchor in items && moving != anchor
    ensures var placed := Place(items, moving, anchor, before);
            Place(placed, moving, anchor, before) == placed
  {
    PlaceMoves(items, moving, anchor, before);
    PlacedIn(items, moving, anchor, before);
  }

  lemma IndexIs<T>(s: seq<T>, at: nat, x: T)
    requires Distinct(s) && at < |s| && s[at] == x
    ensures IndexOf(s, x) == at
  {
    var found := IndexOf(s, x);
    assert s[found] == s[at];
  }

  lemma DistinctGap<T>(head: seq<T>, x: T, tail: seq<T>)
    requires Distinct(head + [x] + tail)
    ensures x !in head && x !in tail && Distinct(head + tail)
  {
    var s, rest := head + [x] + tail, head + tail;
    assert forall k :: 0 <= k < |head| ==> s[k] == head[k];
    assert forall k :: 0 <= k < |tail| ==> s[|head| + 1 + k] == tail[k];
    assert s[|head|] == x;
    forall i, j | 0 <= i < j < |rest| ensures rest[i] != rest[j] {
      assert s[if i < |head| then i else i + 1] != s[if j < |head| then j else j + 1];
    }
  }

  lemma PlaceInGap<T(!new)>(head: seq<T>, moving: T, tail: seq<T>, anchor: T, before: bool)
    requires Distinct(head + [moving] + tail)
    requires if before then tail != [] && tail[0] == anchor else head != [] && head[|head| - 1] == anchor
    ensures Place(head + [moving] + tail, moving, anchor, before) == head + [moving] + tail
  {
    DistinctGap(head, moving, tail);
    WithoutMoving(head, tail, moving);
    var rest := head + tail;
    IndexIs(rest, if before then |head| else |head| - 1, anchor);
    assert rest[..|head|] == head && rest[|head|..] == tail;
  }

  /** What is next to its anchor already stays where it is. */
  lemma PlaceAdjacent<T(!new)>(s: seq<T>, moving: T, anchor: T, before: bool)
    requires Distinct(s) && moving != anchor && NextTo(s, moving, anchor, before)
    ensures Place(s, moving, anchor, before) == s
  {
    var k :| 0 <= k < |s| - 1 && if before then s[k] == moving && s[k + 1] == anchor
                                 else s[k] == anchor && s[k + 1] == moving;
    var at := if before then k else k + 1;
    assert s == s[..at] + [moving] + s[at + 1..];
    PlaceInGap(s[..at], moving, s[at + 1..], anchor, before);
  }

  // ----- Renumbering -----

  ghost predicate NumbersOnce(numbers: seq<Ranked>)
  {
    forall j, k :: 0 <= j < k < |numbers| ==> numbers[j].list != numbers[k].list
  }

  ghost predicate Numbering(lists: Lists, numbers: seq<Ranked>)
  {
    && (forall k :: 0 <= k < |numbers| ==> numbers[k].list < |lists| && 1 <= numbers[k].rank <= MAX)
    && NumbersOnce(numbers)
  }

  /** A plan changes each list once at most, only of those numbered, and only if its number was another. */
  lemma {:induction false} RenumberShape(lists: Lists, field: Key, numbers: seq<Ranked>, n: nat)
    requires Numbering(lists, numbers) && n <= |numbers|
    ensures var plan := Renumber(lists, field, numbers, n);
            && OncePerList(plan)
            && (forall c :: c in plan ==>
                  exists k :: 0 <= k < n && c == Change(numbers[k].list, map[field := Number(numbers[k].rank)])
                              && Integer(Get(lists[numbers[k].list], field)) != Some(numbers[k].rank))
            && (forall k :: 0 <= k < n && Integer(Get(lists[numbers[k].list], field)) != Some(numbers[k].rank) ==>
                  Change(numbers[k].list, map[field := Number(numbers[k].rank)]) in plan)
  {
    if n > 0 {
      RenumberShape(lists, field, numbers, n - 1);
      var rest := Renumber(lists, field, numbers, n - 1);
      forall j | 0 <= j < |rest| ensures rest[j].list != numbers[n - 1].list {
        assert rest[j] in rest;
      }
    }
  }

  /** A list the plan doesn't number is as it was. */
  lemma UnnumberedStays(lists: Lists, field: Key, numbers: seq<Ranked>, i: nat)
    requires Numbering(lists, numbers) && i < |lists| && forall k :: 0 <= k < |numbers| ==> numbers[k].list != i
    ensures Apply(lists, Renumber(lists, field, numbers, |numbers|))[i] == lists[i]
  {
    var plan := Renumber(lists, field, numbers, |numbers|);
    RenumberShape(lists, field, numbers, |numbers|);
    forall k | 0 <= k < |plan| ensures plan[k].list != i {
      assert plan[k] in plan;
    }
    NoEffect(plan, |plan|, i, lists[i]);
  }

  /** A numbered list has its number, and its other fields as they were. */
  lemma Renumbered(lists: Lists, field: Key, numbers: seq<Ranked>, k: nat)
    requires Numbering(lists, numbers) && k < |numbers|
    ensures var after := Apply(lists, Renumber(lists, field, numbers, |numbers|))[numbers[k].list];
            && Integer(Get(after, field)) == Some(numbers[k].rank)
            && forall f: Key :: f != field ==> Get(after, f) == Get(lists[numbers[k].list], f)
  {
    var plan := Renumber(lists, field, numbers, |numbers|);
    var Ranked(i, number) := numbers[k];
    RenumberShape(lists, field, numbers, |numbers|);
    if Integer(Get(lists[i], field)) == Some(number) {
      NotInPlan(lists, plan, i);
    } else {
      var c := Change(i, map[field := Number(number)]);
      var j :| 0 <= j < |plan| && plan[j] == c;
      EffectIs(plan, |plan|, j, lists[i]);
      OneField(lists[i], field, Number(number));
    }
  }

  lemma NotInPlan(lists: Lists, plan: seq<Change>, i: nat)
    requires i < |lists| && forall c :: c in plan ==> c.list != i
    ensures Apply(lists, plan)[i] == lists[i]
  {
    forall j | 0 <= j < |plan| ensures plan[j].list != i {
      assert plan[j] in plan;
    }
    NoEffect(plan, |plan|, i, lists[i]);
  }

  lemma OneField(list: Entity, field: Key, value: Value)
    ensures forall f: Key :: Get(Merge(list, map[field := value]), f) == if f == field then value else Get(list, f)
  {
    forall f: Key ensures Get(Merge(list, map[field := value]), f) == if f == field then value else Get(list, f) {
      MergeReads(list, map[field := value], f);
    }
  }

  lemma NumberGiven(lists: Lists, field: Key, numbers: seq<Ranked>, k: nat, x: Ranked)
    requires Numbering(lists, numbers) && k < |numbers| && numbers[k] == x
    ensures x.list < |lists|
    ensures Integer(Get(Apply(lists, Renumber(lists, field, numbers, |numbers|))[x.list], field)) == Some(x.rank)
  {
    Renumbered(lists, field, numbers, k);
  }

  lemma OtherFieldsStay(lists: Lists, field: Key, numbers: seq<Ranked>, i: nat, f: Key)
    requires Numbering(lists, numbers) && i < |lists| && f != field
    ensures Get(Apply(lists, Renumber(lists, field, numbers, |numbers|))[i], f) == Get(lists[i], f)
  {
    if k :| 0 <= k < |numbers| && numbers[k].list == i {
      Renumbered(lists, field, numbers, k);
    } else {
      UnnumberedStays(lists, field, numbers, i);
    }
  }

  // ----- What the order depends on -----

  ghost predicate SameField(a: Lists, b: Lists, f: Key)
  {
    |a| == |b| && forall i :: 0 <= i < |a| ==> Get(a[i], f) == Get(b[i], f)
  }

  lemma {:induction false} SameMembers(a: Lists, b: Lists, folder: Option<string>, n: nat)
    requires SameField(a, b, FOLDER) && n <= |a|
    ensures Members(a, folder, n) == Members(b, folder, n)
  {
    if n > 0 {
      SameMembers(a, b, folder, n - 1);
      assert Get(a[n - 1], FOLDER) == Get(b[n - 1], FOLDER);
    }
  }

  lemma {:induction false} SameNames(a: Lists, b: Lists, n: nat)
    requires SameField(a, b, FOLDER) && n <= |a|
    ensures Names(a, n) == Names(b, n)
  {
    if n > 0 {
      SameNames(a, b, n - 1);
      assert Get(a[n - 1], FOLDER) == Get(b[n - 1], FOLDER);
    }
  }

  lemma SameKeys(a: Lists, b: Lists, members: seq<nat>, f: Key)
    requires |a| == |b| && forall k :: 0 <= k < |members| ==> members[k] < |a|
    requires forall k :: 0 <= k < |members| ==> Get(a[members[k]], f) == Get(b[members[k]], f)
    ensures Keys(a, members, f) == Keys(b, members, f)
  {
  }

  lemma SameSiblings(a: Lists, b: Lists, folder: Option<string>)
    requires SameField(a, b, FOLDER)
    requires forall i :: 0 <= i < |a| && Folder(a[i]) == folder ==> Get(a[i], ORDER) == Get(b[i], ORDER)
    ensures Siblings(a, folder) == Siblings(b, folder)
  {
    SameMembers(a, b, folder, |a|);
    MembersAre(a, folder, |a|);
    var members := Members(a, folder, |a|);
    forall k | 0 <= k < |members| ensures Get(a[members[k]], ORDER) == Get(b[members[k]], ORDER) {
      assert members[k] in members;
    }
    SameKeys(a, b, members, ORDER);
  }

  lemma SameFolderOrder(a: Lists, b: Lists)
    requires SameField(a, b, FOLDER) && SameField(a, b, FOLDER_ORDER)
    ensures FolderOrder(a) == FolderOrder(b)
  {
    SameNames(a, b, |a|);
    var names := Names(a, |a|);
    forall k | 0 <= k < |names| ensures FolderKey(a, names[k]) == FolderKey(b, names[k]) {
      SameMembers(a, b, Some(names[k]), |a|);
      SameKeys(a, b, Members(a, Some(names[k]), |a|), FOLDER_ORDER);
    }
    assert FolderKeys(a, names) == FolderKeys(b, names);
  }

  // ----- Ordering lists -----

  lemma CountedNumbers(lists: Lists, s: seq<nat>)
    requires |lists| <= MAX && Distinct(s) && forall k :: 0 <= k < |s| ==> s[k] < |lists|
    ensures Numbering(lists, Counted(s))
  {
    Pigeonhole(s, |lists|);
  }

  /** What `order_list` does, when it does. */
  lemma OrderListShape(lists: Lists, list: nat, anchor: nat, before: bool, plan: seq<Change>)
    returns (placed: seq<nat>)
    requires |lists| <= MAX && list < |lists| && anchor < |lists|
    requires OrderList(lists, list, anchor, before) == Ok(plan)
    ensures var siblings := Siblings(lists, Folder(lists[list]));
            && placed == Place(siblings, list, anchor, before) && Distinct(siblings) && Distinct(placed)
            && list in siblings && anchor in siblings && list != anchor
            && (forall i :: i in placed <==> i in siblings) && |placed| == |siblings|
    ensures Numbering(lists, Counted(placed))
    ensures plan == Renumber(lists, ORDER, Counted(placed), |placed|)
  {
    var siblings := Siblings(lists, Folder(lists[list]));
    SiblingsAre(lists, Folder(lists[list]));
    PlacedIn(siblings, list, anchor, before);
    PlaceMoves(siblings, list, anchor, before);
    placed := Place(siblings, list, anchor, before);
    forall k | 0 <= k < |placed| ensures placed[k] < |lists| {
      assert placed[k] in siblings;
    }
    CountedNumbers(lists, placed);
  }

  lemma NumbersSiblings(lists: Lists, after: Lists, folder: Option<string>, placed: seq<nat>)
    requires SameField(lists, after, FOLDER) && |lists| <= MAX && Distinct(placed)
    requires |placed| == |Siblings(lists, folder)| && forall i :: i in placed <==> i in Siblings(lists, folder)
    requires forall k :: 0 <= k < |placed| ==> placed[k] < |after| && Integer(Get(after[placed[k]], ORDER)) == Some(k + 1)
    ensures Siblings(after, folder) == placed
  {
    SiblingsAre(lists, folder);
    SameMembers(lists, after, folder, |lists|);
    var members := Members(after, folder, |after|);
    MembersAre(after, folder, |after|);
    NumbersMembers(after, members, placed);
    forall x | x in placed ensures x in members {
      assert x in Siblings(lists, folder);
    }
    NumberedIsSorted(members, Keys(after, members, ORDER), placed);
  }

  /** The numbers are the members' keys. */
  lemma NumbersMembers(lists: Lists, members: seq<nat>, placed: seq<nat>)
    requires (forall k :: 0 <= k < |members| ==> members[k] < |lists|) && forall x :: x in members ==> x in placed
    requires forall k :: 0 <= k < |placed| ==> placed[k] < |lists| && Integer(Get(lists[placed[k]], ORDER)) == Some(k + 1)
    ensures var keys := Keys(lists, members, ORDER);
            forall k :: 0 <= k < |members| ==> 1 <= keys[k] <= |placed| && placed[keys[k] - 1] == members[k]
  {
    var keys := Keys(lists, members, ORDER);
    forall k | 0 <= k < |members| ensures 1 <= keys[k] <= |placed| && placed[keys[k] - 1] == members[k] {
      assert members[k] in placed;
      var j :| 0 <= j < |placed| && placed[j] == members[k];
      assert keys[k] == j + 1;
    }
  }

  /**
   Put next to its anchor: sorted again, the folder's lists are the old order
   with only `list` moved, right before or after `anchor`, and every other
   folder, and the folders' own order, are as they were.
   */
  lemma OrderListIsRight(lists: Lists, list: nat, anchor: nat, before: bool, plan: seq<Change>)
    requires |lists| <= MAX && list < |lists| && anchor < |lists|
    requires OrderList(lists, list, anchor, before) == Ok(plan)
    ensures var after, folder := Apply(lists, plan), Folder(lists[list]);
            var was, now := Siblings(lists, folder), Siblings(after, folder);
            && Without(now, list) == Without(was, list) && NextTo(now, list, anchor, before)
            && now == Place(was, list, anchor, before)
            && (forall other :: other != folder ==> Siblings(after, other) == Siblings(lists, other))
            && FolderOrder(after) == FolderOrder(lists)
  {
    var placed := OrderListShape(lists, list, anchor, before, plan);
    var after, folder := Apply(lists, plan), Folder(lists[list]);
    PlaceMoves(Siblings(lists, folder), list, anchor, before);
    OnlyOrderChanges(lists, after, placed);
    SameFolderOrder(lists, after);
    ListsEndPlaced(lists, after, folder, placed);
    SiblingsAre(lists, folder);
    forall other | other != folder ensures Siblings(after, other) == Siblings(lists, other) {
      OtherFolderStays(lists, after, placed, folder, other);
    }
  }

  lemma OnlyOrderChanges(lists: Lists, after: Lists, placed: seq<nat>)
    requires Numbering(lists, Counted(placed))
    requires after == Apply(lists, Renumber(lists, ORDER, Counted(placed), |placed|))
    ensures SameField(lists, after, FOLDER) && SameField(lists, after, FOLDER_ORDER)
  {
    forall i | 0 <= i < |lists|
      ensures Get(after[i], FOLDER) == Get(lists[i], FOLDER) && Get(after[i], FOLDER_ORDER) == Get(lists[i], FOLDER_ORDER)
    {
      OtherFieldsStay(lists, ORDER, Counted(placed), i, FOLDER);
      OtherFieldsStay(lists, ORDER, Counted(placed), i, FOLDER_ORDER);
    }
  }

  lemma ListsEndPlaced(lists: Lists, after: Lists, folder: Option<string>, placed: seq<nat>)
    requires SameField(lists, after, FOLDER) && |lists| <= MAX && Distinct(placed) && Numbering(lists, Counted(placed))
    requires |placed| == |Siblings(lists, folder)| && forall i :: i in placed <==> i in Siblings(lists, folder)
    requires after == Apply(lists, Renumber(lists, ORDER, Counted(placed), |placed|))
    ensures Siblings(after, folder) == placed
  {
    PlacesGiven(lists, after, placed);
    NumbersSiblings(lists, after, folder, placed);
  }

  lemma PlacesGiven(lists: Lists, after: Lists, placed: seq<nat>)
    requires Numbering(lists, Counted(placed))
    requires after == Apply(lists, Renumber(lists, ORDER, Counted(placed), |placed|))
    ensures forall k :: 0 <= k < |placed| ==> placed[k] < |after| && Integer(Get(after[placed[k]], ORDER)) == Some(k + 1)
  {
    var numbers := Counted(placed);
    forall k | 0 <= k < |placed| ensures placed[k] < |after| && Integer(Get(after[placed[k]], ORDER)) == Some(k + 1) {
      assert numbers[k] == Ranked(placed[k], k + 1);
      Renumbered(lists, ORDER, numbers, k);
    }
  }

  lemma OtherFolderStays(lists: Lists, after: Lists, placed: seq<nat>, folder: Option<string>, other: Option<string>)
    requires SameField(lists, after, FOLDER) && folder != other && Numbering(lists, Counted(placed))
    requires after == Apply(lists, Renumber(lists, ORDER, Counted(placed), |placed|))
    requires forall i :: i in placed ==> i in Siblings(lists, folder)
    ensures Siblings(after, other) == Siblings(lists, other)
  {
    SiblingsAre(lists, folder);
    forall i | 0 <= i < |lists| && Folder(lists[i]) == other ensures Get(lists[i], ORDER) == Get(after[i], ORDER) {
      NotPlacedStays(lists, placed, i);
    }
    SameSiblings(lists, after, other);
  }

  lemma NotPlacedStays(lists: Lists, placed: seq<nat>, i: nat)
    requires Numbering(lists, Counted(placed)) && i < |lists| && i !in placed
    ensures Apply(lists, Renumber(lists, ORDER, Counted(placed), |placed|))[i] == lists[i]
  {
    var numbers := Counted(placed);
    forall k | 0 <= k < |numbers| ensures numbers[k].list != i {
      assert placed[k] in placed && numbers[k] == Ranked(placed[k], k + 1);
    }
    UnnumberedStays(lists, ORDER, numbers, i);
  }

  /** Only a list whose number changes is written, and planning again writes nothing. */
  lemma OrderListIsMinimal(lists: Lists, list: nat, anchor: nat, before: bool, plan: seq<Change>)
    requires |lists| <= MAX && list < |lists| && anchor < |lists|
    requires OrderList(lists, list, anchor, before) == Ok(plan)
    ensures forall c :: c in plan ==> c.list < |lists| && Integer(Get(Apply(lists, plan)[c.list], ORDER)) != Integer(Get(lists[c.list], ORDER))
    ensures OrderList(Apply(lists, plan), list, anchor, before) == Ok([])
  {
    var placed := OrderListShape(lists, list, anchor, before, plan);
    var after, numbers := Apply(lists, plan), Counted(placed);
    RenumberShape(lists, ORDER, numbers, |numbers|);
    forall c | c in plan
      ensures c.list < |lists| && Integer(Get(after[c.list], ORDER)) != Integer(Get(lists[c.list], ORDER))
    {
      var k :| 0 <= k < |numbers| && c == Change(numbers[k].list, map[ORDER := Number(numbers[k].rank)])
               && Integer(Get(lists[numbers[k].list], ORDER)) != Some(numbers[k].rank);
      Renumbered(lists, ORDER, numbers, k);
    }
    OrderListAgain(lists, list, anchor, before, plan, placed);
  }

  lemma OrderListAgain(lists: Lists, list: nat, anchor: nat, before: bool, plan: seq<Change>, placed: seq<nat>)
    requires |lists| <= MAX && list < |lists| && anchor < |lists|
    requires OrderList(lists, list, anchor, before) == Ok(plan)
    requires placed == Place(Siblings(lists, Folder(lists[list])), list, anchor, before)
    requires Numbering(lists, Counted(placed)) && plan == Renumber(lists, ORDER, Counted(placed), |placed|)
    ensures OrderList(Apply(lists, plan), list, anchor, before) == Ok([])
  {
    var after := Apply(lists, plan);
    PlacedAgain(lists, list, anchor, before, plan, placed);
    NothingToRenumber(lists, after, placed);
    AlreadyPlaced(after, list, anchor, before, placed);
  }

  /** The plan made, the folder's lists stand as placed, and placing again changes nothing. */
  lemma PlacedAgain(lists: Lists, list: nat, anchor: nat, before: bool, plan: seq<Change>, placed: seq<nat>)
    requires |lists| <= MAX && list < |lists| && anchor < |lists|
    requires OrderList(lists, list, anchor, before) == Ok(plan)
    requires placed == Place(Siblings(lists, Folder(lists[list])), list, anchor, before)
    requires Numbering(lists, Counted(placed)) && plan == Renumber(lists, ORDER, Counted(placed), |placed|)
    ensures var after := Apply(lists, plan);
            && list != anchor && Folder(after[list]) == Folder(after[anchor])
            && Siblings(after, Folder(after[list])) == placed && Place(placed, list, anchor, before) == placed
  {
    var after, folder := Apply(lists, plan), Folder(lists[list]);
    OrderListIsRight(lists, list, anchor, before, plan);
    OnlyOrderChanges(lists, after, placed);
    SiblingsAre(lists, folder);
    PlaceTwice(Siblings(lists, folder), list, anchor, before);
  }

  /** Lists that are already placed and numbered so need no plan. */
  lemma AlreadyPlaced(lists: Lists, list: nat, anchor: nat, before: bool, placed: seq<nat>)
    requires list < |lists| && anchor < |lists| && list != anchor && Folder(lists[list]) == Folder(lists[anchor])
    requires Siblings(lists, Folder(lists[list])) == placed && Place(placed, list, anchor, before) == placed
    requires Numbering(lists, Counted(placed)) && Renumber(lists, ORDER, Counted(placed), |placed|) == []
    ensures OrderList(lists, list, anchor, before) == Ok([])
  {
  }

  /** Once numbered as placed, nothing is numbered again. */
  lemma NothingToRenumber(lists: Lists, after: Lists, placed: seq<nat>)
    requires Numbering(lists, Counted(placed)) && after == Apply(lists, Renumber(lists, ORDER, Counted(placed), |placed|))
    ensures Numbering(after, Counted(placed)) && Renumber(after, ORDER, Counted(placed), |placed|) == []
  {
    var numbers := Counted(placed);
    forall k | 0 <= k < |numbers| ensures Integer(Get(after[numbers[k].list], ORDER)) == Some(numbers[k].rank) {
      NumberGiven(lists, ORDER, numbers, k, numbers[k]);
    }
    AlreadyNumbered(after, ORDER, numbers, |numbers|);
  }

  lemma {:induction false} AlreadyNumbered(lists: Lists, field: Key, numbers: seq<Ranked>, n: nat)
    requires Numbering(lists, numbers) && n <= |numbers|
    requires forall k :: 0 <= k < |numbers| ==> Integer(Get(lists[numbers[k].list], field)) == Some(numbers[k].rank)
    ensures Renumber(lists, field, numbers, n) == []
  {
    if n > 0 {
      AlreadyNumbered(lists, field, numbers, n - 1);
    }
  }

  // ----- Ordering folders -----

  /** `x` is a list with its folder's place among the first `n` of `names`. */
  ghost predicate Means(lists: Lists, names: seq<string>, n: nat, x: Ranked)
  {
    x.list < |lists| && 1 <= x.rank <= n <= |names| && Folder(lists[x.list]) == Some(names[x.rank - 1])
  }

  ghost predicate AllMean(lists: Lists, names: seq<string>, n: nat, numbers: seq<Ranked>)
  {
    forall k :: 0 <= k < |numbers| ==> Means(lists, names, n, numbers[k])
  }

  lemma MeanOneMore(lists: Lists, names: seq<string>, n: nat, rest: seq<Ranked>, siblings: seq<nat>)
    requires 0 < n <= |names| && AllMean(lists, names, n - 1, rest)
    requires forall k :: 0 <= k < |siblings| ==> siblings[k] < |lists| && Folder(lists[siblings[k]]) == Some(names[n - 1])
    ensures AllMean(lists, names, n, rest + Given(siblings, n))
  {
    var numbers := rest + Given(siblings, n);
    forall k | 0 <= k < |numbers| ensures Means(lists, names, n, numbers[k]) {
      if k < |rest| {
        assert numbers[k] == rest[k] && Means(lists, names, n - 1, rest[k]);
      } else {
        assert numbers[k] == Ranked(siblings[k - |rest|], n);
      }
    }
  }

  /** The lists of the folder `name`, each once. */
  ghost predicate GroupFits(lists: Lists, name: string, group: seq<nat>)
  {
    Distinct(group) && forall i :: i in group <==> 0 <= i < |lists| && Folder(lists[i]) == Some(name)
  }

  ghost predicate GroupsFit(lists: Lists, names: seq<string>, groups: seq<seq<nat>>)
  {
    |groups| == |names| && forall k :: 0 <= k < |groups| ==> GroupFits(lists, names[k], groups[k])
  }

  lemma ListsFit(lists: Lists, names: seq<string>)
    ensures GroupsFit(lists, names, ListsOf(lists, names))
  {
    var groups := ListsOf(lists, names);
    forall k | 0 <= k < |groups| ensures GroupFits(lists, names[k], groups[k]) {
      SiblingsAre(lists, Some(names[k]));
    }
  }

  lemma InGroup(lists: Lists, name: string, group: seq<nat>)
    requires GroupFits(lists, name, group)
    ensures forall k :: 0 <= k < |group| ==> group[k] < |lists| && Folder(lists[group[k]]) == Some(name)
  {
    forall k | 0 <= k < |group| ensures group[k] < |lists| && Folder(lists[group[k]]) == Some(name) {
      assert group[k] in group;
    }
  }

  lemma {:induction false} RanksMean(lists: Lists, names: seq<string>, groups: seq<seq<nat>>, n: nat)
    requires n <= |groups| && GroupsFit(lists, names, groups)
    ensures AllMean(lists, names, n, Ranks(groups, n))
  {
    if n > 0 {
      RanksMean(lists, names, groups, n - 1);
      assert GroupFits(lists, names[n - 1], groups[n - 1]);
      InGroup(lists, names[n - 1], groups[n - 1]);
      MeanOneMore(lists, names, n, Ranks(groups, n - 1), groups[n - 1]);
    }
  }

  lemma NumbersMean(lists: Lists, names: seq<string>)
    ensures AllMean(lists, names, |names|, FolderNumbers(lists, names))
  {
    ListsFit(lists, names);
    RanksMean(lists, names, ListsOf(lists, names), |names|);
  }

  lemma MeansNumbering(lists: Lists, names: seq<string>, numbers: seq<Ranked>)
    requires NumbersOnce(numbers) && AllMean(lists, names, |names|, numbers) && |names| <= MAX
    ensures Numbering(lists, numbers)
  {
    forall k | 0 <= k < |numbers| ensures numbers[k].list < |lists| && 1 <= numbers[k].rank <= MAX {
      assert Means(lists, names, |names|, numbers[k]);
    }
  }

  lemma {:induction false} RanksOnce(lists: Lists, names: seq<string>, groups: seq<seq<nat>>, n: nat)
    requires n <= |groups| && GroupsFit(lists, names, groups) && Distinct(names)
    ensures NumbersOnce(Ranks(groups, n))
  {
    if n > 0 {
      RanksOnce(lists, names, groups, n - 1);
      RanksMean(lists, names, groups, n - 1);
      assert GroupFits(lists, names[n - 1], groups[n - 1]);
      InGroup(lists, names[n - 1], groups[n - 1]);
      OtherGroup(lists, names, n, Ranks(groups, n - 1), groups[n - 1]);
      OnceMore(Ranks(groups, n - 1), groups[n - 1], n);
    }
  }

  /** A list of an earlier folder is none of the next folder's. */
  lemma OtherGroup(lists: Lists, names: seq<string>, n: nat, rest: seq<Ranked>, group: seq<nat>)
    requires 0 < n <= |names| && Distinct(names) && AllMean(lists, names, n - 1, rest)
    requires forall k :: 0 <= k < |group| ==> group[k] < |lists| && Folder(lists[group[k]]) == Some(names[n - 1])
    ensures forall j, k :: 0 <= j < |rest| && 0 <= k < |group| ==> rest[j].list != group[k]
  {
    forall j, k | 0 <= j < |rest| && 0 <= k < |group| ensures rest[j].list != group[k] {
      assert Means(lists, names, n - 1, rest[j]) && names[rest[j].rank - 1] != names[n - 1];
    }
  }

  lemma NumberedOnce(lists: Lists, names: seq<string>)
    requires Distinct(names)
    ensures NumbersOnce(FolderNumbers(lists, names))
  {
    ListsFit(lists, names);
    RanksOnce(lists, names, ListsOf(lists, names), |names|);
  }

  lemma OnceMore(rest: seq<Ranked>, siblings: seq<nat>, n: int)
    requires NumbersOnce(rest) && Distinct(siblings)
    requires forall j, k :: 0 <= j < |rest| && 0 <= k < |siblings| ==> rest[j].list != siblings[k]
    ensures NumbersOnce(rest + Given(siblings, n))
  {
  }

  lemma {:induction false} RankOf(groups: seq<seq<nat>>, n: nat, i: nat, k: nat) returns (j: nat)
    requires k < n <= |groups| && i in groups[k]
    ensures j < |Ranks(groups, n)| && Ranks(groups, n)[j] == Ranked(i, k + 1)
  {
    var rest := Ranks(groups, n - 1);
    if k < n - 1 {
      j := RankOf(groups, n - 1, i, k);
      InFront(rest, groups[n - 1], n, j);
    } else {
      var at :| 0 <= at < |groups[k]| && groups[k][at] == i;
      j := |rest| + at;
      Behind(rest, groups[k], n, at);
    }
  }

  lemma AllNumbered(lists: Lists, names: seq<string>, i: nat, k: nat) returns (j: nat)
    requires k < |names| && i < |lists| && Folder(lists[i]) == Some(names[k])
    ensures j < |FolderNumbers(lists, names)| && FolderNumbers(lists, names)[j] == Ranked(i, k + 1)
  {
    ListsFit(lists, names);
    assert GroupFits(lists, names[k], ListsOf(lists, names)[k]);
    j := RankOf(ListsOf(lists, names), |names|, i, k);
  }

  lemma InFront(rest: seq<Ranked>, siblings: seq<nat>, n: int, j: nat)
    requires j < |rest|
    ensures (rest + Given(siblings, n))[j] == rest[j]
  {
  }

  lemma Behind(rest: seq<Ranked>, siblings: seq<nat>, n: int, at: nat)
    requires at < |siblings|
    ensures |rest| + at < |rest + Given(siblings, n)|
    ensures (rest + Given(siblings, n))[|rest| + at] == Ranked(siblings[at], n)
  {
  }

  lemma FolderOrderIs(lists: Lists)
    ensures Distinct(FolderOrder(lists)) && |FolderOrder(lists)| <= |lists|
    ensures forall name :: name in FolderOrder(lists) <==> InUse(lists, name, |lists|)
  {
    var names := Names(lists, |lists|);
    NamesAre(lists, |lists|);
    SortKeeps(names, FolderKeys(lists, names));
  }

  /** The plan, with the folders found: what `order_folder` does once both names are. */
  lemma OrderFolderShape(
    lists: Lists, folder: string, anchor: string, before: bool, lower: string -> string, plan: seq<Change>)
    returns (moving: string, other: string, placed: seq<string>, numbers: seq<Ranked>)
    requires |lists| <= MAX && OrderFolder(lists, folder, anchor, before, lower) == Ok(plan)
    ensures Find(FolderOrder(lists), folder, lower) == Some(moving) && Find(FolderOrder(lists), anchor, lower) == Some(other)
    ensures moving != other && placed == Place(FolderOrder(lists), moving, other, before)
    ensures Distinct(FolderOrder(lists)) && Distinct(placed) && |placed| == |FolderOrder(lists)|
    ensures forall name :: name in placed <==> name in FolderOrder(lists)
    ensures numbers == FolderNumbers(lists, placed) && Numbering(lists, numbers)
    ensures plan == Renumber(lists, FOLDER_ORDER, numbers, |numbers|)
  {
    var names := FolderOrder(lists);
    moving, other := Find(names, folder, lower).value, Find(names, anchor, lower).value;
    placed := Place(names, moving, other, before);
    numbers := FolderNumbers(lists, placed);
    FolderOrderIs(lists);
    PlacedIn(names, moving, other, before);
    PlaceMoves(names, moving, other, before);
    NumberedOnce(lists, placed);
    NumbersMean(lists, placed);
    MeansNumbering(lists, placed, numbers);
  }

  lemma {:induction false} AllTheSame(keys: seq<int>, key: int)
    requires keys != [] && key <= MAX && forall k :: 0 <= k < |keys| ==> keys[k] == key
    ensures Smallest(keys) == key
  {
    if |keys| > 1 {
      AllTheSame(keys[..|keys| - 1], key);
    }
  }

  /** A folder all of whose lists carry `number` sorts by it. */
  lemma FolderKeyIs(lists: Lists, name: string, number: int)
    requires InUse(lists, name, |lists|) && number <= MAX
    requires forall i :: 0 <= i < |lists| && Folder(lists[i]) == Some(name) ==> Integer(Get(lists[i], FOLDER_ORDER)) == Some(number)
    ensures FolderKey(lists, name) == number
  {
    var members := Members(lists, Some(name), |lists|);
    MembersAre(lists, Some(name), |lists|);
    var i :| 0 <= i < |lists| && Folder(lists[i]) == Some(name);
    assert i in members;
    var keys := Keys(lists, members, FOLDER_ORDER);
    forall k | 0 <= k < |members| ensures keys[k] == number {
      assert members[k] in members;
    }
    AllTheSame(Keys(lists, members, FOLDER_ORDER), number);
  }

  lemma NumbersFolders(after: Lists, placed: seq<string>)
    requires |placed| <= MAX && Distinct(placed) && |placed| == |Names(after, |after|)|
    requires forall name :: name in placed <==> name in Names(after, |after|)
    requires forall i, k :: 0 <= i < |after| && 0 <= k < |placed| && Folder(after[i]) == Some(placed[k]) ==>
               Integer(Get(after[i], FOLDER_ORDER)) == Some(k + 1)
    ensures FolderOrder(after) == placed
  {
    var names := Names(after, |after|);
    NamesAre(after, |after|);
    var keys := FolderKeys(after, names);
    forall k | 0 <= k < |names| ensures 1 <= keys[k] <= |placed| && placed[keys[k] - 1] == names[k] {
      assert names[k] in placed;
      var j :| 0 <= j < |placed| && placed[j] == names[k];
      FolderKeyIs(after, names[k], j + 1);
    }
    NumberedIsSorted(names, keys, placed);
  }

  lemma FoldersRenumbered(lists: Lists, placed: seq<string>, numbers: seq<Ranked>, i: nat, k: nat)
    requires Distinct(placed) && numbers == FolderNumbers(lists, placed) && Numbering(lists, numbers)
    requires i < |lists| && k < |placed| && Folder(lists[i]) == Some(placed[k])
    ensures Integer(Get(Apply(lists, Renumber(lists, FOLDER_ORDER, numbers, |numbers|))[i], FOLDER_ORDER)) == Some(k + 1)
  {
    var j := AllNumbered(lists, placed, i, k);
    NumberGiven(lists, FOLDER_ORDER, numbers, j, Ranked(i, k + 1));
  }

  /**
   Put next to its anchor: sorted again, the folders are in the old order with
   only the one moved, and each folder's lists, and those in none, as they were.
   */
  lemma OrderFolderIsRight(
    lists: Lists, folder: string, anchor: string, before: bool, lower: string -> string, plan: seq<Change>)
    returns (moving: string, other: string)
    requires |lists| <= MAX && OrderFolder(lists, folder, anchor, before, lower) == Ok(plan)
    ensures Find(FolderOrder(lists), folder, lower) == Some(moving) && Find(FolderOrder(lists), anchor, lower) == Some(other)
    ensures var was, now := FolderOrder(lists), FolderOrder(Apply(lists, plan));
            && Without(now, moving) == Without(was, moving) && NextTo(now, moving, other, before)
            && now == Place(was, moving, other, before) && moving != other
    ensures forall f :: Siblings(Apply(lists, plan), f) == Siblings(lists, f)
  {
    var placed, numbers;
    moving, other, placed, numbers := OrderFolderShape(lists, folder, anchor, before, lower, plan);
    var after := Apply(lists, plan);
    PlaceMoves(FolderOrder(lists), moving, other, before);
    forall i | 0 <= i < |lists|
      ensures Get(after[i], FOLDER) == Get(lists[i], FOLDER) && Get(after[i], ORDER) == Get(lists[i], ORDER)
    {
      OtherFieldsStay(lists, FOLDER_ORDER, numbers, i, FOLDER);
      OtherFieldsStay(lists, FOLDER_ORDER, numbers, i, ORDER);
    }
    forall f ensures Siblings(after, f) == Siblings(lists, f) {
      SameSiblings(lists, after, f);
    }
    FoldersEndPlaced(lists, after, placed, numbers);
  }

  lemma FoldersEndPlaced(lists: Lists, after: Lists, placed: seq<string>, numbers: seq<Ranked>)
    requires |lists| <= MAX && SameField(lists, after, FOLDER) && Distinct(placed)
    requires |placed| == |FolderOrder(lists)| && forall name :: name in placed <==> name in FolderOrder(lists)
    requires numbers == FolderNumbers(lists, placed) && Numbering(lists, numbers)
    requires after == Apply(lists, Renumber(lists, FOLDER_ORDER, numbers, |numbers|))
    ensures FolderOrder(after) == placed
  {
    NamesStay(lists, after);
    AllRenumbered(lists, after, placed, numbers);
    FolderOrderIs(lists);
    NumbersFolders(after, placed);
  }

  lemma NamesStay(lists: Lists, after: Lists)
    requires SameField(lists, after, FOLDER)
    ensures |Names(after, |after|)| == |FolderOrder(lists)|
    ensures forall name :: name in Names(after, |after|) <==> name in FolderOrder(lists)
  {
    SameNames(lists, after, |lists|);
    var names := Names(lists, |lists|);
    SortKeeps(names, FolderKeys(lists, names));
  }

  lemma AllRenumbered(lists: Lists, after: Lists, placed: seq<string>, numbers: seq<Ranked>)
    requires SameField(lists, after, FOLDER) && Distinct(placed)
    requires numbers == FolderNumbers(lists, placed) && Numbering(lists, numbers)
    requires after == Apply(lists, Renumber(lists, FOLDER_ORDER, numbers, |numbers|))
    ensures forall i, k :: 0 <= i < |after| && 0 <= k < |placed| && Folder(after[i]) == Some(placed[k]) ==>
              Integer(Get(after[i], FOLDER_ORDER)) == Some(k + 1)
  {
    forall i, k | 0 <= i < |after| && 0 <= k < |placed| && Folder(after[i]) == Some(placed[k])
      ensures Integer(Get(after[i], FOLDER_ORDER)) == Some(k + 1)
    {
      assert Get(lists[i], FOLDER) == Get(after[i], FOLDER);
      FoldersRenumbered(lists, placed, numbers, i, k);
    }
  }

  lemma SameFolderNumbers(a: Lists, b: Lists, names: seq<string>)
    requires |a| == |b| && forall f :: Siblings(a, f) == Siblings(b, f)
    ensures FolderNumbers(a, names) == FolderNumbers(b, names)
  {
    assert ListsOf(a, names) == ListsOf(b, names);
  }

  /** Only a list whose number changes is written, and planning the same move again writes nothing. */
  lemma OrderFolderIsMinimal(
    lists: Lists, folder: string, anchor: string, before: bool, lower: string -> string, plan: seq<Change>)
    requires |lists| <= MAX && OrderFolder(lists, folder, anchor, before, lower) == Ok(plan)
    ensures forall c :: c in plan ==>
              c.list < |lists|
              && Integer(Get(Apply(lists, plan)[c.list], FOLDER_ORDER)) != Integer(Get(lists[c.list], FOLDER_ORDER))
    ensures var was, now := FolderOrder(lists), FolderOrder(Apply(lists, plan));
            Find(now, folder, lower) == Find(was, folder, lower) && Find(now, anchor, lower) == Find(was, anchor, lower) ==>
              OrderFolder(Apply(lists, plan), folder, anchor, before, lower) == Ok([])
  {
    var moving, other, placed, numbers := OrderFolderShape(lists, folder, anchor, before, lower, plan);
    var after := Apply(lists, plan);
    RenumberShape(lists, FOLDER_ORDER, numbers, |numbers|);
    forall c | c in plan
      ensures c.list < |lists| && Integer(Get(after[c.list], FOLDER_ORDER)) != Integer(Get(lists[c.list], FOLDER_ORDER))
    {
      var k :| 0 <= k < |numbers| && c == Change(numbers[k].list, map[FOLDER_ORDER := Number(numbers[k].rank)])
               && Integer(Get(lists[numbers[k].list], FOLDER_ORDER)) != Some(numbers[k].rank);
      Renumbered(lists, FOLDER_ORDER, numbers, k);
    }
    var _, _ := OrderFolderIsRight(lists, folder, anchor, before, lower, plan);
    PlaceTwice(FolderOrder(lists), moving, other, before);
    SameFolderNumbers(lists, after, placed);
    forall k | 0 <= k < |numbers| ensures Integer(Get(after[numbers[k].list], FOLDER_ORDER)) == Some(numbers[k].rank) {
      Renumbered(lists, FOLDER_ORDER, numbers, k);
    }
    AlreadyNumbered(after, FOLDER_ORDER, numbers, |numbers|);
  }
}
