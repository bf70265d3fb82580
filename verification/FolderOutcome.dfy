/**
 What folder commands make of the lists, list by list and in the order shown,
 and which commands are refused.
 */
module FolderOutcome {
  import opened Entities
  import opened Sequences
  import opened StableSort
  import opened Folders
  import opened FolderOrdering
  import opened FolderRuns

  // ----- The order shown -----

  /** `name` is first the folder of the list `i`. */
  ghost predicate FirstSeen(lists: Lists, name: string, i: nat)
  {
    i < |lists| && Folder(lists[i]) == Some(name) && forall j :: 0 <= j < i ==> Folder(lists[j]) != Some(name)
  }

  /** One folder comes before another: by its number, else by where its first list is. */
  ghost predicate FolderBefore(lists: Lists, a: string, b: string)
  {
    || FolderKey(lists, a) < FolderKey(lists, b)
    || (&& FolderKey(lists, a) == FolderKey(lists, b)
        && exists i, j :: FirstSeen(lists, a, i) && FirstSeen(lists, b, j) && i < j)
  }

  /** Folders are named in the order they are first seen. */
  lemma {:induction false} NamesAscend(lists: Lists, n: nat, a: nat, b: nat) returns (i: nat, j: nat)
    requires n <= |lists| && a < b < |Names(lists, n)|
    ensures i < j < n && FirstSeen(lists, Names(lists, n)[a], i) && FirstSeen(lists, Names(lists, n)[b], j)
  {
    var rest := Names(lists, n - 1);
    if b < |rest| {
      i, j := NamesAscend(lists, n - 1, a, b);
    } else {
      j := n - 1;
      NewIsFirst(lists, j);
      i := FirstOf(lists, j, rest[a]);
    }
  }

  lemma NewIsFirst(lists: Lists, j: nat)
    requires j < |lists| && Folder(lists[j]).Some? && Folder(lists[j]).value !in Names(lists, j)
    ensures FirstSeen(lists, Folder(lists[j]).value, j)
  {
    NamesAre(lists, j);
    assert !InUse(lists, Folder(lists[j]).value, j);
  }

  lemma {:induction false} FirstOf(lists: Lists, n: nat, name: string) returns (i: nat)
    requires n <= |lists| && name in Names(lists, n)
    ensures i < n && FirstSeen(lists, name, i)
  {
    if name in Names(lists, n - 1) {
      i := FirstOf(lists, n - 1, name);
    } else {
      i := n - 1;
      NewIsFirst(lists, i);
    }
  }

  lemma FirstSeenOnce(lists: Lists, name: string)
    ensures forall i, j :: FirstSeen(lists, name, i) && FirstSeen(lists, name, j) ==> i == j
  {
  }

  lemma FolderBeforeOneWay(lists: Lists, a: string, b: string)
    requires FolderBefore(lists, a, b)
    ensures !FolderBefore(lists, b, a)
  {
    FirstSeenOnce(lists, a);
    FirstSeenOnce(lists, b);
  }

  lemma FoldersInOrder(lists: Lists, i: nat, j: nat)
    requires i < j < |FolderOrder(lists)|
    ensures FolderBefore(lists, FolderOrder(lists)[i], FolderOrder(lists)[j])
  {
    var names := Names(lists, |lists|);
    var a, b := SortedInOrder(names, FolderKeys(lists, names), i, j);
    if FolderKey(lists, names[a]) == FolderKey(lists, names[b]) {
      var k, l := NamesAscend(lists, |lists|, a, b);
    }
  }

  /** A folder's number is the smallest its lists carry for it; one that carries none counts as i64's largest. */
  lemma FolderKeyIsLeast(lists: Lists, name: string)
    requires InUse(lists, name, |lists|)
    ensures forall i :: 0 <= i < |lists| && Folder(lists[i]) == Some(name) ==>
              FolderKey(lists, name) <= SortKey(Integer(Get(lists[i], FOLDER_ORDER)))
    ensures exists i :: 0 <= i < |lists| && Folder(lists[i]) == Some(name)
                        && FolderKey(lists, name) == SortKey(Integer(Get(lists[i], FOLDER_ORDER)))
  {
    var members := Members(lists, Some(name), |lists|);
    var keys := Keys(lists, members, FOLDER_ORDER);
    MembersAre(lists, Some(name), |lists|);
    SmallestIs(keys);
    forall i | 0 <= i < |lists| && Folder(lists[i]) == Some(name)
      ensures FolderKey(lists, name) <= SortKey(Integer(Get(lists[i], FOLDER_ORDER)))
    {
      var k :| 0 <= k < |members| && members[k] == i;
      assert keys[k] == SortKey(Integer(Get(lists[i], FOLDER_ORDER)));
    }
    var i :| 0 <= i < |lists| && Folder(lists[i]) == Some(name);
    assert i in members;
    var k :| 0 <= k < |keys| && keys[k] == Smallest(keys);
    assert members[k] in members;
  }

  lemma {:induction false} SmallestIs(keys: seq<int>)
    requires forall k :: 0 <= k < |keys| ==> keys[k] <= MAX
    ensures forall k :: 0 <= k < |keys| ==> Smallest(keys) <= keys[k]
    ensures keys != [] ==> exists k :: 0 <= k < |keys| && keys[k] == Smallest(keys)
    ensures Smallest(keys) <= MAX
  {
    if keys != [] {
      var n := |keys| - 1;
      SmallestIs(keys[..n]);
      assert forall k :: 0 <= k < n ==> keys[..n][k] == keys[k];
      if keys[n] == Smallest(keys) {
      } else {
        assert Smallest(keys) == Smallest(keys[..n]);
        if n > 0 {
          var k :| 0 <= k < n && keys[..n][k] == Smallest(keys[..n]);
          assert keys[k] == Smallest(keys);
        }
      }
    }
  }

  /** One list is shown before another. */
  ghost predicate ShownBefore(lists: Lists, a: nat, b: nat)
    requires a < |lists| && b < |lists|
  {
    var f, g := Folder(lists[a]), Folder(lists[b]);
    if f == g then
      var k, l := SortKey(Integer(Get(lists[a], ORDER))), SortKey(Integer(Get(lists[b], ORDER)));
      k < l || (k == l && a < b)
    else if f.None? then false
    else if g.None? then true
    else FolderBefore(lists, f.value, g.value)
  }

  lemma SiblingsInOrder(lists: Lists, folder: Option<string>, i: nat, j: nat)
    requires i < j < |Siblings(lists, folder)|
    ensures Siblings(lists, folder)[i] < |lists| && Siblings(lists, folder)[j] < |lists|
    ensures ShownBefore(lists, Siblings(lists, folder)[i], Siblings(lists, folder)[j])
  {
    var members := Members(lists, folder, |lists|);
    MembersAre(lists, folder, |lists|);
    MembersAscend(lists, folder, |lists|);
    var a, b := SortedInOrder(members, Keys(lists, members, ORDER), i, j);
    assert members[a] in members && members[b] in members;
  }

  ghost predicate AllShown(lists: Lists, shown: seq<nat>)
  {
    && (forall i :: 0 <= i < |shown| ==> shown[i] < |lists|)
    && forall i, j :: 0 <= i < j < |shown| ==> ShownBefore(lists, shown[i], shown[j])
  }

  lemma ShownTogether(lists: Lists, a: seq<nat>, b: seq<nat>)
    requires AllShown(lists, a) && AllShown(lists, b)
    requires AllBefore(lists, a, b)
    ensures AllShown(lists, a + b)
  {
    var all := a + b;
    forall i, j | 0 <= i < j < |all| ensures ShownBefore(lists, all[i], all[j]) {
      if i < |a| <= j {
        assert all[i] in a && all[j] in b;
      }
    }
  }

  lemma SiblingsShown(lists: Lists, folder: Option<string>)
    ensures AllShown(lists, Siblings(lists, folder))
  {
    SiblingsAre(lists, folder);
    var siblings := Siblings(lists, folder);
    forall i, j | 0 <= i < j < |siblings| ensures ShownBefore(lists, siblings[i], siblings[j]) {
      SiblingsInOrder(lists, folder, i, j);
    }
  }

  lemma {:induction false} FlatShown(lists: Lists, n: nat)
    requires n <= |FolderOrder(lists)|
    ensures AllShown(lists, Flat(lists, FolderOrder(lists)[..n]))
    ensures forall i :: i in Flat(lists, FolderOrder(lists)[..n]) ==>
              i < |lists| && Folder(lists[i]).Some? && Folder(lists[i]).value in FolderOrder(lists)[..n]
  {
    var names := FolderOrder(lists);
    if n > 0 {
      FlatShown(lists, n - 1);
      var flat, siblings := Flat(lists, names[..n - 1]), Siblings(lists, Some(names[n - 1]));
      assert names[..n][..n - 1] == names[..n - 1] && names[..n] == names[..n - 1] + [names[n - 1]];
      SiblingsAre(lists, Some(names[n - 1]));
      OneMoreFolder(lists, n - 1, flat, siblings);
    }
  }

  lemma OneMoreFolder(lists: Lists, n: nat, flat: seq<nat>, siblings: seq<nat>)
    requires n < |FolderOrder(lists)| && AllShown(lists, flat) && siblings == Siblings(lists, Some(FolderOrder(lists)[n]))
    requires forall i :: i in flat ==>
               i < |lists| && Folder(lists[i]).Some? && Folder(lists[i]).value in FolderOrder(lists)[..n]
    ensures AllShown(lists, flat + siblings)
  {
    var name := FolderOrder(lists)[n];
    SiblingsAre(lists, Some(name));
    SiblingsShown(lists, Some(name));
    NextFolderShown(lists, n, flat, siblings);
    ShownTogether(lists, flat, siblings);
  }

  lemma NextFolderShown(lists: Lists, n: nat, flat: seq<nat>, siblings: seq<nat>)
    requires n < |FolderOrder(lists)|
    requires forall i :: i in flat ==>
               i < |lists| && Folder(lists[i]).Some? && Folder(lists[i]).value in FolderOrder(lists)[..n]
    requires forall j :: j in siblings ==> j < |lists| && Folder(lists[j]) == Some(FolderOrder(lists)[n])
    ensures AllBefore(lists, flat, siblings)
  {
    var names := FolderOrder(lists);
    FolderOrderIs(lists);
    forall a, b | a in flat && b in siblings ensures a < |lists| && b < |lists| && ShownBefore(lists, a, b) {
      var k :| 0 <= k < n && names[k] == Folder(lists[a]).value;
      FoldersInOrder(lists, k, n);
    }
  }

  ghost predicate AllBefore(lists: Lists, these: seq<nat>, those: seq<nat>)
  {
    forall a, b :: a in these && b in those ==> a < |lists| && b < |lists| && ShownBefore(lists, a, b)
  }

  /**
   The lists are shown folder by folder, by the folders' numbers and then where
   they are first seen, then those in none; within a folder or in none, by their
   own numbers and then in cached order.
   */
  lemma SortedIsInOrder(lists: Lists, i: nat, j: nat)
    requires i < j < |Sorted(lists)|
    ensures Sorted(lists)[i] < |lists| && Sorted(lists)[j] < |lists|
    ensures ShownBefore(lists, Sorted(lists)[i], Sorted(lists)[j])
  {
    var names := FolderOrder(lists);
    assert names[..|names|] == names;
    FlatShown(lists, |names|);
    SiblingsAre(lists, None);
    SiblingsShown(lists, None);
    LooseLast(lists, Flat(lists, names), Siblings(lists, None));
    ShownTogether(lists, Flat(lists, names), Siblings(lists, None));
  }

  lemma LooseLast(lists: Lists, flat: seq<nat>, loose: seq<nat>)
    requires forall i :: i in flat ==> i < |lists| && Folder(lists[i]).Some?
    requires forall j :: j in loose ==> j < |lists| && Folder(lists[j]) == None
    ensures AllBefore(lists, flat, loose)
  {
  }

  // ----- What each command makes of each list -----

  /** As before but for its folder, the folder's number and its own. */
  ghost predicate OtherFieldsAsBefore(list: Entity, after: Entity)
  {
    forall f :: f !in {FOLDER, FOLDER_ORDER, ORDER} ==> Get(after, f) == Get(list, f)
  }

  /** In no folder, with no number for one and no place. */
  ghost predicate TakenOut(list: Entity, after: Entity)
  {
    && Folder(after) == None && Get(after, FOLDER_ORDER) == Null && Get(after, ORDER) == Null
    && OtherFieldsAsBefore(list, after)
  }

  lemma OutIs(list: Entity)
    ensures TakenOut(list, Merge(list, NO_FOLDER))
  {
    forall f ensures Get(Merge(list, NO_FOLDER), f) == if f in NO_FOLDER then NO_FOLDER[f] else Get(list, f) {
      MergeReads(list, NO_FOLDER, f);
    }
  }

  lemma EachOut(lists: Lists, plan: seq<Change>, targets: seq<nat>, i: nat)
    requires Distinct(targets) && plan == Each(targets, NO_FOLDER) && i < |lists|
    ensures if i in targets then TakenOut(lists[i], Apply(lists, plan)[i]) else Apply(lists, plan)[i] == lists[i]
  {
    var fields := seq(|targets|, k => NO_FOLDER);
    EachGives(targets, NO_FOLDER);
    if i in targets {
      var k :| 0 <= k < |targets| && targets[k] == i;
      GivenFields(lists, plan, targets, fields, k);
      OutIs(lists[i]);
    } else {
      OthersStay(lists, plan, targets, fields, i);
    }
  }

  /** Lists moved out are in no folder, with no place; all others are as they were. */
  lemma MoveOutMeans(lists: Lists, targets: seq<nat>, lower: string -> string, plan: seq<Change>, i: nat)
    requires Distinct(targets) && (forall k :: 0 <= k < |targets| ==> targets[k] < |lists|) && i < |lists|
    requires MoveLists(lists, targets, None, lower) == Ok(plan)
    ensures if i in targets then TakenOut(lists[i], Apply(lists, plan)[i]) else Apply(lists, plan)[i] == lists[i]
  {
    assert plan == Each(targets, NO_FOLDER);
    EachOut(lists, plan, targets, i);
  }

  lemma DeleteShape(lists: Lists, folder: string, lower: string -> string, plan: seq<Change>)
    returns (name: string)
    requires Delete(lists, folder, lower) == Ok(plan)
    ensures Find(FolderOrder(lists), folder, lower) == Some(name)
    ensures forall i :: 0 <= i < |lists| ==>
              if Folder(lists[i]) == Some(name) then TakenOut(lists[i], Apply(lists, plan)[i])
              else Apply(lists, plan)[i] == lists[i]
  {
    name := Find(FolderOrder(lists), folder, lower).value;
    SiblingsAre(lists, Some(name));
    forall i | 0 <= i < |lists|
      ensures if Folder(lists[i]) == Some(name) then TakenOut(lists[i], Apply(lists, plan)[i])
              else Apply(lists, plan)[i] == lists[i]
    {
      EachOut(lists, plan, Siblings(lists, Some(name)), i);
    }
  }

  /**
   A deleted folder is gone: each of its lists is in none, with no place, every
   other list is as it was, and the other folders are in the order they were.
   */
  lemma DeleteMeans(lists: Lists, folder: string, lower: string -> string, plan: seq<Change>) returns (name: string)
    requires Delete(lists, folder, lower) == Ok(plan)
    ensures Find(FolderOrder(lists), folder, lower) == Some(name)
    ensures forall i :: 0 <= i < |lists| ==>
              && Folder(Apply(lists, plan)[i]) != Some(name)
              && if Folder(lists[i]) == Some(name) then TakenOut(lists[i], Apply(lists, plan)[i])
                 else Apply(lists, plan)[i] == lists[i]
    ensures FolderOrder(Apply(lists, plan)) == Without(FolderOrder(lists), name)
  {
    name := DeleteShape(lists, folder, lower, plan);
    OthersInOrder(lists, Apply(lists, plan), name);
  }

  /** `after` is `lists` with those of the folder `name` in none. */
  ghost predicate OnlyGone(lists: Lists, after: Lists, name: string)
  {
    && |after| == |lists|
    && forall i :: 0 <= i < |lists| ==>
         if Folder(lists[i]) == Some(name) then Folder(after[i]) == None else after[i] == lists[i]
  }

  lemma {:induction false} OtherMembers(lists: Lists, after: Lists, name: string, other: string, n: nat)
    requires OnlyGone(lists, after, name) && other != name && n <= |lists|
    ensures Members(after, Some(other), n) == Members(lists, Some(other), n)
  {
    if n > 0 {
      OtherMembers(lists, after, name, other, n - 1);
    }
  }

  lemma OtherKey(lists: Lists, after: Lists, name: string, other: string)
    requires OnlyGone(lists, after, name) && other != name
    ensures FolderKey(after, other) == FolderKey(lists, other)
    ensures forall i :: FirstSeen(lists, other, i) <==> FirstSeen(after, other, i)
  {
    OtherMembers(lists, after, name, other, |lists|);
    var members := Members(lists, Some(other), |lists|);
    MembersAre(lists, Some(other), |lists|);
    assert Keys(after, members, FOLDER_ORDER) == Keys(lists, members, FOLDER_ORDER) by {
      forall k | 0 <= k < |members| ensures after[members[k]] == lists[members[k]] {
        assert members[k] in members;
      }
    }
  }

  lemma StillBefore(lists: Lists, after: Lists, name: string, a: string, b: string)
    requires OnlyGone(lists, after, name) && a != name && b != name && FolderBefore(after, a, b)
    ensures FolderBefore(lists, a, b)
  {
    OtherKey(lists, after, name, a);
    OtherKey(lists, after, name, b);
  }

  lemma StillUsed(lists: Lists, after: Lists, name: string, other: string)
    requires OnlyGone(lists, after, name)
    ensures InUse(after, other, |after|) <==> InUse(lists, other, |lists|) && other != name
  {
    if i :| 0 <= i < |lists| && Folder(lists[i]) == Some(other) && other != name {
      assert Folder(after[i]) == Some(other);
    }
    if i :| 0 <= i < |after| && Folder(after[i]) == Some(other) {
      assert Folder(lists[i]) == Some(other);
    }
  }

  lemma OthersInOrder(lists: Lists, after: Lists, name: string)
    requires OnlyGone(lists, after, name)
    ensures FolderOrder(after) == Without(FolderOrder(lists), name)
  {
    var p, q := FolderOrder(after), Without(FolderOrder(lists), name);
    FolderOrderIs(lists);
    FolderOrderIs(after);
    forall x ensures x in p <==> x in q {
      StillUsed(lists, after, name, x);
    }
    forall i, j | 0 <= i < j < |p| ensures FolderBefore(lists, p[i], p[j]) {
      assert p[i] in q && p[j] in q;
      FoldersInOrder(after, i, j);
      StillBefore(lists, after, name, p[i], p[j]);
    }
    forall i, j | 0 <= i < j < |q| ensures FolderBefore(lists, q[i], q[j]) {
      var a, b := WithoutInOrder(FolderOrder(lists), name, i, j);
      FoldersInOrder(lists, a, b);
    }
    OneWay(lists);
    SameLength(p, q);
    OneOrder((a, b) => FolderBefore(lists, a, b), p, q, |p|);
  }

  lemma OneWay(lists: Lists)
    ensures forall a, b :: FolderBefore(lists, a, b) ==> !FolderBefore(lists, b, a)
  {
    forall a, b | FolderBefore(lists, a, b) ensures !FolderBefore(lists, b, a) {
      FolderBeforeOneWay(lists, a, b);
    }
  }

  lemma {:induction false} SameLength<T(!new)>(p: seq<T>, q: seq<T>)
    requires Distinct(p) && Distinct(q) && forall x :: x in p <==> x in q
    ensures |p| == |q|
  {
    assert q != [] ==> q[0] in p;
    if p != [] {
      var n := |p| - 1;
      var x := p[n];
      assert p == p[..n] + [x] && x !in p[..n] && x in p && x in q;
      var rest := Without(q, x);
      WithoutLength(q, x);
      SameLength(p[..n], rest);
    }
  }

  // ----- Moving in, and renaming -----

  /** In the folder `name`, with the number that folder's lists carry, and its own place only if it was there before. */
  ghost predicate MovedInto(list: Entity, after: Entity, name: string, number: Value)
  {
    && Folder(after) == Some(name) && Get(after, FOLDER_ORDER) == number
    && Get(after, ORDER) == (if Folder(list) == Some(name) then Get(list, ORDER) else Null)
    && OtherFieldsAsBefore(list, after)
  }

  lemma IntoIs(list: Entity, name: string, number: Value)
    requires Trim(name) == name && name != ""
    ensures MovedInto(list, Merge(list, MoveFields(list, name, number)), name, number)
  {
    Moved(list, name, number);
    forall f | f !in {FOLDER, FOLDER_ORDER, ORDER}
      ensures Get(Merge(list, MoveFields(list, name, number)), f) == Get(list, f)
    {
      MergeReads(list, MoveFields(list, name, number), f);
    }
  }

  /** `i` is a list of the folder that carries a number for it. */
  ghost predicate Numbers(lists: Lists, name: string, i: nat)
  {
    i < |lists| && Folder(lists[i]) == Some(name) && Integer(Get(lists[i], FOLDER_ORDER)).Some?
  }

  /** The number is that of the folder's first list shown that carries one, or none when none does. */
  ghost predicate NumberOf(lists: Lists, name: string, number: Value)
  {
    || (number == Null && forall i: nat :: !Numbers(lists, name, i))
    || (number.Number? && exists i: nat :: NumberedBy(lists, name, number.number, i))
  }

  ghost predicate NumberedBy(lists: Lists, name: string, number: int, i: nat)
  {
    && Numbers(lists, name, i) && Integer(Get(lists[i], FOLDER_ORDER)) == Some(number)
    && forall j: nat :: Numbers(lists, name, j) && j != i ==> ShownBefore(lists, i, j)
  }

  /** `members[k]` is the first with a number. */
  ghost predicate FirstNumbered(lists: Lists, members: seq<nat>, k: nat)
    requires forall j :: 0 <= j < |members| ==> members[j] < |lists|
  {
    && k < |members| && FirstPlace(lists, members).Number?
    && Integer(Get(lists[members[k]], FOLDER_ORDER)) == Some(FirstPlace(lists, members).number)
    && forall j :: 0 <= j < k ==> Integer(Get(lists[members[j]], FOLDER_ORDER)).None?
  }

  lemma {:induction false} FirstPlaceIs(lists: Lists, members: seq<nat>)
    requires forall k :: 0 <= k < |members| ==> members[k] < |lists|
    ensures if FirstPlace(lists, members) == Null then
              forall k :: 0 <= k < |members| ==> Integer(Get(lists[members[k]], FOLDER_ORDER)).None?
            else
              exists k: nat :: FirstNumbered(lists, members, k)
  {
    if members == [] {
    } else if Integer(Get(lists[members[0]], FOLDER_ORDER)).Some? {
      assert FirstNumbered(lists, members, 0);
    } else {
      var rest := members[1..];
      FirstPlaceIs(lists, rest);
      assert forall k :: 0 < k < |members| ==> members[k] == rest[k - 1];
      if FirstPlace(lists, members) != Null {
        var k: nat :| FirstNumbered(lists, rest, k);
        assert FirstNumbered(lists, members, k + 1);
      }
    }
  }

  /** The folder a list goes to: one there is, found by the name, or else a new one of that name. */
  ghost predicate GoesTo(lists: Lists, typed: string, lower: string -> string, name: string)
  {
    match Find(FolderOrder(lists), Trim(typed), lower)
    case Some(existing) => name == existing
    case None => name == Trim(typed)
  }

  lemma DestinationMeans(lists: Lists, typed: string, lower: string -> string, name: string, number: Value)
    requires Destination(lists, typed, lower) == Ok((name, number))
    ensures GoesTo(lists, typed, lower, name) && NumberOf(lists, name, number) && Trim(name) == name && name != ""
  {
    DestinationIs(lists, typed, lower, name, number);
    FolderOrderIs(lists);
    if InUse(lists, name, |lists|) {
      NumberIsFirst(lists, name, number);
    } else {
      assert forall i: nat :: !Numbers(lists, name, i);
    }
  }

  lemma NumberIsFirst(lists: Lists, name: string, number: Value)
    requires (forall k :: 0 <= k < |Siblings(lists, Some(name))| ==> Siblings(lists, Some(name))[k] < |lists|)
    requires number == FirstPlace(lists, Siblings(lists, Some(name)))
    ensures NumberOf(lists, name, number)
  {
    var siblings := Siblings(lists, Some(name));
    SiblingsAre(lists, Some(name));
    FirstPlaceIs(lists, siblings);
    if number == Null {
      forall i: nat ensures !Numbers(lists, name, i) {
        assert i < |lists| && Folder(lists[i]) == Some(name) ==> i in siblings;
      }
    } else {
      var k: nat :| FirstNumbered(lists, siblings, k);
      assert siblings[k] in siblings;
      forall j: nat | Numbers(lists, name, j) && j != siblings[k] ensures ShownBefore(lists, siblings[k], j) {
        assert j in siblings;
        var l :| 0 <= l < |siblings| && siblings[l] == j;
        SiblingsInOrder(lists, Some(name), k, l);
      }
      assert NumberedBy(lists, name, number.number, siblings[k]);
    }
  }

  /** Lists moved in are in the folder named, with its number; all others are as they were. */
  lemma MoveInMeans(lists: Lists, targets: seq<nat>, typed: string, lower: string -> string, plan: seq<Change>)
    returns (name: string, number: Value)
    requires Distinct(targets) && (forall k :: 0 <= k < |targets| ==> targets[k] < |lists|)
    requires MoveLists(lists, targets, Some(typed), lower) == Ok(plan)
    ensures GoesTo(lists, typed, lower, name) && NumberOf(lists, name, number)
    ensures forall i :: 0 <= i < |lists| ==>
              if i in targets then MovedInto(lists[i], Apply(lists, plan)[i], name, number)
              else Apply(lists, plan)[i] == lists[i]
  {
    var found := Destination(lists, typed, lower).value;
    name, number := found.0, found.1;
    DestinationMeans(lists, typed, lower, name, number);
    MoveShape(lists, targets, typed, lower, plan, name, number);
    var fields := seq(|targets|, k requires 0 <= k < |targets| => MoveFields(lists[targets[k]], name, number));
    forall i | 0 <= i < |lists|
      ensures if i in targets then MovedInto(lists[i], Apply(lists, plan)[i], name, number)
              else Apply(lists, plan)[i] == lists[i]
    {
      if i in targets {
        var k :| 0 <= k < |targets| && targets[k] == i;
        GivenFields(lists, plan, targets, fields, k);
        IntoIs(lists[i], name, number);
      } else {
        OthersStay(lists, plan, targets, fields, i);
      }
    }
  }

  /** A renamed folder's lists are in the folder of the new name and else as they were, as is every other list. */
  lemma RenameMeans(lists: Lists, folder: string, newName: string, lower: string -> string, plan: seq<Change>)
    returns (name: string)
    requires Rename(lists, folder, newName, lower) == Ok(plan)
    ensures Find(FolderOrder(lists), folder, lower) == Some(name)
    ensures forall i :: 0 <= i < |lists| ==>
              if Folder(lists[i]) == Some(name) then
                && Folder(Apply(lists, plan)[i]) == Some(Trim(newName))
                && forall f :: f != FOLDER ==> Get(Apply(lists, plan)[i], f) == Get(lists[i], f)
              else Apply(lists, plan)[i] == lists[i]
  {
    name := Find(FolderOrder(lists), folder, lower).value;
    var given := FolderName(newName).value;
    TrimmedName(newName, given);
    SiblingsAre(lists, Some(name));
    var targets, fields: Entity := Siblings(lists, Some(name)), map[FOLDER := Text(given)];
    EachGives(targets, fields);
    forall i | 0 <= i < |lists|
      ensures if Folder(lists[i]) == Some(name) then
                && Folder(Apply(lists, plan)[i]) == Some(given)
                && forall f :: f != FOLDER ==> Get(Apply(lists, plan)[i], f) == Get(lists[i], f)
              else Apply(lists, plan)[i] == lists[i]
    {
      if i in targets {
        var k :| 0 <= k < |targets| && targets[k] == i;
        GivenFields(lists, plan, targets, seq(|targets|, k => fields), k);
        RenamedList(lists[i], given);
      } else {
        OthersStay(lists, plan, targets, seq(|targets|, k => fields), i);
      }
    }
  }

  lemma RenamedList(list: Entity, given: string)
    requires Trim(given) == given && given != ""
    ensures var after := Merge(list, map[FOLDER := Text(given)]);
            Folder(after) == Some(given) && forall f :: f != FOLDER ==> Get(after, f) == Get(list, f)
  {
    var fields: Entity := map[FOLDER := Text(given)];
    forall f ensures Get(Merge(list, fields), f) == if f == FOLDER then Text(given) else Get(list, f) {
      MergeReads(list, fields, f);
    }
  }

  // ----- Names, and what is refused -----

  /** A name finds the folder spelt like it, else the first that is but for case. */
  lemma FindsTheFirst(names: seq<string>, wanted: string, lower: string -> string)
    ensures var found := Find(names, wanted, lower);
            if Trim(wanted) in names then found == Some(Trim(wanted))
            else if exists i :: 0 <= i < |names| && lower(names[i]) == lower(Trim(wanted)) then
              exists i :: 0 <= i < |names| && lower(names[i]) == lower(Trim(wanted)) && found == Some(names[i])
                          && forall j :: 0 <= j < i ==> lower(names[j]) != lower(Trim(wanted))
            else found == None
  {
    FirstMatchIs(names, lower(Trim(wanted)), lower);
  }

  lemma {:induction false} FirstMatchIs(names: seq<string>, wanted: string, lower: string -> string)
    ensures FirstMatch(names, wanted, lower).Some? <==> exists i :: 0 <= i < |names| && lower(names[i]) == wanted
    ensures FirstMatch(names, wanted, lower).Some? ==>
              exists i :: 0 <= i < |names| && lower(names[i]) == wanted
                          && FirstMatch(names, wanted, lower) == Some(names[i])
                          && forall j :: 0 <= j < i ==> lower(names[j]) != wanted
  {
    if names != [] && lower(names[0]) != wanted {
      FirstMatchIs(names[1..], wanted, lower);
      if FirstMatch(names, wanted, lower).Some? {
        var i :| 0 <= i < |names[1..]| && lower(names[1..][i]) == wanted
                 && FirstMatch(names[1..], wanted, lower) == Some(names[1..][i])
                 && forall j :: 0 <= j < i ==> lower(names[1..][j]) != wanted;
        forall j | 0 <= j < i + 1 ensures lower(names[j]) != wanted {
          if j > 0 {
            assert names[1..][j - 1] == names[j];
          }
        }
        assert names[i + 1] == names[1..][i];
      } else {
        forall i | 0 <= i < |names| ensures lower(names[i]) != wanted {
          if i > 0 {
            assert names[1..][i - 1] == names[i];
          }
        }
      }
    }
  }

  /** A name that can be a folder's: not empty once trimmed, and with no control characters. */
  predicate CanBeNamed(typed: string)
  {
    && Trim(typed) != ""
    && forall c :: c in Trim(typed) ==> !(c < ' ' || '\U{7f}' <= c <= '\U{9f}')
  }

  ghost predicate Named(lists: Lists, typed: string, lower: string -> string, name: string)
  {
    Find(FolderOrder(lists), typed, lower) == Some(name)
  }

  /** Exactly which commands are refused, and why. */
  lemma RefusedExactly(lists: Lists, c: Command, lower: string -> string)
    requires OnCached(lists, c)
    ensures PlanOf(lists, c, lower).Ok? <==>
            match c
            case MoveTo(_, into) => into.None? || CanBeNamed(into.value)
            case PutList(list, anchor, _) => list != anchor && Folder(lists[list]) == Folder(lists[anchor])
            case RenameFolder(folder, newName) =>
              exists name :: Named(lists, folder, lower, name) && CanBeNamed(newName)
                             && forall other :: Named(lists, newName, lower, other) ==> other == name
            case DeleteFolder(folder) => exists name :: Named(lists, folder, lower, name)
            case PutFolder(folder, anchor, _) =>
              exists a, b :: Named(lists, folder, lower, a) && Named(lists, anchor, lower, b) && a != b
  {
    match c {
      case MoveTo(_, into) =>
        if into.Some? {
          NamedWell(into.value);
        }
      case PutList(_, _, _) =>
      case RenameFolder(folder, newName) =>
        NamedWell(newName);
        TrimTwice(newName);
        if Find(FolderOrder(lists), folder, lower).Some? {
          assert Named(lists, folder, lower, Find(FolderOrder(lists), folder, lower).value);
        }
        if Find(FolderOrder(lists), newName, lower).Some? {
          assert Named(lists, newName, lower, Find(FolderOrder(lists), newName, lower).value);
        }
      case DeleteFolder(folder) =>
        if Find(FolderOrder(lists), folder, lower).Some? {
          assert Named(lists, folder, lower, Find(FolderOrder(lists), folder, lower).value);
        }
      case PutFolder(folder, anchor, _) =>
        var a, b := Find(FolderOrder(lists), folder, lower), Find(FolderOrder(lists), anchor, lower);
        if a.Some? && b.Some? {
          assert Named(lists, folder, lower, a.value) && Named(lists, anchor, lower, b.value);
        }
    }
  }

  lemma NamedWell(typed: string)
    ensures FolderName(typed).Ok? <==> CanBeNamed(typed)
    ensures FolderName(typed).Ok? ==> FolderName(typed).value == Trim(typed)
  {
  }

  /** What a refusal says is so. */
  ghost predicate Explains(error: Error, lists: Lists, c: Command, lower: string -> string)
  {
    match error
    case EmptyName =>
      || (c.MoveTo? && c.into.Some? && Trim(c.into.value) == "")
      || (c.RenameFolder? && Trim(c.newName) == "")
    case ControlCharacter =>
      || (c.MoveTo? && c.into.Some? && Trim(c.into.value) != "" && !CanBeNamed(c.into.value))
      || (c.RenameFolder? && Trim(c.newName) != "" && !CanBeNamed(c.newName))
    case NoSuchFolder =>
      || (c.RenameFolder? && Find(FolderOrder(lists), c.folder, lower) == None)
      || (c.DeleteFolder? && Find(FolderOrder(lists), c.folder, lower) == None)
      || (c.PutFolder? && None in {Find(FolderOrder(lists), c.folder, lower), Find(FolderOrder(lists), c.anchor, lower)})
    case NextToItself =>
      || (c.PutList? && c.list == c.sibling)
      || (c.PutFolder? && Find(FolderOrder(lists), c.folder, lower) == Find(FolderOrder(lists), c.anchor, lower) != None)
    case OtherFolder =>
      c.PutList? && c.list < |lists| && c.sibling < |lists| && Folder(lists[c.list]) != Folder(lists[c.sibling])
    case NameTaken =>
      c.RenameFolder? && exists name, other ::
        Named(lists, c.folder, lower, name) && Named(lists, c.newName, lower, other) && name != other
  }

  /** Whatever error a command is refused with is so. */
  lemma RefusalsAreTrue(lists: Lists, c: Command, lower: string -> string)
    requires OnCached(lists, c) && PlanOf(lists, c, lower).Err?
    ensures Explains(PlanOf(lists, c, lower).error, lists, c, lower)
  {
    match c {
      case MoveTo(_, into) => NamedWell(into.value);
      case RenameFolder(folder, newName) => RenameRefusal(lists, folder, newName, lower);
      case _ =>
    }
  }

  lemma RenameRefusal(lists: Lists, folder: string, newName: string, lower: string -> string)
    requires Rename(lists, folder, newName, lower).Err?
    ensures Explains(Rename(lists, folder, newName, lower).error, lists, RenameFolder(folder, newName), lower)
  {
    NamedWell(newName);
    TrimTwice(newName);
    var name, other := Find(FolderOrder(lists), folder, lower), Find(FolderOrder(lists), newName, lower);
    if name.Some? && other.Some? {
      assert Named(lists, folder, lower, name.value) && Named(lists, newName, lower, other.value);
    }
  }

  // ----- The numbers given -----

  /** A list put next to another leaves its folder's lists numbered 1, 2, 3, … as they are then shown. */
  lemma PutListNumbers(lists: Lists, list: nat, anchor: nat, before: bool, plan: seq<Change>, k: nat)
    requires |lists| <= MAX && list < |lists| && anchor < |lists|
    requires OrderList(lists, list, anchor, before) == Ok(plan)
    requires k < |Siblings(lists, Folder(lists[list]))|
    ensures var after := Apply(lists, plan);
            var shown := Siblings(after, Folder(lists[list]));
            k < |shown| && shown[k] < |after| && Integer(Get(after[shown[k]], ORDER)) == Some(k + 1)
  {
    var placed := OrderListShape(lists, list, anchor, before, plan);
    var after := Apply(lists, plan);
    OrderListIsRight(lists, list, anchor, before, plan);
    OnlyOrderChanges(lists, after, placed);
    assert Folder(after[list]) == Folder(lists[list]);
    PlacedNumber(lists, placed, k);
  }

  lemma PlacedNumber(lists: Lists, placed: seq<nat>, k: nat)
    requires Numbering(lists, Counted(placed)) && k < |placed|
    ensures var after := Apply(lists, Renumber(lists, ORDER, Counted(placed), |placed|));
            placed[k] < |after| && Integer(Get(after[placed[k]], ORDER)) == Some(k + 1)
  {
    NumberGiven(lists, ORDER, Counted(placed), k, Counted(placed)[k]);
  }

  /** A folder put next to another leaves every folder's lists with its place as they are then shown. */
  lemma PutFolderNumbers(
    lists: Lists, folder: string, anchor: string, before: bool, lower: string -> string, plan: seq<Change>, i: nat, k: nat)
    requires |lists| <= MAX && OrderFolder(lists, folder, anchor, before, lower) == Ok(plan) && i < |lists|
    requires k < |FolderOrder(Apply(lists, plan))|
    requires Folder(Apply(lists, plan)[i]) == Some(FolderOrder(Apply(lists, plan))[k])
    ensures Integer(Get(Apply(lists, plan)[i], FOLDER_ORDER)) == Some(k + 1)
  {
    NumberedInOrder(lists, folder, anchor, before, lower, plan);
  }
}
