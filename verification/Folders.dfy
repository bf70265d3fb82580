/**
 Folders exist only in the extensions of their lists: each list has the name
 of its folder, a number for the folder's place among folders, and one for its
 own place in it. Lists are told apart by position, in cached order.
 */
module Folders {
  import opened Entities
  import opened Sequences
  import opened StableSort

  /** What a missing number sorts as: i64::MAX. */
  const MAX := 0x7fff_ffff_ffff_ffff

  type Lists = seq<Entity>

  datatype Error = EmptyName | ControlCharacter | NoSuchFolder | NextToItself | OtherFolder | NameTaken

  // ----- A list's fields -----

  function Folder(list: Entity): Option<string>
  {
    match Get(list, FOLDER)
    case Text(name) => if Trim(name) == "" then None else Some(Trim(name))
    case _ => None
  }

  /** A number as an i64, if it is one. */
  function Integer(v: Value): Option<int>
  {
    match v
    case Number(n) => if -MAX - 1 <= n <= MAX then Some(n) else None
    case _ => None
  }

  function SortKey(place: Option<int>): int
  {
    if place.Some? then place.value else MAX
  }

  // ----- Groups -----

  /** The lists of `folder` (or in none) among the first `n`. */
  function Members(lists: Lists, folder: Option<string>, n: nat): (r: seq<nat>)
    requires n <= |lists|
    ensures forall k :: 0 <= k < |r| ==> r[k] < n
  {
    if n == 0 then []
    else
      var rest := Members(lists, folder, n - 1);
      if Folder(lists[n - 1]) == folder then rest + [n - 1] else rest
  }

  lemma {:induction false} MembersAre(lists: Lists, folder: Option<string>, n: nat)
    requires n <= |lists|
    ensures Distinct(Members(lists, folder, n))
    ensures forall i :: i in Members(lists, folder, n) <==> 0 <= i < n && Folder(lists[i]) == folder
  {
    if n > 0 {
      MembersAre(lists, folder, n - 1);
    }
  }

  /** They are in the order they are cached. */
  lemma {:induction false} MembersAscend(lists: Lists, folder: Option<string>, n: nat)
    requires n <= |lists|
    ensures forall a, b :: 0 <= a < b < |Members(lists, folder, n)| ==> Members(lists, folder, n)[a] < Members(lists, folder, n)[b]
  {
    if n > 0 {
      MembersAscend(lists, folder, n - 1);
      MembersAre(lists, folder, n - 1);
    }
  }

  /** The folders of the first `n` lists, each where it is first seen. */
  function Names(lists: Lists, n: nat): seq<string>
    requires n <= |lists|
  {
    if n == 0 then []
    else
      var rest, folder := Names(lists, n - 1), Folder(lists[n - 1]);
      if folder.None? || folder.value in rest then rest else rest + [folder.value]
  }

  ghost predicate InUse(lists: Lists, name: string, n: nat)
    requires n <= |lists|
  {
    exists i :: 0 <= i < n && Folder(lists[i]) == Some(name)
  }

  lemma {:induction false} NamesAre(lists: Lists, n: nat)
    requires n <= |lists|
    ensures Distinct(Names(lists, n)) && |Names(lists, n)| <= n
    ensures forall name :: name in Names(lists, n) <==> InUse(lists, name, n)
  {
    if n > 0 {
      NamesAre(lists, n - 1);
      forall name ensures InUse(lists, name, n) <==> InUse(lists, name, n - 1) || Folder(lists[n - 1]) == Some(name) {
      }
    }
  }

  function Keys(lists: Lists, members: seq<nat>, field: Key): (r: seq<int>)
    requires forall k :: 0 <= k < |members| ==> members[k] < |lists|
    ensures |r| == |members|
  {
    seq(|members|, k requires 0 <= k < |members| => SortKey(Integer(Get(lists[members[k]], field))))
  }

  function Smallest(keys: seq<int>): int
  {
    if keys == [] then MAX
    else
      var least := Smallest(keys[..|keys| - 1]);
      if keys[|keys| - 1] < least then keys[|keys| - 1] else least
  }

  /** A folder sorts by the smallest number its lists carry for it. */
  function FolderKey(lists: Lists, name: string): int
  {
    Smallest(Keys(lists, Members(lists, Some(name), |lists|), FOLDER_ORDER))
  }

  function FolderKeys(lists: Lists, names: seq<string>): (r: seq<int>)
    ensures |r| == |names|
  {
    seq(|names|, k requires 0 <= k < |names| => FolderKey(lists, names[k]))
  }

  /** The folders in order. */
  function FolderOrder(lists: Lists): seq<string>
  {
    var names := Names(lists, |lists|);
    Sort(names, FolderKeys(lists, names))
  }

  /** The lists of a folder, or in none, in order. */
  function Siblings(lists: Lists, folder: Option<string>): seq<nat>
  {
    var members := Members(lists, folder, |lists|);
    Sort(members, Keys(lists, members, ORDER))
  }

  datatype Group = Group(name: string, lists: seq<nat>)

  function Groups(lists: Lists): seq<Group>
  {
    var names := FolderOrder(lists);
    seq(|names|, k requires 0 <= k < |names| => Group(names[k], Siblings(lists, Some(names[k]))))
  }

  function Flat(lists: Lists, names: seq<string>): seq<nat>
  {
    if names == [] then []
    else Flat(lists, names[..|names| - 1]) + Siblings(lists, Some(names[|names| - 1]))
  }

  /** The lists as displayed: folder by folder, the rest at the end. */
  function Sorted(lists: Lists): seq<nat>
  {
    Flat(lists, FolderOrder(lists)) + Siblings(lists, None)
  }

  // ----- Groups as they are built: pushed into place, then sorted in place -----

  function Collected(lists: Lists, n: nat): (r: seq<Group>)
    requires n <= |lists|
    ensures |r| == |Names(lists, n)|
  {
    var names := Names(lists, n);
    seq(|names|, k requires 0 <= k < |names| => Group(names[k], Members(lists, Some(names[k]), n)))
  }

  method CollectGroups(lists: Lists) returns (groups: seq<Group>)
    ensures groups == Collected(lists, |lists|)
  {
    groups := [];
    for i := 0 to |lists|
      invariant groups == Collected(lists, i)
    {
      var folder := Folder(lists[i]);
      if folder.Some? {
        var at := 0;
        while at < |groups| && groups[at].name != folder.value
          invariant 0 <= at <= |groups|
          invariant forall k :: 0 <= k < at ==> groups[k].name != folder.value
        {
          at := at + 1;
        }
        CollectOne(lists, i, at);
        if at < |groups| {
          groups := groups[at := groups[at].(lists := groups[at].lists + [i])];
        } else {
          groups := groups + [Group(folder.value, [i])];
        }
      } else {
        assert Collected(lists, i + 1) == Collected(lists, i);
      }
    }
  }

  /** Each group's lists are sorted in place. */
  method SortEach(lists: Lists, unsorted: seq<Group>) returns (groups: seq<Group>)
    requires forall k :: 0 <= k < |unsorted| ==> unsorted[k].lists == Members(lists, Some(unsorted[k].name), |lists|)
    ensures |groups| == |unsorted|
    ensures forall k :: 0 <= k < |groups| ==>
              groups[k] == Group(unsorted[k].name, Siblings(lists, Some(unsorted[k].name)))
  {
    groups := unsorted;
    for i := 0 to |groups|
      invariant |groups| == |unsorted|
      invariant forall k :: i <= k < |groups| ==> groups[k] == unsorted[k]
      invariant forall k :: 0 <= k < i ==>
                  groups[k] == Group(unsorted[k].name, Siblings(lists, Some(unsorted[k].name)))
    {
      groups := groups[i := groups[i].(lists := Sort(groups[i].lists, Keys(lists, groups[i].lists, ORDER)))];
    }
  }

  method BuildGroups(lists: Lists) returns (groups: seq<Group>)
    ensures groups == Groups(lists)
  {
    groups := CollectGroups(lists);
    var keys := seq(|groups|, k requires 0 <= k < |groups| => Smallest(Keys(lists, groups[k].lists, FOLDER_ORDER)));
    ghost var names := Names(lists, |lists|);
    assert keys == FolderKeys(lists, names);
    SortCollected(lists, keys);
    groups := Sort(groups, keys);
    groups := SortEach(lists, groups);
  }

  lemma SortCollected(lists: Lists, keys: seq<int>)
    requires keys == FolderKeys(lists, Names(lists, |lists|))
    ensures var sorted := Sort(Collected(lists, |lists|), keys);
            && |sorted| == |FolderOrder(lists)|
            && forall k :: 0 <= k < |sorted| ==>
                 sorted[k] == Group(FolderOrder(lists)[k], Members(lists, Some(FolderOrder(lists)[k]), |lists|))
  {
    var sorted, names := Sort(Collected(lists, |lists|), keys), Names(lists, |lists|);
    forall k | 0 <= k < |sorted|
      ensures sorted[k] == Group(FolderOrder(lists)[k], Members(lists, Some(FolderOrder(lists)[k]), |lists|))
    {
      var at := Order(keys)[k];
      assert sorted[k] == Collected(lists, |lists|)[at] && FolderOrder(lists)[k] == names[at];
    }
  }

  /** Group `at` is the first of `i`'s folder, or there is none. */
  lemma CollectOne(lists: Lists, i: nat, at: nat)
    requires i < |lists| && Folder(lists[i]).Some? && at <= |Collected(lists, i)|
    requires forall k :: 0 <= k < at ==> Collected(lists, i)[k].name != Folder(lists[i]).value
    requires at < |Collected(lists, i)| ==> Collected(lists, i)[at].name == Folder(lists[i]).value
    ensures var groups := Collected(lists, i);
            Collected(lists, i + 1)
            == if at < |groups| then groups[at := groups[at].(lists := groups[at].lists + [i])]
               else groups + [Group(Folder(lists[i]).value, [i])]
  {
    var groups, names, name := Collected(lists, i), Names(lists, i), Folder(lists[i]).value;
    var more := Collected(lists, i + 1);
    NamesAre(lists, i);
    assert forall k :: 0 <= k < |names| ==> groups[k].name == names[k];
    if at < |groups| {
      assert names[at] == name;
      assert forall k :: 0 <= k < |names| && k != at ==> names[k] != name;
      assert forall k :: 0 <= k < |names| ==>
               more[k] == if k == at then groups[at].(lists := groups[at].lists + [i]) else groups[k];
    } else {
      assert name !in names;
      NoMembers(lists, name, i);
      assert forall k :: 0 <= k < |names| ==> more[k] == groups[k];
      assert more[|names|] == Group(name, [i]);
    }
  }

  lemma {:induction false} NoMembers(lists: Lists, name: string, n: nat)
    requires n <= |lists| && name !in Names(lists, n)
    ensures Members(lists, Some(name), n) == []
  {
    if n > 0 {
      NoMembers(lists, name, n - 1);
    }
  }

  // ----- Changes -----

  /** New fields for one list's extension; a null removes one. */
  datatype Change = Change(list: nat, fields: Entity)

  /** A list after those of the first `n` changes that are to it. */
  function Effect(plan: seq<Change>, n: nat, i: nat, list: Entity): Entity
    requires n <= |plan|
  {
    if n == 0 then list
    else
      var before := Effect(plan, n - 1, i, list);
      if plan[n - 1].list == i then Merge(before, plan[n - 1].fields) else before
  }

  function Apply(lists: Lists, plan: seq<Change>): (r: Lists)
    ensures |r| == |lists|
  {
    seq(|lists|, i requires 0 <= i < |lists| => Effect(plan, |plan|, i, lists[i]))
  }

  ghost predicate OncePerList(plan: seq<Change>)
  {
    forall j, k :: 0 <= j < k < |plan| ==> plan[j].list != plan[k].list
  }

  lemma {:induction false} EffectIs(plan: seq<Change>, n: nat, k: nat, list: Entity)
    requires OncePerList(plan) && k < n <= |plan|
    ensures Effect(plan, n, plan[k].list, list) == Merge(list, plan[k].fields)
  {
    if k < n - 1 {
      EffectIs(plan, n - 1, k, list);
    } else {
      NoEffect(plan, n - 1, plan[k].list, list);
    }
  }

  lemma {:induction false} NoEffect(plan: seq<Change>, n: nat, i: nat, list: Entity)
    requires n <= |plan| && forall k :: 0 <= k < n ==> plan[k].list != i
    ensures Effect(plan, n, i, list) == list
  {
    if n > 0 {
      NoEffect(plan, n - 1, i, list);
    }
  }

  // ----- Finding folders by name -----

  function FirstMatch(names: seq<string>, wanted: string, lower: string -> string): (r: Option<string>)
    ensures r.Some? ==> r.value in names && lower(r.value) == wanted
    ensures r.None? ==> forall name :: name in names ==> lower(name) != wanted
  {
    if names == [] then None
    else if lower(names[0]) == wanted then Some(names[0])
    else FirstMatch(names[1..], wanted, lower)
  }

  /** The folder `wanted` names: its own spelling first, else the first that differs only by case. */
  function Find(names: seq<string>, wanted: string, lower: string -> string): (r: Option<string>)
    ensures r.Some? ==> r.value in names
  {
    if Trim(wanted) in names then Some(Trim(wanted))
    else FirstMatch(names, lower(Trim(wanted)), lower)
  }

  function FolderName(name: string): Result<string, Error>
  {
    if Trim(name) == "" then Err(EmptyName)
    else if exists c :: c in Trim(name) && (c < ' ' || '\U{7f}' <= c <= '\U{9f}') then Err(ControlCharacter)
    else Ok(Trim(name))
  }

  // ----- Placing one item next to another -----

  /** `items` with `moving` next to `anchor`, on the side asked for. */
  function Place<T(==, !new)>(items: seq<T>, moving: T, anchor: T, before: bool): seq<T>
  {
    Splice(Without(items, moving), if moving in items then [moving] else [], anchor, before)
  }

  /** `middle` put into `rest` just before or after `anchor`, or last if that isn't there. */
  function Splice<T(==)>(rest: seq<T>, middle: seq<T>, anchor: T, before: bool): seq<T>
  {
    var found := IndexOf(rest, anchor);
    var at := if found < |rest| && !before then found + 1 else found;
    rest[..at] + middle + rest[at..]
  }

  /** The same: take out, find, splice in. */
  method PlaceItem<T(==, !new)>(items: seq<T>, moving: T, anchor: T, before: bool) returns (rest: seq<T>)
    ensures rest == Place(items, moving, anchor, before)
  {
    rest := [];
    for i := 0 to |items|
      invariant rest == Without(items[..i], moving)
    {
      assert items[..i + 1][..i] == items[..i];
      if items[i] != moving {
        rest := rest + [items[i]];
      }
    }
    assert items[..|items|] == items;
    var at := IndexOf(rest, anchor);
    if at < |rest| && !before {
      at := at + 1;
    }
    rest := rest[..at] + (if moving in items then [moving] else []) + rest[at..];
  }

  // ----- Plans -----

  const NO_FOLDER: Entity := map[FOLDER := Null, FOLDER_ORDER := Null, ORDER := Null]

  function FirstPlace(lists: Lists, members: seq<nat>): Value
    requires forall k :: 0 <= k < |members| ==> members[k] < |lists|
  {
    if members == [] then Null
    else
      match Integer(Get(lists[members[0]], FOLDER_ORDER))
      case Some(n) => Number(n)
      case None => FirstPlace(lists, members[1..])
  }

  lemma SiblingsAre(lists: Lists, folder: Option<string>)
    ensures forall i :: i in Siblings(lists, folder) <==> 0 <= i < |lists| && Folder(lists[i]) == folder
    ensures forall k :: 0 <= k < |Siblings(lists, folder)| ==> Siblings(lists, folder)[k] < |lists|
    ensures Distinct(Siblings(lists, folder))
  {
    var members := Members(lists, folder, |lists|);
    MembersAre(lists, folder, |lists|);
    SortKeeps(members, Keys(lists, members, ORDER));
    var siblings := Siblings(lists, folder);
    forall k | 0 <= k < |siblings| ensures siblings[k] < |lists| {
      assert siblings[k] in siblings;
    }
  }

  function MoveFields(list: Entity, name: string, folderOrder: Value): Entity
  {
    var fields: Entity := map[FOLDER := Text(name), FOLDER_ORDER := folderOrder];
    if Folder(list) != Some(name) then fields[ORDER := Null] else fields
  }

  /** The folder's name as its lists spell it, and the number they carry for it. */
  function Destination(lists: Lists, folder: string, lower: string -> string): Result<(string, Value), Error>
  {
    match FolderName(folder)
    case Err(e) => Err(e)
    case Ok(name) =>
      match Find(FolderOrder(lists), name, lower)
      case None => Ok((name, Null))
      case Some(existing) =>
        SiblingsAre(lists, Some(existing));
        Ok((existing, FirstPlace(lists, Siblings(lists, Some(existing)))))
  }

  function MoveLists(lists: Lists, targets: seq<nat>, folder: Option<string>, lower: string -> string)
    : Result<seq<Change>, Error>
    requires forall k :: 0 <= k < |targets| ==> targets[k] < |lists|
  {
    match folder
    case None => Ok(seq(|targets|, k requires 0 <= k < |targets| => Change(targets[k], NO_FOLDER)))
    case Some(typed) =>
      match Destination(lists, typed, lower)
      case Err(e) => Err(e)
      case Ok((name, folderOrder)) =>
        Ok(seq(|targets|, k requires 0 <= k < |targets| =>
          Change(targets[k], MoveFields(lists[targets[k]], name, folderOrder))))
  }

  /** A list and the number it is to have. */
  datatype Ranked = Ranked(list: nat, rank: int)

  /** The changes that give each list its number, but for those that have it. */
  function Renumber(lists: Lists, field: Key, numbers: seq<Ranked>, n: nat): seq<Change>
    requires n <= |numbers| && forall k :: 0 <= k < |numbers| ==> numbers[k].list < |lists|
  {
    if n == 0 then []
    else
      var rest, Ranked(list, number) := Renumber(lists, field, numbers, n - 1), numbers[n - 1];
      if Integer(Get(lists[list], field)) == Some(number) then rest
      else rest + [Change(list, map[field := Number(number)])]
  }

  function Counted(s: seq<nat>): (r: seq<Ranked>)
    ensures |r| == |s| && forall i :: 0 <= i < |s| ==> r[i] == Ranked(s[i], i + 1)
  {
    seq(|s|, i requires 0 <= i < |s| => Ranked(s[i], i + 1))
  }

  /** Placing keeps every item, once if it was there once. */
  lemma PlacedIn<T(!new)>(items: seq<T>, moving: T, anchor: T, before: bool)
    ensures forall x :: x in Place(items, moving, anchor, before) <==> x in items
    ensures Distinct(items) ==> Distinct(Place(items, moving, anchor, before))
  {
    var head, tail := PlaceSplits(items, moving, anchor, before);
    var middle := if moving in items then [moving] else [];
    assert Place(items, moving, anchor, before) == head + middle + tail;
    if moving in items {
      Spliced(head, moving, tail);
    } else {
      assert head + middle + tail == head + tail;
    }
  }

  lemma PlaceSplits<T(!new)>(items: seq<T>, moving: T, anchor: T, before: bool) returns (head: seq<T>, tail: seq<T>)
    ensures head + tail == Without(items, moving)
    ensures Place(items, moving, anchor, before) == head + (if moving in items then [moving] else []) + tail
  {
    head, tail := SpliceSplits(Without(items, moving), if moving in items then [moving] else [], anchor, before);
  }

  lemma SpliceSplits<T>(rest: seq<T>, middle: seq<T>, anchor: T, before: bool) returns (head: seq<T>, tail: seq<T>)
    ensures head + tail == rest && Splice(rest, middle, anchor, before) == head + middle + tail
  {
    var found := IndexOf(rest, anchor);
    var at := if found < |rest| && !before then found + 1 else found;
    head, tail := rest[..at], rest[at..];
  }

  lemma Spliced<T(!new)>(head: seq<T>, x: T, tail: seq<T>)
    requires x !in head + tail
    ensures forall y :: y in head + [x] + tail <==> y in head + tail || y == x
    ensures Distinct(head + tail) ==> Distinct(head + [x] + tail)
  {
    var rest, s, n := head + tail, head + [x] + tail, |head|;
    if Distinct(rest) {
      forall i, j | 0 <= i < j < |s| ensures s[i] != s[j] {
        assert i != n ==> s[i] == rest[if i < n then i else i - 1];
        assert j != n ==> s[j] == rest[if j < n then j else j - 1];
      }
    }
  }

  function OrderList(lists: Lists, list: nat, anchor: nat, before: bool): Result<seq<Change>, Error>
    requires list < |lists| && anchor < |lists|
  {
    if list == anchor then Err(NextToItself)
    else if Folder(lists[list]) != Folder(lists[anchor]) then Err(OtherFolder)
    else
      var siblings := Siblings(lists, Folder(lists[list]));
      var placed := Place(siblings, list, anchor, before);
      SiblingsAre(lists, Folder(lists[list]));
      PlacedIn(siblings, list, anchor, before);
      assert forall k :: 0 <= k < |placed| ==> placed[k] in siblings;
      Ok(Renumber(lists, ORDER, Counted(placed), |placed|))
  }

  function Each(lists: seq<nat>, fields: Entity): (r: seq<Change>)
    ensures |r| == |lists|
    ensures forall k :: 0 <= k < |r| ==> r[k] == Change(lists[k], fields)
  {
    seq(|lists|, k requires 0 <= k < |lists| => Change(lists[k], fields))
  }

  function Rename(lists: Lists, folder: string, newName: string, lower: string -> string): Result<seq<Change>, Error>
  {
    match Find(FolderOrder(lists), folder, lower)
    case None => Err(NoSuchFolder)
    case Some(name) =>
      match FolderName(newName)
      case Err(e) => Err(e)
      case Ok(given) =>
        var other := Find(FolderOrder(lists), given, lower);
        if other.Some? && other.value != name then Err(NameTaken)
        else Ok(Each(Siblings(lists, Some(name)), map[FOLDER := Text(given)]))
  }

  function Delete(lists: Lists, folder: string, lower: string -> string): Result<seq<Change>, Error>
  {
    match Find(FolderOrder(lists), folder, lower)
    case None => Err(NoSuchFolder)
    case Some(name) => Ok(Each(Siblings(lists, Some(name)), NO_FOLDER))
  }

  /** The lists of the first `n` of `groups`, each with its group's number. */
  function Ranks(groups: seq<seq<nat>>, n: nat): seq<Ranked>
    requires n <= |groups|
  {
    if n == 0 then [] else Ranks(groups, n - 1) + Given(groups[n - 1], n)
  }

  function Given(lists: seq<nat>, number: int): (r: seq<Ranked>)
    ensures |r| == |lists| && forall k :: 0 <= k < |r| ==> r[k] == Ranked(lists[k], number)
  {
    seq(|lists|, k requires 0 <= k < |lists| => Ranked(lists[k], number))
  }

  /** Every group's lists are lists there are. */
  ghost predicate Exist(groups: seq<seq<nat>>, count: nat)
  {
    forall k, j :: 0 <= k < |groups| && 0 <= j < |groups[k]| ==> groups[k][j] < count
  }

  lemma {:induction false} RanksExist(groups: seq<seq<nat>>, n: nat, count: nat)
    requires n <= |groups| && Exist(groups, count)
    ensures forall k :: 0 <= k < |Ranks(groups, n)| ==> Ranks(groups, n)[k].list < count
  {
    if n > 0 {
      RanksExist(groups, n - 1, count);
    }
  }

  function ListsOf(lists: Lists, names: seq<string>): (r: seq<seq<nat>>)
    ensures |r| == |names|
    ensures Exist(r, |lists|)
  {
    var r := seq(|names|, k requires 0 <= k < |names| => Siblings(lists, Some(names[k])));
    SiblingsExist(lists, names, r);
    r
  }

  lemma SiblingsExist(lists: Lists, names: seq<string>, groups: seq<seq<nat>>)
    requires |groups| == |names| && forall k :: 0 <= k < |names| ==> groups[k] == Siblings(lists, Some(names[k]))
    ensures Exist(groups, |lists|)
  {
    forall k, j | 0 <= k < |groups| && 0 <= j < |groups[k]| ensures groups[k][j] < |lists| {
      SiblingsAre(lists, Some(names[k]));
    }
  }

  /** The lists of each of `names`, each with its folder's number. */
  function FolderNumbers(lists: Lists, names: seq<string>): (r: seq<Ranked>)
    ensures forall k :: 0 <= k < |r| ==> r[k].list < |lists|
  {
    RanksExist(ListsOf(lists, names), |names|, |lists|);
    Ranks(ListsOf(lists, names), |names|)
  }

  function OrderFolder(lists: Lists, folder: string, anchor: string, before: bool, lower: string -> string)
    : Result<seq<Change>, Error>
  {
    var names := FolderOrder(lists);
    match (Find(names, folder, lower), Find(names, anchor, lower))
    case (None, _) => Err(NoSuchFolder)
    case (_, None) => Err(NoSuchFolder)
    case (Some(moving), Some(other)) =>
      if moving == other then Err(NextToItself)
      else
        var placed := Place(names, moving, other, before);
        var numbers := FolderNumbers(lists, placed);
        Ok(Renumber(lists, FOLDER_ORDER, numbers, |numbers|))
  }
}
