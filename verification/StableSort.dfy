/**
 Stable sorting, told as the order of positions: the same keys give the same
 order whatever is sorted, and no other order is sorted with ties as found.
 */
module StableSort {
  import opened Sequences

  predicate Before(keys: seq<int>, a: nat, b: nat)
    requires a < |keys| && b < |keys|
  {
    keys[a] < keys[b] || (keys[a] == keys[b] && a < b)
  }

  /** Where `n` goes: after every position whose key is no more than its own. */
  function InsertAt(order: seq<nat>, keys: seq<int>, n: nat): (at: nat)
    requires n < |keys| && forall i :: 0 <= i < |order| ==> order[i] < |keys|
    ensures at <= |order|
  {
    if order == [] || keys[order[|order| - 1]] <= keys[n] then |order|
    else InsertAt(order[..|order| - 1], keys, n)
  }

  /** The positions of the first `n` keys, smallest key first and ties as found. */
  function OrderOf(keys: seq<int>, n: nat): (order: seq<nat>)
    requires n <= |keys|
    ensures |order| == n
    ensures forall i :: 0 <= i < n ==> order[i] < n
  {
    if n == 0 then []
    else
      var rest := OrderOf(keys, n - 1);
      var at := InsertAt(rest, keys, n - 1);
      rest[..at] + [n - 1] + rest[at..]
  }

  function Order(keys: seq<int>): (order: seq<nat>)
    ensures |order| == |keys|
    ensures forall i :: 0 <= i < |keys| ==> order[i] < |keys|
  {
    OrderOf(keys, |keys|)
  }

  /** `s` sorted by `keys`, the key of each. */
  function Sort<T>(s: seq<T>, keys: seq<int>): (r: seq<T>)
    requires |s| == |keys|
    ensures |r| == |s|
  {
    seq(|s|, i requires 0 <= i < |s| => s[Order(keys)[i]])
  }

  // ----- It is the one stable order -----

  /** `order` lists each of the first `n` positions, each before the next. */
  ghost predicate IsOrder(keys: seq<int>, order: seq<nat>, n: nat)
    requires n <= |keys|
  {
    && |order| == n && (forall i :: 0 <= i < n ==> order[i] < n)
    && (forall i, j :: 0 <= i < j < n ==> Before(keys, order[i], order[j]))
    && (forall a :: 0 <= a < n ==> a in order)
  }

  lemma {:induction false} InsertSplits(order: seq<nat>, keys: seq<int>, n: nat)
    requires n < |keys| && (forall i :: 0 <= i < |order| ==> order[i] < n)
    requires forall i, j :: 0 <= i < j < |order| ==> Before(keys, order[i], order[j])
    ensures var at := InsertAt(order, keys, n);
            && (forall i :: 0 <= i < at ==> Before(keys, order[i], n))
            && (forall i :: at <= i < |order| ==> Before(keys, n, order[i]))
  {
    if order != [] && keys[order[|order| - 1]] > keys[n] {
      InsertSplits(order[..|order| - 1], keys, n);
    }
  }

  lemma InsertKeepsAll(rest: seq<nat>, at: nat, n: nat)
    requires at <= |rest| && forall a :: 0 <= a < n ==> a in rest
    ensures forall a :: 0 <= a <= n ==> a in rest[..at] + [n] + rest[at..]
  {
    var more := rest[..at] + [n] + rest[at..];
    assert more[at] == n;
    forall a | 0 <= a < n ensures a in more {
      assert a in rest;
      var i :| 0 <= i < |rest| && rest[i] == a;
      assert more[if i < at then i else i + 1] == a;
    }
  }

  lemma {:induction false} OrderIsOrder(keys: seq<int>, n: nat)
    requires n <= |keys|
    ensures IsOrder(keys, OrderOf(keys, n), n)
  {
    if n > 0 {
      OrderIsOrder(keys, n - 1);
      var rest := OrderOf(keys, n - 1);
      InsertSplits(rest, keys, n - 1);
      InsertIsOrder(keys, rest, InsertAt(rest, keys, n - 1), n - 1);
    }
  }

  lemma InsertIsOrder(keys: seq<int>, rest: seq<nat>, at: nat, n: nat)
    requires n < |keys| && IsOrder(keys, rest, n) && at <= |rest|
    requires forall i :: 0 <= i < at ==> Before(keys, rest[i], n)
    requires forall i :: at <= i < |rest| ==> Before(keys, n, rest[i])
    ensures IsOrder(keys, rest[..at] + [n] + rest[at..], n + 1)
  {
    var more := rest[..at] + [n] + rest[at..];
    InsertKeepsAll(rest, at, n);
    assert forall i :: 0 <= i < |more| ==> more[i] == if i < at then rest[i] else if i == at then n else rest[i - 1];
  }

  lemma {:induction false} SameUpTo(keys: seq<int>, p: seq<nat>, q: seq<nat>, k: nat)
    requires IsOrder(keys, p, |keys|) && IsOrder(keys, q, |keys|) && k <= |keys|
    ensures p[..k] == q[..k]
  {
    if k > 0 {
      SameUpTo(keys, p, q, k - 1);
      assert forall i :: 0 <= i < k - 1 ==> p[..k - 1][i] == p[i] && q[..k - 1][i] == q[i];
      assert p[k - 1] in q && q[k - 1] in p;
      var i :| 0 <= i < |q| && q[i] == p[k - 1];
      var j :| 0 <= j < |p| && p[j] == q[k - 1];
    }
  }

  /** Anything sorted, with ties as found, is the sort. */
  lemma OnlyOrder(keys: seq<int>, p: seq<nat>)
    requires IsOrder(keys, p, |keys|)
    ensures p == Order(keys)
  {
    OrderIsOrder(keys, |keys|);
    SameUpTo(keys, p, Order(keys), |keys|);
    assert p[..|keys|] == p && Order(keys)[..|keys|] == Order(keys);
  }

  // ----- What sorting keeps -----

  lemma SortKeeps<T>(s: seq<T>, keys: seq<int>)
    requires |s| == |keys|
    ensures forall x :: x in Sort(s, keys) <==> x in s
    ensures Distinct(s) ==> Distinct(Sort(s, keys))
  {
    OrderIsOrder(keys, |keys|);
    var order, r := Order(keys), Sort(s, keys);
    forall x | x in s ensures x in r {
      var a :| 0 <= a < |s| && s[a] == x;
      assert a in order;
      var i :| 0 <= i < |order| && order[i] == a;
      assert r[i] == x;
    }
  }

  /** A smaller key comes first. */
  lemma ComesFirst<T>(s: seq<T>, keys: seq<int>, a: nat, b: nat) returns (i: nat, j: nat)
    requires |s| == |keys| && a < |s| && b < |s| && Before(keys, a, b)
    ensures i < j < |s| && Sort(s, keys)[i] == s[a] && Sort(s, keys)[j] == s[b]
  {
    OrderIsOrder(keys, |keys|);
    var order := Order(keys);
    assert a in order && b in order;
    i :| 0 <= i < |order| && order[i] == a;
    j :| 0 <= j < |order| && order[j] == b;
  }

  /** What is sorted is in the order of its keys, ties as found. */
  lemma SortedInOrder<T>(s: seq<T>, keys: seq<int>, i: nat, j: nat) returns (a: nat, b: nat)
    requires |s| == |keys| && i < j < |s|
    ensures a < |s| && b < |s| && Sort(s, keys)[i] == s[a] && Sort(s, keys)[j] == s[b] && Before(keys, a, b)
  {
    OrderIsOrder(keys, |keys|);
    a, b := Order(keys)[i], Order(keys)[j];
  }

  /** Two lists of the same things, each in one and the same order, are the same. */
  lemma {:induction false} OneOrder<T(!new)>(before: (T, T) -> bool, p: seq<T>, q: seq<T>, k: nat)
    requires Distinct(p) && Distinct(q) && |p| == |q| && k <= |p|
    requires (forall x :: x in p <==> x in q) && forall x, y :: before(x, y) ==> !before(y, x)
    requires forall i, j :: 0 <= i < j < |p| ==> before(p[i], p[j])
    requires forall i, j :: 0 <= i < j < |q| ==> before(q[i], q[j])
    ensures forall i :: 0 <= i < k ==> p[i] == q[i]
  {
    if k > 0 {
      OneOrder(before, p, q, k - 1);
      assert p[k - 1] in q && q[k - 1] in p;
      var i :| 0 <= i < |q| && q[i] == p[k - 1];
      var j :| 0 <= j < |p| && p[j] == q[k - 1];
    }
  }

  /** `r` lists `s` by keys that count up from 1. */
  ghost predicate Numbers<T>(s: seq<T>, keys: seq<int>, r: seq<T>)
  {
    && |s| == |keys| == |r|
    && forall k :: 0 <= k < |s| ==> 1 <= keys[k] <= |r| && r[keys[k] - 1] == s[k]
  }

  /** Where each of `r` is in `s`. */
  lemma {:induction false} Positions<T>(s: seq<T>, r: seq<T>, n: nat) returns (p: seq<nat>)
    requires n <= |r| && forall x :: x in r ==> x in s
    ensures |p| == n && forall i :: 0 <= i < n ==> p[i] < |s| && s[p[i]] == r[i]
  {
    if n == 0 {
      p := [];
    } else {
      p := Positions(s, r, n - 1);
      assert r[n - 1] in s;
      var k :| 0 <= k < |s| && s[k] == r[n - 1];
      p := p + [k];
    }
  }

  /** Numbering 1, 2, 3, … decides the sort: whatever was found where, it is as numbered. */
  lemma NumberedIsSorted<T>(s: seq<T>, keys: seq<int>, r: seq<T>)
    requires Numbers(s, keys, r) && Distinct(s) && Distinct(r) && forall x :: x in r ==> x in s
    ensures Sort(s, keys) == r
  {
    var p := Positions(s, r, |r|);
    forall i | 0 <= i < |r| ensures keys[p[i]] == i + 1 {
      assert r[keys[p[i]] - 1] == r[i];
    }
    forall a | 0 <= a < |s| ensures a in p {
      var i := keys[a] - 1;
      assert r[i] == s[a] && s[p[i]] == r[i];
      assert p[i] == a;
    }
    OnlyOrder(keys, p);
  }

  // ----- Counting -----

  function Range(n: nat): set<nat>
  {
    if n == 0 then {} else Range(n - 1) + {n - 1}
  }

  lemma {:induction false} RangeIs(n: nat)
    ensures |Range(n)| == n && forall i :: i in Range(n) <==> 0 <= i < n
  {
    if n > 0 {
      RangeIs(n - 1);
    }
  }

  function Elements(s: seq<nat>): set<nat>
  {
    if s == [] then {} else Elements(s[..|s| - 1]) + {s[|s| - 1]}
  }

  lemma {:induction false} ElementsAre(s: seq<nat>)
    requires Distinct(s)
    ensures |Elements(s)| == |s| && forall x :: x in Elements(s) <==> x in s
  {
    if s != [] {
      var n := |s| - 1;
      assert s == s[..n] + [s[n]];
      assert s[n] !in s[..n];
      ElementsAre(s[..n]);
    }
  }

  /** Distinct positions below `n` are at most `n`. */
  lemma Pigeonhole(s: seq<nat>, n: nat)
    requires Distinct(s) && forall k :: 0 <= k < |s| ==> s[k] < n
    ensures |s| <= n
  {
    RangeIs(n);
    ElementsAre(s);
    assert Elements(s) <= Range(n);
    assert Range(n) == Elements(s) + (Range(n) - Elements(s));
  }
}
