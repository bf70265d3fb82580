/** Small things about sequences and about taking turns. */
module Sequences {

  ghost predicate Distinct<T>(s: seq<T>)
  {
    forall i, j :: 0 <= i < j < |s| ==> s[i] != s[j]
  }

  function Without<T(==, !new)>(s: seq<T>, x: T): (r: seq<T>)
    ensures forall y :: y in r <==> y in s && y != x
    ensures Distinct(s) ==> Distinct(r)
    ensures x !in s ==> r == s
  {
    if s == [] then []
    else
      var rest := Without(s[..|s| - 1], x);
      assert s == s[..|s| - 1] + [s[|s| - 1]];
      assert Distinct(s) ==> Distinct(s[..|s| - 1]) && s[|s| - 1] !in s[..|s| - 1];
      if s[|s| - 1] == x then rest else rest + [s[|s| - 1]]
  }

  /** What is left is in the order it was in. */
  lemma {:induction false} WithoutInOrder<T(!new)>(s: seq<T>, x: T, i: nat, j: nat) returns (a: nat, b: nat)
    requires i < j < |Without(s, x)|
    ensures a < b < |s| && s[a] == Without(s, x)[i] && s[b] == Without(s, x)[j]
    decreases |s|
  {
    var n := |s| - 1;
    var rest := Without(s[..n], x);
    if j < |rest| {
      a, b := WithoutInOrder(s[..n], x, i, j);
    } else {
      assert rest[i] in s[..n];
      a :| 0 <= a < n && s[a] == rest[i];
      b := n;
    }
  }

  function IndexOf<T(==)>(s: seq<T>, x: T): (i: nat)
    ensures i <= |s|
    ensures x in s <==> i < |s|
    ensures i < |s| ==> s[i] == x
  {
    if s == [] then 0 else if s[0] == x then 0 else 1 + IndexOf(s[1..], x)
  }

  /** Where `n` changes of side lead, `now` being this side and `other` the other. */
  ghost function Side<T>(now: T, other: T, n: nat): T
  {
    if n % 2 == 0 then now else other
  }

  lemma SideFlips<T>(now: T, other: T, n: nat)
    requires n > 0
    ensures Side(now, other, n) == Side(other, now, n - 1)
  {
  }
}
