/**
 The operation IDs of a command: its own ID for the first operation, then
 `<command>.<index>`.
 */
module OpIds {

  function Digit(d: nat): char
    requires d < 10
  {
    '0' + d as char
  }

  function Decimal(n: nat): string
  {
    if n < 10 then [Digit(n)] else Decimal(n / 10) + [Digit(n % 10)]
  }

  predicate AllDigits(name: string)
  {
    name != "" && forall k :: 0 <= k < |name| ==> '0' <= name[k] <= '9'
  }

  function Parsed(name: string): nat
    requires forall k :: 0 <= k < |name| ==> '0' <= name[k] <= '9'
  {
    if name == "" then 0
    else
      10 * Parsed(name[..|name| - 1]) + (name[|name| - 1] - '0') as nat
  }

  lemma {:induction false} DecimalParses(n: nat)
    ensures AllDigits(Decimal(n)) && Parsed(Decimal(n)) == n
  {
    if n < 10 {
      assert Decimal(n)[..0] == "";
    } else {
      DecimalParses(n / 10);
      assert Decimal(n)[..|Decimal(n)| - 1] == Decimal(n / 10);
    }
  }

  function OpIdFor(command: string, index: nat): string
  {
    if index == 0 then command else command + "." + Decimal(index)
  }

  lemma {:induction false} DecimalInjective(m: nat, n: nat)
    requires Decimal(m) == Decimal(n)
    ensures m == n
  {
    var a, b := Decimal(m), Decimal(n);
    assert a[|a| - 1] == Digit(m % 10) && b[|b| - 1] == Digit(n % 10);
    if m >= 10 && n >= 10 {
      assert a[..|a| - 1] == Decimal(m / 10) && b[..|b| - 1] == Decimal(n / 10);
      DecimalInjective(m / 10, n / 10);
    }
  }

  /** No two operations of one command share an ID. */
  lemma {:induction false} OpIdsDistinct(command: string, i: nat, j: nat)
    ensures OpIdFor(command, i) == OpIdFor(command, j) <==> i == j
  {
    var a, b := OpIdFor(command, i), OpIdFor(command, j);
    if a == b && i != 0 && j != 0 {
      assert a[|command| + 1..] == Decimal(i) && b[|command| + 1..] == Decimal(j);
      DecimalInjective(i, j);
    }
  }

  /** An ID says which operation of which command it is: the command's own, or that and a number after a dot. */
  lemma {:induction false} OpIdReads(command: string, index: nat) returns (digits: string)
    ensures index == 0 ==> OpIdFor(command, index) == command
    ensures index > 0 ==> OpIdFor(command, index) == command + "." + digits && AllDigits(digits) && Parsed(digits) == index
  {
    digits := Decimal(index);
    DecimalParses(index);
  }
}
