/** Integer arithmetic the services share. */
module Integers {
  function Abs(x: int): nat {
    if x < 0 then -x else x
  }

  function Min(a: int, b: int): int {
    if a < b then a else b
  }

  function Max(a: int, b: int): int {
    if a > b then a else b
  }

  lemma Divided(a: nat, p: nat)
    requires 0 < p
    ensures 0 <= a / p && 0 <= a % p < p && a == a / p * p + a % p
  {
  }

  function Quotient(n: nat, d: nat): (q: nat)
    requires 0 < d
    ensures 0 <= n - q * d < d
  {
    Divided(n, d);
    n / d
  }

  /** Division that drops the fraction, whatever the sign. */
  function TruncDiv(a: int, b: int): int
    requires 0 < b
  {
    var magnitude: int := Quotient(Abs(a), b);
    if a >= 0 then magnitude else -magnitude
  }

  function Total(s: seq<int>): int {
    if s == [] then 0 else Total(s[..|s| - 1]) + s[|s| - 1]
  }

  lemma {:induction false} TotalFromFront(s: seq<int>)
    requires s != []
    ensures Total(s) == s[0] + Total(s[1..])
  {
    if |s| > 1 {
      TotalFromFront(s[..|s| - 1]);
      assert s[1..][..|s| - 2] == s[..|s| - 1][1..];
    }
  }
}
