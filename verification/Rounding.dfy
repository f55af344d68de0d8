/** Banker's rounding of exact amounts. */
module Rounding {
  function BankersRound(value: real): int {
    var floor := value.Floor;
    var diff := value - floor as real;
    if diff < 0.5 then floor
    else if diff > 0.5 then floor + 1
    else if floor % 2 == 0 then floor
    else floor + 1
  }

  /** `r` is a nearest integer, and the even one when two are equally near. */
  predicate Nearest(r: int, value: real) {
    var gap := r as real - value;
    -0.5 < gap < 0.5 || ((gap == 0.5 || gap == -0.5) && r % 2 == 0)
  }

  lemma NearestIsUnique(r: int, s: int, value: real)
    requires Nearest(r, value) && Nearest(s, value)
    ensures r == s
  {
    assert -1.0 <= (r - s) as real <= 1.0;
  }

  lemma RoundIsNearest(value: real)
    ensures Nearest(BankersRound(value), value)
  {
  }

  /** Rounding returns the nearest integer, the even one of two: nothing else does. */
  lemma RoundsToNearest(value: real, r: int)
    ensures BankersRound(value) == r <==> Nearest(r, value)
  {
    RoundIsNearest(value);
    if Nearest(r, value) {
      NearestIsUnique(r, BankersRound(value), value);
    }
  }

  lemma RoundMonotone(v: real, w: real)
    requires v <= w
    ensures BankersRound(v) <= BankersRound(w)
  {
    var r, s := BankersRound(v), BankersRound(w);
    RoundIsNearest(v);
    RoundIsNearest(w);
    assert s < r ==> (r - s) as real >= 1.0;
    assert s < r ==> v == w;
  }

  lemma RoundedWithinHalf(value: real)
    ensures -0.5 <= BankersRound(value) as real - value <= 0.5
  {
    RoundIsNearest(value);
  }

  lemma RoundNonNegative(value: real)
    requires 0.0 <= value
    ensures 0 <= BankersRound(value)
  {
    RoundIsNearest(value);
  }
}
