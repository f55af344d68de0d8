/** Splitting an amount by ratios, given in millionths. */
module Allocation {
  import opened Wrappers
  import opened Integers
  import opened Money

  function RawShares(absTotal: nat, ratios: seq<int>, total: int): (shares: seq<int>)
    requires 0 < total
    ensures |shares| == |ratios|
  {
    seq(|ratios|, i requires 0 <= i < |ratios| => TruncDiv(absTotal * ratios[i], total))
  }

  /** The first `remainder` shares get one unit more. */
  function Topped(raw: seq<int>, remainder: int): (shares: seq<int>)
    ensures |shares| == |raw|
  {
    seq(|raw|, i requires 0 <= i < |raw| => raw[i] + if i < remainder then 1 else 0)
  }

  function Signed(negative: bool, shares: seq<int>): seq<int> {
    seq(|shares|, i requires 0 <= i < |shares| => if negative then -shares[i] else shares[i])
  }

  function Allocated(amountMinor: int, ratios: seq<int>): Result<seq<int>, MoneyError> {
    if ratios == [] then Failure(NoRatio)
    else if Total(ratios) <= 0 then Failure(NonPositiveRatioTotal)
    else
      var absTotal := Abs(amountMinor);
      var raw := RawShares(absTotal, ratios, Total(ratios));
      Success(Signed(amountMinor < 0, Topped(raw, absTotal - Total(raw))))
  }

  // ----- sums -----

  lemma SumStep(s: seq<int>, i: nat)
    requires i < |s|
    ensures Total(s[..i + 1]) == Total(s[..i]) + s[i]
  {
    assert s[..i + 1][..i] == s[..i];
  }

  lemma {:induction false} SumSigned(negative: bool, shares: seq<int>)
    ensures Total(Signed(negative, shares)) == if negative then -Total(shares) else Total(shares)
  {
    if shares != [] {
      assert Signed(negative, shares)[..|shares| - 1] == Signed(negative, shares[..|shares| - 1]);
      SumSigned(negative, shares[..|shares| - 1]);
    }
  }

  lemma {:induction false} SumTopped(raw: seq<int>, remainder: int)
    requires remainder <= |raw|
    ensures Total(Topped(raw, remainder)) == Total(raw) + if remainder > 0 then remainder else 0
    decreases |raw|
  {
    if raw != [] {
      var n := |raw| - 1;
      assert Topped(raw, remainder)[..n] == Topped(raw[..n], if remainder > n then n else remainder);
      SumTopped(raw[..n], if remainder > n then n else remainder);
    }
  }

  // ----- the remainder -----

  /** What truncation drops from one quotient, scaled by the divisor. */
  function Dropped(a: int, b: int): int
    requires 0 < b
  {
    a - TruncDiv(a, b) * b
  }

  lemma NegativeTimes(x: int, y: int)
    ensures -x * y == -(x * y)
  {
  }

  lemma TruncBound(a: int, b: int)
    requires 0 < b
    ensures -b < Dropped(a, b) < b && (a >= 0 ==> 0 <= Dropped(a, b) && 0 <= TruncDiv(a, b))
  {
    if a < 0 {
      NegativeTimes(Quotient(-a, b), b);
    }
  }

  lemma AddTimes(x: int, y: int, z: int)
    ensures (x + y) * z == x * z + y * z
  {
  }

  function TotalDropped(absTotal: nat, ratios: seq<int>, total: int): int
    requires 0 < total
  {
    if ratios == [] then 0
    else TotalDropped(absTotal, ratios[..|ratios| - 1], total) + Dropped(absTotal * ratios[|ratios| - 1], total)
  }

  lemma {:induction false} DroppedIs(absTotal: nat, ratios: seq<int>, total: int)
    requires 0 < total
    ensures TotalDropped(absTotal, ratios, total) == Total(ratios) * absTotal - Total(RawShares(absTotal, ratios, total)) * total
  {
    if ratios != [] {
      var n := |ratios| - 1;
      var raw := RawShares(absTotal, ratios, total);
      DroppedIs(absTotal, ratios[..n], total);
      assert raw[..n] == RawShares(absTotal, ratios[..n], total);
      AddTimes(Total(ratios[..n]), ratios[n], absTotal);
      AddTimes(Total(raw[..n]), raw[n], total);
    }
  }

  predicate NoNegative(ratios: seq<int>) {
    forall i :: 0 <= i < |ratios| ==> 0 <= ratios[i]
  }

  lemma ProductNonNegative(x: int, y: int)
    requires 0 <= x && 0 <= y
    ensures 0 <= x * y
  {
  }

  /** What truncation drops over all the shares is less than one unit per share. */
  lemma {:induction false} DroppedBound(absTotal: nat, ratios: seq<int>, total: int)
    requires 0 < total
    ensures TotalDropped(absTotal, ratios, total) <= |ratios| * (total - 1)
    ensures NoNegative(ratios) ==> 0 <= TotalDropped(absTotal, ratios, total)
  {
    if ratios != [] {
      var n := |ratios| - 1;
      DroppedBound(absTotal, ratios[..n], total);
      AddTimes(n, 1, total - 1);
      TruncBound(absTotal * ratios[n], total);
      if ratios[n] >= 0 {
        ProductNonNegative(absTotal, ratios[n]);
      }
    }
  }

  lemma Cancel(x: int, n: nat, total: int)
    requires 0 < total && 0 < n && x * total <= n * (total - 1)
    ensures x < n
  {
    assert x >= n ==> (x - n) * total >= 0;
  }

  lemma CancelBelow(x: int, total: int)
    requires 0 < total && 0 <= x * total
    ensures 0 <= x
  {
    assert x < 0 ==> x * total < 0;
  }

  lemma RemainderFromDropped(absTotal: int, distributed: int, total: int, n: nat, dropped: int)
    requires 0 < total && 0 < n && dropped == total * absTotal - distributed * total && dropped <= n * (total - 1)
    ensures absTotal - distributed < n && (0 <= dropped ==> 0 <= absTotal - distributed)
  {
    AddTimes(absTotal - distributed, distributed, total);
    Cancel(absTotal - distributed, n, total);
    if 0 <= dropped {
      CancelBelow(absTotal - distributed, total);
    }
  }

  /** The remainder is always smaller than the number of ratios, and not negative when no ratio is. */
  lemma RemainderBound(absTotal: nat, ratios: seq<int>)
    requires ratios != [] && 0 < Total(ratios)
    ensures var remainder := absTotal - Total(RawShares(absTotal, ratios, Total(ratios)));
      remainder < |ratios| && (NoNegative(ratios) ==> 0 <= remainder)
  {
    var total := Total(ratios);
    DroppedBound(absTotal, ratios, total);
    DroppedIs(absTotal, ratios, total);
    RemainderFromDropped(absTotal, Total(RawShares(absTotal, ratios, total)), total, |ratios|,
                           TotalDropped(absTotal, ratios, total));
  }

  // ----- the guarantees -----

  /** The shares add up to the amount exactly when truncation does not already distribute more than there is. */
  lemma SharesAddUp(amountMinor: int, ratios: seq<int>)
    requires ratios != [] && 0 < Total(ratios)
    ensures Total(Allocated(amountMinor, ratios).value) == amountMinor
       <==> Total(RawShares(Abs(amountMinor), ratios, Total(ratios))) <= Abs(amountMinor)
  {
    var absTotal := Abs(amountMinor);
    var raw := RawShares(absTotal, ratios, Total(ratios));
    RemainderBound(absTotal, ratios);
    SumTopped(raw, absTotal - Total(raw));
    SumSigned(amountMinor < 0, Topped(raw, absTotal - Total(raw)));
  }

  /** `share` is the exact quota `absTotal * ratio / total` rounded down, or that plus one. */
  predicate NearQuota(share: int, absTotal: nat, ratio: int, total: int) {
    (share - 1) * total <= absTotal * ratio < (share + 1) * total
  }

  lemma RawNearQuota(absTotal: nat, ratio: int, total: int, extra: int)
    requires 0 < total && 0 <= ratio && 0 <= extra <= 1
    ensures var raw := TruncDiv(absTotal * ratio, total);
      0 <= raw && NearQuota(raw + extra, absTotal, ratio, total)
  {
    var raw := TruncDiv(absTotal * ratio, total);
    ProductNonNegative(absTotal, ratio);
    TruncBound(absTotal * ratio, total);
    AddTimes(raw, 1, total);
    AddTimes(raw, -1, total);
    AddTimes(raw, 2, total);
  }

  /** With no negative ratio nothing is lost or invented, for either sign of the amount, and every share is its exact
      quota rounded down, or that plus one. */
  lemma NonNegativeRatios(amountMinor: int, ratios: seq<int>, i: nat)
    requires i < |ratios| && 0 < Total(ratios) && NoNegative(ratios)
    ensures var shares := Allocated(amountMinor, ratios).value;
      && |shares| == |ratios| && Total(shares) == amountMinor
      && (if amountMinor < 0 then shares[i] <= 0 else shares[i] >= 0)
      && NearQuota(Abs(shares[i]), Abs(amountMinor), ratios[i], Total(ratios))
  {
    RemainderBound(Abs(amountMinor), ratios);
    SharesAddUp(amountMinor, ratios);
    RawNearQuota(Abs(amountMinor), ratios[i], Total(ratios), 0);
    RawNearQuota(Abs(amountMinor), ratios[i], Total(ratios), 1);
  }

  /** A negative ratio can make truncation distribute too much: 2 split by 6, -1 and -1 millionths becomes 3. */
  lemma NegativeRatioInvents()
    ensures Allocated(2, [6, -1, -1]) == Success([3, 0, 0]) && Total([3, 0, 0]) == 3
  {
    var ratios := [6, -1, -1];
    SumOfThree(6, -1, -1);
    SumOfThree(3, 0, 0);
    assert RawShares(2, ratios, 4) == [3, 0, 0];
    assert Topped([3, 0, 0], -1) == [3, 0, 0];
    assert Signed(false, [3, 0, 0]) == [3, 0, 0];
  }

  lemma SumOfThree(a: int, b: int, c: int)
    ensures Total([a, b, c]) == a + b + c
  {
    SumStep([a, b, c], 2);
    SumStep([a, b, c], 1);
    SumStep([a, b, c], 0);
    assert [a, b, c][..3] == [a, b, c];
  }

  // ----- the loop -----

  method Allocate(amountMinor: int, ratios: seq<int>) returns (result: Result<seq<int>, MoneyError>)
    ensures result == Allocated(amountMinor, ratios)
  {
    if |ratios| == 0 {
      return Failure(NoRatio);
    }
    var ratioTotal := Total(ratios);
    if ratioTotal <= 0 {
      return Failure(NonPositiveRatioTotal);
    }
    var isNeg := amountMinor < 0;
    var absTotal := Abs(amountMinor);
    var rawShares := RawShares(absTotal, ratios, ratioTotal);
    var distributed := Total(rawShares);
    RemainderBound(absTotal, ratios);
    var shares := DistributeRemainder(rawShares, absTotal - distributed);
    return Success(Signed(isNeg, shares));
  }

  lemma SmallModulo(i: nat, n: nat)
    requires i < n
    ensures i % n == i
  {
  }

  /** Hands out the remainder one unit at a time; it never comes round to a share twice. */
  method DistributeRemainder(rawShares: seq<int>, total: int) returns (shares: seq<int>)
    requires rawShares != [] && total < |rawShares|
    ensures shares == Topped(rawShares, total)
  {
    shares := rawShares;
    var remainder := total;
    var i: nat := 0;
    while remainder > 0
      invariant |shares| == |rawShares|
      invariant if total > 0 then remainder == total - i && 0 <= remainder else i == 0 && remainder == total
      invariant forall k :: 0 <= k < |shares| ==> shares[k] == rawShares[k] + if k < i then 1 else 0
      decreases remainder
    {
      SmallModulo(i, |shares|);
      var idx := i % |shares|;
      shares := shares[idx := shares[idx] + 1];
      remainder := remainder - 1;
      i := i + 1;
    }
  }
}
