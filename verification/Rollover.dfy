/** The rollover cascade of a budget over its periods. */
module Rollover {
  import opened Integers

  datatype Allocation = Allocation(rolloverInMinor: int, allocatedMinor: int)

  function Cascade(amount: int, rollover: bool, spent: seq<int>, carry: int): seq<Allocation> {
    if spent == [] then []
    else [Allocation(carry, amount + carry)] + Cascade(amount, rollover, spent[1..], NextCarry(amount, rollover, spent[0], carry))
  }

  function NextCarry(amount: int, rollover: bool, spent: int, carry: int): int {
    if rollover then amount + carry - spent else 0
  }

  function CascadeRollover(amount: int, rollover: bool, spent: seq<int>, carryIn: int := 0): seq<Allocation> {
    Cascade(amount, rollover, spent, if rollover then carryIn else 0)
  }

  /** The carry out of the last period. */
  function CarryOut(amount: int, rollover: bool, spent: seq<int>, carry: int): int {
    if spent == [] then carry else CarryOut(amount, rollover, spent[1..], NextCarry(amount, rollover, spent[0], carry))
  }

  lemma {:induction false} CascadeLength(amount: int, rollover: bool, spent: seq<int>, carry: int)
    ensures |Cascade(amount, rollover, spent, carry)| == |spent|
  {
    if spent != [] {
      CascadeLength(amount, rollover, spent[1..], NextCarry(amount, rollover, spent[0], carry));
    }
  }

  /** A cascade can be continued from its last carry. */
  lemma {:induction false} CascadeAppend(amount: int, rollover: bool, spent: seq<int>, more: seq<int>, carry: int)
    ensures Cascade(amount, rollover, spent + more, carry)
         == Cascade(amount, rollover, spent, carry)
          + Cascade(amount, rollover, more, CarryOut(amount, rollover, spent, carry))
    ensures CarryOut(amount, rollover, spent + more, carry)
         == CarryOut(amount, rollover, more, CarryOut(amount, rollover, spent, carry))
  {
    if spent == [] {
      assert spent + more == more;
    } else {
      assert (spent + more)[1..] == spent[1..] + more;
      CascadeAppend(amount, rollover, spent[1..], more, NextCarry(amount, rollover, spent[0], carry));
    }
  }

  method CascadeLoop(amount: int, rollover: bool, spent: seq<int>, carryIn: int := 0) returns (allocations: seq<Allocation>)
    ensures allocations == CascadeRollover(amount, rollover, spent, carryIn)
  {
    var carry := if rollover then carryIn else 0;
    ghost var start := carry;
    allocations := [];
    for i := 0 to |spent|
      invariant allocations == Cascade(amount, rollover, spent[..i], start)
      invariant carry == CarryOut(amount, rollover, spent[..i], start)
    {
      var allocation := Allocation(carry, amount + carry);
      CascadeAppend(amount, rollover, spent[..i], [spent[i]], start);
      assert spent[..i + 1] == spent[..i] + [spent[i]];
      carry := if rollover then allocation.allocatedMinor - spent[i] else 0;
      allocations := allocations + [allocation];
    }
    assert spent[..|spent|] == spent;
  }

  lemma MulSuccessor(n: nat, amount: int)
    ensures n * amount + amount == (n + 1) * amount
  {
  }

  /** With rollover nothing is lost: what a period is allocated, plus all that was spent before it, is one amount per
      period so far. Without rollover every period is allocated the amount. */
  lemma {:induction false} NothingIsLost(amount: int, rollover: bool, spent: seq<int>, carry: int, n: nat)
    requires n < |spent|
    ensures n < |Cascade(amount, rollover, spent, carry)|
    ensures rollover ==> Cascade(amount, rollover, spent, carry)[n].allocatedMinor + Total(spent[..n]) == (n + 1) * amount + carry
    ensures !rollover && n > 0 ==> Cascade(amount, rollover, spent, carry)[n] == Allocation(0, amount)
    decreases n
  {
    CascadeLength(amount, rollover, spent, carry);
    if n > 0 {
      var next := NextCarry(amount, rollover, spent[0], carry);
      NothingIsLost(amount, rollover, spent[1..], next, n - 1);
      TotalFromFront(spent[..n]);
      assert spent[..n][1..] == spent[1..][..n - 1];
      MulSuccessor(n, amount);
      if !rollover && n == 1 {
        assert Cascade(amount, rollover, spent[1..], 0)[0] == Allocation(0, amount);
      }
    }
  }

  /** The carry out of a non-empty cascade, from its last allocation. */
  lemma {:induction false} CarryOutOfLast(amount: int, rollover: bool, spent: seq<int>, carry: int)
    requires spent != []
    ensures var last := |spent| - 1;
      last < |Cascade(amount, rollover, spent, carry)|
      && CarryOut(amount, rollover, spent, carry)
         == if rollover then Cascade(amount, rollover, spent, carry)[last].allocatedMinor - spent[last] else 0
  {
    CascadeLength(amount, rollover, spent, carry);
    var next := NextCarry(amount, rollover, spent[0], carry);
    if |spent| > 1 {
      CarryOutOfLast(amount, rollover, spent[1..], next);
    } else {
      assert CarryOut(amount, rollover, spent[1..], next) == next;
    }
  }

  /** Without rollover the spending does not matter. */
  lemma {:induction false} CascadeWithoutRollover(amount: int, spent: seq<int>, other: seq<int>, carry: int)
    requires |spent| == |other|
    ensures Cascade(amount, false, spent, carry) == Cascade(amount, false, other, carry)
  {
    if spent != [] {
      CascadeWithoutRollover(amount, spent[1..], other[1..], 0);
    }
  }
}
