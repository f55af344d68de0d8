/**
 The debt service as it runs: one table written after the other, without a surrounding transaction.
 Every method is proved to do exactly what the operation of the same name does to a `State`.
 */
module DebtService {
  import opened Wrappers
  import opened MapSums
  import opened Rounding
  import opened ScheduleDates
  import opened Amortization
  import opened Annuity
  import opened Debts
  import opened DebtProofs

  lemma {:induction false} MaxSequenceAttained(rows: map<Id, Installment>)
    requires rows != map[]
    ensures exists i :: i in rows && rows[i].sequence == MaxSequence(rows)
    decreases |rows|
  {
    PickKeyExists(rows);
    var k :| k in rows && (MaxSequence(rows) == rows[k].sequence
                           || (rows - {k} != map[] && MaxSequence(rows) == MaxSequence(rows - {k})));
    if MaxSequence(rows) != rows[k].sequence {
      MaxSequenceAttained(rows - {k});
      var i :| i in rows - {k} && (rows - {k})[i].sequence == MaxSequence(rows - {k});
      assert i in rows && rows[i].sequence == MaxSequence(rows);
    }
  }

  /** A bound that is reached is the maximum. */
  lemma MaxSequenceIs(rows: map<Id, Installment>, k: Id)
    requires k in rows && forall i :: i in rows ==> rows[i].sequence <= rows[k].sequence
    ensures MaxSequence(rows) == rows[k].sequence
  {
    MaxSequenceBounds(rows, k);
    MaxSequenceAttained(rows);
  }

  /** `Math.max` over the settled sequences, plus one; numbering starts at 1 when nothing is settled. */
  method NextSequence(settled: map<Id, Installment>) returns (start: int)
    ensures start == if settled == map[] then 1 else MaxSequence(settled) + 1
  {
    if settled == map[] {
      return 1;
    }
    var best := RowIn(settled);
    var rest := settled - {best};
    while rest != map[]
      invariant best in settled && rest.Keys <= settled.Keys
      invariant forall i :: i in settled && i !in rest ==> settled[i].sequence <= settled[best].sequence
      decreases |rest|
    {
      var i := RowIn(rest);
      if settled[i].sequence > settled[best].sequence {
        best := i;
      }
      rest := rest - {i};
    }
    MaxSequenceIs(settled, best);
    start := settled[best].sequence + 1;
  }

  /** The schedule that replaces `count` lines, from the whole outstanding balance. */
  method BuildLines(debt: Debt, strategy: Strategy, count: nat, startSequence: int, now: int) returns (lines: seq<Line>)
    requires 0 < count
    ensures lines == NewLines(debt, strategy, count, startSequence, now)
  {
    var balance := debt.outstanding;
    var rate := RateOf(debt);
    if strategy == ReduceInstallment {
      lines := GenerateForCount(balance, rate, count, DueDates(now, debt.frequency), startSequence);
    } else {
      lines := GenerateFixedInstallmentSchedule(balance, rate, KeptInstallment(debt, count), DueDates(now, debt.frequency),
        startSequence, MAX_PERIODS);
    }
  }

  /** All rows but those left have been swept. */
  ghost predicate SweptBut(before: map<Id, Installment>, rows: map<Id, Installment>, left: set<Id>, now: int) {
    rows.Keys == before.Keys && left <= before.Keys
    && forall i :: i in before ==> rows[i] == if i in left then before[i] else Swept(before[i], now)
  }

  lemma SweepOne(before: map<Id, Installment>, rows: map<Id, Installment>, left: set<Id>, now: int, i: Id)
    requires SweptBut(before, rows, left, now) && i in left
    ensures SweptBut(before, rows[i := Swept(rows[i], now)], left - {i}, now)
  {
  }

  lemma SweptRows(before: map<Id, Installment>, after: map<Id, Installment>, s: State, now: int)
    requires s.installments == before && SweptBut(before, after, {}, now)
    ensures after == Debts.SweepInstallments(s, now).installments
  {
  }

  lemma CountPositive(ids: set<Id>)
    requires ids != {}
    ensures |ids| > 0
  {
  }

  lemma RebuiltIs(s: State, strategy: Strategy, now: int, lines: seq<Line>)
    requires ReplaceableIds(s.installments) != {}
    requires lines == NewLines(s.debt, strategy, |ReplaceableIds(s.installments)|, StartSequence(s.installments), now)
    ensures Rebuilt(s, strategy, now) == Replaced(s, lines)
  {
  }

  class DebtService {
    var debt: Debt
    var installments: map<Id, Installment>
    var payments: map<Id, Payment>
    var nextId: Id
    var bookings: map<Id, int>

    constructor (newDebt: Debt, lines: seq<Line>)
      ensures Snapshot() == Opened(newDebt, lines)
    {
      debt, installments, payments, nextId, bookings := newDebt, Rows(lines, 0), map[], |lines|, map[];
    }

    ghost function Snapshot(): State
      reads this
    {
      State(debt, installments, payments, nextId, bookings)
    }

    /** The lines to replace are deleted, then the new ones created under fresh ids. */
    method ReplaceLines(toReplace: set<Id>, lines: seq<Line>)
      requires toReplace == ReplaceableIds(installments)
      modifies this`installments, this`nextId
      ensures Snapshot() == Replaced(old(Snapshot()), lines)
    {
      installments := installments - toReplace;
      installments := installments + Rows(lines, nextId);
      nextId := nextId + |lines|;
    }

    /** Numbering resumes after the last settled installment. */
    method StartAfterSettled() returns (startSequence: int)
      ensures startSequence == StartSequence(installments)
    {
      startSequence := NextSequence(SettledRows(installments));
    }

    method RegenerateSchedule(strategy: Strategy, now: int) returns (error: Option<Error>)
      modifies this`installments, this`nextId
      ensures Outcome(Snapshot(), error) == Debts.RegenerateSchedule(old(Snapshot()), strategy, now)
    {
      if debt.mode == Manual {
        return Some(ManualScheduleNotRegeneratable);
      }
      var toReplace := ReplaceableIds(installments);
      if toReplace == {} {
        return None;
      }
      var startSequence := StartAfterSettled();
      CountPositive(toReplace);
      var lines := BuildLines(debt, strategy, |toReplace|, startSequence, now);
      RebuiltIs(Snapshot(), strategy, now, lines);
      ReplaceLines(toReplace, lines);
      return None;
    }

    /** What the live payments of an installment have paid of one part. */
    method SumPriorPayments(part: Part, i: Id) returns (total: int)
      ensures total == PaidToward(payments, part, i)
    {
      total := 0;
      var rest := payments;
      while rest != map[]
        invariant total + Sum(rest, Toward(part, i)) == Sum(payments, Toward(part, i))
        decreases |rest|
      {
        var p := RowIn(rest);
        SumSplit(rest, Toward(part, i), p);
        if !rest[p].deleted && rest[p].installmentId == Some(i) {
          total := total + PartOf(part, rest[p]);
        }
        rest := rest - {p};
      }
    }

    method RemainingOf(i: Id) returns (remaining: Split)
      requires i in installments
      ensures remaining == Remaining(Snapshot(), i)
    {
      var paidFees := SumPriorPayments(Fees, i);
      var paidInterest := SumPriorPayments(InterestPart, i);
      var paidPrincipal := SumPriorPayments(PrincipalPart, i);
      remaining := Split(installments[i].fees - paidFees, installments[i].interest - paidInterest,
        installments[i].principal - paidPrincipal);
    }

    /** The checks on a payment into an installment, its waterfall, and the update of the installment. */
    method PayInstallment(i: Id, amount: int) returns (error: Option<Error>, split: Split)
      requires debt.status == Active && 0 < amount
      modifies this`installments
      ensures error == PaymentError(old(Snapshot()), Against(i), amount)
      ensures error != None ==> installments == old(installments)
      ensures error == None ==>
        split == PaymentSplit(old(Snapshot()), Against(i), amount)
        && Snapshot() == WithInstallmentPaid(old(Snapshot()), Against(i), amount)
    {
      if i !in installments {
        return Some(InstallmentNotFound), Split(0, 0, 0);
      }
      if installments[i].status == Paid {
        return Some(InstallmentAlreadySettled), Split(0, 0, 0);
      }
      var remaining := RemainingOf(i);
      if amount > remaining.fees + remaining.interest + remaining.principal {
        return Some(ExceedsInstallment), Split(0, 0, 0);
      }
      var rest := amount;
      var fees := if rest < remaining.fees then rest else remaining.fees;
      rest := rest - fees;
      var interest := if rest < remaining.interest then rest else remaining.interest;
      rest := rest - interest;
      var principal := if rest < remaining.principal then rest else remaining.principal;
      var newPaid := installments[i].paid + amount;
      installments := installments[i := installments[i].(
        paid := newPaid, status := if newPaid >= installments[i].total then Paid else Partial)];
      return None, Split(fees, interest, principal);
    }

    /** The balance goes down, and the debt is paid off when nothing is left. */
    method ReduceOutstanding(principal: int) returns (paidOff: bool)
      requires debt.status == Active
      modifies this`debt
      ensures debt == ReducedDebt(old(debt), principal) && (paidOff <==> debt.status == PaidOff)
    {
      var outstanding := debt.outstanding - principal;
      paidOff := outstanding <= 0;
      debt := debt.(outstanding := if paidOff then 0 else outstanding, status := if paidOff then PaidOff else debt.status);
    }

    /** The steps after the debt is reduced: a new schedule, the linked transaction, lines that will never be due. */
    method SettleSchedule(id: Id, target: Target, amount: int, paidOff: bool, refused: bool, now: int)
      returns (error: Option<Error>)
      requires paidOff <==> debt.status == PaidOff
      modifies this`installments, this`nextId, this`bookings
      ensures if debt.linked && refused then
                error == Some(LinkedTransactionRefused) && Snapshot() == Reshaped(old(Snapshot()), target, now)
              else error == None && Snapshot() == WithBooking(AfterBooking(old(Snapshot()), target, now), id, amount)
    {
      if target.Extra? && !paidOff && debt.mode != Manual {
        var _ := RegenerateSchedule(ReduceTerm, now);
      }
      if debt.linked {
        if refused {
          return Some(LinkedTransactionRefused);
        }
        bookings := bookings[id := amount];
      }
      if paidOff {
        installments := WithStatus(installments, {Scheduled, Late}, Skipped);
      }
      return None;
    }

    method RecordPayment(id: Id, target: Target, amount: int, refused: bool, now: int) returns (error: Option<Error>)
      modifies this
      ensures Outcome(Snapshot(), error) == Debts.RecordPayment(old(Snapshot()), id, target, amount, refused, now)
    {
      if id in payments && !payments[id].deleted {
        return None;
      }
      if debt.status != Active {
        return Some(DebtNotActive);
      }
      if amount <= 0 {
        return Some(AmountMustBePositive);
      }
      var split: Split;
      if target.Extra? {
        if amount > debt.outstanding {
          return Some(ExceedsOutstanding);
        }
        split := Split(0, 0, amount);
      } else {
        error, split := PayInstallment(target.id, amount);
        if error != None {
          return error;
        }
      }
      if id in payments {
        return Some(DuplicatePaymentId);
      }
      payments := payments[id := PaymentRow(target, amount, split)];
      var paidOff := ReduceOutstanding(split.principal);
      error := SettleSchedule(id, target, amount, paidOff, refused, now);
    }

    /** The amount of a payment taken out of its installment, if it has one. */
    method TakeOutOfInstallment(payment: Payment)
      modifies this`installments
      ensures installments == WithInstallmentRefunded(old(installments), payment)
    {
      if payment.installmentId.Some? && payment.installmentId.value in installments {
        var i := payment.installmentId.value;
        var newPaid := installments[i].paid - payment.amount;
        installments := installments[i := installments[i].(
          paid := if newPaid < 0 then 0 else newPaid, status := if newPaid <= 0 then Scheduled else Partial)];
      }
    }

    method RemovePayment(id: Id, refused: bool) returns (error: Option<Error>)
      modifies this`debt, this`installments, this`payments, this`bookings
      ensures Outcome(Snapshot(), error) == Debts.RemovePayment(old(Snapshot()), id, refused)
    {
      if id !in payments || payments[id].deleted {
        return Some(PaymentNotFound);
      }
      if id in bookings {
        if refused {
          return Some(LinkedTransactionRefused);
        }
      }
      bookings := bookings - {id};
      var payment, wasPaidOff := payments[id], debt.status == PaidOff;
      TakeOutOfInstallment(payment);
      debt := debt.(outstanding := debt.outstanding + payment.principal,
                    status := if wasPaidOff then Active else debt.status);
      if wasPaidOff {
        installments := WithStatus(installments, {Skipped}, Scheduled);
      }
      payments := payments[id := payment.(deleted := true)];
      return None;
    }

    /** Every overdue line is marked late, one update after the other. */
    method SweepInstallments(now: int)
      modifies this`installments
      ensures Snapshot() == Debts.SweepInstallments(old(Snapshot()), now)
    {
      var overdue := map i | i in installments && installments[i].status == Scheduled && installments[i].dueOn < now ::
        installments[i];
      ghost var before := installments;
      while overdue != map[]
        invariant SweptBut(before, installments, overdue.Keys, now)
        invariant forall i :: i in overdue ==> before[i].status == Scheduled && before[i].dueOn < now
        decreases |overdue|
      {
        var i := RowIn(overdue);
        SweepOne(before, installments, overdue.Keys, now, i);
        installments := installments[i := installments[i].(status := Late)];
        overdue := overdue - {i};
      }
      SweptRows(before, installments, old(Snapshot()), now);
    }
  }
}
