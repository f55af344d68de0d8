/** What every debt operation keeps. */
module DebtProofs {
  import opened Wrappers
  import opened MapSums
  import opened Rounding
  import opened ScheduleDates
  import opened Calendar
  import opened Amortization
  import opened Annuity
  import opened Debts

  // ----- the invariant -----

  /** Fees, interest and principal of a payment add up to its amount. */
  predicate SoundPayment(payment: Payment) {
    0 < payment.amount && 0 <= payment.fees && 0 <= payment.interest && 0 <= payment.principal
    && payment.fees + payment.interest + payment.principal == payment.amount
    && (payment.isExtra <==> payment.installmentId == None)
    && (payment.isExtra ==> payment.principal == payment.amount)
  }

  /** Live payments are sound and point at installments that still exist. */
  ghost predicate PaymentsOk(payments: map<Id, Payment>, ids: set<Id>) {
    forall p :: p in payments && !payments[p].deleted ==>
      SoundPayment(payments[p])
      && (payments[p].installmentId.Some? ==> payments[p].installmentId.value in ids)
  }

  predicate SoundRow(row: Installment) {
    0 <= row.principal && 0 <= row.interest && 0 <= row.fees
    && row.total == row.principal + row.interest + row.fees
    && (match row.status
        case Paid => row.paid == row.total && 0 < row.paid
        case Partial => 0 < row.paid < row.total
        case _ => row.paid == 0)
  }

  /** `paid` is the money of the live payments, part by part within what the installment asks for. */
  ghost predicate PaidOk(payments: map<Id, Payment>, i: Id, row: Installment) {
    row.paid == PaidToward(payments, Amount, i)
    && PaidToward(payments, Fees, i) <= row.fees
    && PaidToward(payments, InterestPart, i) <= row.interest
    && PaidToward(payments, PrincipalPart, i) <= row.principal
  }

  ghost predicate RowOk(s: State, i: Id)
    requires i in s.installments
  {
    i < s.nextId && SoundRow(s.installments[i]) && PaidOk(s.payments, i, s.installments[i])
  }

  ghost predicate RowsOk(s: State) {
    forall i :: i in s.installments ==> RowOk(s, i)
  }

  ghost predicate SequencesDistinct(rows: map<Id, Installment>) {
    forall i, j :: i in rows && j in rows && i != j ==> rows[i].sequence != rows[j].sequence
  }

  /** Lines are skipped on a paid-off debt and only there. */
  ghost predicate StatusesOk(s: State) {
    forall i :: i in s.installments ==>
      (s.debt.status == PaidOff ==> !Replaceable(s.installments[i].status))
      && (s.debt.status == Active ==> s.installments[i].status != Skipped)
  }

  /** The outstanding balance is never below what the recorded principal leaves. */
  ghost predicate DebtOk(s: State) {
    0 <= s.debt.outstanding && (s.debt.status == PaidOff ==> s.debt.outstanding == 0)
    && s.debt.principal <= s.debt.outstanding + LivePrincipal(s.payments)
  }

  ghost predicate MoneyOk(s: State) {
    PaymentsOk(s.payments, s.installments.Keys) && RowsOk(s) && SequencesDistinct(s.installments) && DebtOk(s)
  }

  ghost predicate Inv(s: State) {
    MoneyOk(s) && StatusesOk(s)
  }

  // ----- sums over payments -----

  lemma PartsAddUp(payments: map<Id, Payment>, ids: set<Id>, i: Id)
    requires PaymentsOk(payments, ids)
    ensures PaidToward(payments, Amount, i)
         == PaidToward(payments, Fees, i) + PaidToward(payments, InterestPart, i) + PaidToward(payments, PrincipalPart, i)
    ensures 0 <= PaidToward(payments, Fees, i) && 0 <= PaidToward(payments, InterestPart, i)
         && 0 <= PaidToward(payments, PrincipalPart, i)
  {
    SumOfParts(payments, Toward(Amount, i), Toward(Fees, i), Toward(InterestPart, i), Toward(PrincipalPart, i));
    SumNonNegative(payments, Toward(Fees, i));
    SumNonNegative(payments, Toward(InterestPart, i));
    SumNonNegative(payments, Toward(PrincipalPart, i));
  }

  /** Nothing points at an installment no live payment names. */
  lemma NothingToward(payments: map<Id, Payment>, i: Id)
    requires forall p :: p in payments && !payments[p].deleted ==> payments[p].installmentId != Some(i)
    ensures forall part :: PaidToward(payments, part, i) == 0
  {
    forall part ensures PaidToward(payments, part, i) == 0 {
      SumZero(payments, Toward(part, i));
    }
  }

  /** An installment that holds no money has no live payment. */
  lemma UnpaidHasNoPayment(payments: map<Id, Payment>, ids: set<Id>, i: Id, p: Id)
    requires PaymentsOk(payments, ids) && PaidToward(payments, Amount, i) == 0
    requires p in payments && !payments[p].deleted
    ensures payments[p].installmentId != Some(i)
  {
    SumNonNegative(payments, Toward(Amount, i));
    assert Toward(Amount, i)(payments[p]) <= 0;
  }

  lemma PaymentAdded(payments: map<Id, Payment>, p: Id, payment: Payment, part: Part, i: Id)
    requires p !in payments
    ensures PaidToward(payments[p := payment], part, i) == PaidToward(payments, part, i) + Toward(part, i)(payment)
  {
    SumInsert(payments, Toward(part, i), p, payment);
  }

  lemma PaymentDeleted(payments: map<Id, Payment>, p: Id, part: Part, i: Id)
    requires p in payments && !payments[p].deleted
    ensures PaidToward(payments[p := payments[p].(deleted := true)], part, i)
         == PaidToward(payments, part, i) - Toward(part, i)(payments[p])
  {
    SumUpdate(payments, Toward(part, i), p, payments[p].(deleted := true));
  }

  // ----- the waterfall -----

  predicate NonNegativeSplit(split: Split) {
    0 <= split.fees && 0 <= split.interest && 0 <= split.principal
  }

  /** The parts add up to the amount, stay within what is asked for, and a later part is paid only once the earlier
      ones are settled. */
  lemma WaterfallFills(amount: int, remaining: Split)
    requires 0 <= amount <= remaining.fees + remaining.interest + remaining.principal && NonNegativeSplit(remaining)
    ensures var split := Waterfall(amount, remaining);
      NonNegativeSplit(split)
      && split.fees + split.interest + split.principal == amount
      && split.fees <= remaining.fees && split.interest <= remaining.interest && split.principal <= remaining.principal
      && (split.interest > 0 ==> split.fees == remaining.fees)
      && (split.principal > 0 ==> split.fees == remaining.fees && split.interest == remaining.interest)
  {
  }

  lemma RemainingNonNegative(s: State, i: Id)
    requires MoneyOk(s) && i in s.installments
    ensures NonNegativeSplit(Remaining(s, i))
    ensures var r := Remaining(s, i); r.fees + r.interest + r.principal == s.installments[i].total - s.installments[i].paid
  {
    assert RowOk(s, i);
    PartsAddUp(s.payments, s.installments.Keys, i);
  }

  // ----- changing statuses only -----

  predicate SameMoney(row: Installment, after: Installment) {
    after == row || (!Settled(row.status) && !Settled(after.status) && after == row.(status := after.status))
  }

  lemma SameMoneyRow(s: State, after: State, i: Id)
    requires i in s.installments && RowOk(s, i)
    requires i in after.installments && SameMoney(s.installments[i], after.installments[i])
    requires after.payments == s.payments && after.nextId == s.nextId
    ensures RowOk(after, i)
  {
  }

  lemma SameMoneyKeeps(s: State, after: State)
    requires MoneyOk(s)
    requires after.installments.Keys == s.installments.Keys
    requires forall i :: i in s.installments ==> SameMoney(s.installments[i], after.installments[i])
    requires after.payments == s.payments && after.nextId == s.nextId && after.debt == s.debt
    ensures MoneyOk(after)
  {
    forall i | i in after.installments ensures RowOk(after, i) {
      assert RowOk(s, i);
      SameMoneyRow(s, after, i);
    }
  }

  // ----- regenerating -----

  lemma {:induction false} MaxSequenceBounds(rows: map<Id, Installment>, i: Id)
    requires i in rows
    ensures rows[i].sequence <= MaxSequence(rows)
    decreases |rows|
  {
    PickKeyExists(rows);
    var k :| k in rows && (if rows - {k} == map[] then MaxSequence(rows) == rows[k].sequence
                           else MaxSequence(rows) >= rows[k].sequence && MaxSequence(rows) >= MaxSequence(rows - {k}));
    if i != k {
      assert i in rows - {k};
      MaxSequenceBounds(rows - {k}, i);
    }
  }

  /** Rebuilt lines are numbered after every line that is kept. */
  lemma StartsAfterSettled(rows: map<Id, Installment>, i: Id)
    requires i in rows && Settled(rows[i].status)
    ensures rows[i].sequence < StartSequence(rows)
  {
    assert i in SettledRows(rows);
    MaxSequenceBounds(SettledRows(rows), i);
  }

  lemma NewLinesChargeable(debt: Debt, strategy: Strategy, count: nat, startSequence: int, now: int)
    requires 0 < count
    ensures Chargeable(NewLines(debt, strategy, count, startSequence, now), startSequence)
  {
    if strategy == ReduceInstallment {
      ScheduleIsChargeable(debt.outstanding, RateOf(debt), count, debt.frequency, now, startSequence);
    } else {
      ChargeIsFair(RateOf(debt));
      FixedLinesChargeable(Plan(Charge(RateOf(debt)), KeptInstallment(debt, count), DueDates(now, debt.frequency), startSequence),
        debt.outstanding, MAX_PERIODS);
    }
  }

  lemma KeptRow(s: State, lines: seq<Line>, i: Id)
    requires RowsOk(s)
    ensures i in s.installments && !Replaceable(s.installments[i].status) ==>
      i in Replaced(s, lines).installments && Replaced(s, lines).installments[i] == s.installments[i]
    ensures i in Replaced(s, lines).installments ==>
      if i < s.nextId then i in s.installments && !Replaceable(s.installments[i].status)
                           && Replaced(s, lines).installments[i] == s.installments[i]
      else i < s.nextId + |lines| && Replaced(s, lines).installments[i] == RowAt(lines, s.nextId, i)
  {
  }

  lemma PaidRowsStay(s: State, lines: seq<Line>)
    requires MoneyOk(s)
    ensures PaymentsOk(s.payments, Replaced(s, lines).installments.Keys)
  {
    forall p | p in s.payments && !s.payments[p].deleted && s.payments[p].installmentId.Some?
      ensures s.payments[p].installmentId.value in Replaced(s, lines).installments
    {
      var i := s.payments[p].installmentId.value;
      assert RowOk(s, i);
      if Replaceable(s.installments[i].status) {
        UnpaidHasNoPayment(s.payments, s.installments.Keys, i, p);
      }
      KeptRow(s, lines, i);
    }
  }

  lemma NewRowsOk(s: State, lines: seq<Line>, startSequence: int)
    requires MoneyOk(s) && Chargeable(lines, startSequence)
    ensures RowsOk(Replaced(s, lines))
  {
    var after := Replaced(s, lines);
    forall i | i in after.installments
      ensures RowOk(after, i)
    {
      KeptRow(s, lines, i);
      if i >= s.nextId {
        NothingToward(s.payments, i);
        assert lines[i - s.nextId].total == lines[i - s.nextId].principal + lines[i - s.nextId].interest;
      }
    }
  }

  lemma NewSequencesDistinct(s: State, lines: seq<Line>)
    requires MoneyOk(s) && StatusesOk(s) && s.debt.status == Active
    requires Chargeable(lines, StartSequence(s.installments))
    ensures SequencesDistinct(Replaced(s, lines).installments)
  {
    var rows := Replaced(s, lines).installments;
    forall i, j | i in rows && j in rows && i != j ensures rows[i].sequence != rows[j].sequence {
      KeptRow(s, lines, i);
      KeptRow(s, lines, j);
      if i < s.nextId {
        StartsAfterSettled(s.installments, i);
      }
      if j < s.nextId {
        StartsAfterSettled(s.installments, j);
      }
      assert i >= s.nextId ==> rows[i].sequence == StartSequence(s.installments) + (i - s.nextId);
      assert j >= s.nextId ==> rows[j].sequence == StartSequence(s.installments) + (j - s.nextId);
    }
  }

  lemma ReplacedKeeps(s: State, lines: seq<Line>)
    requires Inv(s) && s.debt.status == Active && Chargeable(lines, StartSequence(s.installments))
    ensures Inv(Replaced(s, lines))
  {
    PaidRowsStay(s, lines);
    NewRowsOk(s, lines, StartSequence(s.installments));
    NewSequencesDistinct(s, lines);
    forall i | i in Replaced(s, lines).installments
      ensures Replaced(s, lines).installments[i].status != Skipped
    {
      KeptRow(s, lines, i);
    }
  }

  lemma NothingToReplace(s: State)
    requires StatusesOk(s) && s.debt.status == PaidOff
    ensures ReplaceableIds(s.installments) == {}
  {
  }

  lemma RebuiltKeeps(s: State, strategy: Strategy, now: int)
    requires Inv(s)
    ensures Inv(Rebuilt(s, strategy, now))
  {
    if s.debt.status == PaidOff {
      NothingToReplace(s);
    }
    if ReplaceableIds(s.installments) != {} {
      var count, start := |ReplaceableIds(s.installments)|, StartSequence(s.installments);
      NewLinesChargeable(s.debt, strategy, count, start, now);
      ReplacedKeeps(s, NewLines(s.debt, strategy, count, start, now));
    }
  }

  lemma MoneyIsNotReplaced(s: State, i: Id, lines: seq<Line>)
    requires RowsOk(s) && i in s.installments && s.installments[i].paid != 0
    ensures i in Replaced(s, lines).installments && Replaced(s, lines).installments[i] == s.installments[i]
  {
    assert RowOk(s, i);
  }

  lemma RebuildingKeepsMoney(s: State, strategy: Strategy, now: int, i: Id)
    requires RowsOk(s) && i in s.installments && s.installments[i].paid != 0
    ensures var after := Rebuilt(s, strategy, now);
      after.payments == s.payments && i in after.installments && after.installments[i] == s.installments[i]
  {
    forall lines ensures i in Replaced(s, lines).installments && Replaced(s, lines).installments[i] == s.installments[i] {
      MoneyIsNotReplaced(s, i, lines);
    }
  }

  /** Regeneration leaves every installment that holds money as it was, and the payments with it. */
  lemma RegenerationKeepsMoney(s: State, strategy: Strategy, now: int, i: Id)
    requires Inv(s) && i in s.installments && s.installments[i].paid != 0
    ensures var after := RegenerateSchedule(s, strategy, now).state;
      after.payments == s.payments && i in after.installments && after.installments[i] == s.installments[i]
  {
    RebuildingKeepsMoney(s, strategy, now, i);
  }

  /** What a regenerated schedule asks for: with a reduced installment, as many lines as it replaces and exactly the
      outstanding principal; with a reduced term, the outstanding principal less what the last line leaves, which is more
      than 0 only after all 1200 lines, and is the whole of it when the installment does not exceed the first interest. */
  lemma RegeneratedPrincipal(debt: Debt, strategy: Strategy, count: nat, startSequence: int, now: int)
    requires 0 < count && 0 < debt.outstanding
    ensures var lines := NewLines(debt, strategy, count, startSequence, now);
      (strategy == ReduceInstallment ==> |lines| == count && SumPrincipal(lines) == debt.outstanding)
      && (strategy == ReduceTerm ==>
            var left := FinalBalance(lines, debt.outstanding);
            && SumPrincipal(lines) == debt.outstanding - left
            && 0 <= left && (left > 0 ==> |lines| == MAX_PERIODS)
            && (KeptInstallment(debt, count) <= Charge(RateOf(debt))(debt.outstanding) ==> left == debt.outstanding))
  {
    if strategy == ReduceInstallment {
      ScheduleIsSound(debt.outstanding, RateOf(debt), count, debt.frequency, now, startSequence);
    } else {
      var plan := Plan(Charge(RateOf(debt)), KeptInstallment(debt, count), DueDates(now, debt.frequency), startSequence);
      FixedPaysPrincipal(plan, debt.outstanding, MAX_PERIODS);
      FixedEndsAtZeroOrCap(plan, debt.outstanding, 0, MAX_PERIODS);
      if plan.installment <= plan.charge(debt.outstanding) {
        InstallmentWithinInterest(plan, debt.outstanding, 0, MAX_PERIODS);
      }
    }
  }

  // ----- recording -----

  lemma SplitIsSound(s: State, target: Target, amount: int)
    requires MoneyOk(s) && PaymentError(s, target, amount) == None
    ensures var split := PaymentSplit(s, target, amount);
      NonNegativeSplit(split) && split.fees + split.interest + split.principal == amount
      && (target.Extra? ==> split.principal == amount)
      && (target.Against? ==>
            var remaining := Remaining(s, target.id);
            split.fees <= remaining.fees && split.interest <= remaining.interest && split.principal <= remaining.principal)
  {
    if target.Against? {
      RemainingNonNegative(s, target.id);
      WaterfallFills(amount, Remaining(s, target.id));
    }
  }

  /** An accepted payment into an installment leaves it partly or fully paid. */
  lemma PaidIntoIsSound(s: State, i: Id, amount: int)
    requires MoneyOk(s) && PaymentError(s, Against(i), amount) == None
    ensures SoundRow(PaidInto(s.installments[i], amount))
  {
    RemainingNonNegative(s, i);
  }

  lemma BookedPayments(s: State, id: Id, target: Target, amount: int, split: Split)
    requires PaymentsOk(s.payments, s.installments.Keys) && id !in s.payments
    requires target.Against? ==> target.id in s.installments
    requires SoundPayment(PaymentRow(target, amount, split))
    ensures var after := Booked(s, id, target, amount, split);
      PaymentsOk(after.payments, after.installments.Keys) && after.installments.Keys == s.installments.Keys
  {
  }

  lemma BookedRow(s: State, id: Id, target: Target, amount: int, i: Id)
    requires MoneyOk(s) && PaymentError(s, target, amount) == None && id !in s.payments && i in s.installments
    ensures var after := Booked(s, id, target, amount, PaymentSplit(s, target, amount));
      SoundRow(after.installments[i]) && PaidOk(after.payments, i, after.installments[i])
  {
    var split := PaymentSplit(s, target, amount);
    var payment := PaymentRow(target, amount, split);
    SplitIsSound(s, target, amount);
    PaymentAdded(s.payments, id, payment, Amount, i);
    PaymentAdded(s.payments, id, payment, Fees, i);
    PaymentAdded(s.payments, id, payment, InterestPart, i);
    PaymentAdded(s.payments, id, payment, PrincipalPart, i);
    assert RowOk(s, i);
    if target == Against(i) {
      PaidIntoIsSound(s, i, amount);
    }
  }

  lemma LivePrincipalAdded(payments: map<Id, Payment>, id: Id, payment: Payment)
    requires id !in payments && !payment.deleted
    ensures LivePrincipal(payments[id := payment]) == LivePrincipal(payments) + payment.principal
  {
    SumInsert(payments, LivePart(PrincipalPart), id, payment);
  }

  lemma BookedRows(s: State, id: Id, target: Target, amount: int)
    requires MoneyOk(s) && PaymentError(s, target, amount) == None && id !in s.payments
    ensures RowsOk(Booked(s, id, target, amount, PaymentSplit(s, target, amount)))
  {
    var after := Booked(s, id, target, amount, PaymentSplit(s, target, amount));
    forall i | i in after.installments ensures RowOk(after, i) {
      assert RowOk(s, i);
      BookedRow(s, id, target, amount, i);
    }
  }

  lemma BookedStatuses(s: State, id: Id, target: Target, amount: int, split: Split)
    requires Inv(s) && s.debt.status == Active && (target.Against? ==> target.id in s.installments)
    ensures var after := Booked(s, id, target, amount, split);
      SequencesDistinct(after.installments) && (after.debt.status == Active ==> StatusesOk(after))
  {
  }

  lemma BookedKeeps(s: State, id: Id, target: Target, amount: int)
    requires Inv(s) && PaymentError(s, target, amount) == None && id !in s.payments
    ensures var after := Booked(s, id, target, amount, PaymentSplit(s, target, amount));
      MoneyOk(after) && (after.debt.status == Active ==> StatusesOk(after))
  {
    var split := PaymentSplit(s, target, amount);
    SplitIsSound(s, target, amount);
    BookedPayments(s, id, target, amount, split);
    BookedRows(s, id, target, amount);
    BookedStatuses(s, id, target, amount, split);
    LivePrincipalAdded(s.payments, id, PaymentRow(target, amount, split));
  }

  lemma WithStatusKeeps(s: State, from: set<InstallmentStatus>, to: InstallmentStatus)
    requires MoneyOk(s) && Paid !in from && Partial !in from && !Settled(to)
    ensures MoneyOk(s.(installments := WithStatus(s.installments, from, to)))
  {
    assert WithStatus(s.installments, from, to).Keys == s.installments.Keys;
    SameMoneyKeeps(s, s.(installments := WithStatus(s.installments, from, to)));
  }

  lemma SkipRestKeeps(s: State)
    requires MoneyOk(s) && s.debt.status == PaidOff
    ensures Inv(SkipRest(s))
  {
    WithStatusKeeps(s, {Scheduled, Late}, Skipped);
  }

  /** The booked payment pays the debt off, its linked account refuses it, and some other line is still to be paid. */
  ghost predicate LeavesUnskipped(s: State, op: Op) {
    op.Record? && op.refused && s.debt.linked && op.id !in s.payments && PaymentError(s, op.target, op.amount) == None
    && PaymentSplit(s, op.target, op.amount).principal >= s.debt.outstanding && OtherLineOpen(s, op.target)
  }

  /** An accepted payment into an installment, under the id of a payment deleted before. */
  ghost predicate ReusesDeletedId(s: State, op: Op) {
    op.Record? && op.target.Against? && op.id in s.payments && s.payments[op.id].deleted
    && PaymentError(s, op.target, op.amount) == None
  }

  ghost predicate OtherLineOpen(s: State, target: Target) {
    exists i :: i in s.installments && Replaceable(s.installments[i].status) && target != Against(i)
  }

  lemma BookedLines(s: State, id: Id, target: Target, amount: int, split: Split)
    requires target.Against? ==> target.id in s.installments
    requires Booked(s, id, target, amount, split).debt.status == PaidOff
    ensures StatusesOk(Booked(s, id, target, amount, split)) <==> !OtherLineOpen(s, target)
  {
    var booked := Booked(s, id, target, amount, split);
    assert booked.installments.Keys == s.installments.Keys;
    forall i | i in s.installments
      ensures Replaceable(booked.installments[i].status) <==> Replaceable(s.installments[i].status) && target != Against(i)
    {
    }
  }

  /** A payment the linked account refuses keeps the invariant unless it leaves lines that should have been skipped. */
  lemma RefusedKeeps(s: State, id: Id, target: Target, amount: int, now: int)
    requires Inv(s) && s.debt.linked && id !in s.payments && PaymentError(s, target, amount) == None
    ensures Inv(RecordPayment(s, id, target, amount, true, now).state)
       <==> !(PaymentSplit(s, target, amount).principal >= s.debt.outstanding && OtherLineOpen(s, target))
  {
    var booked := Booked(s, id, target, amount, PaymentSplit(s, target, amount));
    BookedKeeps(s, id, target, amount);
    if booked.debt.status == PaidOff {
      BookedLines(s, id, target, amount, PaymentSplit(s, target, amount));
    } else {
      RebuiltKeeps(booked, ReduceTerm, now);
    }
  }

  /** The invariant does not speak of the linked account. */
  lemma WithBookingKeeps(s: State, id: Id, amount: int)
    requires Inv(s)
    ensures Inv(WithBooking(s, id, amount))
  {
    forall i | i in s.installments ensures RowOk(WithBooking(s, id, amount), i) {
      assert RowOk(s, i);
    }
  }

  lemma AfterBookingKeeps(s: State, id: Id, target: Target, amount: int, now: int)
    requires Inv(s) && id !in s.payments && PaymentError(s, target, amount) == None
    ensures Inv(AfterBooking(Booked(s, id, target, amount, PaymentSplit(s, target, amount)), target, now))
  {
    var booked := Booked(s, id, target, amount, PaymentSplit(s, target, amount));
    BookedKeeps(s, id, target, amount);
    if booked.debt.status == PaidOff {
      SkipRestKeeps(booked);
    } else {
      RebuiltKeeps(booked, ReduceTerm, now);
    }
  }

  lemma AcceptedKeeps(s: State, id: Id, target: Target, amount: int, refused: bool, now: int)
    requires Inv(s) && id !in s.payments && PaymentError(s, target, amount) == None && !(s.debt.linked && refused)
    ensures Inv(RecordPayment(s, id, target, amount, refused, now).state)
  {
    AfterBookingKeeps(s, id, target, amount, now);
    WithBookingKeeps(AfterBooking(Booked(s, id, target, amount, PaymentSplit(s, target, amount)), target, now), id, amount);
  }

  lemma RecordKeeps(s: State, op: Op, now: int)
    requires Inv(s) && op.Record? && !ReusesDeletedId(s, op)
    ensures Inv(Step(s, op, now).state) <==> !LeavesUnskipped(s, op)
  {
    if op.id !in s.payments && PaymentError(s, op.target, op.amount) == None {
      if s.debt.linked && op.refused {
        RefusedKeeps(s, op.id, op.target, op.amount, now);
      } else {
        AcceptedKeeps(s, op.id, op.target, op.amount, op.refused, now);
      }
    }
  }

  // ----- removing -----

  lemma PaymentWithinPaid(s: State, id: Id, i: Id)
    requires MoneyOk(s) && id in s.payments && !s.payments[id].deleted
    requires i in s.installments && s.payments[id].installmentId == Some(i)
    ensures 0 < s.payments[id].amount <= s.installments[i].paid
  {
    SumNonNegative(s.payments, Toward(Amount, i));
    assert Toward(Amount, i)(s.payments[id]) <= PaidToward(s.payments, Amount, i);
    assert RowOk(s, i);
  }

  lemma TakenOutIsSound(row: Installment, amount: int)
    requires SoundRow(row) && 0 < amount <= row.paid
    ensures SoundRow(TakenOut(row, amount)) && TakenOut(row, amount).paid == row.paid - amount
    ensures TakenOut(row, amount).status != Skipped
  {
  }

  /** The payment is taken out of its own installment and of no other. */
  lemma PaidWithout(s: State, id: Id, i: Id, row: Installment)
    requires MoneyOk(s) && id in s.payments && !s.payments[id].deleted && i in s.installments
    requires row == s.installments[i].(paid := s.installments[i].paid - Toward(Amount, i)(s.payments[id]), status := row.status)
    ensures PaidOk(s.payments[id := s.payments[id].(deleted := true)], i, row)
  {
    PaymentDeleted(s.payments, id, Amount, i);
    PaymentDeleted(s.payments, id, Fees, i);
    PaymentDeleted(s.payments, id, InterestPart, i);
    PaymentDeleted(s.payments, id, PrincipalPart, i);
    assert RowOk(s, i);
  }

  lemma RefundedRow(s: State, id: Id, i: Id)
    requires MoneyOk(s) && id in s.payments && !s.payments[id].deleted && i in s.installments
    ensures RowOk(Refunded(s, id), i)
    ensures Refunded(s, id).installments[i].status == Skipped ==> s.installments[i].status == Skipped
  {
    assert RowOk(s, i);
    if s.payments[id].installmentId == Some(i) {
      PaymentWithinPaid(s, id, i);
      TakenOutIsSound(s.installments[i], s.payments[id].amount);
    }
    PaidWithout(s, id, i, Refunded(s, id).installments[i]);
  }

  lemma LivePrincipalRemoved(payments: map<Id, Payment>, id: Id)
    requires id in payments && !payments[id].deleted
    ensures LivePrincipal(payments[id := payments[id].(deleted := true)]) == LivePrincipal(payments) - payments[id].principal
  {
    SumUpdate(payments, LivePart(PrincipalPart), id, payments[id].(deleted := true));
  }

  lemma RefundedRows(s: State, id: Id)
    requires MoneyOk(s) && id in s.payments && !s.payments[id].deleted
    ensures Refunded(s, id).installments.Keys == s.installments.Keys && RowsOk(Refunded(s, id))
  {
    assert Refunded(s, id).installments.Keys == s.installments.Keys;
    forall i | i in s.installments ensures RowOk(Refunded(s, id), i) {
      RefundedRow(s, id, i);
    }
  }

  lemma RefundedDebt(s: State, id: Id)
    requires MoneyOk(s) && id in s.payments && !s.payments[id].deleted
    ensures DebtOk(Refunded(s, id))
  {
    LivePrincipalRemoved(s.payments, id);
  }

  lemma RefundedPayments(s: State, id: Id)
    requires MoneyOk(s) && id in s.payments && !s.payments[id].deleted
    ensures PaymentsOk(Refunded(s, id).payments, s.installments.Keys) && SequencesDistinct(Refunded(s, id).installments)
  {
  }

  lemma RefundedKeeps(s: State, id: Id)
    requires MoneyOk(s) && id in s.payments && !s.payments[id].deleted
    ensures MoneyOk(Refunded(s, id)) && Refunded(s, id).installments.Keys == s.installments.Keys
  {
    RefundedRows(s, id);
    RefundedDebt(s, id);
    RefundedPayments(s, id);
  }

  lemma UnskipRestKeeps(s: State)
    requires MoneyOk(s) && s.debt.status == Active
    ensures Inv(UnskipRest(s))
  {
    WithStatusKeeps(s, {Skipped}, Scheduled);
  }

  lemma RefundedStatuses(s: State, id: Id)
    requires Inv(s) && s.debt.status == Active && id in s.payments && !s.payments[id].deleted
    ensures StatusesOk(Refunded(s, id))
  {
    forall i | i in Refunded(s, id).installments ensures Refunded(s, id).installments[i].status != Skipped {
      RefundedRow(s, id, i);
    }
  }

  lemma RemoveKeeps(s: State, id: Id, refused: bool)
    requires Inv(s)
    ensures Inv(RemovePayment(s, id, refused).state)
  {
    if id in s.payments && !s.payments[id].deleted && !(id in s.bookings && refused) {
      RefundedKeeps(s, id);
      if s.debt.status == PaidOff {
        UnskipRestKeeps(Refunded(s, id));
      } else {
        RefundedStatuses(s, id);
      }
    }
  }

  // ----- every run -----

  lemma SweepKeeps(s: State, now: int)
    requires Inv(s)
    ensures Inv(SweepInstallments(s, now))
  {
    assert SweepInstallments(s, now).installments.Keys == s.installments.Keys;
    SameMoneyKeeps(s, SweepInstallments(s, now));
  }

  /** Such a payment fails after the installment has been updated, which then shows money no payment explains. */
  lemma ReusedIdBreaks(s: State, op: Op, now: int)
    requires Inv(s) && ReusesDeletedId(s, op)
    ensures !Inv(Step(s, op, now).state)
  {
    var after := Step(s, op, now).state;
    assert PaidOk(s.payments, op.target.id, s.installments[op.target.id]);
    assert !PaidOk(after.payments, op.target.id, after.installments[op.target.id]);
  }

  /** Every operation keeps the invariant, except a payment that reuses the id of a deleted one, and one that pays the debt
      off but is refused by the linked account while other lines are open. */
  lemma StepKeeps(s: State, op: Op, now: int)
    requires Inv(s)
    ensures Inv(Step(s, op, now).state) <==> !ReusesDeletedId(s, op) && !LeavesUnskipped(s, op)
  {
    if ReusesDeletedId(s, op) {
      ReusedIdBreaks(s, op, now);
    } else {
      match op
      case Record(_, _, _, _) => RecordKeeps(s, op, now);
      case Remove(id, refused) => RemoveKeeps(s, id, refused);
      case Regenerate(strategy) => RebuiltKeeps(s, strategy, now);
      case Sweep => SweepKeeps(s, now);
    }
  }

  /** No payment of the run reuses the id of a deleted one or is refused when it pays the debt off. */
  ghost predicate NoMishap(s: State, ops: seq<(Op, int)>)
    decreases |ops|
  {
    ops == []
    || (!ReusesDeletedId(s, ops[0].0) && !LeavesUnskipped(s, ops[0].0)
        && NoMishap(Step(s, ops[0].0, ops[0].1).state, ops[1..]))
  }

  lemma {:induction false} RunKeeps(s: State, ops: seq<(Op, int)>)
    requires Inv(s) && NoMishap(s, ops)
    ensures Inv(Run(s, ops))
    decreases |ops|
  {
    if ops != [] {
      StepKeeps(s, ops[0].0, ops[0].1);
      RunKeeps(Step(s, ops[0].0, ops[0].1).state, ops[1..]);
    }
  }

  /** A debt starts out sound with any schedule of non-negative, consecutively numbered lines. */
  lemma OpenedIsSound(debt: Debt, lines: seq<Line>, startSequence: int)
    requires debt.status == Active && 0 <= debt.principal == debt.outstanding && Chargeable(lines, startSequence)
    ensures Inv(Opened(debt, lines))
  {
    var s := Opened(debt, lines);
    forall i | i in s.installments
      ensures RowOk(s, i)
      ensures s.installments[i].sequence == startSequence + i && s.installments[i].status == Scheduled
    {
      assert s.installments[i] == RowAt(lines, 0, i);
      assert lines[i].total == lines[i].principal + lines[i].interest;
      NothingToward(s.payments, i);
    }
  }
}
