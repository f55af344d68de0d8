/** The outstanding balance over runs, and what removing a payment undoes. */
module DebtBalance {
  import opened Wrappers
  import opened MapSums
  import opened Amortization
  import opened Annuity
  import opened ScheduleDates
  import opened Debts
  import opened DebtProofs

  // ----- outstanding against recorded principal -----

  /** By how much outstanding balance and recorded principal together exceed the principal. */
  ghost function Excess(s: State): int {
    s.debt.outstanding + LivePrincipal(s.payments) - s.debt.principal
  }

  /** The payment is recorded, whatever the linked account does afterwards. */
  ghost predicate Accepted(s: State, op: Op) {
    op.Record? && op.id !in s.payments && PaymentError(s, op.target, op.amount) == None
  }

  /** How far the principal part of an accepted payment goes past the outstanding balance. */
  ghost function Overshoot(s: State, op: Op): int {
    if Accepted(s, op) && PaymentSplit(s, op.target, op.amount).principal > s.debt.outstanding then
      PaymentSplit(s, op.target, op.amount).principal - s.debt.outstanding
    else 0
  }

  lemma AfterBookingKeepsDebt(s: State, target: Target, now: int)
    ensures AfterBooking(s, target, now).debt == s.debt && AfterBooking(s, target, now).payments == s.payments
  {
  }

  lemma RecordedDebt(s: State, id: Id, target: Target, amount: int, refused: bool, now: int)
    requires Accepted(s, Record(id, target, amount, refused))
    ensures var split, after := PaymentSplit(s, target, amount), RecordPayment(s, id, target, amount, refused, now).state;
      after.debt == ReducedDebt(s.debt, split.principal)
      && after.payments == s.payments[id := PaymentRow(target, amount, split)]
  {
    AfterBookingKeepsDebt(Booked(s, id, target, amount, PaymentSplit(s, target, amount)), target, now);
  }

  lemma RecordExcess(s: State, id: Id, target: Target, amount: int, refused: bool, now: int)
    requires Accepted(s, Record(id, target, amount, refused))
    ensures Excess(RecordPayment(s, id, target, amount, refused, now).state)
         == Excess(s) + Overshoot(s, Record(id, target, amount, refused))
  {
    RecordedDebt(s, id, target, amount, refused, now);
    LivePrincipalAdded(s.payments, id, PaymentRow(target, amount, PaymentSplit(s, target, amount)));
  }

  lemma RemoveExcess(s: State, id: Id, refused: bool)
    ensures Excess(RemovePayment(s, id, refused).state) == Excess(s)
  {
    if id in s.payments && !s.payments[id].deleted {
      LivePrincipalRemoved(s.payments, id);
    }
  }

  /** Only a principal part that goes past the outstanding balance, which is then clamped to 0, adds to the excess. */
  lemma StepExcess(s: State, op: Op, now: int)
    ensures Excess(Step(s, op, now).state) == Excess(s) + Overshoot(s, op)
  {
    if Accepted(s, op) {
      RecordExcess(s, op.id, op.target, op.amount, op.refused, now);
    } else if op.Remove? {
      RemoveExcess(s, op.id, op.refused);
    }
  }

  ghost function TotalOvershoot(s: State, ops: seq<(Op, int)>): int
    decreases |ops|
  {
    if ops == [] then 0
    else Overshoot(s, ops[0].0) + TotalOvershoot(Step(s, ops[0].0, ops[0].1).state, ops[1..])
  }

  ghost predicate NeverOvershoots(s: State, ops: seq<(Op, int)>)
    decreases |ops|
  {
    ops == [] || (Overshoot(s, ops[0].0) == 0 && NeverOvershoots(Step(s, ops[0].0, ops[0].1).state, ops[1..]))
  }

  lemma {:induction false} RunExcess(s: State, ops: seq<(Op, int)>)
    ensures Excess(Run(s, ops)) == Excess(s) + TotalOvershoot(s, ops)
    ensures 0 <= TotalOvershoot(s, ops) && (TotalOvershoot(s, ops) == 0 <==> NeverOvershoots(s, ops))
    decreases |ops|
  {
    if ops != [] {
      StepExcess(s, ops[0].0, ops[0].1);
      RunExcess(Step(s, ops[0].0, ops[0].1).state, ops[1..]);
    }
  }

  /** Over any run, outstanding is principal minus the live principal paid exactly when no payment went past the
      outstanding balance it met. */
  lemma OutstandingIsWhatIsLeft(s: State, ops: seq<(Op, int)>)
    requires s.debt.outstanding == s.debt.principal - LivePrincipal(s.payments)
    ensures var after := Run(s, ops);
      after.debt.outstanding == s.debt.principal - LivePrincipal(after.payments) <==> NeverOvershoots(s, ops)
  {
    RunExcess(s, ops);
    RunKeepsPrincipal(s, ops);
  }

  lemma {:induction false} RunKeepsPrincipal(s: State, ops: seq<(Op, int)>)
    ensures Run(s, ops).debt.principal == s.debt.principal
    decreases |ops|
  {
    if ops != [] {
      RunKeepsPrincipal(Step(s, ops[0].0, ops[0].1).state, ops[1..]);
    }
  }

  // ----- runs that use the clamp -----

  function SingleLine(total: int): Line {
    Line(1, 0, total, total, 0, 0)
  }

  /** A debt with a single hand-typed installment. */
  function HandTyped(total: int, linked: bool): State {
    Opened(Debt(total, total, Active, Manual, None, ZeroRate, FrequencyMonthly, Some(total), linked), [SingleLine(total)])
  }

  function AfterExtraPayment(total: int, extra: int): State {
    HandTyped(total, false).(debt := HandTyped(total, false).debt.(outstanding := total - extra),
                      payments := map[0 := Payment(None, extra, extra, 0, 0, true, false)])
  }

  lemma HandTypedIsSound(total: int, linked: bool)
    requires 0 < total
    ensures Inv(HandTyped(total, linked)) && Excess(HandTyped(total, linked)) == 0
  {
    OpenedIsSound(HandTyped(total, linked).debt, [SingleLine(total)], 1);
    SumZero(HandTyped(total, linked).payments, LivePart(PrincipalPart));
  }

  lemma HandTypedRow(total: int, linked: bool)
    ensures 0 in HandTyped(total, linked).installments && HandTyped(total, linked).installments[0] == RowOf(SingleLine(total))
  {
    assert HandTyped(total, linked).installments[0] == RowAt([SingleLine(total)], 0, 0);
  }

  lemma ExtraPaymentStep(total: int, extra: int)
    requires 0 < extra < total
    ensures var s, op := HandTyped(total, false), Record(0, Extra, extra, false);
      Overshoot(s, op) == 0 && Step(s, op, 0).state == AfterExtraPayment(total, extra)
  {
    assert PaymentSplit(HandTyped(total, false), Extra, extra) == Split(0, 0, extra);
  }

  lemma OvershootingPayment(total: int, extra: int)
    requires 0 < extra < total
    ensures var s, op := AfterExtraPayment(total, extra), Record(1, Against(0), total, false);
      Accepted(s, op) && Overshoot(s, op) == extra && PaymentSplit(s, Against(0), total).principal == total
  {
    HandTypedRow(total, false);
    NothingToward(AfterExtraPayment(total, extra).payments, 0);
    assert Remaining(AfterExtraPayment(total, extra), 0) == Split(0, 0, total);
  }

  /** After an extra payment on a hand-typed schedule, the installment still asks for the whole debt; paying it is
      accepted, the balance is clamped to 0, and more principal is recorded than was ever owed. */
  lemma ClampLosesMoney(total: int, extra: int)
    requires 0 < extra < total
    ensures var s := Run(HandTyped(total, false),
                         [(Record(0, Extra, extra, false), 0), (Record(1, Against(0), total, false), 0)]);
      Inv(HandTyped(total, false)) && Excess(HandTyped(total, false)) == 0 && s.debt.outstanding == 0 && Excess(s) == extra
  {
    var first, second := Record(0, Extra, extra, false), Record(1, Against(0), total, false);
    HandTypedIsSound(total, false);
    ExtraPaymentStep(total, extra);
    OvershootingPayment(total, extra);
    StepExcess(HandTyped(total, false), first, 0);
    StepExcess(AfterExtraPayment(total, extra), second, 0);
    RecordedDebt(AfterExtraPayment(total, extra), 1, Against(0), total, false, 0);
    RunOfTwo(HandTyped(total, false), (first, 0), (second, 0));
  }

  lemma RunOfTwo(s: State, first: (Op, int), second: (Op, int))
    ensures Run(s, [first, second]) == Step(Step(s, first.0, first.1).state, second.0, second.1).state
  {
    var next := Step(s, first.0, first.1).state;
    assert [first, second][1..] == [second];
    assert Run(next, [second]) == Run(Step(next, second.0, second.1).state, []);
  }

  // ----- runs that leave the debt unsound -----

  function AfterPart(total: int, part: int, deleted: bool): State {
    var s := HandTyped(total, false);
    var row := RowOf(SingleLine(total));
    State(s.debt.(outstanding := if deleted then total else total - part),
          map[0 := row.(paid := if deleted then 0 else part, status := if deleted then Scheduled else Partial)],
          map[0 := Payment(Some(0), part, part, 0, 0, false, deleted)], 1, map[])
  }

  lemma PartPaid(total: int, part: int)
    requires 0 < part < total
    ensures Step(HandTyped(total, false), Record(0, Against(0), part, false), 0).state == AfterPart(total, part, false)
    ensures Step(AfterPart(total, part, false), Remove(0, false), 0).state == AfterPart(total, part, true)
  {
    HandTypedRow(total, false);
    assert HandTyped(total, false).installments == map[0 := RowOf(SingleLine(total))];
    NothingToward(HandTyped(total, false).payments, 0);
    assert Remaining(HandTyped(total, false), 0) == Split(0, 0, total);
  }

  lemma PartPaidAgain(total: int, part: int)
    requires 0 < part < total
    ensures ReusesDeletedId(AfterPart(total, part, true), Record(0, Against(0), part, false))
  {
    var s := AfterPart(total, part, true);
    forall p: Part ensures PaidToward(s.payments, p, 0) == 0 {
      SumZero(s.payments, Toward(p, 0));
    }
    assert Remaining(s, 0) == Split(0, 0, total);
  }

  /** A part payment recorded, removed, and recorded again under its id: the last call fails, and the installment shows
      money that no payment explains. */
  lemma ReusedIdRun(total: int, part: int)
    requires 0 < part < total
    ensures var pay := Record(0, Against(0), part, false);
      var s := Run(HandTyped(total, false), [(pay, 0), (Remove(0, false), 0)]);
      && Inv(HandTyped(total, false)) && Step(s, pay, 0).error == Some(DuplicatePaymentId)
      && !Inv(Step(s, pay, 0).state) && Step(s, pay, 0).state.installments[0].paid == part
  {
    var pay := Record(0, Against(0), part, false);
    HandTypedIsSound(total, false);
    PartPaid(total, part);
    PartPaidAgain(total, part);
    RunOfTwo(HandTyped(total, false), (pay, 0), (Remove(0, false), 0));
    StepKeeps(HandTyped(total, false), pay, 0);
    StepKeeps(AfterPart(total, part, false), Remove(0, false), 0);
    StepKeeps(AfterPart(total, part, true), pay, 0);
  }

  /** An extra payment of the whole debt that the linked account refuses: the debt is paid off and its line still scheduled. */
  lemma RefusedPayoff(total: int)
    requires 0 < total
    ensures var op := Record(0, Extra, total, true);
      var s := Step(HandTyped(total, true), op, 0);
      && Inv(HandTyped(total, true)) && s.error == Some(LinkedTransactionRefused) && s.state.debt.status == PaidOff
      && 0 in s.state.installments && s.state.installments[0].status == Scheduled && !Inv(s.state)
  {
    HandTypedIsSound(total, true);
    HandTypedRow(total, true);
    assert PaymentSplit(HandTyped(total, true), Extra, total) == Split(0, 0, total);
    assert OtherLineOpen(HandTyped(total, true), Extra);
    StepKeeps(HandTyped(total, true), Record(0, Extra, total, true), 0);
  }

  // ----- removing what was recorded -----

  /** Removing a payment restores the debt exactly when its principal part did not go past the outstanding balance. */
  lemma RemovalRestoresDebt(s: State, id: Id, target: Target, amount: int, refused: bool, now: int)
    requires Inv(s) && Accepted(s, Record(id, target, amount, refused))
    ensures RemovePayment(RecordPayment(s, id, target, amount, refused, now).state, id, false).state.debt == s.debt
       <==> PaymentSplit(s, target, amount).principal <= s.debt.outstanding
  {
    RecordedDebt(s, id, target, amount, refused, now);
  }

  /** A late line that is paid and refunded comes back as scheduled. */
  function Unlate(row: Installment): Installment {
    if row.status == Late then row.(status := Scheduled) else row
  }

  function MaybeSkipped(row: Installment, status: DebtStatus, refused: bool): Installment {
    if status == PaidOff && !refused && Replaceable(row.status) then row.(status := Skipped) else row
  }

  function MaybeUnskipped(row: Installment, status: DebtStatus): Installment {
    if status == PaidOff && row.status == Skipped then row.(status := Scheduled) else row
  }

  lemma RecordedRow(s: State, id: Id, i: Id, amount: int, refused: bool, now: int, j: Id)
    requires Accepted(s, Record(id, Against(i), amount, refused)) && j in s.installments
    ensures var after := RecordPayment(s, id, Against(i), amount, refused, now).state;
      j in after.installments
      && after.installments[j]
         == MaybeSkipped(if j == i then PaidInto(s.installments[i], amount) else s.installments[j], after.debt.status,
                        s.debt.linked && refused)
  {
    RecordedDebt(s, id, Against(i), amount, refused, now);
  }

  lemma RemovedRow(s: State, id: Id, i: Id, j: Id)
    requires id in s.payments && !s.payments[id].deleted && s.payments[id].installmentId == Some(i)
    requires i in s.installments && j in s.installments
    ensures var after := RemovePayment(s, id, false).state;
      j in after.installments
      && after.installments[j]
         == MaybeUnskipped(if j == i then TakenOut(s.installments[i], s.payments[id].amount) else s.installments[j],
                            s.debt.status)
  {
  }

  /** Paying and refunding a row, with the rest skipped and unskipped in between, loses at most its being late. */
  lemma RowComesBack(row: Installment, amount: int, own: bool, status: DebtStatus, refused: bool)
    requires SoundRow(row) && row.status != Skipped && 0 < amount && (own ==> row.status != Paid)
    ensures var paid := MaybeSkipped(if own then PaidInto(row, amount) else row, status, refused);
      Unlate(MaybeUnskipped(if own then TakenOut(paid, amount) else paid, status)) == Unlate(row)
  {
  }

  lemma RestoredRow(s: State, id: Id, i: Id, amount: int, refused: bool, now: int, j: Id)
    requires Inv(s) && Accepted(s, Record(id, Against(i), amount, refused)) && j in s.installments
    ensures var after := RemovePayment(RecordPayment(s, id, Against(i), amount, refused, now).state, id, false).state;
      j in after.installments && Unlate(after.installments[j]) == Unlate(s.installments[j])
  {
    var recorded := RecordPayment(s, id, Against(i), amount, refused, now).state;
    RecordedDebt(s, id, Against(i), amount, refused, now);
    RecordedRow(s, id, i, amount, refused, now, j);
    RecordedRow(s, id, i, amount, refused, now, i);
    RemovedRow(recorded, id, i, j);
    RowOfInv(s, j);
    RowComesBack(s.installments[j], amount, j == i, recorded.debt.status, s.debt.linked && refused);
  }

  lemma RowOfInv(s: State, j: Id)
    requires Inv(s) && j in s.installments
    ensures SoundRow(s.installments[j]) && (s.debt.status == Active ==> s.installments[j].status != Skipped)
  {
    assert RowOk(s, j);
  }

  // ----- the linked account -----

  /** The linked account holds one transaction for every live payment, with its amount, and no other. */
  ghost predicate BookedExactly(s: State) {
    && (forall id :: id in s.bookings <==> s.debt.linked && id in s.payments && !s.payments[id].deleted)
    && (forall id :: id in s.bookings ==> s.bookings[id] == s.payments[id].amount)
  }

  /** A payment that is recorded although the linked account refuses its transaction. */
  ghost predicate RecordedUnbooked(s: State, op: Op) {
    Accepted(s, op) && s.debt.linked && op.refused
  }

  lemma RecordedBookings(s: State, op: Op, now: int)
    requires Accepted(s, op)
    ensures Step(s, op, now).state.bookings
         == if s.debt.linked && !op.refused then s.bookings[op.id := op.amount] else s.bookings
    ensures Step(s, op, now).state.debt.linked == s.debt.linked
  {
  }

  /** A new live payment is booked, or missing from the bookings. */
  lemma OneMorePayment(s: State, after: State, id: Id, payment: Payment, booked: bool)
    requires BookedExactly(s) && id !in s.payments && !payment.deleted && after.debt.linked == s.debt.linked
    requires after.payments == s.payments[id := payment] && (booked ==> s.debt.linked)
    requires after.bookings == if booked then s.bookings[id := payment.amount] else s.bookings
    ensures BookedExactly(after) <==> booked || !s.debt.linked
  {
    assert id !in s.bookings && id in after.payments;
  }

  lemma RecordBooks(s: State, op: Op, now: int)
    requires BookedExactly(s) && op.Record?
    ensures BookedExactly(Step(s, op, now).state) <==> !RecordedUnbooked(s, op)
  {
    if Accepted(s, op) {
      var payment := PaymentRow(op.target, op.amount, PaymentSplit(s, op.target, op.amount));
      RecordedDebt(s, op.id, op.target, op.amount, op.refused, now);
      RecordedBookings(s, op, now);
      OneMorePayment(s, Step(s, op, now).state, op.id, payment, s.debt.linked && !op.refused);
    }
  }

  /** Every operation keeps the linked account in step with the payments, if and only if it is not a payment recorded against
      the refusal of that account. */
  lemma StepBooks(s: State, op: Op, now: int)
    requires BookedExactly(s)
    ensures BookedExactly(Step(s, op, now).state) <==> !RecordedUnbooked(s, op)
  {
    if op.Record? {
      RecordBooks(s, op, now);
    }
  }

  ghost predicate AlwaysBooked(s: State, ops: seq<(Op, int)>)
    decreases |ops|
  {
    ops == [] || (!RecordedUnbooked(s, ops[0].0) && AlwaysBooked(Step(s, ops[0].0, ops[0].1).state, ops[1..]))
  }

  /** From the opening of a debt on, over every run without such a payment. */
  lemma {:induction false} RunBooks(s: State, ops: seq<(Op, int)>)
    requires BookedExactly(s) && AlwaysBooked(s, ops)
    ensures BookedExactly(Run(s, ops))
    decreases |ops|
  {
    if ops != [] {
      StepBooks(s, ops[0].0, ops[0].1);
      RunBooks(Step(s, ops[0].0, ops[0].1).state, ops[1..]);
    }
  }
}
