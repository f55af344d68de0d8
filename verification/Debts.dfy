/** One debt with its installments and payments, and what each operation of the debt service does to them. */
module Debts {
  import opened Wrappers
  import opened Integers
  import opened MapSums
  import opened Rounding
  import opened ScheduleDates
  import opened Amortization
  import opened Annuity

  type Id = nat

  datatype InstallmentStatus = Scheduled | Paid | Partial | Late | Skipped

  datatype Installment = Installment(
    sequence: int, dueOn: int, total: int, principal: int, interest: int, fees: int, balanceAfter: int,
    status: InstallmentStatus, paid: int)

  /** A deleted payment keeps its row. */
  datatype Payment = Payment(
    installmentId: Option<Id>, amount: int, principal: int, interest: int, fees: int, isExtra: bool, deleted: bool)

  datatype DebtStatus = Active | PaidOff

  datatype ScheduleMode = Auto | Manual

  datatype Debt = Debt(
    principal: int, outstanding: int, status: DebtStatus, mode: ScheduleMode,
    annualRatePct: Option<real>, rateType: RateType, frequency: Frequency, installment: Option<int>, linked: bool)

  /** `nextId` is above every installment id handed out so far; `bookings` are the amounts of the live transactions on the
      linked account, by the payment they belong to. */
  datatype State = State(
    debt: Debt, installments: map<Id, Installment>, payments: map<Id, Payment>, nextId: Id, bookings: map<Id, int>)

  datatype Error =
    | DebtNotActive
    | AmountMustBePositive
    | ExceedsOutstanding
    | InstallmentNotFound
    | InstallmentAlreadySettled
    | ExceedsInstallment
    | PaymentNotFound
    | ManualScheduleNotRegeneratable
    | DuplicatePaymentId
    | LinkedTransactionRefused

  /** Nothing wraps these operations in a database transaction: a failing one keeps what it wrote before it failed. */
  datatype Outcome = Outcome(state: State, error: Option<Error>)

  // ----- what has been paid -----

  datatype Part = Amount | Fees | InterestPart | PrincipalPart

  function PartOf(part: Part, payment: Payment): int {
    match part
    case Amount => payment.amount
    case Fees => payment.fees
    case InterestPart => payment.interest
    case PrincipalPart => payment.principal
  }

  /** What a payment contributes to one installment. */
  function Toward(part: Part, i: Id): Payment -> int {
    (payment: Payment) => if !payment.deleted && payment.installmentId == Some(i) then PartOf(part, payment) else 0
  }

  function LivePart(part: Part): Payment -> int {
    (payment: Payment) => if !payment.deleted then PartOf(part, payment) else 0
  }

  ghost function PaidToward(payments: map<Id, Payment>, part: Part, i: Id): int {
    Sum(payments, Toward(part, i))
  }

  ghost function LivePrincipal(payments: map<Id, Payment>): int {
    Sum(payments, LivePart(PrincipalPart))
  }

  // ----- regenerating a schedule -----

  predicate Settled(status: InstallmentStatus) {
    status == Paid || status == Partial
  }

  predicate Replaceable(status: InstallmentStatus) {
    status == Scheduled || status == Late
  }

  function SettledRows(rows: map<Id, Installment>): map<Id, Installment> {
    map i | i in rows && Settled(rows[i].status) :: rows[i]
  }

  function ReplaceableIds(rows: map<Id, Installment>): set<Id> {
    set i | i in rows && Replaceable(rows[i].status)
  }

  ghost function MaxSequence(rows: map<Id, Installment>): int
    requires rows != map[]
    decreases |rows|
  {
    PickKeyExists(rows);
    var i :| i in rows;
    if rows - {i} == map[] then rows[i].sequence
    else if MaxSequence(rows - {i}) > rows[i].sequence then MaxSequence(rows - {i})
    else rows[i].sequence
  }

  lemma PickKeyExists(rows: map<Id, Installment>)
    requires rows != map[]
    ensures exists i :: i in rows
  {
    var i := PickKey(rows);
  }

  /** Numbering resumes after the last settled installment. */
  ghost function StartSequence(rows: map<Id, Installment>): int {
    if SettledRows(rows) == map[] then 1 else MaxSequence(SettledRows(rows)) + 1
  }

  function RowOf(line: Line): Installment {
    Installment(line.sequence, line.dueOn, line.total, line.principal, line.interest, 0, line.balanceAfter, Scheduled, 0)
  }

  function RowAt(lines: seq<Line>, firstId: Id, i: Id): Installment
    requires firstId <= i < firstId + |lines|
  {
    RowOf(lines[i - firstId])
  }

  function Rows(lines: seq<Line>, firstId: Id): map<Id, Installment> {
    map i: Id | firstId <= i < firstId + |lines| :: RowAt(lines, firstId, i)
  }

  function Replaced(s: State, lines: seq<Line>): State {
    s.(installments := (s.installments - ReplaceableIds(s.installments)) + Rows(lines, s.nextId),
       nextId := s.nextId + |lines|)
  }

  datatype Strategy = ReduceTerm | ReduceInstallment

  function RateOf(debt: Debt): real {
    PeriodicRate(debt.annualRatePct, debt.rateType, debt.frequency)
  }

  /** The installment kept when the term is reduced. */
  function KeptInstallment(debt: Debt, count: nat): int
    requires 0 < count
  {
    if debt.installment.Some? then debt.installment.value else BankersRound(debt.outstanding as real / count as real)
  }

  /** The rebuilt schedule starts from the whole outstanding balance. */
  function NewLines(debt: Debt, strategy: Strategy, count: nat, startSequence: int, now: int): seq<Line>
    requires 0 < count
  {
    var dueOn := DueDates(now, debt.frequency);
    if strategy == ReduceInstallment then
      CountSchedule(debt.outstanding, RateOf(debt), count, dueOn, startSequence)
    else
      FixedSchedule(Plan(Charge(RateOf(debt)), KeptInstallment(debt, count), dueOn, startSequence), debt.outstanding, MAX_PERIODS)
  }

  ghost function Rebuilt(s: State, strategy: Strategy, now: int): State {
    if ReplaceableIds(s.installments) == {} then s
    else
      Replaced(s, NewLines(s.debt, strategy, |ReplaceableIds(s.installments)|, StartSequence(s.installments), now))
  }

  ghost function RegenerateSchedule(s: State, strategy: Strategy, now: int): Outcome {
    if s.debt.mode == Manual then Outcome(s, Some(ManualScheduleNotRegeneratable))
    else Outcome(Rebuilt(s, strategy, now), None)
  }

  // ----- recording a payment -----

  datatype Target = Extra | Against(id: Id)

  datatype Split = Split(fees: int, interest: int, principal: int)

  /** What an installment still asks for. */
  ghost function Remaining(s: State, i: Id): Split
    requires i in s.installments
  {
    var row := s.installments[i];
    Split(row.fees - PaidToward(s.payments, Fees, i),
          row.interest - PaidToward(s.payments, InterestPart, i),
          row.principal - PaidToward(s.payments, PrincipalPart, i))
  }

  /** Fees first, then interest, then principal. */
  function Waterfall(amount: int, remaining: Split): Split {
    var fees := Min(amount, remaining.fees);
    var interest := Min(amount - fees, remaining.interest);
    Split(fees, interest, Min(amount - fees - interest, remaining.principal))
  }

  ghost function PaymentError(s: State, target: Target, amount: int): Option<Error> {
    if s.debt.status != Active then Some(DebtNotActive)
    else if amount <= 0 then Some(AmountMustBePositive)
    else if target.Extra? then (if amount > s.debt.outstanding then Some(ExceedsOutstanding) else None)
    else if target.id !in s.installments then Some(InstallmentNotFound)
    else if s.installments[target.id].status == Paid then Some(InstallmentAlreadySettled)
    else if amount > Remaining(s, target.id).fees + Remaining(s, target.id).interest + Remaining(s, target.id).principal then
      Some(ExceedsInstallment)
    else None
  }

  ghost function PaymentSplit(s: State, target: Target, amount: int): Split
    requires PaymentError(s, target, amount) == None
  {
    if target.Extra? then Split(0, 0, amount) else Waterfall(amount, Remaining(s, target.id))
  }

  function PaidInto(row: Installment, amount: int): Installment {
    row.(paid := row.paid + amount, status := if row.paid + amount >= row.total then Paid else Partial)
  }

  function WithInstallmentPaid(s: State, target: Target, amount: int): State
    requires target.Against? ==> target.id in s.installments
  {
    if target.Extra? then s
    else s.(installments := s.installments[target.id := PaidInto(s.installments[target.id], amount)])
  }

  function PaymentRow(target: Target, amount: int, split: Split): Payment {
    Payment(if target.Extra? then None else Some(target.id), amount, split.principal, split.interest, split.fees,
      target.Extra?, false)
  }

  function ReducedDebt(debt: Debt, principalPaid: int): Debt {
    if debt.outstanding - principalPaid <= 0 then debt.(outstanding := 0, status := PaidOff)
    else debt.(outstanding := debt.outstanding - principalPaid)
  }

  function WithStatus(rows: map<Id, Installment>, from: set<InstallmentStatus>, to: InstallmentStatus): map<Id,
          Installment> {
    map i | i in rows :: if rows[i].status in from then rows[i].(status := to) else rows[i]
  }

  function SkipRest(s: State): State {
    s.(installments := WithStatus(s.installments, {Scheduled, Late}, Skipped))
  }

  /** Payment row and debt once an accepted payment is written. */
  function Booked(s: State, id: Id, target: Target, amount: int, split: Split): State
    requires target.Against? ==> target.id in s.installments
  {
    var paid := WithInstallmentPaid(s, target, amount);
    paid.(payments := paid.payments[id := PaymentRow(target, amount, split)],
          debt := ReducedDebt(paid.debt, split.principal))
  }

  /** An extra payment that leaves something open rebuilds the schedule. */
  ghost function Reshaped(s: State, target: Target, now: int): State {
    if s.debt.status != PaidOff && target.Extra? && s.debt.mode != Manual then Rebuilt(s, ReduceTerm, now) else s
  }

  ghost function AfterBooking(s: State, target: Target, now: int): State {
    if s.debt.status == PaidOff then SkipRest(s) else Reshaped(s, target, now)
  }

  /** The transaction of the payment on the linked account, if there is one. */
  function WithBooking(s: State, id: Id, amount: int): State {
    if s.debt.linked then s.(bookings := s.bookings[id := amount]) else s
  }

  /** A live id is a replay. The id of a deleted payment is found out only when the row is created, after the
      installment has been updated. `refused` tells whether the linked account, if there is one, refuses the transaction
      of the payment: by then payment, debt and schedule are written, and lines still to be skipped are not. */
  ghost function RecordPayment(s: State, id: Id, target: Target, amount: int, refused: bool, now: int): Outcome {
    if id in s.payments && !s.payments[id].deleted then Outcome(s, None)
    else if PaymentError(s, target, amount) != None then Outcome(s, PaymentError(s, target, amount))
    else if id in s.payments then Outcome(WithInstallmentPaid(s, target, amount), Some(DuplicatePaymentId))
    else
      var booked := Booked(s, id, target, amount, PaymentSplit(s, target, amount));
      if s.debt.linked && refused then Outcome(Reshaped(booked, target, now), Some(LinkedTransactionRefused))
      else Outcome(WithBooking(AfterBooking(booked, target, now), id, amount), None)
  }

  // ----- removing a payment -----

  function TakenOut(row: Installment, amount: int): Installment {
    var newPaid := row.paid - amount;
    row.(paid := if newPaid < 0 then 0 else newPaid, status := if newPaid <= 0 then Scheduled else Partial)
  }

  function WithInstallmentRefunded(rows: map<Id, Installment>, payment: Payment): map<Id, Installment> {
    if payment.installmentId.Some? && payment.installmentId.value in rows then
      rows[payment.installmentId.value := TakenOut(rows[payment.installmentId.value], payment.amount)]
    else rows
  }

  /** The payment taken out of its installment and of the debt, which is active again. */
  function Refunded(s: State, id: Id): State
    requires id in s.payments
  {
    s.(installments := WithInstallmentRefunded(s.installments, s.payments[id]),
       payments := s.payments[id := s.payments[id].(deleted := true)],
       bookings := s.bookings - {id},
       debt := s.debt.(outstanding := s.debt.outstanding + s.payments[id].principal, status := Active))
  }

  function UnskipRest(s: State): State {
    s.(installments := WithStatus(s.installments, {Skipped}, Scheduled))
  }

  /** The linked transaction is removed first; `refused` tells whether that fails. */
  function RemovePayment(s: State, id: Id, refused: bool): Outcome {
    if id !in s.payments || s.payments[id].deleted then Outcome(s, Some(PaymentNotFound))
    else if id in s.bookings && refused then Outcome(s, Some(LinkedTransactionRefused))
    else Outcome(if s.debt.status == PaidOff then UnskipRest(Refunded(s, id)) else Refunded(s, id), None)
  }

  // ----- the daily sweep -----

  function Swept(row: Installment, now: int): Installment {
    if row.status == Scheduled && row.dueOn < now then row.(status := Late) else row
  }

  function SweepInstallments(s: State, now: int): State {
    s.(installments := map i | i in s.installments :: Swept(s.installments[i], now))
  }

  // ----- runs -----

  datatype Op =
    | Record(id: Id, target: Target, amount: int, refused: bool)
    | Remove(id: Id, refused: bool)
    | Regenerate(strategy: Strategy)
    | Sweep

  ghost function Step(s: State, op: Op, now: int): Outcome {
    match op
    case Record(id, target, amount, refused) => RecordPayment(s, id, target, amount, refused, now)
    case Remove(id, refused) => RemovePayment(s, id, refused)
    case Regenerate(strategy) => RegenerateSchedule(s, strategy, now)
    case Sweep => Outcome(SweepInstallments(s, now), None)
  }

  /** Operations with the times they run at. */
  ghost function Run(s: State, ops: seq<(Op, int)>): State
    decreases |ops|
  {
    if ops == [] then s else Run(Step(s, ops[0].0, ops[0].1).state, ops[1..])
  }

  /** A new debt with the lines of its schedule. */
  function Opened(debt: Debt, lines: seq<Line>): State {
    State(debt, Rows(lines, 0), map[], |lines|, map[])
  }
}
