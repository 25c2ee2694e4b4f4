/** The fixed-payment amortisation schedule of a loan and the loan plan that
    stores it. `numpy_financial.pmt` is the parameter `pmt` and Python's
    `round(x, n)` the parameter `round`. */
module LoanService {
  import opened Wrappers
  import opened Numeric
  import opened Timestamps

  /** One schedule row, amounts rounded to cents. */
  datatype ScheduleItem = ScheduleItem(
    paymentNumber: int, date: string, paymentAmount: real,
    principalPaid: real, interestPaid: real, remainingBalance: real)

  datatype LoanPlan = LoanPlan(
    assetId: string, totalAmount: real, annualRate: real, periodMonths: int,
    startDate: string, extraFees: real, schedule: seq<ScheduleItem>)

  datatype LoanError =
    | DivisionByZero   // no interest and no months: principal / 0
    | BadStartDate     // the start date is not "%Y-%m-%d"
    | DateOutOfRange   // a payment date past the year 9999

  /** An annual percentage as a monthly fraction. */
  function MonthlyRate(annualRate: real): (r: real)
    ensures r * 1200.0 == annualRate
    ensures r > 0.0 <==> annualRate > 0.0
  {
    annualRate / 100.0 / 12.0
  }

  /** The level payment: the annuity payment when interest accrues,
      otherwise an equal share of the principal. */
  function LevelPayment(principal: real, rate: real, periodMonths: int, pmt: (real, int, real) -> real): (r: real)
    requires rate > 0.0 || periodMonths != 0
    ensures rate > 0.0 ==> r >= 0.0 && (r == pmt(rate, periodMonths, principal) || r == -pmt(rate, periodMonths, principal))
    ensures rate <= 0.0 ==> r * (periodMonths as real) == principal
  {
    if rate > 0.0 then Abs(pmt(rate, periodMonths, principal)) else principal / (periodMonths as real)
  }

  /** The unrounded amounts of one period. */
  datatype Period = Period(payment: real, principalPaid: real, interest: real, balance: real)

  /** Period k of n from the balance before it: interest accrues on the
      balance, the rest of the payment repays principal, the last period
      repays whatever is left, and a balance below zero is clamped to zero. */
  function PeriodFrom(k: int, n: int, rate: real, payment: real, before: real): (p: Period)
    ensures p.balance >= 0.0
    ensures p.interest == before * rate
    ensures k == n ==> p.principalPaid == before && p.payment == before + p.interest && p.balance == 0.0
    ensures k != n ==> p.payment == payment && p.principalPaid == payment - p.interest
    ensures k != n && before - p.principalPaid >= 0.0 ==> p.balance == before - p.principalPaid
  {
    var interest := before * rate;
    if k == n then Period(before + interest, before, interest, 0.0)
    else
      var principalPaid := payment - interest;
      var balance := before - principalPaid;
      Period(payment, principalPaid, interest, if balance < 0.0 then 0.0 else balance)
  }

  /** The balance after k periods. */
  function BalanceAfter(k: nat, n: int, rate: real, payment: real, principal: real): real
  {
    if k == 0 then principal
    else PeriodFrom(k, n, rate, payment, BalanceAfter(k - 1, n, rate, payment, principal)).balance
  }

  /** Period k (from 1) of the schedule. */
  function PeriodOf(k: nat, n: int, rate: real, payment: real, principal: real): Period
    requires k >= 1
  {
    PeriodFrom(k, n, rate, payment, BalanceAfter(k - 1, n, rate, payment, principal))
  }

  /** The month after d, on the same day capped at the 28th. */
  function NextMonth(d: Date): (r: Date)
    ensures 1 <= d.month <= 12 ==> 1 <= r.month <= 12 && r.year * 12 + r.month == d.year * 12 + d.month + 1
    ensures r.day <= 28 && (d.day <= 28 ==> r.day == d.day)
  {
    Date(d.year + d.month / 12, d.month % 12 + 1, if d.day < 28 then d.day else 28)
  }

  /** The date of payment k: k months after the start. */
  function DateAfter(start: Date, k: nat): Date
  {
    if k == 0 then start else NextMonth(DateAfter(start, k - 1))
  }

  /** Months since the start of year 0. */
  function MonthIndex(d: Date): int
  {
    d.year * 12 + d.month - 1
  }

  /** Each payment date is one calendar month after the previous, on a day
      no later than the 28th, so it is a real date as long as its year is. */
  lemma {:induction false} DateAfterShape(start: Date, k: nat)
    requires ValidDate(start)
    ensures MonthIndex(DateAfter(start, k)) == MonthIndex(start) + k
    ensures 1 <= DateAfter(start, k).month <= 12
    ensures DateAfter(start, k).year >= start.year
    ensures 1 <= DateAfter(start, k).day <= DaysInMonth(DateAfter(start, k).year, DateAfter(start, k).month)
    ensures k >= 1 ==> DateAfter(start, k).day <= 28
    ensures DateAfter(start, k).year <= 9999 ==> ValidDate(DateAfter(start, k))
  {
    if k > 0 {
      DateAfterShape(start, k - 1);
      var d := DateAfter(start, k - 1);
      assert d.month == 12 * (d.month / 12) + d.month % 12;
    }
  }

  /** Payment years never go back, so the last date is the latest. */
  lemma {:induction false} YearsNondecreasing(start: Date, j: nat, k: nat)
    requires ValidDate(start) && j <= k
    ensures DateAfter(start, j).year <= DateAfter(start, k).year
    decreases k - j
  {
    if j < k {
      YearsNondecreasing(start, j + 1, k);
      DateAfterShape(start, j);
    }
  }

  /** Row k of the schedule as the Python code writes it. */
  function ItemOf(k: nat, n: int, rate: real, payment: real, principal: real, start: Date,
                  round: (real, nat) -> real): ScheduleItem
    requires k >= 1 && ValidDate(start) && DateAfter(start, k).year <= 9999
  {
    DateAfterShape(start, k);
    var p := PeriodOf(k, n, rate, payment, principal);
    ScheduleItem(k, FormatDate(DateAfter(start, k)), round(p.payment, 2), round(p.principalPaid, 2),
                 round(p.interest, 2), round(p.balance, 2))
  }

  /** The first m rows of the schedule. */
  function Rows(principal: real, rate: real, payment: real, n: int, start: Date,
                round: (real, nat) -> real, m: nat): (rows: seq<ScheduleItem>)
    requires ValidDate(start) && (m >= 1 ==> DateAfter(start, m).year <= 9999)
    ensures |rows| == m
    ensures forall k :: 1 <= k <= m ==> DateAfter(start, k).year <= 9999
  {
    if m == 0 then []
    else
      YearsNondecreasing(start, m - 1, m);
      Rows(principal, rate, payment, n, start, round, m - 1) + [ItemOf(m, n, rate, payment, principal, start, round)]
  }

  /** The rows from a parsed start date on, or the error when the last
      payment date falls past the year 9999. */
  function ScheduleFrom(principal: real, rate: real, payment: real, n: int, start: Date,
                        round: (real, nat) -> real): Result<seq<ScheduleItem>, LoanError>
    requires ValidDate(start)
  {
    if n >= 1 && DateAfter(start, n).year > 9999 then Err(DateOutOfRange)
    else if n < 1 then Ok([])
    else Ok(Rows(principal, rate, payment, n, start, round, n))
  }

  /** The schedule `calculate_amortization_schedule` returns, or the error
      it raises. */
  function Schedule(principal: real, annualRate: real, periodMonths: int, startDate: string,
                    pmt: (real, int, real) -> real, round: (real, nat) -> real): (r: Result<seq<ScheduleItem>, LoanError>)
    ensures r.Ok? ==> ParseDate(startDate).Some? && |r.value| == if periodMonths < 0 then 0 else periodMonths
  {
    var rate := MonthlyRate(annualRate);
    if rate <= 0.0 && periodMonths == 0 then Err(DivisionByZero)
    else
      match ParseDate(startDate)
      case None => Err(BadStartDate)
      case Some(start) =>
        ScheduleFrom(principal, rate, LevelPayment(principal, rate, periodMonths, pmt), periodMonths, start, round)
  }

  /** `calculate_amortization_schedule`. */
  method CalculateAmortizationSchedule(principal: real, annualRate: real, periodMonths: int, startDate: string,
                                       pmt: (real, int, real) -> real, round: (real, nat) -> real)
      returns (r: Result<seq<ScheduleItem>, LoanError>)
    ensures r == Schedule(principal, annualRate, periodMonths, startDate, pmt, round)
  {
    var monthlyRate := annualRate / 100.0 / 12.0;
    if monthlyRate <= 0.0 && periodMonths == 0 {
      return Err(DivisionByZero);
    }
    var monthlyPayment: real;
    if monthlyRate > 0.0 {
      monthlyPayment := Abs(pmt(monthlyRate, periodMonths, principal));
    } else {
      monthlyPayment := principal / (periodMonths as real);
    }
    assert monthlyRate == MonthlyRate(annualRate);
    assert monthlyPayment == LevelPayment(principal, monthlyRate, periodMonths, pmt);
    var parsed := ParseDate(startDate);
    if parsed.None? {
      return Err(BadStartDate);
    }
    r := AmortizationLoop(principal, monthlyRate, monthlyPayment, periodMonths, parsed.value, round);
  }

  /** The month-by-month loop of `calculate_amortization_schedule`. */
  method AmortizationLoop(principal: real, monthlyRate: real, payment: real, n: int, start: Date,
                          round: (real, nat) -> real)
      returns (r: Result<seq<ScheduleItem>, LoanError>)
    requires ValidDate(start)
    ensures r == ScheduleFrom(principal, monthlyRate, payment, n, start, round)
  {
    var monthlyPayment := payment;
    var remaining := principal;
    var current := start;
    var schedule: seq<ScheduleItem> := [];
    var i := 1;
    while i <= n
      invariant 1 <= i <= (if n >= 1 then n + 1 else 1)
      invariant i <= n ==> monthlyPayment == payment
      invariant remaining == BalanceAfter(i - 1, n, monthlyRate, payment, principal)
      invariant current == DateAfter(start, i - 1) && current.year <= 9999
      invariant schedule == Rows(principal, monthlyRate, payment, n, start, round, i - 1)
    {
      var pay, principalPaid, interestPaid, balance := AmortizationStep(i, n, monthlyRate, monthlyPayment, remaining);
      var next := NextMonth(current);
      if next.year > 9999 {
        LoopFails(principal, monthlyRate, payment, n, start, round, i, current);
        return Err(DateOutOfRange);
      }
      LoopStep(principal, monthlyRate, payment, n, start, round, i, current,
               Period(pay, principalPaid, interestPaid, balance), next);
      monthlyPayment, remaining := pay, balance;
      current := next;
      var item := ScheduleItem(i, FormatDate(current), round(monthlyPayment, 2),
                               round(principalPaid, 2), round(interestPaid, 2), round(remaining, 2));
      schedule := schedule + [item];
      i := i + 1;
    }
    LoopDone(principal, monthlyRate, payment, n, start, round, i, current);
    r := Ok(schedule);
  }

  /** A payment date past the year 9999 fails the whole schedule. */
  lemma LoopFails(principal: real, rate: real, payment: real, n: int, start: Date,
                  round: (real, nat) -> real, i: nat, current: Date)
    requires ValidDate(start) && 1 <= i <= n
    requires current == DateAfter(start, i - 1) && NextMonth(current).year > 9999
    ensures ScheduleFrom(principal, rate, payment, n, start, round) == Err(DateOutOfRange)
  {
    YearsNondecreasing(start, i, n);
  }

  /** When the loop runs out, all n rows are built and none failed. */
  lemma LoopDone(principal: real, rate: real, payment: real, n: int, start: Date,
                 round: (real, nat) -> real, i: nat, current: Date)
    requires ValidDate(start) && i == (if n >= 1 then n + 1 else 1)
    requires current == DateAfter(start, i - 1) && current.year <= 9999
    ensures ScheduleFrom(principal, rate, payment, n, start, round)
            == Ok(Rows(principal, rate, payment, n, start, round, i - 1))
  {
    if n >= 1 {
      assert i - 1 == n && DateAfter(start, n).year <= 9999;
    } else {
      assert i - 1 == 0;
    }
  }

  /** Period i of the loop, dated one month after the previous payment,
      extends the first i - 1 rows to the first i. */
  lemma LoopStep(principal: real, rate: real, payment: real, n: int, start: Date,
                 round: (real, nat) -> real, i: nat, current: Date, p: Period, next: Date)
    requires ValidDate(start) && 1 <= i <= n
    requires current == DateAfter(start, i - 1)
    requires p == PeriodOf(i, n, rate, payment, principal)
    requires next == NextMonth(current) && next.year <= 9999
    ensures next == DateAfter(start, i) && ValidDate(next)
    ensures p.balance == BalanceAfter(i, n, rate, payment, principal)
    ensures i < n ==> p.payment == payment
    ensures Rows(principal, rate, payment, n, start, round, i - 1)
              + [ScheduleItem(i, FormatDate(next), round(p.payment, 2), round(p.principalPaid, 2),
                              round(p.interest, 2), round(p.balance, 2))]
            == Rows(principal, rate, payment, n, start, round, i)
  {
    DateAfterShape(start, i);
    var item := ScheduleItem(i, FormatDate(next), round(p.payment, 2), round(p.principalPaid, 2),
                             round(p.interest, 2), round(p.balance, 2));
    ItemIsRow(i, n, rate, payment, principal, start, round, next, p, item);
    RowsGrow(principal, rate, payment, n, start, round, i, item);
  }

  /** One pass of the loop body: interest on the balance, the principal the
      payment leaves, the adjustment of the last payment, and the clamp. */
  method AmortizationStep(i: int, n: int, monthlyRate: real, monthlyPayment: real, remaining: real)
      returns (pay: real, principalPaid: real, interestPaid: real, balance: real)
    ensures Period(pay, principalPaid, interestPaid, balance) == PeriodFrom(i, n, monthlyRate, monthlyPayment, remaining)
  {
    pay, balance := monthlyPayment, remaining;
    interestPaid := balance * monthlyRate;
    principalPaid := pay - interestPaid;
    if i == n {
      principalPaid := balance;
      pay := principalPaid + interestPaid;
      balance := 0.0;
    } else {
      balance := balance - principalPaid;
    }
    if balance < 0.0 {
      balance := 0.0;
    }
  }

  /** The row the loop appends for month i is row i of the schedule. */
  lemma ItemIsRow(i: nat, n: int, rate: real, payment: real, principal: real, start: Date,
                  round: (real, nat) -> real, current: Date, p: Period, item: ScheduleItem)
    requires i >= 1 && ValidDate(start) && current == DateAfter(start, i) && current.year <= 9999
    requires ValidDate(current) && p == PeriodOf(i, n, rate, payment, principal)
    requires item == ScheduleItem(i, FormatDate(current), round(p.payment, 2), round(p.principalPaid, 2),
                                  round(p.interest, 2), round(p.balance, 2))
    ensures item == ItemOf(i, n, rate, payment, principal, start, round)
  {
  }

  /** Appending row i to the first i - 1 rows gives the first i rows. */
  lemma RowsGrow(principal: real, rate: real, payment: real, n: int, start: Date,
                 round: (real, nat) -> real, i: nat, item: ScheduleItem)
    requires i >= 1 && ValidDate(start) && DateAfter(start, i).year <= 9999
    requires item == ItemOf(i, n, rate, payment, principal, start, round)
    ensures i - 1 >= 1 ==> DateAfter(start, i - 1).year <= 9999
    ensures Rows(principal, rate, payment, n, start, round, i - 1) + [item]
            == Rows(principal, rate, payment, n, start, round, i)
  {
    YearsNondecreasing(start, i - 1, i);
  }

  /** `create_loan_plan`: the inputs together with their schedule. */
  method CreateLoanPlan(assetId: string, totalAmount: real, annualRate: real, periodMonths: int,
                        startDate: string, extraFees: real,
                        pmt: (real, int, real) -> real, round: (real, nat) -> real)
      returns (r: Result<LoanPlan, LoanError>)
    ensures var s := Schedule(totalAmount, annualRate, periodMonths, startDate, pmt, round);
      && (s.Err? ==> r == Err(s.error))
      && (s.Ok? ==> r == Ok(LoanPlan(assetId, totalAmount, annualRate, periodMonths, startDate, extraFees, s.value)))
  {
    var schedule := CalculateAmortizationSchedule(totalAmount, annualRate, periodMonths, startDate, pmt, round);
    if schedule.Err? {
      return Err(schedule.error);
    }
    r := Ok(LoanPlan(assetId, totalAmount, annualRate, periodMonths, startDate, extraFees, schedule.value));
  }

  // ---------------------------------------------------------------------
  // Properties of the schedule
  // ---------------------------------------------------------------------

  lemma {:induction false} RowsAreNumbered(principal: real, rate: real, payment: real, n: int, start: Date,
                                          round: (real, nat) -> real, m: nat)
    requires ValidDate(start) && (m >= 1 ==> DateAfter(start, m).year <= 9999)
    ensures forall j :: 0 <= j < m ==>
              Rows(principal, rate, payment, n, start, round, m)[j] == ItemOf(j + 1, n, rate, payment, principal, start, round)
  {
    if m > 0 {
      YearsNondecreasing(start, m - 1, m);
      RowsAreNumbered(principal, rate, payment, n, start, round, m - 1);
    }
  }

  /** A schedule has exactly one row per month, numbered from 1, each row
      being that month's period. */
  lemma ScheduleShape(principal: real, annualRate: real, periodMonths: int, startDate: string,
                      pmt: (real, int, real) -> real, round: (real, nat) -> real)
    requires Schedule(principal, annualRate, periodMonths, startDate, pmt, round).Ok?
    ensures var s := Schedule(principal, annualRate, periodMonths, startDate, pmt, round).value;
      var rate := MonthlyRate(annualRate);
      var payment := LevelPayment(principal, rate, periodMonths, pmt);
      && |s| == (if periodMonths < 0 then 0 else periodMonths)
      && (forall j :: 0 <= j < |s| ==> s[j].paymentNumber == j + 1)
      && (forall j :: 0 <= j < |s| ==>
            var p := PeriodOf(j + 1, periodMonths, rate, payment, principal);
            s[j].paymentAmount == round(p.payment, 2) && s[j].principalPaid == round(p.principalPaid, 2)
            && s[j].interestPaid == round(p.interest, 2) && s[j].remainingBalance == round(p.balance, 2))
  {
    if periodMonths >= 1 {
      var rate := MonthlyRate(annualRate);
      RowsAreNumbered(principal, rate, LevelPayment(principal, rate, periodMonths, pmt), periodMonths,
                      ParseDate(startDate).value, round, periodMonths);
    }
  }

  /** Row j (from 0) is dated j + 1 calendar months after the start, and the
      date reads back with "%Y-%m-%d" for a four-digit start year. */
  lemma ScheduleDates(principal: real, annualRate: real, periodMonths: int, startDate: string,
                      pmt: (real, int, real) -> real, round: (real, nat) -> real, j: nat)
    requires Schedule(principal, annualRate, periodMonths, startDate, pmt, round).Ok?
    requires j < periodMonths && ParseDate(startDate).value.year >= 1000
    ensures var s := Schedule(principal, annualRate, periodMonths, startDate, pmt, round).value;
      var start := ParseDate(startDate).value;
      && ParseDate(s[j].date) == Some(DateAfter(start, j + 1))
      && MonthIndex(DateAfter(start, j + 1)) == MonthIndex(start) + j + 1
  {
    var start := ParseDate(startDate).value;
    var rate := MonthlyRate(annualRate);
    var payment := LevelPayment(principal, rate, periodMonths, pmt);
    assert Schedule(principal, annualRate, periodMonths, startDate, pmt, round)
        == Ok(Rows(principal, rate, payment, periodMonths, start, round, periodMonths));
    RowDate(principal, rate, payment, periodMonths, start, round, j);
    DateAfterShape(start, j + 1);
  }

  /** Row j of the first n rows carries the date j + 1 months after the
      start, written so that it reads back. */
  lemma RowDate(principal: real, rate: real, payment: real, n: int, start: Date,
                round: (real, nat) -> real, j: nat)
    requires ValidDate(start) && start.year >= 1000 && j < n && DateAfter(start, n).year <= 9999
    ensures ParseDate(Rows(principal, rate, payment, n, start, round, n)[j].date) == Some(DateAfter(start, j + 1))
  {
    YearsNondecreasing(start, j + 1, n);
    DateAfterShape(start, j + 1);
    YearsNondecreasing(start, 0, j + 1);
    RowsAreNumbered(principal, rate, payment, n, start, round, n);
    DateRoundTrip(DateAfter(start, j + 1));
  }

  /** A positive rate, a month count or a valid start date each matter:
      the schedule fails exactly on a zero divisor, an unreadable date, or
      a last payment past the year 9999. */
  lemma ScheduleErrors(principal: real, annualRate: real, periodMonths: int, startDate: string,
                       pmt: (real, int, real) -> real, round: (real, nat) -> real)
    ensures var s := Schedule(principal, annualRate, periodMonths, startDate, pmt, round);
      && (s == Err(DivisionByZero) <==> MonthlyRate(annualRate) <= 0.0 && periodMonths == 0)
      && (s == Err(BadStartDate) <==>
            !(MonthlyRate(annualRate) <= 0.0 && periodMonths == 0) && ParseDate(startDate).None?)
      && (s == Err(DateOutOfRange) <==>
            !(MonthlyRate(annualRate) <= 0.0 && periodMonths == 0) && ParseDate(startDate).Some?
            && periodMonths >= 1 && DateAfter(ParseDate(startDate).value, periodMonths).year > 9999)
  {
  }

  /** The last period repays the whole remaining balance with its interest
      and leaves nothing owed; no period ever leaves a negative balance. */
  lemma LastPeriodClosesLoan(n: nat, rate: real, payment: real, principal: real)
    requires n >= 1
    ensures var last := PeriodOf(n, n, rate, payment, principal);
      var before := BalanceAfter(n - 1, n, rate, payment, principal);
      && last.principalPaid == before
      && last.payment == before + before * rate
      && last.balance == 0.0
      && BalanceAfter(n, n, rate, payment, principal) == 0.0
  {
  }

  lemma BalanceNeverNegative(k: nat, n: int, rate: real, payment: real, principal: real)
    requires k >= 1
    ensures BalanceAfter(k, n, rate, payment, principal) >= 0.0
  {
  }

  /** The principal repaid over periods 1..k. */
  function PrincipalRepaid(k: nat, n: int, rate: real, payment: real, principal: real): real
  {
    if k == 0 then 0.0 else PrincipalRepaid(k - 1, n, rate, payment, principal) + PeriodOf(k, n, rate, payment, principal).principalPaid
  }

  /** No period before the last overpays, so the clamp never fires. */
  predicate NeverOverpays(n: nat, rate: real, payment: real, principal: real)
  {
    forall k :: 1 <= k < n ==>
      BalanceAfter(k - 1, n, rate, payment, principal) - PeriodOf(k, n, rate, payment, principal).principalPaid >= 0.0
  }

  lemma {:induction false} RepaidSoFar(k: nat, n: nat, rate: real, payment: real, principal: real)
    requires k < n && NeverOverpays(n, rate, payment, principal)
    ensures PrincipalRepaid(k, n, rate, payment, principal) == principal - BalanceAfter(k, n, rate, payment, principal)
  {
    if k > 0 {
      RepaidSoFar(k - 1, n, rate, payment, principal);
    }
  }

  /** Unless an early period overpays and the balance is clamped, the rows
      repay exactly the principal in total. */
  lemma ScheduleRepaysPrincipal(n: nat, rate: real, payment: real, principal: real)
    requires n >= 1 && NeverOverpays(n, rate, payment, principal)
    ensures PrincipalRepaid(n, n, rate, payment, principal) == principal
  {
    RepaidSoFar(n - 1, n, rate, payment, principal);
  }
}
