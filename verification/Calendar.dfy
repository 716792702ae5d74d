/** Civil dates and the recurrence arithmetic of planned payments
    (backend/internal/domain/planned_payment.go). A date is the UTC-midnight
    day the source keeps in a time.Time. */
module Calendar {

  datatype Date = Date(year: int, month: int, day: int)

  /** The wire value of a plan's regularity; any other text advances like
      Monthly, the default branch of the source's switch. */
  datatype Regularity = Daily | Weekly | Monthly | Yearly | OtherRegularity(text: string)

  const JANUARY := 1
  const DECEMBER := 12
  const DAYS_PER_WEEK := 7

  predicate IsLeap(year: int) {
    year % 4 == 0 && (year % 100 != 0 || year % 400 == 0)
  }

  predicate IsMonth(month: int) {
    JANUARY <= month <= DECEMBER
  }

  function DaysInYear(year: int): int {
    if IsLeap(year) then 366 else 365
  }

  /** The civil calendar's month table. */
  function DaysInMonth(year: int, month: int): (n: int)
    requires IsMonth(month)
    ensures 28 <= n <= 31
  {
    if month == 2 then (if IsLeap(year) then 29 else 28)
    else if month == 4 || month == 6 || month == 9 || month == 11 then 30
    else 31
  }

  predicate IsDate(d: Date) {
    IsMonth(d.month) && 1 <= d.day <= DaysInMonth(d.year, d.month)
  }

  function Min(a: int, b: int): int {
    if a <= b then a else b
  }

  // --- Dates on one integer line ----------------------------------------------------

  function DaysBeforeYear(year: int): int {
    var p := year - 1;
    365 * p + p / 4 - p / 100 + p / 400
  }

  function DaysBeforeMonth(year: int, month: int): int
    requires IsMonth(month)
    decreases month
  {
    if month == JANUARY then 0
    else DaysBeforeMonth(year, month - 1) + DaysInMonth(year, month - 1)
  }

  function DayNumber(d: Date): int
    requires IsMonth(d.month)
  {
    DaysBeforeYear(d.year) + DaysBeforeMonth(d.year, d.month) + d.day
  }

  lemma QuotientIs(n: int, k: int, q: int, r: int)
    requires k > 0 && 0 <= r < k
    requires n == q * k + r
    ensures n / k == q
  {
    var d := n / k - q;
    assert d * k == r - n % k by {
      assert n == (n / k) * k + n % k;
      assert (n / k) * k == (d + q) * k == d * k + q * k;
    }
    assert d >= 1 ==> d * k >= k;
    assert d <= -1 ==> d * k <= -k;
  }

  lemma FloorStep(p: int, k: int)
    requires k > 0
    ensures (p + 1) / k == p / k + (if (p + 1) % k == 0 then 1 else 0)
  {
    var q, r := (p + 1) / k, (p + 1) % k;
    assert p + 1 == q * k + r;
    if r == 0 {
      QuotientIs(p, k, q - 1, k - 1);
    } else {
      QuotientIs(p, k, q, r - 1);
    }
  }

  /** The day line's years have the civil lengths. */
  lemma YearLength(year: int)
    ensures DaysBeforeYear(year + 1) - DaysBeforeYear(year) == DaysInYear(year)
  {
    FloorStep(year - 1, 4);
    FloorStep(year - 1, 100);
    FloorStep(year - 1, 400);
  }

  lemma MonthsFillYear(year: int)
    ensures DaysBeforeMonth(year, 12) + 31 == DaysInYear(year)
  {
    hide IsLeap;
    assert DaysBeforeMonth(year, 3) == 31 + DaysInMonth(year, 2);
    assert DaysBeforeMonth(year, 6) == DaysBeforeMonth(year, 3) + 92;
    assert DaysBeforeMonth(year, 9) == DaysBeforeMonth(year, 6) + 92;
    assert DaysBeforeMonth(year, 12) == DaysBeforeMonth(year, 9) + 91;
  }

  // --- Months ---------------------------------------------------------------------------

  /** Position of a date's month on the month line. */
  function MonthIndex(d: Date): int {
    12 * d.year + d.month - 1
  }

  function FirstOfMonth(d: Date): (r: Date)
    requires IsMonth(d.month)
    ensures IsDate(r)
  {
    d.(day := 1)
  }

  function FirstOfNextMonth(d: Date): (r: Date)
    requires IsMonth(d.month)
    ensures IsDate(r) && r.day == 1 && MonthIndex(r) == MonthIndex(d) + 1
  {
    if d.month == DECEMBER then Date(d.year + 1, JANUARY, 1) else Date(d.year, d.month + 1, 1)
  }

  /** Consecutive months abut on the day line. */
  lemma MonthsAbut(d: Date)
    requires IsMonth(d.month)
    ensures DayNumber(FirstOfNextMonth(d)) == DayNumber(FirstOfMonth(d)) + DaysInMonth(d.year, d.month)
  {
    hide IsLeap;
    hide DaysBeforeYear;
    if d.month == DECEMBER {
      YearLength(d.year);
      MonthsFillYear(d.year);
    }
  }

  lemma {:induction false} LaterMonthStartsLater(a: Date, b: Date)
    requires IsMonth(a.month) && IsMonth(b.month) && MonthIndex(a) <= MonthIndex(b)
    ensures DayNumber(FirstOfMonth(b)) >= DayNumber(FirstOfMonth(a)) + 28 * (MonthIndex(b) - MonthIndex(a))
    decreases MonthIndex(b) - MonthIndex(a)
  {
    hide DayNumber;
    hide IsLeap;
    if MonthIndex(a) < MonthIndex(b) {
      MonthsAbut(a);
      var next := FirstOfNextMonth(a);
      assert FirstOfMonth(next) == next;
      LaterMonthStartsLater(next, b);
    } else {
      assert FirstOfMonth(a) == FirstOfMonth(b);
    }
  }

  lemma DayNumberInMonth(d: Date)
    requires IsMonth(d.month)
    ensures DayNumber(d) == DayNumber(FirstOfMonth(d)) + d.day - 1
  {
    hide IsLeap;
    hide DaysBeforeYear;
  }

  predicate Before(a: Date, b: Date) {
    MonthIndex(a) < MonthIndex(b) || (MonthIndex(a) == MonthIndex(b) && a.day < b.day)
  }

  lemma BeforeIsEarlier(a: Date, b: Date)
    requires IsDate(a) && IsDate(b) && Before(a, b)
    ensures DayNumber(a) < DayNumber(b)
  {
    hide DayNumber;
    hide IsLeap;
    DayNumberInMonth(a);
    DayNumberInMonth(b);
    if MonthIndex(a) < MonthIndex(b) {
      MonthsAbut(a);
      var next := FirstOfNextMonth(a);
      assert FirstOfMonth(next) == next;
      LaterMonthStartsLater(next, b);
    } else {
      assert FirstOfMonth(a) == FirstOfMonth(b);
    }
  }

  /** The day line orders dates exactly as the calendar does. */
  lemma DayNumberOrders(a: Date, b: Date)
    requires IsDate(a) && IsDate(b)
    ensures Before(a, b) <==> DayNumber(a) < DayNumber(b)
    ensures a == b <==> DayNumber(a) == DayNumber(b)
  {
    hide DayNumber;
    hide IsLeap;
    if Before(a, b) {
      BeforeIsEarlier(a, b);
    } else if Before(b, a) {
      BeforeIsEarlier(b, a);
    } else {
      assert a == b;
    }
  }

  // --- Day steps ------------------------------------------------------------------------

  function NextDay(d: Date): Date
    requires IsDate(d)
  {
    if d.day < DaysInMonth(d.year, d.month) then d.(day := d.day + 1) else FirstOfNextMonth(d)
  }

  lemma NextDayIsNext(d: Date)
    requires IsDate(d)
    ensures IsDate(NextDay(d))
    ensures DayNumber(NextDay(d)) == DayNumber(d) + 1
  {
    hide DayNumber;
    hide IsLeap;
    DayNumberInMonth(d);
    DayNumberInMonth(NextDay(d));
    MonthsAbut(d);
    assert FirstOfMonth(FirstOfNextMonth(d)) == FirstOfNextMonth(d);
  }

  function AddDays(d: Date, n: nat): (r: Date)
    requires IsDate(d)
    ensures IsDate(r)
    decreases n
  {
    if n == 0 then d
    else
      var e := AddDays(d, n - 1);
      NextDayIsNext(e);
      NextDay(e)
  }

  lemma {:induction false} AddDaysShifts(d: Date, n: nat)
    requires IsDate(d)
    ensures DayNumber(AddDays(d, n)) == DayNumber(d) + n
    decreases n
  {
    hide DayNumber;
    hide NextDay;
    if n > 0 {
      AddDaysShifts(d, n - 1);
      NextDayIsNext(AddDays(d, n - 1));
    }
  }

  // --- AdvanceNextDue -------------------------------------------------------------------

  /** The day before the first of the following month, which is how the source
      asks for a month's last day. */
  function LastDay(year: int, month: int): int
    requires IsMonth(month)
  {
    var first := Date(year, month, 1);
    DayNumber(FirstOfNextMonth(first)) - DayNumber(first)
  }

  function ClampDay(day: int, year: int, month: int): int
    requires IsMonth(month)
  {
    var last := LastDay(year, month);
    if day > last then last else day
  }

  lemma ClampDayIsMin(day: int, year: int, month: int)
    requires IsMonth(month)
    ensures ClampDay(day, year, month) == Min(day, DaysInMonth(year, month))
  {
    hide DayNumber;
    hide IsLeap;
    MonthsAbut(Date(year, month, 1));
  }

  function OnAnchorDay(year: int, month: int, anchor: Date): (r: Date)
    requires IsMonth(month) && IsDate(anchor)
    ensures IsDate(r)
  {
    ClampDayIsMin(anchor.day, year, month);
    Date(year, month, ClampDay(anchor.day, year, month))
  }

  function AdvanceNextDue(nextDue: Date, anchor: Date, regularity: Regularity): (r: Date)
    requires IsDate(nextDue) && IsDate(anchor)
    ensures IsDate(r)
  {
    match regularity
    case Daily => AddDays(nextDue, 1)
    case Weekly => AddDays(nextDue, DAYS_PER_WEEK)
    case Yearly => OnAnchorDay(nextDue.year + 1, anchor.month, anchor)
    case _ =>
      if nextDue.month + 1 > DECEMBER
      then OnAnchorDay(nextDue.year + 1, JANUARY, anchor)
      else OnAnchorDay(nextDue.year, nextDue.month + 1, anchor)
  }

  predicate StepsMonthly(regularity: Regularity) {
    regularity.Monthly? || regularity.OtherRegularity?
  }

  /** The occurrence n advances after nextDue. */
  function Occurrence(n: nat, nextDue: Date, anchor: Date, regularity: Regularity): (r: Date)
    requires IsDate(nextDue) && IsDate(anchor)
    ensures IsDate(r)
    decreases n
  {
    if n == 0 then nextDue
    else AdvanceNextDue(Occurrence(n - 1, nextDue, anchor, regularity), anchor, regularity)
  }

  /** On the anchor's own day, clamped to the month. */
  predicate OnSeries(d: Date, anchor: Date) {
    IsDate(d) && d.day == Min(anchor.day, DaysInMonth(d.year, d.month))
  }

  lemma MonthlyStep(d: Date, anchor: Date, regularity: Regularity)
    requires IsDate(d) && IsDate(anchor) && StepsMonthly(regularity)
    ensures var r := AdvanceNextDue(d, anchor, regularity);
            OnSeries(r, anchor) && MonthIndex(r) == MonthIndex(d) + 1
  {
    hide ClampDay;
    hide IsLeap;
    var r := AdvanceNextDue(d, anchor, regularity);
    ClampDayIsMin(anchor.day, r.year, r.month);
  }

  /** n monthly advances land in the n-th month after nextDue's, whatever the
      starting day, on the anchor day clamped to that month alone. */
  lemma {:induction false} MonthlyClosedForm(n: nat, nextDue: Date, anchor: Date, regularity: Regularity)
    requires IsDate(nextDue) && IsDate(anchor) && StepsMonthly(regularity)
    ensures var r := Occurrence(n, nextDue, anchor, regularity);
            MonthIndex(r) == MonthIndex(nextDue) + n && (n >= 1 ==> OnSeries(r, anchor))
    decreases n
  {
    hide AdvanceNextDue;
    hide OnSeries;
    hide IsLeap;
    if n > 0 {
      MonthlyClosedForm(n - 1, nextDue, anchor, regularity);
      MonthlyStep(Occurrence(n - 1, nextDue, anchor, regularity), anchor, regularity);
    }
  }

  lemma YearlyStep(d: Date, anchor: Date)
    requires IsDate(d) && IsDate(anchor)
    ensures var r := AdvanceNextDue(d, anchor, Yearly);
            OnSeries(r, anchor) && r.year == d.year + 1 && r.month == anchor.month
  {
    hide ClampDay;
    hide IsLeap;
    ClampDayIsMin(anchor.day, d.year + 1, anchor.month);
  }

  /** n yearly advances land n years later in the anchor's month, 29 February
      clamping in that year alone. */
  lemma {:induction false} YearlyClosedForm(n: nat, nextDue: Date, anchor: Date)
    requires IsDate(nextDue) && IsDate(anchor)
    ensures var r := Occurrence(n, nextDue, anchor, Yearly);
            r.year == nextDue.year + n
            && (n >= 1 ==> r.month == anchor.month && OnSeries(r, anchor))
    decreases n
  {
    hide AdvanceNextDue;
    hide OnSeries;
    hide IsLeap;
    if n > 0 {
      YearlyClosedForm(n - 1, nextDue, anchor);
      YearlyStep(Occurrence(n - 1, nextDue, anchor, Yearly), anchor);
    }
  }

  lemma DayStep(d: Date, anchor: Date)
    requires IsDate(d) && IsDate(anchor)
    ensures DayNumber(AdvanceNextDue(d, anchor, Daily)) == DayNumber(d) + 1
    ensures DayNumber(AdvanceNextDue(d, anchor, Weekly)) == DayNumber(d) + 7
  {
    hide DayNumber;
    hide AddDays;
    AddDaysShifts(d, 1);
    AddDaysShifts(d, 7);
  }

  /** Daily and weekly series ignore the anchor: they are arithmetic
      progressions on the day line. */
  lemma {:induction false} DaySeriesClosedForm(n: nat, nextDue: Date, anchor: Date)
    requires IsDate(nextDue) && IsDate(anchor)
    ensures DayNumber(Occurrence(n, nextDue, anchor, Daily)) == DayNumber(nextDue) + n
    ensures DayNumber(Occurrence(n, nextDue, anchor, Weekly)) == DayNumber(nextDue) + 7 * n
    decreases n
  {
    hide DayNumber;
    hide AdvanceNextDue;
    if n > 0 {
      DaySeriesClosedForm(n - 1, nextDue, anchor);
      DayStep(Occurrence(n - 1, nextDue, anchor, Daily), anchor);
      DayStep(Occurrence(n - 1, nextDue, anchor, Weekly), anchor);
    }
  }

  /** A clamped month never poisons the series: exactly the later months long
      enough for the anchor day get the anchor day back. */
  lemma AnchorDayReturns(n: nat, nextDue: Date, anchor: Date, regularity: Regularity)
    requires IsDate(nextDue) && IsDate(anchor) && StepsMonthly(regularity)
    requires n >= 1
    ensures var r := Occurrence(n, nextDue, anchor, regularity);
            r.day == anchor.day <==> anchor.day <= DaysInMonth(r.year, r.month)
  {
    hide Occurrence;
    hide IsLeap;
    MonthlyClosedForm(n, nextDue, anchor, regularity);
  }

  lemma AdvanceIsLater(nextDue: Date, anchor: Date, regularity: Regularity)
    requires IsDate(nextDue) && IsDate(anchor)
    ensures DayNumber(AdvanceNextDue(nextDue, anchor, regularity)) > DayNumber(nextDue)
  {
    hide DayNumber;
    hide AdvanceNextDue;
    hide IsLeap;
    DayStep(nextDue, anchor);
    YearlyStep(nextDue, anchor);
    if StepsMonthly(regularity) {
      MonthlyStep(nextDue, anchor, regularity);
    }
    if StepsMonthly(regularity) || regularity == Yearly {
      BeforeIsEarlier(nextDue, AdvanceNextDue(nextDue, anchor, regularity));
    }
  }

  lemma ClampedGap(anchorDay: int, length: int, nextLength: int)
    requires 1 <= anchorDay <= 31 && 28 <= length <= 31 && 28 <= nextLength <= 31
    ensures 28 <= length - Min(anchorDay, length) + Min(anchorDay, nextLength) <= 31
  {
  }

  lemma MonthlyGap(nextDue: Date, anchor: Date, regularity: Regularity)
    requires OnSeries(nextDue, anchor) && IsDate(anchor) && StepsMonthly(regularity)
    ensures 28 <= DayNumber(AdvanceNextDue(nextDue, anchor, regularity)) - DayNumber(nextDue) <= 31
  {
    hide DayNumber;
    hide AdvanceNextDue;
    hide IsLeap;
    var r := AdvanceNextDue(nextDue, anchor, regularity);
    MonthlyStep(nextDue, anchor, regularity);
    DayNumberInMonth(nextDue);
    DayNumberInMonth(r);
    MonthsAbut(nextDue);
    assert FirstOfMonth(r) == FirstOfNextMonth(nextDue);
    ClampedGap(anchor.day, DaysInMonth(nextDue.year, nextDue.month), DaysInMonth(r.year, r.month));
  }

  lemma {:induction false} DaysBeforeMonthLeap(year: int, month: int)
    requires IsMonth(month)
    ensures DaysBeforeMonth(year, month) == DaysBeforeMonth(1, month)
            + (if month > 2 && IsLeap(year) then 1 else 0) - (if month > 2 && IsLeap(1) then 1 else 0)
    decreases month
  {
    hide IsLeap;
    if month > 1 {
      DaysBeforeMonthLeap(year, month - 1);
    }
  }

  lemma YearlyGap(nextDue: Date, anchor: Date)
    requires OnSeries(nextDue, anchor) && IsDate(anchor) && nextDue.month == anchor.month
    ensures 365 <= DayNumber(AdvanceNextDue(nextDue, anchor, Yearly)) - DayNumber(nextDue) <= 366
  {
    hide IsLeap;
    hide DaysBeforeYear;
    hide DaysBeforeMonth;
    hide AdvanceNextDue;
    YearlyStep(nextDue, anchor);
    YearLength(nextDue.year);
    DaysBeforeMonthLeap(nextDue.year, nextDue.month);
    DaysBeforeMonthLeap(nextDue.year + 1, nextDue.month);
    ConsecutiveYearsNotBothLeap(nextDue.year);
  }

  lemma ConsecutiveYearsNotBothLeap(year: int)
    ensures !(IsLeap(year) && IsLeap(year + 1))
  {
    assert year % 4 == 0 ==> (year + 1) % 4 == 1;
  }

  /** A weekly series keeps the anchor's weekday exactly when nextDue already
      had it: advancing never moves it back there. */
  lemma WeekdayKept(n: nat, nextDue: Date, anchor: Date)
    requires IsDate(nextDue) && IsDate(anchor)
    ensures (DayNumber(Occurrence(n, nextDue, anchor, Weekly)) - DayNumber(anchor)) % 7 == 0
            <==> (DayNumber(nextDue) - DayNumber(anchor)) % 7 == 0
  {
    hide DayNumber;
    hide Occurrence;
    DaySeriesClosedForm(n, nextDue, anchor);
  }

  // --- The auto-confirm catch-up loop ---------------------------------------------------

  /** The occurrences the job executes for one due plan: one per missed date,
      none skipped and none merged, leaving the plan due strictly after today. */
  method CatchUp(nextDue: Date, anchor: Date, regularity: Regularity, today: Date)
    returns (executed: seq<Date>, next: Date)
    requires IsDate(nextDue) && IsDate(anchor) && IsDate(today)
    ensures forall i :: 0 <= i < |executed| ==> executed[i] == Occurrence(i, nextDue, anchor, regularity)
    ensures forall i :: 0 <= i < |executed| ==>
              IsDate(executed[i]) && DayNumber(executed[i]) <= DayNumber(today)
    ensures next == Occurrence(|executed|, nextDue, anchor, regularity)
    ensures DayNumber(next) > DayNumber(today)
    ensures DayNumber(nextDue) <= DayNumber(today) ==>
              1 <= |executed| <= DayNumber(today) - DayNumber(nextDue) + 1
  {
    hide DayNumber;
    hide AdvanceNextDue;
    hide IsLeap;
    executed, next := [], nextDue;
    while DayNumber(next) <= DayNumber(today)
      invariant next == Occurrence(|executed|, nextDue, anchor, regularity)
      invariant forall i :: 0 <= i < |executed| ==> executed[i] == Occurrence(i, nextDue, anchor, regularity)
      invariant forall i :: 0 <= i < |executed| ==> DayNumber(executed[i]) <= DayNumber(today)
      invariant DayNumber(next) >= DayNumber(nextDue) + |executed|
      invariant executed == [] || |executed| <= DayNumber(today) - DayNumber(nextDue) + 1
      decreases DayNumber(today) - DayNumber(next) + 1
    {
      AdvanceIsLater(next, anchor, regularity);
      executed := executed + [next];
      next := AdvanceNextDue(next, anchor, regularity);
    }
  }
}
