/** Dates as sortable integers, and the month arithmetic of the snapshot and ledger code. */
module Calendar {

  datatype Date = Date(year: int, month: int, day: int)

  predicate Leap(year: int) {
    year % 4 == 0 && (year % 100 != 0 || year % 400 == 0)
  }

  /** monthrange(year, month)[1] of the month with this index. */
  function DaysIn(month: int): (n: int)
    ensures 28 <= n <= 31
  {
    var m := month % 12;
    if m == 1 then (if Leap(month / 12) then 29 else 28)
    else if m == 3 || m == 5 || m == 8 || m == 10 then 30
    else 31
  }

  function Index(d: Date): int {
    d.year * 12 + (d.month - 1)
  }

  predicate Real(d: Date) {
    1 <= d.month <= 12 && 1 <= d.day <= DaysIn(Index(d))
  }

  /** A day is its month's index times 31 plus the day of the month, counted from 0. */
  function Day(d: Date): int {
    Index(d) * 31 + (d.day - 1)
  }

  function MonthOf(day: int): int {
    day / 31
  }

  ghost predicate RealDay(day: int) {
    day % 31 < DaysIn(MonthOf(day))
  }

  function FirstDay(month: int): int {
    month * 31
  }

  function MonthEnd(month: int): int {
    month * 31 + (DaysIn(month) - 1)
  }

  /** The encoding sorts as dates do, and loses nothing. */
  lemma DaysSortAsDates(a: Date, b: Date)
    requires Real(a) && Real(b)
    ensures Day(a) < Day(b) <==>
            a.year < b.year || (a.year == b.year && (a.month < b.month || (a.month == b.month && a.day < b.day)))
    ensures Day(a) == Day(b) <==> a == b
    ensures RealDay(Day(a)) && MonthOf(Day(a)) == Index(a)
  {
  }

  /** A real day is in a month exactly when it lies between the month's first and last day. */
  lemma MonthIsRange(day: int, month: int)
    requires RealDay(day)
    ensures MonthOf(day) == month <==> FirstDay(month) <= day <= MonthEnd(month)
  {
  }

  /** The last day of a month and the first of the next enclose no real day. */
  lemma MonthsAreAdjacent(day: int, month: int)
    requires RealDay(day)
    ensures day <= MonthEnd(month) <==> day < FirstDay(month + 1)
  {
  }

  /** _shift_months: the first day of the month that lies delta months away. */
  function ShiftMonths(d: Date, delta: int): Date {
    var total := d.year * 12 + (d.month - 1) + delta;
    Date(total / 12, total % 12 + 1, 1)
  }

  /** _month_end */
  function MonthEndDate(d: Date): Date {
    Date(d.year, d.month, DaysIn(Index(d)))
  }

  lemma MonthArithmetic(d: Date, delta: int)
    requires Real(d)
    ensures Real(ShiftMonths(d, delta)) && Day(ShiftMonths(d, delta)) == FirstDay(MonthOf(Day(d)) + delta)
    ensures Real(MonthEndDate(d)) && Day(MonthEndDate(d)) == MonthEnd(MonthOf(Day(d)))
  {
    DaysSortAsDates(d, d);
  }

  // ---- the months have their lengths ----

  /** The days of the first n months from the start of year 0. */
  function DaysBefore(n: nat): int {
    if n == 0 then 0 else DaysBefore(n - 1) + DaysIn(n - 1)
  }

  /** Years before this one that have a leap day: every fourth, not every hundredth, but every four hundredth. */
  function LeapYearsBefore(year: nat): int {
    (year + 3) / 4 - (year + 99) / 100 + (year + 399) / 400
  }

  lemma MonthInYear(year: nat, k: nat)
    requires k < 12
    ensures (12 * year + k) / 12 == year && (12 * year + k) % 12 == k
  {
  }

  lemma {:induction false} OneMonthMore(year: nat, k: nat)
    requires k < 12
    ensures DaysBefore(12 * year + k + 1) == DaysBefore(12 * year + k) + LengthInYear(year, k)
  {
    MonthInYear(year, k);
  }

  /** Thirty days hath September, April, June and November. */
  function LengthInYear(year: nat, k: nat): int {
    if k == 3 || k == 5 || k == 8 || k == 10 then 30
    else if k != 1 then 31
    else if Leap(year) then 29 else 28
  }

  /** The days of a year before its k-th month. */
  function DaysInto(year: nat, k: nat): int {
    if k == 0 then 0 else DaysInto(year, k - 1) + LengthInYear(year, k - 1)
  }

  lemma {:induction false} DaysWithin(year: nat, k: nat)
    requires k <= 12
    ensures DaysBefore(12 * year + k) == DaysBefore(12 * year) + DaysInto(year, k)
  {
    if k > 0 {
      DaysWithin(year, k - 1);
      OneMonthMore(year, k - 1);
    }
  }

  lemma {:induction false} LengthOfYear(year: nat)
    ensures DaysInto(year, 12) == if Leap(year) then 366 else 365
  {
    TwoMonths(year, 0);
    TwoMonths(year, 2);
    TwoMonths(year, 4);
    TwoMonths(year, 6);
    TwoMonths(year, 8);
    TwoMonths(year, 10);
  }

  lemma TwoMonths(year: nat, k: nat)
    ensures DaysInto(year, k + 2) == DaysInto(year, k) + LengthInYear(year, k) + LengthInYear(year, k + 1)
  {
  }

  lemma {:induction false} DaysOfAYear(year: nat)
    ensures DaysBefore(12 * (year + 1)) == DaysBefore(12 * year) + if Leap(year) then 366 else 365
  {
    DaysWithin(year, 12);
    LengthOfYear(year);
  }

  lemma EveryFourth(y: nat)
    ensures (y + 4) / 4 - (y + 3) / 4 == if y % 4 == 0 then 1 else 0
  {
  }

  lemma EveryHundredth(y: nat)
    ensures (y + 100) / 100 - (y + 99) / 100 == if y % 100 == 0 then 1 else 0
  {
  }

  lemma EveryFourHundredth(y: nat)
    ensures (y + 400) / 400 - (y + 399) / 400 == if y % 400 == 0 then 1 else 0
  {
  }

  lemma LeapYearIsCounted(year: nat)
    ensures LeapYearsBefore(year + 1) - LeapYearsBefore(year) == if Leap(year) then 1 else 0
  {
    EveryFourth(year);
    EveryHundredth(year);
    EveryFourHundredth(year);
    MultiplesNest(year);
  }

  lemma MultiplesNest(y: nat)
    ensures y % 100 == 0 ==> y % 4 == 0
    ensures y % 400 == 0 ==> y % 100 == 0
  {
    assert y % 100 == 0 ==> y == 4 * (25 * (y / 100));
    assert y % 400 == 0 ==> y == 100 * (4 * (y / 400));
  }

  /** The calendar counts its days as it should: 365 a year, and one more for each leap year. */
  lemma {:induction false} YearsAreCounted(year: nat)
    ensures DaysBefore(12 * year) == 365 * year + LeapYearsBefore(year)
  {
    if year > 0 {
      YearsAreCounted(year - 1);
      DaysOfAYear(year - 1);
      LeapYearIsCounted(year - 1);
    }
  }

  /** So four hundred years have 146097 days. */
  lemma {:induction false} FourHundredYears(year: nat)
    ensures DaysBefore(12 * (year + 400)) == DaysBefore(12 * year) + 146097
  {
    YearsAreCounted(year);
    YearsAreCounted(year + 400);
    LeapYearsRepeat(year);
  }

  lemma RepeatsAfter400(y: nat)
    ensures (y + 400) / 4 == y / 4 + 100
    ensures (y + 400) / 100 == y / 100 + 4
    ensures (y + 400) / 400 == y / 400 + 1
  {
  }

  lemma LeapYearsRepeat(year: nat)
    ensures LeapYearsBefore(year + 400) == LeapYearsBefore(year) + 97
  {
    RepeatsAfter400(year + 3);
    RepeatsAfter400(year + 99);
    RepeatsAfter400(year + 399);
  }

  /** Counted from March, the first k months have (153 k + 2) / 5 days: 31, 30, 31, 30, 31, and again. */
  lemma {:induction false} MonthsAreCounted(year: nat, k: nat)
    requires k <= 11
    ensures DaysBefore(12 * year + 2 + k) == DaysBefore(12 * year + 2) + (153 * k + 2) / 5
  {
    if 0 < k < 11 {
      MonthsAreCounted(year, k - 1);
      OneMonthMore(year, k + 1);
      MarchStep(year, k);
    } else if k == 11 {
      MonthsAreCounted(year, 10);
      OneMonthMore(year + 1, 0);
      assert 12 * (year + 1) == 12 * year + 12;
    }
  }

  lemma MarchStep(year: nat, k: nat)
    requires 0 < k < 11
    ensures (153 * k + 2) / 5 == (153 * (k - 1) + 2) / 5 + LengthInYear(year, k + 1)
  {
    assert k == 1 || k == 2 || k == 3 || k == 4 || k == 5 || k == 6 || k == 7 || k == 8 || k == 9 || k == 10;
  }

  /** The last day of each month of the year, by its name. */
  lemma MonthsEndOnTheirDay(d: Date)
    requires 1 <= d.month <= 12
    ensures var end := MonthEndDate(d);
            && end.year == d.year && end.month == d.month
            && (d.month in {4, 6, 9, 11} ==> end.day == 30)
            && (d.month in {1, 3, 5, 7, 8, 10, 12} ==> end.day == 31)
            && (d.month == 2 ==> end.day == if Leap(d.year) then 29 else 28)
  {
    assert Index(d) / 12 == d.year && Index(d) % 12 == d.month - 1;
  }

  // ---- sorting months ----

  ghost predicate Ascending(s: seq<int>) {
    forall i, j :: 0 <= i < j < |s| ==> s[i] < s[j]
  }

  function InsertMonth(m: int, s: seq<int>): seq<int> {
    if s == [] || s[|s| - 1] < m then s + [m] else InsertMonth(m, s[..|s| - 1]) + [s[|s| - 1]]
  }

  lemma {:induction false} InsertHasMonth(m: int, s: seq<int>)
    ensures forall x :: x in InsertMonth(m, s) <==> x == m || x in s
  {
    if s != [] {
      InsertHasMonth(m, s[..|s| - 1]);
      assert s == s[..|s| - 1] + [s[|s| - 1]];
    }
  }

  lemma {:induction false} InsertAscends(m: int, s: seq<int>)
    requires Ascending(s) && m !in s
    ensures Ascending(InsertMonth(m, s))
  {
    if s != [] && s[|s| - 1] >= m {
      var n := |s| - 1;
      InsertAscends(m, s[..n]);
      InsertHasMonth(m, s[..n]);
      var u := InsertMonth(m, s[..n]);
      forall i | 0 <= i < |u| ensures u[i] < s[n] {
        assert u[i] in u;
      }
    }
  }

  lemma Inhabited(s: set<int>)
    ensures s == {} || exists x :: x in s
  {
    if forall x :: x !in s {
      assert s == {};
    }
  }

  method SortedMonths(months: set<int>) returns (sorted: seq<int>)
    ensures Ascending(sorted)
    ensures forall m :: m in months <==> m in sorted
  {
    var left := months;
    sorted := [];
    while left != {}
      invariant left <= months && Ascending(sorted)
      invariant forall m :: m in months <==> m in left || m in sorted
      invariant forall m :: m in left ==> m !in sorted
      decreases left
    {
      Inhabited(left);
      var m :| m in left;
      InsertAscends(m, sorted);
      InsertHasMonth(m, sorted);
      sorted := InsertMonth(m, sorted);
      left := left - {m};
    }
  }
}
