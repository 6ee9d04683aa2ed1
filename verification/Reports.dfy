// getRevenueLastNMonths (src/modules/reports/reports.service.ts): calendar months as revenue buckets.
module Reports {

  import opened Wrappers

  datatype Sale = Sale(completedAt: Time, amount: nat)
  datatype Month = Month(year: int, month: int, from: Time, to: Time)
  datatype Revenue = Revenue(year: int, month: int, revenue: nat)

  predicate IsLeap(y: int) {
    y % 4 == 0 && (y % 100 != 0 || y % 400 == 0)
  }

  const DAYS_BEFORE_1970 := 719527

  function DaysBeforeYear(y: int): int {
    365 * y + (y - 1) / 4 - (y - 1) / 100 + (y - 1) / 400
  }

  function DaysBeforeMonth(m: int, leap: bool): int
    requires 0 <= m < 12
  {
    [0, 31, 59, 90, 120, 151, 181, 212, 243, 273, 304, 334][m] + (if leap && m >= 2 then 1 else 0)
  }

  // new Date(year, month, 1) with months counted from year 0, so that any offset normalises.
  function MonthStart(k: int): Time {
    (DaysBeforeYear(k / 12) + DaysBeforeMonth(k % 12, IsLeap(k / 12)) - DAYS_BEFORE_1970) * 24 * 60
  }

  lemma MultipleIsFar(k: int, n: int)
    requires n > 0 && k != 0
    ensures k * n >= n || k * n <= -n
  {
    if k >= 1 {
      assert (k - 1) * n >= 0;
    } else {
      assert (-k - 1) * n >= 0;
    }
  }

  lemma QuotientIsUnique(y: int, n: int, q: int, r: int)
    requires n > 0 && 0 <= r < n && y == q * n + r
    ensures y / n == q && y % n == r
  {
    var k := y / n - q;
    assert y == y / n * n + y % n;
    assert k * n == r - y % n;
    if k != 0 {
      MultipleIsFar(k, n);
    }
  }

  // A quotient grows by one at the multiples of its divisor.
  lemma QuotientStep(y: int, n: int)
    requires n > 0
    ensures y / n - (y - 1) / n == if y % n == 0 then 1 else 0
  {
    var q, r := y / n, y % n;
    assert y == q * n + r;
    if r == 0 {
      assert y - 1 == (q - 1) * n + (n - 1);
      QuotientIsUnique(y - 1, n, q - 1, n - 1);
    } else {
      QuotientIsUnique(y - 1, n, q, r - 1);
    }
  }

  lemma MultipleOfMultiple(y: int, n: int, k: int)
    requires n > 0 && k > 0 && k * n > 0 && y % (k * n) == 0
    ensures y % n == 0
  {
    var q := y / (k * n);
    assert y == q * (k * n) == (q * k) * n;
    QuotientIsUnique(y, n, q * k, 0);
  }

  lemma YearLength(y: int)
    ensures DaysBeforeYear(y + 1) - DaysBeforeYear(y) == if IsLeap(y) then 366 else 365
  {
    QuotientStep(y, 4);
    QuotientStep(y, 100);
    QuotientStep(y, 400);
    if y % 100 == 0 {
      MultipleOfMultiple(y, 4, 25);
    }
    if y % 400 == 0 {
      MultipleOfMultiple(y, 100, 4);
    }
    assert DaysBeforeYear(y + 1) == 365 * (y + 1) + y / 4 - y / 100 + y / 400;
  }

  lemma NextMonthIsLater(k: int)
    ensures MonthStart(k) < MonthStart(k + 1)
  {
    if k % 12 == 11 {
      assert (k + 1) / 12 == k / 12 + 1 && (k + 1) % 12 == 0;
      YearLength(k / 12);
    } else {
      assert (k + 1) / 12 == k / 12 && (k + 1) % 12 == k % 12 + 1;
    }
  }

  function DaysIn(month: int, leap: bool): int
    requires 0 <= month < 12
  {
    if month == 1 then (if leap then 29 else 28)
    else if month == 3 || month == 5 || month == 8 || month == 10 then 30 else 31
  }

  lemma MonthLength(m: int, leap: bool)
    requires 0 <= m < 12
    ensures (if m == 11 then 365 + (if leap then 1 else 0) else DaysBeforeMonth(m + 1, leap)) - DaysBeforeMonth(m, leap)
            == DaysIn(m, leap)
  {
  }

  // Months start where the calendar says: January 1970 at minute 0, and each month as many days after the one
  // before as that one has.
  lemma MonthsFollowTheCalendar(k: int)
    ensures MonthStart(12 * 1970) == 0
    ensures MonthStart(k + 1) - MonthStart(k) == DaysIn(k % 12, IsLeap(k / 12)) * 1440
  {
    MonthLength(k % 12, IsLeap(k / 12));
    if k % 12 == 11 {
      assert (k + 1) / 12 == k / 12 + 1 && (k + 1) % 12 == 0;
      YearLength(k / 12);
    } else {
      assert (k + 1) / 12 == k / 12 && (k + 1) % 12 == k % 12 + 1;
    }
    hide DaysBeforeYear, IsLeap, DaysIn;
  }

  // Sum of the sales completed in [from, to).
  function RevenueIn(sales: seq<Sale>, from: Time, to: Time): nat {
    if sales == [] then 0
    else
      var last := sales[|sales| - 1];
      RevenueIn(sales[..|sales| - 1], from, to) + (if from <= last.completedAt < to then last.amount else 0)
  }

  function SumOfRevenues(months: seq<Revenue>): nat {
    if months == [] then 0 else SumOfRevenues(months[..|months| - 1]) + months[|months| - 1].revenue
  }

  lemma {:induction false} AdjacentRevenues(sales: seq<Sale>, a: Time, b: Time, c: Time)
    requires a <= b <= c
    ensures RevenueIn(sales, a, b) + RevenueIn(sales, b, c) == RevenueIn(sales, a, c)
  {
    if sales != [] {
      AdjacentRevenues(sales[..|sales| - 1], a, b, c);
    }
  }

  // The first loop: n calendar months, the current one last. They are contiguous and each ends after it
  // starts.
  method LastMonths(year: int, month: int, n: nat) returns (months: seq<Month>)
    requires 0 <= month < 12
    ensures |months| == n
    ensures forall i :: 0 <= i < n ==> months[i].from < months[i].to
    ensures forall i :: 0 <= i < n - 1 ==> months[i].to == months[i + 1].from
    ensures forall i :: 0 <= i < n ==> months[i] == CalendarMonth(12 * year + month - n + 1 + i)
  {
    hide MonthStart;
    var current := 12 * year + month;
    months := [];
    var i := n;
    while i > 0
      invariant 0 <= i <= n && |months| == n - i
      invariant forall j :: 0 <= j < n - i ==> months[j] == CalendarMonth(current - n + 1 + j)
    {
      i := i - 1;
      months := months + [CalendarMonth(current - i)];
    }
    forall j | 0 <= j < n ensures months[j].from < months[j].to {
      NextMonthIsLater(current - n + 1 + j);
    }
  }

  function CalendarMonth(k: int): Month {
    Month(k / 12, k % 12 + 1, MonthStart(k), MonthStart(k + 1))
  }

  lemma {:induction false} MonthsAscend(months: seq<Month>, i: nat, j: nat)
    requires i <= j < |months|
    requires forall k :: 0 <= k < |months| ==> months[k].from < months[k].to
    requires forall k :: 0 <= k < |months| - 1 ==> months[k].to == months[k + 1].from
    ensures months[i].from <= months[j].from && months[i].to <= months[j].to
  {
    if i < j {
      MonthsAscend(months, i, j - 1);
    }
  }

  // The buckets' revenues are those of all completed bookings, month by month, and add up to everything
  // between the first start and the last end: no sale is lost or counted twice.
  method RevenueLastNMonths(sales: seq<Sale>, year: int, month: int, n: nat)
    returns (months: seq<Month>, revenues: seq<Revenue>)
    requires n >= 1 && 0 <= month < 12
    ensures |months| == |revenues| == n
    ensures forall i :: 0 <= i < n ==> months[i] == CalendarMonth(12 * year + month - n + 1 + i)
    ensures forall i :: 0 <= i < n ==>
              revenues[i] == Revenue(months[i].year, months[i].month, RevenueIn(sales, months[i].from, months[i].to))
    ensures SumOfRevenues(revenues) == RevenueIn(sales, months[0].from, months[n - 1].to)
  {
    hide MonthStart;
    months := LastMonths(year, month, n);
    var rows := Fetched(sales, months[0].from, months[n - 1].to);
    revenues := [];
    NothingInEmptySpan(rows, months[0].from);
    for m := 0 to n
      invariant |revenues| == m
      invariant forall j :: 0 <= j < m ==>
                  revenues[j] == Revenue(months[j].year, months[j].month,
                                         RevenueIn(sales, months[j].from, months[j].to))
      invariant SumOfRevenues(revenues)
                  == RevenueIn(rows, months[0].from, if m == 0 then months[0].from else months[m - 1].to)
    {
      MonthsAscend(months, 0, m);
      MonthsAscend(months, m, n - 1);
      AdjacentRevenues(rows, months[0].from, months[m].from, months[m].to);
      FetchedKeepsInside(sales, months[0].from, months[n - 1].to, months[m].from, months[m].to);
      var bucket := Revenue(months[m].year, months[m].month, RevenueIn(rows, months[m].from, months[m].to));
      assert (revenues + [bucket])[..m] == revenues;
      revenues := revenues + [bucket];
    }
    FetchedKeepsInside(sales, months[0].from, months[n - 1].to, months[0].from, months[n - 1].to);
  }

  // The query: rows completed between the first bucket's start and the last one's end.
  function Fetched(sales: seq<Sale>, from: Time, to: Time): seq<Sale> {
    if sales == [] then []
    else
      var earlier := Fetched(sales[..|sales| - 1], from, to);
      if from <= sales[|sales| - 1].completedAt < to then earlier + [sales[|sales| - 1]] else earlier
  }

  lemma {:induction false} FetchedKeepsInside(sales: seq<Sale>, from: Time, to: Time, a: Time, b: Time)
    requires from <= a && b <= to
    ensures RevenueIn(Fetched(sales, from, to), a, b) == RevenueIn(sales, a, b)
  {
    if sales != [] {
      var n := |sales| - 1;
      FetchedKeepsInside(sales[..n], from, to, a, b);
      var earlier := Fetched(sales[..n], from, to);
      assert (earlier + [sales[n]])[..|earlier|] == earlier;
    }
  }

  lemma {:induction false} NothingInEmptySpan(sales: seq<Sale>, t: Time)
    ensures RevenueIn(sales, t, t) == 0
  {
    if sales != [] {
      NothingInEmptySpan(sales[..|sales| - 1], t);
    }
  }
}
