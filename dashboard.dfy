/**
 * The administrator's dashboard aggregates (`Admin\DashboardController`):
 * the four headline counters and the per-day sales of the current month.
 * The start of the month and today are parameters (a timestamp and a day
 * number); status comparisons are exact.
 */
module Dashboard {
  import opened Base
  import opened Schema

  /** `created_at >= startOfMonth` and `status = 'Completed'`: the orders that count as sales. */
  predicate Sale(monthStart: int, o: Order)
  {
    o.createdAt >= monthStart && o.status == "Completed"
  }

  function SaleOf(monthStart: int): Order -> bool { o => Sale(monthStart, o) }

  function Amount(o: Order): int { o.totalAmount }

  /** `whereDate('created_at', today)` and `status != 'cancelled'`, lower-case as written. */
  predicate OrderedToday(today: int, o: Order)
  {
    DayOf(o.createdAt) == today && o.status != "cancelled"
  }

  predicate CustomerUser(u: User) { u.role != AdminRole }

  predicate ReservedToday(today: int, r: Reservation)
  {
    r.date == today && r.status != "cancelled"
  }

  datatype Stats = Stats(totalSales: int, totalOrders: nat, totalUsers: nat, totalReservations: nat)

  /** `getDashboardStats`. */
  function DashboardStats(orders: seq<Order>, users: seq<User>, rs: seq<Reservation>, monthStart: int, today: int)
    : (s: Stats)
    ensures (forall o :: o in orders ==> o.totalAmount >= 0) ==> s.totalSales >= 0
    ensures s.totalOrders <= |orders| && s.totalUsers <= |users| && s.totalReservations <= |rs|
    ensures s.totalUsers == |users| - Count(users, u => !CustomerUser(u))
    ensures s.totalSales == Sum(MonthlySales(orders, monthStart), DailyTotalOf)
  {
    MonthlySalesAddUp(orders, monthStart);
    var sales := Filter(orders, SaleOf(monthStart));
    FilterMembers(orders, SaleOf(monthStart));
    FilterMembers(orders, o => OrderedToday(today, o));
    FilterMembers(users, CustomerUser);
    FilterMembers(rs, r => ReservedToday(today, r));
    CountSplit(users, CustomerUser, u => !CustomerUser(u));
    var s := Stats(Sum(sales, Amount), Count(orders, o => OrderedToday(today, o)), Count(users, CustomerUser),
                   Count(rs, r => ReservedToday(today, r)));
    if forall o :: o in orders ==> o.totalAmount >= 0 then
      SumNonNegative(sales, Amount);
      s
    else s
  }

  /**
   * Under a case-sensitive (binary) collation: order statuses are capitalised,
   * so the lower-case `cancelled` excludes nothing, and a cancelled order placed
   * today still adds one to `total_orders`. Under a case-insensitive collation
   * the comparison would exclude it.
   */
  lemma {:induction false} CancelledOrdersStillCounted(orders: seq<Order>, o: Order, today: int)
    requires o.status == "Cancelled" && DayOf(o.createdAt) == today
    ensures Count(orders + [o], x => OrderedToday(today, x)) == Count(orders, x => OrderedToday(today, x)) + 1
  {
    assert o.status[0] == 'C';
    FilterAppend(orders, [o], x => OrderedToday(today, x));
  }

  // ---------------------------------------------------------------------------
  // getMonthlySales
  // ---------------------------------------------------------------------------

  /** One row of the monthly sales: a day and the sum of its sales. */
  datatype DailyTotal = DailyTotal(date: int, total: int)

  predicate StrictlyIncreasing(s: seq<int>)
  {
    forall i, j :: 0 <= i < j < |s| ==> s[i] < s[j]
  }

  /** `d` put into its place in a strictly increasing list, unless it is already there. */
  function InsertDay(days: seq<int>, d: int): (r: seq<int>)
    requires StrictlyIncreasing(days)
    ensures StrictlyIncreasing(r)
    ensures forall x :: x in r <==> x in days || x == d
  {
    if days == [] then [d]
    else if d < days[0] then [d] + days
    else if d == days[0] then days
    else
      var rest := InsertDay(days[1..], d);
      assert forall x :: x in rest ==> days[0] < x;
      ConsIncreasing(days[0], rest);
      [days[0]] + rest
  }

  lemma ConsIncreasing(x: int, rest: seq<int>)
    requires StrictlyIncreasing(rest) && forall y :: y in rest ==> x < y
    ensures StrictlyIncreasing([x] + rest)
  {
    var s := [x] + rest;
    forall i, j | 0 <= i < j < |s| ensures s[i] < s[j] {
      assert s[j] == rest[j - 1];
      if i > 0 {
        assert s[i] == rest[i - 1];
      } else {
        assert rest[j - 1] in rest;
      }
    }
  }

  /** Some sale in `sales` was made on day `d`. */
  predicate SoldOn(sales: seq<Order>, d: int) { exists o :: o in sales && DayOf(o.createdAt) == d }

  /** The distinct days of the given sales, ascending (`groupBy('date')->orderBy('date')`). */
  function SaleDays(sales: seq<Order>): (days: seq<int>)
    ensures StrictlyIncreasing(days)
    ensures forall d :: d in days <==> SoldOn(sales, d)
  {
    if sales == [] then []
    else
      var rest := SaleDays(sales[..|sales| - 1]);
      var last := sales[|sales| - 1];
      assert forall o :: o in sales <==> o in sales[..|sales| - 1] || o == last;
      InsertDay(rest, DayOf(last.createdAt))
  }

  /** The date a sale is grouped under (`DATE(created_at)`). */
  function SaleDay(o: Order): int { DayOf(o.createdAt) }

  /** The sum of the given sales made on day `d`. */
  function DaySum(sales: seq<Order>, d: int): int
  {
    Sum(Filter(sales, KeyIs(SaleDay, d)), Amount)
  }

  /** `getMonthlySales`: per day with a sale this month, ascending, the sum of that day's sales. */
  function MonthlySales(orders: seq<Order>, monthStart: int): (rows: seq<DailyTotal>)
    ensures forall i, j :: 0 <= i < j < |rows| ==> rows[i].date < rows[j].date
    ensures forall i :: 0 <= i < |rows| ==>
              rows[i].total == DaySum(Filter(orders, SaleOf(monthStart)), rows[i].date)
    ensures forall o :: o in orders && Sale(monthStart, o) ==> exists i :: 0 <= i < |rows| && rows[i].date == DayOf(o.createdAt)
    ensures forall i :: 0 <= i < |rows| ==> SoldInMonth(orders, monthStart, rows[i].date)
  {
    var sales := Filter(orders, SaleOf(monthStart));
    FilterMembers(orders, SaleOf(monthStart));
    var days := SaleDays(sales);
    var rows := Map(days, d => DailyTotal(d, DaySum(sales, d)));
    RowsCoverSaleDays(orders, monthStart, days, rows);
    rows
  }

  /** Some order counted as a sale of the month starting at `monthStart` was made on day `d`. */
  predicate SoldInMonth(orders: seq<Order>, monthStart: int, d: int)
  {
    exists o :: o in orders && Sale(monthStart, o) && DayOf(o.createdAt) == d
  }

  /** Rows made one per listed day cover exactly the days of the month's sales. */
  lemma RowsCoverSaleDays(orders: seq<Order>, monthStart: int, days: seq<int>, rows: seq<DailyTotal>)
    requires forall d :: d in days <==> SoldOn(Filter(orders, SaleOf(monthStart)), d)
    requires |rows| == |days| && forall i :: 0 <= i < |rows| ==> rows[i].date == days[i]
    ensures forall o :: o in orders && Sale(monthStart, o) ==> exists i :: 0 <= i < |rows| && rows[i].date == DayOf(o.createdAt)
    ensures forall i :: 0 <= i < |rows| ==> SoldInMonth(orders, monthStart, rows[i].date)
  {
    var sales := Filter(orders, SaleOf(monthStart));
    FilterMembers(orders, SaleOf(monthStart));
    forall o | o in orders && Sale(monthStart, o) ensures exists i :: 0 <= i < |rows| && rows[i].date == DayOf(o.createdAt) {
      assert o in sales;
      assert DayOf(o.createdAt) in days;
      var i :| 0 <= i < |days| && days[i] == DayOf(o.createdAt);
      assert rows[i].date == DayOf(o.createdAt);
    }
    forall i | 0 <= i < |rows| ensures SoldInMonth(orders, monthStart, rows[i].date) {
      assert days[i] in days;
      var o :| o in sales && DayOf(o.createdAt) == days[i];
      assert o in orders && Sale(monthStart, o);
    }
  }

  function DailyTotalOf(r: DailyTotal): int { r.total }

  /** The monthly rows add up to the dashboard's `total_sales`. */
  lemma MonthlySalesAddUp(orders: seq<Order>, monthStart: int)
    ensures Sum(MonthlySales(orders, monthStart), DailyTotalOf) == Sum(Filter(orders, SaleOf(monthStart)), Amount)
  {
    var sales := Filter(orders, SaleOf(monthStart));
    var days := SaleDays(sales);
    var rows := MonthlySales(orders, monthStart);
    PerDaySums(sales, days, rows);
    assert Distinct(days);
    SumByKeys(sales, SaleDay, days, Amount);
  }

  /** The rows are the per-day sums over `days`, one to one. */
  lemma {:induction false} PerDaySums(sales: seq<Order>, days: seq<int>, rows: seq<DailyTotal>)
    requires |rows| == |days|
    requires forall i :: 0 <= i < |days| ==> rows[i].total == DaySum(sales, days[i])
    ensures Sum(rows, DailyTotalOf) == SumPerKey(sales, SaleDay, days, Amount)
  {
    if days != [] {
      var n := |days| - 1;
      PerDaySums(sales, days[..n], rows[..n]);
      assert rows == rows[..n] + [rows[n]];
      SumAppend(rows[..n], [rows[n]], DailyTotalOf);
    }
  }
}
