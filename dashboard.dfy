/** The admin dashboard (backend/controllers/dashboard.controller.js, `getAdminStats`): the
    collection counts, the paid-booking count and revenue, and the seven-day revenue chart whose
    missing days are filled with 0. The aggregation pipelines become the functions below. */
module Dashboard {
  import opened Clock
  import opened Entities
  import Seqs

  predicate IsPaid(b: Booking) { b.paymentStatus == "paid" }

  function Paid(): Booking -> bool { (b: Booking) => IsPaid(b) }

  function Amount(b: Booking): int { b.totalAmount }

  /** `Booking.countDocuments({paymentStatus: 'paid'})`. */
  function TotalBookings(bookings: seq<Booking>): (n: nat)
    ensures n == |Seqs.Filter(bookings, Paid())|
  {
    Seqs.CountIsFilterLength(bookings, Paid());
    Seqs.Count(bookings, Paid())
  }

  /** The `$match`/`$group` revenue pipeline: no group at all without a paid booking. */
  function RevenueResult(bookings: seq<Booking>): (r: seq<int>)
    ensures r == [] <==> forall b :: b in bookings ==> !IsPaid(b)
    ensures |r| <= 1
  {
    if Seqs.Count(bookings, Paid()) == 0 then [] else [Seqs.SumWhere(bookings, Paid(), Amount)]
  }

  /** `revenueResult[0]?.totalRevenue || 0`: the sum of the paid amounts, 0 without any. */
  function TotalRevenue(bookings: seq<Booking>): (t: int)
    ensures t == Seqs.SumWhere(bookings, Paid(), Amount)
    ensures (forall b :: b in bookings ==> !IsPaid(b)) ==> t == 0
  {
    var r := RevenueResult(bookings);
    if r == [] then
      Seqs.SumWhereNone(bookings, Paid(), Amount);
      0
    else if r[0] == 0 then 0 else r[0]
  }

  // ---------------------------------------------------------------- the revenue chart

  /** `subDays(today, 6)` with `setHours(0, 0, 0, 0)`. */
  function ChartStart(today: int): (t: int)
    ensures Day(t) == Day(today) - 6
  {
    DaysBefore(today, 6);
    StartOfDay(today - 6 * MsPerDay)
  }

  /** The chart pipeline's `$match`: paid and created at or after the chart start. */
  predicate Charted(since: int, b: Booking) { IsPaid(b) && b.createdAt >= since }

  function ChartedOn(since: int, day: int): Booking -> bool
  {
    (b: Booking) => Charted(since, b) && Day(b.createdAt) == day
  }

  /** The `$group` by `'%Y-%m-%d'` of the creation instant: one entry per day that has a
      matching booking, holding the sum of that day's amounts. */
  function ChartGroups(bookings: seq<Booking>, since: int): (m: map<int, int>)
    ensures forall d :: d in m <==> exists b :: b in bookings && Charted(since, b) && Day(b.createdAt) == d
    ensures forall d :: d in m ==> m[d] == Seqs.SumWhere(bookings, ChartedOn(since, d), Amount)
  {
    var days := set b | b in bookings && Charted(since, b) :: Day(b.createdAt);
    map d | d in days :: Seqs.SumWhere(bookings, ChartedOn(since, d), Amount)
  }

  /** `revenueChartMap.get(dateString) || 0`. */
  function RevenueOn(groups: map<int, int>, day: int): int
  {
    if day in groups && groups[day] != 0 then groups[day] else 0
  }

  function PaidOn(day: int): Booking -> bool
  {
    (b: Booking) => IsPaid(b) && Day(b.createdAt) == day
  }

  /** The reference value of a chart day: the paid amounts of bookings created on that day. */
  function DailyRevenue(bookings: seq<Booking>, day: int): int
  {
    Seqs.SumWhere(bookings, PaidOn(day), Amount)
  }

  /** For each of the seven days the filled-in value is that day's paid revenue, whether or not
      the day had a group. */
  lemma {:induction false} ChartDayRevenue(bookings: seq<Booking>, today: int, day: int)
    requires Day(today) - 6 <= day <= Day(today)
    ensures RevenueOn(ChartGroups(bookings, ChartStart(today)), day) == DailyRevenue(bookings, day)
  {
    var since := ChartStart(today);
    forall b | b in bookings ensures ChartedOn(since, day)(b) == PaidOn(day)(b) {
      FromStartOfDay(b.createdAt, since);
    }
    Seqs.SumWhereSame(bookings, ChartedOn(since, day), PaidOn(day), Amount);
    if day !in ChartGroups(bookings, since) {
      Seqs.SumWhereNone(bookings, PaidOn(day), Amount);
    }
  }

  datatype ChartEntry = ChartEntry(day: int, revenue: int)

  datatype AdminStats = AdminStats(
    totalUsers: nat,
    totalMovies: nat,
    totalTheaters: nat,
    totalBookings: nat,
    totalRevenue: int,
    revenueChart: seq<ChartEntry>)

  /** `getAdminStats`. The user collection is not part of the store, so its size is a parameter. */
  method GetAdminStats(totalUsers: nat, movies: seq<Movie>, theaters: seq<Theater>, bookings: seq<Booking>, today: int)
    returns (stats: AdminStats)
    ensures stats.totalUsers == totalUsers && stats.totalMovies == |movies| && stats.totalTheaters == |theaters|
    ensures stats.totalBookings == |Seqs.Filter(bookings, Paid())|
    ensures stats.totalRevenue == Seqs.SumWhere(bookings, Paid(), Amount)
    ensures |stats.revenueChart| == 7
    ensures forall k :: 0 <= k < 7 ==>
      stats.revenueChart[k].day == Day(today) - 6 + k
      && stats.revenueChart[k].revenue == DailyRevenue(bookings, Day(today) - 6 + k)
  {
    var groups := ChartGroups(bookings, ChartStart(today));
    var chart: seq<ChartEntry> := [];
    var i := 6;
    while i >= 0
      invariant -1 <= i <= 6
      invariant |chart| == 6 - i
      invariant forall k :: 0 <= k < |chart| ==>
        chart[k].day == Day(today) - 6 + k && chart[k].revenue == DailyRevenue(bookings, Day(today) - 6 + k)
    {
      var day := Day(today) - i;
      ChartDayRevenue(bookings, today, day);
      chart := chart + [ChartEntry(day, RevenueOn(groups, day))];
      i := i - 1;
    }
    stats := AdminStats(totalUsers, |movies|, |theaters|, TotalBookings(bookings), TotalRevenue(bookings), chart);
  }

  /** A booking that is not paid changes none of the booking figures. */
  lemma {:induction false} UnpaidIgnored(bookings: seq<Booking>, b: Booking, day: int)
    requires !IsPaid(b)
    ensures TotalBookings(bookings + [b]) == TotalBookings(bookings)
    ensures TotalRevenue(bookings + [b]) == TotalRevenue(bookings)
    ensures DailyRevenue(bookings + [b], day) == DailyRevenue(bookings, day)
  {
    Seqs.CountConcat(bookings, [b], Paid());
    Seqs.SumWhereConcat(bookings, [b], Paid(), Amount);
    Seqs.SumWhereConcat(bookings, [b], PaidOn(day), Amount);
  }
}
