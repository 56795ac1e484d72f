/** The real-time status of a showtime relative to the current instant `now`
    (backend/utils/calculateShowtimeStatus.js): a five-way classification with a display label,
    a colour, a description and a sort order; annotation of a list, a filter by status name and
    an in-place two-key sort. */
module ShowtimeStatus {
  import opened Wrappers
  import opened Clock
  import opened Entities
  import Seqs

  datatype Tag = Live | StartingSoon | UpcomingToday | Upcoming | Completed

  /** The `status` string the API exposes for each tag. */
  function TagName(t: Tag): string
  {
    match t
    case Live => "live"
    case StartingSoon => "starting-soon"
    case UpcomingToday => "upcoming-today"
    case Upcoming => "upcoming"
    case Completed => "completed"
  }

  function SortOrderOf(t: Tag): int
  {
    match t
    case Live => 1
    case StartingSoon => 2
    case UpcomingToday => 3
    case Upcoming => 4
    case Completed => 5
  }

  /** The description text, kept as its parts: minutes until the end of a live show, minutes
      until the start, hours and minutes until the start, the start instant (rendered with
      `toLocaleString` by the source), or the fixed text "Show ended". */
  datatype Description = EndsIn(minutes: int) | StartsIn(minutes: int) | StartsInHM(hours: int, minutes: int)
                       | StartsAt(instant: int) | ShowEnded

  datatype Status = Status(tag: Tag, labelText: string, color: string, description: Description, sortOrder: int)

  /** `getShowtimeStatus(startTime, endTime)` with the clock read passed in as `now`.
      All thresholds are restated on milliseconds: `m = floor((start - now) / 60000)` is in
      `1..30` exactly when `start - now` is in `[1 min, 31 min)`, and so on. */
  function GetShowtimeStatus(start: int, end: int, now: int): (r: Status)
    ensures r.sortOrder == SortOrderOf(r.tag)
    ensures r.tag == Live <==> start <= now <= end
    ensures r.tag == StartingSoon <==> now + MsPerMinute <= start < now + 31 * MsPerMinute
    ensures r.tag == UpcomingToday <==> now + 31 * MsPerMinute <= start < now + 121 * MsPerMinute
    ensures r.tag == Upcoming <==> now + 121 * MsPerMinute <= start
    ensures r.tag == Completed <==> !(start <= now <= end) && start < now + MsPerMinute
    ensures r.tag == Live ==>
      (r.labelText == "Live Now" && r.color == "green" && r.description.EndsIn?
       && 0 <= r.description.minutes
       && r.description.minutes * MsPerMinute <= end - now < (r.description.minutes + 1) * MsPerMinute)
    ensures r.tag == StartingSoon ==>
      (r.labelText == "Starting Soon" && r.color == "orange" && r.description.StartsIn?
       && 1 <= r.description.minutes <= 30
       && r.description.minutes * MsPerMinute <= start - now < (r.description.minutes + 1) * MsPerMinute)
    ensures r.tag == UpcomingToday ==>
      (r.labelText == "Today" && r.color == "blue" && r.description.StartsInHM?
       && 0 <= r.description.minutes < 60 && 0 <= r.description.hours <= 2
       && var total := r.description.hours * 60 + r.description.minutes;
          31 <= total <= 120 && total * MsPerMinute <= start - now < (total + 1) * MsPerMinute)
    ensures r.tag == Upcoming ==>
      (r.color == "gray" && r.description == StartsAt(start)
       && (r.labelText == "Today" <==> Day(start) == Day(now))
       && (r.labelText == "Tomorrow" <==> Day(start) == Day(now) + 1)
       && (r.labelText == "Upcoming" <==> Day(start) > Day(now) + 1))
    ensures r.tag == Completed ==> r.labelText == "Completed" && r.color == "gray" && r.description == ShowEnded
  {
    var minutesUntilStart := (start - now) / MsPerMinute;
    var minutesUntilEnd := (end - now) / MsPerMinute;
    if now >= start && now <= end then
      Status(Live, "Live Now", "green", EndsIn(minutesUntilEnd), 1)
    else if minutesUntilStart > 0 && minutesUntilStart <= 30 then
      Status(StartingSoon, "Starting Soon", "orange", StartsIn(minutesUntilStart), 2)
    else if minutesUntilStart > 30 && minutesUntilStart <= 120 then
      Status(UpcomingToday, "Today", "blue", StartsInHM(minutesUntilStart / 60, minutesUntilStart % 60), 3)
    else if minutesUntilStart > 120 then
      DayMonotone(now, start);
      assert Day(now + MsPerDay) == Day(now) + 1;
      var isToday := Day(start) == Day(now);
      var isTomorrow := Day(start) == Day(now + MsPerDay);
      Status(Upcoming, if isToday then "Today" else if isTomorrow then "Tomorrow" else "Upcoming", "gray",
             StartsAt(start), 4)
    else
      Status(Completed, "Completed", "gray", ShowEnded, 5)
  }

  /** A showtime with the `realtimeStatus` field the annotation adds (absent on a plain record). */
  datatype Annotated = Annotated(show: Showtime, realtimeStatus: Option<Status>)

  /** `addStatusToShowtimes`: each record, in order, with its status attached. */
  function AddStatusToShowtimes(showtimes: seq<Showtime>, now: int): (r: seq<Annotated>)
    ensures |r| == |showtimes|
    ensures forall i :: 0 <= i < |r| ==>
      r[i].show == showtimes[i]
      && r[i].realtimeStatus == Some(GetShowtimeStatus(showtimes[i].startTime, showtimes[i].endTime, now))
  {
    if showtimes == [] then []
    else
      var s := showtimes[0];
      [Annotated(s, Some(GetShowtimeStatus(s.startTime, s.endTime, now)))] + AddStatusToShowtimes(showtimes[1..], now)
  }

  function Shows(xs: seq<Annotated>): (r: seq<Showtime>)
    ensures |r| == |xs| && forall i :: 0 <= i < |xs| ==> r[i] == xs[i].show
  {
    if xs == [] then [] else [xs[0].show] + Shows(xs[1..])
  }

  /** Annotation only adds a field: dropping it again gives back the input. */
  lemma AnnotationAddsOnlyStatus(showtimes: seq<Showtime>, now: int)
    ensures Shows(AddStatusToShowtimes(showtimes, now)) == showtimes
  {
  }

  /** `st.realtimeStatus?.status === filter`. */
  predicate HasStatus(x: Annotated, filter: string)
  {
    x.realtimeStatus.Some? && TagName(x.realtimeStatus.value.tag) == filter
  }

  /** `!statusFilter || statusFilter === 'all'`: an absent, empty or `'all'` filter. */
  predicate KeepsAll(statusFilter: Option<string>)
  {
    statusFilter.None? || statusFilter.value == "" || statusFilter.value == "all"
  }

  /** `filterShowtimesByStatus`. */
  function FilterShowtimesByStatus(xs: seq<Annotated>, statusFilter: Option<string>): (r: seq<Annotated>)
    ensures |r| <= |xs|
    ensures KeepsAll(statusFilter) ==> r == xs
    ensures !KeepsAll(statusFilter) ==> forall x :: x in r <==> x in xs && HasStatus(x, statusFilter.value)
  {
    if KeepsAll(statusFilter) then xs
    else Seqs.Filter(xs, (x: Annotated) => HasStatus(x, statusFilter.value))
  }

  /** The filter keeps the input order: it distributes over concatenation. */
  lemma FilterByStatusConcat(a: seq<Annotated>, b: seq<Annotated>, statusFilter: Option<string>)
    ensures FilterShowtimesByStatus(a + b, statusFilter)
         == FilterShowtimesByStatus(a, statusFilter) + FilterShowtimesByStatus(b, statusFilter)
  {
    if !KeepsAll(statusFilter) {
      Seqs.FilterConcat(a, b, (x: Annotated) => HasStatus(x, statusFilter.value));
    }
  }

  /** A filter that names no status keeps nothing. */
  lemma UnknownFilterKeepsNothing(xs: seq<Annotated>, f: string)
    requires f != "" && f != "all"
    requires forall t: Tag :: TagName(t) != f
    ensures FilterShowtimesByStatus(xs, Some(f)) == []
  {
    var p := (x: Annotated) => HasStatus(x, f);
    Seqs.CountIsFilterLength(xs, p);
  }

  /** `a.realtimeStatus?.sortOrder || 999`: a missing status (or a zero order) sorts last. */
  function OrderKey(x: Annotated): int
  {
    if x.realtimeStatus.None? || x.realtimeStatus.value.sortOrder == 0 then 999 else x.realtimeStatus.value.sortOrder
  }

  /** The comparator of `sortShowtimesByStatus` returns a non-positive value for (a, b). */
  predicate InOrder(a: Annotated, b: Annotated)
  {
    OrderKey(a) < OrderKey(b) || (OrderKey(a) == OrderKey(b) && a.show.startTime <= b.show.startTime)
  }

  ghost predicate SortedByStatus(s: seq<Annotated>)
  {
    forall i, j :: 0 <= i < j < |s| ==> InOrder(s[i], s[j])
  }

  lemma InOrderTransitive(a: Annotated, b: Annotated, c: Annotated)
    requires InOrder(a, b) && InOrder(b, c)
    ensures InOrder(a, c)
  {
  }

  /** `sortShowtimesByStatus`: sorts the array in place by status order, then by start time. */
  method SortShowtimesByStatus(a: array<Annotated>)
    modifies a
    ensures SortedByStatus(a[..])
    ensures multiset(a[..]) == multiset(old(a[..]))
  {
    var i := 0;
    while i < a.Length
      invariant 0 <= i <= a.Length
      invariant SortedByStatus(a[..i])
      invariant multiset(a[..]) == multiset(old(a[..]))
    {
      InsertInto(a, i);
      i := i + 1;
    }
    assert a[..a.Length] == a[..];
  }

  /** The state of one insertion step: `s[j]` is the element being moved left; the other
      elements of `s[..i + 1]` are in order, and `s[j]` is in order with everything after it. */
  ghost predicate Inserting(s: seq<Annotated>, i: int, j: int)
  {
    0 <= j <= i < |s|
    && (forall k, l :: 0 <= k < l <= i && k != j && l != j ==> InOrder(s[k], s[l]))
    && (forall l :: j < l <= i ==> InOrder(s[j], s[l]))
  }

  lemma SwapStep(s: seq<Annotated>, i: int, j: int)
    requires Inserting(s, i, j) && j > 0 && !InOrder(s[j - 1], s[j])
    ensures Inserting(s[j - 1 := s[j]][j := s[j - 1]], i, j - 1)
    ensures multiset(s[j - 1 := s[j]][j := s[j - 1]]) == multiset(s)
  {
  }

  lemma InsertDone(s: seq<Annotated>, i: int, j: int)
    requires Inserting(s, i, j) && (j == 0 || InOrder(s[j - 1], s[j]))
    ensures SortedByStatus(s[..i + 1])
  {
    forall k, l | 0 <= k < l <= i ensures InOrder(s[k], s[l]) {
      if l == j && k < j - 1 {
        InOrderTransitive(s[k], s[j - 1], s[j]);
      }
    }
  }

  /** One insertion step: moves `a[i]` left into the sorted prefix `a[..i]`. */
  method InsertInto(a: array<Annotated>, i: nat)
    requires i < a.Length
    requires SortedByStatus(a[..i])
    modifies a
    ensures SortedByStatus(a[..i + 1])
    ensures multiset(a[..]) == multiset(old(a[..]))
  {
    var j := i;
    while j > 0 && !InOrder(a[j - 1], a[j])
      invariant Inserting(a[..], i, j)
      invariant multiset(a[..]) == multiset(old(a[..]))
    {
      SwapStep(a[..], i, j);
      a[j - 1], a[j] := a[j], a[j - 1];
      j := j - 1;
    }
    InsertDone(a[..], i, j);
  }

  /** Statuses computed by GetShowtimeStatus carry the order of their tag. */
  ghost predicate Computed(x: Annotated)
  {
    x.realtimeStatus.Some? && x.realtimeStatus.value.sortOrder == SortOrderOf(x.realtimeStatus.value.tag)
  }

  /** After the sort, a list of annotated showtimes runs through the tags in order:
      live shows first, completed shows last. */
  lemma {:induction false} SortedTagsInOrder(s: seq<Annotated>, i: int, j: int)
    requires SortedByStatus(s)
    requires forall k :: 0 <= k < |s| ==> Computed(s[k])
    requires 0 <= i < j < |s|
    ensures s[i].realtimeStatus.Some? && s[j].realtimeStatus.Some?
    ensures SortOrderOf(s[i].realtimeStatus.value.tag) <= SortOrderOf(s[j].realtimeStatus.value.tag)
    ensures s[j].realtimeStatus.value.tag == Live ==> s[i].realtimeStatus.value.tag == Live
  {
    assert InOrder(s[i], s[j]);
    assert Computed(s[i]) && Computed(s[j]);
  }

  /** Showtimes annotated by AddStatusToShowtimes all carry computed statuses. */
  lemma AnnotatedAreComputed(showtimes: seq<Showtime>, now: int)
    ensures forall k :: 0 <= k < |showtimes| ==> Computed(AddStatusToShowtimes(showtimes, now)[k])
  {
  }
}
