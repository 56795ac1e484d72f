/** The showtime controller (backend/controllers/showtime.controller.js): the time-window
    listings, creation of single and multi-day showtimes with the per-screen overlap check,
    deletion, and the seat map of one showtime. */
module ShowtimeController {
  import opened Wrappers
  import opened Clock
  import opened Entities
  import opened Db
  import Seqs
  import Text
  import ShowtimeStatus

  // ---------------------------------------------------------------- time windows

  /** `getCurrentShowtimes`: started no later than an hour from now, ending no earlier than an hour ago. */
  predicate IsCurrent(s: Showtime, now: int)
  {
    s.startTime <= now + MsPerHour && s.endTime >= now - MsPerHour
  }

  /** `getUpcomingShowtimes` and `getAvailableShowtimes`: starting strictly after now. */
  predicate IsUpcoming(s: Showtime, now: int) { s.startTime > now }

  /** `getPastShowtimes`: ended strictly before now. */
  predicate IsPast(s: Showtime, now: int) { s.endTime < now }

  function StartKey(s: Showtime): int { s.startTime }

  function NegStartKey(s: Showtime): int { -s.startTime }

  function CurrentAt(now: int): Showtime -> bool { (s: Showtime) => IsCurrent(s, now) }

  function UpcomingAt(now: int): Showtime -> bool { (s: Showtime) => IsUpcoming(s, now) }

  function PastAt(now: int): Showtime -> bool { (s: Showtime) => IsPast(s, now) }

  function GetCurrentShowtimes(showtimes: seq<Showtime>, now: int): (r: seq<Showtime>)
    ensures forall s :: s in r <==> s in showtimes && IsCurrent(s, now)
  {
    Seqs.Filter(showtimes, CurrentAt(now))
  }

  /** The upcoming listing, `.sort('startTime')`: the records starting after now, earliest first. */
  function GetUpcomingShowtimes(showtimes: seq<Showtime>, now: int): (r: seq<Showtime>)
    ensures multiset(r) == multiset(Seqs.Filter(showtimes, UpcomingAt(now)))
    ensures forall s :: s in r <==> s in showtimes && IsUpcoming(s, now)
    ensures Seqs.SortedBy(r, StartKey)
  {
    var f := Seqs.Filter(showtimes, UpcomingAt(now));
    Seqs.SortByKeyCorrect(f, StartKey);
    Seqs.SortByKeyMembers(f, StartKey);
    Seqs.SortByKey(f, StartKey)
  }

  /** The past listing, `.sort('-startTime')`: the records that ended before now, latest start first. */
  function GetPastShowtimes(showtimes: seq<Showtime>, now: int): (r: seq<Showtime>)
    ensures multiset(r) == multiset(Seqs.Filter(showtimes, PastAt(now)))
    ensures forall s :: s in r <==> s in showtimes && IsPast(s, now)
    ensures forall i, j :: 0 <= i < j < |r| ==> r[i].startTime >= r[j].startTime
  {
    var f := Seqs.Filter(showtimes, PastAt(now));
    Seqs.SortByKeyCorrect(f, NegStartKey);
    Seqs.SortByKeyMembers(f, NegStartKey);
    var r := Seqs.SortByKey(f, NegStartKey);
    assert forall i, j :: 0 <= i < j < |r| ==> NegStartKey(r[i]) <= NegStartKey(r[j]);
    r
  }

  /** A show the status engine calls live is always in the current window. */
  lemma LiveIsCurrent(s: Showtime, now: int)
    requires ShowtimeStatus.GetShowtimeStatus(s.startTime, s.endTime, now).tag == ShowtimeStatus.Live
    ensures IsCurrent(s, now)
  {
  }

  /** A well-formed show in the past window is reported completed. */
  lemma PastIsCompleted(s: Showtime, now: int)
    requires s.startTime <= s.endTime && IsPast(s, now)
    ensures ShowtimeStatus.GetShowtimeStatus(s.startTime, s.endTime, now).tag == ShowtimeStatus.Completed
  {
  }

  /** An upcoming show is never reported live, and is reported completed only when it starts
      less than a minute from now. */
  lemma UpcomingStatus(s: Showtime, now: int)
    requires IsUpcoming(s, now)
    ensures var t := ShowtimeStatus.GetShowtimeStatus(s.startTime, s.endTime, now).tag;
      t != ShowtimeStatus.Live && (t == ShowtimeStatus.Completed <==> s.startTime < now + MsPerMinute)
  {
  }

  // ---------------------------------------------------------------- creation

  /** The request body of `createShowtime`. `endDate` is absent when the body's value is falsy;
      `availableSeats` and `isActive` are absent when the body omits them. */
  datatype CreateRequest = CreateRequest(
    movie: Id,
    theater: Id,
    screen: string,
    startTime: int,
    endTime: int,
    price: int,
    endDate: Option<int>,
    availableSeats: Option<int>,
    isActive: Option<bool>)

  datatype CreateError =
    | MovieNotFound
    | TheaterNotFound
    | ScreenNotFound
    | Overlapping(existing: Showtime)
    | OverlappingOnDay(day: int, existing: Showtime)
    | TooManyDays
  {
    function Code(): int
    {
      match this
      case MovieNotFound => 404
      case TheaterNotFound => 404
      case _ => 400
    }
  }

  const MaxDays: int := 90

  /** The overlap query: same theater, same screen key, and `startTime < end && endTime > start`. */
  predicate Overlaps(x: Showtime, theater: Id, screen: string, start: int, end: int)
  {
    x.theater == theater && x.screen == screen && x.startTime < end && x.endTime > start
  }

  /** `Showtime.findOne(...)` with that query: the first matching record, if any. */
  function FindOverlap(showtimes: seq<Showtime>, theater: Id, screen: string, start: int, end: int): (r: Option<Showtime>)
    ensures r.None? <==> forall x :: x in showtimes ==> !Overlaps(x, theater, screen, start, end)
    ensures r.Some? ==> r.value in showtimes && Overlaps(r.value, theater, screen, start, end)
  {
    if showtimes == [] then None
    else if Overlaps(showtimes[0], theater, screen, start, end) then Some(showtimes[0])
    else FindOverlap(showtimes[1..], theater, screen, start, end)
  }

  /** `req.body.availableSeats || screenData.capacity`: an absent or zero value falls back to the capacity. */
  function SeatsFor(req: CreateRequest, capacity: int): int
  {
    if req.availableSeats.Some? && req.availableSeats.value != 0 then req.availableSeats.value else capacity
  }

  /** `endDate && endDate > showStartTime`. */
  predicate IsMultiDay(req: CreateRequest)
  {
    req.endDate.Some? && req.endDate.value > req.startTime
  }

  /** Iterations of the day loop: one per calendar day from the start's day to the end date's day,
      stopping at MaxDays. */
  function LoopDays(req: CreateRequest): (n: int)
    requires IsMultiDay(req)
    ensures 1 <= n <= MaxDays
  {
    CappedDays(req.startTime, req.endDate.value, MaxDays)
  }

  function DayStart(req: CreateRequest, k: int): int { OnDay(req.startTime, k, req.startTime) }

  function DayEnd(req: CreateRequest, k: int): int { OnDay(req.startTime, k, req.endTime) }

  function DayRecord(req: CreateRequest, k: int, seats: int, id: Id): Showtime
  {
    Showtime(id, req.movie, req.theater, req.screen, DayStart(req, k), DayEnd(req, k), None, req.price,
             seats, seats, req.isActive.GetOr(true))
  }

  /** The first `n` day records, with ids handed out from `firstId`. */
  function Batch(req: CreateRequest, n: nat, seats: int, firstId: Id): (r: seq<Showtime>)
    ensures |r| == n
    ensures forall k :: 0 <= k < n ==> r[k] == DayRecord(req, k, seats, firstId + k)
  {
    if n == 0 then [] else Batch(req, n - 1, seats, firstId) + [DayRecord(req, n - 1, seats, firstId + n - 1)]
  }

  /** The first day in `[from, n)` whose window overlaps an existing record, with that record. */
  function FirstConflict(showtimes: seq<Showtime>, req: CreateRequest, from: nat, n: nat): (r: Option<(nat, Showtime)>)
    decreases n - from
  {
    if from >= n then None
    else match FindOverlap(showtimes, req.theater, req.screen, DayStart(req, from), DayEnd(req, from))
      case Some(x) => Some((from, x))
      case None => FirstConflict(showtimes, req, from + 1, n)
  }

  /** What `createShowtime` answers for a request on a store snapshot: an error, or the batch it inserts. */
  function Plan(movies: seq<Movie>, theaters: seq<Theater>, showtimes: seq<Showtime>, nextId: Id, req: CreateRequest)
    : Result<seq<Showtime>, CreateError>
  {
    if FindMovie(movies, req.movie).None? then Failure(MovieNotFound)
    else if FindTheater(theaters, req.theater).None? then Failure(TheaterNotFound)
    else
      var screen := FindScreen(FindTheater(theaters, req.theater).value.screens, req.screen);
      if screen.None? then Failure(ScreenNotFound)
      else
        var seats := SeatsFor(req, screen.value.capacity);
        if IsMultiDay(req) then PlanDays(showtimes, req, seats, nextId) else PlanOne(showtimes, req, seats, nextId)
  }

  /** The multi-day branch: the first conflicting day aborts, then the 90-day cap, else the whole batch. */
  function PlanDays(showtimes: seq<Showtime>, req: CreateRequest, seats: int, nextId: Id): Result<seq<Showtime>, CreateError>
    requires IsMultiDay(req)
  {
    var n := LoopDays(req);
    match FirstConflict(showtimes, req, 0, n)
    case Some((k, x)) => Failure(OverlappingOnDay(k, x))
    case None => if n >= MaxDays then Failure(TooManyDays) else Success(Batch(req, n, seats, nextId))
  }

  /** The single-show branch. */
  function PlanOne(showtimes: seq<Showtime>, req: CreateRequest, seats: int, nextId: Id): Result<seq<Showtime>, CreateError>
  {
    match FindOverlap(showtimes, req.theater, req.screen, req.startTime, req.endTime)
    case Some(x) => Failure(Overlapping(x))
    case None =>
      Success([Showtime(nextId, req.movie, req.theater, req.screen, req.startTime, req.endTime, None,
                        req.price, seats, seats, req.isActive.GetOr(true))])
  }

  lemma {:induction false} FirstConflictFrom(showtimes: seq<Showtime>, req: CreateRequest, d: nat, n: nat)
    requires d <= n
    requires forall k :: 0 <= k < d ==> FindOverlap(showtimes, req.theater, req.screen, DayStart(req, k), DayEnd(req, k)).None?
    ensures FirstConflict(showtimes, req, 0, n) == FirstConflict(showtimes, req, d, n)
  {
    if d > 0 {
      FirstConflictFrom(showtimes, req, d - 1, n);
    }
  }

  /** The day loop's early exit: the first day whose window overlaps decides the plan. */
  lemma ConflictOnDay(showtimes: seq<Showtime>, req: CreateRequest, seats: int, nextId: Id, d: nat)
    requires IsMultiDay(req) && d < LoopDays(req)
    requires forall k :: 0 <= k < d ==> FindOverlap(showtimes, req.theater, req.screen, DayStart(req, k), DayEnd(req, k)).None?
    requires FindOverlap(showtimes, req.theater, req.screen, DayStart(req, d), DayEnd(req, d)).Some?
    ensures PlanDays(showtimes, req, seats, nextId)
      == Failure(OverlappingOnDay(d, FindOverlap(showtimes, req.theater, req.screen, DayStart(req, d), DayEnd(req, d)).value))
  {
    FirstConflictFrom(showtimes, req, d, LoopDays(req));
  }

  /** The day loop's normal exit: with no overlapping day the cap alone decides the plan. */
  lemma NoConflictPlan(showtimes: seq<Showtime>, req: CreateRequest, seats: int, nextId: Id)
    requires IsMultiDay(req)
    requires forall k :: 0 <= k < LoopDays(req) ==>
      FindOverlap(showtimes, req.theater, req.screen, DayStart(req, k), DayEnd(req, k)).None?
    ensures PlanDays(showtimes, req, seats, nextId)
      == if LoopDays(req) >= MaxDays then Failure(TooManyDays) else Success(Batch(req, LoopDays(req), seats, nextId))
  {
    FirstConflictFrom(showtimes, req, LoopDays(req), LoopDays(req));
  }

  /** `createShowtime`: checks the movie, theater and screen, builds the records (day by day in
      multi-day mode) while checking each against the store, and inserts the batch only at the end. */
  method CreateShowtime(db: Store, req: CreateRequest) returns (r: Result<seq<Showtime>, CreateError>)
    requires db.Valid()
    modifies db
    ensures db.Valid()
    ensures r == Plan(old(db.movies), old(db.theaters), old(db.showtimes), old(db.nextId), req)
    ensures r.Success? ==> db.showtimes == old(db.showtimes) + r.value && db.nextId == old(db.nextId) + |r.value|
    ensures r.Failure? ==> db.showtimes == old(db.showtimes) && db.nextId == old(db.nextId)
    ensures db.movies == old(db.movies) && db.theaters == old(db.theaters)
    ensures db.bookings == old(db.bookings) && db.reviews == old(db.reviews)
  {
    var movie := FindMovie(db.movies, req.movie);
    if movie.None? {
      return Failure(MovieNotFound);
    }
    var theater := FindTheater(db.theaters, req.theater);
    if theater.None? {
      return Failure(TheaterNotFound);
    }
    var screenData := FindScreen(theater.value.screens, req.screen);
    if screenData.None? {
      return Failure(ScreenNotFound);
    }
    var seats := SeatsFor(req, screenData.value.capacity);
    if IsMultiDay(req) {
      r := ExpandDays(db, req, seats);
    } else {
      var overlapping := FindOverlap(db.showtimes, req.theater, req.screen, req.startTime, req.endTime);
      if overlapping.Some? {
        return Failure(Overlapping(overlapping.value));
      }
      r := Success([Showtime(db.nextId, req.movie, req.theater, req.screen, req.startTime, req.endTime, None,
                             req.price, seats, seats, req.isActive.GetOr(true))]);
    }
    if r.Success? {
      InsertShowtimes(db, r.value);
    }
  }

  /** The day loop of `createShowtime`: from the start's midnight to the end date's last
      millisecond, at most 90 iterations, checking each day's window against the store. */
  method ExpandDays(db: Store, req: CreateRequest, seats: int) returns (r: Result<seq<Showtime>, CreateError>)
    requires IsMultiDay(req)
    ensures r == PlanDays(db.showtimes, req, seats, db.nextId)
    ensures r.Success? ==> forall k :: 0 <= k < |r.value| ==> r.value[k].id == db.nextId + k
  {
    var endDate := req.endDate.value;
    var active := req.isActive.GetOr(true);
    var toCreate: seq<Showtime> := [];
    var currentDate := StartOfDay(req.startTime);
    var endDateOnly := EndOfDay(endDate);
    var dayCount := 0;
    ghost var n := LoopDays(req);
    while currentDate <= endDateOnly && dayCount < MaxDays
      invariant 0 <= dayCount <= n
      invariant currentDate == StartOfDay(req.startTime) + dayCount * MsPerDay
      invariant toCreate == Batch(req, dayCount, seats, db.nextId)
      invariant forall k :: 0 <= k < dayCount ==>
        FindOverlap(db.showtimes, req.theater, req.screen, DayStart(req, k), DayEnd(req, k)).None?
    {
      CappedLoopGuard(req.startTime, endDate, MaxDays, dayCount);
      var dayShowStart := currentDate + HourMinute(req.startTime);
      OnDayMidnight(req.startTime, dayCount, req.startTime);
      var dayShowEnd := StartOfDay(dayShowStart) + HourMinute(req.endTime);
      assert dayShowStart == DayStart(req, dayCount) && dayShowEnd == DayEnd(req, dayCount);
      var overlapping := FindOverlap(db.showtimes, req.theater, req.screen, dayShowStart, dayShowEnd);
      if overlapping.Some? {
        ConflictOnDay(db.showtimes, req, seats, db.nextId, dayCount);
        return Failure(OverlappingOnDay(dayCount, overlapping.value));
      }
      var record := Showtime(db.nextId + dayCount, req.movie, req.theater, req.screen, dayShowStart,
                             dayShowEnd, None, req.price, seats, seats, active);
      assert record == DayRecord(req, dayCount, seats, db.nextId + dayCount);
      toCreate := toCreate + [record];
      currentDate := currentDate + MsPerDay;
      dayCount := dayCount + 1;
    }
    CappedLoopGuard(req.startTime, endDate, MaxDays, dayCount);
    NoConflictPlan(db.showtimes, req, seats, db.nextId);
    if dayCount >= MaxDays {
      return Failure(TooManyDays);
    }
    r := Success(toCreate);
  }

  /** `Showtime.insertMany(batch)`, where each record already carries the id the store hands out next. */
  method InsertShowtimes(db: Store, batch: seq<Showtime>)
    requires db.Valid()
    requires forall k :: 0 <= k < |batch| ==> batch[k].id == db.nextId + k
    modifies db
    ensures db.Valid()
    ensures db.showtimes == old(db.showtimes) + batch && db.nextId == old(db.nextId) + |batch|
    ensures db.movies == old(db.movies) && db.theaters == old(db.theaters)
    ensures db.bookings == old(db.bookings) && db.reviews == old(db.reviews)
  {
    db.showtimes := db.showtimes + batch;
    db.nextId := db.nextId + |batch|;
  }

  // ---------------------------------------------------------------- properties of Plan

  /** Screen found in the request's theater (for stating the lemmas below). */
  function RequestedScreen(theaters: seq<Theater>, req: CreateRequest): Option<Screen>
  {
    if FindTheater(theaters, req.theater).None? then None
    else FindScreen(FindTheater(theaters, req.theater).value.screens, req.screen)
  }

  /** Unknown movie or theater: 404; unknown screen: 400; nothing is planned in either case. */
  lemma PlanLookups(movies: seq<Movie>, theaters: seq<Theater>, showtimes: seq<Showtime>, nextId: Id, req: CreateRequest)
    ensures var r := Plan(movies, theaters, showtimes, nextId, req);
      ((forall m :: m in movies ==> m.id != req.movie) ==> r == Failure(MovieNotFound) && r.error.Code() == 404)
      && ((exists m :: m in movies && m.id == req.movie) && (forall t :: t in theaters ==> t.id != req.theater)
          ==> r == Failure(TheaterNotFound) && r.error.Code() == 404)
      && ((exists m :: m in movies && m.id == req.movie) && RequestedScreen(theaters, req).None?
          && (exists t :: t in theaters && t.id == req.theater)
          ==> r == Failure(ScreenNotFound) && r.error.Code() == 400)
  {
  }

  /** A successful plan needed the movie, the theater and the screen. */
  lemma PlanSuccessNeedsScreen(movies: seq<Movie>, theaters: seq<Theater>, showtimes: seq<Showtime>, nextId: Id, req: CreateRequest)
    requires Plan(movies, theaters, showtimes, nextId, req).Success?
    ensures exists m :: m in movies && m.id == req.movie
    ensures RequestedScreen(theaters, req).Some?
  {
    assert FindMovie(movies, req.movie).Some?;
  }

  /** Single mode inserts exactly the requested record, or fails on the first overlapping record. */
  lemma PlanSingle(movies: seq<Movie>, theaters: seq<Theater>, showtimes: seq<Showtime>, nextId: Id, req: CreateRequest)
    requires !IsMultiDay(req)
    requires FindMovie(movies, req.movie).Some? && RequestedScreen(theaters, req).Some?
    ensures var r := Plan(movies, theaters, showtimes, nextId, req);
      (r.Success? <==> forall x :: x in showtimes ==> !Overlaps(x, req.theater, req.screen, req.startTime, req.endTime))
      && (r.Success? ==>
            && |r.value| == 1 && r.value[0].id == nextId
            && r.value[0].movie == req.movie && r.value[0].theater == req.theater && r.value[0].screen == req.screen
            && r.value[0].startTime == req.startTime && r.value[0].endTime == req.endTime && r.value[0].endDate.None?
            && r.value[0].price == req.price
            && r.value[0].availableSeats == r.value[0].totalSeats == SeatsFor(req, RequestedScreen(theaters, req).value.capacity)
            && (r.value[0].isActive <==> req.isActive != Some(false)))
      && (r.Failure? ==> r.error.Overlapping? && r.error.existing in showtimes && r.error.Code() == 400)
  {
  }

  /** A conflict reported on day `k` is a real overlap with a record of the store, on one of the
      first 90 days of the span, and no earlier day conflicts. */
  lemma {:induction false} FirstConflictSound(showtimes: seq<Showtime>, req: CreateRequest, from: nat, n: nat)
    requires FirstConflict(showtimes, req, from, n).Some?
    ensures var (k, x) := FirstConflict(showtimes, req, from, n).value;
      from <= k < n && x in showtimes && Overlaps(x, req.theater, req.screen, DayStart(req, k), DayEnd(req, k))
      && forall d :: from <= d < k ==> FindOverlap(showtimes, req.theater, req.screen, DayStart(req, d), DayEnd(req, d)).None?
    decreases n - from
  {
    if FindOverlap(showtimes, req.theater, req.screen, DayStart(req, from), DayEnd(req, from)).None? {
      FirstConflictSound(showtimes, req, from + 1, n);
    }
  }

  lemma {:induction false} FirstConflictNone(showtimes: seq<Showtime>, req: CreateRequest, from: nat, n: nat)
    requires FirstConflict(showtimes, req, from, n).None?
    ensures forall d :: from <= d < n ==> FindOverlap(showtimes, req.theater, req.screen, DayStart(req, d), DayEnd(req, d)).None?
    decreases n - from
  {
    if from < n {
      FirstConflictNone(showtimes, req, from + 1, n);
    }
  }

  /** Multi-day mode: one record per calendar day from the start's day to the end date's day;
      record `k` is on day `Day(start) + k`, starts at the start's hour:minute and ends at the
      end's hour:minute of the same day (seconds zeroed), with consecutive ids. */
  lemma PlanMultiDay(movies: seq<Movie>, theaters: seq<Theater>, showtimes: seq<Showtime>, nextId: Id, req: CreateRequest)
    requires IsMultiDay(req)
    requires Plan(movies, theaters, showtimes, nextId, req).Success?
    ensures var b := Plan(movies, theaters, showtimes, nextId, req).value;
      |b| == DaysSpanned(req.startTime, req.endDate.value) < MaxDays
      && forall k :: 0 <= k < |b| ==>
           b[k].id == nextId + k && b[k].movie == req.movie && b[k].theater == req.theater && b[k].screen == req.screen
           && Day(b[k].startTime) == Day(req.startTime) + k && Day(b[k].endTime) == Day(req.startTime) + k
           && TimeOfDay(b[k].startTime) == HourMinute(req.startTime)
           && TimeOfDay(b[k].endTime) == HourMinute(req.endTime)
           && b[k].price == req.price && b[k].endDate.None?
  {
    var b := Plan(movies, theaters, showtimes, nextId, req).value;
    forall k | 0 <= k < |b|
      ensures Day(b[k].startTime) == Day(req.startTime) + k && Day(b[k].endTime) == Day(req.startTime) + k
      ensures TimeOfDay(b[k].startTime) == HourMinute(req.startTime) && TimeOfDay(b[k].endTime) == HourMinute(req.endTime)
    {
      OnDayPlacement(req.startTime, k, req.startTime);
      OnDayPlacement(req.startTime, k, req.endTime);
    }
  }

  /** The 90-day cap: a span of 90 or more calendar days never succeeds; when no day among the
      first 90 conflicts it fails with TooManyDays. */
  lemma PlanCap(movies: seq<Movie>, theaters: seq<Theater>, showtimes: seq<Showtime>, nextId: Id, req: CreateRequest)
    requires IsMultiDay(req) && DaysSpanned(req.startTime, req.endDate.value) >= MaxDays
    requires FindMovie(movies, req.movie).Some? && RequestedScreen(theaters, req).Some?
    ensures var r := Plan(movies, theaters, showtimes, nextId, req);
      r.Failure? && r.error.Code() == 400
      && (FirstConflict(showtimes, req, 0, MaxDays).None? ==> r.error == TooManyDays)
  {
  }

  /** A conflict on any day fails the whole request: nothing of the batch is planned. */
  lemma PlanConflictAborts(movies: seq<Movie>, theaters: seq<Theater>, showtimes: seq<Showtime>, nextId: Id,
                           req: CreateRequest, k: nat, x: Showtime)
    requires IsMultiDay(req) && FindMovie(movies, req.movie).Some? && RequestedScreen(theaters, req).Some?
    requires k < LoopDays(req) && x in showtimes && Overlaps(x, req.theater, req.screen, DayStart(req, k), DayEnd(req, k))
    ensures var r := Plan(movies, theaters, showtimes, nextId, req);
      r.Failure? && r.error.OverlappingOnDay? && r.error.day <= k && r.error.Code() == 400
  {
    var n := LoopDays(req);
    if FirstConflict(showtimes, req, 0, n).None? {
      FirstConflictNone(showtimes, req, 0, n);
      assert false;
    }
    FirstConflictSound(showtimes, req, 0, n);
  }

  /** Every record of a successful plan has the seat fallback for both counters and the
      `isActive` default. */
  lemma PlanSeats(movies: seq<Movie>, theaters: seq<Theater>, showtimes: seq<Showtime>, nextId: Id, req: CreateRequest)
    requires Plan(movies, theaters, showtimes, nextId, req).Success?
    ensures RequestedScreen(theaters, req).Some?
    ensures var b := Plan(movies, theaters, showtimes, nextId, req).value;
      var cap := RequestedScreen(theaters, req).value.capacity;
      forall k :: 0 <= k < |b| ==>
        b[k].availableSeats == b[k].totalSeats
        && (req.availableSeats.None? || req.availableSeats.value == 0 ==> b[k].availableSeats == cap)
        && (req.availableSeats.Some? && req.availableSeats.value != 0 ==> b[k].availableSeats == req.availableSeats.value)
        && (req.isActive.None? ==> b[k].isActive) && (req.isActive.Some? ==> b[k].isActive == req.isActive.value)
  {
    assert FindMovie(movies, req.movie).Some?;
  }

  /** Two records do not overlap in the half-open sense of the query. */
  predicate Disjoint(a: Showtime, b: Showtime)
  {
    !(a.startTime < b.endTime && a.endTime > b.startTime)
  }

  /** No two records booked on the same theater under the same screen key overlap. */
  ghost predicate ScreensNeverDoubleBooked(showtimes: seq<Showtime>)
  {
    forall i, j ::
      (0 <= i < j < |showtimes| && showtimes[i].theater == showtimes[j].theater
       && showtimes[i].screen == showtimes[j].screen) ==> Disjoint(showtimes[i], showtimes[j])
  }

  lemma {:induction false} BatchDaysDisjoint(req: CreateRequest, n: nat, seats: int, firstId: Id, k: int, l: int)
    requires 0 <= k < l < n
    ensures Disjoint(Batch(req, n, seats, firstId)[k], Batch(req, n, seats, firstId)[l])
  {
    var b := Batch(req, n, seats, firstId);
    var base := StartOfDay(req.startTime);
    assert b[k].endTime == base + k * MsPerDay + HourMinute(req.endTime);
    assert b[l].startTime == base + l * MsPerDay + HourMinute(req.startTime);
    assert (k + 1) * MsPerDay <= l * MsPerDay;
    assert b[k].endTime <= b[l].startTime;
  }

  /** Creation keeps every screen free of double bookings: the new records do not overlap
      the existing ones on their screen, nor each other. */
  lemma PlanKeepsScreensFree(movies: seq<Movie>, theaters: seq<Theater>, showtimes: seq<Showtime>, nextId: Id, req: CreateRequest)
    requires ScreensNeverDoubleBooked(showtimes)
    requires Plan(movies, theaters, showtimes, nextId, req).Success?
    ensures ScreensNeverDoubleBooked(showtimes + Plan(movies, theaters, showtimes, nextId, req).value)
  {
    var b := Plan(movies, theaters, showtimes, nextId, req).value;
    var all := showtimes + b;
    var m := |showtimes|;
    assert FindMovie(movies, req.movie).Some?;
    if IsMultiDay(req) {
      var n := LoopDays(req);
      var seats := SeatsFor(req, RequestedScreen(theaters, req).value.capacity);
      assert b == Batch(req, n, seats, nextId);
      FirstConflictNone(showtimes, req, 0, n);
      forall i, j | 0 <= i < j < |all| && all[i].theater == all[j].theater && all[i].screen == all[j].screen
        ensures Disjoint(all[i], all[j])
      {
        if j >= m && i >= m {
          BatchDaysDisjoint(req, n, seats, nextId, i - m, j - m);
        } else if j >= m {
          var k := j - m;
          assert all[j] == b[k] && all[i] == showtimes[i] && showtimes[i] in showtimes;
          assert !Overlaps(showtimes[i], req.theater, req.screen, DayStart(req, k), DayEnd(req, k));
        }
      }
    } else {
      forall i, j | 0 <= i < j < |all| && all[i].theater == all[j].theater && all[i].screen == all[j].screen
        ensures Disjoint(all[i], all[j])
      {
        if j >= m {
          assert all[i] == showtimes[i] && showtimes[i] in showtimes;
        }
      }
    }
  }

  // ---------------------------------------------------------------- deletion

  datatype NotFound = NotFound
  {
    function Code(): int { 404 }
  }

  /** `deleteShowtime`: 404 for an unknown id; otherwise the record is removed and nothing else changes. */
  method DeleteShowtime(db: Store, id: Id) returns (r: Result<Showtime, NotFound>)
    requires db.Valid()
    modifies db
    ensures db.Valid()
    ensures r.Failure? <==> (forall s :: s in old(db.showtimes) ==> s.id != id)
    ensures r.Failure? ==> db.showtimes == old(db.showtimes)
    ensures r.Success? ==>
      (r.value in old(db.showtimes) && r.value.id == id && db.showtimes == Seqs.Filter(old(db.showtimes), OtherThan(id)))
    ensures db.movies == old(db.movies) && db.theaters == old(db.theaters) && db.nextId == old(db.nextId)
    ensures db.bookings == old(db.bookings) && db.reviews == old(db.reviews)
  {
    var found := FindShowtime(db.showtimes, id);
    if found.None? {
      return Failure(NotFound);
    }
    RemoveShowtimes(db, OtherThan(id));
    r := Success(found.value);
  }

  /** The records a deletion of showtime `id` keeps. */
  function OtherThan(id: Id): Showtime -> bool { (s: Showtime) => s.id != id }

  /** `Showtime.deleteMany(filter)`: keeps exactly the records satisfying `keep`, in their order. */
  method RemoveShowtimes(db: Store, keep: Showtime -> bool)
    requires db.Valid()
    modifies db
    ensures db.Valid()
    ensures db.showtimes == Seqs.Filter(old(db.showtimes), keep)
    ensures db.movies == old(db.movies) && db.theaters == old(db.theaters) && db.nextId == old(db.nextId)
    ensures db.bookings == old(db.bookings) && db.reviews == old(db.reviews)
  {
    Seqs.FilterKeepsDistinct(db.showtimes, keep, ShowtimeId);
    db.showtimes := Seqs.Filter(db.showtimes, keep);
  }

  // ---------------------------------------------------------------- seat map

  datatype SeatState = Booked | Available

  datatype Cell = Cell(row: nat, seat: nat, status: SeatState, price: int)

  datatype SeatMap = SeatMap(showtime: Id, screen: string, totalSeats: int, availableSeats: int, cells: seq<seq<Cell>>)

  datatype SeatMapError = ShowtimeNotFound | TheaterMissing | ScreenMissing
  {
    /** A missing theater makes `showtime.theater.screens` throw, which the handler reports as a server error. */
    function Code(): int
    {
      match this
      case ShowtimeNotFound => 404
      case TheaterMissing => 500
      case ScreenMissing => 404
    }
  }

  /** `${seat.row}-${seat.seat}` of a booked seat. */
  function SeatKey(s: BookedSeat): string { s.row + "-" + s.seat }

  /** `${row}-${seat}` of a grid cell. */
  function CellKey(row: nat, seat: nat): string { Text.NatToString(row) + "-" + Text.NatToString(seat) }

  function SeatKeys(seats: seq<BookedSeat>): (r: seq<string>)
    ensures |r| == |seats| && forall i :: 0 <= i < |seats| ==> r[i] == SeatKey(seats[i])
  {
    seq(|seats|, i requires 0 <= i < |seats| => SeatKey(seats[i]))
  }

  /** The keys of all seats of the given bookings, in order (the `bookedSeats` array). */
  function BookedKeys(bookings: seq<Booking>): (r: seq<string>)
    ensures forall k :: k in r <==> exists b, s :: b in bookings && s in b.seats && k == SeatKey(s)
  {
    if bookings == [] then []
    else
      var r := SeatKeys(bookings[0].seats) + BookedKeys(bookings[1..]);
      assert forall k :: k in SeatKeys(bookings[0].seats) <==> exists s :: s in bookings[0].seats && k == SeatKey(s);
      r
  }

  lemma {:induction false} BookedKeysConcat(a: seq<Booking>, b: seq<Booking>)
    ensures BookedKeys(a + b) == BookedKeys(a) + BookedKeys(b)
  {
    if a == [] {
      assert a + b == b;
    } else {
      assert (a + b)[1..] == a[1..] + b;
      BookedKeysConcat(a[1..], b);
    }
  }

  /** The bookings of a showtime (the `bookings` virtual of the showtime). */
  function BookingsOf(bookings: seq<Booking>, id: Id): seq<Booking>
  {
    Seqs.Filter(bookings, (b: Booking) => b.showtime == id)
  }

  /** `getAvailableSeats`: the seat map of showtime `id`. One row per layout entry, row `r`
      has `seatLayout[r]` cells numbered from 0, every cell at the showtime's price, and a cell
      is booked exactly when its key is among the seat keys of that showtime's bookings.
      `totalSeats` is the screen's capacity, not the number of cells. */
  method GetAvailableSeats(db: Store, id: Id) returns (r: Result<SeatMap, SeatMapError>)
    ensures FindShowtime(db.showtimes, id).None? <==> r == Failure(ShowtimeNotFound)
    ensures r.Success? ==>
      var st := FindShowtime(db.showtimes, id).value;
      FindTheater(db.theaters, st.theater).Some?
      && var screen := FindScreen(FindTheater(db.theaters, st.theater).value.screens, st.screen);
      screen.Some?
      && r.value.showtime == id && r.value.screen == screen.value.name
      && r.value.totalSeats == screen.value.capacity && r.value.availableSeats == st.availableSeats
      && |r.value.cells| == |screen.value.seatLayout|
      && forall row :: 0 <= row < |r.value.cells| ==>
           |r.value.cells[row]| == screen.value.seatLayout[row]
           && forall seat :: 0 <= seat < |r.value.cells[row]| ==>
                var c := r.value.cells[row][seat];
                c.row == row && c.seat == seat && c.price == st.price
                && (c.status == Booked <==> CellKey(row, seat) in BookedKeys(BookingsOf(db.bookings, id)))
    ensures r.Failure? && r.error != ShowtimeNotFound ==>
      var st := FindShowtime(db.showtimes, id).value;
      (r.error == TheaterMissing <==> FindTheater(db.theaters, st.theater).None?)
      && (r.error == ScreenMissing ==>
            FindScreen(FindTheater(db.theaters, st.theater).value.screens, st.screen).None?)
  {
    var showtime := FindShowtime(db.showtimes, id);
    if showtime.None? {
      return Failure(ShowtimeNotFound);
    }
    var st := showtime.value;
    var theater := FindTheater(db.theaters, st.theater);
    if theater.None? {
      return Failure(TheaterMissing);
    }
    var screen := FindScreen(theater.value.screens, st.screen);
    if screen.None? {
      return Failure(ScreenMissing);
    }
    var bookings := BookingsOf(db.bookings, id);
    var bookedSeats := CollectBookedSeats(bookings);
    var layout := screen.value.seatLayout;
    var seatMap: seq<seq<Cell>> := [];
    var row := 0;
    while row < |layout|
      invariant 0 <= row <= |layout|
      invariant |seatMap| == row
      invariant forall i :: 0 <= i < row ==> Row(seatMap[i], i, layout[i], st.price, bookedSeats)
    {
      var seatRow: seq<Cell> := [];
      var seat := 0;
      while seat < layout[row]
        invariant 0 <= seat <= layout[row]
        invariant Row(seatRow, row, seat, st.price, bookedSeats)
      {
        var isBooked := CellKey(row, seat) in bookedSeats;
        seatRow := seatRow + [Cell(row, seat, if isBooked then Booked else Available, st.price)];
        seat := seat + 1;
      }
      seatMap := seatMap + [seatRow];
      row := row + 1;
    }
    r := Success(SeatMap(id, screen.value.name, screen.value.capacity, st.availableSeats, seatMap));
  }

  /** `cells` is row `row` of the seat map up to `width` seats. */
  ghost predicate Row(cells: seq<Cell>, row: nat, width: nat, price: int, booked: seq<string>)
  {
    |cells| == width
    && forall seat :: 0 <= seat < width ==>
         cells[seat].row == row && cells[seat].seat == seat && cells[seat].price == price
         && (cells[seat].status == Booked <==> CellKey(row, seat) in booked)
  }

  /** The nested `forEach` that collects `${seat.row}-${seat.seat}` for every seat of every booking. */
  method CollectBookedSeats(bookings: seq<Booking>) returns (keys: seq<string>)
    ensures keys == BookedKeys(bookings)
  {
    keys := [];
    var i := 0;
    while i < |bookings|
      invariant 0 <= i <= |bookings|
      invariant keys == BookedKeys(bookings[..i])
    {
      var seats := bookings[i].seats;
      var j := 0;
      while j < |seats|
        invariant 0 <= j <= |seats|
        invariant keys == BookedKeys(bookings[..i]) + SeatKeys(seats[..j])
      {
        keys := keys + [SeatKey(seats[j])];
        j := j + 1;
        assert SeatKeys(seats[..j]) == SeatKeys(seats[..j - 1]) + [SeatKey(seats[j - 1])];
      }
      assert seats[..j] == seats;
      BookedKeysSnoc(bookings, i);
      i := i + 1;
    }
    assert bookings[..i] == bookings;
  }

  /** Collecting one more booking appends its seats' keys. */
  lemma BookedKeysSnoc(bookings: seq<Booking>, i: nat)
    requires i < |bookings|
    ensures BookedKeys(bookings[..i + 1]) == BookedKeys(bookings[..i]) + SeatKeys(bookings[i].seats)
  {
    BookedKeysConcat(bookings[..i], [bookings[i]]);
    assert bookings[..i + 1] == bookings[..i] + [bookings[i]];
    assert BookedKeys([bookings[i]]) == SeatKeys(bookings[i].seats) + BookedKeys([]);
  }


  /** Cell keys identify their cell: `"r-s"` names exactly one (row, seat) pair. */
  lemma CellKeyInjective(r1: nat, s1: nat, r2: nat, s2: nat)
    requires CellKey(r1, s1) == CellKey(r2, s2)
    ensures r1 == r2 && s1 == s2
  {
    var a1, b1 := Text.NatToString(r1), Text.NatToString(s1);
    var a2, b2 := Text.NatToString(r2), Text.NatToString(s2);
    assert '-' !in a1 && '-' !in b1 && '-' !in a2 && '-' !in b2;
    assert CellKey(r1, s1) == a1 + ['-'] + b1;
    assert CellKey(r2, s2) == a2 + ['-'] + b2;
    Text.SplitConcat(a1, b1, '-');
    Text.SplitConcat(a2, b2, '-');
    var parts := Text.Split(CellKey(r1, s1), '-');
    assert parts == [a1, b1] && parts == [a2, b2];
    Text.NatToStringInjective(r1, r2);
    Text.NatToStringInjective(s1, s2);
  }
}
