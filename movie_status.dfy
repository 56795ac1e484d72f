/** The show-status flags of a movie: does it have an active showtime starting today,
    one starting tomorrow, and one starting after now. `now` is a parameter. */
module MovieStatus {
  import opened Clock
  import opened Entities
  import Seqs

  datatype Flags = Flags(hasActiveShows: bool, hasShowsTomorrow: bool, hasFutureShows: bool)

  /** Tomorrow's window opens one millisecond after today's `23:59:59.999`. */
  function TomorrowStart(now: int): int { EndOfDay(now) + 1 }

  /** Tomorrow's window is the calendar day after today, and it does not meet today's window. */
  lemma TomorrowIsNextDay(now: int)
    ensures Day(TomorrowStart(now)) == Day(now) + 1
    ensures StartOfDay(TomorrowStart(now)) == TomorrowStart(now)
    ensures EndOfDay(TomorrowStart(now)) == EndOfDay(now) + MsPerDay
    ensures EndOfDay(now) < TomorrowStart(now)
  {
    assert TomorrowStart(now) == (Day(now) + 1) * MsPerDay;
  }

  /** `shows.some(s => lo <= s.startTime && s.startTime <= hi)`. */
  function AnyStartsWithin(shows: seq<Showtime>, lo: int, hi: int): (b: bool)
    ensures b <==> exists s :: s in shows && lo <= s.startTime <= hi
  {
    if shows == [] then false
    else
      assert forall s :: s in shows <==> s == shows[0] || s in shows[1..];
      (lo <= shows[0].startTime <= hi) || AnyStartsWithin(shows[1..], lo, hi)
  }

  /** `shows.some(s => s.startTime > now)`. */
  function AnyStartsAfter(shows: seq<Showtime>, now: int): (b: bool)
    ensures b <==> exists s :: s in shows && s.startTime > now
  {
    if shows == [] then false
    else
      assert forall s :: s in shows <==> s == shows[0] || s in shows[1..];
      shows[0].startTime > now || AnyStartsAfter(shows[1..], now)
  }

  /** The two day windows are exactly the instants on today's and on tomorrow's calendar day. */
  lemma {:induction false} WindowsAreDays(shows: seq<Showtime>, now: int)
    ensures forall s :: s in shows ==>
      ((StartOfDay(now) <= s.startTime <= EndOfDay(now)) <==> Day(s.startTime) == Day(now))
    ensures forall s :: s in shows ==>
      ((TomorrowStart(now) <= s.startTime <= EndOfDay(TomorrowStart(now))) <==> Day(s.startTime) == Day(now) + 1)
  {
    TomorrowIsNextDay(now);
    forall s | s in shows
      ensures (StartOfDay(now) <= s.startTime <= EndOfDay(now)) <==> Day(s.startTime) == Day(now)
      ensures (TomorrowStart(now) <= s.startTime <= EndOfDay(TomorrowStart(now))) <==> Day(s.startTime) == Day(now) + 1
    {
      SameDayWindow(s.startTime, now);
      SameDayWindow(s.startTime, TomorrowStart(now));
    }
  }

  /** The three flags over a movie's already selected showtimes, as the batch variant computes
      them per movie. */
  function FlagsOf(movieShows: seq<Showtime>, now: int): (f: Flags)
    ensures f.hasActiveShows <==> exists s :: s in movieShows && Day(s.startTime) == Day(now)
    ensures f.hasShowsTomorrow <==> exists s :: s in movieShows && Day(s.startTime) == Day(now) + 1
    ensures f.hasFutureShows <==> exists s :: s in movieShows && s.startTime > now
  {
    WindowsAreDays(movieShows, now);
    Flags(
      AnyStartsWithin(movieShows, StartOfDay(now), EndOfDay(now)),
      AnyStartsWithin(movieShows, TomorrowStart(now), EndOfDay(TomorrowStart(now))),
      AnyStartsAfter(movieShows, now))
  }

  /** The flags only depend on which showtimes are present. */
  lemma FlagsOfMembers(a: seq<Showtime>, b: seq<Showtime>, now: int)
    requires forall s :: s in a <==> s in b
    ensures FlagsOf(a, now) == FlagsOf(b, now)
  {
    var fa, fb := FlagsOf(a, now), FlagsOf(b, now);
    assert fa.hasActiveShows == fb.hasActiveShows;
    assert fa.hasShowsTomorrow == fb.hasShowsTomorrow;
    assert fa.hasFutureShows == fb.hasFutureShows;
  }

  /** The single-movie queries filter on the movie and on `isActive: true`. */
  function ActiveShowsOf(movieId: Id): Showtime -> bool
  {
    (s: Showtime) => s.movie == movieId && s.isActive
  }

  /** `calculateMovieStatus(movieId)` on the showtime collection `showtimes` at instant `now`. */
  function CalculateMovieStatus(movieId: Id, showtimes: seq<Showtime>, now: int): (r: Flags)
    ensures r.hasActiveShows <==>
      exists s :: s in showtimes && s.movie == movieId && s.isActive && Day(s.startTime) == Day(now)
    ensures r.hasShowsTomorrow <==>
      exists s :: s in showtimes && s.movie == movieId && s.isActive && Day(s.startTime) == Day(now) + 1
    ensures r.hasFutureShows <==>
      exists s :: s in showtimes && s.movie == movieId && s.isActive && s.startTime > now
  {
    FlagsOf(Seqs.Filter(showtimes, ActiveShowsOf(movieId)), now)
  }

  /** A show tomorrow is a show in the future, and no showtime counts for both today and tomorrow. */
  lemma {:induction false} TomorrowIsFuture(movieId: Id, showtimes: seq<Showtime>, now: int)
    ensures CalculateMovieStatus(movieId, showtimes, now).hasShowsTomorrow ==>
      CalculateMovieStatus(movieId, showtimes, now).hasFutureShows
  {
    var r := CalculateMovieStatus(movieId, showtimes, now);
    if r.hasShowsTomorrow {
      var s :| s in showtimes && s.movie == movieId && s.isActive && Day(s.startTime) == Day(now) + 1;
      DayBounds(s.startTime);
      DayBounds(now);
      assert StartOfDay(s.startTime) == StartOfDay(now) + MsPerDay;
    }
  }

  /** Inactive showtimes never change the flags. */
  lemma {:induction false} InactiveIgnored(movieId: Id, showtimes: seq<Showtime>, extra: Showtime, now: int)
    requires !extra.isActive
    ensures CalculateMovieStatus(movieId, showtimes + [extra], now) == CalculateMovieStatus(movieId, showtimes, now)
  {
    var a, b := CalculateMovieStatus(movieId, showtimes + [extra], now), CalculateMovieStatus(movieId, showtimes, now);
    assert forall s :: s in showtimes + [extra] && s.isActive ==> s in showtimes;
    assert a.hasActiveShows == b.hasActiveShows;
    assert a.hasShowsTomorrow == b.hasShowsTomorrow;
    assert a.hasFutureShows == b.hasFutureShows;
  }

  /** The one query of the batch variant: active showtimes of any of the given movies. */
  function FetchedFor(movieIds: seq<Id>): Showtime -> bool
  {
    (s: Showtime) => s.movie in movieIds && s.isActive
  }

  function OfMovie(movieId: Id): Showtime -> bool
  {
    (s: Showtime) => s.movie == movieId
  }

  /** `calculateMultipleMovieStatuses(movieIds)`: one query, then one entry per requested id,
      each equal to what the single-movie function returns on the same data. */
  method CalculateMultipleMovieStatuses(movieIds: seq<Id>, showtimes: seq<Showtime>, now: int)
    returns (statusMap: map<Id, Flags>)
    ensures statusMap.Keys == set id | id in movieIds
    ensures forall id :: id in movieIds ==> statusMap[id] == CalculateMovieStatus(id, showtimes, now)
  {
    var fetched := Seqs.Filter(showtimes, FetchedFor(movieIds));
    statusMap := map[];
    var i := 0;
    while i < |movieIds|
      invariant 0 <= i <= |movieIds|
      invariant statusMap.Keys == set id | id in movieIds[..i]
      invariant forall id :: id in statusMap ==> statusMap[id] == CalculateMovieStatus(id, showtimes, now)
    {
      var movieId := movieIds[i];
      var movieShows := Seqs.Filter(fetched, OfMovie(movieId));
      FlagsOfMembers(movieShows, Seqs.Filter(showtimes, ActiveShowsOf(movieId)), now);
      statusMap := statusMap[movieId := FlagsOf(movieShows, now)];
      assert movieIds[..i + 1] == movieIds[..i] + [movieId];
      i := i + 1;
    }
    assert movieIds[..i] == movieIds;
  }
}
