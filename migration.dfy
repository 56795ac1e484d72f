/** The one-off migration (backend/migrate-existing-shows.js) that expands every showtime record
    carrying an `endDate` into one record per later calendar day. The list of records to check
    is read once, before anything is inserted; the duplicate check sees the store as it grows. */
module Migration {
  import opened Wrappers
  import opened Clock
  import opened Entities
  import opened Db
  import Seqs
  import ShowtimeController

  const MaxDays: int := 90

  /** `Showtime.find({ endDate: { $exists: true } })`. */
  function ToMigrate(showtimes: seq<Showtime>): (r: seq<Showtime>)
    ensures forall s :: s in r <==> s in showtimes && s.endDate.Some?
  {
    Seqs.Filter(showtimes, (s: Showtime) => s.endDate.Some?)
  }

  /** The duplicate query: same movie, theater and screen, starting between the show's first
      midnight and the last millisecond of its end date's day. */
  function SameRun(show: Showtime): Showtime -> bool
    requires show.endDate.Some?
  {
    (x: Showtime) =>
      x.movie == show.movie && x.theater == show.theater && x.screen == show.screen
      && StartOfDay(show.startTime) <= x.startTime <= EndOfDay(show.endDate.value)
  }

  /** `show.totalSeats || show.availableSeats`. */
  function SeatsOf(show: Showtime): int
  {
    if show.totalSeats != 0 then show.totalSeats else show.availableSeats
  }

  /** Day loop iterations for a show whose end date lies after its start. */
  function ShowDays(show: Showtime): (n: int)
    requires show.endDate.Some? && show.endDate.value > show.startTime
    ensures 1 <= n <= MaxDays
  {
    CappedDays(show.startTime, show.endDate.value, MaxDays)
  }

  /** The record for the `k`-th day of the run (`k >= 1`): that day's date at the original
      start and end hour:minute, `endDate` equal to its end, copied price, screen and activity. */
  function CopyFor(show: Showtime, k: int, id: Id): Showtime
  {
    var start := OnDay(show.startTime, k, show.startTime);
    var end := OnDay(show.startTime, k, show.endTime);
    Showtime(id, show.movie, show.theater, show.screen, start, end, Some(end), show.price,
             SeatsOf(show), SeatsOf(show), show.isActive)
  }

  /** Copies for days `1 .. n - 1`, with ids handed out from `firstId`. */
  function Copies(show: Showtime, n: nat, firstId: Id): (r: seq<Showtime>)
    requires n >= 1
    ensures |r| == n - 1
    ensures forall d :: 0 <= d < n - 1 ==> r[d] == CopyFor(show, d + 1, firstId + d)
  {
    if n == 1 then [] else Copies(show, n - 1, firstId) + [CopyFor(show, n - 1, firstId + n - 2)]
  }

  /** The running state of the migration: the store, the id counter, the two counters of the
      summary, and whether an exception ended the run early. */
  datatype State = State(store: seq<Showtime>, nextId: nat, migrated: nat, skipped: nat, aborted: bool)

  /** One iteration of the loop over the records to check. A record whose populated movie or
      theater is missing makes `show.movie._id` throw, which ends the whole run. */
  function Step(movies: seq<Movie>, theaters: seq<Theater>, st: State, show: Showtime): State
    requires show.endDate.Some?
  {
    if st.aborted then st
    else if show.endDate.value <= show.startTime then st.(skipped := st.skipped + 1)
    else if FindMovie(movies, show.movie).None? || FindTheater(theaters, show.theater).None? then st.(aborted := true)
    else if Seqs.Count(st.store, SameRun(show)) > 1 then st.(skipped := st.skipped + 1)
    else
      var batch := Copies(show, ShowDays(show), st.nextId);
      State(st.store + batch, st.nextId + |batch|, st.migrated + |batch|, st.skipped, false)
  }

  /** The loop over `shows`, in order. */
  function Run(movies: seq<Movie>, theaters: seq<Theater>, st: State, shows: seq<Showtime>): State
    requires forall s :: s in shows ==> s.endDate.Some?
  {
    if shows == [] then st
    else Step(movies, theaters, Run(movies, theaters, st, shows[..|shows| - 1]), shows[|shows| - 1])
  }

  /** The day loop of one show: from its first midnight through its end date's day, at most 90
      iterations, producing a record for every iteration but the first. */
  method ExpandShow(show: Showtime, firstId: Id) returns (batch: seq<Showtime>)
    requires show.endDate.Some? && show.endDate.value > show.startTime
    ensures batch == Copies(show, ShowDays(show), firstId)
  {
    batch := [];
    var currentDate := StartOfDay(show.startTime);
    var endDateOnly := EndOfDay(show.endDate.value);
    var dayCount := 0;
    ghost var n := ShowDays(show);
    while currentDate <= endDateOnly && dayCount < MaxDays
      invariant 0 <= dayCount <= n
      invariant currentDate == StartOfDay(show.startTime) + dayCount * MsPerDay
      invariant batch == if dayCount == 0 then [] else Copies(show, dayCount, firstId)
    {
      CappedLoopGuard(show.startTime, show.endDate.value, MaxDays, dayCount);
      if dayCount > 0 {
        var dayShowStart := currentDate + HourMinute(show.startTime);
        var dayShowEnd := currentDate + HourMinute(show.endTime);
        batch := batch + [Showtime(firstId + dayCount - 1, show.movie, show.theater, show.screen, dayShowStart,
                                   dayShowEnd, Some(dayShowEnd), show.price, SeatsOf(show), SeatsOf(show),
                                   show.isActive)];
      }
      currentDate := currentDate + MsPerDay;
      dayCount := dayCount + 1;
    }
    CappedLoopGuard(show.startTime, show.endDate.value, MaxDays, dayCount);
  }

  /** `migrateShows` after the connection is open: reads the records to check once, then
      processes them in order until done or until one throws. */
  method MigrateShows(db: Store) returns (migrated: nat, skipped: nat, aborted: bool)
    requires db.Valid()
    modifies db
    ensures db.Valid()
    ensures var shows := ToMigrate(old(db.showtimes));
      var st := Run(db.movies, db.theaters, State(old(db.showtimes), old(db.nextId), 0, 0, false), shows);
      db.showtimes == st.store && db.nextId == st.nextId
      && migrated == st.migrated && skipped == st.skipped && aborted == st.aborted
    ensures db.movies == old(db.movies) && db.theaters == old(db.theaters)
    ensures db.bookings == old(db.bookings) && db.reviews == old(db.reviews)
  {
    var shows := ToMigrate(db.showtimes);
    ghost var movies, theaters := db.movies, db.theaters;
    ghost var init := State(db.showtimes, db.nextId, 0, 0, false);
    migrated, skipped, aborted := 0, 0, false;
    var i := 0;
    while i < |shows| && !aborted
      invariant 0 <= i <= |shows|
      invariant db.Valid()
      invariant db.movies == movies && db.theaters == theaters
      invariant db.bookings == old(db.bookings) && db.reviews == old(db.reviews)
      invariant Run(movies, theaters, init, shows[..i])
             == State(db.showtimes, db.nextId, migrated, skipped, aborted)
    {
      migrated, skipped, aborted := MigrateNext(db, init, shows, i, migrated, skipped);
      i := i + 1;
    }
    RunDone(movies, theaters, init, shows, i);
  }

  /** One turn of the loop: the record at index `i` moves the run from its prefix to the next one. */
  method MigrateNext(db: Store, ghost init: State, shows: seq<Showtime>, i: nat, migrated: nat, skipped: nat)
    returns (migrated': nat, skipped': nat, aborted: bool)
    requires db.Valid() && i < |shows|
    requires forall s :: s in shows ==> s.endDate.Some?
    requires Run(db.movies, db.theaters, init, shows[..i]) == State(db.showtimes, db.nextId, migrated, skipped, false)
    modifies db
    ensures db.Valid()
    ensures Run(db.movies, db.theaters, init, shows[..i + 1])
         == State(db.showtimes, db.nextId, migrated', skipped', aborted)
    ensures db.movies == old(db.movies) && db.theaters == old(db.theaters)
    ensures db.bookings == old(db.bookings) && db.reviews == old(db.reviews)
  {
    ghost var before := State(db.showtimes, db.nextId, migrated, skipped, false);
    migrated', skipped', aborted := MigrateOne(db, shows[i], migrated, skipped);
    AdvanceRun(db.movies, db.theaters, init, shows, i, before, State(db.showtimes, db.nextId, migrated', skipped', aborted));
  }

  /** The body of the loop for one record: skip it, expand it, or throw. */
  method MigrateOne(db: Store, show: Showtime, migrated: nat, skipped: nat) returns (migrated': nat, skipped': nat, aborted: bool)
    requires db.Valid() && show.endDate.Some?
    modifies db
    ensures db.Valid()
    ensures Step(db.movies, db.theaters, State(old(db.showtimes), old(db.nextId), migrated, skipped, false), show)
         == State(db.showtimes, db.nextId, migrated', skipped', aborted)
    ensures db.movies == old(db.movies) && db.theaters == old(db.theaters)
    ensures db.bookings == old(db.bookings) && db.reviews == old(db.reviews)
  {
    migrated', skipped', aborted := migrated, skipped, false;
    if show.endDate.value <= show.startTime {
      skipped' := skipped + 1;
    } else if FindMovie(db.movies, show.movie).None? || FindTheater(db.theaters, show.theater).None? {
      aborted := true;
    } else if Seqs.Count(db.showtimes, SameRun(show)) > 1 {
      skipped' := skipped + 1;
    } else {
      var batch := ExpandShow(show, db.nextId);
      if |batch| > 0 {
        ShowtimeController.InsertShowtimes(db, batch);
        migrated' := migrated + |batch|;
      }
    }
  }

  lemma RunSnoc(movies: seq<Movie>, theaters: seq<Theater>, st: State, shows: seq<Showtime>, i: nat)
    requires forall s :: s in shows ==> s.endDate.Some?
    requires i < |shows|
    ensures Run(movies, theaters, st, shows[..i + 1]) == Step(movies, theaters, Run(movies, theaters, st, shows[..i]), shows[i])
  {
    assert shows[..i + 1][..i] == shows[..i];
  }

  /** The loop's step: one more iteration of `Step` extends the run by one show. */
  lemma AdvanceRun(movies: seq<Movie>, theaters: seq<Theater>, init: State, shows: seq<Showtime>, i: nat,
                   before: State, after: State)
    requires forall s :: s in shows ==> s.endDate.Some?
    requires i < |shows|
    requires Run(movies, theaters, init, shows[..i]) == before
    requires Step(movies, theaters, before, shows[i]) == after
    ensures Run(movies, theaters, init, shows[..i + 1]) == after
  {
    RunSnoc(movies, theaters, init, shows, i);
  }

  /** The loop ends at the last record or at the first that throws; either way its state is the
      whole run's. */
  lemma RunDone(movies: seq<Movie>, theaters: seq<Theater>, st: State, shows: seq<Showtime>, i: nat)
    requires forall s :: s in shows ==> s.endDate.Some?
    requires i <= |shows|
    requires i == |shows| || Run(movies, theaters, st, shows[..i]).aborted
    ensures Run(movies, theaters, st, shows) == Run(movies, theaters, st, shows[..i])
  {
    if i == |shows| {
      assert shows[..i] == shows;
    } else {
      RunStaysAborted(movies, theaters, st, shows, i);
    }
  }

  lemma {:induction false} RunStaysAborted(movies: seq<Movie>, theaters: seq<Theater>, st: State, shows: seq<Showtime>, i: nat)
    requires forall s :: s in shows ==> s.endDate.Some?
    requires i <= |shows| && Run(movies, theaters, st, shows[..i]).aborted
    ensures Run(movies, theaters, st, shows) == Run(movies, theaters, st, shows[..i])
    decreases |shows| - i
  {
    if i < |shows| {
      assert shows[..i + 1][..i] == shows[..i];
      RunStaysAborted(movies, theaters, st, shows, i + 1);
    } else {
      assert shows[..i] == shows;
    }
  }

  // ---------------------------------------------------------------- properties

  /** A show ending at or before its start is skipped and inserts nothing. */
  lemma SkipWhenNotAfterStart(movies: seq<Movie>, theaters: seq<Theater>, st: State, show: Showtime)
    requires show.endDate.Some? && show.endDate.value <= show.startTime && !st.aborted
    ensures Step(movies, theaters, st, show) == st.(skipped := st.skipped + 1)
  {
  }

  /** A show with more than one record of the same run already in the store is skipped. */
  lemma SkipWhenExpanded(movies: seq<Movie>, theaters: seq<Theater>, st: State, show: Showtime)
    requires show.endDate.Some? && show.endDate.value > show.startTime && !st.aborted
    requires FindMovie(movies, show.movie).Some? && FindTheater(theaters, show.theater).Some?
    requires Seqs.Count(st.store, SameRun(show)) > 1
    ensures Step(movies, theaters, st, show) == st.(skipped := st.skipped + 1)
  {
  }

  /** An expanded show gets one record per calendar day after its first, within the 90-day
      loop: record `d` is on day `Day(start) + d + 1` at the original hour:minute, ends on the
      same day at the original end hour:minute, has `endDate` equal to its end and copies
      price, screen, activity and the seat rule. */
  lemma {:induction false} CopiesShape(show: Showtime, firstId: Id)
    requires show.endDate.Some? && show.endDate.value > show.startTime
    ensures var b := Copies(show, ShowDays(show), firstId);
      |b| == ShowDays(show) - 1 < DaysSpanned(show.startTime, show.endDate.value)
      && forall d :: 0 <= d < |b| ==>
           b[d].id == firstId + d
           && Day(b[d].startTime) == Day(show.startTime) + d + 1 && Day(b[d].endTime) == Day(show.startTime) + d + 1
           && TimeOfDay(b[d].startTime) == HourMinute(show.startTime) && TimeOfDay(b[d].endTime) == HourMinute(show.endTime)
           && b[d].endDate == Some(b[d].endTime)
           && b[d].movie == show.movie && b[d].theater == show.theater && b[d].screen == show.screen
           && b[d].price == show.price && b[d].isActive == show.isActive
           && b[d].availableSeats == b[d].totalSeats
           && b[d].totalSeats == (if show.totalSeats != 0 then show.totalSeats else show.availableSeats)
  {
    var b := Copies(show, ShowDays(show), firstId);
    forall d | 0 <= d < |b|
      ensures Day(b[d].startTime) == Day(show.startTime) + d + 1 && Day(b[d].endTime) == Day(show.startTime) + d + 1
      ensures TimeOfDay(b[d].startTime) == HourMinute(show.startTime) && TimeOfDay(b[d].endTime) == HourMinute(show.endTime)
    {
      assert b[d] == CopyFor(show, d + 1, firstId + d);
      OnDayPlacement(show.startTime, d + 1, show.startTime);
      OnDayPlacement(show.startTime, d + 1, show.endTime);
    }
  }

  /** The migration only appends: the store it ends with starts with the store it began with,
      so no existing record (the original shows included) is modified or removed. */
  lemma {:induction false} RunOnlyAppends(movies: seq<Movie>, theaters: seq<Theater>, st: State, shows: seq<Showtime>)
    requires forall s :: s in shows ==> s.endDate.Some?
    ensures var r := Run(movies, theaters, st, shows);
      |st.store| <= |r.store| && r.store[..|st.store|] == st.store
  {
    if shows != [] {
      var prefix := shows[..|shows| - 1];
      assert forall s :: s in prefix ==> s in shows;
      RunOnlyAppends(movies, theaters, st, prefix);
      var mid := Run(movies, theaters, st, prefix);
      StepOnlyAppends(movies, theaters, mid, shows[|shows| - 1]);
      var r := Run(movies, theaters, st, shows);
      assert r.store[..|st.store|] == r.store[..|mid.store|][..|st.store|];
    }
  }

  /** One iteration keeps the store's records and only appends to it. */
  lemma StepOnlyAppends(movies: seq<Movie>, theaters: seq<Theater>, st: State, show: Showtime)
    requires show.endDate.Some?
    ensures var r := Step(movies, theaters, st, show);
      |st.store| <= |r.store| && r.store[..|st.store|] == st.store
  {
    var r := Step(movies, theaters, st, show);
    if r.store != st.store {
      var batch := Copies(show, ShowDays(show), st.nextId);
      assert r.store == st.store + batch;
      assert (st.store + batch)[..|st.store|] == st.store;
    }
  }

  /** The summary's migrated count is exactly the number of records added, and every added
      record got a fresh id. */
  lemma {:induction false} RunCountsInserts(movies: seq<Movie>, theaters: seq<Theater>, st: State, shows: seq<Showtime>)
    requires forall s :: s in shows ==> s.endDate.Some?
    requires st.migrated == 0
    ensures var r := Run(movies, theaters, st, shows);
      r.migrated == |r.store| - |st.store| && r.nextId - st.nextId == r.migrated
      && r.skipped <= st.skipped + |shows|
  {
    if shows != [] {
      var prefix := shows[..|shows| - 1];
      assert forall s :: s in prefix ==> s in shows;
      RunCountsInserts(movies, theaters, st, prefix);
      StepCounts(movies, theaters, Run(movies, theaters, st, prefix), shows[|shows| - 1]);
    }
  }

  /** One iteration adds as many records as it counts, consumes as many ids, and skips at most one show. */
  lemma StepCounts(movies: seq<Movie>, theaters: seq<Theater>, st: State, show: Showtime)
    requires show.endDate.Some?
    ensures var r := Step(movies, theaters, st, show);
      r.migrated - st.migrated == |r.store| - |st.store| == r.nextId - st.nextId
      && st.skipped <= r.skipped <= st.skipped + 1
  {
  }
}
