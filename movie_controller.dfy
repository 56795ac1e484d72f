/** The movie controller (backend/controllers/movie.controller.js): which movies each catalogue
    view selects, the deletion of a movie with its showtimes, and a movie's upcoming showtimes. */
module MovieController {
  import opened Wrappers
  import opened Clock
  import opened Entities
  import opened Db
  import Seqs
  import ShowtimeController
  import MovieSchema

  datatype View = Active | New | ComingSoon | Inactive | All

  /** `req.query.view || req.query.filter`: an absent or empty `view` defers to `filter`. */
  function ViewParam(view: Option<string>, filter: Option<string>): Option<string>
  {
    if view.Some? && view.value != "" then view else filter
  }

  /** The branch the handler takes for a view parameter; anything unrecognised lists all movies. */
  function ParseView(param: Option<string>): (v: View)
    ensures v == Active <==> param == Some("active") || param == Some("now-showing")
    ensures v == New <==> param == Some("new")
    ensures v == ComingSoon <==> param == Some("upcoming") || param == Some("coming-soon")
    ensures v == Inactive <==> param == Some("inactive")
  {
    if param == Some("active") || param == Some("now-showing") then Active
    else if param == Some("new") then New
    else if param == Some("upcoming") || param == Some("coming-soon") then ComingSoon
    else if param == Some("inactive") then Inactive
    else All
  }

  /** The movie has an active showtime starting at or after now (`distinct('movie')` of that query). */
  predicate HasShowFrom(showtimes: seq<Showtime>, movieId: Id, now: int)
  {
    exists s :: s in showtimes && s.movie == movieId && s.isActive && s.startTime >= now
  }

  /** The `releaseDate` window of the `new` view: at least seven days after now and at most now. */
  predicate InNewWindow(m: Movie, now: int)
  {
    now + 7 * MsPerDay <= m.releaseDate <= now
  }

  predicate Selects(view: View, showtimes: seq<Showtime>, now: int, m: Movie)
  {
    match view
    case Active => HasShowFrom(showtimes, m.id, now)
    case New => HasShowFrom(showtimes, m.id, now) && InNewWindow(m, now)
    case ComingSoon => m.status == Some("upcoming") && !HasShowFrom(showtimes, m.id, now)
    case Inactive => m.status == Some("inactive")
    case All => true
  }

  function SelectedBy(view: View, showtimes: seq<Showtime>, now: int): Movie -> bool
  {
    (m: Movie) => Selects(view, showtimes, now, m)
  }

  /** `getAllMovies`: the movies the chosen view's query matches, in store order. */
  function GetAllMovies(movies: seq<Movie>, showtimes: seq<Showtime>, view: Option<string>, filter: Option<string>, now: int)
    : (r: seq<Movie>)
    ensures forall m :: m in r <==> m in movies && Selects(ParseView(ViewParam(view, filter)), showtimes, now, m)
    ensures ParseView(ViewParam(view, filter)) == All ==> r == movies
  {
    var v := ParseView(ViewParam(view, filter));
    SelectAll(movies, showtimes, now);
    Seqs.Filter(movies, SelectedBy(v, showtimes, now))
  }

  lemma SelectAll(movies: seq<Movie>, showtimes: seq<Showtime>, now: int)
    ensures Seqs.Filter(movies, SelectedBy(All, showtimes, now)) == movies
  {
    Seqs.FilterAll(movies, SelectedBy(All, showtimes, now));
  }

  /** The `new` view can select nothing: its release window is empty. */
  lemma NewViewIsEmpty(movies: seq<Movie>, showtimes: seq<Showtime>, filter: Option<string>, now: int)
    ensures GetAllMovies(movies, showtimes, Some("new"), filter, now) == []
  {
    Seqs.CountIsFilterLength(movies, SelectedBy(New, showtimes, now));
  }

  /** Now showing is exactly the movies with a show from now on; coming soon never overlaps it. */
  lemma {:induction false} ActiveAndComingSoon(movies: seq<Movie>, showtimes: seq<Showtime>, now: int, m: Movie)
    requires m in movies
    ensures m in GetAllMovies(movies, showtimes, Some("active"), None, now) <==> HasShowFrom(showtimes, m.id, now)
    ensures m in GetAllMovies(movies, showtimes, Some("coming-soon"), None, now) ==>
      m !in GetAllMovies(movies, showtimes, Some("now-showing"), None, now)
  {
  }

  /** `deleteMovie`: 404 for an unknown id, changing nothing; otherwise the movie's showtimes are
      deleted, then the movie. */
  method DeleteMovie(db: Store, movieId: Id) returns (r: Result<(), ShowtimeController.NotFound>)
    requires db.Valid()
    modifies db
    ensures db.Valid()
    ensures r.Failure? <==> forall m :: m in old(db.movies) ==> m.id != movieId
    ensures r.Failure? ==> db.movies == old(db.movies) && db.showtimes == old(db.showtimes)
    ensures r.Success? ==>
      && db.showtimes == Seqs.Filter(old(db.showtimes), MovieSchema.NotOfMovie(movieId))
      && db.movies == Seqs.Filter(old(db.movies), MovieSchema.OtherMovie(movieId))
    ensures db.theaters == old(db.theaters) && db.nextId == old(db.nextId)
    ensures db.bookings == old(db.bookings) && db.reviews == old(db.reviews)
  {
    if FindMovie(db.movies, movieId).None? {
      return Failure(ShowtimeController.NotFound);
    }
    ShowtimeController.RemoveShowtimes(db, MovieSchema.NotOfMovie(movieId));
    MovieSchema.RemoveMovie(db, movieId);
    r := Success(());
  }

  function FromNow(movieId: Id, now: int): Showtime -> bool
  {
    (s: Showtime) => s.movie == movieId && s.startTime >= now
  }

  /** `getMovieShowtimes`: 404 for an unknown movie; otherwise the movie's showtimes starting at or
      after now, active or not, by start time ascending. */
  function GetMovieShowtimes(movies: seq<Movie>, showtimes: seq<Showtime>, movieId: Id, now: int)
    : (r: Result<seq<Showtime>, ShowtimeController.NotFound>)
    ensures r.Failure? <==> forall m :: m in movies ==> m.id != movieId
    ensures r.Success? ==>
      && multiset(r.value) == multiset(Seqs.Filter(showtimes, FromNow(movieId, now)))
      && (forall s :: s in r.value <==> s in showtimes && s.movie == movieId && s.startTime >= now)
      && Seqs.SortedBy(r.value, ShowtimeController.StartKey)
  {
    if FindMovie(movies, movieId).None? then Failure(ShowtimeController.NotFound)
    else
      var f := Seqs.Filter(showtimes, FromNow(movieId, now));
      Seqs.SortByKeyCorrect(f, ShowtimeController.StartKey);
      Seqs.SortByKeyMembers(f, ShowtimeController.StartKey);
      Success(Seqs.SortByKey(f, ShowtimeController.StartKey))
  }

  /** The listing is the part of the movie's `showtimes` join that starts at or after now. */
  lemma {:induction false} MovieShowtimesFromJoin(movies: seq<Movie>, showtimes: seq<Showtime>, movieId: Id, now: int)
    requires GetMovieShowtimes(movies, showtimes, movieId, now).Success?
    ensures forall s :: s in GetMovieShowtimes(movies, showtimes, movieId, now).value <==>
      s in MovieSchema.ShowtimesJoin(showtimes, movieId) && s.startTime >= now
  {
  }
}
