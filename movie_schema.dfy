/** The movie schema (backend/models/Movie.js): the field rules a new movie document must meet,
    the `showtimes` virtual join and the cascade run before a movie document is deleted. */
module MovieSchema {
  import opened Wrappers
  import opened Entities
  import opened Db
  import Seqs
  import Text
  import ShowtimeController

  /** The submitted fields that carry rules; `None` is a field left out (or `null`). An omitted
      `genre` takes the implicit array default `[]`, so only an explicit `null` is `None` there. */
  datatype MovieInput = MovieInput(
    title: Option<string>,
    description: Option<string>,
    duration: Option<real>,
    genre: Option<seq<string>>,
    releaseDate: Option<int>,
    director: Option<string>,
    language: Option<string>,
    ratingsAverage: Option<real>,
    ratingsCount: Option<nat>,
    isActive: Option<bool>)

  /** The paths a validation error reports. */
  datatype MoviePath = TitlePath | DescriptionPath | DurationPath | GenrePath | ReleaseDatePath
    | DirectorPath | LanguagePath | RatingsAveragePath

  /** Validation reports every failing path at once; the unique index is consulted only once
      validation has passed. */
  datatype MovieError =
    | ValidationFailed(paths: set<MoviePath>)
    | DuplicateTitle

  predicate RatingInRange(v: real) { 0.0 <= v <= 10.0 }

  /** `Math.round(val * 10) / 10`: `Math.round(x)` is the floor of `x + 0.5`. */
  function RoundToTenth(v: real): (r: real)
    ensures -0.05 < r - v <= 0.05
  {
    var n := (v * 10.0 + 0.5).Floor;
    assert (n as real) <= v * 10.0 + 0.5 < (n as real) + 1.0;
    (n as real) / 10.0
  }

  /** The stored `ratingsAverage`: the setter's rounding of the submitted value, or the default 0. */
  function StoredRating(input: MovieInput): real
  {
    if input.ratingsAverage.None? then 0.0 else RoundToTenth(input.ratingsAverage.value)
  }

  /** A required string: present and not empty. */
  predicate Present(v: Option<string>) { v.Some? && v.value != [] }

  /** The title as stored: `trim: true` applies before `required` is checked. */
  function StoredTitle(input: MovieInput): string
  {
    if input.title.None? then [] else Text.Trim(input.title.value)
  }

  ghost predicate MovieFails(input: MovieInput, p: MoviePath)
  {
    match p
    case TitlePath => StoredTitle(input) == []
    case DescriptionPath => !Present(input.description)
    case DurationPath => input.duration.None?
    case GenrePath => input.genre.None?
    case ReleaseDatePath => input.releaseDate.None?
    case DirectorPath => !Present(input.director)
    case LanguagePath => !Present(input.language)
    case RatingsAveragePath => !RatingInRange(StoredRating(input))
  }

  /** The failing paths among the descriptive fields. */
  function ContentFailures(input: MovieInput): set<MoviePath>
  {
    (if StoredTitle(input) == [] then {TitlePath} else {})
    + (if Present(input.description) then {} else {DescriptionPath})
    + (if input.duration.Some? then {} else {DurationPath})
    + (if input.genre.Some? then {} else {GenrePath})
  }

  /** The failing paths among the release, people and rating fields. */
  function DetailFailures(input: MovieInput): set<MoviePath>
  {
    (if input.releaseDate.Some? then {} else {ReleaseDatePath})
    + (if Present(input.director) then {} else {DirectorPath})
    + (if Present(input.language) then {} else {LanguagePath})
    + (if RatingInRange(StoredRating(input)) then {} else {RatingsAveragePath})
  }

  /** Every failing path of the document, as a `ValidationError` lists them. */
  function MovieFailures(input: MovieInput): (r: set<MoviePath>)
    ensures forall p :: p in r <==> MovieFails(input, p)
  {
    var r := ContentFailures(input) + DetailFailures(input);
    assert forall p :: p in r <==> MovieFails(input, p) by {
      forall p ensures p in r <==> MovieFails(input, p) {
        ContentPathFails(input, p);
        DetailPathFails(input, p);
      }
    }
    r
  }

  lemma ContentPathFails(input: MovieInput, p: MoviePath)
    ensures p in ContentFailures(input) <==>
      (p.TitlePath? || p.DescriptionPath? || p.DurationPath? || p.GenrePath?) && MovieFails(input, p)
  {
    match p
    case TitlePath =>
    case DescriptionPath =>
    case DurationPath =>
    case GenrePath =>
    case _ =>
  }

  lemma DetailPathFails(input: MovieInput, p: MoviePath)
    ensures p in DetailFailures(input) <==>
      (p.ReleaseDatePath? || p.DirectorPath? || p.LanguagePath? || p.RatingsAveragePath?) && MovieFails(input, p)
  {
    match p
    case ReleaseDatePath =>
    case DirectorPath =>
    case LanguagePath =>
    case RatingsAveragePath =>
    case _ =>
  }

  ghost predicate TitlesDistinct(movies: seq<Movie>)
  {
    forall i, j :: 0 <= i < j < |movies| ==> movies[i].title != movies[j].title
  }

  /** Building the document with id `id` next to the existing `movies`. The stored movie keeps
      the fields the catalogue reads; description, duration, genre, director and language are
      validated but not kept. */
  function NewMovie(movies: seq<Movie>, id: Id, input: MovieInput): (r: Result<Movie, MovieError>)
    ensures r.Failure? && r.error.ValidationFailed? <==> MovieFailures(input) != {}
    ensures r.Failure? && r.error.ValidationFailed? ==> r.error.paths == MovieFailures(input)
    ensures r == Failure(DuplicateTitle) <==>
      MovieFailures(input) == {} && exists m :: m in movies && m.title == StoredTitle(input)
    ensures r.Success? ==>
      && r.value.id == id
      && r.value.title == StoredTitle(input) && r.value.title != [] && Text.IsTrimmed(r.value.title)
      && (forall m :: m in movies ==> m.title != r.value.title)
      && Present(input.description) && input.duration.Some? && input.genre.Some?
      && Present(input.director) && Present(input.language)
      && r.value.ratingsAverage == StoredRating(input) && RatingInRange(r.value.ratingsAverage)
      && r.value.ratingsCount == input.ratingsCount.GetOr(0)
      && input.releaseDate == Some(r.value.releaseDate)
      && r.value.status.None?
      && (r.value.isActive <==> input.isActive != Some(false))
  {
    var errs := MovieFailures(input);
    var title := StoredTitle(input);
    if errs != {} then
      Failure(ValidationFailed(errs))
    else if exists m :: m in movies && m.title == title then
      Failure(DuplicateTitle)
    else
      assert !MovieFails(input, TitlePath) && !MovieFails(input, ReleaseDatePath) && !MovieFails(input, RatingsAveragePath);
      assert !MovieFails(input, DescriptionPath) && !MovieFails(input, DurationPath) && !MovieFails(input, GenrePath);
      assert !MovieFails(input, DirectorPath) && !MovieFails(input, LanguagePath);
      Success(Movie(id, title, input.releaseDate.value, None, StoredRating(input), input.ratingsCount.GetOr(0), input.isActive.GetOr(true)))
  }

  /** The setter's rounding: a submitted 10.04 is stored as 10.0 and accepted, a submitted
      10.05 becomes 10.1 and is refused. */
  lemma RoundingDecidesRange()
    ensures RoundToTenth(10.04) == 10.0 && RatingInRange(RoundToTenth(10.04))
    ensures RoundToTenth(10.05) == 10.1 && !RatingInRange(RoundToTenth(10.05))
  {
    assert (10.04 * 10.0 + 0.5).Floor == 100;
    assert (10.05 * 10.0 + 0.5).Floor == 101;
  }

  /** Inserting whatever NewMovie accepts keeps the titles unique. */
  lemma {:induction false} NewMovieKeepsTitlesDistinct(movies: seq<Movie>, id: Id, input: MovieInput)
    requires TitlesDistinct(movies)
    requires NewMovie(movies, id, input).Success?
    ensures TitlesDistinct(movies + [NewMovie(movies, id, input).value])
  {
    var m := NewMovie(movies, id, input).value;
    var s := movies + [m];
    forall i, j | 0 <= i < j < |s| ensures s[i].title != s[j].title {
      if j == |movies| {
        assert s[i] in movies;
      } else {
        assert s[i] == movies[i] && s[j] == movies[j];
      }
    }
  }

  function OfMovie(movieId: Id): Showtime -> bool { (s: Showtime) => s.movie == movieId }

  function NotOfMovie(movieId: Id): Showtime -> bool { (s: Showtime) => s.movie != movieId }

  /** The `showtimes` virtual: the showtimes whose movie is this one, by start time ascending. */
  function ShowtimesJoin(showtimes: seq<Showtime>, movieId: Id): (r: seq<Showtime>)
    ensures multiset(r) == multiset(Seqs.Filter(showtimes, OfMovie(movieId)))
    ensures forall s :: s in r <==> s in showtimes && s.movie == movieId
    ensures Seqs.SortedBy(r, ShowtimeController.StartKey)
  {
    var f := Seqs.Filter(showtimes, OfMovie(movieId));
    Seqs.SortByKeyCorrect(f, ShowtimeController.StartKey);
    Seqs.SortByKeyMembers(f, ShowtimeController.StartKey);
    Seqs.SortByKey(f, ShowtimeController.StartKey)
  }

  /** The pre-`deleteOne` document hook: every showtime of the movie goes. */
  method PreDeleteOne(db: Store, movieId: Id)
    requires db.Valid()
    modifies db
    ensures db.Valid()
    ensures db.showtimes == Seqs.Filter(old(db.showtimes), NotOfMovie(movieId))
    ensures forall s :: s in db.showtimes ==> s.movie != movieId
    ensures db.movies == old(db.movies) && db.theaters == old(db.theaters) && db.nextId == old(db.nextId)
    ensures db.bookings == old(db.bookings) && db.reviews == old(db.reviews)
  {
    ShowtimeController.RemoveShowtimes(db, NotOfMovie(movieId));
  }

  function OtherMovie(movieId: Id): Movie -> bool { (m: Movie) => m.id != movieId }

  /** Removal of the movie document itself (`findByIdAndDelete`, or the delete after the hook). */
  method RemoveMovie(db: Store, movieId: Id)
    modifies db
    ensures db.movies == Seqs.Filter(old(db.movies), OtherMovie(movieId))
    ensures forall m :: m in db.movies ==> m.id != movieId
    ensures db.showtimes == old(db.showtimes) && db.theaters == old(db.theaters) && db.nextId == old(db.nextId)
    ensures db.bookings == old(db.bookings) && db.reviews == old(db.reviews)
  {
    db.movies := Seqs.Filter(db.movies, OtherMovie(movieId));
  }

  /** `movie.deleteOne()`: the hook, then the document. */
  method DeleteOne(db: Store, movieId: Id)
    requires db.Valid()
    modifies db
    ensures db.Valid()
    ensures db.showtimes == Seqs.Filter(old(db.showtimes), NotOfMovie(movieId))
    ensures db.movies == Seqs.Filter(old(db.movies), OtherMovie(movieId))
    ensures db.theaters == old(db.theaters) && db.nextId == old(db.nextId)
    ensures db.bookings == old(db.bookings) && db.reviews == old(db.reviews)
  {
    PreDeleteOne(db, movieId);
    RemoveMovie(db, movieId);
  }

  /** The cascade removes exactly the showtimes the join lists: together they are the old collection. */
  lemma CascadeRemovesTheJoin(showtimes: seq<Showtime>, movieId: Id)
    ensures multiset(Seqs.Filter(showtimes, NotOfMovie(movieId))) + multiset(ShowtimesJoin(showtimes, movieId))
      == multiset(showtimes)
  {
    Seqs.FilterPartition(showtimes, NotOfMovie(movieId), OfMovie(movieId));
  }
}
