/** The records of the document store: movies, theaters with their screens, showtimes,
    bookings and reviews. Document ids are natural numbers; a screen's `_id.toString()`
    is the decimal rendering of its id. Instants are milliseconds (see module Clock). */
module Entities {
  import opened Wrappers
  import Text

  type Id = nat

  /** A screen of a theater. `seatLayout` holds one entry per row: the row's seat count, as
      the seat-map builder reads it (the schema declares each row as an array of seat types). */
  datatype Screen = Screen(id: Id, name: string, capacity: int, seatLayout: seq<nat>)

  datatype Theater = Theater(
    id: Id,
    name: string,
    locationType: string,
    screens: seq<Screen>,
    facilities: seq<string>,
    contactEmail: Option<string>,
    isActive: bool)

  /** `status` is not declared by the schema; another part of the system writes it
      (`'upcoming'` is the value the catalogue reads), so it may be absent. */
  datatype Movie = Movie(
    id: Id,
    title: string,
    releaseDate: int,
    status: Option<string>,
    ratingsAverage: real,
    ratingsCount: nat,
    isActive: bool)

  /** A showtime record. `screen` is the string the creating request named the screen by
      (a screen name or a screen id); `endDate` is the optional last day of a multi-day run. */
  datatype Showtime = Showtime(
    id: Id,
    movie: Id,
    theater: Id,
    screen: string,
    startTime: int,
    endTime: int,
    endDate: Option<int>,
    price: int,
    availableSeats: int,
    totalSeats: int,
    isActive: bool)

  datatype BookedSeat = BookedSeat(row: string, seat: string)

  datatype Booking = Booking(
    id: Id,
    user: Id,
    showtime: Id,
    seats: seq<BookedSeat>,
    paymentStatus: string,
    totalAmount: int,
    createdAt: int)

  /** `rating` is a JavaScript number, so it need not be whole. */
  datatype Review = Review(id: Id, movie: Id, user: Id, rating: real, comment: string)

  /** The lookup `s.name === key || s._id.toString() === key`. */
  predicate ScreenMatches(s: Screen, key: string)
  {
    s.name == key || Text.NatToString(s.id) == key
  }

  /** `screens.find(...)` with that lookup: the first matching screen, if any. */
  function FindScreen(screens: seq<Screen>, key: string): (r: Option<Screen>)
    ensures r.None? <==> forall i :: 0 <= i < |screens| ==> !ScreenMatches(screens[i], key)
    ensures r.Some? ==> r.value in screens && ScreenMatches(r.value, key)
    ensures r.Some? ==>
      exists i :: 0 <= i < |screens| && screens[i] == r.value && (forall j :: 0 <= j < i ==> !ScreenMatches(screens[j], key))
  {
    if screens == [] then None
    else if ScreenMatches(screens[0], key) then Some(screens[0])
    else
      var r := FindScreen(screens[1..], key);
      if r.Some? then
        var i :| 0 <= i < |screens[1..]| && screens[1..][i] == r.value
          && (forall j :: 0 <= j < i ==> !ScreenMatches(screens[1..][j], key));
        assert screens[i + 1] == r.value;
        assert forall j :: 0 <= j < i + 1 ==> !ScreenMatches(screens[j], key) by {
          forall j | 0 <= j < i + 1 ensures !ScreenMatches(screens[j], key) {
            if j > 0 {
              assert screens[j] == screens[1..][j - 1];
            }
          }
        }
        r
      else r
  }

  function FindMovie(movies: seq<Movie>, id: Id): (r: Option<Movie>)
    ensures r.None? <==> forall m :: m in movies ==> m.id != id
    ensures r.Some? ==> r.value in movies && r.value.id == id
  {
    if movies == [] then None
    else if movies[0].id == id then Some(movies[0])
    else FindMovie(movies[1..], id)
  }

  function FindTheater(theaters: seq<Theater>, id: Id): (r: Option<Theater>)
    ensures r.None? <==> forall t :: t in theaters ==> t.id != id
    ensures r.Some? ==> r.value in theaters && r.value.id == id
  {
    if theaters == [] then None
    else if theaters[0].id == id then Some(theaters[0])
    else FindTheater(theaters[1..], id)
  }

  function FindShowtime(showtimes: seq<Showtime>, id: Id): (r: Option<Showtime>)
    ensures r.None? <==> forall s :: s in showtimes ==> s.id != id
    ensures r.Some? ==> r.value in showtimes && r.value.id == id
  {
    if showtimes == [] then None
    else if showtimes[0].id == id then Some(showtimes[0])
    else FindShowtime(showtimes[1..], id)
  }

  function FindReview(reviews: seq<Review>, id: Id): (r: Option<Review>)
    ensures r.None? <==> forall v :: v in reviews ==> v.id != id
    ensures r.Some? ==> r.value in reviews && r.value.id == id
  {
    if reviews == [] then None
    else if reviews[0].id == id then Some(reviews[0])
    else FindReview(reviews[1..], id)
  }
}

/** The document store as one mutable object: one collection per model, in insertion order,
    and the counter that hands out fresh `_id`s. */
module Db {
  import opened Entities
  import Seqs

  function ShowtimeId(s: Showtime): int { s.id }

  function ReviewId(v: Review): int { v.id }

  /** The key of the unique index on reviews. */
  function ReviewPair(v: Review): (Id, Id) { (v.movie, v.user) }

  ghost predicate ShowtimeIdsBelow(s: seq<Showtime>, bound: nat)
  {
    forall x :: x in s ==> x.id < bound
  }

  ghost predicate ReviewIdsBelow(s: seq<Review>, bound: nat)
  {
    forall x :: x in s ==> x.id < bound
  }

  /** The unique index on (movie, user): no two reviews share both. */
  ghost predicate OneReviewPerPair(s: seq<Review>)
  {
    Seqs.DistinctBy(s, ReviewPair)
  }

  class Store {
    var movies: seq<Movie>
    var theaters: seq<Theater>
    var showtimes: seq<Showtime>
    var bookings: seq<Booking>
    var reviews: seq<Review>
    var nextId: nat

    /** Ids handed out by the store are fresh: below the counter and pairwise distinct,
        and the review collection respects its unique index. */
    ghost predicate Valid()
      reads this
    {
      ShowtimeIdsBelow(showtimes, nextId) && Seqs.DistinctBy(showtimes, ShowtimeId)
      && ReviewIdsBelow(reviews, nextId) && Seqs.DistinctBy(reviews, ReviewId) && OneReviewPerPair(reviews)
    }

    constructor (movies: seq<Movie>, theaters: seq<Theater>, bookings: seq<Booking>)
      ensures Valid()
      ensures this.movies == movies && this.theaters == theaters && this.bookings == bookings
      ensures showtimes == [] && reviews == []
    {
      this.movies := movies;
      this.theaters := theaters;
      this.bookings := bookings;
      showtimes := [];
      reviews := [];
      nextId := 0;
    }
  }
}
