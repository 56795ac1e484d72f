/** The movie card (frontend/src/components/MovieCard.jsx): the badge priority chain over the
    release date and the three show flags, and the genre and rating fallbacks. */
module MovieCard {
  import opened Wrappers
  import opened Clock
  import Text
  import MovieStatus

  /** The movie as the card receives it. A flag the listing did not carry is `None`; `genre` and
      `genres` are `None` unless they hold arrays. */
  datatype CardMovie = CardMovie(
    releaseDate: Option<int>,
    hasActiveShows: Option<bool>,
    hasShowsTomorrow: Option<bool>,
    hasFutureShows: Option<bool>,
    genre: Option<seq<string>>,
    genres: Option<seq<string>>,
    ratingsAverage: Option<real>,
    rating: Option<real>)

  datatype Badge = ComingSoonRelease | NewRelease | NowShowing | ShowsTomorrow | ComingSoonShows | Expired | NoShows | Available
  {
    function Label(): string
    {
      match this
      case ComingSoonRelease => "Coming Soon"
      case NewRelease => "New Release"
      case NowShowing => "Now Showing"
      case ShowsTomorrow => "Shows Tomorrow"
      case ComingSoonShows => "Coming Soon"
      case Expired => "Expired"
      case NoShows => "No Shows"
      case Available => "Available"
    }
  }

  /** `Math.floor((today - releaseDate) / 86400000)` with both set to midnight. */
  function DaysSinceRelease(release: int, now: int): (d: int)
    ensures d == Day(now) - Day(release)
  {
    assert StartOfDay(now) - StartOfDay(release) == (Day(now) - Day(release)) * MsPerDay;
    (StartOfDay(now) - StartOfDay(release)) / MsPerDay
  }

  /** Released today or up to seven calendar days ago. */
  predicate RecentlyReleased(m: CardMovie, now: int)
  {
    m.releaseDate.Some? && 0 <= Day(now) - Day(m.releaseDate.value) <= 7
  }

  /** `getStatusBadge()`: the first rule of the chain that applies. */
  function GetStatusBadge(m: CardMovie, now: int): (b: Badge)
    ensures b == ComingSoonRelease <==> m.releaseDate.Some? && Day(m.releaseDate.value) > Day(now)
    ensures b == NewRelease <==> RecentlyReleased(m, now) && m.hasActiveShows == Some(true)
    ensures b == NowShowing <==>
      m.hasActiveShows == Some(true) && !RecentlyReleased(m, now)
      && !(m.releaseDate.Some? && Day(m.releaseDate.value) > Day(now))
    ensures b in {ShowsTomorrow, ComingSoonShows, Expired, NoShows, Available} <==>
      m.hasActiveShows != Some(true) && !(m.releaseDate.Some? && Day(m.releaseDate.value) > Day(now))
    ensures b == ShowsTomorrow ==> m.hasShowsTomorrow == Some(true)
    ensures b == ComingSoonShows ==> m.hasShowsTomorrow != Some(true) && m.hasFutureShows == Some(true)
    ensures b == Expired ==> m.hasShowsTomorrow != Some(true) && m.hasFutureShows == Some(false)
    ensures b == NoShows ==> m.hasShowsTomorrow != Some(true) && m.hasFutureShows.None? && m.hasActiveShows == Some(false)
    ensures b == Available ==> m.hasShowsTomorrow != Some(true) && m.hasFutureShows.None? && m.hasActiveShows.None?
  {
    ReleaseOrder(m.releaseDate, now);
    FlagCases(m.hasActiveShows);
    FlagCases(m.hasFutureShows);
    var today := StartOfDay(now);
    var release := if m.releaseDate.Some? then Some(StartOfDay(m.releaseDate.value)) else None;
    if release.Some? && release.value > today then
      ComingSoonRelease
    else if release.Some? && m.hasActiveShows == Some(true) && 0 <= DaysSinceRelease(m.releaseDate.value, now) <= 7 then
      NewRelease
    else if m.hasActiveShows == Some(true) then NowShowing
    else if m.hasShowsTomorrow == Some(true) then ShowsTomorrow
    else if m.hasFutureShows == Some(true) then ComingSoonShows
    else if m.hasFutureShows == Some(false) then Expired
    else if m.hasActiveShows == Some(false) then NoShows
    else Available
  }

  /** Comparing the two midnights compares the calendar days. */
  lemma {:induction false} MidnightOrder(a: int, b: int)
    ensures StartOfDay(a) > StartOfDay(b) <==> Day(a) > Day(b)
  {
    if Day(a) > Day(b) {
      assert Day(a) * MsPerDay > Day(b) * MsPerDay;
    } else {
      assert Day(a) * MsPerDay <= Day(b) * MsPerDay;
    }
  }

  /** A flag is absent, true or false. */
  lemma FlagCases(f: Option<bool>)
    ensures f == None || f == Some(true) || f == Some(false)
  {
    if f.Some? {
      if f.value {
        assert f == Some(true);
      } else {
        assert f == Some(false);
      }
    }
  }

  lemma ReleaseOrder(release: Option<int>, now: int)
    ensures release.Some? ==> (StartOfDay(release.value) > StartOfDay(now) <==> Day(release.value) > Day(now))
  {
    if release.Some? {
      MidnightOrder(release.value, now);
    }
  }

  /** The card's flags taken from the server's computation. */
  function WithFlags(m: CardMovie, f: MovieStatus.Flags): CardMovie
  {
    m.(hasActiveShows := Some(f.hasActiveShows), hasShowsTomorrow := Some(f.hasShowsTomorrow),
       hasFutureShows := Some(f.hasFutureShows))
  }

  /** When the listing carries all three flags, the two fallback badges never appear. */
  lemma {:induction false} FlagsLeaveNoFallback(m: CardMovie, f: MovieStatus.Flags, now: int)
    ensures GetStatusBadge(WithFlags(m, f), now) != NoShows
    ensures GetStatusBadge(WithFlags(m, f), now) != Available
  {
  }

  /** `genresArr.length ? genresArr.join(', ') : 'Drama/Thriller'`, where `genresArr` is the
      first of `genre` and `genres` that is an array. */
  function GenresText(m: CardMovie): (t: string)
    ensures var arr := if m.genre.Some? then m.genre.value else m.genres.GetOr([]);
      (arr == [] ==> t == "Drama/Thriller") && (arr != [] ==> t == Text.Join(arr, ", "))
  {
    var arr := if m.genre.Some? then m.genre.value else if m.genres.Some? then m.genres.value else [];
    if |arr| > 0 then Text.Join(arr, ", ") else "Drama/Thriller"
  }

  /** The fallback keeps the text non-empty, except for a list holding only an empty genre. */
  lemma GenresTextEmpty(m: CardMovie)
    ensures var arr := if m.genre.Some? then m.genre.value else m.genres.GetOr([]);
      GenresText(m) == "" <==> arr == [""]
  {
    var arr := if m.genre.Some? then m.genre.value else m.genres.GetOr([]);
    if |arr| >= 2 {
      assert Text.Join(arr, ", ") == arr[0] + ", " + Text.Join(arr[1..], ", ");
      assert |Text.Join(arr, ", ")| >= 2;
    } else if |arr| == 1 {
      assert arr == [arr[0]];
    }
  }

  /** `genre` wins over `genres` whenever it is an array. */
  lemma GenreShadowsGenres(m: CardMovie, other: Option<seq<string>>)
    requires m.genre.Some?
    ensures GenresText(m.(genres := other)) == GenresText(m)
  {
  }

  datatype RatingShown = RatingNumber(value: real) | RatingText(text: string)

  /** `movie.ratingsAverage ?? movie.rating ?? '8.7'`. */
  function RatingValue(m: CardMovie): (r: RatingShown)
    ensures m.ratingsAverage.Some? ==> r == RatingNumber(m.ratingsAverage.value)
    ensures m.ratingsAverage.None? && m.rating.Some? ==> r == RatingNumber(m.rating.value)
    ensures r.RatingText? <==> m.ratingsAverage.None? && m.rating.None?
    ensures r.RatingText? ==> r.text == "8.7"
  {
    if m.ratingsAverage.Some? then RatingNumber(m.ratingsAverage.value)
    else if m.rating.Some? then RatingNumber(m.rating.value)
    else RatingText("8.7")
  }

  /** `??` falls back only on a missing value: a stored average of 0 is shown as 0, however
      `rating` is set. */
  lemma ZeroRatingShown(m: CardMovie)
    requires m.ratingsAverage == Some(0.0)
    ensures RatingValue(m) == RatingNumber(0.0)
    ensures RatingValue(m.(rating := None)) == RatingValue(m)
  {
  }
}
