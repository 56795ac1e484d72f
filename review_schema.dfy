/** The review schema (backend/models/Review.js): the rating bounds, the unique (movie, user)
    index, and `calcAverageRatings`, which writes a movie's review count and mean rating onto
    the movie after every save and every `findOneAnd…` query on reviews. */
module ReviewSchema {
  import opened Entities
  import opened Db
  import Seqs

  /** `min: 0, max: 10`. */
  predicate RatingInRange(rating: real) { 0.0 <= rating <= 10.0 }

  function ReviewsOf(movieId: Id): Review -> bool { (v: Review) => v.movie == movieId }

  /** The `$sum` of the aggregation: the ratings of the movie's reviews added up. */
  function RatingSum(reviews: seq<Review>, movieId: Id): real
  {
    if reviews == [] then 0.0
    else (if reviews[0].movie == movieId then reviews[0].rating else 0.0) + RatingSum(reviews[1..], movieId)
  }

  /** `nRatings` of the aggregation: the number of reviews of the movie. */
  function RatingsCount(reviews: seq<Review>, movieId: Id): (n: nat)
    ensures n <= |reviews|
    ensures n == 0 <==> forall v :: v in reviews ==> v.movie != movieId
  {
    Seqs.Count(reviews, ReviewsOf(movieId))
  }

  /** `avgRating || 0`, before rounding: the mean rating of the movie's reviews, or 0 without any. */
  function RatingsAverage(reviews: seq<Review>, movieId: Id): (a: real)
    ensures RatingsCount(reviews, movieId) == 0 ==> a == 0.0
  {
    var n := RatingsCount(reviews, movieId);
    if n == 0 then 0.0 else RatingSum(reviews, movieId) / (n as real)
  }

  /** With every rating in bounds, the mean satisfies the movie schema's `ratingsAverage` bounds. */
  lemma {:induction false} AverageInRange(reviews: seq<Review>, movieId: Id)
    requires forall v :: v in reviews ==> RatingInRange(v.rating)
    ensures 0.0 <= RatingsAverage(reviews, movieId) <= 10.0
  {
    var n := RatingsCount(reviews, movieId);
    if n > 0 {
      RatingSumBounds(reviews, movieId);
      MeanBound(RatingSum(reviews, movieId), n);
    }
  }

  /** With every rating in bounds, the movie's sum lies between 0 and 10 per review. */
  lemma {:induction false} RatingSumBounds(reviews: seq<Review>, movieId: Id)
    requires forall v :: v in reviews ==> RatingInRange(v.rating)
    ensures 0.0 <= RatingSum(reviews, movieId) <= 10.0 * (RatingsCount(reviews, movieId) as real)
  {
    if reviews != [] {
      var t := reviews[1..];
      assert forall v :: v in t ==> RatingInRange(v.rating) by {
        forall v | v in t ensures RatingInRange(v.rating) {
          assert v in reviews;
        }
      }
      RatingSumBounds(t, movieId);
      assert reviews[0] in reviews;
      assert RatingsCount(reviews, movieId) == (if reviews[0].movie == movieId then 1 else 0) + RatingsCount(t, movieId);
    }
  }

  lemma MeanBound(sum: real, n: int)
    requires 0 < n && 0.0 <= sum <= 10.0 * (n as real)
    ensures 0.0 <= sum / (n as real) <= 10.0
  {
    var q := sum / (n as real);
    assert q * (n as real) == sum;
    if q > 10.0 {
      assert q * (n as real) > 10.0 * (n as real);
    }
  }

  /** A new review of the movie adds one to its count; a review of another movie adds nothing. */
  lemma {:induction false} CountAfterAppend(reviews: seq<Review>, v: Review, movieId: Id)
    ensures RatingsCount(reviews + [v], movieId) == RatingsCount(reviews, movieId) + (if v.movie == movieId then 1 else 0)
  {
    Seqs.CountConcat(reviews, [v], ReviewsOf(movieId));
  }

  /** `Movie.findByIdAndUpdate(movieId, {ratingsCount, ratingsAverage})` on the movie collection. */
  function WithRatings(movies: seq<Movie>, movieId: Id, count: nat, average: real): (r: seq<Movie>)
    ensures |r| == |movies|
    ensures forall i :: 0 <= i < |movies| && movies[i].id != movieId ==> r[i] == movies[i]
    ensures forall i :: 0 <= i < |movies| && movies[i].id == movieId ==>
      r[i] == movies[i].(ratingsCount := count, ratingsAverage := average)
  {
    if movies == [] then []
    else
      var m := movies[0];
      [if m.id == movieId then m.(ratingsCount := count, ratingsAverage := average) else m]
        + WithRatings(movies[1..], movieId, count, average)
  }

  /** `calcAverageRatings(movieId)`: recompute from the review collection as it now is. */
  method CalcAverageRatings(db: Store, movieId: Id)
    modifies db
    ensures db.movies == WithRatings(old(db.movies), movieId, RatingsCount(db.reviews, movieId), RatingsAverage(db.reviews, movieId))
    ensures db.reviews == old(db.reviews) && db.showtimes == old(db.showtimes) && db.theaters == old(db.theaters)
    ensures db.bookings == old(db.bookings) && db.nextId == old(db.nextId)
  {
    var n := RatingsCount(db.reviews, movieId);
    if n > 0 {
      db.movies := WithRatings(db.movies, movieId, n, RatingsAverage(db.reviews, movieId));
    } else {
      db.movies := WithRatings(db.movies, movieId, 0, 0.0);
    }
  }

  /** After a recomputation every copy of the movie carries the exact review count, and 0 / 0 when
      it has no reviews. */
  lemma {:induction false} RecomputedCounts(movies: seq<Movie>, reviews: seq<Review>, movieId: Id)
    ensures var r := WithRatings(movies, movieId, RatingsCount(reviews, movieId), RatingsAverage(reviews, movieId));
      forall m :: m in r && m.id == movieId ==>
        m.ratingsCount == RatingsCount(reviews, movieId)
        && ((forall v :: v in reviews ==> v.movie != movieId) ==> m.ratingsCount == 0 && m.ratingsAverage == 0.0)
  {
    var r := WithRatings(movies, movieId, RatingsCount(reviews, movieId), RatingsAverage(reviews, movieId));
    forall m | m in r && m.id == movieId
      ensures m.ratingsCount == RatingsCount(reviews, movieId)
    {
      var i :| 0 <= i < |r| && r[i] == m;
      assert movies[i].id == movieId;
    }
  }
}
