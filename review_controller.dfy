/** The review controller (backend/controllers/review.controller.js): the guard chain of
    `createReview`, and the owner-or-admin rule with the partial update of `updateReview` and
    `deleteReview`. Each successful write is followed by the schema's rating recomputation. */
module ReviewController {
  import opened Wrappers
  import opened Entities
  import opened Db
  import Seqs
  import Text
  import ReviewSchema

  datatype ReviewError =
    | RatingRequired
    | NoShowtimes
    | NotBooked
    | RatingInvalid
    | AlreadyReviewed
    | ReviewNotFound
    | NotAuthorized
  {
    /** The HTTP status the handler answers with. A failed schema validation is passed on to the
        error middleware, which is not part of this model. */
    function Status(): Option<int>
    {
      match this
      case RatingRequired => Some(400)
      case NoShowtimes => Some(400)
      case NotBooked => Some(403)
      case RatingInvalid => None
      case AlreadyReviewed => Some(400)
      case ReviewNotFound => Some(404)
      case NotAuthorized => Some(403)
    }
  }

  /** `Showtime.find({movie}).distinct('_id')` is not empty (active or not). */
  predicate HasShowtimes(showtimes: seq<Showtime>, movieId: Id)
  {
    exists s :: s in showtimes && s.movie == movieId
  }

  /** `Booking.exists({user, paymentStatus: 'paid', showtime: {$in: showtimeIds}})`. */
  predicate HasPaidBooking(bookings: seq<Booking>, showtimes: seq<Showtime>, user: Id, movieId: Id)
  {
    exists b, s :: b in bookings && s in showtimes && b.user == user && b.paymentStatus == "paid"
      && s.movie == movieId && s.id == b.showtime
  }

  predicate AlreadyHasReview(reviews: seq<Review>, movieId: Id, user: Id)
  {
    exists v :: v in reviews && v.movie == movieId && v.user == user
  }

  /** The stored comment: the schema default `''`, and `trim: true`. `None` stands for an omitted
      comment; a `comment: null`, which the source stores as null, is not distinguished. */
  function StoredComment(comment: Option<string>): string
  {
    if comment.None? then "" else Text.Trim(comment.value)
  }

  /** The outcome of `createReview` on the given collections. */
  function PlanReview(showtimes: seq<Showtime>, bookings: seq<Booking>, reviews: seq<Review>, nextId: Id,
                      movieId: Id, user: Id, rating: Option<real>, comment: Option<string>): (r: Result<Review, ReviewError>)
  {
    if rating.None? then Failure(RatingRequired)
    else if !HasShowtimes(showtimes, movieId) then Failure(NoShowtimes)
    else if !HasPaidBooking(bookings, showtimes, user, movieId) then Failure(NotBooked)
    else if !ReviewSchema.RatingInRange(rating.value) then Failure(RatingInvalid)
    else if AlreadyHasReview(reviews, movieId, user) then Failure(AlreadyReviewed)
    else Success(Review(nextId, movieId, user, rating.value, StoredComment(comment)))
  }

  /** The guards in their order, with their statuses, and what an accepted review holds. */
  lemma {:induction false} CreateGuards(showtimes: seq<Showtime>, bookings: seq<Booking>, reviews: seq<Review>, nextId: Id,
                                        movieId: Id, user: Id, rating: Option<real>, comment: Option<string>)
    ensures var r := PlanReview(showtimes, bookings, reviews, nextId, movieId, user, rating, comment);
      && (rating.None? ==> r == Failure(RatingRequired) && r.error.Status() == Some(400))
      && (rating.Some? && !HasShowtimes(showtimes, movieId) ==> r == Failure(NoShowtimes) && r.error.Status() == Some(400))
      && ((rating.Some? && HasShowtimes(showtimes, movieId) && !HasPaidBooking(bookings, showtimes, user, movieId))
          ==> r == Failure(NotBooked) && r.error.Status() == Some(403))
      && (r == Failure(AlreadyReviewed) ==> r.error.Status() == Some(400) && AlreadyHasReview(reviews, movieId, user))
      && (r.Success? <==>
            rating.Some? && HasPaidBooking(bookings, showtimes, user, movieId) && ReviewSchema.RatingInRange(rating.value)
            && !AlreadyHasReview(reviews, movieId, user))
      && (r.Success? ==>
            r.value.movie == movieId && r.value.user == user && r.value.rating == rating.value
            && Text.IsTrimmed(r.value.comment))
  {
    if rating.Some? && HasPaidBooking(bookings, showtimes, user, movieId) {
      var b, s :| b in bookings && s in showtimes && b.user == user && b.paymentStatus == "paid"
        && s.movie == movieId && s.id == b.showtime;
      assert HasShowtimes(showtimes, movieId);
    }
  }

  /** Whatever PlanReview accepts keeps the collection within its unique index and its id rules. */
  lemma {:induction false} AcceptedReviewKeepsIndex(showtimes: seq<Showtime>, bookings: seq<Booking>, reviews: seq<Review>,
                                                    nextId: Id, movieId: Id, user: Id, rating: Option<real>, comment: Option<string>)
    requires OneReviewPerPair(reviews) && ReviewIdsBelow(reviews, nextId) && Seqs.DistinctBy(reviews, ReviewId)
    requires PlanReview(showtimes, bookings, reviews, nextId, movieId, user, rating, comment).Success?
    ensures var v := PlanReview(showtimes, bookings, reviews, nextId, movieId, user, rating, comment).value;
      OneReviewPerPair(reviews + [v]) && ReviewIdsBelow(reviews + [v], nextId + 1) && Seqs.DistinctBy(reviews + [v], ReviewId)
  {
    var v := PlanReview(showtimes, bookings, reviews, nextId, movieId, user, rating, comment).value;
    var s := reviews + [v];
    forall i, j | 0 <= i < j < |s| ensures ReviewPair(s[i]) != ReviewPair(s[j]) && ReviewId(s[i]) != ReviewId(s[j]) {
      if j == |reviews| {
        assert s[i] in reviews;
      } else {
        assert s[i] == reviews[i] && s[j] == reviews[j];
      }
    }
  }

  /** `createReview`: the guards, then the insert and the post-save recomputation. */
  method CreateReview(db: Store, movieId: Id, user: Id, rating: Option<real>, comment: Option<string>)
    returns (r: Result<Review, ReviewError>)
    requires db.Valid()
    modifies db
    ensures db.Valid()
    ensures r == PlanReview(old(db.showtimes), old(db.bookings), old(db.reviews), old(db.nextId), movieId, user, rating, comment)
    ensures r.Failure? ==> db.reviews == old(db.reviews) && db.movies == old(db.movies) && db.nextId == old(db.nextId)
    ensures r.Success? ==>
      && db.reviews == old(db.reviews) + [r.value]
      && db.nextId == old(db.nextId) + 1
      && db.movies == ReviewSchema.WithRatings(old(db.movies), movieId,
           ReviewSchema.RatingsCount(db.reviews, movieId), ReviewSchema.RatingsAverage(db.reviews, movieId))
    ensures db.showtimes == old(db.showtimes) && db.theaters == old(db.theaters) && db.bookings == old(db.bookings)
  {
    r := PlanReview(db.showtimes, db.bookings, db.reviews, db.nextId, movieId, user, rating, comment);
    if r.Success? {
      AcceptedReviewKeepsIndex(db.showtimes, db.bookings, db.reviews, db.nextId, movieId, user, rating, comment);
      db.reviews := db.reviews + [r.value];
      db.nextId := db.nextId + 1;
      ReviewSchema.CalcAverageRatings(db, movieId);
    }
  }

  // ---------------------------------------------------------------- update and delete

  /** The lookup and the owner-or-admin rule shared by update and delete. */
  function Access(reviews: seq<Review>, id: Id, requester: Id, role: string): (r: Result<Review, ReviewError>)
    ensures r == Failure(ReviewNotFound) <==> forall v :: v in reviews ==> v.id != id
    ensures r == Failure(NotAuthorized) ==> exists v :: v in reviews && v.id == id && v.user != requester && role != "admin"
    ensures r.Success? ==> r.value in reviews && r.value.id == id && (r.value.user == requester || role == "admin")
    ensures r.Failure? ==> r.error == ReviewNotFound || r.error == NotAuthorized
  {
    var found := FindReview(reviews, id);
    if found.None? then Failure(ReviewNotFound)
    else if found.value.user != requester && role != "admin" then Failure(NotAuthorized)
    else Success(found.value)
  }

  /** An admin may act on any existing review. */
  lemma {:induction false} AdminMayAct(reviews: seq<Review>, id: Id, requester: Id)
    requires exists v :: v in reviews && v.id == id
    ensures Access(reviews, id, requester, "admin").Success?
  {
    var v :| v in reviews && v.id == id;
    assert Access(reviews, id, requester, "admin") != Failure(ReviewNotFound);
  }

  /** `if (rating != null) review.rating = rating; if (comment != null) review.comment = comment;` */
  function Patch(v: Review, rating: Option<real>, comment: Option<string>): (p: Review)
    ensures p.id == v.id && p.movie == v.movie && p.user == v.user
    ensures rating.Some? ==> p.rating == rating.value
    ensures rating.None? ==> p.rating == v.rating
    ensures comment.Some? ==> p.comment == Text.Trim(comment.value)
    ensures comment.None? ==> p.comment == v.comment
  {
    v.(rating := if rating.Some? then rating.value else v.rating,
       comment := if comment.Some? then Text.Trim(comment.value) else v.comment)
  }

  /** An empty body leaves the review as it is, and repeating an update changes nothing more. */
  lemma PatchLaws(v: Review, rating: Option<real>, comment: Option<string>)
    ensures Patch(v, None, None) == v
    ensures Patch(Patch(v, rating, comment), rating, comment) == Patch(v, rating, comment)
  {
    if comment.Some? {
      Text.TrimOfTrimmed(Text.Trim(comment.value));
    }
  }

  function PlanUpdate(reviews: seq<Review>, id: Id, requester: Id, role: string, rating: Option<real>, comment: Option<string>)
    : (r: Result<Review, ReviewError>)
    ensures r == Failure(ReviewNotFound) <==> forall v :: v in reviews ==> v.id != id
    ensures Access(reviews, id, requester, role).Failure? ==> r == Access(reviews, id, requester, role)
    ensures r == Failure(NotAuthorized) ==> exists v :: v in reviews && v.id == id && v.user != requester && role != "admin"
    ensures r.Success? ==> exists v :: v in reviews && v.id == id && r.value == Patch(v, rating, comment)
    ensures r.Success? ==> ReviewSchema.RatingInRange(r.value.rating)
    ensures Access(reviews, id, requester, role).Success? ==>
      (r.Failure? <==> !ReviewSchema.RatingInRange(Patch(Access(reviews, id, requester, role).value, rating, comment).rating))
  {
    var a := Access(reviews, id, requester, role);
    if a.Failure? then a
    else
      var p := Patch(a.value, rating, comment);
      if !ReviewSchema.RatingInRange(p.rating) then Failure(RatingInvalid) else Success(p)
  }

  /** `review.save()` on an existing document replaces the record with that id
      (`Seqs.ReplaceByKey` on `ReviewId`). Replacing a stored review by one with its id, movie
      and user keeps every index of the store. */
  lemma {:induction false} ReplaceKeepsIndex(reviews: seq<Review>, old_v: Review, v: Review, bound: nat)
    requires old_v in reviews && old_v.id == v.id && old_v.movie == v.movie && old_v.user == v.user
    requires Seqs.DistinctBy(reviews, ReviewId) && OneReviewPerPair(reviews) && ReviewIdsBelow(reviews, bound)
    ensures Seqs.DistinctBy(Seqs.ReplaceByKey(reviews, ReviewId, v), ReviewId) && OneReviewPerPair(Seqs.ReplaceByKey(reviews, ReviewId, v))
    ensures ReviewIdsBelow(Seqs.ReplaceByKey(reviews, ReviewId, v), bound)
  {
    var r := Seqs.ReplaceByKey(reviews, ReviewId, v);
    ReplaceKeepsKeys(reviews, old_v, v);
    assert Seqs.DistinctBy(r, ReviewId) by {
      forall i, j | 0 <= i < j < |r| ensures ReviewId(r[i]) != ReviewId(r[j]) {
        assert ReviewId(reviews[i]) != ReviewId(reviews[j]);
      }
    }
    assert OneReviewPerPair(r) by {
      forall i, j | 0 <= i < j < |r| ensures ReviewPair(r[i]) != ReviewPair(r[j]) {
        assert ReviewPair(reviews[i]) != ReviewPair(reviews[j]);
      }
    }
    forall x | x in r ensures x.id < bound {
      var i :| 0 <= i < |r| && r[i] == x;
      assert reviews[i] in reviews;
    }
  }

  /** The replacement keeps, at every index, the id, the movie and the user. */
  lemma ReplaceKeepsKeys(reviews: seq<Review>, old_v: Review, v: Review)
    requires old_v in reviews && old_v.id == v.id && old_v.movie == v.movie && old_v.user == v.user
    requires Seqs.DistinctBy(reviews, ReviewId)
    ensures var r := Seqs.ReplaceByKey(reviews, ReviewId, v);
      forall i :: 0 <= i < |r| ==> r[i].id == reviews[i].id && ReviewPair(r[i]) == ReviewPair(reviews[i])
  {
    var r := Seqs.ReplaceByKey(reviews, ReviewId, v);
    var k :| 0 <= k < |reviews| && reviews[k] == old_v;
    forall i | 0 <= i < |r| ensures r[i].id == reviews[i].id && ReviewPair(r[i]) == ReviewPair(reviews[i]) {
      if reviews[i].id == v.id {
        assert ReviewId(reviews[i]) == ReviewId(reviews[k]);
        assert reviews[i] == old_v;
      }
    }
  }

  /** `updateReview`: 404, then 403, then the partial update, validation, save and recomputation. */
  method UpdateReview(db: Store, id: Id, requester: Id, role: string, rating: Option<real>, comment: Option<string>)
    returns (r: Result<Review, ReviewError>)
    requires db.Valid()
    modifies db
    ensures db.Valid()
    ensures r == PlanUpdate(old(db.reviews), id, requester, role, rating, comment)
    ensures r.Failure? ==> db.reviews == old(db.reviews) && db.movies == old(db.movies)
    ensures r.Success? ==>
      && db.reviews == Seqs.ReplaceByKey(old(db.reviews), ReviewId, r.value)
      && db.movies == ReviewSchema.WithRatings(old(db.movies), r.value.movie,
           ReviewSchema.RatingsCount(db.reviews, r.value.movie), ReviewSchema.RatingsAverage(db.reviews, r.value.movie))
    ensures db.showtimes == old(db.showtimes) && db.theaters == old(db.theaters) && db.bookings == old(db.bookings)
    ensures db.nextId == old(db.nextId)
  {
    var a := Access(db.reviews, id, requester, role);
    r := PlanUpdate(db.reviews, id, requester, role, rating, comment);
    if r.Success? {
      ReplaceKeepsIndex(db.reviews, a.value, r.value, db.nextId);
      db.reviews := Seqs.ReplaceByKey(db.reviews, ReviewId, r.value);
      ReviewSchema.CalcAverageRatings(db, r.value.movie);
    }
  }

  function OtherReview(id: Id): Review -> bool { (v: Review) => v.id != id }

  /** `deleteReview`: 404, then 403, then `findByIdAndDelete`, whose post-query hook recomputes the
      movie's ratings. */
  method DeleteReview(db: Store, id: Id, requester: Id, role: string) returns (r: Result<Review, ReviewError>)
    requires db.Valid()
    modifies db
    ensures db.Valid()
    ensures r == Access(old(db.reviews), id, requester, role)
    ensures r.Failure? ==> db.reviews == old(db.reviews) && db.movies == old(db.movies)
    ensures r.Success? ==>
      && db.reviews == Seqs.Filter(old(db.reviews), OtherReview(id))
      && (forall v :: v in db.reviews ==> v.id != id)
      && db.movies == ReviewSchema.WithRatings(old(db.movies), r.value.movie,
           ReviewSchema.RatingsCount(db.reviews, r.value.movie), ReviewSchema.RatingsAverage(db.reviews, r.value.movie))
    ensures db.showtimes == old(db.showtimes) && db.theaters == old(db.theaters) && db.bookings == old(db.bookings)
    ensures db.nextId == old(db.nextId)
  {
    r := Access(db.reviews, id, requester, role);
    if r.Success? {
      Seqs.FilterKeepsDistinct(db.reviews, OtherReview(id), ReviewId);
      Seqs.FilterKeepsDistinct(db.reviews, OtherReview(id), ReviewPair);
      db.reviews := Seqs.Filter(db.reviews, OtherReview(id));
      ReviewSchema.CalcAverageRatings(db, r.value.movie);
    }
  }

  /** Deleting a review of a movie lowers that movie's review count by exactly one. */
  lemma {:induction false} DeleteLowersCount(reviews: seq<Review>, id: Id)
    requires Seqs.DistinctBy(reviews, ReviewId)
    requires exists v :: v in reviews && v.id == id
    ensures var v := FindReview(reviews, id).value;
      ReviewSchema.RatingsCount(Seqs.Filter(reviews, OtherReview(id)), v.movie) + 1 == ReviewSchema.RatingsCount(reviews, v.movie)
  {
    var v := FindReview(reviews, id).value;
    var k :| 0 <= k < |reviews| && reviews[k] == v;
    forall i | 0 <= i < |reviews| && i != k ensures OtherReview(id)(reviews[i]) {
      assert ReviewId(reviews[i]) != ReviewId(reviews[k]);
    }
    Seqs.CountFilterDropsOne(reviews, OtherReview(id), ReviewSchema.ReviewsOf(v.movie), k);
  }
}
