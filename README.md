# CineGo showtime inventory — a Dafny model

CineGo is a cinema booking system: an Express/Mongoose backend that keeps movies, theaters,
showtimes, bookings and reviews, and a React client for browsing, picking seats and managing
theaters. This project models the part of it that decides things:

- **the status engine**: the five-way live / starting-soon / upcoming-today / upcoming / completed
  classification of a showtime against the current instant, the status filter and the two-key sort;
- **the scheduler**: `createShowtime`'s lookups, its half-open overlap test per theater and screen,
  the calendar-day expansion of a multi-day request capped at 90 days, and the all-or-nothing insert;
  the time-window queries, `deleteShowtime` and the `getAvailableSeats` seat map;
- **the migration script** that expands old multi-day records with the same day loop;
- **the movie show-status flags** (shows today, tomorrow, in the future) and the movie card badges;
- **the store rules**: the movie and theater delete cascades, the `showtimes` joins, the review
  guard chain, one review per movie and user, the owner-or-admin rule and the ratings count;
- **the validators** of the user, movie, theater and review schemas;
- **the client's small state machines**: the auth reducer, the route guard, the role redirects, the
  post-login destination, the seat picker, and the comma-separated facilities field;
- **the admin dashboard**: the paid-booking figures and the seven-day revenue chart with its gaps
  filled with 0.

Conventions used throughout:

- Instants are integer milliseconds. The current instant `now` is a parameter, never read from
  a clock. A calendar day is `t / 86400000` in one fixed zone, and the time of day is `t % 86400000`.
- The database is the class `Db.Store` (file `entities.dfy`). Its fields are sequences of records
  and a counter that hands out fresh ids. Query helpers are functions over those sequences.
- Controller work that changes the store is a method with `modifies db`. Its `ensures` ties the new
  store to a pure function of the old one (`ShowtimeController.Plan`, `ReviewController.PlanReview`,
  …), and the lemmas are stated about that function.
- Each client component is a function of its props and store state. The in-place parts have classes
  that hold the component's state: the auth slice (`AuthSlice.AuthState`) and the seat picker
  (`SeatSelection.SeatPicker`).
- A handler's error is the `Failure` case of a `Result` (module `Wrappers`). Its value is an error
  datatype of the controller, and that datatype's `Code` or `Status` gives the HTTP status.

Files, one module each unless noted:

| file | module | source |
|---|---|---|
| wrappers.dfy | Wrappers | `Option`, `Result` and HTTP error values |
| seqs.dfy | Seqs | filters, counts, sums and distinctness over sequences |
| text.dfy | Text | trimming, splitting, joining, ASCII lower case, decimal rendering |
| clock.dfy | Clock | days, time of day, the 90-day loop guard |
| entities.dfy | Entities, Db | the records and the store |
| showtime_status.dfy | ShowtimeStatus | backend/utils/calculateShowtimeStatus.js |
| showtime_controller.dfy | ShowtimeController | backend/controllers/showtime.controller.js |
| migration.dfy | Migration | backend/migrate-existing-shows.js |
| movie_status.dfy | MovieStatus | backend/utils/calculateMovieStatus.js |
| movie_controller.dfy | MovieController | backend/controllers/movie.controller.js |
| movie_schema.dfy | MovieSchema | backend/models/Movie.js |
| theater_schema.dfy | TheaterSchema | backend/models/Theater.js |
| user_schema.dfy | UserSchema | backend/models/User.js |
| review_schema.dfy | ReviewSchema | backend/models/Review.js |
| review_controller.dfy | ReviewController | backend/controllers/review.controller.js |
| dashboard.dfy | Dashboard | backend/controllers/dashboard.controller.js |
| seat_selection.dfy | SeatSelection | frontend/src/pages/SeatSelection.jsx |
| movie_card.dfy | MovieCard | frontend/src/components/MovieCard.jsx |
| auth_slice.dfy | AuthSlice | frontend/src/store/authSlice.js |
| protected_route.dfy | ProtectedRoute | frontend/src/components/ProtectedRoute.jsx |
| auth_redirect.dfy | AuthRedirect | frontend/src/components/AuthRedirect.jsx |
| sign_in.dfy | SignIn | frontend/src/pages/SignIn.jsx |
| manage_theaters.dfy | ManageTheaters | frontend/src/pages/manager/ManageTheaters.jsx |

## Model

| member | source | states |
|---|---|---|
| ShowtimeStatus.GetShowtimeStatus | backend/utils/calculateShowtimeStatus.js:11-80 | total five-way classification: live exactly when start <= now <= end; starting-soon exactly when 1 <= minutes-until-start <= 30, upcoming-today for 31..120, upcoming above 120, completed otherwise (including a start under one minute ahead); each tag carries its label, colour, description parts and sort order 1..5; the upcoming label is Today / Tomorrow / Upcoming by calendar day |
| ShowtimeStatus.AddStatusToShowtimes | backend/utils/calculateShowtimeStatus.js:87-97 | same length and order; element i is showtime i with the status computed from its own start and end |
| ShowtimeStatus.AnnotationAddsOnlyStatus | backend/utils/calculateShowtimeStatus.js:92-95 | removing the added `realtimeStatus` gives back the input list unchanged |
| ShowtimeStatus.AnnotatedAreComputed | backend/utils/calculateShowtimeStatus.js:88-96 | every annotated element carries a status whose sort order matches its tag |
| ShowtimeStatus.FilterShowtimesByStatus | backend/utils/calculateShowtimeStatus.js:105-111 | an absent, empty or 'all' filter returns the input itself; any other filter keeps exactly the elements whose status name equals it |
| ShowtimeStatus.FilterByStatusConcat | backend/utils/calculateShowtimeStatus.js:110 | the filter distributes over concatenation, so it keeps the input order |
| ShowtimeStatus.UnknownFilterKeepsNothing | backend/utils/calculateShowtimeStatus.js:110 | a filter that names none of the five statuses returns the empty list |
| ShowtimeStatus.InOrderTransitive | backend/utils/calculateShowtimeStatus.js:119-129 | the comparator (sort order with 999 for a missing one, then start time) is transitive |
| ShowtimeStatus.SortShowtimesByStatus | backend/utils/calculateShowtimeStatus.js:118-130 | the array is sorted in place by sort order, then start time, and is a permutation of its old contents |
| ShowtimeStatus.InsertInto | backend/utils/calculateShowtimeStatus.js:119-129 | one insertion step extends the sorted prefix by one element and keeps the multiset |
| ShowtimeStatus.SortedTagsInOrder | backend/utils/calculateShowtimeStatus.js:119-125 | in a sorted annotated list the tags never decrease in sort order, so live shows come first |
| ShowtimeController.GetCurrentShowtimes | backend/controllers/showtime.controller.js:11-22 | keeps exactly the records starting no later than an hour from now and ending no earlier than an hour ago |
| ShowtimeController.GetUpcomingShowtimes | backend/controllers/showtime.controller.js:39-48 | exactly the records starting strictly after now (as a multiset of the filter), sorted by start time ascending |
| ShowtimeController.GetPastShowtimes | backend/controllers/showtime.controller.js:93-102 | exactly the records that ended strictly before now, sorted by start time descending |
| ShowtimeController.LiveIsCurrent | backend/controllers/showtime.controller.js:14-19 | a show the status engine calls live always lies in the current window |
| ShowtimeController.PastIsCompleted | backend/controllers/showtime.controller.js:97-99 | a well-formed show in the past window is classified completed |
| ShowtimeController.UpcomingStatus | backend/controllers/showtime.controller.js:43-45 | an upcoming show is never live, and is completed exactly when it starts less than a minute from now |
| ShowtimeController.FindOverlap | backend/controllers/showtime.controller.js:241-246 | none found exactly when no record on the same theater and screen key has start < end' and end > start'; a found record is such a one |
| ShowtimeController.LoopDays | backend/controllers/showtime.controller.js:224-232 | the number of day-loop iterations lies in 1..90 |
| ShowtimeController.Batch | backend/controllers/showtime.controller.js:257-267 | n records, record k being the day-k record with id firstId + k |
| ShowtimeController.FirstConflictFrom | backend/controllers/showtime.controller.js:232-255 | days before d that do not conflict do not change which day conflicts first |
| ShowtimeController.FirstConflictSound | backend/controllers/showtime.controller.js:241-255 | a reported conflict on day k is a real overlap with a stored record, and no earlier day conflicts |
| ShowtimeController.FirstConflictNone | backend/controllers/showtime.controller.js:241-255 | no reported conflict means no day of the loop overlaps a stored record |
| ShowtimeController.CreateShowtime | backend/controllers/showtime.controller.js:181-323 | the result equals the plan on the old store; on success exactly the planned batch is appended with fresh consecutive ids, on failure nothing changes; the other collections never change |
| ShowtimeController.ExpandDays | backend/controllers/showtime.controller.js:221-277 | the day loop returns what the multi-day plan specifies, with ids handed out consecutively |
| ShowtimeController.InsertShowtimes | backend/controllers/showtime.controller.js:310 | the batch is appended and nothing else changes |
| ShowtimeController.PlanLookups | backend/controllers/showtime.controller.js:186-206 | unknown movie: 404; unknown theater: 404; a screen matching neither name nor id: 400; each checked in that order |
| ShowtimeController.PlanSuccessNeedsScreen | backend/controllers/showtime.controller.js:186-211 | a successful creation had an existing movie and a matching screen |
| ShowtimeController.PlanSingle | backend/controllers/showtime.controller.js:278-306 | single mode succeeds exactly when no record overlaps; the one record carries the request's movie, theater, screen, times and price, no end date, `availableSeats` and `totalSeats` both the seat override or else the screen's capacity, and `isActive` unless false was sent; otherwise 400 naming a stored record |
| ShowtimeController.PlanMultiDay | backend/controllers/showtime.controller.js:221-270 | one record per calendar day from the start's day to the end date's day (fewer than 90), record k on day Day(start)+k at the start's and end's hour:minute, with the request's movie, theater, screen and price |
| ShowtimeController.PlanCap | backend/controllers/showtime.controller.js:223-277 | a span of 90 or more days always fails with 400, and with the cap error when none of the first 90 days conflicts |
| ShowtimeController.PlanConflictAborts | backend/controllers/showtime.controller.js:241-310 | a conflict on any day of the loop fails the whole request with 400, so nothing of the batch is inserted |
| ShowtimeController.PlanSeats | backend/controllers/showtime.controller.js:264-305 | both seat counters equal `availableSeats` or, when that is absent or 0, the screen capacity; `isActive` defaults to true |
| ShowtimeController.BatchDaysDisjoint | backend/controllers/showtime.controller.js:232-270 | two records of one batch lie on different days and never overlap each other |
| ShowtimeController.PlanKeepsScreensFree | backend/controllers/showtime.controller.js:241-310 | when no two stored records overlap on one theater and screen key, the store after a successful creation still has none |
| ShowtimeController.DeleteShowtime | backend/controllers/showtime.controller.js:359-374 | 404 exactly when no record has the id, leaving the store as it was; otherwise that record is removed and nothing else changes |
| ShowtimeController.RemoveShowtimes | backend/controllers/showtime.controller.js:361 | the store keeps exactly the records the predicate keeps, in order; nothing else changes |
| ShowtimeController.BookedKeys | backend/controllers/showtime.controller.js:402-407 | a key is present exactly when some seat of some booking has it |
| ShowtimeController.BookedKeysConcat | backend/controllers/showtime.controller.js:403-407 | the collected keys of two booking lists are the concatenation of each list's keys |
| ShowtimeController.CollectBookedSeats | backend/controllers/showtime.controller.js:402-407 | the nested loop collects exactly the booked keys, in order |
| ShowtimeController.GetAvailableSeats | backend/controllers/showtime.controller.js:379-438 | 404 for an unknown showtime or a screen missing from the theater; otherwise one row per layout entry of that row's width, every cell at the showtime's price, booked exactly when its key is among the showtime's booking keys, and `totalSeats` is the screen capacity |
| ShowtimeController.CellKeyInjective | backend/controllers/showtime.controller.js:414 | a cell key `r-s` names exactly one (row, seat) pair |
| Migration.ToMigrate | backend/migrate-existing-shows.js:27-29 | exactly the records that carry an end date |
| Migration.ShowDays | backend/migrate-existing-shows.js:66-78 | the day loop runs between 1 and 90 iterations |
| Migration.Copies | backend/migrate-existing-shows.js:78-103 | n - 1 records, one per loop day after the first, with consecutive ids |
| Migration.ExpandShow | backend/migrate-existing-shows.js:65-103 | the imperative day loop builds exactly the copies for the show's capped day count |
| Migration.MigrateOne | backend/migrate-existing-shows.js:36-109 | one loop iteration changes the store, id counter and summary counters exactly as one step of the reference run |
| Migration.MigrateShows | backend/migrate-existing-shows.js:27-119 | the store, id counter, migrated and skipped counts and the abort flag after the loop equal the reference run over the records with an end date; movies, theaters, bookings and reviews never change |
| Migration.RunSnoc | backend/migrate-existing-shows.js:36 | the run over one more record is one more step of the run |
| Migration.RunStaysAborted | backend/migrate-existing-shows.js:117-119 | once a record throws, the remaining records change nothing |
| Migration.SkipWhenNotAfterStart | backend/migrate-existing-shows.js:40-44 | a show whose end date is at or before its start only increments the skipped count |
| Migration.SkipWhenExpanded | backend/migrate-existing-shows.js:46-62 | a show with more than one record of the same movie, theater and screen in its day span only increments the skipped count |
| Migration.CopiesShape | backend/migrate-existing-shows.js:75-103 | an expansion yields (capped days - 1) records, record d on day Day(start)+d+1 at the original start and end hour:minute |
| Migration.RunOnlyAppends | backend/migrate-existing-shows.js:105-106 | the final store begins with the initial store, so no record, the originals included, is modified or removed |
| Migration.RunCountsInserts | backend/migrate-existing-shows.js:105-109 | the migrated count equals the number of records added, each with a fresh id, and at most one skip per record |
| MovieStatus.TomorrowIsNextDay | backend/utils/calculateMovieStatus.js:16-24 | tomorrow's window is the whole next calendar day and starts after today's window ends |
| MovieStatus.AnyStartsWithin | backend/utils/calculateMovieStatus.js:88-93 | true exactly when some show starts within [lo, hi] |
| MovieStatus.AnyStartsAfter | backend/utils/calculateMovieStatus.js:94 | true exactly when some show starts strictly after now |
| MovieStatus.WindowsAreDays | backend/utils/calculateMovieStatus.js:62-72 | a start lies in today's window exactly when it is on today's day, and in tomorrow's exactly when on the next day |
| MovieStatus.FlagsOf | backend/utils/calculateMovieStatus.js:87-95 | hasActiveShows: some show starts today; hasShowsTomorrow: some show starts tomorrow; hasFutureShows: some show starts after now |
| MovieStatus.FlagsOfMembers | backend/utils/calculateMovieStatus.js:88-94 | the flags depend only on which showtimes are present |
| MovieStatus.CalculateMovieStatus | backend/utils/calculateMovieStatus.js:8-52 | each flag holds exactly when an active showtime of that movie starts today, tomorrow, or after now |
| MovieStatus.TomorrowIsFuture | backend/utils/calculateMovieStatus.js:20-45 | a movie with a show tomorrow has a future show |
| MovieStatus.InactiveIgnored | backend/utils/calculateMovieStatus.js:30-44 | adding an inactive showtime never changes the flags |
| MovieStatus.CalculateMultipleMovieStatuses | backend/utils/calculateMovieStatus.js:59-99 | the map has a key for exactly the requested ids, each entry equal to the single-movie computation on the same data |
| MovieController.ParseView | backend/controllers/movie.controller.js:20-108 | 'active' and 'now-showing' pick the active view, 'new' the new view, 'upcoming' and 'coming-soon' the coming-soon view, 'inactive' the inactive view, anything else all movies |
| MovieController.GetAllMovies | backend/controllers/movie.controller.js:10-120 | a movie is listed exactly when it is stored and the chosen view's query matches it; the fall-through view lists the whole collection |
| MovieController.SelectAll | backend/controllers/movie.controller.js:95-97 | the fall-through query keeps every movie |
| MovieController.NewViewIsEmpty | backend/controllers/movie.controller.js:17-54 | the `new` view lists nothing, because its release window (at least seven days after now and at most now) is empty |
| MovieController.ActiveAndComingSoon | backend/controllers/movie.controller.js:24-81 | a movie is now showing exactly when it has an active showtime starting at or after now, and no coming-soon movie is now showing |
| MovieController.DeleteMovie | backend/controllers/movie.controller.js:205-236 | 404 exactly for an unknown id, changing nothing; otherwise all of the movie's showtimes and then the movie are removed, and nothing else changes |
| MovieController.GetMovieShowtimes | backend/controllers/movie.controller.js:242-266 | 404 exactly for an unknown movie; otherwise exactly the movie's showtimes starting at or after now, sorted by start time |
| MovieController.MovieShowtimesFromJoin | backend/controllers/movie.controller.js:249-254 | the listing is the part of the movie's `showtimes` join that starts at or after now |
| MovieSchema.NewMovie | backend/models/Movie.js:6-60 | validation fails exactly when some required path fails, reporting all of them; a duplicate title fails afterwards; a created movie has a trimmed unique title, every required field present, the release date submitted, the rounded rating in range, the submitted `ratingsCount` or 0 by default, and `isActive` defaulting to true |
| MovieSchema.MovieFailures | backend/models/Movie.js:6-44 | a path is reported exactly when it fails: an empty trimmed title, a missing or empty description, director or language, a missing duration, genre list or release date, or a rounded rating outside [0, 10] |
| MovieSchema.RoundToTenth | backend/models/Movie.js:42 | the setter's rounding to one decimal lies within half a tenth of the submitted value |
| MovieSchema.RoundingDecidesRange | backend/models/Movie.js:38-44 | the range is checked after rounding: 10.04 is stored as 10 and accepted, 10.05 becomes 10.1 and is refused |
| MovieSchema.NewMovieKeepsTitlesDistinct | backend/models/Movie.js:10 | inserting an accepted movie keeps titles unique across the collection |
| MovieSchema.ShowtimesJoin | backend/models/Movie.js:73-78 | exactly the showtimes whose movie is this one (as a multiset of the filter), sorted by start time ascending |
| MovieSchema.PreDeleteOne | backend/models/Movie.js:90-102 | every showtime of the movie is removed, the others are kept in order, nothing else changes |
| MovieSchema.RemoveMovie | backend/controllers/movie.controller.js:227 | only the movie with that id is removed |
| MovieSchema.DeleteOne | backend/models/Movie.js:90-102 | the hook, then the document: the movie's showtimes and the movie go, nothing else changes |
| MovieSchema.CascadeRemovesTheJoin | backend/models/Movie.js:73-96 | the showtimes the cascade keeps and the movie's join together make up the old collection |
| TheaterSchema.IsValidEmailMatchesPattern | backend/models/Theater.js:57-60 | the scanning validator accepts exactly the strings the pattern `^[^\s@]+@[^\s@]+\.[^\s@]+$` matches: non-empty no-space no-`@` text, one `@`, non-empty text, a dot, non-empty text |
| TheaterSchema.AcceptsPlainAddress | backend/models/Theater.js:59 | the plain address `a@b.c` is accepted |
| TheaterSchema.RejectsDotAfterAt | backend/models/Theater.js:59 | an address with a dot right after the `@` is rejected |
| TheaterSchema.ScreenFailures | backend/models/Theater.js:27-43 | reports exactly the screens (by index) missing a name, a capacity or a seat layout |
| TheaterSchema.Failures | backend/models/Theater.js:5-68 | every failing path at once: an empty trimmed name, a location type other than 'Point', a missing or empty address or city, a screen missing a field, an email the validator rejects |
| TheaterSchema.NoFailures | backend/models/Theater.js:5-68 | without a failing path the name is non-empty, the address and city are present and non-empty, the email passes, the type is 'Point' or absent, and every screen has a name, a capacity and a layout |
| TheaterSchema.Stored | backend/models/Theater.js:5-68 | the stored document keeps the id, the trimmed name, one screen per submitted screen in order with its id, name, capacity and layout, the facilities and the contact; the location type defaults to 'Point' and `isActive` is true unless false was submitted |
| TheaterSchema.NewTheater | backend/models/Theater.js:3-71 | fails exactly when some path fails, listing them all; on success the submission has a non-empty trimmed name, an address, a city, a location type 'Point' or absent and complete screens, the result is exactly the stored document of that submission, and its contact email passes the validator |
| TheaterSchema.ShowtimesJoin | backend/models/Theater.js:77-81 | exactly the showtimes whose theater is this one |
| TheaterSchema.DeleteOne | backend/models/Theater.js:84-89 | every showtime of the theater goes, then the theater; nothing else changes |
| TheaterSchema.CascadeRemovesTheJoin | backend/models/Theater.js:77-87 | the showtimes the cascade keeps and the theater's join together make up the old collection |
| UserSchema.NameValidator | backend/models/User.js:13-24 | accepts exactly the strings with an ASCII letter and only letters, white space, hyphens and apostrophes |
| UserSchema.ValidateName | backend/models/User.js:7-25 | succeeds exactly for a trimmed name of 2 to 50 characters that passes the validator, storing the trimmed name; required, too-short and too-long each fail exactly in their own case |
| UserSchema.NameWithDigitRejected | backend/models/User.js:18-20 | a name with a digit anywhere is rejected |
| UserSchema.DigitsOnly | backend/models/User.js:50 | keeps only digits and is never longer than the input |
| UserSchema.SequentialFromSteps | backend/models/User.js:59-63 | the `every` callback holds from position `from` exactly when each digit follows its predecessor there |
| UserSchema.SequentialClosedForm | backend/models/User.js:59-64 | a digit string is sequential exactly when digit i equals the first digit plus i, modulo 10 |
| UserSchema.RepetitiveIff | backend/models/User.js:56 | the repetition pattern matches exactly the strings of two or more copies of one digit |
| UserSchema.PhoneValidatorIff | backend/models/User.js:48-67 | a phone is accepted exactly when it has 10 to 15 digits that are neither one repeated digit nor a counting run (9 followed by 0 allowed) |
| UserSchema.DigitsOnlyOfDigits | backend/models/User.js:50 | stripping non-digits leaves a digit string unchanged |
| UserSchema.CountingRunRejected | backend/models/User.js:59-64 | every counting run of allowed length, wrapping or not, is rejected |
| UserSchema.WrappingRunRejected | backend/models/User.js:59-64 | "8901234567", which wraps from 9 to 0, is rejected |
| UserSchema.ParseRole | backend/models/User.js:39-43 | an absent role is endUser; a given role is accepted exactly when it is one of the three names, and then kept |
| UserSchema.EveryField | backend/models/User.js:5-90 | the five validated fields are all listed |
| UserSchema.UserFailures | backend/models/User.js:5-90 | reports exactly the fields whose rules fail |
| UserSchema.NoUserFailures | backend/models/User.js:5-90 | without a failing field the name, email, role and phone all pass |
| UserSchema.NewUser | backend/models/User.js:5-90 | fails exactly when some field fails, listing them all; otherwise fails exactly when an existing user has the lower-cased email (the unique index of User.js:29); a stored user has an email no existing user has, the validated trimmed name, an email with no upper-case letter, the role or endUser by default, an accepted phone, and is active |
| UserSchema.NewUserKeepsEmailsDistinct | backend/models/User.js:29 | inserting an accepted user keeps the emails of the users pairwise distinct |
| ReviewSchema.RatingsCount | backend/models/Review.js:36-45 | at most the number of reviews, and 0 exactly when no review is of the movie |
| ReviewSchema.RatingsAverage | backend/models/Review.js:42-56 | 0 when the movie has no reviews |
| ReviewSchema.RatingSumBounds | backend/models/Review.js:18-42 | with every rating in [0, 10] the sum of a movie's ratings lies between 0 and 10 times its number of reviews |
| ReviewSchema.AverageInRange | backend/models/Review.js:18-42 | with every rating in [0, 10] the mean lies in [0, 10], within the movie schema's bounds |
| ReviewSchema.MeanBound | backend/models/Review.js:42 | a mean of n ratings summing to at most 10n lies in [0, 10] |
| ReviewSchema.CountAfterAppend | backend/models/Review.js:37-62 | a new review adds one to its own movie's count and nothing to any other movie's |
| ReviewSchema.WithRatings | backend/models/Review.js:48-56 | same length; only the movie with that id gets the new count and average, every other movie is unchanged |
| ReviewSchema.CalcAverageRatings | backend/models/Review.js:35-58 | the movie's count and average are set from the review collection as it now is (0 and 0 without reviews); only the movie collection changes |
| ReviewSchema.RecomputedCounts | backend/models/Review.js:47-56 | after recomputation the movie's count is the number of its reviews, and count and average are 0 when it has none |
| ReviewController.CreateGuards | backend/controllers/review.controller.js:31-57 | missing rating: 400 before any lookup; no showtimes: 400; no paid booking on one of them: 403; duplicate (movie, user): 400; success exactly with a rating in range, a paid booking and no review yet, storing movie, user, rating and a trimmed comment |
| ReviewController.AcceptedReviewKeepsIndex | backend/models/Review.js:33 | an accepted review keeps at most one review per (movie, user) pair and fresh distinct ids |
| ReviewController.CreateReview | backend/controllers/review.controller.js:25-69 | the outcome equals the guard chain on the old store; on success the review is appended and the movie's ratings recomputed; on failure nothing changes |
| ReviewController.Access | backend/controllers/review.controller.js:76-104 | 404 exactly when no review has the id; 403 only for a requester who is neither owner nor admin; success returns that review for its owner or an admin |
| ReviewController.AdminMayAct | backend/controllers/review.controller.js:80-103 | an admin passes the owner-or-admin guard on every existing review |
| ReviewController.Patch | backend/controllers/review.controller.js:83-84 | a supplied rating or comment (the comment trimmed, as the schema's `trim` does) replaces the stored one, an absent one keeps it; id, movie and user are never changed |
| ReviewController.PatchLaws | backend/controllers/review.controller.js:83-84 | an update with neither value leaves the review as it was, and repeating an update changes nothing more |
| ReviewController.PlanUpdate | backend/controllers/review.controller.js:76-85 | 404 exactly when no review has the id; 403 only for a requester who is neither the owner nor an admin; otherwise the found review with the partial update applied, refused exactly when the resulting rating leaves [0, 10] |
| Seqs.ReplaceByKey | backend/controllers/review.controller.js:85 | same length; each element with the new element's key is replaced by it, every other kept in place (the saved review in the review list, the updated theater in the manager's list) |
| Seqs.ReplaceByKeyLaws | frontend/src/pages/manager/ManageTheaters.jsx:27-31 | the new element is in the result exactly when an element with its key was there; replacing twice is replacing once |
| ReviewController.ReplaceKeepsIndex | backend/models/Review.js:33 | saving a review with unchanged id, movie and user keeps ids distinct and one review per pair |
| ReviewController.UpdateReview | backend/controllers/review.controller.js:72-93 | the outcome equals the plan on the old reviews (404, 403, then the partial update of the found review); on success that review is replaced and its movie's ratings recomputed; on failure nothing changes |
| ReviewController.DeleteReview | backend/controllers/review.controller.js:96-112 | the outcome is the access check; on success exactly that review is removed and its movie's ratings recomputed; on failure nothing changes |
| ReviewController.DeleteLowersCount | backend/controllers/review.controller.js:106 | deleting a review lowers its movie's review count by exactly one |
| Dashboard.TotalBookings | backend/controllers/dashboard.controller.js:19 | the count is the number of paid bookings |
| Dashboard.RevenueResult | backend/controllers/dashboard.controller.js:22-25 | the revenue pipeline returns no group exactly when no booking is paid, and at most one group |
| Dashboard.TotalRevenue | backend/controllers/dashboard.controller.js:22-77 | the sum of the paid bookings' amounts, and 0 when there is no paid booking |
| Dashboard.ChartStart | backend/controllers/dashboard.controller.js:38-40 | the chart starts at the midnight of the day six days before today |
| Dashboard.ChartGroups | backend/controllers/dashboard.controller.js:42-56 | a day has a group exactly when some paid booking created since the chart start falls on it, holding the sum of that day's paid amounts |
| Dashboard.ChartDayRevenue | backend/controllers/dashboard.controller.js:80-88 | for each of the seven days, the group's value or 0 equals that day's paid revenue |
| Dashboard.GetAdminStats | backend/controllers/dashboard.controller.js:11-106 | the counts of movies and theaters, the paid-booking count, the paid revenue, and exactly 7 chart entries for days today-6 to today, oldest first, each holding that day's paid revenue (0 when none) |
| Dashboard.UnpaidIgnored | backend/controllers/dashboard.controller.js:19-46 | an unpaid booking changes neither the booking count, the total revenue nor any day's revenue |
| SeatSelection.SeatKeyInjective | frontend/src/pages/SeatSelection.jsx:241 | a `row-seat` key names exactly one seat |
| SeatSelection.GetSeatStatus | frontend/src/pages/SeatSelection.jsx:157-178 | booked exactly when a booked entry names the seat (case-insensitively); locked exactly when none does and a locked entry does; otherwise available |
| SeatSelection.RowCaseIgnored | frontend/src/pages/SeatSelection.jsx:161-169 | an entry naming the row in either case matches |
| SeatSelection.BuildGrid | frontend/src/pages/SeatSelection.jsx:153-189 | rows 'A' to 'H' of seats 1 to 16, each with its computed status, none selected |
| SeatSelection.DefaultGrid | frontend/src/pages/SeatSelection.jsx:102-113 | the same shape with every seat available and unselected |
| SeatSelection.DefaultIsEmptyData | frontend/src/pages/SeatSelection.jsx:102-133 | the grid built from empty lists is the default grid |
| SeatSelection.SeatPrice | frontend/src/pages/SeatSelection.jsx:255 | the showtime's price, or 200 when it is absent or 0; never 0 |
| SeatSelection.Toggled | frontend/src/pages/SeatSelection.jsx:228-266 | no cell, or a cell neither free nor selected: grid and selection unchanged; otherwise only that cell's `selected` flips and its entry is appended (at the page's price) or removed by key |
| SeatSelection.CellKeysDistinct | frontend/src/pages/SeatSelection.jsx:180-241 | two cells of the grid name two different seats |
| SeatSelection.FlipKeepsShape | frontend/src/pages/SeatSelection.jsx:244 | flipping one cell keeps the grid's shape and every other cell |
| SeatSelection.ListedAfterAppend | frontend/src/pages/SeatSelection.jsx:249-259 | after appending, a key is listed exactly when it was or is the new entry's |
| SeatSelection.ListedAfterRemove | frontend/src/pages/SeatSelection.jsx:261 | after removing a key, a key is listed exactly when it was and differs from the removed one |
| SeatSelection.SelectKeepsConsistent | frontend/src/pages/SeatSelection.jsx:240-259 | selecting a free seat keeps: only free seats selected, one entry per selected seat, at the page's price |
| SeatSelection.UnselectKeepsConsistent | frontend/src/pages/SeatSelection.jsx:240-262 | unselecting a selected seat keeps the same invariant |
| SeatSelection.ToggleKeepsConsistent | frontend/src/pages/SeatSelection.jsx:228-266 | every toggle, accepted or refused, keeps the invariant |
| SeatSelection.TotalIsCountTimesPrice | frontend/src/pages/SeatSelection.jsx:389 | with every entry at the page's price (`meta?.price`, else 200, when a seat is picked, line 255), the total is the number of selected seats times that price |
| SeatSelection.Checkout | frontend/src/pages/SeatSelection.jsx:323-350 | refused exactly with no seat selected, then exactly without the showtime record; otherwise the seats in selection order, the price with its fallback and the total of the entries |
| SeatSelection.SeatPicker.constructor | frontend/src/pages/SeatSelection.jsx:116-199 | without the showtime record: the default grid and the load warning; otherwise the grid built from the seat lists (empty when missing); no selection |
| SeatSelection.SeatPicker.ToggleSeat | frontend/src/pages/SeatSelection.jsx:228-266 | the new grid and selection are the toggle of the old ones at the page's price, and the invariant is kept |
| SeatSelection.SeatPicker.TotalAmount | frontend/src/pages/SeatSelection.jsx:389 | the total is the number of selected seats times the page's price |
| MovieCard.DaysSinceRelease | frontend/src/components/MovieCard.jsx:14-28 | the difference of the midnights divided by a day is the calendar-day difference |
| MovieCard.GetStatusBadge | frontend/src/components/MovieCard.jsx:12-61 | Coming Soon exactly for a release after today; New Release exactly for a release 0 to 7 days ago with active shows; Now Showing exactly for other movies with active shows; then shows tomorrow, future shows, `hasFutureShows === false` gives Expired, `hasActiveShows === false` gives No Shows, and Available otherwise |
| MovieCard.MidnightOrder | frontend/src/components/MovieCard.jsx:14-24 | comparing two midnights compares their calendar days |
| MovieCard.FlagCases | frontend/src/components/MovieCard.jsx:29-55 | a flag is absent, true or false |
| MovieCard.ReleaseOrder | frontend/src/components/MovieCard.jsx:22-24 | a release midnight after today's midnight is a release day after today |
| MovieCard.FlagsLeaveNoFallback | frontend/src/components/MovieCard.jsx:55-60 | with all three flags from the server, neither No Shows nor Available is shown |
| MovieCard.GenresTextEmpty | frontend/src/components/MovieCard.jsx:6-7 | the genre text is empty exactly when the array shown (`genre` if it is one, else `genres`, else none) is the single empty genre; an empty array shows "Drama/Thriller" and a longer one contains the separator |
| MovieCard.GenreShadowsGenres | frontend/src/components/MovieCard.jsx:6 | when `genre` is an array, `genres` never changes the text |
| MovieCard.ZeroRatingShown | frontend/src/components/MovieCard.jsx:8 | `??` falls back only on a missing value: an average of 0 is shown as the number 0 and `rating` is not consulted |
| Entities.FindScreen | backend/controllers/showtime.controller.js:197-211 | the screen lookup by name or by id string: none exactly when no screen matches; otherwise the result is a matching screen of the theater and every screen before it fails to match (the first match) |
| AuthSlice.LoginRejection | frontend/src/store/authSlice.js:25-27 | a failed login always rejects with a non-empty message (the server's, or 'Login failed') |
| AuthSlice.RegisterRejection | frontend/src/store/authSlice.js:38-43 | a failed registration rejects with a present, non-empty message and passes the server's field errors through unchanged |
| AuthSlice.Reduce | frontend/src/store/authSlice.js:82-139 | per action: clearError empties both errors and keeps user and loading; every pending sets loading and clears the error (login and register pending also clear the field errors); checkAuth fulfilled/rejected, login fulfilled/rejected, register fulfilled/rejected and logout each produce exactly the listed field changes; any other action leaves the state unchanged |
| AuthSlice.ReduceKeepsConsistent | frontend/src/store/authSlice.js:89-139 | every action preserves "while loading there is no error" |
| AuthSlice.ChangesFromActions | frontend/src/store/authSlice.js:89-139 | a new error only ever comes from a rejection; the user only changes on a fulfilment, a checkAuth or login rejection, or logout (a rejected registration keeps the user) |
| AuthSlice.LoginRound | frontend/src/store/authSlice.js:105-118 | a login pending followed by its outcome ends, from any state, in a state fixed by the outcome: the user and no errors on success, no user and the message on failure |
| AuthSlice.ClearErrorIdempotent | frontend/src/store/authSlice.js:82-85 | clearing the errors twice is the same as once |
| AuthSlice.AuthState.constructor | frontend/src/store/authSlice.js:59-80 | the initial state: the persisted user if one exists, otherwise none; never loading, no errors |
| AuthSlice.AuthState.Dispatch | frontend/src/store/authSlice.js:82-139 | the in-place reducer's new fields are exactly `Reduce` of the old fields and the action |
| ProtectedRoute.Guard | frontend/src/components/ProtectedRoute.jsx:16-51 | loading shows the placeholder; a signed-in user on a public route is sent to the role's home; a guarded route without a user sends to /signin carrying the current location; a role outside a non-empty list sends to /; the children render exactly when none of these applies, and receive the user |
| ProtectedRoute.RenderNeedsAccess | frontend/src/components/ProtectedRoute.jsx:33-43 | whenever a guarded route renders, there is a user, and its role is in the route's role list when that list is non-empty |
| ProtectedRoute.PublicRouteAgreesWithRedirect | frontend/src/components/ProtectedRoute.jsx:25-30 | a signed-in user on a public route is redirected to the same place `AuthRedirect` sends them with its default path |
| SignIn.SignInAgreesWithRedirect | frontend/src/pages/SignIn.jsx:47-60 | a completed sign-in sends every user where the redirect component (AuthRedirect.jsx:12-19) sends them when given the saved path and query, or no target without one: /admin, /manager, else the saved location or / |
| SignIn.OnSubmitAsWritten | frontend/src/pages/SignIn.jsx:38-64 | the submit handler as written: a rejection navigates nowhere; a fulfilled login with a user navigates to its destination; a fulfilled login with a null user throws |
| SignIn.NullPayloadThrows | frontend/src/pages/SignIn.jsx:42-44 | the counterexample: a fulfilled login whose payload is null reaches `loggedInUser.name` and throws |
| SignIn.OnSubmit | frontend/src/pages/SignIn.jsx:38-64 | the corrected handler never throws; it navigates exactly when the login is fulfilled with a user, to that user's destination, agreeing with the handler as written on every such outcome |
| SignIn.RoleTargetIgnored | frontend/src/pages/SignIn.jsx:22-60 | the chosen "sign in as" role never changes where the page navigates: only the server's role does |
| SignIn.BackToGuardedRoute | frontend/src/pages/SignIn.jsx:47-57 | a regular user sent to sign in by a guarded route is brought back to that route's path and query after logging in |
| SignIn.LabelsDistinct | frontend/src/pages/SignIn.jsx:93 | for the three role choices the idle label differs from the in-flight label, and the three idle labels differ from one another |
| ManageTheaters.ParseFacilities | frontend/src/pages/manager/ManageTheaters.jsx:62 | the facilities submitted from the comma-separated text: every stored facility is non-empty, trimmed and comma-free, and a text is stored exactly when it is a non-empty trimmed piece of the input |
| ManageTheaters.ParseAtComma | frontend/src/pages/manager/ManageTheaters.jsx:62 | the parse keeps order and repetitions: the text on each side of a comma parses on its own and the two lists are concatenated |
| ManageTheaters.ParsePiece | frontend/src/pages/manager/ManageTheaters.jsx:62 | a piece without a comma gives its trimmed text, or nothing when that is empty |
| ManageTheaters.PiecesStorable | frontend/src/pages/manager/ManageTheaters.jsx:62 | trimming comma-free pieces and dropping the empty ones leaves only storable facility names |
| ManageTheaters.ParseOfShownList | frontend/src/pages/manager/ManageTheaters.jsx:44-62 | the round trip: a list of storable facilities shown as `join(', ')` and submitted unchanged is parsed back to the same list |
| ManageTheaters.ParseIsStable | frontend/src/pages/manager/ManageTheaters.jsx:44-62 | submitting the form again unchanged after a save stores the same facilities |

## Left out

- The database driver and the ODM are not modelled: `find`, `populate`, `insertMany`, the
  aggregation pipelines, and `APIFeatures` with its filtering, sorting and pagination. The store's
  sequences and filter functions stand in for them, and Entities.FindMovie, FindTheater,
  FindShowtime and FindReview stand for `findById`. `updateMovieStatuses` and `APIFeatures` are
  not part of this model, so a movie's `status` is an optional field that arrives already set.
- The race between `createShowtime`'s conflict check and its insert
  (backend/controllers/showtime.controller.js:241-310) is left out, because calls are modelled
  one after another.
- ShowtimeController.GetAvailableSeats: the seat layout is a sequence of row widths, as the
  controller reads it (showtime.controller.js:413). The schema declares each row as an array of
  seat types (backend/models/Theater.js:38-40), and the seeder writes arrays, so with seeded data
  the controller's inner loop would see a non-number.
- ShowtimeController.PlanMultiDay: each day takes the start's and the end's hour and minute. When the
  end's hour:minute is earlier than the start's (a show past midnight), the record's end comes before
  its start. The model keeps this as the source has it.
- ShowtimeController.CreateShowtime: the conflict query matches `screen` on the request's raw
  text. A screen booked by its name and later by its id string (or the reverse) escapes the overlap
  check. The model keeps this as the source has it.
- ShowtimeStatus.GetShowtimeStatus: a start less than one minute ahead gives `m = 0`, so the show
  is completed. The model keeps this as the source has it.
- ShowtimeStatus.SortShowtimesByStatus: the result is proved sorted by the two keys and a
  permutation. The sort's stability, which `Array.sort` guarantees, is not stated.
- `getAvailableShowtimes` (backend/controllers/showtime.controller.js:64-74) has no member of its
  own. Its query asks for `'seats.available' > 0` (line 72), but the records the controller writes
  carry `availableSeats` and `totalSeats` and no `seats` object. A `$gt` condition matches no
  document that lacks the field, so the query returns an empty list. Its time window alone is
  ShowtimeController.GetUpcomingShowtimes.
- `updateShowtime` (showtime.controller.js:330-337) is left out. It applies an arbitrary body with
  no overlap check, so there is nothing to state about it.
- The locale texts are left out: `toLocaleString`, `toDateString`, the date-fns `format` output,
  emoji and icons, and the status descriptions' sentences. A status carries its tag, label,
  colour, order and the numbers its description shows.
- Time zones and daylight saving time are left out. Every calendar-day computation uses one fixed
  zone with 86400000 ms days.
- Dashboard.ChartGroups: MongoDB's `$dateToString` groups by the UTC day, while the chart's day
  keys come from date-fns in the local zone. In the model both use the same fixed zone, so a
  mismatch from the local offset cannot appear.
- Dashboard.GetAdminStats: `recentBookings` (a sorted, populated query) is left out. The user count
  is a parameter, because users are not kept in the store.
- The seat-hold lock service is not part of this model. Its implementation is not in the
  repository's core, and it depends on Redis `SET NX EX` and TTL timing.
- SeatSelection.SeatPicker.ToggleSeat: the asynchronous lock and unlock calls, and the revert
  after a failed lock (frontend/src/pages/SeatSelection.jsx:205-225,268-314), are left out. They
  depend on network timing and on React's deferred state updates. The toggle is modelled as the
  synchronous flip.
- SeatSelection: the error screen after a failed load (SeatSelection.jsx:373-387) is not modelled
  beyond the default grid. A `bookedSeats` or `lockedSeats` that is not an array is modelled as absent.
- Password hashing and comparison with bcrypt (backend/models/User.js:95-104) are left out: they
  call a foreign library.
- Poster upload and deletion on Cloudinary (backend/controllers/movie.controller.js:213-221,
  271-359) are left out: they go to an external service.
- The localStorage persistence of the auth state (frontend/src/store/authSlice.js:59-71,144-158)
  is left out, and so are the thunks' network requests. A persisted state is a constructor
  parameter. It carries only `user`, so `loading` and the errors start unset, which the model writes
  as false and none.
- MovieSchema.NewMovie: numbers are exact reals, so the setter's rounding and the range check
  have no floating-point error. The stored movie keeps the title, release date, rating, count and
  `isActive`; description, duration, genre, director, language, cast, poster and trailer are
  validated where required but not kept. A genre list is missing only when null was sent, because
  an array field defaults to the empty list. A `ratingsCount` sent as `null` is stored as 0 here,
  while the source keeps the `null`.
- ReviewController.StoredComment: `None` stands for an omitted comment, stored as `''`. A
  `comment: null` sent to `createReview` is stored as null by the source, and is not modelled
  apart from the omitted one.
- ReviewSchema.RatingsAverage: the mean is an exact rational. The rounding at
  backend/models/Review.js:50 is not modelled.
- TheaterSchema.Failures: the address and city are validated as required strings but not kept in
  the stored theater. The coordinates, contact phone, description and logo are not modelled. An
  absent contact email (`None`) stands for an omitted one, which the validator does not see. A
  `contact.email` sent as `null` is not modelled; the source runs the pattern on it and rejects it.
  Likewise a `location.type` sent as `null` is not modelled: `None` means omitted and becomes
  `'Point'`, while the source applies the default only to an undefined value and hands the null to
  the `enum` validator.
  A screen's `seatLayout` is `None` only when `null` was sent: an omitted layout defaults to the
  empty array, which `required` accepts (Mongoose 5 and later), and is modelled as `Some([])`.
- UserSchema.NewUser: `validator.isEmail` is a parameter, and the lower casing of the e-mail covers
  ASCII letters only. A `role` sent as `null` is not modelled: `None` means omitted and becomes
  `endUser`, while the source applies the default only to an undefined value and hands the null to
  the `enum` validator.
- Some numbers are modelled as whole numbers: a screen's capacity, a showtime's price and seat counts, a
  booking's `totalAmount`, the seat page's price and a movie's `ratingsCount` are integers (the
  count a natural number), where the source declares `type: Number`. A fractional price such as
  12.5, a revenue summing such amounts, and a negative or fractional submitted count cannot be
  expressed.
- The migration script's database connection, its environment checks and its console output are
  left out. Its count of records already in the store reads the store as it stands, including
  records inserted earlier in the same run.
- ReviewController: a failed rating validation is handed to the error middleware, which is not
  part of this model. So `RatingInvalid` carries no HTTP status.
- MovieController.GetMovieShowtimes does not filter on `isActive`, as in the source.
- MovieController.DeleteMovie deletes the movie's showtimes itself and then removes the document,
  as `findByIdAndDelete` does, without running the `deleteOne` hook. The hook is modelled separately
  as MovieSchema.DeleteOne.
- ReviewController.CreateReview does not check that the movie exists, as in the source. A review for
  an unknown movie with no showtimes fails as "no showtimes".
- Routing and UI files are left out: routes, App.jsx, the store configuration, toasts, and pages
  with only constant tables and fetches. So are the WebSocket server, the notification scripts and
  the seeder, which only do I/O.

## Findings

| source | as written | input that shows it | evidently intended | confidence | as-written member | corrected member |
|---|---|---|---|---|---|---|
| frontend/src/pages/SignIn.jsx:42-44 | a fulfilled login is treated as a success and reads `loggedInUser.name`; the `login` thunk fulfils with `null` when `/auth/me` returns no user (authSlice.js:24) | the login request succeeds but `/auth/me` answers without `data.data.user`: the handler throws a TypeError, and there is neither a toast nor a navigation | a fulfilled login without a user is handled like a failed sign-in: an error toast, no navigation | not executed | SignIn.OnSubmitAsWritten (counterexample lemma SignIn.NullPayloadThrows) | SignIn.OnSubmit |
