/** The theater schema (backend/models/Theater.js): the screen sub-document shape, the location
    type enumeration, the contact-email pattern, the defaults, the `showtimes` virtual join and
    the cascade run before a theater document is deleted. */
module TheaterSchema {
  import opened Wrappers
  import opened Entities
  import opened Db
  import Seqs
  import Text
  import ShowtimeController

  // ---------------------------------------------------------------- contact email

  /** A character of the class `[^\s@]`. */
  predicate Plain(c: char) { !Text.IsSpace(c) && c != '@' }

  /** The pattern `^[^\s@]+@[^\s@]+\.[^\s@]+$` read positionally: an `@` at `i` and a dot at `j`
      with at least one character before the `@`, between the two and after the dot, and every
      other character outside `\s` and `@`. */
  ghost predicate EmailPattern(s: string)
  {
    exists i, j :: 0 < i && i + 1 < j && j + 1 < |s| && s[i] == '@' && s[j] == '.'
      && forall k :: 0 <= k < |s| && k != i ==> Plain(s[k])
  }

  /** The validator, computed by scanning: no white space, one `@` not at the start, and a dot
      strictly inside the part after it. */
  function IsValidEmail(s: string): bool
  {
    (forall k :: 0 <= k < |s| ==> !Text.IsSpace(s[k])) && '@' in s
    && var i := Text.IndexOf(s, '@');
      var domain := s[i + 1..];
      i > 0 && '@' !in domain && |domain| >= 3 && '.' in domain[1..|domain| - 1]
  }

  lemma {:induction false} IsValidEmailMatchesPattern(s: string)
    ensures IsValidEmail(s) <==> EmailPattern(s)
  {
    if IsValidEmail(s) {
      ValidEmailHasPattern(s);
    }
    if EmailPattern(s) {
      PatternIsValidEmail(s);
    }
  }

  /** The scan's `@` and the dot it finds witness the pattern. */
  lemma ValidEmailHasPattern(s: string)
    requires IsValidEmail(s)
    ensures EmailPattern(s)
  {
    var i := Text.IndexOf(s, '@');
    var domain := s[i + 1..];
    var inner := domain[1..|domain| - 1];
    var d := Text.IndexOf(inner, '.');
    var j := i + 2 + d;
    assert s[j] == inner[d] == '.';
    forall k | 0 <= k < |s| && k != i ensures Plain(s[k]) {
      if k < i {
        assert s[k] == s[..i][k];
      } else {
        assert s[k] == domain[k - i - 1];
      }
    }
    assert 0 < i && i + 1 < j && j + 1 < |s|;
  }

  /** The pattern's only `@` is the one the scan finds, and its dot lies strictly inside the part after it. */
  lemma PatternIsValidEmail(s: string)
    requires EmailPattern(s)
    ensures IsValidEmail(s)
  {
    var i, j :| 0 < i && i + 1 < j && j + 1 < |s| && s[i] == '@' && s[j] == '.'
      && forall k :: 0 <= k < |s| && k != i ==> Plain(s[k]);
    assert '@' in s;
    var x := Text.IndexOf(s, '@');
    assert x == i;
    var domain := s[i + 1..];
    assert '@' !in domain by {
      forall k | 0 <= k < |domain| ensures domain[k] != '@' {
        assert domain[k] == s[i + 1 + k];
      }
    }
    var inner := domain[1..|domain| - 1];
    assert inner[j - i - 2] == '.';
  }

  /** The validator runs only on a supplied value, so an absent email is accepted. */
  predicate ContactOk(email: Option<string>)
  {
    email.None? || IsValidEmail(email.value)
  }

  /** A plain address passes the validator. */
  lemma AcceptsPlainAddress()
    ensures IsValidEmail("a@b.c")
  {
    IsValidEmailMatchesPattern("a@b.c");
    assert "a@b.c"[1] == '@' && "a@b.c"[3] == '.';
  }

  /** A dot right after the `@` leaves the middle part empty. */
  lemma RejectsDotAfterAt()
    ensures !IsValidEmail("a@.bc")
  {
    IsValidEmailMatchesPattern("a@.bc");
    assert "a@.bc"[1] == '@';
  }

  // ---------------------------------------------------------------- documents

  /** A screen as submitted; the sub-document id is assigned by the store. `seatLayout` is
      `None` only when `null` was sent: an omitted layout defaults to `[]`, which `required`
      accepts, so it arrives as `Some([])`. */
  datatype ScreenInput = ScreenInput(id: Id, name: Option<string>, capacity: Option<int>, seatLayout: Option<seq<nat>>)

  /** The submitted document: `location.type`, `location.address` and `city` are the location
      fields with rules; the coordinates, the description and the logo carry none. */
  datatype TheaterInput = TheaterInput(
    name: Option<string>,
    locationType: Option<string>,
    address: Option<string>,
    city: Option<string>,
    screens: seq<ScreenInput>,
    facilities: seq<string>,
    contactEmail: Option<string>,
    isActive: Option<bool>)

  /** The paths a validation error reports. */
  datatype Path = NamePath | LocationTypePath | AddressPath | CityPath | ScreenName(index: nat)
    | ScreenCapacity(index: nat) | ScreenLayout(index: nat) | EmailPath

  /** A required string: present and not empty (the theater name is trimmed first, see StoredName). */
  predicate Present(v: Option<string>) { v.Some? && v.value != [] }

  function StoredName(input: TheaterInput): string
  {
    if input.name.None? then [] else Text.Trim(input.name.value)
  }

  ghost predicate Fails(input: TheaterInput, p: Path)
  {
    match p
    case NamePath => StoredName(input) == []
    case LocationTypePath => input.locationType.Some? && input.locationType.value != "Point"
    case AddressPath => !Present(input.address)
    case CityPath => !Present(input.city)
    case ScreenName(i) => i < |input.screens| && !Present(input.screens[i].name)
    case ScreenCapacity(i) => i < |input.screens| && input.screens[i].capacity.None?
    case ScreenLayout(i) => i < |input.screens| && input.screens[i].seatLayout.None?
    case EmailPath => !ContactOk(input.contactEmail)
  }

  function ScreenFailures(screens: seq<ScreenInput>, from: nat): (r: set<Path>)
    requires from <= |screens|
    ensures forall p :: p in r <==>
      (exists i :: from <= i < |screens| &&
        ((p == ScreenName(i) && !Present(screens[i].name))
         || (p == ScreenCapacity(i) && screens[i].capacity.None?)
         || (p == ScreenLayout(i) && screens[i].seatLayout.None?)))
    decreases |screens| - from
  {
    if from == |screens| then {}
    else
      var s := screens[from];
      (if Present(s.name) then {} else {ScreenName(from)})
      + (if s.capacity.Some? then {} else {ScreenCapacity(from)})
      + (if s.seatLayout.Some? then {} else {ScreenLayout(from)})
      + ScreenFailures(screens, from + 1)
  }

  /** The document-level failing paths. */
  function DocumentFailures(input: TheaterInput): set<Path>
  {
    (if StoredName(input) == [] then {NamePath} else {})
    + (if input.locationType.Some? && input.locationType.value != "Point" then {LocationTypePath} else {})
    + (if Present(input.address) then {} else {AddressPath})
    + (if Present(input.city) then {} else {CityPath})
    + (if ContactOk(input.contactEmail) then {} else {EmailPath})
  }

  /** Every failing path of the document, as a `ValidationError` lists them. */
  function Failures(input: TheaterInput): (r: set<Path>)
    ensures forall p :: p in r <==> Fails(input, p)
  {
    var r := DocumentFailures(input) + ScreenFailures(input.screens, 0);
    assert forall p :: p in r <==> Fails(input, p) by {
      forall p ensures p in r <==> Fails(input, p) {
        FailurePath(input, p);
      }
    }
    r
  }

  lemma FailurePath(input: TheaterInput, p: Path)
    ensures p in DocumentFailures(input) + ScreenFailures(input.screens, 0) <==> Fails(input, p)
  {
    ScreenPathFails(input, p);
    DocumentPathFails(input, p);
  }

  /** A path is among the document-level failures exactly when it is a failing document path. */
  lemma DocumentPathFails(input: TheaterInput, p: Path)
    ensures p in DocumentFailures(input) <==>
      !(p.ScreenName? || p.ScreenCapacity? || p.ScreenLayout?) && Fails(input, p)
  {
    match p
    case NamePath =>
    case LocationTypePath =>
    case AddressPath =>
    case CityPath =>
    case EmailPath =>
    case _ =>
  }

  /** A path is among the screens' failures exactly when it is a failing screen path. */
  lemma ScreenPathFails(input: TheaterInput, p: Path)
    ensures p in ScreenFailures(input.screens, 0) <==>
      (p.ScreenName? || p.ScreenCapacity? || p.ScreenLayout?) && Fails(input, p)
  {
    match p
    case ScreenName(i) =>
      if i < |input.screens| && !Present(input.screens[i].name) {
        assert 0 <= i < |input.screens| && p == ScreenName(i);
      }
    case ScreenCapacity(i) =>
      if i < |input.screens| && input.screens[i].capacity.None? {
        assert 0 <= i < |input.screens| && p == ScreenCapacity(i);
      }
    case ScreenLayout(i) =>
      if i < |input.screens| && input.screens[i].seatLayout.None? {
        assert 0 <= i < |input.screens| && p == ScreenLayout(i);
      }
    case _ =>
  }

  function ToScreen(s: ScreenInput): Screen
    requires s.name.Some? && s.capacity.Some? && s.seatLayout.Some?
  {
    Screen(s.id, s.name.value, s.capacity.value, s.seatLayout.value)
  }

  function ToScreens(screens: seq<ScreenInput>): (r: seq<Screen>)
    requires forall i :: 0 <= i < |screens| ==>
      screens[i].name.Some? && screens[i].capacity.Some? && screens[i].seatLayout.Some?
    ensures |r| == |screens|
    ensures forall i :: 0 <= i < |screens| ==> r[i] == ToScreen(screens[i])
  {
    seq(|screens|, i requires 0 <= i < |screens| => ToScreen(screens[i]))
  }

  /** With no failing path, every part of the document has what the stored theater needs. */
  lemma {:induction false} NoFailures(input: TheaterInput)
    requires Failures(input) == {}
    ensures StoredName(input) != [] && ContactOk(input.contactEmail)
    ensures input.locationType.None? || input.locationType.value == "Point"
    ensures Present(input.address) && Present(input.city)
    ensures ScreensComplete(input.screens)
  {
    assert !Fails(input, NamePath) && !Fails(input, EmailPath) && !Fails(input, LocationTypePath);
    assert !Fails(input, AddressPath) && !Fails(input, CityPath);
    forall i | 0 <= i < |input.screens|
      ensures Present(input.screens[i].name) && input.screens[i].capacity.Some? && input.screens[i].seatLayout.Some?
    {
      assert !Fails(input, ScreenName(i)) && !Fails(input, ScreenCapacity(i)) && !Fails(input, ScreenLayout(i));
    }
  }

  /** Every submitted screen has the parts a stored screen needs. */
  predicate ScreensComplete(screens: seq<ScreenInput>)
  {
    forall i :: 0 <= i < |screens| ==>
      Present(screens[i].name) && screens[i].capacity.Some? && screens[i].seatLayout.Some?
  }

  /** The stored document built from a submission with no failing path, with the schema's
      defaults (`'Point'`, `isActive` true). */
  function Stored(id: Id, input: TheaterInput): (t: Theater)
    requires StoredName(input) != [] && ScreensComplete(input.screens)
    ensures t.id == id && t.name == StoredName(input) && t.locationType == "Point"
    ensures |t.screens| == |input.screens|
    ensures forall i :: 0 <= i < |input.screens| ==>
      t.screens[i].id == input.screens[i].id && t.screens[i].name != []
      && Some(t.screens[i].name) == input.screens[i].name
      && Some(t.screens[i].capacity) == input.screens[i].capacity
      && Some(t.screens[i].seatLayout) == input.screens[i].seatLayout
    ensures t.contactEmail == input.contactEmail && t.facilities == input.facilities
    ensures t.isActive <==> input.isActive != Some(false)
  {
    assert forall i :: 0 <= i < |input.screens| ==>
      input.screens[i].name.Some? && input.screens[i].capacity.Some? && input.screens[i].seatLayout.Some?;
    Theater(id, StoredName(input), "Point", ToScreens(input.screens), input.facilities,
      input.contactEmail, input.isActive.GetOr(true))
  }

  /** A new theater document with id `id`: every failing path, or the stored theater. */
  function NewTheater(id: Id, input: TheaterInput): (r: Result<Theater, set<Path>>)
    ensures r.Failure? <==> Failures(input) != {}
    ensures r.Failure? ==> r.error == Failures(input)
    ensures r.Success? ==>
      StoredName(input) != [] && ScreensComplete(input.screens)
      && Present(input.address) && Present(input.city)
      && (input.locationType.None? || input.locationType.value == "Point")
      && r.value == Stored(id, input) && ContactOk(r.value.contactEmail)
  {
    var errs := Failures(input);
    if errs != {} then Failure(errs)
    else
      NoFailures(input);
      Success(Stored(id, input))
  }

  // ---------------------------------------------------------------- join and cascade

  function OfTheater(theaterId: Id): Showtime -> bool { (s: Showtime) => s.theater == theaterId }

  function NotOfTheater(theaterId: Id): Showtime -> bool { (s: Showtime) => s.theater != theaterId }

  /** The `showtimes` virtual: the showtimes referencing this theater, in store order. */
  function ShowtimesJoin(showtimes: seq<Showtime>, theaterId: Id): (r: seq<Showtime>)
    ensures forall s :: s in r <==> s in showtimes && s.theater == theaterId
  {
    Seqs.Filter(showtimes, OfTheater(theaterId))
  }

  function OtherTheater(theaterId: Id): Theater -> bool { (t: Theater) => t.id != theaterId }

  /** `theater.deleteOne()`: the pre-hook deletes the theater's showtimes, then the document goes. */
  method DeleteOne(db: Store, theaterId: Id)
    requires db.Valid()
    modifies db
    ensures db.Valid()
    ensures db.showtimes == Seqs.Filter(old(db.showtimes), NotOfTheater(theaterId))
    ensures forall s :: s in db.showtimes ==> s.theater != theaterId
    ensures db.theaters == Seqs.Filter(old(db.theaters), OtherTheater(theaterId))
    ensures db.movies == old(db.movies) && db.nextId == old(db.nextId)
    ensures db.bookings == old(db.bookings) && db.reviews == old(db.reviews)
  {
    ShowtimeController.RemoveShowtimes(db, NotOfTheater(theaterId));
    db.theaters := Seqs.Filter(db.theaters, OtherTheater(theaterId));
  }

  /** The cascade removes exactly the showtimes the join lists. */
  lemma CascadeRemovesTheJoin(showtimes: seq<Showtime>, theaterId: Id)
    ensures multiset(Seqs.Filter(showtimes, NotOfTheater(theaterId))) + multiset(ShowtimesJoin(showtimes, theaterId))
      == multiset(showtimes)
  {
    Seqs.FilterPartition(showtimes, NotOfTheater(theaterId), OfTheater(theaterId));
  }
}
