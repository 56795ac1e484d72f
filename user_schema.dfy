/** The user schema (backend/models/User.js): the name and phone validators, the role enumeration
    with its default, the password length, and the lower-casing and uniqueness of the email. */
module UserSchema {
  import opened Wrappers
  import Seqs
  import Text

  // ---------------------------------------------------------------- name

  /** A character of the class `[a-zA-Z\s\-']`. */
  predicate NameChar(c: char)
  {
    Text.IsAsciiLetter(c) || Text.IsSpace(c) || c == '-' || c == '\''
  }

  /** A letter somewhere, and nothing but name characters. */
  predicate NameShape(v: string)
  {
    (exists i :: 0 <= i < |v| && Text.IsAsciiLetter(v[i])) && (forall i :: 0 <= i < |v| ==> NameChar(v[i]))
  }

  /** The custom validator, in its three steps: a letter somewhere (`/[a-zA-Z]/`), not only digits
      (`/^\d+$/`), and only name characters (`/^[a-zA-Z\s\-']+$/`). Since a letter is not a digit,
      the second step never decides anything. */
  function NameValidator(v: string): (b: bool)
    ensures b <==> NameShape(v)
  {
    if !Seqs.Any(v, Text.IsAsciiLetter) then false
    else if |v| > 0 && Seqs.All(v, Text.IsDigit) then false
    else if !(|v| > 0 && Seqs.All(v, NameChar)) then false
    else true
  }

  /** The validators of a path run in declaration order and the first failure is reported. */
  datatype NameError = NameRequired | NameTooShort | NameTooLong | NameInvalid

  /** The stored name: trimmed (`trim: true`), then `required`, `minlength: 2`, `maxlength: 50` and the custom validator. */
  function ValidateName(raw: Option<string>): (r: Result<string, NameError>)
    ensures r.Success? <==>
      raw.Some? && 2 <= |Text.Trim(raw.value)| <= 50 && NameShape(Text.Trim(raw.value))
    ensures r.Success? ==> r.value == Text.Trim(raw.value) && Text.IsTrimmed(r.value)
    ensures r == Failure(NameRequired) <==> raw.None? || Text.Trim(raw.value) == []
    ensures r == Failure(NameTooShort) <==> raw.Some? && |Text.Trim(raw.value)| == 1
    ensures r == Failure(NameTooLong) <==> raw.Some? && |Text.Trim(raw.value)| > 50
  {
    if raw.None? then Failure(NameRequired)
    else
      var v := Text.Trim(raw.value);
      if v == [] then Failure(NameRequired)
      else if |v| < 2 then Failure(NameTooShort)
      else if |v| > 50 then Failure(NameTooLong)
      else if !NameValidator(v) then Failure(NameInvalid)
      else Success(v)
  }

  /** A name with a digit anywhere between its trimmed ends is rejected. */
  lemma {:induction false} NameWithDigitRejected(raw: string, k: nat)
    requires k < |Text.Trim(raw)| && Text.IsDigit(Text.Trim(raw)[k])
    ensures ValidateName(Some(raw)).Failure?
  {
    assert !NameChar(Text.Trim(raw)[k]);
  }

  // ---------------------------------------------------------------- phone

  /** `v.replace(/\D/g, '')`: the ASCII digits of `v`, in order. */
  function DigitsOnly(v: string): (d: string)
    ensures forall i :: 0 <= i < |d| ==> Text.IsDigit(d[i])
    ensures |d| <= |v|
  {
    if v == [] then []
    else (if Text.IsDigit(v[0]) then [v[0]] else []) + DigitsOnly(v[1..])
  }

  /** `/^(\d)\1+$/`: at least two characters, all the same digit. */
  predicate Repetitive(d: string)
  {
    |d| >= 2 && Text.IsDigit(d[0]) && Seqs.All(d[1..], (c: char) => c == d[0])
  }

  /** The `every` callback for position `i > 0`: the digit is one more than the previous, or 9 is followed by 0. */
  predicate Follows(prev: char, digit: char)
    requires Text.IsDigit(prev) && Text.IsDigit(digit)
  {
    Text.DigitValue(digit) == Text.DigitValue(prev) + 1 || (Text.DigitValue(prev) == 9 && Text.DigitValue(digit) == 0)
  }

  predicate AllDigits(d: string) { forall i :: 0 <= i < |d| ==> Text.IsDigit(d[i]) }

  /** The `every` over positions `from`, `from + 1`, … of the digit string. */
  function SequentialFrom(d: string, from: nat): bool
    requires AllDigits(d) && 1 <= from
    decreases |d| - from
  {
    if from >= |d| then true else Follows(d[from - 1], d[from]) && SequentialFrom(d, from + 1)
  }

  function IsSequential(d: string): bool
    requires AllDigits(d)
  {
    SequentialFrom(d, 1)
  }

  /** The phone validator: 10 to 15 digits once non-digits are removed, not one repeated digit,
      not a run counting up by one modulo 10. */
  function PhoneValidator(v: string): bool
  {
    var d := DigitsOnly(v);
    if |d| < 10 || |d| > 15 then false
    else if Repetitive(d) then false
    else if IsSequential(d) then false
    else true
  }

  lemma {:induction false} SequentialFromSteps(d: string, from: nat)
    requires AllDigits(d) && 1 <= from
    ensures SequentialFrom(d, from) <==> forall i :: from <= i < |d| ==> Follows(d[i - 1], d[i])
    decreases |d| - from
  {
    if from < |d| {
      SequentialFromSteps(d, from + 1);
    }
  }

  /** One counting step, read on the closed form: a digit following one at `x % 10` is at `(x + 1) % 10`. */
  lemma {:induction false} FollowsStep(prev: char, digit: char, x: nat)
    requires Text.IsDigit(prev) && Text.IsDigit(digit)
    requires Text.DigitValue(prev) == x % 10
    ensures Follows(prev, digit) <==> Text.DigitValue(digit) == (x + 1) % 10
  {
    var q := x / 10;
    assert x == 10 * q + x % 10;
    if x % 10 == 9 {
      assert x + 1 == 10 * (q + 1);
    } else {
      assert x + 1 == 10 * q + (x % 10 + 1);
    }
  }

  /** The first `n` digits of a string that counts up through position `n` follow the closed form. */
  lemma {:induction false} ClosedFormUpTo(d: string, n: nat)
    requires AllDigits(d) && 1 <= n <= |d|
    requires forall i :: 1 <= i < n ==> Follows(d[i - 1], d[i])
    ensures forall k :: 0 <= k < n ==> Text.DigitValue(d[k]) == (Text.DigitValue(d[0]) + k) % 10
  {
    var d0 := Text.DigitValue(d[0]);
    if n == 1 {
      assert d0 == (d0 + 0) % 10;
    } else {
      ClosedFormUpTo(d, n - 1);
      FollowsStep(d[n - 2], d[n - 1], d0 + n - 2);
    }
  }

  /** A counting run is determined by its first digit: digit `i` is the first plus `i`, modulo 10. */
  lemma {:induction false} SequentialClosedForm(d: string)
    requires AllDigits(d) && |d| >= 1
    ensures IsSequential(d) <==>
      forall i :: 0 <= i < |d| ==> Text.DigitValue(d[i]) == (Text.DigitValue(d[0]) + i) % 10
  {
    SequentialFromSteps(d, 1);
    var d0 := Text.DigitValue(d[0]);
    if IsSequential(d) {
      ClosedFormUpTo(d, |d|);
    }
    if forall i :: 0 <= i < |d| ==> Text.DigitValue(d[i]) == (d0 + i) % 10 {
      forall i | 1 <= i < |d| ensures Follows(d[i - 1], d[i]) {
        FollowsStep(d[i - 1], d[i], d0 + i - 1);
      }
    }
  }

  /** Every digit string equal to its first digit throughout, with at least two digits, is repetitive. */
  lemma {:induction false} RepetitiveIff(d: string)
    requires AllDigits(d)
    ensures Repetitive(d) <==> |d| >= 2 && forall i :: 0 <= i < |d| ==> d[i] == d[0]
  {
    if |d| >= 2 {
      assert forall i :: 1 <= i < |d| ==> d[i] == d[1..][i - 1];
    }
  }

  /** The validator accepts exactly the phones with 10 to 15 digits that are neither one repeated
      digit nor a counting run. */
  lemma {:induction false} PhoneValidatorIff(v: string)
    ensures var d := DigitsOnly(v);
      PhoneValidator(v) <==>
        10 <= |d| <= 15
        && !(forall i :: 0 <= i < |d| ==> d[i] == d[0])
        && !(forall i :: 0 <= i < |d| ==> Text.DigitValue(d[i]) == (Text.DigitValue(d[0]) + i) % 10)
  {
    var d := DigitsOnly(v);
    if 10 <= |d| <= 15 {
      RepetitiveIff(d);
      SequentialClosedForm(d);
    }
  }

  lemma {:induction false} DigitsOnlyOfDigits(v: string)
    requires AllDigits(v)
    ensures DigitsOnly(v) == v
  {
    if v != [] {
      DigitsOnlyOfDigits(v[1..]);
    }
  }

  /** A counting run of allowed length is rejected, also when it wraps from 9 to 0. */
  lemma {:induction false} CountingRunRejected(d: string)
    requires AllDigits(d) && 10 <= |d| <= 15
    requires forall i :: 0 <= i < |d| ==> Text.DigitValue(d[i]) == (Text.DigitValue(d[0]) + i) % 10
    ensures !PhoneValidator(d)
  {
    DigitsOnlyOfDigits(d);
    SequentialClosedForm(d);
  }

  lemma WrappingRunRejected()
    ensures !PhoneValidator("8901234567")
  {
    var d := "8901234567";
    assert AllDigits(d);
    assert forall i :: 0 <= i < |d| ==> Text.DigitValue(d[i]) == (8 + i) % 10;
    CountingRunRejected(d);
  }

  // ---------------------------------------------------------------- role, password, email

  datatype Role = EndUser | Admin | TheaterManager

  function RoleName(r: Role): string
  {
    match r
    case EndUser => "endUser"
    case Admin => "admin"
    case TheaterManager => "theaterManager"
  }

  /** The `enum` with its default: an absent role is `endUser`, an unknown one is rejected. */
  function ParseRole(v: Option<string>): (r: Option<Role>)
    ensures v.None? ==> r == Some(EndUser)
    ensures v.Some? ==> (r.Some? <==> v.value == "endUser" || v.value == "admin" || v.value == "theaterManager")
    ensures v.Some? && r.Some? ==> RoleName(r.value) == v.value
  {
    if v.None? || v.value == "endUser" then Some(EndUser)
    else if v.value == "admin" then Some(Admin)
    else if v.value == "theaterManager" then Some(TheaterManager)
    else None
  }

  /** `required` with `minlength: 8`. */
  predicate PasswordOk(p: Option<string>) { p.Some? && |p.value| >= 8 }

  datatype User = User(name: string, email: string, role: Role, phone: string, isActive: bool)

  datatype UserInput = UserInput(
    name: Option<string>,
    email: Option<string>,
    password: Option<string>,
    role: Option<string>,
    phone: Option<string>)

  datatype Field = NameField | EmailField | PasswordField | RoleField | PhoneField

  /** The email as stored: lower-cased before validation. `isEmail` is the external syntax check. */
  predicate EmailOk(email: Option<string>, isEmail: string -> bool)
  {
    email.Some? && email.value != [] && isEmail(Text.Lower(email.value))
  }

  predicate PhoneOk(phone: Option<string>)
  {
    phone.Some? && phone.value != [] && PhoneValidator(phone.value)
  }

  predicate FieldFails(input: UserInput, isEmail: string -> bool, f: Field)
  {
    match f
    case NameField => ValidateName(input.name).Failure?
    case EmailField => !EmailOk(input.email, isEmail)
    case PasswordField => !PasswordOk(input.password)
    case RoleField => ParseRole(input.role).None?
    case PhoneField => !PhoneOk(input.phone)
  }

  const AllFields: set<Field> := {NameField, EmailField, PasswordField, RoleField, PhoneField}

  lemma EveryField()
    ensures forall f: Field :: f in AllFields
  {
    forall f: Field ensures f in AllFields {
      match f
      case NameField =>
      case EmailField =>
      case PasswordField =>
      case RoleField =>
      case PhoneField =>
    }
  }

  function UserFailures(input: UserInput, isEmail: string -> bool): (r: set<Field>)
    ensures forall f :: f in r <==> FieldFails(input, isEmail, f)
  {
    EveryField();
    set f | f in AllFields && FieldFails(input, isEmail, f)
  }

  lemma {:induction false} NoUserFailures(input: UserInput, isEmail: string -> bool)
    requires UserFailures(input, isEmail) == {}
    ensures ValidateName(input.name).Success? && EmailOk(input.email, isEmail)
    ensures ParseRole(input.role).Some? && PhoneOk(input.phone)
  {
    var r := UserFailures(input, isEmail);
    assert !FieldFails(input, isEmail, NameField) by { assert NameField !in r; }
    assert !FieldFails(input, isEmail, EmailField) by { assert EmailField !in r; }
    assert !FieldFails(input, isEmail, RoleField) by { assert RoleField !in r; }
    assert !FieldFails(input, isEmail, PhoneField) by { assert PhoneField !in r; }
  }

  /** Why a new user is refused: the failing fields of validation, or the unique index on the
      stored (lower-cased) email, which the insert checks after validation. */
  datatype UserError =
    | ValidationFailed(fields: set<Field>)
    | DuplicateEmail

  /** A new user document next to the existing `users`: every failing field, then the unique
      email, or the stored user (trimmed name, lower-cased email, role defaulting to `endUser`,
      active). */
  function NewUser(users: seq<User>, input: UserInput, isEmail: string -> bool): (r: Result<User, UserError>)
    ensures r.Failure? && r.error.ValidationFailed? <==> UserFailures(input, isEmail) != {}
    ensures r.Failure? && r.error.ValidationFailed? ==> r.error.fields == UserFailures(input, isEmail)
    ensures r == Failure(DuplicateEmail) <==>
      UserFailures(input, isEmail) == {} && input.email.Some? && exists u :: u in users && u.email == Text.Lower(input.email.value)
    ensures r.Success? ==>
      && ValidateName(input.name) == Success(r.value.name)
      && input.email.Some? && r.value.email == Text.Lower(input.email.value)
      && (forall u :: u in users ==> u.email != r.value.email)
      && (forall i :: 0 <= i < |r.value.email| ==> !('A' <= r.value.email[i] <= 'Z'))
      && (input.role.None? ==> r.value.role == EndUser)
      && (input.role.Some? ==> RoleName(r.value.role) == input.role.value)
      && PhoneOk(input.phone) && input.phone == Some(r.value.phone)
      && r.value.isActive
  {
    var errs := UserFailures(input, isEmail);
    if errs != {} then Failure(ValidationFailed(errs))
    else
      NoUserFailures(input, isEmail);
      var email := Text.Lower(input.email.value);
      if exists u :: u in users && u.email == email then Failure(DuplicateEmail)
      else
        Success(User(ValidateName(input.name).value, email,
          ParseRole(input.role).value, input.phone.value, true))
  }

  ghost predicate EmailsDistinct(users: seq<User>)
  {
    forall i, j :: 0 <= i < j < |users| ==> users[i].email != users[j].email
  }

  /** Inserting whatever NewUser accepts keeps the emails unique. */
  lemma {:induction false} NewUserKeepsEmailsDistinct(users: seq<User>, input: UserInput, isEmail: string -> bool)
    requires EmailsDistinct(users)
    requires NewUser(users, input, isEmail).Success?
    ensures EmailsDistinct(users + [NewUser(users, input, isEmail).value])
  {
    var u := NewUser(users, input, isEmail).value;
    var s := users + [u];
    forall i, j | 0 <= i < j < |s| ensures s[i].email != s[j].email {
      if j == |users| {
        assert s[i] in users;
      } else {
        assert s[i] == users[i] && s[j] == users[j];
      }
    }
  }
}
