/** The authentication slice of the client store (frontend/src/store/authSlice.js): the state
    `{user, loading, error, errors}`, the thunks' payloads, and the reducer cases that assign the
    state in place. The network calls and the localStorage persistence are not part of this model. */
module AuthSlice {
  import opened Wrappers

  /** The user record the server returns from `/auth/me`. */
  datatype AuthUser = AuthUser(name: string, email: string, role: string)

  datatype AuthFields = AuthFields(user: Option<AuthUser>, loading: bool, error: Option<string>, errors: Option<seq<string>>)

  /** What `register` rejects with. */
  datatype RegisterFailure = RegisterFailure(message: Option<string>, errors: Option<seq<string>>)

  /** The actions this slice handles; `Other` stands for every action it does not. */
  datatype Action =
    | ClearError
    | CheckAuthPending
    | CheckAuthFulfilled(user: Option<AuthUser>)
    | CheckAuthRejected
    | LoginPending
    | LoginFulfilled(user: Option<AuthUser>)
    | LoginRejected(message: string)
    | RegisterPending
    | RegisterFulfilled(user: Option<AuthUser>)
    | RegisterRejected(failure: Option<RegisterFailure>)
    | LogoutFulfilled
    | Other
  {
    predicate IsPending() { CheckAuthPending? || LoginPending? || RegisterPending? }

    predicate IsRejected() { CheckAuthRejected? || LoginRejected? || RegisterRejected? }
  }

  /** `x || fallback` on an optional string: absent or empty gives the fallback. */
  function OrText(x: Option<string>, fallback: string): (r: string)
    ensures x.Some? && x.value != "" ==> r == x.value
    ensures (x.None? || x.value == "") ==> r == fallback
  {
    if x.Some? && x.value != "" then x.value else fallback
  }

  /** `login`'s rejection: the server's message, or 'Login failed'. */
  function LoginRejection(serverMessage: Option<string>): (m: string)
    ensures m != ""
  {
    OrText(serverMessage, "Login failed")
  }

  /** `register`'s rejection: `{message: message || 'Registration failed', errors: errors || null}`. */
  function RegisterRejection(serverMessage: Option<string>, serverErrors: Option<seq<string>>): (f: RegisterFailure)
    ensures f.message.Some? && f.message.value != ""
    ensures f.errors == serverErrors
  {
    RegisterFailure(Some(OrText(serverMessage, "Registration failed")), serverErrors)
  }

  /** The slice's initial state without a persisted one. */
  const Initial := AuthFields(None, false, None, None)

  /** The state after one action. */
  function Reduce(s: AuthFields, a: Action): (r: AuthFields)
    ensures a.ClearError? ==> r.user == s.user && r.loading == s.loading && r.error.None? && r.errors.None?
    ensures a.IsPending() ==> r.loading && r.error.None? && r.user == s.user
    ensures (a.LoginPending? || a.RegisterPending?) ==> r.errors.None?
    ensures a.CheckAuthPending? ==> r.errors == s.errors
    ensures a.CheckAuthFulfilled? ==> r == s.(loading := false, user := a.user, error := None)
    ensures a.CheckAuthRejected? ==> r == s.(loading := false, user := None, error := Some("Not authenticated"))
    ensures a.LoginFulfilled? ==> r == s.(loading := false, user := a.user)
    ensures a.LoginRejected? ==> r == s.(loading := false, user := None, error := Some(a.message))
    ensures a.RegisterFulfilled? ==> r == s.(loading := false, user := a.user)
    ensures a.RegisterRejected? ==>
      && r.user == s.user && !r.loading
      && r.error == Some(OrText(if a.failure.Some? then a.failure.value.message else None, "Registration failed"))
      && r.errors == (if a.failure.Some? then a.failure.value.errors else None)
    ensures a.LogoutFulfilled? ==> r == s.(user := None)
    ensures a.Other? ==> r == s
  {
    match a
    case ClearError => s.(error := None, errors := None)
    case CheckAuthPending => s.(loading := true, error := None)
    case CheckAuthFulfilled(u) => s.(loading := false, user := u, error := None)
    case CheckAuthRejected => s.(loading := false, user := None, error := Some("Not authenticated"))
    case LoginPending => s.(loading := true, error := None, errors := None)
    case LoginFulfilled(u) => s.(loading := false, user := u)
    case LoginRejected(m) => s.(loading := false, error := Some(m), user := None)
    case RegisterPending => s.(loading := true, error := None, errors := None)
    case RegisterFulfilled(u) => s.(loading := false, user := u)
    case RegisterRejected(f) =>
      var payload := if f.Some? then f.value.message else None;
      s.(loading := false, error := Some(OrText(payload, "Registration failed")),
         errors := if f.Some? then f.value.errors else None)
    case LogoutFulfilled => s.(user := None)
    case Other => s
  }

  /** While a request is in flight no error is shown. */
  ghost predicate Consistent(s: AuthFields) { s.loading ==> s.error.None? }

  lemma {:induction false} ReduceKeepsConsistent(s: AuthFields, a: Action)
    requires Consistent(s)
    ensures Consistent(Reduce(s, a))
  {
    match a
    case ClearError =>
    case LogoutFulfilled =>
    case Other =>
    case _ =>
  }

  /** Only a rejection sets an error; only a fulfilment, a rejection of checkAuth or login, and
      logout change the user. */
  lemma ChangesFromActions(s: AuthFields, a: Action)
    ensures Reduce(s, a).error.Some? && Reduce(s, a).error != s.error ==> a.IsRejected()
    ensures Reduce(s, a).user != s.user ==>
      a.CheckAuthFulfilled? || a.CheckAuthRejected? || a.LoginFulfilled? || a.LoginRejected?
      || a.RegisterFulfilled? || a.LogoutFulfilled?
  {
  }

  /** A completed login, from any state, ends in a state fixed by its outcome alone. */
  lemma LoginRound(s: AuthFields, u: Option<AuthUser>, m: string)
    ensures Reduce(Reduce(s, LoginPending), LoginFulfilled(u)) == AuthFields(u, false, None, None)
    ensures Reduce(Reduce(s, LoginPending), LoginRejected(m)) == AuthFields(None, false, Some(m), None)
  {
  }

  /** Clearing the error twice is clearing it once. */
  lemma ClearErrorIdempotent(s: AuthFields)
    ensures Reduce(Reduce(s, ClearError), ClearError) == Reduce(s, ClearError)
  {
  }

  /** The store's `auth` slice. */
  class AuthState {
    var user: Option<AuthUser>
    var loading: bool
    var error: Option<string>
    var errors: Option<seq<string>>

    function Fields(): AuthFields
      reads this
    {
      AuthFields(user, loading, error, errors)
    }

    /** `loadState() || {user: null, loading: false, error: null, errors: null}`: a persisted
        state carries only `user`, so the other fields start out unset. */
    constructor (persisted: Option<Option<AuthUser>>)
      ensures Fields() == AuthFields(if persisted.Some? then persisted.value else None, false, None, None)
      ensures Consistent(Fields())
    {
      user := if persisted.Some? then persisted.value else None;
      loading := false;
      error := None;
      errors := None;
    }

    /** The slice's reducer: the case for the action assigns the state's fields. */
    method Dispatch(a: Action)
      modifies this
      ensures Fields() == Reduce(old(Fields()), a)
    {
      match a {
        case ClearError =>
          error := None;
          errors := None;
        case CheckAuthPending =>
          loading := true;
          error := None;
        case CheckAuthFulfilled(u) =>
          loading := false;
          user := u;
          error := None;
        case CheckAuthRejected =>
          loading := false;
          user := None;
          error := Some("Not authenticated");
        case LoginPending =>
          loading := true;
          error := None;
          errors := None;
        case LoginFulfilled(u) =>
          loading := false;
          user := u;
        case LoginRejected(m) =>
          loading := false;
          error := Some(m);
          user := None;
        case RegisterPending =>
          loading := true;
          error := None;
          errors := None;
        case RegisterFulfilled(u) =>
          loading := false;
          user := u;
        case RegisterRejected(f) =>
          loading := false;
          error := Some(OrText(if f.Some? then f.value.message else None, "Registration failed"));
          errors := if f.Some? then f.value.errors else None;
        case LogoutFulfilled =>
          user := None;
        case Other =>
      }
    }
  }
}
