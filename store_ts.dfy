/** The typed Redux store: the `auth` slice and the header rule of the API's base query. */
module AuthStore {
  import opened Wrappers
  import opened Http

  datatype User = User(id: string, name: string, email: string, role: string)

  /** A snapshot of the slice: `{ user, token, isAuthenticated }`. */
  datatype AuthState = AuthState(user: Option<User>, token: Option<string>, isAuthenticated: bool)

  const InitialState := AuthState(None, None, false)

  /** The session is authenticated exactly when a token is held. */
  predicate Consistent(s: AuthState) {
    s.isAuthenticated <==> s.token.Some?
  }

  /** The `auth` slice; its reducers assign the three fields in place. */
  class AuthSlice {
    var user: Option<User>
    var token: Option<string>
    var isAuthenticated: bool

    function State(): AuthState
      reads this
    {
      AuthState(user, token, isAuthenticated)
    }

    /** The typed reducers keep the slice `Consistent`. */
    ghost predicate Valid()
      reads this
    {
      Consistent(State())
    }

    /** `initialState`. */
    constructor ()
      ensures Valid() && State() == InitialState
    {
      user, token, isAuthenticated := None, None, false;
    }

    /** `setCredentials`: the payload replaces whatever was held before. */
    method SetCredentials(user: User, token: string)
      modifies this
      ensures Valid()
      ensures State() == AuthState(Some(user), Some(token), true)
    {
      this.user := Some(user);
      this.token := Some(token);
      isAuthenticated := true;
    }

    /** `logout`: back to the initial state, whatever the state was, so a second logout changes nothing. */
    method Logout()
      modifies this
      ensures Valid()
      ensures State() == InitialState
    {
      user := None;
      token := None;
      isAuthenticated := false;
    }
  }

  /**
   * `prepareHeaders`: with a truthy token, `authorization: Bearer <token>` is set
   * (normalised, or a `TypeError` when `set` refuses it); otherwise (no token, or
   * the empty string) the headers are returned as they were.
   */
  method PrepareHeaders(headers: Headers, auth: AuthSlice) returns (prepared: Headers, typeError: bool)
    requires headers.Valid()
    modifies headers
    ensures prepared == headers && headers.Valid()
    ensures typeError <==> Truthy(auth.token) && SetThrows(Authorization, "Bearer " + auth.token.value)
    ensures Truthy(auth.token) && !typeError ==>
      headers.entries == old(headers.entries)[Authorization := Normalize("Bearer " + auth.token.value)]
    ensures !Truthy(auth.token) || typeError ==> headers.entries == old(headers.entries)
    ensures auth.State() == old(auth.State())
  {
    typeError := SetBearer(headers, auth.token);
    prepared := headers;
  }
}
