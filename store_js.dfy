/**
 * The untyped twin of the store. Its reducers are the same assignments, but
 * nothing stops a payload from carrying no user or no token.
 */
module AuthStoreJs {
  import opened Wrappers
  import opened Http
  import AuthStore

  /** `action.payload`: either member may be missing (`undefined`), which the slice stores as it is. */
  datatype Payload = Payload(user: Option<AuthStore.User>, token: Option<string>)

  datatype Action = SetCredentials(payload: Payload) | Logout

  /** The slice reducer as the function of (state, action) that the toolkit builds from the two case reducers. */
  function Reduce(s: AuthStore.AuthState, action: Action): (next: AuthStore.AuthState)
    ensures action.Logout? ==> next == AuthStore.InitialState
    ensures action.SetCredentials? ==> next.isAuthenticated && next.user == action.payload.user && next.token == action.payload.token
  {
    match action
    case SetCredentials(payload) => AuthStore.AuthState(payload.user, payload.token, true)
    case Logout => AuthStore.InitialState
  }

  /** Dispatching a sequence of actions in order. */
  function Run(s: AuthStore.AuthState, actions: seq<Action>): AuthStore.AuthState
    decreases |actions|
  {
    if actions == [] then s else Run(Reduce(s, actions[0]), actions[1..])
  }

  predicate CarriesToken(action: Action) {
    action.SetCredentials? ==> action.payload.token.Some?
  }

  /**
   * From a consistent state (the initial one is), any sequence of logouts and of
   * logins that carry a token ends consistent: authenticated iff a token is held.
   */
  lemma {:induction false} RunKeepsConsistency(s: AuthStore.AuthState, actions: seq<Action>)
    requires AuthStore.Consistent(s)
    requires forall k :: 0 <= k < |actions| ==> CarriesToken(actions[k])
    ensures AuthStore.Consistent(Run(s, actions))
    decreases |actions|
  {
    if actions != [] {
      assert CarriesToken(actions[0]);
      RunKeepsConsistency(Reduce(s, actions[0]), actions[1..]);
    }
  }

  /** A login without a token breaks the agreement: authenticated, but no token to send. */
  lemma TokenlessLoginIsInconsistent(s: AuthStore.AuthState, user: Option<AuthStore.User>)
    ensures !AuthStore.Consistent(Reduce(s, SetCredentials(Payload(user, None))))
  {
  }

  /** Logging out twice is logging out once; a second login replaces the first. */
  lemma ReducerIdempotence(s: AuthStore.AuthState, first: Payload, second: Payload)
    ensures Reduce(Reduce(s, Logout), Logout) == Reduce(s, Logout)
    ensures Reduce(Reduce(s, SetCredentials(first)), SetCredentials(second)) == Reduce(s, SetCredentials(second))
  {
  }

  class AuthSliceJs {
    var user: Option<AuthStore.User>
    var token: Option<string>
    var isAuthenticated: bool

    function State(): AuthStore.AuthState
      reads this
    {
      AuthStore.AuthState(user, token, isAuthenticated)
    }

    /** `isAuthenticated` agrees with the presence of a token. Not guaranteed here: see `SetCredentials`. */
    predicate Consistent()
      reads this
    {
      AuthStore.Consistent(State())
    }

    /** The inline `initialState`. */
    constructor ()
      ensures Consistent() && State() == AuthStore.InitialState
    {
      user, token, isAuthenticated := None, None, false;
    }

    /**
     * `setCredentials`: stores the payload and sets `isAuthenticated`. Consistency
     * is kept exactly when the payload has a token; a payload without one leaves
     * an authenticated state with no token.
     */
    method SetCredentials(payload: Payload)
      modifies this
      ensures State() == Reduce(old(State()), Action.SetCredentials(payload))
      ensures Consistent() <==> payload.token.Some?
    {
      user := payload.user;
      token := payload.token;
      isAuthenticated := true;
    }

    /** `logout`: always consistent afterwards, and idempotent. */
    method Logout()
      modifies this
      ensures Consistent()
      ensures State() == Reduce(old(State()), Action.Logout)
    {
      user := None;
      token := None;
      isAuthenticated := false;
    }
  }

  /** `prepareHeaders` of the untyped store: the same rule on the slice's token. */
  method PrepareHeaders(headers: Headers, auth: AuthSliceJs) returns (prepared: Headers, typeError: bool)
    requires headers.Valid()
    modifies headers
    ensures prepared == headers && headers.Valid()
    ensures typeError <==> match BearerValue(auth.token)
      case Some(value) => SetThrows(Authorization, value)
      case None => false
    ensures headers.entries == match BearerValue(auth.token)
      case Some(value) => if typeError then old(headers.entries) else old(headers.entries)[Authorization := Normalize(value)]
      case None => old(headers.entries)
  {
    typeError := SetBearer(headers, auth.token);
    prepared := headers;
  }
}
