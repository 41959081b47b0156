/**
 * The authentication state of the frontend
 * (frontend/src/context/AuthContext.tsx): the pure `authReducer` over
 * `AuthState`, and the provider whose `login`, `register`, `logout` and
 * start-up check dispatch actions and touch the stored token. The answers of
 * the authentication API are parameters: `None` stands for a call that threw.
 * `localStorage` holds only the token, so it is an optional string.
 */
module AuthContext {

  import opened Common
  import opened HeroTypes

  datatype AuthState = AuthState(user: Option<User>, token: Option<string>,
                                 isLoading: bool, isAuthenticated: bool)

  /** The five actions, and any other value the reducer may receive. */
  datatype AuthAction =
    | LoginStart
    | LoginSuccess(user: User, token: string)
    | LoginFailure
    | Logout
    | SetUser(payload: User)
    | UnknownAction

  /** `initialState`: the stored token is read, nobody is logged in yet. */
  function InitialState(storedToken: Option<string>): (r: AuthState)
    ensures r.token == storedToken && r.user.None? && !r.isLoading && !r.isAuthenticated
  {
    AuthState(None, storedToken, false, false)
  }

  /** The reducer's invariant: an authenticated state has a user. */
  predicate Consistent(s: AuthState) {
    s.isAuthenticated ==> s.user.Some?
  }

  function AuthReducer(s: AuthState, a: AuthAction): AuthState {
    match a
    case LoginStart => s.(isLoading := true)
    case LoginSuccess(user, token) =>
      s.(isLoading := false, isAuthenticated := true, user := Some(user), token := Some(token))
    case LoginFailure => s.(isLoading := false, isAuthenticated := false, user := None, token := None)
    case Logout => s.(isAuthenticated := false, user := None, token := None)
    case SetUser(user) => s.(isAuthenticated := true, user := Some(user))
    case UnknownAction => s
  }

  /** What each action changes and what it leaves alone. */
  lemma ReducerEffects(s: AuthState, a: AuthAction)
    ensures var r := AuthReducer(s, a);
      (a.LoginStart? ==>
        r.isLoading && r.user == s.user && r.token == s.token && r.isAuthenticated == s.isAuthenticated) &&
      (a.LoginSuccess? ==>
        !r.isLoading && r.isAuthenticated && r.user == Some(a.user) && r.token == Some(a.token)) &&
      (a.LoginFailure? || a.Logout? ==> !r.isAuthenticated && r.user.None? && r.token.None?) &&
      (a.LoginFailure? ==> !r.isLoading) &&
      (a.Logout? ==> r.isLoading == s.isLoading) &&
      (a.SetUser? ==>
        r.isAuthenticated && r.user == Some(a.payload) && r.token == s.token && r.isLoading == s.isLoading) &&
      (a.UnknownAction? ==> r == s)
  {
  }

  /** Every action keeps the invariant. */
  lemma ReducerKeepsConsistent(s: AuthState, a: AuthAction)
    requires Consistent(s)
    ensures Consistent(AuthReducer(s, a))
  {
  }

  /** The state after a sequence of dispatches. */
  function ReduceAll(s: AuthState, actions: seq<AuthAction>): AuthState
    decreases |actions|
  {
    if actions == [] then s else ReduceAll(AuthReducer(s, actions[0]), actions[1..])
  }

  /** The invariant survives any sequence of actions. */
  lemma {:induction false} ReduceAllConsistent(s: AuthState, actions: seq<AuthAction>)
    requires Consistent(s)
    ensures Consistent(ReduceAll(s, actions))
    decreases |actions|
  {
    if actions != [] {
      ReducerKeepsConsistent(s, actions[0]);
      ReduceAllConsistent(AuthReducer(s, actions[0]), actions[1..]);
    }
  }

  /** So it holds in every state reachable from the initial one. */
  lemma ReachableConsistent(storedToken: Option<string>, actions: seq<AuthAction>)
    ensures Consistent(ReduceAll(InitialState(storedToken), actions))
  {
    ReduceAllConsistent(InitialState(storedToken), actions);
  }

  /** Logging out twice is logging out once. */
  lemma LogoutIdempotent(s: AuthState)
    ensures AuthReducer(AuthReducer(s, Logout), Logout) == AuthReducer(s, Logout)
  {
  }

  /** The state a login or a registration ends in, from the state before. */
  function AfterAuthRequest(s: AuthState, response: Option<(User, string)>): AuthState {
    AuthReducer(AuthReducer(s, LoginStart),
                if response.Some? then LoginSuccess(response.value.0, response.value.1) else LoginFailure)
  }

  /** Whatever the answer, the request leaves the state consistent and not
      loading; it is authenticated exactly when the request succeeded. */
  lemma AuthRequestOutcome(s: AuthState, response: Option<(User, string)>)
    ensures var r := AfterAuthRequest(s, response);
      Consistent(r) && !r.isLoading && (r.isAuthenticated <==> response.Some?) &&
      (response.Some? ==> r.user == Some(response.value.0) && r.token == Some(response.value.1)) &&
      (response.None? ==> r.user.None? && r.token.None?)
  {
  }

  /** `if (token)`: a stored token that JavaScript treats as true. */
  predicate HasToken(t: Option<string>) {
    t.Some? && t.value != ""
  }

  /** `AuthProvider`: the reducer state and the stored token. `dispatched`
      records the actions in the order they were dispatched. */
  class AuthProvider {
    var state: AuthState
    var storedToken: Option<string>
    ghost var dispatched: seq<AuthAction>

    constructor (storedToken0: Option<string>)
      ensures state == InitialState(storedToken0) && storedToken == storedToken0
      ensures dispatched == []
    {
      state := InitialState(storedToken0);
      storedToken := storedToken0;
      dispatched := [];
    }

    method Dispatch(a: AuthAction)
      modifies this
      ensures state == AuthReducer(old(state), a)
      ensures dispatched == old(dispatched) + [a]
      ensures storedToken == old(storedToken)
    {
      state := AuthReducer(state, a);
      dispatched := dispatched + [a];
    }

    /** `login`: `LOGIN_START`, then the answer of the API; on success the token
        is stored before `LOGIN_SUCCESS`, on failure `LOGIN_FAILURE` is
        dispatched and the error is rethrown. */
    method Login(response: Option<(User, string)>) returns (thrown: bool)
      modifies this
      ensures thrown <==> response.None?
      ensures state == AfterAuthRequest(old(state), response)
      ensures |dispatched| == |old(dispatched)| + 2 && dispatched[..|old(dispatched)|] == old(dispatched)
      ensures dispatched[|old(dispatched)|] == LoginStart
      ensures dispatched[|old(dispatched)| + 1] ==
        if response.Some? then LoginSuccess(response.value.0, response.value.1) else LoginFailure
      ensures storedToken == if response.Some? then Some(response.value.1) else old(storedToken)
    {
      Dispatch(LoginStart);
      if response.Some? {
        storedToken := Some(response.value.1);
        Dispatch(LoginSuccess(response.value.0, response.value.1));
        thrown := false;
      } else {
        Dispatch(LoginFailure);
        thrown := true;
      }
    }

    /** `register`: the same sequence as `login`, around the registration call. */
    method Register(response: Option<(User, string)>) returns (thrown: bool)
      modifies this
      ensures thrown <==> response.None?
      ensures state == AfterAuthRequest(old(state), response)
      ensures |dispatched| == |old(dispatched)| + 2 && dispatched[..|old(dispatched)|] == old(dispatched)
      ensures dispatched[|old(dispatched)|] == LoginStart
      ensures dispatched[|old(dispatched)| + 1] ==
        if response.Some? then LoginSuccess(response.value.0, response.value.1) else LoginFailure
      ensures storedToken == if response.Some? then Some(response.value.1) else old(storedToken)
    {
      Dispatch(LoginStart);
      if response.Some? {
        storedToken := Some(response.value.1);
        Dispatch(LoginSuccess(response.value.0, response.value.1));
        thrown := false;
      } else {
        Dispatch(LoginFailure);
        thrown := true;
      }
    }

    /** `logout`: the token is removed, then `LOGOUT` is dispatched. */
    method DoLogout()
      modifies this
      ensures storedToken.None?
      ensures state == AuthReducer(old(state), Logout)
      ensures dispatched == old(dispatched) + [Logout]
      ensures !state.isAuthenticated && state.user.None? && state.token.None?
    {
      storedToken := None;
      Dispatch(Logout);
    }

    /** `initAuth`: with a stored token, ask for the current user; `SET_USER`
        when that works, otherwise drop the token and `LOGIN_FAILURE`. Without
        a token (an empty one is falsy too) nothing happens. */
    method InitAuth(currentUser: Option<User>)
      modifies this
      ensures !HasToken(old(storedToken)) ==>
        state == old(state) && dispatched == old(dispatched) && storedToken == old(storedToken)
      ensures HasToken(old(storedToken)) && currentUser.Some? ==>
        state == AuthReducer(old(state), SetUser(currentUser.value))
        && dispatched == old(dispatched) + [SetUser(currentUser.value)]
        && storedToken == old(storedToken)
      ensures HasToken(old(storedToken)) && currentUser.None? ==>
        state == AuthReducer(old(state), LoginFailure)
        && dispatched == old(dispatched) + [LoginFailure] && storedToken.None?
    {
      if storedToken.Some? && storedToken.value != "" {
        if currentUser.Some? {
          Dispatch(SetUser(currentUser.value));
        } else {
          storedToken := None;
          Dispatch(LoginFailure);
        }
      }
    }
  }
}
