/** The client's authentication state and the reducer that moves it on each action. The
    provider's effects (the token in local storage, the default request header, the requests
    themselves) are not part of this model. */
module AuthContext {
  import opened Outcomes

  /** The signed-in user's profile as the client holds it. */
  datatype User = User(id: string, name: string, email: string, avatar: string, location: string, bio: string)

  datatype AuthState = AuthState(user: Option<User>, token: Option<string>, isAuthenticated: bool, loading: bool)

  /** The reducer's actions; `Unrecognised` stands for any other action type. */
  datatype AuthAction =
    | AuthStart
    | AuthSuccess(user: User, token: string)
    | AuthFailure
    | Logout
    | UpdateUser(user: User)
    | Unrecognised(kind: string)

  /** The state before anything happened: no user, not authenticated, loading, and whatever
      token local storage held. */
  function InitialState(storedToken: Option<string>): (s: AuthState)
    ensures s.user.None? && !s.isAuthenticated && s.loading
    ensures s.token == storedToken
  {
    AuthState(None, storedToken, false, true)
  }

  /** The signed-out state both AUTH_FAILURE and LOGOUT produce. */
  function SignedOut(s: AuthState): AuthState {
    s.(user := None, token := None, isAuthenticated := false, loading := false)
  }

  /** `authReducer`. */
  function Reduce(s: AuthState, a: AuthAction): (r: AuthState)
    ensures a.AuthStart? ==> r == s.(loading := true)
    ensures a.AuthSuccess? ==>
      r.user == Some(a.user) && r.token == Some(a.token) && r.isAuthenticated && !r.loading
    ensures a.AuthFailure? || a.Logout? ==>
      r.user.None? && r.token.None? && !r.isAuthenticated && !r.loading
    ensures a.UpdateUser? ==> r == s.(user := Some(a.user))
    ensures a.Unrecognised? ==> r == s
  {
    match a
    case AuthStart => s.(loading := true)
    case AuthSuccess(user, token) =>
      s.(user := Some(user), token := Some(token), isAuthenticated := true, loading := false)
    case AuthFailure => SignedOut(s)
    case Logout => SignedOut(s)
    case UpdateUser(user) => s.(user := Some(user))
    case Unrecognised(_) => s
  }

  /** A failed sign-in and a sign-out leave the same state. */
  lemma FailureIsLogout(s: AuthState)
    ensures Reduce(s, AuthFailure) == Reduce(s, Logout)
  {
  }

  /** Signing out twice is signing out once. */
  lemma LogoutIdempotent(s: AuthState)
    ensures Reduce(Reduce(s, Logout), Logout) == Reduce(s, Logout)
  {
  }

  /** An authenticated state always has a user and a token. */
  predicate Consistent(s: AuthState) {
    s.isAuthenticated ==> s.user.Some? && s.token.Some?
  }

  /** The state after a run of actions, first to last. */
  function Run(s: AuthState, actions: seq<AuthAction>): AuthState
    decreases |actions|
  {
    if actions == [] then s else Run(Reduce(s, actions[0]), actions[1..])
  }

  /** Every action keeps the state consistent. */
  lemma ReduceKeepsConsistent(s: AuthState, a: AuthAction)
    requires Consistent(s)
    ensures Consistent(Reduce(s, a))
  {
  }

  /** From the initial state, any run of actions leaves a consistent state. */
  lemma {:induction false} RunKeepsConsistent(s: AuthState, actions: seq<AuthAction>)
    requires Consistent(s)
    ensures Consistent(Run(s, actions))
    decreases |actions|
  {
    if actions != [] {
      ReduceKeepsConsistent(s, actions[0]);
      RunKeepsConsistent(Reduce(s, actions[0]), actions[1..]);
    }
  }

  /** The initial state is consistent, so every reachable state is. */
  lemma ReachableConsistent(storedToken: Option<string>, actions: seq<AuthAction>)
    ensures Consistent(Run(InitialState(storedToken), actions))
  {
    RunKeepsConsistent(InitialState(storedToken), actions);
  }

  /** After a sign-out, only a successful sign-in authenticates again. */
  lemma {:induction false} SignedOutStaysOut(s: AuthState, actions: seq<AuthAction>)
    requires !s.isAuthenticated
    requires forall i :: 0 <= i < |actions| ==> !actions[i].AuthSuccess?
    ensures !Run(s, actions).isAuthenticated
    decreases |actions|
  {
    if actions != [] {
      SignedOutStaysOut(Reduce(s, actions[0]), actions[1..]);
    }
  }
}
