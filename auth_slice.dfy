/** The `auth` slice of the store: four fields and six reducers that assign them
    in place. `Reduce` states each reducer on a state value; the `AuthStore` class
    holds the fields and has one method per reducer. */
module AuthSlice {
  import opened Wrappers
  import opened Types

  datatype AuthState = AuthState(
    user: Option<User>,
    isAuthenticated: bool,
    isLoading: bool,
    error: Option<string>)

  /** No user, not authenticated, not loading, no error. */
  const InitialState := AuthState(None, false, false, None)

  /** The slice's invariant: authenticated exactly when a user is stored. */
  predicate SessionConsistent(s: AuthState)
  {
    s.isAuthenticated <==> s.user.Some?
  }

  datatype Action =
    | SetLoading(loading: bool)
    | SetUser(user: User)
    | SetError(message: string)
    | ClearError
    | Logout
    | RestoreAuth(user: User, token: string)

  /** The state after one reducer has run. */
  function Reduce(s: AuthState, a: Action): AuthState
  {
    match a
    case SetLoading(loading) => s.(isLoading := loading)
    case SetUser(u) => s.(user := Some(u), isAuthenticated := true, error := None, isLoading := false)
    case SetError(message) => s.(error := Some(message), isLoading := false)
    case ClearError => s.(error := None)
    case Logout => s.(user := None, isAuthenticated := false, error := None, isLoading := false)
    case RestoreAuth(u, _) => s.(user := Some(u), isAuthenticated := true, error := None)
  }

  /** The state after a sequence of dispatched actions. */
  function Run(s: AuthState, actions: seq<Action>): AuthState
    decreases |actions|
  {
    if actions == [] then s else Run(Reduce(s, actions[0]), actions[1..])
  }

  lemma ReducePreservesConsistency(s: AuthState, a: Action)
    requires SessionConsistent(s)
    ensures SessionConsistent(Reduce(s, a))
  {
  }

  /** From the initial state, every sequence of reducers keeps `isAuthenticated`
      equal to `user != null`. */
  lemma {:induction false} RunPreservesConsistency(s: AuthState, actions: seq<Action>)
    requires SessionConsistent(s)
    ensures SessionConsistent(Run(s, actions))
    decreases |actions|
  {
    if actions != [] {
      ReducePreservesConsistency(s, actions[0]);
      RunPreservesConsistency(Reduce(s, actions[0]), actions[1..]);
    }
  }

  lemma ReachableStatesConsistent(actions: seq<Action>)
    ensures SessionConsistent(Run(InitialState, actions))
  {
    RunPreservesConsistency(InitialState, actions);
  }

  /** `setUser` signs the user in: stored, authenticated, no error, not loading. */
  lemma SetUserSignsIn(s: AuthState, u: User)
    ensures Reduce(s, SetUser(u)) == AuthState(Some(u), true, false, None)
  {
  }

  /** `setError` records the error and stops loading; the session is unchanged. */
  lemma SetErrorKeepsSession(s: AuthState, message: string)
    ensures Reduce(s, SetError(message)).user == s.user
    ensures Reduce(s, SetError(message)).isAuthenticated == s.isAuthenticated
    ensures Reduce(s, SetError(message)).error == Some(message)
    ensures !Reduce(s, SetError(message)).isLoading
  {
  }

  /** `setLoading` and `clearError` each change only their own field. */
  lemma OwnFieldOnly(s: AuthState, loading: bool)
    ensures Reduce(s, SetLoading(loading)) == s.(isLoading := loading)
    ensures Reduce(s, ClearError) == s.(error := None)
  {
  }

  /** `logout` returns every field to its initial value, whatever the state. */
  lemma LogoutRestoresInitialState(s: AuthState)
    ensures Reduce(s, Logout) == InitialState
  {
  }

  /** `restoreAuth` signs the user in but leaves `isLoading` as it was. */
  lemma RestoreKeepsLoading(s: AuthState, u: User, token: string)
    ensures Reduce(s, RestoreAuth(u, token)) == AuthState(Some(u), true, s.isLoading, None)
  {
  }

  /** The slice as the store holds it, updated in place by its reducers. */
  class AuthStore {
    var user: Option<User>
    var isAuthenticated: bool
    var isLoading: bool
    var error: Option<string>

    function State(): AuthState
      reads this
    {
      AuthState(user, isAuthenticated, isLoading, error)
    }

    constructor ()
      ensures State() == InitialState
    {
      user := None;
      isAuthenticated := false;
      isLoading := false;
      error := None;
    }

    method SetLoading(loading: bool)
      modifies this
      ensures State() == Reduce(old(State()), Action.SetLoading(loading))
    {
      isLoading := loading;
    }

    method SetUser(u: User)
      modifies this
      ensures State() == Reduce(old(State()), Action.SetUser(u))
      ensures SessionConsistent(State())
    {
      user := Some(u);
      isAuthenticated := true;
      error := None;
      isLoading := false;
    }

    method SetError(message: string)
      modifies this
      ensures State() == Reduce(old(State()), Action.SetError(message))
    {
      error := Some(message);
      isLoading := false;
    }

    method ClearError()
      modifies this
      ensures State() == Reduce(old(State()), Action.ClearError)
    {
      error := None;
    }

    /** Also removes `authToken` and `user` from local storage, which is not modelled. */
    method Logout()
      modifies this
      ensures State() == Reduce(old(State()), Action.Logout)
      ensures State() == InitialState
    {
      user := None;
      isAuthenticated := false;
      error := None;
      isLoading := false;
    }

    method RestoreAuth(u: User, token: string)
      modifies this
      ensures State() == Reduce(old(State()), Action.RestoreAuth(u, token))
      ensures SessionConsistent(State())
    {
      user := Some(u);
      isAuthenticated := true;
      error := None;
    }
  }
}
