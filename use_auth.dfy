/** The `useAuth` hook: the mock credential check of `handleSignIn`, the user it
    builds, and the restore-on-mount effect; plus the empty-field check the
    sign-in page runs before calling it. */
module UseAuth {
  import opened Wrappers
  import opened Types
  import opened AuthSlice
  import opened Strings

  datatype MockAccount = MockAccount(password: string, role: UserRole)

  /** The demo accounts, keyed by e-mail. */
  const MockAccounts: map<string, MockAccount> := map[
    "admin@example.com" := MockAccount("admin123", Admin),
    "manager@example.com" := MockAccount("manager123", Manager),
    "user@example.com" := MockAccount("user123", Member)]

  const InvalidCredentials := "Invalid email or password"
  const FillInAllFields := "Please fill in all fields"
  const TokenPrefix := "mock-token-"
  const AvatarBase := "https://api.dicebear.com/7.x/avataaars/svg?seed="

  /** The table lookup: the account's role, or the one error message for an
      unknown e-mail and for a wrong password alike. */
  function CheckCredentials(email: string, password: string): (r: Result<UserRole, string>)
    ensures r.Failure? ==> r.error == InvalidCredentials
    ensures email !in MockAccounts ==> r.Failure?
  {
    if email in MockAccounts && MockAccounts[email].password == password
    then Success(MockAccounts[email].role)
    else Failure(InvalidCredentials)
  }

  /** Exactly three (e-mail, password) pairs sign in, each with its listed role. */
  lemma ExactlyThreeAccounts(email: string, password: string)
    ensures CheckCredentials(email, password).Success? <==>
      (email, password) in {("admin@example.com", "admin123"), ("manager@example.com", "manager123"),
                            ("user@example.com", "user123")}
    ensures CheckCredentials("admin@example.com", "admin123") == Success(Admin)
    ensures CheckCredentials("manager@example.com", "manager123") == Success(Manager)
    ensures CheckCredentials("user@example.com", "user123") == Success(Member)
  {
  }

  /** A known e-mail with any password but its own is refused with the same
      message as an unknown e-mail, even when the password is another
      account's. */
  lemma WrongPasswordRefused(email: string, password: string)
    requires email in MockAccounts && password != MockAccounts[email].password
    ensures CheckCredentials(email, password) == Failure(InvalidCredentials)
    ensures CheckCredentials(email, password) == CheckCredentials("nobody@example.com", password)
  {
  }

  /** `email.split('@')[0]`: the text before the first `@` (all of it if there is none). */
  function NameOf(email: string): (r: string)
    ensures r <= email
    ensures '@' !in r
    ensures |r| < |email| ==> email[|r|] == '@'
  {
    if email == [] || email[0] == '@' then [] else [email[0]] + NameOf(email[1..])
  }

  datatype Session = Session(user: User, token: string)

  /** The user built on success. The random id, the clock's ISO time and
      `Date.now()` are passed in. */
  function BuildUser(email: string, role: UserRole, id: string, createdAt: string): User
  {
    User(id, email, NameOf(email), role, Some(AvatarBase + email), createdAt)
  }

  /** `handleSignIn` without its side effects: the session it returns, or the
      error it throws. */
  function Authenticate(email: string, password: string, id: string, createdAt: string, now: nat): (r: Result<Session, string>)
    ensures r.Failure? <==> CheckCredentials(email, password).Failure?
    ensures r.Failure? ==> r.error == InvalidCredentials
    ensures r.Success? ==>
      && r.value.user.email == email
      && r.value.user.name == NameOf(email)
      && CheckCredentials(email, password) == Success(r.value.user.role)
      && TokenPrefix <= r.value.token
  {
    match CheckCredentials(email, password)
    case Failure(e) => Failure(e)
    case Success(role) => Success(Session(BuildUser(email, role, id, createdAt), TokenPrefix + NatToString(now)))
  }

  /** The name is exactly the part before the first `@`. */
  lemma {:induction false} NameOfSplit(local: string, rest: string)
    requires '@' !in local
    ensures NameOf(local + "@" + rest) == local
  {
    if local != [] {
      assert (local + "@" + rest)[1..] == local[1..] + "@" + rest;
      NameOfSplit(local[1..], rest);
    }
  }

  /** The names the three accounts sign in with: "admin", "manager" and
      "user", each its e-mail before "@example.com". */
  lemma AccountNames(email: string)
    requires email in MockAccounts
    ensures email == NameOf(email) + "@example.com"
    ensures NameOf(email) in {"admin", "manager", "user"}
  {
    DemoEmails(email);
    DemoEmailNames(email);
  }

  lemma DemoEmails(email: string)
    requires email in MockAccounts
    ensures email == "admin@example.com" || email == "manager@example.com" || email == "user@example.com"
  {
  }

  lemma DemoEmailNames(email: string)
    requires email == "admin@example.com" || email == "manager@example.com" || email == "user@example.com"
    ensures email == NameOf(email) + "@example.com"
    ensures NameOf(email) in {"admin", "manager", "user"}
  {
    if email == "admin@example.com" {
      DemoAccountName(email, "admin");
    } else if email == "manager@example.com" {
      DemoAccountName(email, "manager");
    } else {
      DemoAccountName(email, "user");
    }
  }

  lemma DemoAccountName(email: string, local: string)
    requires '@' !in local && email == local + "@example.com"
    ensures NameOf(email) == local
  {
    assert email == local + "@" + "example.com";
    NameOfSplit(local, "example.com");
  }

  /** `handleSignIn`: on success dispatches `setUser`, so the store becomes
      authenticated with the new user; on failure the store is untouched. */
  method SignIn(store: AuthStore, email: string, password: string, id: string, createdAt: string, now: nat)
    returns (r: Result<Session, string>)
    modifies store
    ensures r == Authenticate(email, password, id, createdAt, now)
    ensures r.Success? ==> store.State() == Reduce(old(store.State()), SetUser(r.value.user))
    ensures r.Success? ==> store.isAuthenticated && store.user == Some(r.value.user)
    ensures r.Failure? ==> store.State() == old(store.State())
  {
    r := Authenticate(email, password, id, createdAt, now);
    if r.Success? {
      store.SetUser(r.value.user);
    }
  }

  /** The sign-in page's submit: refuses empty fields before calling the hook, then
      shows the hook's error, if any. */
  method SubmitSignIn(store: AuthStore, email: string, password: string, id: string, createdAt: string, now: nat)
    returns (localError: string)
    modifies store
    ensures email == "" || password == "" ==> localError == FillInAllFields && store.State() == old(store.State())
    ensures email != "" && password != "" ==>
      (localError == "" <==> CheckCredentials(email, password).Success?)
    ensures localError != "" ==> store.State() == old(store.State())
    ensures email != "" && password != "" && CheckCredentials(email, password).Failure? ==>
      localError == InvalidCredentials && store.State() == old(store.State())
    ensures email != "" && password != "" && CheckCredentials(email, password).Success? ==>
      && localError == ""
      && store.isAuthenticated
      && store.State() == Reduce(old(store.State()), SetUser(Authenticate(email, password, id, createdAt, now).value.user))
  {
    if email == "" || password == "" {
      localError := FillInAllFields;
      return;
    }
    var r := SignIn(store, email, password, id, createdAt, now);
    localError := if r.Failure? then r.error else "";
  }

  // ---------------------------------------------------------------------------
  // Restore on mount

  /** What `JSON.parse` makes of the stored user string. */
  datatype Parsed = ParseFailed | ParsedNull | ParsedUser(user: User)

  /** `localStorage.getItem(key)` is truthy: present and not empty. */
  predicate Stored(item: Option<string>)
  {
    item.Some? && item.value != ""
  }

  /** The restore effect exactly as written: the parse result is dispatched whatever
      it is, so a stored `"null"` stores no user yet sets `isAuthenticated`.
      Returns the new state and whether both keys are removed. */
  function RestoreAsWritten(s: AuthState, token: Option<string>, storedUser: Option<string>, parsed: Parsed): (AuthState, bool)
  {
    if !(Stored(token) && Stored(storedUser)) then (s, false)
    else match parsed
      case ParseFailed => (s, true)
      case ParsedNull => (s.(user := None, isAuthenticated := true, error := None), false)
      case ParsedUser(u) => (Reduce(s, RestoreAuth(u, token.value)), false)
  }

  /** A stored user string `"null"` parses without error and leaves the store
      authenticated with no user. */
  lemma StoredNullBreaksConsistency()
    ensures SessionConsistent(InitialState)
    ensures !SessionConsistent(RestoreAsWritten(InitialState, Some("mock-token-1"), Some("null"), ParsedNull).0)
  {
  }

  /** The restore effect, dispatching only a parsed user: anything else stored under
      `user` is discarded like unparsable text. It dispatches `restoreAuth` only when
      both keys are present, and keeps the slice's invariant. */
  method RestoreOnMount(store: AuthStore, token: Option<string>, storedUser: Option<string>, parsed: Parsed)
    returns (clearStorage: bool)
    modifies store
    ensures !(Stored(token) && Stored(storedUser)) ==> !clearStorage && store.State() == old(store.State())
    ensures Stored(token) && Stored(storedUser) && parsed.ParsedUser? ==>
      !clearStorage && store.State() == Reduce(old(store.State()), RestoreAuth(parsed.user, token.value))
    ensures Stored(token) && Stored(storedUser) && !parsed.ParsedUser? ==>
      clearStorage && store.State() == old(store.State())
    ensures old(SessionConsistent(store.State())) ==> SessionConsistent(store.State())
  {
    clearStorage := false;
    if Stored(token) && Stored(storedUser) {
      if parsed.ParsedUser? {
        store.RestoreAuth(parsed.user, token.value);
      } else {
        clearStorage := true;
      }
    }
  }
}
