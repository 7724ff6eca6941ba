/** The demonstration authentication service (frontend/src/services/auth.ts):
    a user table held in memory, with sign-up and sign-in against it, and
    the current user and session read from the token in local storage. The
    simulated network delay is not modelled. */
module Auth {
  import opened Wrappers

  const EmailTaken := "An account with this email already exists. Please sign in instead."
  const PasswordTooShort := "Password must be at least 6 characters long."
  const NoAccount := "No account found with this email address. Please sign up first."
  const WrongPassword := "Incorrect password. Please try again."
  const NoUser := "No user logged in"
  const NoSession := "No session found"
  const DemoEmail := "demo@example.com"

  datatype User = User(email: string, password: string, name: string)

  /** What a successful sign-up or sign-in returns about the user: no password. */
  datatype Profile = Profile(email: string, name: string)

  /** `{success: true, data: {user}}` or `{success: false, error}`. */
  datatype Outcome = Success(user: Profile) | Failure(error: string)

  /** The table's starting content. */
  const InitialUsers: seq<User> := [
    User("admin@example.com", "admin123", "Admin User"),
    User("user@example.com", "user123", "Regular User"),
    User(DemoEmail, "demo123", "Demo User")
  ]

  /** No two users share an email. */
  predicate UniqueEmails(users: seq<User>) {
    forall i, j :: 0 <= i < j < |users| ==> users[i].email != users[j].email
  }

  /** `users.find(u => u.email === email)`, as the index of the first user
      with that email, or nothing when no user has it. */
  function FindIndex(users: seq<User>, email: string): (r: Option<nat>)
    ensures r.Some? ==> r.value < |users| && users[r.value].email == email
    ensures r.Some? ==> forall j :: 0 <= j < r.value ==> users[j].email != email
    ensures r.None? <==> forall j :: 0 <= j < |users| ==> users[j].email != email
  {
    if users == [] then None
    else if users[0].email == email then Some(0)
    else match FindIndex(users[1..], email)
      case None => None
      case Some(i) => Some(i + 1)
  }

  /** Appending a user with a new email makes it the one `find` returns for that email. */
  lemma FindAppended(users: seq<User>, u: User)
    requires FindIndex(users, u.email).None?
    ensures FindIndex(users + [u], u.email) == Some(|users|)
  {
    assert (users + [u])[|users|] == u;
  }

  /** `signUp` on the table `users`: the outcome and the table after it. The
      email check comes first, then the 6-character password check; only a
      success appends, and it appends exactly the new user at the end. */
  function Register(users: seq<User>, email: string, password: string, name: string): (r: (Outcome, seq<User>))
    ensures FindIndex(users, email).Some? ==> r == (Failure(EmailTaken), users)
    ensures FindIndex(users, email).None? && |password| < 6 ==> r == (Failure(PasswordTooShort), users)
    ensures FindIndex(users, email).None? && |password| >= 6 ==>
      r == (Success(Profile(email, name)), users + [User(email, password, name)])
    ensures UniqueEmails(users) ==> UniqueEmails(r.1)
  {
    if FindIndex(users, email).Some? then (Failure(EmailTaken), users)
    else if |password| < 6 then (Failure(PasswordTooShort), users)
    else (Success(Profile(email, name)), users + [User(email, password, name)])
  }

  /** `signIn` on the table `users`: an unknown email, then a wrong password,
      fail; otherwise the stored email and name of the matching user. */
  function Authenticate(users: seq<User>, email: string, password: string): (o: Outcome)
    ensures o == Failure(NoAccount) <==> forall j :: 0 <= j < |users| ==> users[j].email != email
    ensures FindIndex(users, email).Some? ==>
      var u := users[FindIndex(users, email).value];
      if u.password == password then o == Success(Profile(u.email, u.name)) else o == Failure(WrongPassword)
    ensures o.Success? ==> o.user.email == email
  {
    match FindIndex(users, email)
    case None => Failure(NoAccount)
    case Some(i) =>
      if users[i].password != password then Failure(WrongPassword)
      else Success(Profile(users[i].email, users[i].name))
  }

  /** After a successful sign-up, signing in with the same email and password
      succeeds and returns the email and name given at sign-up. */
  lemma SignInAfterSignUp(users: seq<User>, email: string, password: string, name: string)
    requires Register(users, email, password, name).0.Success?
    ensures Authenticate(Register(users, email, password, name).1, email, password) == Success(Profile(email, name))
  {
    FindAppended(users, User(email, password, name));
  }

  /** `getCurrentUser`: succeeds exactly when a token is stored, and then
      always names the demonstration account. */
  function CurrentUser(token: Option<string>): (r: Result<string, string>)
    ensures r.Ok? <==> token.Some? && token.value != ""
    ensures r.Ok? ==> r.value == DemoEmail
    ensures r.Err? ==> r.error == NoUser
  {
    if token.Some? && token.value != "" then Ok(DemoEmail) else Err(NoUser)
  }

  /** `getCurrentSession`: succeeds exactly when a token is stored, and its
      ID token is that same token. */
  function CurrentSession(token: Option<string>): (r: Result<string, string>)
    ensures r.Ok? <==> token.Some? && token.value != ""
    ensures r.Ok? ==> token == Some(r.value)
    ensures r.Err? ==> r.error == NoSession
  {
    if token.Some? && token.value != "" then Ok(token.value) else Err(NoSession)
  }

  /** The service with its module-level table `mockUsers`. */
  class AuthService {
    var mockUsers: seq<User>

    ghost predicate Valid()
      reads this
    {
      UniqueEmails(mockUsers)
    }

    constructor ()
      ensures Valid() && mockUsers == InitialUsers
    {
      mockUsers := InitialUsers;
      assert InitialUsers[1].email[0] != InitialUsers[2].email[0];
    }

    /** `signUp`: refuse a known email, then a short password; otherwise
      push the user and return its email and name. */
    method SignUp(email: string, password: string, name: string) returns (o: Outcome)
      requires Valid()
      modifies this
      ensures Valid()
      ensures (o, mockUsers) == Register(old(mockUsers), email, password, name)
    {
      var existing := FindIndex(mockUsers, email);
      if existing.Some? {
        return Failure(EmailTaken);
      }
      if |password| < 6 {
        return Failure(PasswordTooShort);
      }
      mockUsers := mockUsers + [User(email, password, name)];
      o := Success(Profile(email, name));
    }

    /** `signIn`: reads the table and never changes it. */
    method SignIn(email: string, password: string) returns (o: Outcome)
      ensures o == Authenticate(mockUsers, email, password)
    {
      var found := FindIndex(mockUsers, email);
      if found.None? {
        return Failure(NoAccount);
      }
      var user := mockUsers[found.value];
      if user.password != password {
        return Failure(WrongPassword);
      }
      o := Success(Profile(user.email, user.name));
    }
  }
}
