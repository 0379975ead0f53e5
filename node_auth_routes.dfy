/**
 * The Node `/api/auth` routes: signup and login guard chains over the `users` table. Hashing,
 * password comparison and token signing are opaque functions passed in; the table is a map from
 * email to row, since emails are unique. A token is signed over the user id and the second it is
 * issued at, which fixes its expiry an hour later; the clock is a parameter.
 */
module NodeAuthRoutes {
  import opened Wrappers

  datatype UserRow = UserRow(id: int, email: string, passwordHash: string)

  /** The `users` table and its next AUTO_INCREMENT id. */
  datatype Users = Users(byEmail: map<string, UserRow>, nextId: int)

  datatype AuthBody =
    | Message(message: string)
    | Session(message: string, token: string, id: int, email: string)

  datatype AuthResponse = AuthResponse(status: int, body: AuthBody)

  /** A handler's answer and the table after it. */
  datatype Outcome = Outcome(response: AuthResponse, users: Users)

  const MissingFields := "Please enter all fields"
  const EmailTaken := "User with this email already exists"
  const Registered := "User registered successfully"
  const InvalidCredentials := "Invalid credentials"
  const LoggedIn := "Logged in successfully"

  /** `!email || !password` fails: both must be present and non-empty. */
  predicate Given(o: Option<string>) { o.Some? && o.value != "" }

  /**
   * POST /api/auth/signup at time now. hash stands for bcrypt with a fresh salt and sign(id, now)
   * for a token over the payload `{ id }` issued at now.
   */
  function Signup(users: Users, email: Option<string>, password: Option<string>,
                  hash: string -> string, sign: (int, int) -> string, now: int): (o: Outcome)
    ensures !(Given(email) && Given(password)) ==> o == Outcome(AuthResponse(400, Message(MissingFields)), users)
    ensures Given(email) && Given(password) && email.value in users.byEmail ==>
              o == Outcome(AuthResponse(400, Message(EmailTaken)), users)
    ensures o.response.status == 201 <==> Given(email) && Given(password) && email.value !in users.byEmail
    ensures o.response.status == 201 ==>
              && o.response.body == Session(Registered, sign(users.nextId, now), users.nextId, email.value)
              && o.users.byEmail == users.byEmail[email.value := UserRow(users.nextId, email.value, hash(password.value))]
              && o.users.nextId == users.nextId + 1
  {
    if !Given(email) || !Given(password) then Outcome(AuthResponse(400, Message(MissingFields)), users)
    else if email.value in users.byEmail then Outcome(AuthResponse(400, Message(EmailTaken)), users)
    else
      var row := UserRow(users.nextId, email.value, hash(password.value));
      Outcome(AuthResponse(201, Session(Registered, sign(row.id, now), row.id, row.email)),
              Users(users.byEmail[email.value := row], users.nextId + 1))
  }

  /** POST /api/auth/login at time now. compare stands for bcrypt's comparison of a password with a stored hash. */
  function Login(users: Users, email: Option<string>, password: Option<string>,
                 compare: (string, string) -> bool, sign: (int, int) -> string, now: int): (r: AuthResponse)
    ensures !(Given(email) && Given(password)) ==> r == AuthResponse(400, Message(MissingFields))
    ensures r.status == 200 <==>
              Given(email) && Given(password) && email.value in users.byEmail
              && compare(password.value, users.byEmail[email.value].passwordHash)
    ensures r.status == 200 ==>
              var u := users.byEmail[email.value];
              r.body == Session(LoggedIn, sign(u.id, now), u.id, u.email)
  {
    if !Given(email) || !Given(password) then AuthResponse(400, Message(MissingFields))
    else if email.value !in users.byEmail then AuthResponse(400, Message(InvalidCredentials))
    else
      var u := users.byEmail[email.value];
      if !compare(password.value, u.passwordHash) then AuthResponse(400, Message(InvalidCredentials))
      else AuthResponse(200, Session(LoggedIn, sign(u.id, now), u.id, u.email))
  }

  /** Signup only ever adds a row: every existing email keeps its row (login is a read and changes nothing). */
  lemma SignupKeepsExistingUsers(users: Users, email: Option<string>, password: Option<string>,
                                 hash: string -> string, sign: (int, int) -> string, now: int)
    ensures var o := Signup(users, email, password, hash, sign, now);
            forall e :: e in users.byEmail ==> e in o.users.byEmail && o.users.byEmail[e] == users.byEmail[e]
  {
  }

  /**
   * An unknown email and a wrong password give the very same answer, so the response does not reveal
   * whether an account exists.
   */
  lemma LoginFailuresAreIndistinguishable(users: Users, e1: string, p1: string, e2: string, p2: string,
                                          compare: (string, string) -> bool, sign: (int, int) -> string, now: int)
    requires e1 != "" && p1 != "" && e2 != "" && p2 != ""
    requires e1 !in users.byEmail
    requires e2 in users.byEmail && !compare(p2, users.byEmail[e2].passwordHash)
    ensures Login(users, Some(e1), Some(p1), compare, sign, now) == Login(users, Some(e2), Some(p2), compare, sign, now)
    ensures Login(users, Some(e1), Some(p1), compare, sign, now) == AuthResponse(400, Message(InvalidCredentials))
  {
  }

  /**
   * Signing up at one time and then logging in with the same password at another (for a hash the
   * comparison accepts) opens a session for the new id: both tokens are signed over that id, each at
   * the second it was issued.
   */
  lemma SignupThenLogin(users: Users, email: string, password: string,
                        hash: string -> string, compare: (string, string) -> bool, sign: (int, int) -> string,
                        signedUpAt: int, loggedInAt: int)
    requires email != "" && password != "" && email !in users.byEmail
    requires compare(password, hash(password))
    ensures var o := Signup(users, Some(email), Some(password), hash, sign, signedUpAt);
            var l := Login(o.users, Some(email), Some(password), compare, sign, loggedInAt);
            && l.status == 200
            && l.body.id == users.nextId && l.body.email == email
            && o.response.body.id == l.body.id
            && o.response.body.token == sign(users.nextId, signedUpAt)
            && l.body.token == sign(users.nextId, loggedInAt)
  {
  }

  /** Every row is keyed by its own email, has an id below the next one, and no two rows share an id. */
  predicate IdsDistinct(users: Users)
  {
    && (forall e :: e in users.byEmail ==> users.byEmail[e].email == e && users.byEmail[e].id < users.nextId)
    && (forall e1, e2 :: e1 in users.byEmail && e2 in users.byEmail && e1 != e2 ==>
          users.byEmail[e1].id != users.byEmail[e2].id)
  }

  /** Signup keeps every email's row keyed by that email and all ids distinct and below the next id. */
  lemma SignupKeepsIdsDistinct(users: Users, email: Option<string>, password: Option<string>,
                               hash: string -> string, sign: (int, int) -> string, now: int)
    requires IdsDistinct(users)
    ensures IdsDistinct(Signup(users, email, password, hash, sign, now).users)
  {
  }
}
