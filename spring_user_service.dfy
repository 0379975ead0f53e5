/**
 * `UserServiceImpl`: registration with duplicate-email rejection and login with one uniform failure.
 * The password encoder (bcrypt), its matcher and the JWT generator are opaque functions held by the
 * service, as the injected beans are.
 */
module SpringUserService {
  import opened Wrappers
  import opened SpringRepositories

  const EmailRegistered := "Email already registered"
  const InvalidLogin := "Invalid email or password"

  /** What login answers for a table: the token for the email when the password matches, else the one error. */
  function LoginAnswer(byEmail: map<string, User>, email: string, password: string,
                       matches: (string, string) -> bool, generateToken: string -> string): (r: Result<string, string>)
    ensures r.Ok? <==> email in byEmail && matches(password, byEmail[email].password)
    ensures r.Err? ==> r.error == InvalidLogin
    ensures r.Ok? ==> r.value == generateToken(byEmail[email].email)
  {
    if email !in byEmail then Err(InvalidLogin)
    else if !matches(password, byEmail[email].password) then Err(InvalidLogin)
    else Ok(generateToken(byEmail[email].email))
  }

  class UserService {
    const users: UserRepository
    const encode: string -> string
    const matches: (string, string) -> bool
    const generateToken: string -> string

    ghost predicate Valid()
      reads this, users
    {
      users.Valid()
    }

    constructor (users: UserRepository, encode: string -> string, matches: (string, string) -> bool, generateToken: string -> string)
      requires users.Valid()
      ensures Valid() && this.users == users
      ensures this.encode == encode && this.matches == matches && this.generateToken == generateToken
    {
      this.users := users;
      this.encode := encode;
      this.matches := matches;
      this.generateToken := generateToken;
    }

    /** register(request): an existing email is refused; otherwise the email is saved with the encoded password. */
    method Register(email: string, password: string) returns (out: Outcome<string>)
      requires Valid()
      modifies users
      ensures Valid()
      ensures old(email in users.byEmail) ==>
                out == Fail(EmailRegistered) && users.byEmail == old(users.byEmail) && users.nextId == old(users.nextId)
      ensures old(email !in users.byEmail) ==>
                && out == Pass
                && users.byEmail == old(users.byEmail)[email := User(old(users.nextId), email, encode(password))]
                && users.nextId == old(users.nextId) + 1
    {
      if email in users.byEmail {
        return Fail(EmailRegistered);
      }
      var saved := users.Insert(email, encode(password));
      out := Pass;
    }

    /** login(request): reads only. */
    method Login(email: string, password: string) returns (r: Result<string, string>)
      requires Valid()
      ensures r == LoginAnswer(users.byEmail, email, password, matches, generateToken)
      ensures r.Ok? ==> r.value == generateToken(email)
    {
      var user := users.FindByEmail(email);
      if user.None? {
        return Err(InvalidLogin);
      }
      if !matches(password, user.value.password) {
        return Err(InvalidLogin);
      }
      r := Ok(generateToken(user.value.email));
    }
  }

  /** An unknown email and a wrong password are answered identically. */
  lemma LoginFailuresAreIndistinguishable(byEmail: map<string, User>, e1: string, p1: string, e2: string, p2: string,
                                          matches: (string, string) -> bool, generateToken: string -> string)
    requires e1 !in byEmail
    requires e2 in byEmail && !matches(p2, byEmail[e2].password)
    ensures LoginAnswer(byEmail, e1, p1, matches, generateToken) == LoginAnswer(byEmail, e2, p2, matches, generateToken)
  {
  }

  /**
   * Registering and then logging in with the same password, for an encoder its matcher accepts, yields
   * the token generated from the email.
   */
  lemma RegisterThenLogin(byEmail: map<string, User>, nextId: int, email: string, password: string,
                          encode: string -> string, matches: (string, string) -> bool, generateToken: string -> string)
    requires email !in byEmail && matches(password, encode(password))
    ensures LoginAnswer(byEmail[email := User(nextId, email, encode(password))], email, password, matches, generateToken)
              == Ok(generateToken(email))
  {
  }
}
