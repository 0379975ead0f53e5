/**
 * The SignUp page of the Spring frontend: two password guards, then registration followed by an
 * automatic login with the same credentials, whose token is kept in local storage.
 */
module SignUpPage {
  import opened Wrappers

  const PasswordsDiffer := "Passwords do not match"
  const PasswordTooShort := "Password must be at least 6 characters"
  const RegistrationFailed := "Registration failed. Please try again."
  const MinPasswordLength := 6

  /** The guards in order: the match first, then the length. */
  function Validate(password: string, confirmPassword: string): (r: Option<string>)
    ensures r == Some(PasswordsDiffer) <==> password != confirmPassword
    ensures r == Some(PasswordTooShort) <==> password == confirmPassword && |password| < MinPasswordLength
    ensures r.None? <==> password == confirmPassword && |password| >= MinPasswordLength
  {
    if password != confirmPassword then Some(PasswordsDiffer)
    else if |password| < MinPasswordLength then Some(PasswordTooShort)
    else None
  }

  datatype ApiCall = Register(email: string, password: string) | Login(email: string, password: string)

  /** `err.response?.data || 'Registration failed. Please try again.'` */
  function ErrorText(data: string): string
  {
    if data != "" then data else RegistrationFailed
  }

  class SignUp {
    var email: string
    var password: string
    var confirmPassword: string
    var error: string
    var loading: bool
    var storage: map<string, string>

    constructor (storage: map<string, string>)
      ensures email == "" && password == "" && confirmPassword == "" && error == "" && !loading
      ensures this.storage == storage
    {
      email := "";
      password := "";
      confirmPassword := "";
      error := "";
      loading := false;
      this.storage := storage;
    }

    /**
     * handleSubmit. registerAnswer and loginAnswer stand for the two requests' outcomes, a failure
     * carrying the response data. Returns the requests made, in order, and the route navigated to.
     */
    method HandleSubmit(registerAnswer: Outcome<string>, loginAnswer: Result<string, string>)
      returns (calls: seq<ApiCall>, navigateTo: Option<string>)
      modifies this
      ensures email == old(email) && password == old(password) && confirmPassword == old(confirmPassword)
      ensures Validate(password, confirmPassword).Some? ==>
                && calls == [] && navigateTo == None
                && error == Validate(password, confirmPassword).value
                && storage == old(storage) && loading == old(loading)
      ensures Validate(password, confirmPassword).None? ==> !loading
      ensures Validate(password, confirmPassword).None? && registerAnswer.Fail? ==>
                && calls == [Register(email, password)] && navigateTo == None
                && error == ErrorText(registerAnswer.error) && storage == old(storage)
      ensures Validate(password, confirmPassword).None? && registerAnswer.Pass? && loginAnswer.Err? ==>
                && calls == [Register(email, password), Login(email, password)] && navigateTo == None
                && error == ErrorText(loginAnswer.error) && storage == old(storage)
      ensures Validate(password, confirmPassword).None? && registerAnswer.Pass? && loginAnswer.Ok? ==>
                && calls == [Register(email, password), Login(email, password)]
                && navigateTo == Some("/dashboard") && error == ""
                && storage == old(storage)["token" := loginAnswer.value]["userEmail" := email]
    {
      error := "";
      if password != confirmPassword {
        error := PasswordsDiffer;
        return [], None;
      }
      if |password| < MinPasswordLength {
        error := PasswordTooShort;
        return [], None;
      }
      loading := true;
      calls := [Register(email, password)];
      navigateTo := None;
      if registerAnswer.Fail? {
        error := ErrorText(registerAnswer.error);
      } else {
        calls := calls + [Login(email, password)];
        if loginAnswer.Err? {
          error := ErrorText(loginAnswer.error);
        } else {
          storage := storage["token" := loginAnswer.value];
          storage := storage["userEmail" := email];
          navigateTo := Some("/dashboard");
        }
      }
      loading := false;
    }
  }
}
