/** The login and registration screens' logic (LoginScreen, RegisterScreen):
    the checks run on the form before any call to the authentication
    service, the request sent when they pass, the error shown, and what
    happens once the service answers. The service itself is not modelled:
    its answers are the arguments of SignInFailed, SignUpSucceeded and
    SignUpFailed. */
module Auth {
  import opened Text
  import opened Data

  const MinPasswordLength := 6
  const LoginError := "Enter a valid email and 6+ char password"
  const RegisterError := "Fill all fields. Password 6+ chars"

  /** What is sent to the authentication service. */
  datatype Credentials = Credentials(email: string, password: string)

  /** The login check: the request sent, or none when the e-mail is blank or
      the password is shorter than six characters. The e-mail goes trimmed,
      the password as typed. */
  function LoginRequest(email: string, password: string): (r: Option<Credentials>)
    ensures r.None? <==> IsBlank(email) || |password| < MinPasswordLength
    ensures r.Some? ==> r.value.email == Trim(email) && r.value.password == password
  {
    if IsBlank(email) || |password| < MinPasswordLength then None
    else Some(Credentials(Trim(email), password))
  }

  /** The registration check: as for login, and the name must not be blank
      either. */
  function RegisterRequest(name: string, email: string, password: string): (r: Option<Credentials>)
    ensures r.None? <==> IsBlank(name) || IsBlank(email) || |password| < MinPasswordLength
    ensures r.Some? ==> r.value.email == Trim(email) && r.value.password == password
  {
    if IsBlank(name) then None else LoginRequest(email, password)
  }

  /** An accepted e-mail is sent as a non-empty string with no surrounding
      whitespace, a substring of what was typed. */
  lemma AcceptedEmailIsTrimmed(email: string, password: string)
    requires LoginRequest(email, password).Some?
    ensures var sent := LoginRequest(email, password).value.email;
      && sent != []
      && !IsWhitespace(sent[0]) && !IsWhitespace(sent[|sent| - 1])
      && sent == email[LeadingSpace(email)..LeadingSpace(email) + |sent|]
  {
  }

  /** What happens after a successful sign-up, in order. */
  datatype RegisterEffect = UpdateDisplayName(displayName: string) | Registered

  /** The display name is updated first only when the service returned a
      user and the name is not blank; onRegistered runs once at the end in
      either case (after the update completes, whether or not it
      succeeded). */
  function SignUpEffects(user: Option<AuthUser>, name: string): (effects: seq<RegisterEffect>)
    ensures |effects| >= 1 && effects[|effects| - 1] == Registered
    ensures multiset(effects)[Registered] == 1
    ensures UpdateDisplayName(name) in effects <==> user.Some? && !IsBlank(name)
    ensures multiset(effects)[UpdateDisplayName(name)] <= 1
    ensures forall e :: e in effects && e.UpdateDisplayName? ==> e == UpdateDisplayName(name)
  {
    if user.Some? && !IsBlank(name) then [UpdateDisplayName(name), Registered] else [Registered]
  }

  /** The login form's state. */
  class LoginForm {
    var email: string
    var password: string
    var showPassword: bool
    var error: Option<string>

    constructor ()
      ensures email == "" && password == "" && !showPassword && error.None?
    {
      email := "";
      password := "";
      showPassword := false;
      error := None;
    }

    /** The "Show"/"Hide" button of the password field. */
    method TogglePassword()
      modifies this`showPassword
      ensures showPassword == !old(showPassword)
    {
      showPassword := !showPassword;
    }

    /** "Login": clear the previous error, then either show the check's error
      and send nothing, or send the request. */
    method Submit() returns (request: Option<Credentials>)
      modifies this`error
      ensures request == LoginRequest(email, password)
      ensures request.None? ==> error == Some(LoginError)
      ensures request.Some? ==> error.None?
    {
      error := None;
      request := LoginRequest(email, password);
      if request.None? {
        error := Some(LoginError);
      }
    }

    /** The service refused the sign-in: show its message (which may be
      missing). */
    method SignInFailed(message: Option<string>)
      modifies this`error
      ensures error == message
    {
      error := message;
    }
  }

  /** The registration form's state. */
  class RegisterForm {
    var name: string
    var email: string
    var password: string
    var showPassword: bool
    var error: Option<string>

    constructor ()
      ensures name == "" && email == "" && password == "" && !showPassword && error.None?
    {
      name := "";
      email := "";
      password := "";
      showPassword := false;
      error := None;
    }

    method TogglePassword()
      modifies this`showPassword
      ensures showPassword == !old(showPassword)
    {
      showPassword := !showPassword;
    }

    /** "Register": clear the previous error, then either show the check's
      error and send nothing, or send the request. */
    method Submit() returns (request: Option<Credentials>)
      modifies this`error
      ensures request == RegisterRequest(name, email, password)
      ensures request.None? ==> error == Some(RegisterError)
      ensures request.Some? ==> error.None?
    {
      error := None;
      request := RegisterRequest(name, email, password);
      if request.None? {
        error := Some(RegisterError);
      }
    }

    /** The service created the account and returned user: what the screen
      does next, with the name as the form holds it then. */
    method SignUpSucceeded(user: Option<AuthUser>) returns (effects: seq<RegisterEffect>)
      ensures effects == SignUpEffects(user, name)
    {
      effects := SignUpEffects(user, name);
    }

    /** The service refused the sign-up: show its message. */
    method SignUpFailed(message: Option<string>)
      modifies this`error
      ensures error == message
    {
      error := message;
    }
  }
}
