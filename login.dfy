/** The Login screen: registration id and password, their errors, and what
    the login response leads to. */
module Login {
  import opened Outcomes
  import opened JsString
  import opened Session
  import opened ApiHelpers

  /** The keys of the `errors` object. */
  datatype Field = RegistrationId | Password

  const IdRequired := "Registration ID is required"
  const PasswordRequired := "Password is required"

  /** The error object `validate` builds: an entry for each blank field.
      The fields pass exactly when no key is set. */
  function LoginErrors(registrationId: string, password: string): (e: map<Field, string>)
    ensures e.Keys <= {RegistrationId, Password}
    ensures RegistrationId in e <==> IsBlank(registrationId)
    ensures RegistrationId in e ==> e[RegistrationId] == IdRequired
    ensures Password in e <==> IsBlank(password)
    ensures Password in e ==> e[Password] == PasswordRequired
    ensures e.Keys == {} <==> !IsBlank(registrationId) && !IsBlank(password)
  {
    var withId := if IsBlank(registrationId) then map[RegistrationId := IdRequired] else map[];
    if IsBlank(password) then withId[Password := PasswordRequired] else withId
  }

  /** The body of `POST /auth/login`: both fields as typed. */
  datatype LoginBody = LoginBody(registrationId: string, password: string)

  /** The request: options built without a token, and the body. */
  datatype LoginRequest = LoginRequest(options: FetchOptions, body: LoginBody)

  /** What the POST produced: a parsed response, or a failure of the fetch
      or of reading its JSON body. */
  datatype LoginResponse =
    | Responded(ok: bool, accessToken: Option<string>, user: Option<User>, message: Option<string>)
    | NetworkFailure

  /** `login(access_token, user)`. */
  datatype SignIn = SignedIn(token: string, user: Option<User>)

  /** A session starts exactly when the response is ok and carries a
      non-empty access token; otherwise the failure is reported. */
  function LoginOutcome(r: LoginResponse): (o: (Option<SignIn>, Option<Alert>))
    ensures o.0.Some? <==> r.Responded? && r.ok && r.accessToken.Some? && r.accessToken.value != ""
    ensures o.0.Some? ==> o.0 == Some(SignedIn(r.accessToken.value, r.user)) && o.1.None?
    ensures r.NetworkFailure? ==> o.1 == Some(Alert("Network Error", "Unable to connect to server."))
    ensures o.0.None? && r.Responded? ==> o.1 == Some(Alert("Login Failed", OptionOrElse(r.message, "Invalid credentials")))
  {
    match r
    case NetworkFailure => (None, Some(Alert("Network Error", "Unable to connect to server.")))
    case Responded(ok, token, user, message) =>
      if ok && token.Some? && token.value != "" then (Some(SignedIn(token.value, user)), None)
      else (None, Some(Alert("Login Failed", OptionOrElse(message, "Invalid credentials"))))
  }

  /** Exactly one of the two happens: a session or an alert. */
  lemma LoginOutcomeExclusive(r: LoginResponse)
    ensures LoginOutcome(r).0.Some? != LoginOutcome(r).1.Some?
  {
  }

  /** The login request carries no credentials of its own: its
      `Authorization` header is empty. */
  lemma LoginRequestUnauthenticated()
    ensures CreateAuthFetchOptions(None, RequestInit(map[], None)).headers[Authorization] == ""
    ensures CreateAuthFetchOptions(None, RequestInit(map[], None)).headers[ContentType] == "application/json"
  {
  }

  /** The form's state. */
  class LoginForm {
    var registrationId: string
    var password: string
    var showPassword: bool
    var errors: map<Field, string>

    constructor()
      ensures registrationId == "" && password == "" && !showPassword && errors == map[]
    {
      registrationId, password, showPassword := "", "", false;
      errors := map[];
    }

    /** `validate`: a fresh error object with an entry for each blank field. */
    method Validate() returns (isValid: bool)
      modifies this
      ensures registrationId == old(registrationId) && password == old(password) && showPassword == old(showPassword)
      ensures errors == LoginErrors(registrationId, password)
      ensures isValid <==> errors.Keys == {}
      ensures isValid <==> !IsBlank(registrationId) && !IsBlank(password)
    {
      var newErrors: map<Field, string> := map[];
      if IsBlank(registrationId) {
        newErrors := newErrors[RegistrationId := IdRequired];
      }
      if IsBlank(password) {
        newErrors := newErrors[Password := PasswordRequired];
      }
      errors := newErrors;
      isValid := newErrors.Keys == {};
    }

    /** Typing in a field clears that field's error (to the empty string)
      and leaves the other error as it was. */
    method ChangeRegistrationId(text: string)
      modifies this
      ensures registrationId == text && password == old(password) && showPassword == old(showPassword)
      ensures errors == old(errors)[RegistrationId := ""]
    {
      registrationId := text;
      errors := errors[RegistrationId := ""];
    }

    method ChangePassword(text: string)
      modifies this
      ensures password == text && registrationId == old(registrationId) && showPassword == old(showPassword)
      ensures errors == old(errors)[Password := ""]
    {
      password := text;
      errors := errors[Password := ""];
    }

    method ToggleShowPassword()
      modifies this
      ensures showPassword == !old(showPassword)
      ensures registrationId == old(registrationId) && password == old(password) && errors == old(errors)
    {
      showPassword := !showPassword;
    }

    /** `handleLogin`: nothing is sent unless both fields are filled in;
      `response` is what the POST produced. */
    method HandleLogin(response: LoginResponse) returns (request: Option<LoginRequest>, signIn: Option<SignIn>, alert: Option<Alert>)
      modifies this
      ensures registrationId == old(registrationId) && password == old(password) && showPassword == old(showPassword)
      ensures errors == LoginErrors(registrationId, password)
      ensures request.Some? <==> !IsBlank(registrationId) && !IsBlank(password)
      ensures request.Some? ==>
                request.value == LoginRequest(CreateAuthFetchOptions(None, RequestInit(map[], None)), LoginBody(registrationId, password))
      ensures request.None? ==> signIn.None? && alert.None?
      ensures request.Some? ==> (signIn, alert) == LoginOutcome(response)
    {
      var ok := Validate();
      if !ok {
        return None, None, None;
      }
      request := Some(LoginRequest(CreateAuthFetchOptions(None, RequestInit(map[], None)), LoginBody(registrationId, password)));
      var outcome := LoginOutcome(response);
      signIn, alert := outcome.0, outcome.1;
    }
  }
}
