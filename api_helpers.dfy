/** Response classification and request-option construction shared by
    every screen that talks to the backend. */
module ApiHelpers {
  import opened Outcomes
  import opened Decimal
  import opened JsString

  /** What `response.json()` yields: the parsed body (with its `message`
      field, if any) or the error it throws on a malformed body. */
  datatype Body<T> = Parsed(message: Option<string>, data: T) | Unparsable(syntaxError: string)

  datatype HttpResponse<T> = HttpResponse(status: nat, body: Body<T>)

  /** `response.ok`. */
  predicate IsOk(status: nat) {
    200 <= status <= 299
  }

  /** "Your session has expired. Please log in again." */
  const SessionExpired := "Your " + "session has expired" + ". Please log in again."

  /** The outcome of `handleApiResponse`: what it returns or throws, and
      whether it scheduled the delayed `logout()`. */
  datatype Handled<T> = Handled(result: Result<T>, logoutScheduled: bool)

  /** The message thrown for a non-ok status: the body's `message` when it
      is a non-empty string, else `API Error: <status>`. A body that does
      not parse is read as `{}`. */
  function ApiErrorMessage<T>(r: HttpResponse<T>): (m: string)
    ensures r.body.Parsed? && r.body.message.Some? && r.body.message.value != "" ==> m == r.body.message.value
    ensures !(r.body.Parsed? && r.body.message.Some? && r.body.message.value != "") ==>
              m == "API Error: " + NatToString(r.status)
  {
    match r.body
    case Parsed(msg, _) => OptionOrElse(msg, "API Error: " + NatToString(r.status))
    case Unparsable(_) => "API Error: " + NatToString(r.status)
  }

  /** `handleApiResponse(response, logout)`. */
  function HandleApiResponse<T>(r: HttpResponse<T>, hasLogout: bool): (h: Handled<T>)
    ensures h.logoutScheduled <==> r.status == 401 && hasLogout
    ensures r.status == 401 && hasLogout ==> h.result == Err(SessionExpired)
    ensures !(r.status == 401 && hasLogout) && !IsOk(r.status) ==> h.result == Err(ApiErrorMessage(r))
    ensures IsOk(r.status) && r.body.Parsed? ==> h.result == Ok(r.body.data)
    ensures IsOk(r.status) && r.body.Unparsable? ==> h.result == Err(r.body.syntaxError)
  {
    if r.status == 401 && hasLogout then Handled(Err(SessionExpired), true)
    else if !IsOk(r.status) then Handled(Err(ApiErrorMessage(r)), false)
    else match r.body
      case Parsed(_, data) => Handled(Ok(data), false)
      case Unparsable(e) => Handled(Err(e), false)
  }

  /** A body is handed back exactly when the status is 2xx and the body
      parses; a 401 never yields a body, with or without a logout callback. */
  lemma HandleOkIff<T>(r: HttpResponse<T>, hasLogout: bool)
    ensures HandleApiResponse(r, hasLogout).result.Ok? <==> IsOk(r.status) && r.body.Parsed?
    ensures r.status == 401 ==> HandleApiResponse(r, hasLogout).result.Err?
  {
  }

  /** Every error a non-ok status produces carries a non-empty message,
      whether or not a logout callback was given. */
  lemma ApiErrorsHaveMessages<T>(r: HttpResponse<T>, hasLogout: bool)
    requires !IsOk(r.status)
    ensures HandleApiResponse(r, hasLogout).result.Err?
    ensures HandleApiResponse(r, hasLogout).result.message != ""
  {
  }

  /** Screens suppress their own alert when the message mentions an expired
      session; the message thrown on a 401 does. */
  lemma SessionExpiredIsRecognised()
    ensures Contains(SessionExpired, "session has expired")
  {
    ContainsMiddle("Your ", "session has expired", ". Please log in again.");
  }

  /** The catch block of the list screens: no alert when the message
      reports an expired session (that case ends in the delayed logout),
      otherwise the message, or `fallback` when there is none. */
  function FetchFailureAlert(message: Option<string>, fallback: string): (a: Option<Alert>)
    ensures a.None? <==> message.Some? && Contains(message.value, "session has expired")
    ensures a.Some? ==> a.value.title == "Error" && a.value.message == OptionOrElse(message, fallback)
  {
    if message.Some? && Contains(message.value, "session has expired") then None
    else Some(Alert("Error", OptionOrElse(message, fallback)))
  }

  /** A 401 seen with a logout callback is never reported a second time by
      a list screen, whatever its fallback text. */
  lemma ExpiredSessionIsSilent<T>(r: HttpResponse<T>, fallback: string)
    requires r.status == 401
    ensures FetchFailureAlert(Some(HandleApiResponse(r, true).result.message), fallback).None?
  {
    SessionExpiredIsRecognised();
  }

  /** The `RequestInit` a caller passes: its `headers` (if any) and its other
      fields by name. */
  datatype RequestInit = RequestInit(fields: map<string, string>, headers: Option<map<string, string>>)

  /** The options `createAuthFetchOptions` returns. */
  datatype FetchOptions = FetchOptions(fields: map<string, string>, headers: map<string, string>)

  const ContentType := "Content-Type"
  const Authorization := "Authorization"

  function CallerHeaders(options: RequestInit): map<string, string> {
    match options.headers
    case Some(h) => h
    case None => map[]
  }

  /** `Bearer <token>` for a truthy token, "" otherwise. */
  function AuthorizationValue(token: Option<string>): (v: string)
    ensures token.Some? && token.value != "" ==> v == "Bearer " + token.value
    ensures token.None? || token.value == "" ==> v == ""
  {
    if token.Some? && token.value != "" then "Bearer " + token.value else ""
  }

  /** `createAuthFetchOptions(token, options)`: the caller's fields and
      headers are kept, `Content-Type` is forced to JSON and `Authorization`
      is set from the token, both overriding what the caller gave. */
  function CreateAuthFetchOptions(token: Option<string>, options: RequestInit): (r: FetchOptions)
    ensures r.fields == options.fields
    ensures r.headers.Keys == CallerHeaders(options).Keys + {ContentType, Authorization}
    ensures r.headers[ContentType] == "application/json"
    ensures r.headers[Authorization] == AuthorizationValue(token)
    ensures forall k :: k in CallerHeaders(options) && k != ContentType && k != Authorization ==>
              r.headers[k] == CallerHeaders(options)[k]
  {
    FetchOptions(options.fields,
      CallerHeaders(options)[ContentType := "application/json"][Authorization := AuthorizationValue(token)])
  }

  /** Passing the result of `createAuthFetchOptions` back through it with
      the same token changes nothing. */
  lemma CreateAuthFetchOptionsIdempotent(token: Option<string>, options: RequestInit)
    ensures var once := CreateAuthFetchOptions(token, options);
            CreateAuthFetchOptions(token, RequestInit(once.fields, Some(once.headers))) == once
  {
    var once := CreateAuthFetchOptions(token, options);
    var twice := CreateAuthFetchOptions(token, RequestInit(once.fields, Some(once.headers)));
    assert twice.headers == once.headers;
  }
}
