/**
 * The client's classification of HTTP responses: an ok response yields its parsed
 * body; any other response becomes an `ApiError` that carries the status, the
 * server's message when it sent one, and, for a 400 with a message, the
 * structured validation errors.
 */
module ApiErrors {
  import opened Wrappers
  import opened JsText

  /** `ApiValidationError`. */
  datatype FieldError = FieldError(field: string, message: string)

  /** `ApiError`: an `Error` whose `name` is "ApiError". */
  datatype ApiError = ApiError(
    name: string,
    message: string,
    status: int,
    validationErrors: Option<seq<FieldError>>)

  /** `new ApiError(message, status, validationErrors)`. */
  function NewApiError(message: string, status: int, validationErrors: Option<seq<FieldError>>): (e: ApiError)
    ensures e.name == "ApiError"
    ensures e.message == message && e.status == status && e.validationErrors == validationErrors
  {
    ApiError("ApiError", message, status, validationErrors)
  }

  /**
   * The `message` member of a JSON error body: absent (or null), a string, or a list of
   * strings (what the server sends for failed request validation).
   */
  datatype JsonMessage = NoMessage | Text(text: string) | TextList(texts: seq<string>)

  /** JavaScript truthiness of the member: the empty string is falsy, every array truthy. */
  predicate Truthy(m: JsonMessage) {
    match m
    case NoMessage => false
    case Text(t) => t != ""
    case TextList(_) => true
  }

  /** The text `Error`'s constructor makes of the member (`String(value)`). */
  function MessageText(m: JsonMessage): string {
    match m
    case NoMessage => ""
    case Text(t) => t
    case TextList(ts) => Join(ts, ",")
  }

  /** A parsed JSON body: the two members the classifier reads, and the rest as `payload`. */
  datatype JsonBody<T> = JsonBody(message: JsonMessage, errors: Option<seq<FieldError>>, payload: T)

  /**
   * A fetch response: its status, its `content-type` header if any, and its body parsed
   * as JSON (`None` when the body is not valid JSON, so that `response.json()` throws).
   */
  datatype HttpResponse<T> = HttpResponse(status: int, contentType: Option<string>, json: Option<JsonBody<T>>)

  /** `response.ok`: a status in the range 200 to 299. */
  predicate IsOk<T>(r: HttpResponse<T>) {
    200 <= r.status <= 299
  }

  predicate DeclaresJson<T>(r: HttpResponse<T>) {
    r.contentType.Some? && Includes(r.contentType.value, "application/json")
  }

  /** What awaiting `handleApiResponse(response)` produces. */
  datatype Handled<T> =
    | Returned(body: JsonBody<T>)
    | ThrewApiError(error: ApiError)
    | ThrewParseError

  /** `errorData`: the parsed body when the response declares JSON, else `undefined`. */
  function ErrorData<T>(r: HttpResponse<T>): Option<JsonBody<T>>
    requires DeclaresJson(r) ==> r.json.Some?
  {
    if DeclaresJson(r) then r.json else None
  }

  /**
   * `handleApiResponse(response)`: an ok response yields its parsed body; any other
   * response throws an `ApiError` with its status, once its JSON body (if declared) has
   * been read. Reading a body that is not JSON throws instead.
   */
  function HandleApiResponse<T>(r: HttpResponse<T>): (h: Handled<T>)
    ensures h.Returned? <==> IsOk(r) && r.json.Some?
    ensures h.Returned? ==> h.body == r.json.value
    ensures h.ThrewParseError? <==> r.json.None? && (IsOk(r) || DeclaresJson(r))
    ensures h.ThrewApiError? ==> !IsOk(r) && h.error.name == "ApiError" && h.error.status == r.status
  {
    if !IsOk(r) then
      if DeclaresJson(r) && r.json.None? then ThrewParseError
      else
        var errorData := ErrorData(r);
        var message := if errorData.Some? then errorData.value.message else NoMessage;
        if r.status == 400 && Truthy(message) then
          var validationErrors := if errorData.value.errors.Some? then errorData.value.errors.value else [];
          ThrewApiError(NewApiError(if Truthy(message) then MessageText(message) else "Validation error",
                                    r.status, Some(validationErrors)))
        else
          ThrewApiError(NewApiError(if Truthy(message) then MessageText(message)
                                    else "Request failed with status " + IntToString(r.status),
                                    r.status, None))
    else if r.json.None? then ThrewParseError
    else Returned(r.json.value)
  }

  /** An ok response with a JSON body returns that body and throws nothing. */
  lemma OkReturnsBody<T>(r: HttpResponse<T>)
    requires IsOk(r) && r.json.Some?
    ensures HandleApiResponse(r) == Returned(r.json.value)
  {
  }

  /**
   * Every other response throws an `ApiError` with its status, unless it declares a
   * JSON body that does not parse (then `response.json()` throws first).
   */
  lemma NotOkThrowsApiError<T>(r: HttpResponse<T>)
    requires !IsOk(r)
    ensures HandleApiResponse(r).ThrewApiError? <==> !DeclaresJson(r) || r.json.Some?
    ensures HandleApiResponse(r).ThrewApiError? ==>
              HandleApiResponse(r).error.status == r.status && HandleApiResponse(r).error.name == "ApiError"
    ensures !HandleApiResponse(r).Returned?
  {
  }

  /**
   * A 400 whose JSON body has a truthy message: the error's message is the body's (so the
   * "Validation error" fallback is never used) and its validation errors are the body's
   * `errors`, or none.
   */
  lemma BadRequestCarriesValidationErrors<T>(r: HttpResponse<T>)
    requires r.status == 400 && DeclaresJson(r) && r.json.Some? && Truthy(r.json.value.message)
    ensures HandleApiResponse(r) ==
      ThrewApiError(ApiError("ApiError", MessageText(r.json.value.message), 400,
                             Some(r.json.value.errors.GetOr([]))))
  {
  }

  /** Validation errors are attached only in that 400 case. */
  lemma ValidationErrorsOnlyForBadRequest<T>(r: HttpResponse<T>)
    requires HandleApiResponse(r).ThrewApiError? && HandleApiResponse(r).error.validationErrors.Some?
    ensures r.status == 400 && DeclaresJson(r) && r.json.Some? && Truthy(r.json.value.message)
    ensures HandleApiResponse(r).error.message == MessageText(r.json.value.message)
  {
  }

  /**
   * Any other failure: the body's message if it has a truthy one, else
   * "Request failed with status <status>"; no validation errors.
   */
  lemma OtherFailureMessage<T>(r: HttpResponse<T>)
    requires !IsOk(r) && (!DeclaresJson(r) || r.json.Some?)
    requires !(r.status == 400 && DeclaresJson(r) && Truthy(r.json.value.message))
    ensures HandleApiResponse(r).ThrewApiError?
    ensures HandleApiResponse(r).error.validationErrors.None?
    ensures HandleApiResponse(r).error.message ==
      if DeclaresJson(r) && Truthy(r.json.value.message) then MessageText(r.json.value.message)
      else "Request failed with status " + IntToString(r.status)
  {
  }

  /** A failed response that does not declare JSON is classified without reading its body. */
  lemma BodyIgnoredWithoutJsonContentType<T>(r: HttpResponse<T>, other: Option<JsonBody<T>>)
    requires !IsOk(r) && !DeclaresJson(r)
    ensures HandleApiResponse(r) == HandleApiResponse(r.(json := other))
  {
  }

  lemma StatusText404()
    ensures IntToString(404) == "404"
  {
    assert NatToString(4) == "4";
    assert NatToString(40) == "40";
  }

  /** A 404 with an HTML body: the message names the status. */
  lemma NotFoundExample<T>(payload: T)
    ensures HandleApiResponse(HttpResponse(404, Some("text/html"), Some(JsonBody(Text("x"), None, payload))))
            == ThrewApiError(ApiError("ApiError", "Request failed with status 404", 404, None))
  {
    var r := HttpResponse(404, Some("text/html"), Some(JsonBody(Text("x"), None, payload)));
    ShorterNotIncluded("text/html", "application/json");
    OtherFailureMessage(r);
    StatusText404();
  }

  /** What a rejected promise carries: an `Error` with its `message`, or any other value. */
  datatype Thrown = ErrorObject(message: string) | OtherValue(text: string)

  /** `err instanceof Error ? err.message : String(err)`, where `text` is `String(err)`. */
  function ErrorMessage(t: Thrown): (m: string)
    ensures t.ErrorObject? ==> m == t.message
    ensures t.OtherValue? ==> m == t.text
  {
    match t
    case ErrorObject(m) => m
    case OtherValue(s) => s
  }

  /** How an awaited promise settles. */
  datatype Settled<T> = Fulfilled(value: T) | RejectedWith(reason: Thrown)

  /**
   * Awaiting `handleApiResponse`: the body fulfils the promise; an `ApiError` (an `Error`)
   * rejects it with its message; a body that does not parse rejects it with the JSON
   * parser's `SyntaxError`, whose text `syntaxMessage` the runtime chooses.
   */
  function Settle<T>(h: Handled<T>, syntaxMessage: string): Settled<JsonBody<T>> {
    match h
    case Returned(body) => Fulfilled(body)
    case ThrewApiError(e) => RejectedWith(ErrorObject(e.message))
    case ThrewParseError => RejectedWith(ErrorObject(syntaxMessage))
  }

  /**
   * The message a caller catches for a failed response whose body could be read: the
   * body's message when it has a truthy one, otherwise "Request failed with status <status>"
   * (the "Validation error" fallback can never be chosen).
   */
  lemma CaughtMessage<T>(r: HttpResponse<T>, syntaxMessage: string)
    requires !IsOk(r) && (!DeclaresJson(r) || r.json.Some?)
    ensures Settle(HandleApiResponse(r), syntaxMessage).RejectedWith?
    ensures ErrorMessage(Settle(HandleApiResponse(r), syntaxMessage).reason) ==
      if DeclaresJson(r) && Truthy(r.json.value.message) then MessageText(r.json.value.message)
      else "Request failed with status " + IntToString(r.status)
  {
  }

  /** Only an ok response with a parsable body fulfils the promise, and with that body. */
  lemma FulfilledIffOk<T>(r: HttpResponse<T>, syntaxMessage: string)
    ensures Settle(HandleApiResponse(r), syntaxMessage).Fulfilled? <==> IsOk(r) && r.json.Some?
    ensures Settle(HandleApiResponse(r), syntaxMessage).Fulfilled? ==>
              Settle(HandleApiResponse(r), syntaxMessage).value == r.json.value
  {
  }
}
