/**
 * The `useRegisterAffiliate` hook: `register(input)` turns a `Date` birth date into its
 * ISO string, posts the body, and records the outcome in `loading`, `error`, `data` and
 * `success`; the returned promise settles as the request did.
 */
module UseRegisterAffiliate {
  import opened Wrappers
  import opened Calendar
  import opened ApiErrors

  /** The form's birth date: a `Date` object or a string, passed as given. */
  datatype BirthDateInput = DateValue(date: Date) | DateText(text: string)

  datatype RegisterAffiliateInput = RegisterAffiliateInput(
    firstName: string,
    lastName: string,
    dni: string,
    phoneNumber: string,
    gender: string,
    birthDate: BirthDateInput)

  /** The JSON body posted to the API: the input with a string birth date. */
  datatype RequestBody = RequestBody(
    firstName: string,
    lastName: string,
    dni: string,
    phoneNumber: string,
    gender: string,
    birthDate: string)

  /** The `RangeError` message `toISOString` throws for an invalid `Date`. */
  const InvalidTimeValue := "Invalid time value"

  /**
   * `{ ...input, birthDate: input.birthDate instanceof Date ? input.birthDate.toISOString()
   * : input.birthDate }`, which throws for a `Date` that holds no valid time.
   */
  function RequestBodyOf(input: RegisterAffiliateInput): (b: Settled<RequestBody>)
    ensures b.RejectedWith? <==> input.birthDate.DateValue? && !ValidDate(input.birthDate.date)
    ensures b.RejectedWith? ==> b.reason == ErrorObject(InvalidTimeValue)
    ensures b.Fulfilled? ==>
              b.value == RequestBody(input.firstName, input.lastName, input.dni, input.phoneNumber,
                                     input.gender, b.value.birthDate)
  {
    match input.birthDate
    case DateText(text) =>
      Fulfilled(RequestBody(input.firstName, input.lastName, input.dni, input.phoneNumber, input.gender, text))
    case DateValue(d) =>
      if ValidDate(d) then
        Fulfilled(RequestBody(input.firstName, input.lastName, input.dni, input.phoneNumber, input.gender, ToIsoString(d)))
      else RejectedWith(ErrorObject(InvalidTimeValue))
  }

  /**
   * The body equals the input except for the birth date: a string is passed through
   * unchanged, a valid `Date` becomes its ISO string, and only an invalid `Date` throws.
   */
  lemma BodyKeepsInput(input: RegisterAffiliateInput)
    ensures RequestBodyOf(input).RejectedWith? <==> input.birthDate.DateValue? && !ValidDate(input.birthDate.date)
    ensures RequestBodyOf(input).RejectedWith? ==> ErrorMessage(RequestBodyOf(input).reason) == InvalidTimeValue
    ensures RequestBodyOf(input).Fulfilled? ==>
              var b := RequestBodyOf(input).value;
              b.firstName == input.firstName && b.lastName == input.lastName && b.dni == input.dni
              && b.phoneNumber == input.phoneNumber && b.gender == input.gender
              && (input.birthDate.DateText? ==> b.birthDate == input.birthDate.text)
              && (input.birthDate.DateValue? ==> b.birthDate == ToIsoString(input.birthDate.date))
  {
  }

  /**
   * A `Date` birth date between years 0 and 9999 is sent as a 24-character ISO string
   * from which the same calendar date is read back.
   */
  lemma BodyBirthDateRoundTrip(input: RegisterAffiliateInput)
    requires input.birthDate.DateValue? && ValidDate(input.birthDate.date)
    requires 0 <= input.birthDate.date.year <= 9999
    ensures RequestBodyOf(input).Fulfilled?
    ensures |RequestBodyOf(input).value.birthDate| == 24
    ensures ParseIsoDate(RequestBodyOf(input).value.birthDate) == input.birthDate.date
  {
    IsoStringRoundTrip(input.birthDate.date);
  }

  /** The hook's state; `T` is the payload of the registration response body. */
  class Registration<T> {
    var loading: bool
    var error: Option<string>
    var data: Option<JsonBody<T>>
    var success: bool
    /** Every body posted so far, oldest first. */
    ghost var sent: seq<RequestBody>

    constructor ()
      ensures !loading && error == None && data == None && !success && sent == []
    {
      loading := false;
      error := None;
      data := None;
      success := false;
      sent := [];
    }

    /** The start of `register`: loading on, error cleared, success reset, data kept. */
    method Begin()
      modifies this
      ensures loading && error == None && !success
      ensures data == old(data) && sent == old(sent)
    {
      loading := true;
      error := None;
      success := false;
    }

    /**
     * The end of `register`: a fulfilled call stores the response and sets `success`; a
     * rejected one records the message, clears `success` and rethrows the same reason,
     * leaving `data` alone. Either way loading ends.
     */
    method Finish(outcome: Settled<JsonBody<T>>) returns (r: Settled<JsonBody<T>>)
      modifies this
      ensures r == outcome && !loading && sent == old(sent)
      ensures outcome.Fulfilled? ==> data == Some(outcome.value) && success && error == old(error)
      ensures outcome.RejectedWith? ==> data == old(data) && !success && error == Some(ErrorMessage(outcome.reason))
    {
      match outcome {
        case Fulfilled(res) =>
          data := Some(res);
          success := true;
        case RejectedWith(err) =>
          error := Some(ErrorMessage(err));
          success := false;
      }
      r := outcome;
      loading := false;
    }

    /**
     * `register(input)` run to completion, where `response` is how the POST of the body
     * settles. The call settles like the request, or with the `RangeError` when the body
     * cannot be built (then nothing is sent); a success leaves no error behind, even
     * after an earlier failure.
     */
    method Register(input: RegisterAffiliateInput, response: Settled<JsonBody<T>>) returns (r: Settled<JsonBody<T>>)
      modifies this
      ensures r == (if RequestBodyOf(input).Fulfilled? then response else RejectedWith(RequestBodyOf(input).reason))
      ensures sent == old(sent) + (if RequestBodyOf(input).Fulfilled? then [RequestBodyOf(input).value] else [])
      ensures !loading
      ensures r.Fulfilled? ==> data == Some(r.value) && success && error == None
      ensures r.RejectedWith? ==> data == old(data) && !success && error == Some(ErrorMessage(r.reason))
    {
      Begin();
      var outcome: Settled<JsonBody<T>>;
      var body := RequestBodyOf(input);
      match body {
        case Fulfilled(b) =>
          sent := sent + [b];
          outcome := response;
        case RejectedWith(err) =>
          outcome := RejectedWith(err);
      }
      r := Finish(outcome);
    }
  }
}
