/**
 * The error value every handler throws (src/utils/ApiError.js) and the
 * outcome type the handlers of this model return.
 */
module ApiErrors {

  /** A possibly absent value: a request field that is `undefined`, a lookup that found nothing. */
  datatype Option<+T> = None | Some(value: T) {
    function GetOr(default: T): T {
      if Some? then value else default
    }
  }

  /** The JSON `null` an ApiError always carries as its `data`. */
  datatype Null = Null

  /**
   * An ApiError as its constructor leaves it: the status code, `data` (always
   * null), the message, `success` (always false) and the `errors` list.
   * The captured stack trace is not modelled.
   */
  datatype ApiError = ApiError(statusCode: int, data: Null, message: string, success: bool, errors: seq<string>)

  const DefaultMessage := "Something went wrong"

  /**
   * `new ApiError(statusCode, message, errors)`: an argument left `undefined`
   * takes its default, "Something went wrong" for the message and the empty
   * list for the errors.
   */
  function NewApiError(statusCode: int, message: Option<string>, errors: Option<seq<string>>): (e: ApiError)
    ensures e.statusCode == statusCode
    ensures !e.success && e.data == Null
    ensures e.message == (if message.Some? then message.value else DefaultMessage)
    ensures e.errors == (if errors.Some? then errors.value else [])
  {
    ApiError(statusCode, Null, message.GetOr(DefaultMessage), false, errors.GetOr([]))
  }

  /**
   * What a handler ends with: a value it sends back, an ApiError it throws,
   * or an exception that is not an ApiError (a Mongoose CastError or
   * ValidationError, a TypeError) escaping to the request wrapper.
   */
  datatype Result<+T> = Ok(value: T) | Err(error: ApiError) | Unhandled(exception: string) {

    /** The handler threw an ApiError with this status code. */
    predicate IsError(statusCode: int) {
      Err? && error.statusCode == statusCode
    }
  }

  /** `throw new ApiError(statusCode, message)`. */
  function Fail<T>(statusCode: int, message: string): (r: Result<T>)
    ensures r.IsError(statusCode) && r.error.message == message && r.error.errors == []
  {
    Err(NewApiError(statusCode, Some(message), None))
  }
}
