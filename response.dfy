/**
 * The JSON envelope builder of the API (`Response.successResponse` and
 * `Response.errorResponse`) and the replies the routes send with it.
 */
module Response {
  import opened Common

  // Values of `HTTP_STATUS` used by the routes.
  const OK: int := 200
  const CREATED: int := 201
  const BAD_REQUEST: int := 400
  const UNAUTHORIZED: int := 401
  const NOT_FOUND: int := 404
  const INTERNAL_SERVER_ERROR: int := 500

  /** The value handed to `errorResponse` as the error. */
  datatype ErrorArg =
    | Custom(message: string, description: Option<string>)
      // an instance of the application's CustomError class
    | Other(description: Option<string>)
      // anything else: a plain `{ message, description }` object, an `Error`,
      // or a string (whose `description` property is undefined)
  {
    function Description(): Option<string> {
      match this
      case Custom(_, d) => d
      case Other(d) => d
    }
  }

  datatype ErrorBody = ErrorBody(message: string, description: Option<string>)

  /** `{ code, data }` or `{ code, error: { message, description } }`. */
  datatype Envelope<T> = Success(code: int, data: T) | Failure(code: int, error: ErrorBody)

  /**
   * What a route handler does with the request: `res.status(status).json(body)`,
   * or nothing at all (the handler returns without answering).
   */
  datatype Reply<T> = Sent(status: int, body: Envelope<T>) | NotSent

  const UnknownError: string := "unknown error"

  /** `successResponse(code, data)`: both arguments are kept as given. */
  function SuccessResponse<T>(code: int, data: T): (r: Envelope<T>)
    ensures r.Success? && r.code == code && r.data == data
  {
    Success(code, data)
  }

  /**
   * `errorResponse(code, error)`: a CustomError keeps the caller's code and its
   * own message; any other value is reported as code 500 with the message
   * "unknown error". The description is copied from the error in both cases.
   */
  function ErrorResponse<T>(code: int, error: ErrorArg): (r: Envelope<T>)
    ensures r.Failure? && r.error.description == error.Description()
    ensures error.Custom? ==> r.code == code && r.error.message == error.message
    ensures error.Other? ==> r.code == INTERNAL_SERVER_ERROR && r.error.message == UnknownError
  {
    match error
    case Custom(m, d) => Failure(code, ErrorBody(m, d))
    case Other(d) => Failure(INTERNAL_SERVER_ERROR, ErrorBody(UnknownError, d))
  }

  /** The error envelope keeps the caller's code exactly when the error is a CustomError or the code is already 500. */
  lemma ErrorCodeKept<T>(code: int, error: ErrorArg)
    ensures (ErrorResponse<T>(code, error).code == code) <==> (error.Custom? || code == INTERNAL_SERVER_ERROR)
  {
  }

  /** For anything but a CustomError the caller's code has no influence on the envelope. */
  lemma OtherErrorIgnoresCode<T>(c1: int, c2: int, d: Option<string>)
    ensures ErrorResponse<T>(c1, Other(d)) == ErrorResponse<T>(c2, Other(d))
  {
  }

  /** A handler's answer with a success envelope: `res.status(s).json(successResponse(s, data))`. */
  function Accepted<T>(status: int, data: T): (r: Reply<T>)
    ensures r.Sent? && r.status == status
    ensures r.body.Success? && r.body.code == r.status && r.body.data == data
  {
    Sent(status, SuccessResponse(status, data))
  }

  /**
   * A handler's refusal with a plain `{ message, description }` object:
   * the HTTP status is the caller's, but the envelope says 500.
   */
  function Rejected<T>(status: int, description: string): (r: Reply<T>)
    ensures r.Sent? && r.status == status
    ensures r.body == ErrorResponse(status, Other(Some(description)))
    ensures r.body.code == INTERNAL_SERVER_ERROR
  {
    Sent(status, ErrorResponse(status, Other(Some(description))))
  }

  /** The `catch` branch of a handler: `errorResponse(500, err.message)`. */
  function Crashed<T>(): (r: Reply<T>)
    ensures r.Sent? && r.status == INTERNAL_SERVER_ERROR
    ensures r.body.Failure? && r.body.code == r.status
    ensures r.body.error.message == UnknownError && r.body.error.description.None?
  {
    Sent(INTERNAL_SERVER_ERROR, ErrorResponse(INTERNAL_SERVER_ERROR, Other(None)))
  }
}
