/** The error values of the mocked platform API (`AtsumaruApiError` and `collections.errors`). */
module ApiErrors {

  /** The five error codes the mock can produce. */
  datatype ErrorCode = BadRequest | Unauthorized | ApiCallLimitExceeded | Forbidden | InternalServerError

  /** The string the source stores in the `code` field for each code. */
  function CodeName(code: ErrorCode): string
  {
    match code
    case BadRequest => "BAD_REQUEST"
    case Unauthorized => "UNAUTHORIZED"
    case ApiCallLimitExceeded => "API_CALL_LIMIT_EXCEEDED"
    case Forbidden => "FORBIDDEN"
    case InternalServerError => "INTERNAL_SERVER_ERROR"
  }

  /** Each code has its own name, so the `code` string tells the errors apart. */
  lemma CodeNameInjective(a: ErrorCode, b: ErrorCode)
    ensures CodeName(a) == CodeName(b) <==> a == b
  {
  }

  /** An `AtsumaruApiError` value: every one carries the tag `errorType`. */
  datatype AtsumaruApiError = AtsumaruApiError(code: ErrorCode, message: string)
  {
    const errorType: string := "atsumaruApiError"

    function CodeString(): string { CodeName(code) }
  }

  /** The shared error values, keyed by code name, all with the default empty message. */
  const Errors: map<string, AtsumaruApiError> := map[
    "BAD_REQUEST" := AtsumaruApiError(BadRequest, ""),
    "UNAUTHORIZED" := AtsumaruApiError(Unauthorized, ""),
    "API_CALL_LIMIT_EXCEEDED" := AtsumaruApiError(ApiCallLimitExceeded, ""),
    "FORBIDDEN" := AtsumaruApiError(Forbidden, ""),
    "INTERNAL_SERVER_ERROR" := AtsumaruApiError(InternalServerError, "")
  ]

  /** The one error value the throttle gate hands out on every rejection. */
  const LimitExceeded: AtsumaruApiError := AtsumaruApiError(ApiCallLimitExceeded, "")

  /** The default failure value of a request whose validity check fails. */
  const BadRequestError: AtsumaruApiError := AtsumaruApiError(BadRequest, "")

  /** The table holds exactly one entry per code, under that code's name, and nothing else. */
  lemma ErrorsTableComplete()
    ensures forall code :: CodeName(code) in Errors && Errors[CodeName(code)] == AtsumaruApiError(code, "")
    ensures forall key :: key in Errors ==> exists code :: key == CodeName(code)
    ensures Errors["API_CALL_LIMIT_EXCEEDED"] == LimitExceeded && Errors["BAD_REQUEST"] == BadRequestError
  {
    forall key | key in Errors
      ensures exists code :: key == CodeName(code)
    {
      if key == "BAD_REQUEST" { assert key == CodeName(BadRequest); }
      else if key == "UNAUTHORIZED" { assert key == CodeName(Unauthorized); }
      else if key == "API_CALL_LIMIT_EXCEEDED" { assert key == CodeName(ApiCallLimitExceeded); }
      else if key == "FORBIDDEN" { assert key == CodeName(Forbidden); }
      else { assert key == CodeName(InternalServerError); }
    }
  }
}
