/** `ControllerUtil.GetActionResultFromError`: the HTTP result a controller returns for an
    error response. */
module ControllerUtil {
  import opened Wrappers
  import opened Responses

  /** An `ObjectResult` carries the response as its body; a `StatusCodeResult` is bare. */
  datatype ActionResult<T> =
    | ObjectResult(statusCode: int, body: ApiResponse<T>)
    | StatusCodeResult(statusCode: int)

  const Status400BadRequest: int := 400
  const Status401Unauthorized: int := 401
  const Status404NotFound: int := 404
  const Status500InternalServerError: int := 500

  function GetActionResultFromError<T>(response: ApiResponse<T>): (a: ActionResult<T>)
    ensures a.StatusCodeResult? <==> ErrorTypeOf(response) == Some(InternalServerError)
    ensures a.ObjectResult? ==> a.body == response
    ensures a.statusCode == Status404NotFound <==> ErrorTypeOf(response) == Some(NotFound)
    ensures a.statusCode == Status401Unauthorized <==> ErrorTypeOf(response) == Some(Unauthorized)
    ensures a.statusCode == Status500InternalServerError <==> ErrorTypeOf(response) == Some(InternalServerError)
    ensures a.statusCode == Status400BadRequest <==>
      ErrorTypeOf(response) !in {Some(NotFound), Some(Unauthorized), Some(InternalServerError)}
  {
    match ErrorTypeOf(response)
    case Some(NotFound) => ObjectResult(Status404NotFound, response)
    case Some(ValidationError) => ObjectResult(Status400BadRequest, response)
    case Some(Unauthorized) => ObjectResult(Status401Unauthorized, response)
    case Some(BadRequest) => ObjectResult(Status400BadRequest, response)
    case Some(InternalServerError) => StatusCodeResult(Status500InternalServerError)
    case None => ObjectResult(Status400BadRequest, response)
  }

  /** The mapping is total and lands on exactly four statuses; only the 500 drops the body. */
  lemma StatusesAreClientOrServerErrors<T>(response: ApiResponse<T>)
    ensures GetActionResultFromError(response).statusCode in
      {Status400BadRequest, Status401Unauthorized, Status404NotFound, Status500InternalServerError}
  {
  }

  /** Validation errors and bad requests are indistinguishable at the HTTP level. */
  lemma ValidationAndBadRequestShareStatus<T>(errors: map<string, string>)
    ensures var v := ApiResponse<T>.ErrorResponse(ValidationError, errors);
            var b := ApiResponse<T>.ErrorResponse(BadRequest, errors);
            GetActionResultFromError(v) == ObjectResult(Status400BadRequest, v)
            && GetActionResultFromError(b) == ObjectResult(Status400BadRequest, b)
  {
  }
}
