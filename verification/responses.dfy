/** `ApiResponse<T>` and `Error.ErrorType`: every service call answers either a success
    carrying optional data, or an error of a kind with field-keyed messages. The human
    readable `Message` strings are not modelled. */
module Responses {
  import opened Wrappers

  datatype ErrorType = ValidationError | Unauthorized | NotFound | BadRequest | InternalServerError

  datatype ApiResponse<T> =
    | SuccessResponse(data: Option<T>)
    | ErrorResponse(errorType: ErrorType, validationErrors: map<string, string>)

  /** The nullable `ErrorType` property: absent on success responses. */
  function ErrorTypeOf<T>(r: ApiResponse<T>): Option<ErrorType>
  {
    if r.ErrorResponse? then Some(r.errorType) else None
  }
}
