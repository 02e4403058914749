/** Errors as the managers see them, and the answers a remote call can give. */
module Errors {

  /** `AivenError` is an error of Aiven's own client; `text` is what its Error() prints. */
  datatype Error =
    | AivenError(status: int, message: string, moreInfo: string, text: string)
    | PlainError(text: string)

  const HTTP_OK := 200
  const HTTP_NOT_FOUND := 404
  const HTTP_CONFLICT := 409

  predicate IsNotFound(e: Error) {
    e.AivenError? && e.status == HTTP_NOT_FOUND
  }

  const NOT_FOUND := AivenError(HTTP_NOT_FOUND, "Not Found", "", "404: Not Found")
  const CONFLICT := AivenError(HTTP_CONFLICT, "Conflict", "", "409: Conflict")

  /** A failing call can report anything but "not found": Aiven says that only of what is not there. */
  type Fault = e: Error | !IsNotFound(e) witness PlainError("")

  /** The answer to a call that writes. A failed call may have taken effect before its answer was lost. */
  datatype Outcome = Success | Failure(error: Fault, applied: bool)
}
