/** The values the backend throws. One record covers every error class, because
    the error handler inspects properties (`validation`, `statusCode`) that any
    error may carry besides its class. */
module Errors {
  import opened Wrappers
  import opened Json
  import opened Zod

  datatype ErrorClass =
    | PlainError            // `new Error(...)`, and errors of unknown origin
    | TypeError             // e.g. reading a property of a null response body
    | SyntaxError           // `JSON.parse` of text that is not JSON
    | NotFoundError         // `NotFound`, a subclass of the plain `Error`
    | BadRequestError
    | ZodError(issues: seq<Issue>)
    | MongooseValidationError
    | DuplicateKeyError     // a unique-index violation reported by the store

  datatype Error = Error(
    kind: ErrorClass,
    message: string,
    statusCode: Option<int>,
    validation: Option<seq<Json>>,
    validationContext: Option<string>)

  /** An error with only a class and a message. */
  function Thrown(kind: ErrorClass, message: string): Error {
    Error(kind, message, None, None, None)
  }

  /** `new NotFound()`: the message defaults to "Not found.". */
  function NotFound(): Error {
    Thrown(NotFoundError, "Not found.")
  }

  /** The ZodError that `schema.parse` throws. Its own message (the issues as
      JSON text) is not read by the core and is left empty here. */
  function ZodFailure(issues: seq<Issue>): Error {
    Thrown(ZodError(issues), "")
  }
}
