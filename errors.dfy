/** The two exceptions the core raises, as values. */
module Errors {

  /**
   * `NotFound` is a ResourceNotFoundException (answered with HTTP 404);
   * `BadRequest` is an IllegalArgumentException (answered with HTTP 400).
   * Each carries the exception's message.
   */
  datatype Error = NotFound(message: string) | BadRequest(message: string)
}
