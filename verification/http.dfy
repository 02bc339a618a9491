/** The response and exception shapes shared by the middlewares and the
    endpoints. */
module Http {

  /** A JSON body: the error handler's problem report, the limiter's throttle
      notice, or whatever a downstream handler produced. */
  datatype Body =
    | Problem(status: string, message: string, details: string, errorType: string, timestamp: string)
    | Throttled(error: string, message: string)
    | Payload(text: string)

  datatype Response = Response(statusCode: int, body: Body)

  /** An HTTPException as an endpoint raises it. */
  datatype HttpError = HttpError(statusCode: int, detail: string)
}
