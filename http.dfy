/** HTTP responses as the controllers send them: a status code and the `message` field. */
module Http {

  const StatusOk: int := 200
  const StatusCreated: int := 201
  const StatusBadRequest: int := 400
  const StatusUnauthorized: int := 401
  const StatusForbidden: int := 403
  const StatusNotFound: int := 404
  const StatusServerError: int := 500

  datatype Response = Response(status: int, message: string)

  /** Every handler wraps its body in try/catch and answers 500 on any thrown error. */
  const ServerError: Response := Response(StatusServerError, "Server error")

  /** The outcome of a read-only handler: 200 with a body, or an error response. */
  datatype Reply<T> = Ok(value: T) | Refused(response: Response)
}
