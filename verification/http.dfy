/** The HTTP status codes the controllers answer with. */
module Http {
  const Ok := 200
  const Created := 201
  const BadRequest := 400
  const Unauthorized := 401
  const NotFound := 404
  const Unprocessable := 422
  const ServerError := 500
}
