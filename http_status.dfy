/** The HTTP status codes the handlers name (starlette.status). */
module HttpStatus {
  const OK: int := 200
  const CREATED: int := 201
  const ACCEPTED: int := 202
  const BAD_REQUEST: int := 400
  const UNAUTHORIZED: int := 401
  const FORBIDDEN: int := 403
  const NOT_FOUND: int := 404
  const CONFLICT: int := 409
}
