/** The few HTTP notions the core produces: status codes, response bodies, redirects
    and the attributes of a Set-Cookie header. */
module Http {
  import opened Common

  const Ok: nat := 200
  const SeeOther: nat := 303
  const BadRequest: nat := 400
  const Unauthorized: nat := 401
  const Forbidden: nat := 403
  const NotFound: nat := 404
  const UnprocessableEntity: nat := 422
  const InternalServerError: nat := 500

  datatype SameSite = Strict | Lax | NoRestriction

  /** A Set-Cookie header. `expires` is an instant in whole seconds. */
  datatype Cookie = Cookie(
    name: string,
    value: string,
    httpOnly: bool,
    sameSite: SameSite,
    secure: bool,
    domain: string,
    expires: int,
    path: string)

  datatype Body =
    | Empty
      /** A plain-text body, as axum renders a `(StatusCode, &str)` pair. */
    | Text(text: string)
      /** A JSON object `{"message": ...}`. */
    | JsonMessage(message: string)
      /** A body produced by a handler the core does not see. */
    | Opaque(id: nat)

  datatype Response = Response(status: nat, body: Body, location: Option<string>, cookies: seq<Cookie>)

  function TextResponse(status: nat, text: string): Response {
    Response(status, Text(text), None, [])
  }

  function JsonResponse(status: nat, message: string): Response {
    Response(status, JsonMessage(message), None, [])
  }

  /** axum's `Redirect::to`: 303 See Other with a Location header. */
  function RedirectTo(url: string): Response {
    Response(SeeOther, Empty, Some(url), [])
  }

  /** A response with one more Set-Cookie header (`(jar, response).into_response()`). */
  function WithCookie(r: Response, c: Cookie): Response {
    r.(cookies := r.cookies + [c])
  }
}
