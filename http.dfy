/** JSON responses of the route handlers, as status, body and an optional cookie. */
module Http {
  import opened Wrappers
  import opened Documents

  /** JavaScript truthiness of a possibly missing string: present and not empty. */
  predicate Truthy(v: Option<string>) {
    v.Some? && v.value != ""
  }

  /** A response cookie with the attributes the login route sets. */
  datatype Cookie = Cookie(name: string, value: string, path: string, httpOnly: bool,
                           sameSite: string, secure: bool, maxAge: int)

  /** The JSON bodies the handlers return. */
  datatype Body =
    | ErrorBody(error: string)
    | MessageBody(message: string)
    | LoginBody(message: string, email: string)
    | ProfileBody(profile: Option<Doc>)
    | SavedBody(success: bool, saved: Doc)

  datatype Response = Response(status: int, body: Body, cookie: Option<Cookie>)

  /** `NextResponse.json(body)` without options: status 200, no cookie. */
  function Json(body: Body): Response {
    Response(200, body, None)
  }

  /** `NextResponse.json(body, { status })`. */
  function JsonStatus(body: Body, status: int): Response {
    Response(status, body, None)
  }
}
