/** The two bearer-token middlewares, `authenticate` and `authMiddleware`,
    as total functions from the Authorization header to an outcome: either
    `next()` with the identity stored in `req.user`, or a status response.
    The JWT library's verify and the user lookup are oracles passed in. */
module Middleware {

  import opened Wrappers
  import opened JsValues
  import Bearer

  /** A decoded token payload: its claims by name. */
  type Claims = Body

  /** What `User.findById` does with an id: finds a record, finds none, or
      throws (a cast or database error). */
  datatype Lookup = Found | Missing | Throws

  /** The middleware either calls `next()` with `req.user` set, or ends the
      request with a status and message. */
  datatype Outcome = Next(user: Claims) | Status(code: int, message: string)

  const NoTokenMessage := "No token, authorization denied"
  const InvalidTokenMessage := "Invalid token"
  const UserNotFoundMessage := "User not found"
  const AccessDeniedMessage := "Access Denied: No token provided"

  /** `jwt.verify(token, secret)` on a JS value that may be `undefined`: the
      library throws for a missing or empty token before checking anything,
      and otherwise defers to the verify oracle. */
  function JwtVerify(verify: string -> Option<Claims>, token: Option<string>): (c: Option<Claims>)
    ensures token.None? || token == Some("") ==> c.None?
  {
    if token.None? || token.value == "" then None else verify(token.value)
  }

  /** `req.header("Authorization")?.split(" ")[1]` */
  function HeaderToken(header: Option<string>): (token: Option<string>)
    ensures token.Some? <==> header.Some? && ' ' in header.value
    ensures token.Some? ==> ' ' !in token.value
  {
    if header.None? then None else Bearer.SecondField(header.value)
  }

  /** middleware/authenticate.js, lines 5-25. */
  function Authenticate(
    header: Option<string>,
    verify: string -> Option<Claims>,
    findById: JsValue -> Lookup): (o: Outcome)
    ensures o.Status? ==> o.code == 401 || o.code == 404
    ensures o.Next? ==> o.user.Keys == {"id"}
    ensures o.Next? ==> findById(o.user["id"]) == Found
  {
    var token := HeaderToken(header);
    if token.None? || token.value == "" then
      Status(401, NoTokenMessage)
    else
      match verify(token.value)
      case None => Status(401, InvalidTokenMessage)
      case Some(decoded) =>
        var user := map["id" := Get(decoded, "id")];
        match findById(user["id"])
        case Found => Next(user)
        case Missing => Status(404, UserNotFoundMessage)
        case Throws => Status(401, InvalidTokenMessage)
  }

  /** middleware/authMiddleware.js, lines 6-22. */
  function AuthMiddleware(header: Option<string>, verify: string -> Option<Claims>): (o: Outcome)
    ensures o.Status? ==> o.code == 401 || o.code == 403
    ensures o.Status? && o.code == 401 <==> header.None? || header == Some("")
  {
    if header.None? || header.value == "" then
      Status(401, AccessDeniedMessage)
    else
      match JwtVerify(verify, Bearer.SecondField(header.value))
      case None => Status(403, InvalidTokenMessage)
      case Some(decoded) => Next(decoded)
  }

  /** authenticate: with no header, or a header holding no space, there is no
      token; the answer is 401 whatever the oracles would have said, so
      neither verify nor the lookup is consulted. */
  lemma AuthenticateWithoutToken(
    header: Option<string>,
    verify: string -> Option<Claims>,
    findById: JsValue -> Lookup)
    requires header.None? || ' ' !in header.value
    ensures Authenticate(header, verify, findById) == Status(401, NoTokenMessage)
  {
  }

  /** authenticate: `"Bearer  x"` (two spaces) gives an empty token, which
      is refused as missing, without calling verify. */
  lemma AuthenticateEmptyToken(
    scheme: string, rest: string,
    verify: string -> Option<Claims>,
    findById: JsValue -> Lookup)
    requires ' ' !in scheme
    ensures Authenticate(Some(scheme + "  " + rest), verify, findById) == Status(401, NoTokenMessage)
  {
    assert scheme + "  " + rest == scheme + " " + "" + (" " + rest);
    Bearer.TokenExact(scheme, "", " " + rest);
  }

  /** authenticate on `scheme + " " + token + tail`: the outcome is decided
      by verify on that token and then by the lookup of its `id` claim;
      `req.user` keeps only that claim, and a lookup that throws is
      reported as 401, not 500. */
  lemma AuthenticateBearer(
    scheme: string, token: string, tail: string,
    verify: string -> Option<Claims>,
    findById: JsValue -> Lookup)
    requires ' ' !in scheme && ' ' !in token && token != ""
    requires tail == [] || tail[0] == ' '
    ensures var o := Authenticate(Some(scheme + " " + token + tail), verify, findById);
      && (verify(token).None? ==> o == Status(401, InvalidTokenMessage))
      && (verify(token).Some? ==>
            var id := Get(verify(token).value, "id");
            && (findById(id) == Found ==> o == Next(map["id" := id]))
            && (findById(id) == Missing ==> o == Status(404, UserNotFoundMessage))
            && (findById(id) == Throws ==> o == Status(401, InvalidTokenMessage)))
  {
    Bearer.TokenExact(scheme, token, tail);
  }

  /** authenticate reaches `next()` exactly when the header carries a
      non-empty token that verifies and whose `id` claim finds a user. */
  lemma AuthenticateNextIff(
    header: Option<string>,
    verify: string -> Option<Claims>,
    findById: JsValue -> Lookup)
    ensures Authenticate(header, verify, findById).Next? <==>
      var token := HeaderToken(header);
      && token.Some? && token.value != ""
      && verify(token.value).Some?
      && findById(Get(verify(token.value).value, "id")) == Found
  {
  }

  /** authMiddleware: a non-empty header with no space has no second field,
      so verify is handed `undefined` and the answer is 403, whatever the
      verify oracle would say. */
  lemma AuthMiddlewareNoSpace(header: string, verify: string -> Option<Claims>)
    requires header != "" && ' ' !in header
    ensures AuthMiddleware(Some(header), verify) == Status(403, InvalidTokenMessage)
  {
  }

  /** authMiddleware on `scheme + " " + token + tail`: `next()` with the
      whole decoded payload as `req.user` when the token verifies, 403
      otherwise; an empty token never verifies. */
  lemma AuthMiddlewareBearer(
    scheme: string, token: string, tail: string,
    verify: string -> Option<Claims>)
    requires ' ' !in scheme && ' ' !in token
    requires tail == [] || tail[0] == ' '
    ensures var o := AuthMiddleware(Some(scheme + " " + token + tail), verify);
      && (token != "" && verify(token).Some? ==> o == Next(verify(token).value))
      && (token == "" || verify(token).None? ==> o == Status(403, InvalidTokenMessage))
  {
    Bearer.TokenExact(scheme, token, tail);
  }

  /** The two middlewares disagree on the same request: for a token that
      verifies but names a user with no record, authMiddleware lets the
      request through and authenticate answers 404; for a bare scheme with
      no token, authenticate answers 401 and authMiddleware 403. */
  lemma MiddlewaresDisagree(
    scheme: string, token: string,
    verify: string -> Option<Claims>,
    findById: JsValue -> Lookup)
    requires ' ' !in scheme && ' ' !in token && token != "" && scheme != ""
    requires verify(token).Some? && findById(Get(verify(token).value, "id")) == Missing
    ensures AuthMiddleware(Some(scheme + " " + token), verify) == Next(verify(token).value)
    ensures Authenticate(Some(scheme + " " + token), verify, findById) == Status(404, UserNotFoundMessage)
    ensures AuthMiddleware(Some(scheme), verify) == Status(403, InvalidTokenMessage)
    ensures Authenticate(Some(scheme), verify, findById) == Status(401, NoTokenMessage)
  {
    assert scheme + " " + token == scheme + " " + token + "";
    Bearer.TokenExact(scheme, token, "");
  }
}
