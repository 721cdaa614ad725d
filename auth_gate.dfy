/** The authentication gate (internal/middleware/auth.go): the decision the
    middleware makes for a request, from its Authorization header, the
    configured secret and the token handler's ParseToken. The only effect of
    a pass is a context carrying the user id; `Next` holds that id. */
module AuthGate {
  import opened Base
  import opened Models
  import opened Tokens

  /** MiddlewareFunc, with the status each rejection asks for. */
  function JwtAuth(authorization: string, secret: string, parseToken: (string, string) -> Result<Payload>): (d: Decision<Uuid>)
    ensures authorization == "" ==> d == Reject(BadRequest, ErrorResponse(Text("Error in parsing token")))
    ensures d.Next? <==> authorization != "" && parseToken(ExtractTokenFromReq(authorization), secret).Success?
    ensures d.Next? ==> d.forwarded == parseToken(ExtractTokenFromReq(authorization), secret).value.id
    ensures d.Reject? && authorization != "" ==>
              var e := parseToken(ExtractTokenFromReq(authorization), secret).error;
              d.body == ErrorResponse(ErrorText(e))
              && (d.status == BadRequest <==> e == ParsingToken)
              && (d.status == Unauthorized <==> e != ParsingToken)
  {
    if authorization == "" then Reject(BadRequest, ErrorResponse(Text("Error in parsing token")))
    else match parseToken(ExtractTokenFromReq(authorization), secret)
      case Failure(e) => Reject(if e == ParsingToken then BadRequest else Unauthorized, ErrorResponse(ErrorText(e)))
      case Success(payload) => Next(payload.id)
  }

  /** Every rejection is an error response with a client-error status; a
      request is never both refused and forwarded. */
  lemma RejectionsAreClientErrors(authorization: string, secret: string, parseToken: (string, string) -> Result<Payload>)
    ensures var d := JwtAuth(authorization, secret, parseToken);
            d.Reject? ==> d.body.status == StatusError && d.status in {BadRequest, Unauthorized}
  {
  }

  /** The token handler's ParseToken, as the gate calls it. */
  function Parser(jwt: Jwt, codec: Codec): (string, string) -> Result<Payload> {
    (token, key) => ParseToken(token, key, jwt, codec)
  }

  /** ParseToken never returns ErrParsingToken itself, so the gate's
      comparison with it never holds: every token failure gets 401 and only
      an empty header gets 400. */
  lemma TokenFailuresAreUnauthorized(authorization: string, secret: string, jwt: Jwt, codec: Codec)
    requires authorization != ""
    ensures var d := JwtAuth(authorization, secret, Parser(jwt, codec));
            d.Reject? ==> d.status == Unauthorized
  {
    var r := ParseToken(ExtractTokenFromReq(authorization), secret, jwt, codec);
    assert r.Failure? ==> r.error != ParsingToken;
  }

  /** A token issued for a user, sent as "Bearer <token>", lets the request
      through carrying that user's id, with ParseToken reading the "name"
      claim. */
  lemma IssuedTokenAuthenticates(user: User, key: string, now: int, jwt: Jwt, codec: Codec, token: string)
    requires RoundTrips(user, key, now, jwt, codec, token)
    ensures JwtAuth(Bearer + token, key, Parser(jwt, codec)) == Next(user.id)
  {
    ExtractRemovesOnePrefix(token);
    IssuedTokenParses(user, key, now, jwt, codec, token);
  }

  /** What MiddlewareFunc sends as written: it renders the body before it
      sets the status, and `render.JSON` writes the response with the status
      recorded so far, which is none, so every rejection goes out as 200. */
  function JwtAuthAsWritten(authorization: string, secret: string, parseToken: (string, string) -> Result<Payload>): (d: Decision<Uuid>)
    ensures d.Next? <==> JwtAuth(authorization, secret, parseToken).Next?
    ensures d.Next? ==> d == JwtAuth(authorization, secret, parseToken)
    ensures d.Reject? ==> d.status == Ok && d.body == JwtAuth(authorization, secret, parseToken).body
  {
    match JwtAuth(authorization, secret, parseToken)
    case Reject(_, body) => Reject(Ok, body)
    case Next(id) => Next(id)
  }

  /** A request without an Authorization header is answered 200 with an
      error body, as written. */
  lemma MissingHeaderAnsweredOk(secret: string, parseToken: (string, string) -> Result<Payload>)
    ensures JwtAuthAsWritten("", secret, parseToken) == Reject(Ok, ErrorResponse(Text("Error in parsing token")))
    ensures JwtAuth("", secret, parseToken).status == BadRequest
  {
  }
}
