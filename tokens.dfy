/** The token handler (internal/pkg/authUtils/tokenCreator.go). HS256
    signing and parsing belong to the JWT library and are parameters here
    (`Jwt`), as are the text forms JSON gives a UUID and a time and the UUID
    parser (`Codec`). A claim map holds what the token's JSON decodes to. */
module Tokens {
  import opened Base
  import opened Models

  /** A decoded claim value: a JSON string, or any other JSON value. */
  datatype Claim = Str(text: string) | NotText

  type Claims = map<string, Claim>

  datatype Payload = Payload(login: string, id: Uuid)

  /** What the JWT library reports for a token: an error, or the decoded
      claims with the library's validity verdict. */
  datatype JwtParse = Unparsable(error: Error) | Decoded(claims: Claims, valid: bool)

  datatype Jwt = Jwt(
    sign: (Claims, string) -> Result<string>,
    parse: (string, string) -> JwtParse)

  datatype Codec = Codec(
    uuidText: Uuid -> string,
    parseUuid: string -> Result<Uuid>,
    timeText: int -> string)

  /** Lifetime written into the "exprires" claim, in seconds. */
  const Day: int := 24 * 60 * 60

  /** The claims GenerateToken signs: the user's name and id, and a time one
      day after `now`, under the key "exprires". There is no "login" claim. */
  function IssuedClaims(user: User, now: int, codec: Codec): (c: Claims)
    ensures c.Keys == {"exprires", "name", "ID"}
    ensures c["name"] == Str(user.name) && c["ID"] == Str(codec.uuidText(user.id))
    ensures c["exprires"] == Str(codec.timeText(now + Day))
  {
    map["exprires" := Str(codec.timeText(now + Day)), "name" := Str(user.name), "ID" := Str(codec.uuidText(user.id))]
  }

  /** GenerateToken: the signed claims of the user, or a wrapped signing error. */
  function GenerateToken(user: User, key: string, now: int, jwt: Jwt, codec: Codec): (r: Result<string>)
    ensures r.Success? <==> jwt.sign(IssuedClaims(user, now, codec), key).Success?
    ensures r.Success? ==> r == jwt.sign(IssuedClaims(user, now, codec), key)
    ensures r.Failure? ==> r.error.Wrapped? && r.error.cause == jwt.sign(IssuedClaims(user, now, codec), key).error
  {
    WrapResult(CreatingToken, jwt.sign(IssuedClaims(user, now, codec), key))
  }

  /** ValidateToken: a library error is ErrParsingToken, a token the library
      marks invalid is ErrInvalidToken, otherwise no error. */
  function ValidateToken(token: string, key: string, jwt: Jwt): (err: Option<Error>)
    ensures jwt.parse(token, key).Unparsable? <==> err == Some(ParsingToken)
    ensures jwt.parse(token, key).Decoded? && !jwt.parse(token, key).valid <==> err == Some(InvalidToken)
    ensures err.None? <==> jwt.parse(token, key).Decoded? && jwt.parse(token, key).valid
  {
    match jwt.parse(token, key)
    case Unparsable(_) => Some(ParsingToken)
    case Decoded(_, valid) => if valid then None else Some(InvalidToken)
  }

  /** What a call returns, or that it panicked (a failed type assertion). */
  datatype Outcome<T> = Returned(result: Result<T>) | Panicked

  /** ParseToken as written: it asserts that the "ID" claim and the "login"
      claim are strings, and panics when either is not. */
  function ParseTokenAsWritten(token: string, key: string, jwt: Jwt, codec: Codec): (o: Outcome<Payload>)
    ensures jwt.parse(token, key).Unparsable? ==>
              o == Returned(Failure(Wrapped(ParsingTokenFailed, jwt.parse(token, key).error)))
    ensures o.Returned? && o.result.Success? ==>
              jwt.parse(token, key).Decoded? && "login" in jwt.parse(token, key).claims
    ensures o.Returned? && o.result.Failure? ==> o.result.error.Wrapped?
    ensures var p := jwt.parse(token, key);
            p.Decoded? && "ID" in p.claims && p.claims["ID"].Str? && codec.parseUuid(p.claims["ID"].text).Failure? ==>
              o == Returned(Failure(Wrapped(ParsingUserId, codec.parseUuid(p.claims["ID"].text).error)))
    ensures var p := jwt.parse(token, key);
            p.Decoded? ==>
              (o.Panicked? <==>
                 !("ID" in p.claims && p.claims["ID"].Str?)
                 || (codec.parseUuid(p.claims["ID"].text).Success? && !("login" in p.claims && p.claims["login"].Str?)))
    ensures o.Returned? && o.result.Success? ==>
              var claims := jwt.parse(token, key).claims;
              "ID" in claims && claims["ID"].Str? && claims["login"].Str?
              && o.result.value == Payload(claims["login"].text, codec.parseUuid(claims["ID"].text).value)
  {
    match jwt.parse(token, key)
    case Unparsable(e) => Returned(Failure(Wrapped(ParsingTokenFailed, e)))
    case Decoded(claims, _) =>
      if "ID" !in claims || !claims["ID"].Str? then Panicked
      else match codec.parseUuid(claims["ID"].text)
        case Failure(e) => Returned(Failure(Wrapped(ParsingUserId, e)))
        case Success(id) =>
          if "login" !in claims || !claims["login"].Str? then Panicked
          else Returned(Success(Payload(claims["login"].text, id)))
  }

  /** ParseToken as evidently intended: it reads the "name" claim that
      GenerateToken writes, and reports a missing claim as an error. Every
      error it returns is wrapped or names the missing claim, so it is never
      ErrParsingToken itself. Like the code as written it does not look at the
      library's validity verdict or at any expiry. */
  function ParseToken(token: string, key: string, jwt: Jwt, codec: Codec): (r: Result<Payload>)
    ensures jwt.parse(token, key).Unparsable? ==>
              r == Failure(Wrapped(ParsingTokenFailed, jwt.parse(token, key).error))
    ensures r.Success? ==>
              var claims := jwt.parse(token, key).claims;
              jwt.parse(token, key).Decoded? && "ID" in claims && "name" in claims
              && claims["name"] == Str(r.value.login)
              && claims["ID"].Str? && codec.parseUuid(claims["ID"].text) == Success(r.value.id)
    ensures r.Failure? ==> r.error.Wrapped? || r.error.MissingClaim?
    ensures var p := jwt.parse(token, key);
            p.Decoded? && "ID" in p.claims && p.claims["ID"].Str? && codec.parseUuid(p.claims["ID"].text).Failure? ==>
              r == Failure(Wrapped(ParsingUserId, codec.parseUuid(p.claims["ID"].text).error))
  {
    match jwt.parse(token, key)
    case Unparsable(e) => Failure(Wrapped(ParsingTokenFailed, e))
    case Decoded(claims, _) =>
      if "ID" !in claims || !claims["ID"].Str? then Failure(MissingClaim("ID"))
      else match codec.parseUuid(claims["ID"].text)
        case Failure(e) => Failure(Wrapped(ParsingUserId, e))
        case Success(id) =>
          if "name" !in claims || !claims["name"].Str? then Failure(MissingClaim("name"))
          else Success(Payload(claims["name"].text, id))
  }

  /** The hypotheses under which a token issued for `user` comes back: the
      library returns the claims it signed, and the UUID parser reads back
      the UUID's text. */
  ghost predicate RoundTrips(user: User, key: string, now: int, jwt: Jwt, codec: Codec, token: string) {
    && GenerateToken(user, key, now, jwt, codec) == Success(token)
    && jwt.parse(token, key).Decoded?
    && jwt.parse(token, key).claims == IssuedClaims(user, now, codec)
    && codec.parseUuid(codec.uuidText(user.id)) == Success(user.id)
  }

  /** As written, parsing a token that GenerateToken issued always panics:
      the "login" claim it asserts is never written. */
  lemma IssuedTokenPanicsAsWritten(user: User, key: string, now: int, jwt: Jwt, codec: Codec, token: string)
    requires RoundTrips(user, key, now, jwt, codec, token)
    ensures ParseTokenAsWritten(token, key, jwt, codec) == Panicked
  {
    var claims := IssuedClaims(user, now, codec);
    assert "login" !in claims;
  }

  /** With the "name" claim read, an issued token parses back to the user's
      name and id. */
  lemma IssuedTokenParses(user: User, key: string, now: int, jwt: Jwt, codec: Codec, token: string)
    requires RoundTrips(user, key, now, jwt, codec, token)
    ensures ParseToken(token, key, jwt, codec) == Success(Payload(user.name, user.id))
  {
  }

  const Bearer: string := "Bearer "

  predicate HasBearer(s: string) {
    |s| >= |Bearer| && s[..|Bearer|] == Bearer
  }

  /** ExtractTokenFromReq, given the Authorization header ("" when absent):
      one leading "Bearer " is removed, anything else is left as it is. */
  function ExtractTokenFromReq(authorization: string): (token: string)
    ensures HasBearer(authorization) ==> Bearer + token == authorization
    ensures !HasBearer(authorization) ==> token == authorization
  {
    if HasBearer(authorization) then authorization[|Bearer|..] else authorization
  }

  /** Only one prefix is removed: "Bearer " followed by any token gives
      back that token, even when it starts with "Bearer " itself. */
  lemma ExtractRemovesOnePrefix(token: string)
    ensures ExtractTokenFromReq(Bearer + token) == token
  {
    assert (Bearer + token)[..|Bearer|] == Bearer;
  }
}
