/**
 * The access gate that runs in front of every order handler. It holds no state: it
 * only chooses between forwarding the request and answering it itself.
 */
module AuthGate {
  import opened Wrappers
  import opened Tokens
  import opened HttpStatus

  /** Paths served without a token: the documentation pages of the order application. */
  const SWAGGER: seq<string> := ["/order/docs", "/order/openapi.json"]

  const NO_TOKEN: string := "No token - no bitches"
  const TOKEN_EXPIRED: string := "Access token has expired, please log in again"
  const INCORRECT_TOKEN: string := "Incorrect jwt token"

  /** The JSON value under the body's `access_token` key. */
  datatype TokenField = Null | Text(value: string)

  /** The request body: not JSON at all, or a JSON object that may lack `access_token`. */
  datatype Body = Unparseable | Json(accessToken: Option<TokenField>)

  /** The gate's decision. `Raises` is an exception escaping the gate (no `access_token` to read). */
  datatype Decision = Forward | Reject(status: int, message: string) | Raises

  /** Python truthiness of the token value: null and "" are false. */
  predicate Truthy(f: TokenField) {
    f.Text? && f.value != ""
  }

  /** The body holds an `access_token` key. */
  predicate HasTokenKey(body: Body) {
    body.Json? && body.accessToken.Some?
  }

  /** The body holds an `access_token` key whose value is truthy: the gate will decode it. */
  predicate Presents(body: Body) {
    HasTokenKey(body) && Truthy(body.accessToken.value)
  }

  /** AuthMiddleware.dispatch. */
  function Dispatch(path: string, body: Body, decode: Decoder): (d: Decision)
    ensures path in SWAGGER ==> d == Forward
    ensures d.Raises? <==> path !in SWAGGER && !HasTokenKey(body)
    ensures d.Forward? <==>
      path in SWAGGER || (Presents(body) && decode(body.accessToken.value.value).Ok?)
    ensures d == Reject(FORBIDDEN, NO_TOKEN) <==>
      path !in SWAGGER && HasTokenKey(body) && !Truthy(body.accessToken.value)
    ensures d == Reject(FORBIDDEN, TOKEN_EXPIRED) <==>
      path !in SWAGGER && Presents(body) && decode(body.accessToken.value.value).Expired?
    ensures d == Reject(BAD_REQUEST, INCORRECT_TOKEN) <==>
      path !in SWAGGER && Presents(body) && decode(body.accessToken.value.value).Malformed?
  {
    if path in SWAGGER then Forward
    else match body
      case Unparseable => Raises
      case Json(None) => Raises
      case Json(Some(field)) =>
        if Truthy(field) then
          match decode(field.value)
          case Ok(_) => Forward
          case Expired => Reject(FORBIDDEN, TOKEN_EXPIRED)
          case Malformed => Reject(BAD_REQUEST, INCORRECT_TOKEN)
        else Reject(FORBIDDEN, NO_TOKEN)
  }

  /** A request the gate forwards off the allow-list carries a non-empty token that decodes. */
  lemma ForwardedRequestHasValidToken(path: string, token: string, decode: Decoder)
    requires path !in SWAGGER
    requires Dispatch(path, Json(Some(Text(token))), decode) == Forward
    ensures token != "" && decode(token).Ok?
  {
  }
}
