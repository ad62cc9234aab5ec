/** The HTTP replies the client consumes, as already-decoded outcomes: the
    transport and the JSON library are not modelled, only what they hand back. */
module Responses {
  import opened Wrappers
  import opened Decimal
  import opened TokenRecord

  /** A response body: text that `JSONObject(...)` rejects (or that could not
      be read), or the fields the client looks up in the parsed object. */
  datatype Body<J> = Unparseable | Parsed(json: J)

  /** An OkHttp `Response`: its HTTP status and its body, which may be null. */
  datatype Response<J> = Response(status: int, body: Option<Body<J>>)

  /** `client.newCall(request).execute()`: a response, or the `IOException` it throws. */
  datatype Reply<J> = NetworkFailure | Received(response: Response<J>)

  /** The fields of the token endpoint's JSON (section 5.1 of RFC 6749);
      `None` when `getString`/`getLong` would throw for that field. */
  datatype TokenJson = TokenJson(accessToken: Option<string>, expiresIn: Option<Long>)

  /** The fields of the API's `{code, data}` envelope; `code` is the field as
      `getString` renders it, `None` when it is absent. */
  datatype EnvelopeJson<D> = EnvelopeJson(code: Option<string>, data: Option<D>)

  /** An exception the client lets escape to its caller. */
  datatype Failure = NetworkError | MalformedJson | MissingField(name: string)

  /** The detail line of the "login state abnormal" dialog. */
  datatype ErrorDetail = NoDetail | JsonParseError(status: int)

  /** What `checkErrorAndGetData` does with a response: return `data`, take the
      session-error path (clear the token, show the login dialog, return null),
      or throw. */
  datatype Outcome<D> = Data(value: D) | SessionError(detail: ErrorDetail) | Thrown(failure: Failure)

  const SuccessCode: string := "A00000"

  /** `checkErrorAndGetData` on a response: only a success code yields data,
      and then it is the envelope's `data` field. */
  function CheckEnvelope<D>(response: Option<Response<EnvelopeJson<D>>>): (r: Outcome<D>)
    ensures r.Data? ==>
      response.Some? && response.value.body.Some? && response.value.body.value.Parsed? &&
      response.value.body.value.json.code == Some(SuccessCode) && response.value.body.value.json.data == Some(r.value)
    ensures r.Thrown? ==> response.Some? && response.value.body.Some? && response.value.body.value.Parsed?
  {
    match response
    case None => SessionError(NoDetail)
    case Some(Response(status, body)) =>
      match body
      case None => SessionError(NoDetail)
      case Some(Unparseable) => SessionError(JsonParseError(status))
      case Some(Parsed(EnvelopeJson(code, data))) =>
        match code
        case None => Thrown(MissingField("code"))
        case Some(c) =>
          if c != SuccessCode then SessionError(NoDetail)
          else
            match data
            case None => Thrown(MissingField("data"))
            case Some(d) => Data(d)
  }

  /** A response is returned as data exactly when it has a parsed body whose code
      is the success literal and which has a `data` field, and then it is that field. */
  lemma DataIffSuccessCode<D>(response: Option<Response<EnvelopeJson<D>>>)
    ensures CheckEnvelope(response).Data? <==>
      response.Some? && response.value.body.Some? && response.value.body.value.Parsed? &&
      response.value.body.value.json.code == Some(SuccessCode) && response.value.body.value.json.data.Some?
    ensures CheckEnvelope(response).Data? ==> CheckEnvelope(response).value == response.value.body.value.json.data.value
  {
  }

  /** The session-error path is taken exactly for a missing response or body,
      an unparseable body (whatever the HTTP status), or a present code other
      than the success literal; only the unparseable body's dialog names the
      HTTP status. */
  lemma SessionErrorIff<D>(response: Option<Response<EnvelopeJson<D>>>, status: int)
    ensures CheckEnvelope(response).SessionError? <==>
      response.None? || response.value.body.None? || response.value.body.value.Unparseable? ||
      (response.value.body.value.json.code.Some? && response.value.body.value.json.code.value != SuccessCode)
    ensures CheckEnvelope(response).SessionError? ==>
      (CheckEnvelope(response).detail.JsonParseError? <==> response.Some? && response.value.body == Some(Unparseable))
    ensures CheckEnvelope(response) == SessionError(JsonParseError(status)) ==> response.value.status == status
  {
  }

  /** How `code2token` ends: no body (it returns false), a record to store
      (it returns true), or an exception. */
  datatype Exchange = NoBody | Exchanged(data: TokenData) | ExchangeFailed(failure: Failure)

  /** The outcome of `code2token` on `reply` at epoch second `now`: the expiry is
      `now + expires_in - 10` in `Long` arithmetic. */
  function ExchangeOutcome(reply: Reply<TokenJson>, now: int): (r: Exchange)
    ensures r.Exchanged? ==>
      reply.Received? && reply.response.body.Some? && reply.response.body.value.Parsed? &&
      reply.response.body.value.json.accessToken == Some(r.data.token)
    ensures r.NoBody? ==> reply.Received? && reply.response.body.None?
  {
    match reply
    case NetworkFailure => ExchangeFailed(NetworkError)
    case Received(Response(_, body)) =>
      match body
      case None => NoBody
      case Some(Unparseable) => ExchangeFailed(MalformedJson)
      case Some(Parsed(TokenJson(accessToken, expiresIn))) =>
        match accessToken
        case None => ExchangeFailed(MissingField("access_token"))
        case Some(token) =>
          match expiresIn
          case None => ExchangeFailed(MissingField("expires_in"))
          case Some(e) => Exchanged(TokenData(token, WrapLong(now + e - SafetyMarginSec)))
  }

  /** `code2token` returns false exactly for a reply without a body, and stores
      a record exactly for a parsed body with both fields present. */
  lemma ExchangeOutcomeIff(reply: Reply<TokenJson>, now: int)
    ensures ExchangeOutcome(reply, now).NoBody? <==> reply.Received? && reply.response.body.None?
    ensures ExchangeOutcome(reply, now).Exchanged? <==>
      reply.Received? && reply.response.body.Some? && reply.response.body.value.Parsed? &&
      reply.response.body.value.json.accessToken.Some? && reply.response.body.value.json.expiresIn.Some?
  {
  }

  /** A complete token response is always stored; its expiry is `now +
      expires_in - 10` whenever that fits in a `Long`. */
  lemma ExchangeExpiry(token: string, expiresIn: Long, status: int, now: int)
    ensures var o := ExchangeOutcome(Received(Response(status, Some(Parsed(TokenJson(Some(token), Some(expiresIn)))))), now);
      o.Exchanged? && o.data.token == token &&
      (MinLong <= now + expiresIn - 10 <= MaxLong ==> o.data.expireTimeSec == now + expiresIn - 10)
  {
  }
}
