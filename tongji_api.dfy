/** The `TongjiApi` client object: its preferences file is the only state it
    changes, and each method below edits it the way the Kotlin class does. */
module TongjiApi {
  import opened Wrappers
  import opened Decimal
  import opened TokenRecord
  import opened Responses
  import opened Session

  class TongjiApi {
    /** The `SharedPreferences` opened by `init`. */
    var sp: Prefs

    /** The preferences keep one key space, and the client's keys hold the
        types the client writes. */
    predicate Valid()
      reads this
    {
      sp.Disjoint() && sp.KeysTyped()
    }

    /** `init(context)`: attach to the persisted preferences, as they are on disk. */
    constructor Init(persisted: Prefs)
      requires persisted.Disjoint() && persisted.KeysTyped()
      ensures Valid() && sp == persisted
    {
      sp := persisted;
    }

    /** `tokenAvailable()` at epoch second `now`. */
    function TokenAvailable(now: EpochSeconds): (r: Result<bool, TokenError>)
      reads this
      ensures TokenKey !in sp.strings ==> r == Success(now < -10)
      ensures r.Success? <==> ReadTokenData(sp).Success?
      ensures r.Success? ==> (r.value <==> ReadTokenData(sp).value.expireTimeSec > now + 10)
    {
      TokenAvailableAt(sp, now)
    }

    /** The getter of `switchAccountRequired`. */
    function SwitchAccountRequired(): (r: bool)
      reads this
      ensures SwitchAccountKey !in sp.booleans ==> !r
      ensures SwitchAccountKey in sp.booleans ==> r == sp.booleans[SwitchAccountKey]
    {
      SwitchAccountRequiredIn(sp)
    }

    /** The `Authorization` header value of every request built by `basicRequestBuilder`. */
    function AuthorizationHeader(): (r: Result<string, TokenError>)
      reads this
      ensures r.Success? <==> ReadTokenData(sp).Success?
      ensures r.Success? ==> r.value == "Bearer " + ReadTokenData(sp).value.token
    {
      AuthorizationHeaderIn(sp)
    }

    /** `clearCache`: removes only the token record, after which no token is
        available and the header carries "0". */
    method ClearCache()
      requires Valid()
      modifies this
      ensures Valid()
      ensures sp == old(sp).Remove(TokenKey)
      ensures sp.strings == old(sp.strings) - {TokenKey}
      ensures forall now: EpochSeconds :: now >= -10 ==> TokenAvailable(now) == Success(false)
      ensures AuthorizationHeader() == Success("Bearer 0")
      ensures SwitchAccountRequired() == old(SwitchAccountRequired())
    {
      sp := sp.Remove(TokenKey);
      forall now: EpochSeconds | now >= -10
        ensures TokenAvailable(now) == Success(false)
      {
        ClearLogsOut(old(sp), now);
      }
      ClearLogsOut(old(sp), 0);
      SwitchFlagIsolated(old(sp), false, "");
    }

    /** The setter of `switchAccountRequired`. */
    method SetSwitchAccountRequired(value: bool)
      requires Valid()
      modifies this
      ensures Valid()
      ensures sp == old(sp).PutBoolean(SwitchAccountKey, value)
      ensures SwitchAccountRequired() == value
      ensures ReadTokenData(sp) == old(ReadTokenData(sp))
    {
      sp := sp.PutBoolean(SwitchAccountKey, value);
      SwitchFlagIsolated(old(sp), value, "");
    }

    /** `storeTokenData`: overwrite the record with `data.toString()`; a
        separator-free token then reads back unchanged. */
    method StoreTokenData(data: TokenData)
      requires Valid()
      modifies this
      ensures Valid()
      ensures sp == old(sp).PutString(TokenKey, data.Serialize())
      ensures Separator !in data.token ==> ReadTokenData(sp) == Success(data)
      ensures SwitchAccountRequired() == old(SwitchAccountRequired())
    {
      sp := sp.PutString(TokenKey, data.Serialize());
      StoreThenRead(old(sp), data);
      SwitchFlagIsolated(old(sp), false, data.Serialize());
    }

    /** The part of `code2token` after the request has been sent: store the
        returned token with expiry `now + expires_in - 10` and return true; with
        no body return false and store nothing; otherwise throw and store nothing. */
    method Code2Token(reply: Reply<TokenJson>, now: EpochSeconds) returns (r: Result<bool, Failure>)
      requires Valid()
      modifies this
      ensures Valid()
      ensures var o := ExchangeOutcome(reply, now);
        r == (match o
              case NoBody => Success(false)
              case Exchanged(_) => Success(true)
              case ExchangeFailed(f) => Failure(f))
      ensures var o := ExchangeOutcome(reply, now);
        sp == (if o.Exchanged? then old(sp).PutString(TokenKey, o.data.Serialize()) else old(sp))
      ensures r == Success(false) ==> sp == old(sp)
    {
      if reply.NetworkFailure? {
        return Failure(NetworkError);
      }
      var body := reply.response.body;
      if body.None? {
        return Success(false);
      }
      if body.value.Unparseable? {
        return Failure(MalformedJson);
      }
      var json := body.value.json;
      if json.accessToken.None? {
        return Failure(MissingField("access_token"));
      }
      var accessToken := json.accessToken.value;
      if json.expiresIn.None? {
        return Failure(MissingField("expires_in"));
      }
      var expiresIn := json.expiresIn.value;
      var expireTime := WrapLong(now + expiresIn - SafetyMarginSec);
      assert ExchangeOutcome(reply, now) == Exchanged(TokenData(accessToken, expireTime));
      StoreTokenData(TokenData(accessToken, expireTime));
      return Success(true);
    }

    /** `checkErrorAndGetData`: return the envelope's `data` and leave the store
        alone, or take the session-error path, which clears the token first. */
    method CheckErrorAndGetData<D>(response: Option<Response<EnvelopeJson<D>>>) returns (r: Outcome<D>)
      requires Valid()
      modifies this
      ensures Valid()
      ensures r == CheckEnvelope(response)
      ensures r.SessionError? ==> sp == old(sp).Remove(TokenKey)
      ensures !r.SessionError? ==> sp == old(sp)
      ensures r.SessionError? ==> forall now: EpochSeconds :: now >= -10 ==> TokenAvailable(now) == Success(false)
    {
      if response.None? || response.value.body.None? {
        ClearCache();
        return SessionError(NoDetail);
      }
      var body := response.value.body.value;
      if body.Unparseable? {
        ClearCache();
        return SessionError(JsonParseError(response.value.status));
      }
      var json := body.json;
      if json.code.None? {
        return Thrown(MissingField("code"));
      }
      if json.code.value != SuccessCode {
        ClearCache();
        return SessionError(NoDetail);
      }
      if json.data.None? {
        return Thrown(MissingField("data"));
      }
      return Data(json.data.value);
    }
  }
}
