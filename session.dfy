/** What `TongjiApi` keeps in its `SharedPreferences` file ("onetj.tjapi") and
    what it reads back from it, as functions of the stored contents. */
module Session {
  import opened Wrappers
  import opened Decimal
  import opened TokenRecord
  import opened Responses

  const TokenKey: string := "tkdata"
  const SwitchAccountKey: string := "swacc"

  /** `System.currentTimeMillis() / 1000` (Kotlin `Long` division truncates toward zero). */
  type EpochSeconds = x: int | -9223372036854775 <= x <= 9223372036854775

  /** The contents of a `SharedPreferences` file: one key space whose values are
      strings or booleans; `Disjoint` says that a key holds at most one of the two. */
  datatype Prefs = Prefs(strings: map<string, string>, booleans: map<string, bool>) {

    predicate Disjoint() {
      strings.Keys !! booleans.Keys
    }

    /** The client's two keys hold the types it writes: a string under the
        token key and a boolean under the switch-account key. */
    predicate KeysTyped() {
      TokenKey !in booleans && SwitchAccountKey !in strings
    }

    /** `getStringOrNull`: the string under `key`, or null when there is none. */
    function GetStringOrNull(key: string): (r: Option<string>)
      ensures r.Some? <==> key in strings
      ensures r.Some? ==> r.value == strings[key]
    {
      if key in strings then Some(strings[key]) else None
    }

    function GetBoolean(key: string, default: bool): bool {
      if key in booleans then booleans[key] else default
    }

    /** `edit().putString(key, value).apply()` */
    function PutString(key: string, value: string): (p: Prefs)
      ensures Disjoint() ==> p.Disjoint()
    {
      Prefs(strings[key := value], booleans - {key})
    }

    /** `edit().putBoolean(key, value).apply()` */
    function PutBoolean(key: string, value: bool): (p: Prefs)
      ensures Disjoint() ==> p.Disjoint()
    {
      Prefs(strings - {key}, booleans[key := value])
    }

    /** `edit().remove(key).apply()`: removes the key whatever its value's type. */
    function Remove(key: string): (p: Prefs)
      ensures Disjoint() ==> p.Disjoint()
    {
      Prefs(strings - {key}, booleans - {key})
    }
  }

  /** `getTokenData`: the stored record, or "0|0" when there is none, split and parsed. */
  function ReadTokenData(sp: Prefs): (r: Result<TokenData, TokenError>)
    ensures r.Success? ==> Separator !in r.value.token
    ensures TokenKey !in sp.strings ==> r == Success(TokenData("0", 0))
  {
    DefaultRecordReads();
    ParseRecord(sp.GetStringOrNull(TokenKey).GetOr(DefaultRecord))
  }

  /** `tokenAvailable`: whether the stored token has more than the safety margin left. */
  function TokenAvailableAt(sp: Prefs, now: EpochSeconds): (r: Result<bool, TokenError>)
    ensures r.Failure? <==> ReadTokenData(sp).Failure?
    ensures r.Success? ==> (r.value <==> ReadTokenData(sp).value.expireTimeSec > now + 10)
  {
    match ReadTokenData(sp)
    case Success(t) => Success(Usable(t, now))
    case Failure(e) => Failure(e)
  }

  /** The value `addAuthorization` gives the `Authorization` header (section 2.1
      of RFC 6750): the stored token, whatever its expiry. */
  function AuthorizationHeaderIn(sp: Prefs): (r: Result<string, TokenError>)
    ensures r.Failure? <==> ReadTokenData(sp).Failure?
    ensures r.Success? ==> |r.value| >= 7 && r.value[..7] == "Bearer " && r.value[7..] == ReadTokenData(sp).value.token
  {
    match ReadTokenData(sp)
    case Success(t) => Success("Bearer " + t.token)
    case Failure(e) => Failure(e)
  }

  /** The getter of `switchAccountRequired`. */
  function SwitchAccountRequiredIn(sp: Prefs): (r: bool)
    ensures SwitchAccountKey !in sp.booleans ==> !r
    ensures SwitchAccountKey in sp.booleans ==> r == sp.booleans[SwitchAccountKey]
  {
    sp.GetBoolean(SwitchAccountKey, false)
  }

  /** With no record stored, the token reads as "0" expiring at second 0. */
  lemma ReadWithoutRecord(sp: Prefs)
    requires TokenKey !in sp.strings
    ensures ReadTokenData(sp) == Success(TokenData("0", 0))
  {
    DefaultRecordReads();
  }

  /** `storeTokenData` then `getTokenData` gives back the record exactly when
      the token has no separator in it. */
  lemma StoreThenRead(sp: Prefs, t: TokenData)
    ensures ReadTokenData(sp.PutString(TokenKey, t.Serialize())) == Success(t) <==> Separator !in t.token
  {
    RecordRoundTrip(t);
  }

  /** After `clearCache` the stored state is UNAUTHENTICATED at every time from
      ten seconds before the epoch on: the default record expires at second 0. */
  lemma ClearLogsOut(sp: Prefs, now: EpochSeconds)
    ensures ReadTokenData(sp.Remove(TokenKey)) == Success(TokenData("0", 0))
    ensures TokenAvailableAt(sp.Remove(TokenKey), now) == Success(now < -SafetyMarginSec)
    ensures now >= -10 ==> TokenAvailableAt(sp.Remove(TokenKey), now) == Success(false)
    ensures AuthorizationHeaderIn(sp.Remove(TokenKey)) == Success("Bearer 0")
  {
    ReadWithoutRecord(sp.Remove(TokenKey));
    assert "Bearer " + "0" == "Bearer 0";
  }

  /** A stored separator-free token is available at `now` exactly when its
      expiry is more than ten seconds later. */
  lemma StoredAvailability(sp: Prefs, t: TokenData, now: EpochSeconds)
    requires Separator !in t.token
    ensures TokenAvailableAt(sp.PutString(TokenKey, t.Serialize()), now) == Success(t.expireTimeSec > now + 10)
  {
    StoreThenRead(sp, t);
  }

  /** The margin is strict: expiring at `now + 10` is unavailable, at `now + 11` available. */
  lemma AvailabilityBoundary(sp: Prefs, token: string, now: EpochSeconds)
    requires Separator !in token
    ensures TokenAvailableAt(sp.PutString(TokenKey, TokenData(token, now + 10).Serialize()), now) == Success(false)
    ensures TokenAvailableAt(sp.PutString(TokenKey, TokenData(token, now + 11).Serialize()), now) == Success(true)
  {
    StoredAvailability(sp, TokenData(token, now + 10), now);
    StoredAvailability(sp, TokenData(token, now + 11), now);
  }

  /** The header carries the stored token with no validity check: an expired
      token is sent just as a fresh one is. */
  lemma HeaderIgnoresExpiry(sp: Prefs, t: TokenData)
    requires Separator !in t.token
    ensures AuthorizationHeaderIn(sp.PutString(TokenKey, t.Serialize())) == Success("Bearer " + t.token)
  {
    StoreThenRead(sp, t);
  }

  /** A complete token response makes the state AUTHENTICATED at the same
      second exactly when `expires_in` exceeds twice the margin (ten seconds are
      taken off when storing and ten more by `tokenAvailable`), provided the
      expiry does not overflow and the token has no separator. */
  lemma ExchangeAuthenticates(sp: Prefs, token: string, expiresIn: Long, status: int, now: EpochSeconds)
    requires Separator !in token
    requires MinLong <= now + expiresIn - 10 <= MaxLong
    ensures var o := ExchangeOutcome(Received(Response(status, Some(Parsed(TokenJson(Some(token), Some(expiresIn)))))), now);
      o.Exchanged? && TokenAvailableAt(sp.PutString(TokenKey, o.data.Serialize()), now) == Success(expiresIn > 20)
  {
    var o := ExchangeOutcome(Received(Response(status, Some(Parsed(TokenJson(Some(token), Some(expiresIn)))))), now);
    ExchangeExpiry(token, expiresIn, status, now);
    StoredAvailability(sp, o.data, now);
  }

  /** `switchAccountRequired` defaults to false, reads back the last value set,
      and is untouched by storing or clearing the token. */
  lemma SwitchFlagIsolated(sp: Prefs, value: bool, record: string)
    ensures SwitchAccountKey !in sp.booleans ==> !SwitchAccountRequiredIn(sp)
    ensures SwitchAccountRequiredIn(sp.PutBoolean(SwitchAccountKey, value)) == value
    ensures SwitchAccountRequiredIn(sp.PutString(TokenKey, record)) == SwitchAccountRequiredIn(sp)
    ensures SwitchAccountRequiredIn(sp.Remove(TokenKey)) == SwitchAccountRequiredIn(sp)
    ensures ReadTokenData(sp.PutBoolean(SwitchAccountKey, value)) == ReadTokenData(sp)
  {
    assert sp.PutBoolean(SwitchAccountKey, value).GetStringOrNull(TokenKey) == sp.GetStringOrNull(TokenKey);
  }
}
