# TongjiApi session core, in Dafny

This project models the self-contained logic of `TongjiApi`, the Android client
that One Dot Tongji uses to call the Tongji University open API. It covers four parts:

- **The token record.** `TokenData` is persisted in `SharedPreferences` as the
  single string `token|expireTimeSec`. It is read back by splitting on every
  `|`. When nothing is stored, the text `"0|0"` is read instead
  (`TokenRecord`, with `Long` text conversion in `Decimal`).
- **The session store.** The preferences file is a value (`Session.Prefs`)
  held in a `var sp` of class `TongjiApi.TongjiApi`. `storeTokenData`,
  `clearCache`, the `switchAccountRequired` setter, `code2token` and
  `checkErrorAndGetData` are methods that reassign it. `tokenAvailable`, the
  `switchAccountRequired` getter and the `Authorization` header are read-only
  functions of it. The state is AUTHENTICATED when `tokenAvailable` holds and
  UNAUTHENTICATED otherwise. A successful code exchange moves it to
  AUTHENTICATED when `expires_in > 20` (see `ExchangeAuthenticates`): ten
  seconds come off when the expiry is stored and ten more in `tokenAvailable`.
  `clearCache` and every session error move it back. A key of the preferences
  file holds a string or a boolean, never both (`Prefs.Disjoint`), and the
  token key holds a string and the switch-account key a boolean
  (`Prefs.KeysTyped`); the class's `Valid()` keeps both from `Init` on.
- **The response envelope decision.** `Responses.CheckEnvelope` decides what
  `checkErrorAndGetData` does with a response. The response is given as an
  already-decoded outcome: a null response or body, an unparseable body, or the
  `code` and `data` fields. `Responses.ExchangeOutcome` does the same for the
  token endpoint's reply to `code2token`. That reply follows section 5.1 of
  RFC 6749.
- **`StudentInfo.Gender.make`**, the total decoder from a sex code to the enum.

The current time is a parameter `now`. It is the value of
`System.currentTimeMillis() / 1000`, so its type `EpochSeconds` is the range of
that quotient. Kotlin `Long` arithmetic is modelled exactly. `WrapLong` gives
the two's-complement wrap-around of `now + expires_in - 10`. `ParseLong` fails
(the `NumberFormatException`) for text that is not a `Long`.

Exceptions that the Kotlin code lets escape are modelled as `Failure`/`Thrown`
results, not excluded by preconditions:

- a stored record without `|`, or with a non-numeric expiry, makes
  `getTokenData` (and so `tokenAvailable` and the header) throw;
- an envelope without a `code` field makes `json.getString("code")` throw.
  That call is outside the `try`, so the exception escapes and the token is
  NOT cleared. Only a present code other than `"A00000"` takes the session-error
  path. The same holds for a success envelope without `data`;
- in `code2token`, an unparseable body, a missing `access_token` or a missing
  `expires_in` each throw; only a null body returns false.

A token containing `|` is stored without complaint but does not read back:
`RecordRoundTrip` shows that the round trip holds exactly for tokens without
`|`. Bearer tokens (section 2.1 of RFC 6750) cannot contain `|`.

## Model

| member | source | states |
|---|---|---|
| Decimal.LongToString | app/src/main/java/com/gardilily/onedottongji/tools/tongjiapi/TongjiApi.kt:78 | the decimal form of a `Long`: a leading `-` exactly for negatives, digits otherwise, never empty, and no leading zero except in "0" itself |
| Decimal.ParseLong | app/src/main/java/com/gardilily/onedottongji/tools/tongjiapi/TongjiApi.kt:111 | `toLong` succeeds only on a non-empty optionally signed run of digits (so never on text containing the separator) |
| Decimal.LongRoundTrip | app/src/main/java/com/gardilily/onedottongji/tools/tongjiapi/TongjiApi.kt:78-111 | `toLong(toString(n)) == n` for every `Long` n, so the expiry written by `toString` is read back |
| Decimal.WrapLong | app/src/main/java/com/gardilily/onedottongji/tools/tongjiapi/TongjiApi.kt:144 | `Long` addition wraps modulo 2^64 and is exact whenever the true value fits |
| TokenRecord.TokenData.Serialize | app/src/main/java/com/gardilily/onedottongji/tools/tongjiapi/TongjiApi.kt:77-79 | `toString` is exactly the token, the separator, then the canonical decimal `Long.toString` of the expiry, which parses back to the expiry |
| TokenRecord.Split | app/src/main/java/com/gardilily/onedottongji/tools/tongjiapi/TongjiApi.kt:110 | splitting on the separator yields at least one field, no field contains the separator, and joining the fields with it gives the input back |
| TokenRecord.SplitWithoutSeparator | app/src/main/java/com/gardilily/onedottongji/tools/tongjiapi/TongjiApi.kt:110 | text without the separator splits into itself alone |
| TokenRecord.SplitAtFirst | app/src/main/java/com/gardilily/onedottongji/tools/tongjiapi/TongjiApi.kt:110 | the first separator ends the first field and the remainder splits independently |
| TokenRecord.ParseRecord | app/src/main/java/com/gardilily/onedottongji/tools/tongjiapi/TongjiApi.kt:109-112 | a token read from a record is exactly the text before its first separator |
| TokenRecord.RecordRoundTrip | app/src/main/java/com/gardilily/onedottongji/tools/tongjiapi/TongjiApi.kt:99-112 | reading a serialised record gives back `(token, expireTimeSec)` if and only if the token has no separator |
| TokenRecord.DefaultRecordReads | app/src/main/java/com/gardilily/onedottongji/tools/tongjiapi/TongjiApi.kt:110-111 | the fallback record "0, separator, 0" reads as token "0" expiring at second 0 |
| Session.ReadWithoutRecord | app/src/main/java/com/gardilily/onedottongji/tools/tongjiapi/TongjiApi.kt:103-112 | with no stored record `getTokenData` yields token "0" and expiry 0 |
| Session.StoreThenRead | app/src/main/java/com/gardilily/onedottongji/tools/tongjiapi/TongjiApi.kt:99-112 | `storeTokenData` then `getTokenData` returns the stored record if and only if its token has no separator |
| Session.ClearLogsOut | app/src/main/java/com/gardilily/onedottongji/tools/tongjiapi/TongjiApi.kt:82-117 | after `clearCache` the record reads as ("0", 0), `tokenAvailable(now)` is false for every `now >= -10` (true only before that), and the header is "Bearer 0" |
| Session.StoredAvailability | app/src/main/java/com/gardilily/onedottongji/tools/tongjiapi/TongjiApi.kt:82-85 | with a stored record, `tokenAvailable(now)` holds if and only if `expireTimeSec > now + 10` |
| Session.AvailabilityBoundary | app/src/main/java/com/gardilily/onedottongji/tools/tongjiapi/TongjiApi.kt:82-85 | the margin is strict: expiry `now + 10` is unavailable, `now + 11` available |
| Session.HeaderIgnoresExpiry | app/src/main/java/com/gardilily/onedottongji/tools/tongjiapi/TongjiApi.kt:114-117 | the header is `"Bearer " + stored token` whatever the token's expiry: no validity pre-check |
| Session.ExchangeAuthenticates | app/src/main/java/com/gardilily/onedottongji/tools/tongjiapi/TongjiApi.kt:137-148 | a complete token response leaves the token available at the same second if and only if `expires_in > 20` (no overflow, no separator in the token) |
| Session.SwitchFlagIsolated | app/src/main/java/com/gardilily/onedottongji/tools/tongjiapi/TongjiApi.kt:87-101 | `switchAccountRequired` defaults to false, reads back the last value set, is unaffected by storing or clearing the token, and setting it leaves the token unchanged |
| Responses.DataIffSuccessCode | app/src/main/java/com/gardilily/onedottongji/tools/tongjiapi/TongjiApi.kt:255-273 | `data` is returned if and only if the body parses, `code == "A00000"` and `data` is present, and then it is that field |
| Responses.SessionErrorIff | app/src/main/java/com/gardilily/onedottongji/tools/tongjiapi/TongjiApi.kt:255-271 | the session-error path is taken if and only if the response or body is null, the body does not parse (any HTTP status), or a present code differs from "A00000"; only the parse failure's message names the status |
| Responses.ExchangeExpiry | app/src/main/java/com/gardilily/onedottongji/tools/tongjiapi/TongjiApi.kt:137-148 | a complete token response is always stored, with expiry `now + expires_in - 10` whenever that fits in a `Long` |
| Session.Prefs.GetStringOrNull | app/src/main/java/com/gardilily/onedottongji/tools/tongjiapi/TongjiApi.kt:103-107 | null exactly when the key is absent, otherwise the stored string |
| Session.ReadTokenData | app/src/main/java/com/gardilily/onedottongji/tools/tongjiapi/TongjiApi.kt:109-112 | a token read back never contains the separator; with no record it is ("0", 0); see also `StoreThenRead` |
| Session.TokenAvailableAt | app/src/main/java/com/gardilily/onedottongji/tools/tongjiapi/TongjiApi.kt:82-85 | throws exactly when the record cannot be read; otherwise true iff the expiry exceeds `now + 10`; see `StoredAvailability`, `ClearLogsOut` |
| Session.AuthorizationHeaderIn | app/src/main/java/com/gardilily/onedottongji/tools/tongjiapi/TongjiApi.kt:114-117 | the header is "Bearer " followed by exactly the stored token; see `HeaderIgnoresExpiry` |
| Session.SwitchAccountRequiredIn | app/src/main/java/com/gardilily/onedottongji/tools/tongjiapi/TongjiApi.kt:92-94 | false when the flag was never written, otherwise the stored value; see `SwitchFlagIsolated` |
| Responses.CheckEnvelope | app/src/main/java/com/gardilily/onedottongji/tools/tongjiapi/TongjiApi.kt:255-273 | data only for a parsed body with the success code, and then the `data` field; throws only on a parsed body; see `DataIffSuccessCode`, `SessionErrorIff` |
| Responses.ExchangeOutcome | app/src/main/java/com/gardilily/onedottongji/tools/tongjiapi/TongjiApi.kt:137-148 | a record is stored only from a parsed body, with its `access_token`; no body is the only way to return false; see `ExchangeOutcomeIff` |
| Responses.ExchangeOutcomeIff | app/src/main/java/com/gardilily/onedottongji/tools/tongjiapi/TongjiApi.kt:137-148 | returns false if and only if there is no body; stores a record if and only if the body parses and has both `access_token` and `expires_in` |
| TongjiApi.TongjiApi.TokenAvailable | app/src/main/java/com/gardilily/onedottongji/tools/tongjiapi/TongjiApi.kt:82-85 | with no record the token is available only before second -10; otherwise true iff the expiry exceeds `now + 10` |
| TongjiApi.TongjiApi.SwitchAccountRequired | app/src/main/java/com/gardilily/onedottongji/tools/tongjiapi/TongjiApi.kt:91-94 | false until the flag is written, and the stored value once it is present (also one persisted by an earlier run) |
| TongjiApi.TongjiApi.AuthorizationHeader | app/src/main/java/com/gardilily/onedottongji/tools/tongjiapi/TongjiApi.kt:114-117 | "Bearer " followed by the stored token, read without any validity check |
| StudentInfo.Make | app/src/main/java/com/gardilily/onedottongji/tools/tongjiapi/TongjiApi.kt:169-177 | codes 0, 1, 2, 9 map to the entry with that code; every other code maps to UNKNOWN |
| StudentInfo.MakeInvertsCode | app/src/main/java/com/gardilily/onedottongji/tools/tongjiapi/TongjiApi.kt:160-178 | `make(g.code) == g` for every entry, and codes are distinct |
| TongjiApi.TongjiApi.Init | app/src/main/java/com/gardilily/onedottongji/tools/tongjiapi/TongjiApi.kt:69-71 | the client starts from the persisted preferences as they are |
| TongjiApi.TongjiApi.ClearCache | app/src/main/java/com/gardilily/onedottongji/tools/tongjiapi/TongjiApi.kt:87-89 | removes only the token key (idempotent); afterwards no token is available from second -10 on, the header is "Bearer 0", and the switch flag is unchanged |
| TongjiApi.TongjiApi.SetSwitchAccountRequired | app/src/main/java/com/gardilily/onedottongji/tools/tongjiapi/TongjiApi.kt:91-97 | writes the flag, which then reads back as set; the token record is unchanged |
| TongjiApi.TongjiApi.StoreTokenData | app/src/main/java/com/gardilily/onedottongji/tools/tongjiapi/TongjiApi.kt:99-101 | overwrites the record with `data.toString()`; a separator-free token reads back as stored; the flag is unchanged |
| TongjiApi.TongjiApi.Code2Token | app/src/main/java/com/gardilily/onedottongji/tools/tongjiapi/TongjiApi.kt:135-148 | stores `access_token` with expiry `now + expires_in - 10` and returns true; a null body returns false and leaves the store unchanged; anything else throws and stores nothing |
| TongjiApi.TongjiApi.CheckErrorAndGetData | app/src/main/java/com/gardilily/onedottongji/tools/tongjiapi/TongjiApi.kt:230-275 | returns the envelope's outcome; the session-error path clears exactly the token (logged out from second -10 on), every other path leaves the store unchanged |

## Left out

- Building and sending requests with OkHttp: URLs, the form body of the code exchange, the fixed client id, redirect URI and scope list. These are calls into a foreign library. The model starts from the `Response` (or the `IOException`) that the transport returns.
- `Request.execute` and its network-error dialog guarded by a `Semaphore`. Their only logic is deduplicating a UI dialog across threads.
- The Android UI of the session-error path: the dialog's text, its button, starting the `Login` activity and `finish()`. The model records only that the path was taken (`SessionError`) and which detail its message carries.
- The endpoint methods (`getStudentInfo`, `getOneTongjiSchoolCalendar`, `getOneTongjiUndergraduateScore`, `getOneTongjiStudentTimetable`, `getOneTongjiStudentExams`). They are JSON-library field lookups around `checkErrorAndGetData`. This includes the `sexCode` `toInt()` before `Gender.make`.
- The singleton accessor `instance`. It is platform wiring; `Init` takes the persisted preferences directly.
- `System.currentTimeMillis()`. It becomes the parameter `now`, in seconds.
- The unchecked cast `json.get("data") as T`. `data` is returned as the caller's type `D`.
- The JSON library. Parsing failures and failures to read the body are both `Unparseable`. The type coercions of `getString`/`getLong` are folded into present-or-absent fields.
- `ParseLong` accepts only ASCII digits, whereas `Long.parseLong` also accepts other Unicode decimal digits. Only this client's own `toString` output is ever stored, and that is ASCII.
- `SharedPreferences.apply()` writes to disk asynchronously. The model keeps only the in-memory contents, which `apply()` updates at once. Concurrent access to the store is not modelled.
- Session.ExchangeAuthenticates: assumes that `now + expires_in - 10` fits in a `Long` and that the token has no `|`. Outside that range the expiry wraps (see `WrapLong`), and a token with `|` does not read back (see `RecordRoundTrip`).
- Session.Prefs.GetStringOrNull: returns null for a key that holds a boolean, where Android's `getString` would throw `ClassCastException`. The class's `Valid()` excludes that state for the token key (`Prefs.KeysTyped`), because the client only ever writes a string there.
- Session.SwitchAccountRequiredIn: reads false when the switch-account key holds a string, where `getBoolean` would throw `ClassCastException`. `Prefs.KeysTyped` excludes that state in the class, because the client only ever writes a boolean there.
