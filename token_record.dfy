/** The persisted token record of `TongjiApi.TokenData`: written as
    `token|expireTimeSec` and read back by splitting on `|`. */
module TokenRecord {
  import opened Wrappers
  import opened Decimal

  const Separator: char := '|'

  /** What is read when no record is stored. */
  const DefaultRecord: string := "0|0"

  /** Seconds a token must still have left before it is no longer used. */
  const SafetyMarginSec: int := 10

  /** An access token and the epoch second at which it is treated as expired. */
  datatype TokenData = TokenData(token: string, expireTimeSec: Long) {

    /** `TokenData.toString`: the token, the separator, then the expiry in decimal.
        The text after the token's own length and the separator parses back to
        the expiry. */
    function Serialize(): (s: string)
      ensures |s| > |token| && s[..|token|] == token && s[|token|] == Separator
      ensures s[|token| + 1..] == LongToString(expireTimeSec)
      ensures ParseLong(s[|token| + 1..]) == Some(expireTimeSec)
    {
      var digits := LongToString(expireTimeSec);
      LongRoundTrip(expireTimeSec);
      assert (token + [Separator] + digits)[|token| + 1..] == digits;
      token + [Separator] + digits
    }
  }

  /** Why reading a stored record throws: `datas[1]` is out of bounds, or
      `datas[1].toLong()` is not a `Long`. */
  datatype TokenError = MissingExpiry | MalformedExpiry(text: string)

  /** The fields of a split, put back together with `sep` between them. */
  function Join(parts: seq<string>, sep: char): string
    requires |parts| >= 1
  {
    if |parts| == 1 then parts[0] else parts[0] + [sep] + Join(parts[1..], sep)
  }

  /** Kotlin's `String.split(sep)` with a one-character literal delimiter and no
      limit: every occurrence separates two fields, empty fields included. */
  function Split(s: string, sep: char): (parts: seq<string>)
    ensures |parts| >= 1
    ensures forall i :: 0 <= i < |parts| ==> sep !in parts[i]
    ensures Join(parts, sep) == s
  {
    if |s| == 0 then [""]
    else
      var rest := Split(s[1..], sep);
      if s[0] == sep then
        assert ([""] + rest)[1..] == rest;
        [""] + rest
      else
        var parts := [[s[0]] + rest[0]] + rest[1..];
        assert parts[1..] == rest[1..];
        assert s == [s[0]] + s[1..];
        parts
  }

  /** A string without the separator is a single field. */
  lemma {:induction false} SplitWithoutSeparator(s: string, sep: char)
    requires sep !in s
    ensures Split(s, sep) == [s]
  {
    if |s| > 0 {
      assert sep !in s[1..];
      SplitWithoutSeparator(s[1..], sep);
    }
  }

  /** The first separator ends the first field; the rest splits on its own. */
  lemma {:induction false} SplitAtFirst(a: string, b: string, sep: char)
    requires sep !in a
    ensures Split(a + [sep] + b, sep) == [a] + Split(b, sep)
  {
    var s := a + [sep] + b;
    if a == [] {
      assert s[1..] == b;
    } else {
      assert s[1..] == a[1..] + [sep] + b;
      assert sep !in a[1..];
      SplitAtFirst(a[1..], b, sep);
      assert [a[0]] + a[1..] == a;
    }
  }

  /** `getTokenData` on the stored text: field 0 is the token, field 1 the expiry;
      further fields are ignored. A successfully read token is exactly the text
      before the first separator. */
  function ParseRecord(s: string): (r: Result<TokenData, TokenError>)
    ensures r.Success? ==> Separator !in r.value.token
    ensures r.Success? ==> |r.value.token| < |s| && s[..|r.value.token| + 1] == r.value.token + [Separator]
  {
    var datas := Split(s, Separator);
    if |datas| < 2 then Failure(MissingExpiry)
    else
      assert s == datas[0] + [Separator] + Join(datas[1..], Separator);
      match ParseLong(datas[1])
      case None => Failure(MalformedExpiry(datas[1]))
      case Some(e) => Success(TokenData(datas[0], e))
  }

  /** Store-then-read gives back the record exactly when the token has no separator. */
  lemma RecordRoundTrip(t: TokenData)
    ensures ParseRecord(t.Serialize()) == Success(t) <==> Separator !in t.token
  {
    if Separator !in t.token {
      var digits := LongToString(t.expireTimeSec);
      assert t.Serialize() == t.token + [Separator] + digits;
      SplitAtFirst(t.token, digits, Separator);
      SplitWithoutSeparator(digits, Separator);
      LongRoundTrip(t.expireTimeSec);
    }
  }

  /** With nothing stored, the default text reads as token "0" expiring at second 0. */
  lemma DefaultRecordReads()
    ensures ParseRecord(DefaultRecord) == Success(TokenData("0", 0))
  {
    RecordRoundTrip(TokenData("0", 0));
    assert TokenData("0", 0).Serialize() == DefaultRecord;
  }

  /** `tokenAvailable`'s test: more than the safety margin is left at `now`. */
  predicate Usable(t: TokenData, now: int) {
    t.expireTimeSec > now + SafetyMarginSec
  }
}
