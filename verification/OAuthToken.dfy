/** The nested messages that antigravity-manager/cli/proto_utils.py builds around OAuth tokens, and a
    length-delimited reader for them.  Texts are given by their UTF-8 bytes. */
module OAuthToken {
  import Base64
  import Varint
  import opened Binary
  import opened Options

  const LENGTH_DELIMITED := 2
  const VARINT_TYPE := 0

  function Tag(field: nat, wireType: nat): nat {
    field * 8 + wireType
  }

  function Bearer(): Bytes { [66, 101, 97, 114, 101, 114] }

  /** "oauthTokenInfoSentinelKey" */
  function Sentinel(): Bytes {
    [111, 97, 117, 116, 104, 84, 111, 107, 101, 110, 73, 110, 102, 111, 83, 101, 110, 116, 105, 110, 101, 108, 75,
        101, 121]
  }

  // ---------- Writing ----------

  /** A length-delimited field: create_string_field, and the wrapping steps of the other functions */
  function LenField(field: nat, value: Bytes): Bytes {
    Varint.Encode(Tag(field, LENGTH_DELIMITED)) + Varint.Encode(|value|) + value
  }

  /** create_timestamp_field, for a number that encode_varint accepts */
  function TimestampField(field: nat, seconds: nat): Bytes {
    LenField(field, TimestampMessage(seconds))
  }

  function TimestampMessage(seconds: nat): Bytes {
    Varint.Encode(Tag(1, VARINT_TYPE)) + Varint.Encode(seconds)
  }

  /** create_oauth_info: writing a negative expiry raises an error */
  function OAuthInfo(access: Bytes, refresh: Bytes, expiry: int): Option<Bytes> {
    if expiry < 0 then None
    else Some(LenField(1, access) + LenField(2, Bearer()) + LenField(3, refresh) + TimestampField(4, expiry))
  }

  /** create_unified_oauth_token */
  function UnifiedToken(access: Bytes, refresh: Bytes, expiry: int): Option<Bytes> {
    var info := OAuthInfo(access, refresh, expiry);
    if info.None? then None
    else Some(Base64.Encode(LenField(1, Envelope(Base64.Encode(info.value)))))
  }

  /** The inner message: the sentinel, and a field that holds the text as a field of its own. */
  function Envelope(text: Bytes): Bytes {
    LenField(1, Sentinel()) + LenField(2, LenField(1, text))
  }

  // ---------- Reading ----------

  datatype Field = Field(number: nat, value: Bytes, rest: Bytes)

  /** The length-delimited field at the front. */
  function ReadField(s: Bytes): Option<Field> {
    var tag := Varint.Decode(s);
    if tag.None? || tag.value.value % 8 != LENGTH_DELIMITED then None
    else
      var afterTag := s[tag.value.length..];
      var length := Varint.Decode(afterTag);
      if length.None? then None
      else
        var body := afterTag[length.value.length..];
        if length.value.value > |body| then None
        else Some(Field(tag.value.value / 8, body[..length.value.value], body[length.value.value..]))
  }

  /** The value of the expected field at the front, and what follows. */
  function Expect(number: nat, s: Bytes): Option<Field> {
    var f := ReadField(s);
    if f.Some? && f.value.number == number then f else None
  }

  function ReadTimestamp(s: Bytes): Option<nat> {
    var tag := Varint.Decode(s);
    if tag.None? || tag.value.value != Tag(1, VARINT_TYPE) then None
    else
      var seconds := Varint.Decode(s[tag.value.length..]);
      if seconds.Some? && tag.value.length + seconds.value.length == |s| then Some(seconds.value.value) else None
  }

  datatype Tokens = Tokens(access: Bytes, refresh: Bytes, expiry: int)

  function ReadOAuthInfo(s: Bytes): Option<Tokens> {
    var access := Expect(1, s);
    if access.None? then None else
    var kind := Expect(2, access.value.rest);
    if kind.None? || kind.value.value != Bearer() then None else
    var refresh := Expect(3, kind.value.rest);
    if refresh.None? then None else
    var stamp := Expect(4, refresh.value.rest);
    if stamp.None? || stamp.value.rest != [] then None else
    var expiry := ReadTimestamp(stamp.value.value);
    if expiry.None? then None else Some(Tokens(access.value.value, refresh.value.value, expiry.value))
  }

  /** Two fields, the second one wrapping a field: what Envelope writes. */
  function ReadEnvelope(s: Bytes): Option<Bytes> {
    var key := Expect(1, s);
    if key.None? || key.value.value != Sentinel() then None else
    var holder := Expect(2, key.value.rest);
    if holder.None? || holder.value.rest != [] then None else
    var text := Expect(1, holder.value.value);
    if text.None? || text.value.rest != [] then None else Some(text.value.value)
  }

  function ReadUnifiedToken(s: Bytes): Option<Tokens> {
    var outer := Base64.Decode(s);
    if outer.None? then None else
    var f := Expect(1, outer.value);
    if f.None? || f.value.rest != [] then None else
    var text := ReadEnvelope(f.value.value);
    if text.None? then None else
    var info := Base64.Decode(text.value);
    if info.None? then None else ReadOAuthInfo(info.value)
  }

  // ---------- Round trip ----------

  /** A field reads back whatever its number, its contents and what follows. */
  lemma FieldRoundTrip(field: nat, value: Bytes, rest: Bytes)
    ensures Expect(field, LenField(field, value) + rest) == Some(Field(field, value, rest))
  {
    var tag, length := Varint.Encode(Tag(field, LENGTH_DELIMITED)), Varint.Encode(|value|);
    var s := LenField(field, value) + rest;
    assert s == tag + (length + (value + rest));
    Varint.RoundTrip(Tag(field, LENGTH_DELIMITED), length + (value + rest));
    DropFirst(tag, length + (value + rest));
    Varint.RoundTrip(|value|, value + rest);
    DropFirst(length, value + rest);
    DropFirst(value, rest);
  }

  lemma LastFieldRoundTrip(field: nat, value: Bytes)
    ensures Expect(field, LenField(field, value)) == Some(Field(field, value, []))
  {
    FieldRoundTrip(field, value, []);
    assert LenField(field, value) + [] == LenField(field, value);
  }

  lemma TimestampRoundTrip(seconds: nat)
    ensures ReadTimestamp(TimestampMessage(seconds)) == Some(seconds)
  {
    var tag, value := Varint.Encode(Tag(1, VARINT_TYPE)), Varint.Encode(seconds);
    Varint.RoundTrip(Tag(1, VARINT_TYPE), value);
    DropFirst(tag, value);
    Varint.RoundTrip(seconds, []);
    assert value + [] == value;
  }

  lemma OAuthInfoRoundTrip(access: Bytes, refresh: Bytes, expiry: nat)
    ensures ReadOAuthInfo(OAuthInfo(access, refresh, expiry).value) == Some(Tokens(access, refresh, expiry))
  {
    var f1, f2, f3, f4 := LenField(1, access), LenField(2, Bearer()), LenField(3, refresh), TimestampField(4, expiry);
    assert f1 + f2 + f3 + f4 == f1 + (f2 + (f3 + f4));
    FieldRoundTrip(1, access, f2 + (f3 + f4));
    FieldRoundTrip(2, Bearer(), f3 + f4);
    FieldRoundTrip(3, refresh, f4);
    LastFieldRoundTrip(4, TimestampMessage(expiry));
    TimestampRoundTrip(expiry);
  }

  lemma EnvelopeRoundTrip(text: Bytes)
    ensures ReadEnvelope(Envelope(text)) == Some(text)
  {
    FieldRoundTrip(1, Sentinel(), LenField(2, LenField(1, text)));
    LastFieldRoundTrip(2, LenField(1, text));
    LastFieldRoundTrip(1, text);
  }

  /** Both tokens and the expiry come back from the unified token; a token is produced exactly for an expiry that
      is not negative. */
  lemma UnifiedTokenRoundTrip(access: Bytes, refresh: Bytes, expiry: int)
    ensures UnifiedToken(access, refresh, expiry).Some? <==> expiry >= 0
    ensures expiry >= 0 ==>
              ReadUnifiedToken(UnifiedToken(access, refresh, expiry).value) == Some(Tokens(access, refresh, expiry))
  {
    if expiry >= 0 {
      var info := OAuthInfo(access, refresh, expiry).value;
      var text := Base64.Encode(info);
      Base64.RoundTrip(LenField(1, Envelope(text)));
      LastFieldRoundTrip(1, Envelope(text));
      EnvelopeRoundTrip(text);
      Base64.RoundTrip(info);
      OAuthInfoRoundTrip(access, refresh, expiry);
    }
  }

  /** Different credentials never give the same unified token. */
  lemma UnifiedTokenInjective(a: Tokens, b: Tokens)
    requires a.expiry >= 0 && b.expiry >= 0
    ensures UnifiedToken(a.access, a.refresh, a.expiry) == UnifiedToken(b.access, b.refresh, b.expiry) ==> a == b
  {
    UnifiedTokenRoundTrip(a.access, a.refresh, a.expiry);
    UnifiedTokenRoundTrip(b.access, b.refresh, b.expiry);
  }

  // ---------- The bytes ----------

  function Codes(s: string): seq<int> {
    seq(|s|, i requires 0 <= i < |s| => s[i] as int)
  }

  /** A short field with a small number is written as the number and the wire type 2 in one byte, the length in one
      byte, and the value; a timestamp's seconds follow the byte 8. */
  lemma ShortFieldBytes(field: nat, value: Bytes, seconds: nat)
    requires field < 16 && |value| < 128 && seconds < 128
    ensures LenField(field, value) == [field * 8 + 2, |value|] + value
    ensures TimestampMessage(seconds) == [8, seconds]
  {
  }

  /** The fixed texts of the messages. */
  lemma FixedTexts()
    ensures Bearer() == Codes("Bearer") && Sentinel() == Codes("oauthTokenInfoSentinelKey")
  {
  }
}
