/** The hand-rolled token and password codec (`backend/app/core/security.py`):
    PBKDF2 password hashes stored as `salt$hex`, and HS256 JSON Web Tokens in
    the JWS compact serialisation (section 7.1 of RFC 7515, algorithm of
    section 3.2 of RFC 7518) with an `exp` claim (section 4.1.4 of RFC 7519).
    The cryptographic primitives and the JSON parser are library code; they
    enter as the fields of a `Crypto` value, so every property below holds
    for any implementation of them. */
module Security {
  import opened Wrappers
  import opened Text
  import opened Base64Url
  import opened JsonValue

  // ---------------------------------------------------------------- library code as parameters

  /** HMAC-SHA256 (key, message), PBKDF2-HMAC-SHA256 (password, salt,
      iterations), and `json.loads` of bytes and of text (`None` is the
      decoding error). */
  datatype Crypto = Crypto(
    hmacSha256: (seq<byte>, seq<byte>) -> seq<byte>,
    pbkdf2Sha256: (seq<byte>, seq<byte>, nat) -> seq<byte>,
    loads: seq<byte> -> Option<Json>,
    loadsText: string -> Option<Json>)

  /** `settings.SECRET_KEY` and `settings.ACCESS_TOKEN_EXPIRE_MINUTES`. */
  datatype Settings = Settings(secretKey: string, expireMinutes: int)

  /** Python's `int()` of a float: truncation toward zero. */
  function Trunc(x: real): (i: int)
    ensures x >= 0.0 ==> i as real <= x < i as real + 1.0
    ensures x < 0.0 ==> i as real - 1.0 < x <= i as real
  {
    if x >= 0.0 then x.Floor else -((-x).Floor)
  }

  // ---------------------------------------------------------------- passwords

  /** The PBKDF2 iteration count. */
  const Iterations: nat := 100000

  /** `hash_password(password)`, with the 16 random salt bytes of
      `secrets.token_hex(16)` as a parameter: the hex salt, '$', and the hex
      of the derived key. */
  function HashPassword(c: Crypto, password: string, saltBytes: seq<byte>): (stored: string)
    requires |saltBytes| == 16
    ensures SplitOnce(stored, '$') == Some((Hex(saltBytes), Hex(c.pbkdf2Sha256(Utf8(password), Utf8(Hex(saltBytes)), Iterations))))
  {
    var salt := Hex(saltBytes);
    SplitOnceAt(salt, '$', Hex(c.pbkdf2Sha256(Utf8(password), Utf8(salt), Iterations)));
    salt + "$" + Hex(c.pbkdf2Sha256(Utf8(password), Utf8(salt), Iterations))
  }

  /** `verify_password(plain, hashed)`: split at the first '$'; a stored value
      without one makes the unpacking raise, which yields `False`. */
  function VerifyPassword(c: Crypto, plain: string, hashed: string): bool {
    match SplitOnce(hashed, '$')
    case None => false
    case Some(parts) => Hex(c.pbkdf2Sha256(Utf8(plain), Utf8(parts.0), Iterations)) == parts.1
  }

  /** A password verifies against its own hash. */
  lemma VerifyHashed(c: Crypto, password: string, saltBytes: seq<byte>)
    requires |saltBytes| == 16
    ensures VerifyPassword(c, password, HashPassword(c, password, saltBytes))
  {
  }

  /** Another password verifies against the hash exactly when PBKDF2 gives it
      the same derived key under the stored salt. */
  lemma VerifyIffSameKey(c: Crypto, password: string, other: string, saltBytes: seq<byte>)
    requires |saltBytes| == 16
    ensures VerifyPassword(c, other, HashPassword(c, password, saltBytes))
        <==> (c.pbkdf2Sha256(Utf8(other), Utf8(Hex(saltBytes)), Iterations)
              == c.pbkdf2Sha256(Utf8(password), Utf8(Hex(saltBytes)), Iterations))
  {
    var salt := Hex(saltBytes);
    var mine := c.pbkdf2Sha256(Utf8(password), Utf8(salt), Iterations);
    var theirs := c.pbkdf2Sha256(Utf8(other), Utf8(salt), Iterations);
    if Hex(theirs) == Hex(mine) {
      HexInjective(theirs, mine);
    }
  }

  /** A stored value without '$' never verifies (instead of raising). */
  lemma NoSeparatorRejected(c: Crypto, plain: string, hashed: string)
    requires '$' !in hashed
    ensures !VerifyPassword(c, plain, hashed)
  {
  }

  // ---------------------------------------------------------------- creating tokens

  /** `json.dumps({"alg": "HS256", "typ": "JWT"}, separators=(",", ":"))`. */
  const HeaderJson: string := "{\"alg\":\"HS256\",\"typ\":\"JWT\"}"

  /** `json.dumps({"sub": str(subject), "exp": exp}, separators=(",", ":"))`. */
  function PayloadJson(subject: int, exp: int): string {
    "{\"sub\":\"" + IntToString(subject) + "\",\"exp\":" + IntToString(exp) + "}"
  }

  /** The dictionary that text stands for. */
  function PayloadObject(subject: int, exp: int): Json {
    JObject(map["sub" := JStr(IntToString(subject)), "exp" := JInt(exp)])
  }

  /** `int((now + timedelta(minutes=M)).timestamp())`, with `now` in seconds. */
  function ExpiryFor(st: Settings, now: real): int {
    Trunc(now + (60 * st.expireMinutes) as real)
  }

  /** The HS256 signature of `f"{h}.{p}".encode()` under the secret key. */
  function Signature(c: Crypto, st: Settings, h: string, p: string): seq<byte> {
    c.hmacSha256(Utf8(st.secretKey), Utf8(h + "." + p))
  }

  /** `create_access_token(subject)` at the instant `now`. */
  function CreateAccessToken(c: Crypto, st: Settings, subject: int, now: real): (token: string) {
    var h := B64UrlEncode(Utf8(HeaderJson));
    var p := B64UrlEncode(Utf8(PayloadJson(subject, ExpiryFor(st, now))));
    h + "." + p + "." + B64UrlEncode(Signature(c, st, h, p))
  }

  /** A created token has exactly three '.'-separated segments: the encoded
      header, the encoded payload, and the encoded signature of the first two. */
  lemma CreatedSegments(c: Crypto, st: Settings, subject: int, now: real)
    ensures var h := B64UrlEncode(Utf8(HeaderJson));
            var p := B64UrlEncode(Utf8(PayloadJson(subject, ExpiryFor(st, now))));
            Split(CreateAccessToken(c, st, subject, now), '.')
              == [h, p, B64UrlEncode(Signature(c, st, h, p))]
  {
    var h := B64UrlEncode(Utf8(HeaderJson));
    var p := B64UrlEncode(Utf8(PayloadJson(subject, ExpiryFor(st, now))));
    EncodeAlphabet(Utf8(HeaderJson));
    EncodeAlphabet(Utf8(PayloadJson(subject, ExpiryFor(st, now))));
    EncodeAlphabet(Signature(c, st, h, p));
    ThreeSegments(h, p, B64UrlEncode(Signature(c, st, h, p)));
  }

  /** Three segments without '.' split back apart. */
  lemma ThreeSegments(h: string, p: string, s: string)
    requires '.' !in h && '.' !in p && '.' !in s
    ensures Split(h + "." + p + "." + s, '.') == [h, p, s]
  {
    assert h + "." + p + "." + s == h + ['.'] + (p + ['.'] + s);
    SplitAtSeparator(h, '.', p + ['.'] + s);
    SplitAtSeparator(p, '.', s);
    SplitNoSeparator(s, '.');
  }

  // ---------------------------------------------------------------- decoding tokens

  /** The ways `_decode_jwt` raises. */
  datatype TokenError =
    | WrongSegmentCount     // "Invalid token"
    | UndecodableSignature  // base64 error in the third segment
    | BadSignature          // "Invalid signature"
    | UndecodablePayload    // base64 error in the second segment
    | PayloadNotJson        // `json.loads` raises
    | PayloadTypeError      // `in`, indexing or `>` on a value that does not support it
    | Expired               // "Token expired"

  /** `now > v` for a JSON value; `None` is the `TypeError` of comparing a
      float with a string, list, dict or `None`. */
  function LaterThan(now: real, v: Json): Option<bool> {
    match v
    case JInt(i) => Some(now > i as real)
    case JFloat(r) => Some(now > r)
    case JBool(b) => Some(now > (if b then 1.0 else 0.0))
    case _ => None
  }

  predicate OccursAt(s: string, t: string, i: int) {
    0 <= i && i + |t| <= |s| && s[i..i + |t|] == t
  }

  /** `t in s` for strings. */
  predicate HasSubstring(s: string, t: string) {
    exists i :: 0 <= i <= |s| && OccursAt(s, t, i)
  }

  /** The tail of `_decode_jwt`: `"exp" in payload`, then `now > payload["exp"]`.
      On a list or a string the membership test works but the indexing raises;
      on a number, a boolean or `None` the membership test itself raises. */
  function CheckExpiry(payload: Json, now: real): Result<Json, TokenError> {
    match payload
    case JObject(f) =>
      if "exp" !in f then Ok(payload)
      else (match LaterThan(now, f["exp"])
            case None => Err(PayloadTypeError)
            case Some(later) => if later then Err(Expired) else Ok(payload))
    case JArray(items) => if JStr("exp") in items then Err(PayloadTypeError) else Ok(payload)
    case JStr(s) => if HasSubstring(s, "exp") then Err(PayloadTypeError) else Ok(payload)
    case _ => Err(PayloadTypeError)
  }

  /** `_decode_jwt(token)` at the instant `now`. */
  function DecodeJwt(c: Crypto, st: Settings, token: string, now: real): (r: Result<Json, TokenError>) {
    var parts := Split(token, '.');
    if |parts| != 3 then Err(WrongSegmentCount)
    else
      var h, p, s := parts[0], parts[1], parts[2];
      match B64UrlDecode(s)
      case Err(_) => Err(UndecodableSignature)
      case Ok(actual) =>
        if Signature(c, st, h, p) != actual then Err(BadSignature)
        else
          match B64UrlDecode(p)
          case Err(_) => Err(UndecodablePayload)
          case Ok(bytes) =>
            match c.loads(bytes)
            case None => Err(PayloadNotJson)
            case Some(payload) => CheckExpiry(payload, now)
  }

  /** A token is accepted only with three segments whose third decodes to the
      signature of the first two under the secret key; the accepted payload is
      what the second segment decodes and parses to. */
  lemma DecodeNeedsSignature(c: Crypto, st: Settings, token: string, now: real)
    requires DecodeJwt(c, st, token, now).Ok?
    ensures var parts := Split(token, '.');
            && |parts| == 3
            && B64UrlDecode(parts[2]) == Ok(Signature(c, st, parts[0], parts[1]))
            && B64UrlDecode(parts[1]).Ok?
            && c.loads(B64UrlDecode(parts[1]).value) == Some(DecodeJwt(c, st, token, now).value)
  {
  }

  /** A number of segments other than three is refused before anything else. */
  lemma WrongSegmentCountRefused(c: Crypto, st: Settings, token: string, now: real)
    requires |Split(token, '.')| != 3
    ensures DecodeJwt(c, st, token, now) == Err(WrongSegmentCount)
  {
  }

  /** For an object payload with a numeric `exp`, the token is refused as
      expired exactly when `now > exp`: it is still accepted at `now == exp`. */
  lemma ExpiryIff(payload: map<string, Json>, exp: int, now: real)
    requires "exp" in payload && payload["exp"] == JInt(exp)
    ensures CheckExpiry(JObject(payload), now) == Err(Expired) <==> now > exp as real
    ensures CheckExpiry(JObject(payload), now) == Ok(JObject(payload)) <==> now <= exp as real
  {
  }

  /** An object payload without `exp` never expires. */
  lemma NoExpiryNeverExpires(payload: map<string, Json>, now: real)
    requires "exp" !in payload
    ensures CheckExpiry(JObject(payload), now) == Ok(JObject(payload))
  {
  }

  /** Decoding a token just created, with a parser that reads the compact
      payload text as the dictionary it was written from: accepted up to and
      including its expiry second, refused as expired after it. */
  lemma DecodeCreated(c: Crypto, st: Settings, subject: int, issued: real, now: real)
    requires c.loads(Utf8(PayloadJson(subject, ExpiryFor(st, issued)))) == Some(PayloadObject(subject, ExpiryFor(st, issued)))
    ensures now <= ExpiryFor(st, issued) as real ==>
              DecodeJwt(c, st, CreateAccessToken(c, st, subject, issued), now) == Ok(PayloadObject(subject, ExpiryFor(st, issued)))
    ensures now > ExpiryFor(st, issued) as real ==>
              DecodeJwt(c, st, CreateAccessToken(c, st, subject, issued), now) == Err(Expired)
  {
    var exp := ExpiryFor(st, issued);
    var h := B64UrlEncode(Utf8(HeaderJson));
    var p := B64UrlEncode(Utf8(PayloadJson(subject, exp)));
    CreatedSegments(c, st, subject, issued);
    DecodeEncode(Signature(c, st, h, p));
    DecodeEncode(Utf8(PayloadJson(subject, exp)));
    ExpiryIff(PayloadObject(subject, exp).fields, exp, now);
  }

  // ---------------------------------------------------------------- the current user

  /** Python's `int(v)` for a JSON value; `None` is the `ValueError` or
      `TypeError` (of `None`, a list or a dict, or a malformed string). */
  function IntOf(v: Json): Option<int> {
    match v
    case JInt(i) => Some(i)
    case JBool(b) => Some(if b then 1 else 0)
    case JFloat(r) => Some(Trunc(r))
    case JStr(s) => ParsePyInt(s)
    case _ => None
  }

  /** `int(payload.get("sub"))` (and `int(payload["sub"])` in the socket
      handshake): a missing or null `sub`, a payload that is not a dictionary
      and a `sub` that is not an integer all fail. */
  function SubjectOf(payload: Json): Option<int> {
    match payload
    case JObject(f) => if "sub" in f then IntOf(f["sub"]) else None
    case _ => None
  }

  /** `get_current_user(token)`, with `db.get(User, uid)` as the predicate
      `known`: the user id, or the single 401 error. */
  function CurrentUser(c: Crypto, st: Settings, token: string, now: real, known: int -> bool): (r: Option<int>)
    ensures r.Some? ==> DecodeJwt(c, st, token, now).Ok? && SubjectOf(DecodeJwt(c, st, token, now).value) == r && known(r.value)
  {
    match DecodeJwt(c, st, token, now)
    case Err(_) => None
    case Ok(payload) =>
      match SubjectOf(payload)
      case None => None
      case Some(uid) => if known(uid) then Some(uid) else None
  }

  /** The reject conditions of `get_current_user`, each one alone sufficient. */
  lemma CurrentUserRejects(c: Crypto, st: Settings, token: string, now: real, known: int -> bool)
    ensures DecodeJwt(c, st, token, now).Err? ==> CurrentUser(c, st, token, now, known).None?
    ensures DecodeJwt(c, st, token, now).Ok? && DecodeJwt(c, st, token, now).value.JObject?
            && "sub" !in DecodeJwt(c, st, token, now).value.fields
            ==> CurrentUser(c, st, token, now, known).None?
    ensures DecodeJwt(c, st, token, now).Ok? && DecodeJwt(c, st, token, now).value.JObject?
            && "sub" in DecodeJwt(c, st, token, now).value.fields
            && DecodeJwt(c, st, token, now).value.fields["sub"] == JNull
            ==> CurrentUser(c, st, token, now, known).None?
    ensures DecodeJwt(c, st, token, now).Ok? && DecodeJwt(c, st, token, now).value.JObject?
            && "sub" in DecodeJwt(c, st, token, now).value.fields
            && DecodeJwt(c, st, token, now).value.fields["sub"].JStr?
            && ParsePyInt(DecodeJwt(c, st, token, now).value.fields["sub"].s).None?
            ==> CurrentUser(c, st, token, now, known).None?
    ensures DecodeJwt(c, st, token, now).Ok? && SubjectOf(DecodeJwt(c, st, token, now).value).None?
            ==> CurrentUser(c, st, token, now, known).None?
    ensures DecodeJwt(c, st, token, now).Ok? && SubjectOf(DecodeJwt(c, st, token, now).value).Some?
            && !known(SubjectOf(DecodeJwt(c, st, token, now).value).value)
            ==> CurrentUser(c, st, token, now, known).None?
  {
  }

  /** A freshly created token for a known user, used before it expires,
      authenticates that user. */
  lemma CurrentUserOfCreated(c: Crypto, st: Settings, subject: int, issued: real, now: real, known: int -> bool)
    requires c.loads(Utf8(PayloadJson(subject, ExpiryFor(st, issued)))) == Some(PayloadObject(subject, ExpiryFor(st, issued)))
    requires now <= ExpiryFor(st, issued) as real
    requires |NatToString(if subject < 0 then -subject else subject)| <= MaxStrDigits
    ensures CurrentUser(c, st, CreateAccessToken(c, st, subject, issued), now, known)
         == if known(subject) then Some(subject) else None
  {
    var exp := ExpiryFor(st, issued);
    DecodeCreated(c, st, subject, issued, now);
    ParseIntToString(subject);
    PayloadSubject(subject, exp);
  }

  /** The subject claim of a created payload reads back as the subject. */
  lemma PayloadSubject(subject: int, exp: int)
    requires |NatToString(if subject < 0 then -subject else subject)| <= MaxStrDigits
    ensures SubjectOf(PayloadObject(subject, exp)) == Some(subject)
  {
    var f := PayloadObject(subject, exp).fields;
    assert "sub" in f && f["sub"] == JStr(IntToString(subject));
    ParseIntToString(subject);
  }
}
