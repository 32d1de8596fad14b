/** The notification socket endpoint (`websocket_notifications`): the two
    ways to authenticate (a `token` query parameter, or a first message
    `{"type": "auth", "token": ...}`), the close code for every refusal, and
    the session that answers "ping" until the client goes away. */
module Handshake {
  import opened Wrappers
  import opened JsonValue
  import opened Security
  import Registry

  /** The close code of every refusal; codes 4000-4999 are reserved for
      private use by section 7.4.2 of RFC 6455. */
  const AuthFailure: int := 4001

  /** How the handshake ends: closed with a code and reason, or admitted as a
      user (with `auth_ok` sent first when the first message authenticated). */
  datatype Outcome =
    | Refused(code: int, reason: string)
    | Admitted(user: int, byMessage: bool)

  /** Python truthiness of a JSON value. */
  predicate Truthy(v: Json) {
    match v
    case JNull => false
    case JBool(b) => b
    case JInt(i) => i != 0
    case JFloat(r) => r != 0.0
    case JStr(s) => s != ""
    case JArray(items) => items != []
    case JObject(f) => f != map[]
  }

  /** `db.get(User, user_id)` and the "User not found" refusal. */
  function Lookup(uid: int, known: int -> bool, byMessage: bool): (o: Outcome)
    ensures o.Admitted? <==> known(uid)
  {
    if known(uid) then Admitted(uid, byMessage) else Refused(AuthFailure, "User not found")
  }

  /** The user a token names: `_decode_jwt`, then `int(payload["sub"])`. */
  function TokenUser(c: Crypto, st: Settings, token: string, now: real): (r: Option<int>)
    ensures r.Some? ==> DecodeJwt(c, st, token, now).Ok?
  {
    match DecodeJwt(c, st, token, now)
    case Err(_) => None
    case Ok(payload) => SubjectOf(payload)
  }

  /** The first message: it must be a dictionary whose `type` is "auth" and
      whose `token` is truthy; a non-text token, or one that does not name a
      user, fails the authentication. */
  function AuthMessage(c: Crypto, st: Settings, msg: Json, now: real, known: int -> bool): Outcome {
    match msg
    case JObject(f) =>
      if !("type" in f && f["type"] == JStr("auth") && "token" in f && Truthy(f["token"])) then
        Refused(AuthFailure, "Expected auth message")
      else
        (match f["token"]
         case JStr(t) =>
           (match TokenUser(c, st, t, now)
            case None => Refused(AuthFailure, "Auth failed")
            case Some(uid) => Lookup(uid, known, true))
         case _ => Refused(AuthFailure, "Auth failed"))
    case _ => Refused(AuthFailure, "Auth failed")
  }

  /** The decision of `websocket_notifications`. `first` is the first text
      frame received within the timeout (`None`: the wait timed out or the
      client went away); `known` is the user table. */
  function Decide(c: Crypto, st: Settings, queryToken: string, first: Option<string>, now: real, known: int -> bool): (o: Outcome)
    ensures o.Refused? ==> o.code == AuthFailure
    ensures o.Admitted? ==> known(o.user)
    ensures o.Admitted? ==> (o.byMessage <==> queryToken == "")
  {
    if queryToken != "" then
      match TokenUser(c, st, queryToken, now)
      case None => Refused(AuthFailure, "Invalid token")
      case Some(uid) => Lookup(uid, known, false)
    else
      match first
      case None => Refused(AuthFailure, "Auth failed")
      case Some(raw) =>
        match c.loadsText(raw)
        case None => Refused(AuthFailure, "Auth failed")
        case Some(msg) => AuthMessage(c, st, msg, now, known)
  }

  /** Every refusal uses a private-use close code. */
  lemma RefusalCodePrivate(c: Crypto, st: Settings, queryToken: string, first: Option<string>, now: real, known: int -> bool)
    ensures Decide(c, st, queryToken, first, now, known).Refused? ==>
              4000 <= Decide(c, st, queryToken, first, now, known).code <= 4999
  {
  }

  /** With a query token the first message is never read: the socket is
      admitted exactly when the token names a known user. */
  lemma QueryTokenIff(c: Crypto, st: Settings, queryToken: string, first: Option<string>, now: real, known: int -> bool)
    requires queryToken != ""
    ensures Decide(c, st, queryToken, first, now, known) == Decide(c, st, queryToken, None, now, known)
    ensures Decide(c, st, queryToken, first, now, known).Admitted?
        <==> TokenUser(c, st, queryToken, now).Some? && known(TokenUser(c, st, queryToken, now).value)
  {
  }

  /** Without a query token, the socket is admitted exactly when the first
      message parses to `{"type": "auth", "token": t}` with a text `t` that
      names a known user. */
  lemma MessageIff(c: Crypto, st: Settings, first: Option<string>, now: real, known: int -> bool)
    ensures Decide(c, st, "", first, now, known).Admitted?
        <==> first.Some? && c.loadsText(first.value).Some? && c.loadsText(first.value).value.JObject?
             && var f := c.loadsText(first.value).value.fields;
             && "type" in f && f["type"] == JStr("auth") && "token" in f && f["token"].JStr?
             && f["token"].s != ""
             && TokenUser(c, st, f["token"].s, now).Some?
             && known(TokenUser(c, st, f["token"].s, now).value)
  {
  }

  /** A dictionary first message of another type is refused as unexpected,
      whatever its token. */
  lemma OtherMessageRefused(c: Crypto, st: Settings, raw: string, f: map<string, Json>, now: real, known: int -> bool)
    requires c.loadsText(raw) == Some(JObject(f))
    requires "type" !in f || f["type"] != JStr("auth")
    ensures Decide(c, st, "", Some(raw), now, known) == Refused(AuthFailure, "Expected auth message")
  {
  }

  /** A token just issued to a known user, presented as the query parameter
      before it expires, is admitted as that user. */
  lemma FreshQueryTokenAdmitted(c: Crypto, st: Settings, subject: int, issued: real, now: real, first: Option<string>, known: int -> bool)
    requires c.loads(Text.Utf8(PayloadJson(subject, ExpiryFor(st, issued)))) == Some(PayloadObject(subject, ExpiryFor(st, issued)))
    requires now <= ExpiryFor(st, issued) as real
    requires |Text.NatToString(if subject < 0 then -subject else subject)| <= Text.MaxStrDigits
    requires known(subject)
    ensures Decide(c, st, CreateAccessToken(c, st, subject, issued), first, now, known) == Admitted(subject, false)
  {
    DecodeCreated(c, st, subject, issued, now);
    PayloadSubject(subject, ExpiryFor(st, issued));
    CreatedSegments(c, st, subject, issued);
  }

  // ---------------------------------------------------------------- the session

  /** A frame the server sends on an admitted socket. */
  datatype Frame = AuthOk | Pong

  /** The answers to a run of received texts: one "pong" per "ping", nothing
      for any other text. */
  function Pongs(received: seq<string>): seq<Frame>
    decreases |received|
  {
    if received == [] then []
    else Pongs(received[..|received| - 1]) + (if received[|received| - 1] == "ping" then [Pong] else [])
  }

  lemma {:induction false} PongsAppend(a: seq<string>, b: seq<string>)
    ensures Pongs(a + b) == Pongs(a) + Pongs(b)
    decreases |b|
  {
    if b == [] {
      assert a + b == a;
    } else {
      assert (a + b)[..|a + b| - 1] == a + b[..|b| - 1];
      PongsAppend(a, b[..|b| - 1]);
    }
  }

  /** The loop only ever answers with pongs, never more of them than texts
      received. */
  lemma {:induction false} PongsOnly(received: seq<string>)
    ensures |Pongs(received)| <= |received|
    ensures forall i :: 0 <= i < |Pongs(received)| ==> Pongs(received)[i] == Pong
    decreases |received|
  {
    if received != [] {
      PongsOnly(received[..|received| - 1]);
    }
  }

  /** Each received text is answered alone: "ping" by one pong, anything else
      by nothing, so the answers never depend on earlier traffic. */
  lemma PongsOfOne(t: string)
    ensures Pongs([t]) == if t == "ping" then [Pong] else []
  {
    assert [t][..0] == [];
  }

  /** The whole endpoint for one socket `ws`: the decision, then for an
      admitted user the registration, the answers to the texts `received`
      until the client goes away, and the unregistration in `finally`. */
  method Serve(manager: Registry.ConnectionManager, c: Crypto, st: Settings, queryToken: string,
               first: Option<string>, now: real, known: int -> bool, ws: Registry.Conn, received: seq<string>)
    returns (outcome: Outcome, sent: seq<Frame>)
    modifies manager
    ensures outcome == Decide(c, st, queryToken, first, now, known)
    ensures outcome.Refused? ==> sent == [] && manager.connections == old(manager.connections)
    ensures outcome.Admitted? ==> sent == (if outcome.byMessage then [AuthOk] else []) + Pongs(received)
    ensures outcome.Admitted? ==>
              manager.connections
                == Registry.Unregistered(Registry.Registered(old(manager.connections), outcome.user, ws), outcome.user, ws)
  {
    outcome := Decide(c, st, queryToken, first, now, known);
    sent := [];
    if outcome.Refused? {
      return;
    }
    var uid := outcome.user;
    if outcome.byMessage {
      sent := [AuthOk];
    }
    manager.Connect(uid, ws);
    ghost var lead := sent;
    var i := 0;
    while i < |received|
      invariant 0 <= i <= |received|
      invariant sent == lead + Pongs(received[..i])
      invariant manager.connections == Registry.Registered(old(manager.connections), uid, ws)
    {
      assert received[..i + 1][..i] == received[..i];
      if received[i] == "ping" {
        sent := sent + [Pong];
      }
      i := i + 1;
    }
    assert received[..i] == received;
    manager.Disconnect(uid, ws);
  }
}
