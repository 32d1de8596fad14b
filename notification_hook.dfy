/** The web client's notification hook (`web/src/lib/useNotifications.ts`):
    it opens a WebSocket to the reminder channel, authenticates with a first
    message, turns reminders into a list of notifications shown newest
    first, and reconnects with exponential backoff after a close. */
module NotificationHook {
  import opened Wrappers
  import opened Text
  import opened JsonValue

  const InitialRetryDelay: int := 5000
  const MaxRetryDelay: int := 120000
  const MaxRetries: int := 10

  // ---------------------------------------------------------------- backoff

  function Pow2(n: nat): (r: nat)
    ensures r >= 1
  {
    if n == 0 then 1 else 2 * Pow2(n - 1)
  }

  lemma {:induction false} Pow2Monotone(a: nat, b: nat)
    requires a <= b
    ensures Pow2(a) <= Pow2(b)
    decreases b
  {
    if a < b {
      Pow2Monotone(a, b - 1);
    }
  }

  /** `Math.min(INITIAL_RETRY_DELAY * Math.pow(2, retry), MAX_RETRY_DELAY)`. */
  function Delay(retry: nat): (d: int)
    ensures InitialRetryDelay <= d <= MaxRetryDelay
  {
    if InitialRetryDelay * Pow2(retry) < MaxRetryDelay then InitialRetryDelay * Pow2(retry) else MaxRetryDelay
  }

  /** Waiting longer after more failures: the delay never decreases. */
  lemma DelayMonotone(a: nat, b: nat)
    requires a <= b
    ensures Delay(a) <= Delay(b)
  {
    Pow2Monotone(a, b);
  }

  /** Each further failure doubles the delay until the cap. */
  lemma DelayDoubles(retry: nat)
    ensures Delay(retry + 1) == if 2 * Delay(retry) < MaxRetryDelay then 2 * Delay(retry) else MaxRetryDelay
  {
    assert Pow2(retry + 1) == 2 * Pow2(retry);
  }

  /** The schedule the source's comment announces: 5 s, 10 s, 20 s, 40 s,
      80 s, then 120 s from the sixth failure on. */
  lemma DelaySchedule(retry: nat)
    ensures retry == 0 ==> Delay(retry) == 5000
    ensures retry == 4 ==> Delay(retry) == 80000
    ensures retry >= 5 ==> Delay(retry) == 120000
  {
    if retry >= 5 {
      Pow2Monotone(5, retry);
      assert Pow2(5) == 32;
    } else if retry == 4 {
      assert Pow2(4) == 16;
    }
  }

  // ---------------------------------------------------------------- messages

  /** The browser functions the hook calls: `JSON.parse` (`None` when it
      throws) and the text a template literal `${v}` makes of a property
      value (`None` is `undefined`). */
  datatype Browser = Browser(parse: string -> Option<Json>, render: Option<Json> -> string)

  /** `v[name]` on a non-null parsed value: `undefined` (`None`) unless `v`
      is an object with that key. */
  function Prop(v: Json, name: string): (r: Option<Json>)
    requires !v.JNull?
    ensures r.Some? <==> v.JObject? && name in v.fields
  {
    if v.JObject? && name in v.fields then Some(v.fields[name]) else None
  }

  /** What `onmessage` does with one text. */
  datatype Reaction =
    | Ignore                 // "pong", malformed or `null` JSON, or not yet authenticated
    | AuthAccepted           // `auth_ok`: authenticated, backoff reset
    | AuthRejected           // `auth_error`: the socket is closed
    | Accept(data: Json)     // a reminder becomes a notification

  function React(b: Browser, text: string, authenticated: bool): (r: Reaction)
    ensures r.Accept? ==> authenticated && b.parse(text) == Some(r.data)
  {
    if text == "pong" then Ignore
    else match b.parse(text)
      case None => Ignore
      case Some(v) =>
        // `null.type` throws, and the handler swallows the error
        if v.JNull? then Ignore
        else if Prop(v, "type") == Some(JStr("auth_ok")) then AuthAccepted
        else if Prop(v, "type") == Some(JStr("auth_error")) then AuthRejected
        else if !authenticated then Ignore
        else Accept(v)
  }

  /** A "pong" never reaches the list. */
  lemma PongIgnored(b: Browser, authenticated: bool)
    ensures React(b, "pong", authenticated) == Ignore
  {
  }

  /** Before `auth_ok` no message becomes a notification. */
  lemma NothingBeforeAuth(b: Browser, text: string)
    ensures !React(b, text, false).Accept?
  {
  }

  /** The control messages are recognised whatever the authentication state. */
  lemma ControlMessages(b: Browser, text: string, authenticated: bool, f: map<string, Json>)
    requires text != "pong" && b.parse(text) == Some(JObject(f)) && "type" in f
    ensures f["type"] == JStr("auth_ok") ==> React(b, text, authenticated) == AuthAccepted
    ensures f["type"] == JStr("auth_error") ==> React(b, text, authenticated) == AuthRejected
  {
  }

  datatype Notification = Notification(
    id: string,
    kind: Option<Json>,
    petId: Option<Json>,
    petName: Option<Json>,
    medicationName: Option<Json>,
    dosage: Option<Json>,
    scheduledTime: Option<Json>,
    timestamp: int)

  /** The id as the source writes it: type, pet, slot and `Date.now()`. */
  function IdAsWritten(b: Browser, v: Json, now: int): string
    requires !v.JNull?
  {
    b.render(Prop(v, "type")) + "-" + b.render(Prop(v, "pet_id")) + "-" + b.render(Prop(v, "scheduled_time"))
      + "-" + IntToString(now)
  }

  /** The backend sends one reminder per medication due in the slot, back to
      back: two medications of one pet at the same slot, received in the same
      millisecond, get the same id. */
  lemma SameSlotIdsCollide(b: Browser, now: int)
    ensures var first := JObject(map["type" := JStr("medication_reminder"), "pet_id" := JInt(3),
                                     "scheduled_time" := JStr("08:00"), "medication_name" := JStr("A")]);
            var second := JObject(map["type" := JStr("medication_reminder"), "pet_id" := JInt(3),
                                      "scheduled_time" := JStr("08:00"), "medication_name" := JStr("B")]);
            first != second && IdAsWritten(b, first, now) == IdAsWritten(b, second, now)
  {
    var first := JObject(map["type" := JStr("medication_reminder"), "pet_id" := JInt(3),
                             "scheduled_time" := JStr("08:00"), "medication_name" := JStr("A")]);
    var second := JObject(map["type" := JStr("medication_reminder"), "pet_id" := JInt(3),
                              "scheduled_time" := JStr("08:00"), "medication_name" := JStr("B")]);
    assert first.fields["medication_name"] != second.fields["medication_name"];
  }

  /** The id the model uses: the id as written, then the number of
      notifications the hook built before this one. */
  function NotificationId(b: Browser, v: Json, now: int, serial: nat): (id: string)
    requires !v.JNull?
    ensures SerialOf(id) == serial
  {
    var prefix := IdAsWritten(b, v, now);
    assert '-' !in NatToString(serial) by {
      forall i | 0 <= i < |NatToString(serial)| ensures NatToString(serial)[i] != '-' {
        assert IsDigit(NatToString(serial)[i]);
      }
    }
    LastFieldAfter(prefix, '-', NatToString(serial));
    NatToStringValue(serial);
    prefix + "-" + NatToString(serial)
  }

  /** The number that ends an id (0 when the last field is not a number). */
  function SerialOf(id: string): nat {
    if AllDigits(LastField(id, '-')) then DigitsValue(LastField(id, '-')) else 0
  }

  /** Notifications built with different serials have different ids, even
      for the same reminder in the same millisecond. */
  lemma IdsDiffer(b: Browser, v: Json, w: Json, now: int, later: int, m: nat, n: nat)
    requires !v.JNull? && !w.JNull? && m != n
    ensures NotificationId(b, v, now, m) != NotificationId(b, w, later, n)
  {
    assert SerialOf(NotificationId(b, v, now, m)) != SerialOf(NotificationId(b, w, later, n));
  }

  /** The notification built from an accepted reminder at time `now`. */
  function Build(b: Browser, v: Json, now: int, serial: nat): (n: Notification)
    requires !v.JNull?
    ensures SerialOf(n.id) == serial && n.timestamp == now
    ensures n.kind == Prop(v, "type") && n.petId == Prop(v, "pet_id") && n.scheduledTime == Prop(v, "scheduled_time")
  {
    Notification(NotificationId(b, v, now, serial), Prop(v, "type"), Prop(v, "pet_id"), Prop(v, "pet_name"),
                 Prop(v, "medication_name"), Prop(v, "dosage"), Prop(v, "scheduled_time"), now)
  }

  // ---------------------------------------------------------------- the list

  /** `prev.filter(n => n.id !== id)`. */
  function WithoutId(ns: seq<Notification>, id: string): (r: seq<Notification>)
    ensures forall n :: n in r <==> n in ns && n.id != id
    ensures |r| <= |ns|
    decreases |ns|
  {
    if ns == [] then []
    else WithoutId(ns[..|ns| - 1], id) + (if ns[|ns| - 1].id == id then [] else [ns[|ns| - 1]])
  }

  /** With the ids as written, dismissing one of two such notifications
      dismisses both. */
  lemma CollidingDismissRemovesBoth(first: Notification, second: Notification)
    requires first.id == second.id
    ensures WithoutId([second, first], first.id) == []
  {
    assert [second, first][..1] == [second];
    assert [second][..0] == [];
  }

  /** Newest first: serials strictly decrease along the list, so no two
      notifications share an id. */
  ghost predicate NewestFirst(ns: seq<Notification>) {
    forall i, j :: 0 <= i < j < |ns| ==> SerialOf(ns[i].id) > SerialOf(ns[j].id)
  }

  lemma DistinctIds(ns: seq<Notification>)
    requires NewestFirst(ns)
    ensures forall i, j :: 0 <= i < j < |ns| ==> ns[i].id != ns[j].id
  {
  }

  lemma {:induction false} WithoutIdKeepsOrder(ns: seq<Notification>, id: string)
    ensures NewestFirst(ns) ==> NewestFirst(WithoutId(ns, id))
    decreases |ns|
  {
    if ns != [] && NewestFirst(ns) {
      var pre, last := ns[..|ns| - 1], ns[|ns| - 1];
      assert NewestFirst(pre);
      WithoutIdKeepsOrder(pre, id);
      var r := WithoutId(pre, id);
      forall k | 0 <= k < |r| ensures SerialOf(r[k].id) > SerialOf(last.id) {
        assert r[k] in pre;
      }
    }
  }

  /** Dismissal works notification by notification. */
  lemma {:induction false} WithoutIdAppend(a: seq<Notification>, b: seq<Notification>, id: string)
    ensures WithoutId(a + b, id) == WithoutId(a, id) + WithoutId(b, id)
    decreases |b|
  {
    if b == [] {
      assert a + b == a;
    } else {
      assert (a + b)[..|a + b| - 1] == a + b[..|b| - 1];
      WithoutIdAppend(a, b[..|b| - 1], id);
    }
  }

  lemma {:induction false} WithoutIdAbsent(ns: seq<Notification>, id: string)
    requires forall m :: m in ns ==> m.id != id
    ensures WithoutId(ns, id) == ns
    decreases |ns|
  {
    if ns != [] {
      assert ns[|ns| - 1] in ns;
      WithoutIdAbsent(ns[..|ns| - 1], id);
      assert ns[..|ns| - 1] + [ns[|ns| - 1]] == ns;
    }
  }

  /** With distinct ids, dismissing removes exactly the one notification
      with that id and keeps the others in order. */
  lemma DismissOne(pre: seq<Notification>, n: Notification, post: seq<Notification>)
    requires forall m :: m in pre + post ==> m.id != n.id
    ensures WithoutId(pre + [n] + post, n.id) == pre + post
  {
    assert WithoutId(pre, n.id) == pre by {
      forall m | m in pre ensures m.id != n.id {
        assert m in pre + post;
      }
      WithoutIdAbsent(pre, n.id);
    }
    assert WithoutId(post, n.id) == post by {
      forall m | m in post ensures m.id != n.id {
        assert m in pre + post;
      }
      WithoutIdAbsent(post, n.id);
    }
    assert WithoutId([n], n.id) == [] by {
      assert [n][..0] == [];
    }
    assert WithoutId(pre + [n], n.id) == pre by {
      WithoutIdAppend(pre, [n], n.id);
    }
    WithoutIdAppend(pre + [n], post, n.id);
  }

  // ---------------------------------------------------------------- sockets

  /** One `new WebSocket(...)`: the token `connect` read, whether `onopen`
      fired, the closure's `authenticated` flag, whether `close()` was
      called, and whether `onclose` fired. */
  datatype Socket = Socket(token: string, openFired: bool, authenticated: bool, closeCalled: bool, closeFired: bool)

  datatype Frame = AuthFrame(token: string) | PingFrame

  /** The frames sent on socket `s`, in order, out of all frames sent. */
  function FramesOf(outbox: seq<(nat, Frame)>, s: nat): seq<Frame>
    decreases |outbox|
  {
    if outbox == [] then []
    else FramesOf(outbox[..|outbox| - 1], s) + (if outbox[|outbox| - 1].0 == s then [outbox[|outbox| - 1].1] else [])
  }

  lemma FramesOfSnoc(outbox: seq<(nat, Frame)>, x: (nat, Frame), s: nat)
    ensures FramesOf(outbox + [x], s) == FramesOf(outbox, s) + (if x.0 == s then [x.1] else [])
  {
    assert (outbox + [x])[..|outbox|] == outbox;
  }

  /** Every opened socket sent its auth frame, with the token it was opened
      with, before anything else; the others sent nothing. */
  ghost predicate AuthFirst(sockets: seq<Socket>, outbox: seq<(nat, Frame)>) {
    && (forall s :: 0 <= s < |sockets| && sockets[s].openFired ==>
          FramesOf(outbox, s) != [] && FramesOf(outbox, s)[0] == AuthFrame(sockets[s].token))
    && (forall s :: 0 <= s < |sockets| && !sockets[s].openFired ==> FramesOf(outbox, s) == [])
    && (forall s: nat :: s >= |sockets| ==> FramesOf(outbox, s) == [])
  }

  /** Flags other than `openFired` do not matter to `AuthFirst`. */
  lemma AuthFirstFlags(sockets: seq<Socket>, s: nat, t: Socket, outbox: seq<(nat, Frame)>)
    requires AuthFirst(sockets, outbox) && s < |sockets|
    requires t.token == sockets[s].token && t.openFired == sockets[s].openFired
    ensures AuthFirst(sockets[s := t], outbox)
  {
  }

  /** A new socket has sent nothing yet. */
  lemma AuthFirstNewSocket(sockets: seq<Socket>, token: string, outbox: seq<(nat, Frame)>)
    requires AuthFirst(sockets, outbox)
    ensures AuthFirst(sockets + [Socket(token, false, false, false, false)], outbox)
  {
    var r := sockets + [Socket(token, false, false, false, false)];
    forall s | 0 <= s < |r| && !r[s].openFired ensures FramesOf(outbox, s) == [] {
      if s < |sockets| {
        assert r[s] == sockets[s];
      }
    }
  }

  /** The page's use of the hook: `enabled` is its argument, the other
      fields are its refs and state. `reconnects` maps each reconnect timer
      still pending (numbered in the order they were set) to its delay, and
      `dismissTimers` holds the ids awaiting their 15 s auto-dismiss, oldest
      first. */
  class Hook {
    const enabled: bool
    var mounted: bool
    var retryCount: nat
    var sockets: seq<Socket>
    var current: Option<nat>
    var outbox: seq<(nat, Frame)>
    var notifications: seq<Notification>
    var serial: nat
    var reconnects: map<nat, int>
    var timersSet: nat
    var dismissTimers: seq<string>

    /** The first frame of every opened socket is the auth frame with its
        token; the backoff counter stays within its limit; the list is
        newest first with serials below the counter. */
    ghost predicate Valid()
      reads this
    {
      && (current.Some? ==> current.value < |sockets|)
      && retryCount <= MaxRetries
      && AuthFirst(sockets, outbox)
      && NewestFirst(notifications)
      && (forall i :: 0 <= i < |notifications| ==> SerialOf(notifications[i].id) < serial)
      && (forall t :: t in reconnects ==> t < timersSet)
    }

    /** The hook before its effect first runs. */
    constructor (enabled: bool)
      ensures Valid() && this.enabled == enabled && !mounted && retryCount == 0
      ensures sockets == [] && current == None && outbox == [] && notifications == []
      ensures reconnects == map[] && dismissTimers == []
    {
      this.enabled := enabled;
      mounted := false;
      retryCount := 0;
      sockets := [];
      current := None;
      outbox := [];
      notifications := [];
      serial := 0;
      reconnects := map[];
      timersSet := 0;
      dismissTimers := [];
    }

    /** The guard at the top of `connect`. */
    predicate MayConnect(token: Option<string>)
      reads this
    {
      token.Some? && token.value != "" && enabled && mounted && retryCount < MaxRetries
    }

    /** `connect()`, with `token` what `tokenStorage.get()` returned. */
    method Connect(token: Option<string>)
      requires Valid()
      modifies this
      ensures Valid()
      ensures !old(MayConnect(token)) ==> sockets == old(sockets) && current == old(current)
      ensures old(MayConnect(token)) ==>
                && |sockets| == old(|sockets|) + 1
                && sockets[old(|sockets|)] == Socket(token.value, false, false, false, false)
                && current == Some(old(|sockets|))
                && (old(current).Some? ==> sockets[old(current).value].closeCalled)
                && forall s :: 0 <= s < old(|sockets|) && old(current) != Some(s) ==> sockets[s] == old(sockets)[s]
      ensures outbox == old(outbox) && notifications == old(notifications) && retryCount == old(retryCount)
      ensures mounted == old(mounted) && reconnects == old(reconnects) && dismissTimers == old(dismissTimers)
      ensures serial == old(serial) && timersSet == old(timersSet)
    {
      if token.None? || token.value == "" || !enabled || !mounted {
        return;
      }
      if retryCount >= MaxRetries {
        return;
      }
      if current.Some? {
        var s := current.value;
        SetFlags(s, sockets[s].(closeCalled := true));
        current := None;
      }
      AuthFirstNewSocket(sockets, token.value, outbox);
      sockets := sockets + [Socket(token.value, false, false, false, false)];
      current := Some(|sockets| - 1);
    }

    /** The effect: `mountedRef.current = true`, `retryCount.current = 0`,
        then `connect()`. */
    method Mount(token: Option<string>)
      requires Valid()
      modifies this
      ensures Valid() && mounted && retryCount == 0
      ensures !(token.Some? && token.value != "" && enabled) ==> sockets == old(sockets) && current == old(current)
      ensures (token.Some? && token.value != "" && enabled) ==>
                && |sockets| == old(|sockets|) + 1
                && sockets[old(|sockets|)] == Socket(token.value, false, false, false, false)
                && current == Some(old(|sockets|))
                && (old(current).Some? ==> sockets[old(current).value].closeCalled)
                && forall s :: 0 <= s < old(|sockets|) && old(current) != Some(s) ==> sockets[s] == old(sockets)[s]
      ensures outbox == old(outbox) && notifications == old(notifications) && reconnects == old(reconnects)
      ensures dismissTimers == old(dismissTimers) && serial == old(serial) && timersSet == old(timersSet)
    {
      mounted := true;
      retryCount := 0;
      Connect(token);
    }

    /** `ws.onopen` of socket `s`: the auth frame goes out first. */
    method OnOpen(s: nat)
      requires Valid() && s < |sockets| && !sockets[s].openFired
      modifies this
      ensures Valid()
      ensures outbox == old(outbox) + [(s, AuthFrame(old(sockets)[s].token))]
      ensures sockets == old(sockets)[s := old(sockets)[s].(openFired := true)]
      ensures FramesOf(outbox, s) == [AuthFrame(sockets[s].token)]
      ensures current == old(current) && notifications == old(notifications) && retryCount == old(retryCount)
      ensures mounted == old(mounted) && reconnects == old(reconnects) && dismissTimers == old(dismissTimers)
      ensures serial == old(serial) && timersSet == old(timersSet)
    {
      var x := (s, AuthFrame(sockets[s].token));
      forall t: nat ensures FramesOf(outbox + [x], t) == FramesOf(outbox, t) + (if t == s then [x.1] else []) {
        FramesOfSnoc(outbox, x, t);
      }
      outbox := outbox + [x];
      sockets := sockets[s := sockets[s].(openFired := true)];
    }

    /** One tick of the 30 s keep-alive interval that `onopen` of `s` set:
        "ping" goes out while the socket is open. */
    method PingTick(s: nat)
      requires Valid() && s < |sockets| && sockets[s].openFired
      modifies this
      ensures Valid()
      ensures sockets == old(sockets) && current == old(current) && notifications == old(notifications)
      ensures outbox == old(outbox) + (if sockets[s].closeCalled || sockets[s].closeFired then [] else [(s, PingFrame)])
      ensures FramesOf(outbox, s) != [] && FramesOf(outbox, s)[0] == AuthFrame(sockets[s].token)
      ensures retryCount == old(retryCount) && mounted == old(mounted) && reconnects == old(reconnects)
      ensures dismissTimers == old(dismissTimers) && serial == old(serial) && timersSet == old(timersSet)
    {
      if !sockets[s].closeCalled && !sockets[s].closeFired {
        var x := (s, PingFrame);
        forall t: nat ensures FramesOf(outbox + [x], t) == FramesOf(outbox, t) + (if t == s then [x.1] else []) {
          FramesOfSnoc(outbox, x, t);
        }
        outbox := outbox + [x];
      }
    }

    /** Changes the flags of socket `s` other than its token and `openFired`. */
    method SetFlags(s: nat, t: Socket)
      requires Valid() && s < |sockets|
      requires t.token == sockets[s].token && t.openFired == sockets[s].openFired
      modifies this
      ensures Valid() && sockets == old(sockets)[s := t]
      ensures outbox == old(outbox) && current == old(current) && notifications == old(notifications)
      ensures retryCount == old(retryCount) && mounted == old(mounted) && reconnects == old(reconnects)
      ensures dismissTimers == old(dismissTimers) && serial == old(serial) && timersSet == old(timersSet)
    {
      AuthFirstFlags(sockets, s, t, outbox);
      sockets := sockets[s := t];
    }

    /** `setNotifications(prev => [notif, ...prev])` and the auto-dismiss
        timer of `notif`. */
    method Push(n: Notification)
      requires Valid() && SerialOf(n.id) == serial
      modifies this
      ensures Valid()
      ensures notifications == [n] + old(notifications) && serial == old(serial) + 1
      ensures dismissTimers == old(dismissTimers) + [n.id]
      ensures sockets == old(sockets) && outbox == old(outbox) && current == old(current)
      ensures retryCount == old(retryCount) && mounted == old(mounted) && reconnects == old(reconnects)
      ensures timersSet == old(timersSet)
    {
      notifications := [n] + notifications;
      serial := serial + 1;
      dismissTimers := dismissTimers + [n.id];
    }

    /** `ws.onmessage` of socket `s` with text `text` at time `now`. */
    method OnMessage(b: Browser, s: nat, text: string, now: int)
      requires Valid() && s < |sockets|
      modifies this
      ensures Valid()
      ensures var r := React(b, text, old(sockets)[s].authenticated);
              && (r.AuthAccepted? ==> sockets == old(sockets)[s := old(sockets)[s].(authenticated := true)] && retryCount == 0)
              && (r.AuthRejected? ==> sockets == old(sockets)[s := old(sockets)[s].(closeCalled := true)] && retryCount == old(retryCount))
              && (r.Accept? ==> sockets == old(sockets) && retryCount == old(retryCount)
                                && notifications == [Build(b, r.data, now, old(serial))] + old(notifications)
                                && dismissTimers == old(dismissTimers) + [notifications[0].id])
              && (!r.Accept? ==> notifications == old(notifications) && dismissTimers == old(dismissTimers))
              && (r.Ignore? ==> sockets == old(sockets) && retryCount == old(retryCount))
      ensures outbox == old(outbox) && current == old(current) && mounted == old(mounted)
      ensures reconnects == old(reconnects) && timersSet == old(timersSet)
    {
      var r := React(b, text, sockets[s].authenticated);
      match r
      case Ignore =>
      case AuthAccepted =>
        SetFlags(s, sockets[s].(authenticated := true));
        retryCount := 0;
      case AuthRejected =>
        SetFlags(s, sockets[s].(closeCalled := true));
      case Accept(v) =>
        Push(Build(b, v, now, serial));
    }

    /** `ws.onerror`: close the socket and let `onclose` decide. */
    method OnError(s: nat)
      requires Valid() && s < |sockets|
      modifies this
      ensures Valid()
      ensures sockets == old(sockets)[s := old(sockets)[s].(closeCalled := true)]
      ensures outbox == old(outbox) && current == old(current) && notifications == old(notifications)
      ensures retryCount == old(retryCount) && mounted == old(mounted) && reconnects == old(reconnects)
      ensures dismissTimers == old(dismissTimers) && serial == old(serial) && timersSet == old(timersSet)
    {
      SetFlags(s, sockets[s].(closeCalled := true));
    }

    /** `ws.onclose` of socket `s`: while mounted and under the limit, one
        reconnect is scheduled after `Delay(retryCount)` and the counter
        goes up by one; otherwise nothing is scheduled. */
    method OnClose(s: nat)
      requires Valid() && s < |sockets|
      modifies this
      ensures Valid()
      ensures sockets == old(sockets)[s := old(sockets)[s].(closeFired := true)]
      ensures (old(mounted) && old(retryCount) < MaxRetries) ==>
                && retryCount == old(retryCount) + 1
                && timersSet == old(timersSet) + 1
                && reconnects == old(reconnects)[old(timersSet) := Delay(old(retryCount))]
      ensures !(old(mounted) && old(retryCount) < MaxRetries) ==>
                retryCount == old(retryCount) && timersSet == old(timersSet) && reconnects == old(reconnects)
      ensures outbox == old(outbox) && current == old(current) && notifications == old(notifications)
      ensures mounted == old(mounted) && dismissTimers == old(dismissTimers) && serial == old(serial)
    {
      SetFlags(s, sockets[s].(closeFired := true));
      if !mounted {
        return;
      }
      if retryCount >= MaxRetries {
        return;
      }
      var delay := Delay(retryCount);
      retryCount := retryCount + 1;
      reconnects := reconnects[timersSet := delay];
      timersSet := timersSet + 1;
    }

    /** Reconnect timer `t` fires and calls `connect()`. */
    method ReconnectFires(t: nat, token: Option<string>)
      requires Valid() && t in reconnects
      modifies this
      ensures Valid()
      ensures reconnects == old(reconnects) - {t}
      ensures !old(MayConnect(token)) ==> sockets == old(sockets) && current == old(current)
      ensures old(MayConnect(token)) ==>
                && |sockets| == old(|sockets|) + 1
                && sockets[old(|sockets|)] == Socket(token.value, false, false, false, false)
                && current == Some(old(|sockets|))
                && (old(current).Some? ==> sockets[old(current).value].closeCalled)
                && forall s :: 0 <= s < old(|sockets|) && old(current) != Some(s) ==> sockets[s] == old(sockets)[s]
      ensures retryCount == old(retryCount) && outbox == old(outbox) && notifications == old(notifications)
      ensures mounted == old(mounted) && dismissTimers == old(dismissTimers)
      ensures serial == old(serial) && timersSet == old(timersSet)
    {
      reconnects := reconnects - {t};
      Connect(token);
    }

    /** `dismiss(id)`. */
    method Dismiss(id: string)
      requires Valid()
      modifies this
      ensures Valid()
      ensures notifications == WithoutId(old(notifications), id)
      ensures sockets == old(sockets) && outbox == old(outbox) && current == old(current)
      ensures retryCount == old(retryCount) && mounted == old(mounted) && reconnects == old(reconnects)
      ensures dismissTimers == old(dismissTimers) && serial == old(serial) && timersSet == old(timersSet)
    {
      WithoutIdKeepsOrder(notifications, id);
      notifications := WithoutId(notifications, id);
    }

    /** The oldest auto-dismiss timer fires (they all run 15 s, so they fire
        in the order they were set). */
    method DismissTimerFires()
      requires Valid() && dismissTimers != []
      modifies this
      ensures Valid()
      ensures notifications == WithoutId(old(notifications), old(dismissTimers)[0])
      ensures dismissTimers == old(dismissTimers)[1..]
      ensures sockets == old(sockets) && outbox == old(outbox) && current == old(current)
      ensures retryCount == old(retryCount) && mounted == old(mounted) && reconnects == old(reconnects)
      ensures serial == old(serial) && timersSet == old(timersSet)
    {
      var id := dismissTimers[0];
      dismissTimers := dismissTimers[1..];
      Dismiss(id);
    }

    /** The effect's cleanup: unmounted, the latest reconnect timer and every
        auto-dismiss timer cleared, the current socket closed and forgotten. */
    method Unmount()
      requires Valid()
      modifies this
      ensures Valid()
      ensures !mounted && current == None && dismissTimers == []
      ensures reconnects == if old(timersSet) > 0 then old(reconnects) - {old(timersSet) - 1} else old(reconnects)
      ensures old(current).Some? ==> sockets == old(sockets)[old(current).value := old(sockets)[old(current).value].(closeCalled := true)]
      ensures old(current).None? ==> sockets == old(sockets)
      ensures outbox == old(outbox) && notifications == old(notifications) && retryCount == old(retryCount)
      ensures serial == old(serial) && timersSet == old(timersSet)
    {
      mounted := false;
      if timersSet > 0 {
        reconnects := reconnects - {timersSet - 1};
      }
      dismissTimers := [];
      if current.Some? {
        var s := current.value;
        SetFlags(s, sockets[s].(closeCalled := true));
        current := None;
      }
    }
  }

  /** Once unmounted, closes schedule nothing, and every reconnect timer
      that still fires finds `connect` refusing. */
  lemma UnmountedStaysQuiet(h: Hook, token: Option<string>)
    requires !h.mounted
    ensures !h.MayConnect(token)
  {
  }
}
