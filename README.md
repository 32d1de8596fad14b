# PWellTrack core, modelled in Dafny

PWellTrack is a pet-care tracker: a FastAPI backend, a Next.js/Vue web client
and a React Native app. Its backend pushes medication and feeding
reminders to connected users over a WebSocket and issues hand-rolled
HS256 tokens. Its clients cache responses offline, keep a bearer token,
show toasts and badges, and guard their routes. This project models those
parts and proves what they promise.

The model follows the program's own structure, one module per file:

- `registry.dfy` (`Registry`) is the `ConnectionManager`, a class whose
  map from users to connection sets the methods update. Beside it are the
  functions that state each update and lemmas about repeated pruning.
- `dedup.dfy` (`Dedup`) is the `_sent_today` ledger. It is a class over
  a map from UTC day to key set, with `_mark_sent` as a method and
  `_was_sent` as a function. The ledger key is proved injective.
- `due_window.dfy` (`DueWindow`) is `_is_time_due`. It includes Python's `int()` on the
  `"HH:MM"` halves, and a lemma that a rendered clock parses back.
- `scanner.dfy` (`Scanner`) is the scan `_check_reminders` /
  `_check_medications` / `_check_feeding`. The scan is a set of methods with loops
  over users, pets, medications and slots. They mutate the registry and
  the ledger, and are proved against a functional description (`ScanDue`,
  `Emit`, `Scan`).
- `scan_properties.dfy` (`ScanProperties`) proves what the scan promises:
  - exactly which reminders are due;
  - soundness and completeness of one scan;
  - at-most-once delivery per user, kind, subject, slot and UTC day, over
    any number of scans whose UTC days do not go backwards.
- `handshake.dfy` (`Handshake`) covers `websocket_notifications`: the
  decision between the query-token and first-message handshakes, and the
  session. Every refusal closes with code 4001, in the private-use range
  4000-4999 of section 7.4.2 of RFC 6455. An admitted socket is registered,
  answers "ping" with "pong" and is unregistered at the end.
- `base64url.dfy` (`Base64Url`) holds `_b64url_encode` / `_b64url_decode`
  over Python's `urlsafe_b64encode` / `urlsafe_b64decode`:
  - the alphabet of section 5 of RFC 4648, with padding stripped as
    section 2 of RFC 7515 specifies;
  - the decoder is the lenient (non-validating) state machine of CPython's
    `binascii`;
  - the round trip is proved for every byte string.
- `security.dfy` (`Security`) covers the rest of `security.py`:
  - the `salt$hex` password hash and its check;
  - the JWS compact serialisation `h.p.s` of section 7.1 of RFC 7515, with
    HS256 from section 3.2 of RFC 7518;
  - the `exp` check of section 4.1.4 of RFC 7519, which this code applies as
    `now > exp`;
  - the reject conditions of `get_current_user`.

  HMAC-SHA256, PBKDF2 and the JSON library are fields of a `Crypto`
  parameter. One property of them is assumed, as a hypothesis of three
  lemmas only: `json.loads` reads back the compact text `json.dumps`
  wrote for the token payload. `Security.DecodeCreated`,
  `Security.CurrentUserOfCreated` and `Handshake.FreshQueryTokenAdmitted`
  take it as a `requires`; nothing else assumes anything about them.
- `offline_cache.dfy` (`OfflineCache`) is the AsyncStorage-backed TTL cache
  and `fetchWithCache`. It is a class over the store map.
- `notification_hook.dfy` (`NotificationHook`) is the `useNotifications`
  hook, a class for its refs and state:
  - the connect guards and the exponential backoff;
  - the `onmessage` dispatch and the auth frame sent first;
  - the notification list and its auto-dismiss timers;
  - the unmount cleanup.
- `api_client.dfy` (`ApiClient`) covers `api.ts`:
  - `tokenStorage` (a class over `_token` and `localStorage`);
  - the `Authorization` header choice in `request`;
  - `buildListPath`, with the `application/x-www-form-urlencoded`
    serialiser of section 5.2 of the WHATWG URL standard and the parser of
    section 5.1 to read it back.
- `toast_store.dfy` (`ToastStore`) is the toast store: a class with the
  module counter, the list and the 3.5 s expiry timers.
- `photos.dfy` (`Photos`) covers `photos.ts`:
  - `resolvePhotoUrl`;
  - the dimension capping of `compressImage`, a method with the source's
    branch reassignments and `Math.round` written out;
  - the `.jpg` rename, against a declarative reading of `/\.\w+$/`.
- `pet_status.dfy` (`PetStatus`) holds the feeding and vaccine badges of the
  pet list.
- `router.dfy` (`Router`) holds the route table, `meta.guest`, the `/`
  redirect and the `beforeEach` guard. Route matching follows the router's
  defaults: case-insensitive, one optional trailing slash, `:petId` one
  non-empty segment.
- `wrappers.dfy`, `json.dfy` and `text.dfy` are shared:
  - `Option` and `Result`;
  - a JSON value type;
  - Python's `str.split`, `str.split(sep, 1)` and `int()`;
  - `str()` of integers, `bytes.hex()` and UTF-8.

The database, zone lookups and clocks are parameters. The scan reads a
`World`: users' zone names, the zones that resolve with their local
`"HH:MM"` and date, the UTC clock, pets, medications, and the pets fed in
today's UTC window. A connection whose send raises is one in a `broken`
set. The order in which a Python set is iterated is chosen inside the
method and returned as a ghost `visited` sequence.

## Model

| member | source | states |
|---|---|---|
| Registry.ConnectionManager.constructor | backend/app/routers/notifications.py:30-31 | the registry starts empty |
| Registry.ConnectionManager.Connect | backend/app/routers/notifications.py:33-35 | the new map is `Registered(old, u, ws)`: `ws` joins the user's set, which is created when absent |
| Registry.Registered | backend/app/routers/notifications.py:35 | the user gains an entry containing `ws` and keeping every old connection; other users are untouched |
| Registry.ConnectionManager.Disconnect | backend/app/routers/notifications.py:37-41 | the new map is `Unregistered(old, u, ws)` |
| Registry.Unregistered | backend/app/routers/notifications.py:37-41 | an unknown user changes nothing; only `ws` is discarded; the user's key is deleted exactly when the set becomes empty; other users are untouched |
| Registry.ConnectionManager.SendToUser | backend/app/routers/notifications.py:43-53 | the map becomes `Pruned(old, u, broken)` and the message reaches exactly the user's connections that do not fail; an absent user changes nothing |
| Registry.Pruned | backend/app/routers/notifications.py:44-53 | the keys never change; the user's set loses exactly its failing connections; other users are untouched |
| Registry.PrunedSeq | backend/app/routers/notifications.py:43-53 | a run of `send_to_user` calls, one user after another; `PrunedSeqIsPrunedAll` shows the order and repeats do not matter |
| Registry.ConnectionManager.ConnectedUsers | backend/app/routers/notifications.py:55-57 | `connected_users`: the users that have an entry, including one whose set has become empty |
| Registry.PrunedTwice | backend/app/routers/notifications.py:43-53 | a second send with the same failing connections prunes nothing more |
| Registry.PrunedAll | backend/app/routers/notifications.py:43-53 | pruning a set of users at once: each listed user loses its failing connections, the keys stay |
| Registry.PrunedAllStep | backend/app/routers/notifications.py:43-53 | one more send extends the pruned set of users by that user |
| Registry.PrunedSeqAppend | backend/app/routers/notifications.py:43-53 | two runs of sends compose |
| Registry.PrunedSeqIsPrunedAll | backend/app/routers/notifications.py:43-53 | any run of sends, in any order and with repeats, prunes exactly the users it sent to |
| Registry.PrunedAllUnion | backend/app/routers/notifications.py:43-53 | pruning twice is pruning once for the union of the users |
| Registry.ConnectThenDisconnect | backend/app/routers/notifications.py:33-41 | a session's connect then disconnect restores the registry, deleting a key that it created |
| Registry.PruneKeepsEmptyEntry | backend/app/routers/notifications.py:40-53 | after the last connection of a user fails, `send_to_user` keeps the user with an empty set, while `disconnect` deletes the key |
| Dedup.KindName | backend/app/routers/notifications.py:216-242 | the `notif_type` texts contain no ':' |
| Dedup.KindNameInjective | backend/app/routers/notifications.py:216-242 | "medication" and "feeding" are different texts |
| Dedup.KeySplits | backend/app/routers/notifications.py:77 | the ledger key splits at ':' into user, type, ref and the slot's own pieces |
| Dedup.NotificationKey | backend/app/routers/notifications.py:77 | the ledger key `f"{user_id}:{notif_type}:{ref_id}:{time_slot}"`; `KeySplits` and `NotificationKeyInjective` show it determines the reminder |
| Dedup.NotificationKeyInjective | backend/app/routers/notifications.py:77-82 | distinct (user, type, ref, slot) tuples give distinct keys, even for slots containing ':' |
| Dedup.Marked | backend/app/routers/notifications.py:72-77 | after a mark, today has a bucket |
| Dedup.WasSentIn | backend/app/routers/notifications.py:80-82 | `_was_sent` on a ledger value: the current day has a bucket and the key is in it |
| Dedup.MarkedSameDay | backend/app/routers/notifications.py:72-82 | after marking `key` on day d, the keys sent on d are the earlier ones plus `key` |
| Dedup.MarkedNewDayDiscards | backend/app/routers/notifications.py:74-77 | a mark on a day without a bucket discards every earlier-day key |
| Dedup.MarkedOtherDay | backend/app/routers/notifications.py:68-82 | after a mark on d the ledger holds day d alone, so nothing reads as sent on any other day |
| Dedup.SentLedger.constructor | backend/app/routers/notifications.py:65 | the ledger starts empty |
| Dedup.SentLedger.MarkSent | backend/app/routers/notifications.py:72-77 | the ledger becomes `Marked(old, today, key)`, keeps its one-day shape, and the reminder then reads as sent |
| Dedup.SentLedger.WasSent | backend/app/routers/notifications.py:80-82 | `_was_sent` on the ledger object: its key is in the bucket of day `today` |
| DueWindow.Pad2 | backend/app/routers/notifications.py:190 | two-digit rendering of a clock field: two characters, all digits |
| DueWindow.ParseClock | backend/app/routers/notifications.py:160-161 | `map(int, s.split(":"))` as minutes since midnight: a value only for exactly two parts that `int()` accepts, fields not range-checked, and no value where Python raises |
| DueWindow.IsTimeDue | backend/app/routers/notifications.py:157-165 | `_is_time_due`: due when both readings parse and the current minute is 0 to 5 minutes after the slot; a due pair always parses, and any exception gives false |
| DueWindow.Pad2Value | backend/app/routers/notifications.py:190 | the rendered digits have the value rendered |
| DueWindow.ParsePad2 | backend/app/routers/notifications.py:160-161 | Python's `int()` reads a rendered field back |
| DueWindow.SplitClock | backend/app/routers/notifications.py:160-190 | a rendered `"HH:MM"` splits at ':' into its two fields |
| DueWindow.ParseFormatClock | backend/app/routers/notifications.py:160-190 | a rendered clock parses back to its minute of the day |
| DueWindow.DueIffWithinWindow | backend/app/routers/notifications.py:157-163 | on well-formed readings a slot is due exactly when the current minute is between the slot and five minutes after it, both ends included |
| DueWindow.MalformedNeverDue | backend/app/routers/notifications.py:159-165 | a reading that does not split into exactly two parts is never due |
| DueWindow.DueWindowExamples | backend/app/routers/notifications.py:157-165 | 08:00 and 08:05 are due for 08:00; 08:06 and 07:59 are not; 00:02 is not due for 23:59 (no wrap past midnight) |
| DueWindow.SlotSpaceExamples | backend/app/routers/notifications.py:157-165 | a slot led by the separator U+001C is never due, because `int()` raises; a slot led by a no-break space is due at its time |
| DueWindow.SeparatorSlot | backend/app/routers/notifications.py:160-161 | "\x1c08:00" does not parse: `int()` refuses the U+001C |
| DueWindow.NoBreakSlot | backend/app/routers/notifications.py:160-161 | "\u00a008:00" parses to 08:00: `int()` strips the no-break space |
| DueWindow.EightOClock | backend/app/routers/notifications.py:160-161 | "08:00" parses to minute 480 |
| Scanner.ClockOf | backend/app/routers/notifications.py:184-191 | a zone name that does not resolve falls back to the UTC clock |
| Scanner.PetsOf | backend/app/routers/notifications.py:193-196 | the pet query in table order; `PetsOfMembers` shows it returns exactly the user's pets |
| Scanner.IsActive | backend/app/routers/notifications.py:205-210 | a medication is active on a date when it started on or before it and has no end date or ends on or after it |
| Scanner.ActiveMedications | backend/app/routers/notifications.py:203-211 | the medication query in table order; `ActiveMedicationsMembers` shows it returns exactly the pet's active medications |
| Scanner.PetDue | backend/app/routers/notifications.py:198-200 | one pet's candidates: due slots of its active medications first, then its due meal slots unless it was fed today |
| Scanner.UserDue | backend/app/routers/notifications.py:179-200 | one user's candidates: none without a user record, else those of the user's pets on the zone's clock; `UserDueIff` characterises them |
| Scanner.ScanDue | backend/app/routers/notifications.py:168-200 | every candidate of a scan, users in the order visited; `ScanDueIff` characterises them |
| Scanner.PetsOfMembers | backend/app/routers/notifications.py:193-196 | the pet query returns exactly the user's pets |
| Scanner.ActiveMedicationsMembers | backend/app/routers/notifications.py:205-211 | the medication query returns exactly the pet's medications started on or before the local date and not ended before it |
| Scanner.MedicationSlotsMembers | backend/app/routers/notifications.py:213-216 | a medication's candidates are exactly its due slots |
| Scanner.MedicationsDueMembers | backend/app/routers/notifications.py:212-224 | a pet's medication candidates are the due slots of its listed medications |
| Scanner.FeedingSlotsDueMembers | backend/app/routers/notifications.py:241-248 | the feeding candidates are exactly the due meal slots |
| Scanner.PetsDueMembers | backend/app/routers/notifications.py:198-200 | a user's candidates are those of the user's pets |
| Scanner.ScanDueMembers | backend/app/routers/notifications.py:179-200 | the scan's candidates are those of the connected users visited |
| Scanner.EmitOne | backend/app/routers/notifications.py:216-225 | the protocol for one candidate: skipped when its key is in today's bucket, else sent (pruning the user's failing connections) and marked |
| Scanner.Emit | backend/app/routers/notifications.py:212-249 | the protocol over a list of candidates, in order |
| Scanner.Scan | backend/app/routers/notifications.py:168-249 | one whole scan: the protocol over `ScanDue`, on the scan's UTC day; `ScanSound` and `ScanComplete` state what it sends |
| Scanner.EmitAppend | backend/app/routers/notifications.py:216-249 | the send-and-mark protocol over two runs of candidates composes |
| Scanner.EmitShift | backend/app/routers/notifications.py:216-225 | what was sent earlier does not change what is sent next |
| Scanner.EmitOneMarks | backend/app/routers/notifications.py:216-225 | one step keeps today's keys, adds the candidate's key and adds no other |
| Scanner.EmitGrows | backend/app/routers/notifications.py:216-249 | today's bucket only grows during a scan |
| Scanner.EmitMarksDue | backend/app/routers/notifications.py:216-249 | afterwards every candidate's key is in today's bucket |
| Scanner.EmitNewKeysSent | backend/app/routers/notifications.py:216-249 | a key new in today's bucket belongs to a reminder that was sent |
| Scanner.EmitSentDueAndFresh | backend/app/routers/notifications.py:216-242 | everything sent was a candidate whose key was not yet in today's bucket |
| Scanner.EmitSentMarked | backend/app/routers/notifications.py:225-249 | everything sent is marked afterwards |
| Scanner.EmitSentDistinct | backend/app/routers/notifications.py:216-249 | one run never sends two reminders with the same key |
| Scanner.EmitKeepsOneDay | backend/app/routers/notifications.py:72-77 | the protocol keeps the ledger's one-day shape |
| Scanner.EmitPrunes | backend/app/routers/notifications.py:217-243 | the registry afterwards is the registry after one `send_to_user` per sent reminder, in order |
| Scanner.SendAndMark | backend/app/routers/notifications.py:216-225 | the reminder is delivered exactly when its key was not in today's bucket; the ledger and registry then agree with one protocol step |
| Scanner.SendMedicationSlots | backend/app/routers/notifications.py:215-225 | the slot loop leaves the sent messages, ledger and registry that the protocol over the due slots gives |
| Scanner.CheckMedications | backend/app/routers/notifications.py:203-225 | `_check_medications` agrees with the protocol over `MedicationsDue` of the active medications; null or empty slot lists send nothing |
| Scanner.SendFeedingSlots | backend/app/routers/notifications.py:241-249 | the meal-slot loop agrees with the protocol over the due meal slots |
| Scanner.CheckFeeding | backend/app/routers/notifications.py:228-249 | `_check_feeding` sends nothing for a pet fed today, else agrees with the protocol over the due meal slots |
| Scanner.CheckPet | backend/app/routers/notifications.py:198-200 | medications first, then feeding, for one pet |
| Scanner.CheckUser | backend/app/routers/notifications.py:181-200 | an unknown user is skipped; otherwise the user's pets are checked on the zone's clock |
| Scanner.CheckReminders | backend/app/routers/notifications.py:168-200 | every connected user is visited once, in some order; the messages sent, the ledger and the registry are those of `Scan` |
| ScanProperties.PetDueIff | backend/app/routers/notifications.py:198-249 | a pet's candidates are exactly its active medications' due listed slots and, if it was not fed today, its due meal slots |
| ScanProperties.UserDueIff | backend/app/routers/notifications.py:179-200 | a user's candidates are exactly the reminders eligible for that user |
| ScanProperties.EligibleAddressee | backend/app/routers/notifications.py:217-243 | every candidate is addressed to the user it was found for |
| ScanProperties.ScanDueIff | backend/app/routers/notifications.py:168-249 | the scan finds a reminder due exactly when it is addressed to a visited user and eligible |
| ScanProperties.MedicationReminderConditions | backend/app/routers/notifications.py:203-216 | a medication reminder needs a known user, a pet of that user, an active medication on the local date listing the slot, and a due slot |
| ScanProperties.FedPetsGetNoFeedingReminder | backend/app/routers/notifications.py:236-241 | a pet fed in today's UTC window gets no feeding reminder, and feeding slots are 08:00, 13:00 or 19:00 |
| ScanProperties.UnknownUsersSkipped | backend/app/routers/notifications.py:181-183 | only users with a record are served |
| ScanProperties.UnresolvedZoneUsesUtc | backend/app/routers/notifications.py:184-187 | a user whose zone does not resolve is served on the UTC clock |
| ScanProperties.ScanSound | backend/app/routers/notifications.py:216-249 | one scan sends only due reminders not yet sent today, never two with one key, and marks all it sends |
| ScanProperties.ScanComplete | backend/app/routers/notifications.py:216-249 | every due reminder ends up marked, and one not sent before is sent |
| ScanProperties.ScanTwiceSameDay | backend/app/routers/notifications.py:216-242 | a second scan on the same UTC day never resends what the first one sent |
| ScanProperties.ScanPrunes | backend/app/routers/notifications.py:43-243 | after a scan, exactly the addressed users lose their failing connections and no key is removed |
| ScanProperties.ScanOfNobody | backend/app/routers/notifications.py:169-171 | with nobody connected the scan sends nothing and changes nothing |
| ScanProperties.Stamp | backend/app/routers/notifications.py:68-69 | each send is recorded with the UTC day of its scan |
| ScanProperties.AfterRecorded | backend/app/routers/notifications.py:68-82 | the ledger keeps explaining the log after another scan on the same or a later day |
| ScanProperties.LogRecorded | backend/app/routers/notifications.py:72-82 | sends of earlier days stay below the new day, and every send of the new day is in a ledger that only grew |
| ScanProperties.NoRepeatAppend | backend/app/routers/notifications.py:65-82 | two repeat-free logs with no common reminder on a common day join into a repeat-free log |
| ScanProperties.AfterNoRepeat | backend/app/routers/notifications.py:65-216 | another scan on the same or a later day adds no repeat |
| ScanProperties.ReplayRecorded | backend/app/routers/notifications.py:147-249 | any run of scans with non-decreasing UTC days keeps the ledger explaining the log, with no repeats |
| ScanProperties.AtMostOncePerDay | backend/app/routers/notifications.py:65-249 | at-most-once delivery: over any number of scans whose UTC days do not go backwards, no reminder (user, kind, ref, slot) is sent twice on one UTC day, whatever connections fail in each scan |
| Handshake.Lookup | backend/app/routers/notifications.py:121-125 | the socket is admitted exactly when the user exists |
| Handshake.TokenUser | backend/app/routers/notifications.py:100-101 | the user a token names: `_decode_jwt`, then `int(payload["sub"])`; a user only for a token that decodes |
| Handshake.AuthMessage | backend/app/routers/notifications.py:105-119 | the first-message handshake: "Expected auth message" for an object not of type "auth" with a truthy token, "Auth failed" for a non-object, a non-text token or a token naming no user |
| Handshake.Decide | backend/app/routers/notifications.py:95-125 | every refusal has code 4001; an admitted user exists; the message handshake is used exactly when the query token is empty |
| Handshake.RefusalCodePrivate | backend/app/routers/notifications.py:103-124 | every refusal code lies in the private-use range 4000-4999 |
| Handshake.QueryTokenIff | backend/app/routers/notifications.py:98-125 | with a query token the first message is never read; admission means the token decodes to a known user |
| Handshake.MessageIff | backend/app/routers/notifications.py:105-125 | without a query token, admission means the first message is a JSON object of type "auth" whose truthy token decodes to a known user |
| Handshake.OtherMessageRefused | backend/app/routers/notifications.py:111-116 | a JSON object of another type is refused as "Expected auth message" |
| Handshake.FreshQueryTokenAdmitted | backend/app/routers/notifications.py:98-132 | a freshly issued, unexpired token for a known user admits the query-token handshake |
| Handshake.PongsAppend | backend/app/routers/notifications.py:135-138 | the answers to two runs of texts concatenate |
| Handshake.PongsOfOne | backend/app/routers/notifications.py:137-138 | "ping" is answered by one "pong" and anything else by nothing |
| Handshake.Pongs | backend/app/routers/notifications.py:135-138 | the answers to the received texts: one pong per "ping", in order |
| Handshake.PongsOnly | backend/app/routers/notifications.py:135-138 | the loop sends only pongs, never more of them than texts received |
| Handshake.Serve | backend/app/routers/notifications.py:95-142 | a refusal sends nothing and leaves the registry alone; an admitted socket gets `auth_ok` only for the message handshake, then one pong per ping, and is unregistered on exit |
| Base64Url.Symbol | backend/app/core/security.py:39 | every six-bit value maps to a URL-safe symbol |
| Base64Url.StandardValue | backend/app/core/security.py:46 | decoded symbol values are six-bit |
| Base64Url.ValueOfSymbol | backend/app/core/security.py:38-46 | every symbol decodes to the value it encodes |
| Base64Url.StripPadding | backend/app/core/security.py:39 | `rstrip(b"=")` never lengthens |
| Base64Url.Unpadded | backend/app/core/security.py:39 | the symbols of the encoding are URL-safe |
| Base64Url.UrlsafeB64Encode | backend/app/core/security.py:39 | `base64.urlsafe_b64encode`: groups of three bytes as four symbols, then the padded tail; `EncodeIsUnpaddedThenPad` splits it into symbols and padding |
| Base64Url.B64UrlEncode | backend/app/core/security.py:38-39 | `_b64url_encode`: the encoding with its padding stripped; `EncodeUnpadded` and `EncodeAlphabet` state its form |
| Base64Url.EncodeIsUnpaddedThenPad | backend/app/core/security.py:39 | `urlsafe_b64encode` is the symbols followed by the padding |
| Base64Url.StripPaddingOf | backend/app/core/security.py:39 | the strip removes exactly the padding |
| Base64Url.EncodeUnpadded | backend/app/core/security.py:38-39 | `_b64url_encode` returns exactly the symbols |
| Base64Url.EncodeAlphabet | backend/app/core/security.py:38-39 | the output is URL-safe, contains neither '=' nor '.', and its length is never 1 modulo 4 |
| Base64Url.Equals | backend/app/core/security.py:45 | `"=" * n` has n '=' characters |
| Base64Url.Repadded | backend/app/core/security.py:43-45 | the padded input's length is a multiple of 4, with `4 - len % 4` '=' appended only when `len % 4 != 0` |
| Base64Url.A2bData | backend/app/core/security.py:46 | one data character updates the decoder state |
| Base64Url.A2b | backend/app/core/security.py:46 | CPython's non-strict decoder as a state machine: non-alphabet characters skipped, padding ending a group, and the excess-character and padding errors |
| Base64Url.UrlsafeB64Decode | backend/app/core/security.py:46 | `base64.urlsafe_b64decode`: a non-ASCII text is refused, otherwise the decoder runs from the start state |
| Base64Url.B64UrlDecode | backend/app/core/security.py:42-46 | `_b64url_decode`: re-pad, then decode; `DecodeEncode` is its round trip |
| Base64Url.GroupArithmetic | backend/app/core/security.py:46 | the four six-bit values of a group give its three bytes back |
| Base64Url.FeedGroup | backend/app/core/security.py:46 | four values from a group boundary append the group's bytes |
| Base64Url.FeedTail1 | backend/app/core/security.py:46 | the two values of a final byte append it |
| Base64Url.FeedTail2 | backend/app/core/security.py:46 | the three values of a final pair append it |
| Base64Url.A2bGroup | backend/app/core/security.py:46 | a group of four symbols decodes to its three bytes |
| Base64Url.A2bTail1 | backend/app/core/security.py:46 | a final single byte with "==" decodes and ends the input |
| Base64Url.A2bTail2 | backend/app/core/security.py:46 | a final pair with "=" decodes and ends the input |
| Base64Url.A2bEncoded | backend/app/core/security.py:46 | the decoder reads a padded encoding back |
| Base64Url.UnpaddedLength | backend/app/core/security.py:39 | the encoding is 4 symbols per whole group, then 0, 2 or 3 |
| Base64Url.RepaddedUnpadded | backend/app/core/security.py:39-45 | re-padding the stripped encoding restores the padded one |
| Base64Url.DecodeEncode | backend/app/core/security.py:38-46 | round trip: `_b64url_decode(_b64url_encode(b)) == b` for every byte string |
| Base64Url.EncodeAscii | backend/app/core/security.py:39 | the encoding is ASCII, so `.decode()` cannot fail |
| Base64Url.A2bEarlyPad | backend/app/core/security.py:46 | a '=' before the third position of a group is skipped |
| Base64Url.A2bFinalPad | backend/app/core/security.py:46 | a '=' that completes a group's padding ends the input |
| Base64Url.DecodeNotCanonical | backend/app/core/security.py:42-46 | "QQ" and "QR" both decode to the byte 65: trailing bits are ignored |
| Base64Url.SkipsForeign | backend/app/core/security.py:46 | characters outside the alphabet are skipped |
| Base64Url.ExcessCharacterRefused | backend/app/core/security.py:42-46 | one data character beyond a multiple of four is refused |
| Security.Trunc | backend/app/core/security.py:52 | `int()` of a float truncates toward zero |
| Security.HashPassword | backend/app/core/security.py:21-24 | the stored hash splits at its first '$' into the hex salt and the hex PBKDF2 key |
| Security.VerifyPassword | backend/app/core/security.py:27-33 | `verify_password`: false without a '$', else whether the hex PBKDF2 key of the password under the stored salt equals the stored hex key |
| Security.VerifyHashed | backend/app/core/security.py:21-31 | a password verifies against its own hash |
| Security.VerifyIffSameKey | backend/app/core/security.py:27-31 | another password verifies exactly when PBKDF2 gives it the same key |
| Security.NoSeparatorRejected | backend/app/core/security.py:27-33 | a stored value without '$' yields false rather than an exception |
| Security.CreatedSegments | backend/app/core/security.py:49-57 | a created token is three '.'-separated segments: the encoded header, the encoded payload with `sub = str(subject)` and integer `exp`, and the encoded HMAC of "h.p" |
| Security.PayloadJson | backend/app/core/security.py:52-54 | the compact JSON text of `{"sub": str(subject), "exp": exp}` |
| Security.Signature | backend/app/core/security.py:55-56 | the HMAC-SHA256 of "h.p" under the secret key |
| Security.CreateAccessToken | backend/app/core/security.py:49-57 | `create_access_token`: encoded header, encoded payload and encoded signature joined by '.'; `CreatedSegments` and `DecodeCreated` state what it gives |
| Security.ThreeSegments | backend/app/core/security.py:57-61 | three segments without '.' split back apart |
| Security.DecodeNeedsSignature | backend/app/core/security.py:60-69 | an accepted token has three parts whose decoded signature is the HMAC of "h.p" under the secret key |
| Security.WrongSegmentCountRefused | backend/app/core/security.py:61-63 | any other number of parts is refused before anything else |
| Security.ExpiryIff | backend/app/core/security.py:71-74 | with an integer `exp`, the token is refused as expired exactly when `now > exp`, and accepted at `now == exp` |
| Security.NoExpiryNeverExpires | backend/app/core/security.py:71-74 | a payload without `exp` never expires |
| Security.CheckExpiry | backend/app/core/security.py:71-73 | the `exp` check on the loaded payload, including the `in` test on lists and texts and the type error of comparing with a non-number |
| Security.DecodeJwt | backend/app/core/security.py:60-74 | `_decode_jwt`: three parts, then the signature check, then the payload decode and `json.loads`, then the expiry check, each failure its own error |
| Security.IntOf | backend/app/core/security.py:91 | Python's `int()` of a JSON value: integers, booleans, truncated floats and numeric texts; anything else raises |
| Security.SubjectOf | backend/app/core/security.py:88-91 | `int(payload.get("sub"))`: no value for a non-dictionary payload, a missing or null `sub`, or a `sub` that `int()` refuses |
| Security.DecodeCreated | backend/app/core/security.py:49-74 | a freshly created token decodes to its payload before its expiry and is refused after it |
| Security.CurrentUser | backend/app/core/security.py:77-98 | an accepted user has a token that decodes, an integer `sub` equal to the user, and exists |
| Security.CurrentUserRejects | backend/app/core/security.py:86-97 | a decode error, a missing `sub`, a non-integer `sub` or an unknown user each rejects |
| Security.CurrentUserOfCreated | backend/app/core/security.py:49-98 | a fresh token of a known user, used before expiry, yields that user |
| Security.PayloadSubject | backend/app/core/security.py:52-91 | `int(str(subject))` reads the subject back |
| OfflineCache.Lookup | app/src/utils/offlineCache.ts:17-31 | the data of a stored entry at most 30 minutes old; null for a missing, unparsable or expired entry |
| OfflineCache.AfterGet | app/src/utils/offlineCache.ts:17-31 | `get` removes the key exactly when its entry has expired, and nothing else |
| OfflineCache.Cache.constructor | app/src/utils/offlineCache.ts:11 | the cache works over the given store |
| OfflineCache.Cache.Set | app/src/utils/offlineCache.ts:12-15 | `{data, timestamp: now}` is stored under the prefixed key, overwriting |
| OfflineCache.Cache.Get | app/src/utils/offlineCache.ts:17-32 | answers `Lookup` and leaves the store as `AfterGet` |
| OfflineCache.Cache.Invalidate | app/src/utils/offlineCache.ts:34-36 | only the prefixed key is removed |
| OfflineCache.Cache.InvalidateAll | app/src/utils/offlineCache.ts:38-44 | exactly the keys with the prefix are removed; every other key keeps its value |
| OfflineCache.Cache.FetchWithCache | app/src/utils/offlineCache.ts:48-65 | on success caches and returns the data; on failure returns the cached value when non-null, else rethrows the original error |
| OfflineCache.GetAbsent | app/src/utils/offlineCache.ts:18-19 | a key never written reads as null and changes nothing |
| OfflineCache.SetThenGet | app/src/utils/offlineCache.ts:12-28 | what `set` wrote reads back for 30 minutes, the boundary included |
| OfflineCache.SetThenGetExpired | app/src/utils/offlineCache.ts:24-27 | after that it reads as null and the entry is removed |
| OfflineCache.UnparsableKept | app/src/utils/offlineCache.ts:29-31 | an unparsable entry reads as null and stays |
| OfflineCache.OnlyCacheKeysTouched | app/src/utils/offlineCache.ts:3-35 | every key the cache writes or removes carries the prefix |
| OfflineCache.CachedNullRethrows | app/src/utils/offlineCache.ts:59-63 | a cached `null` cannot be told from a miss, so the error is rethrown |
| NotificationHook.Pow2 | web/src/lib/useNotifications.ts:113 | `Math.pow(2, n)` is at least 1 |
| NotificationHook.Pow2Monotone | web/src/lib/useNotifications.ts:113 | powers of two grow with the exponent |
| NotificationHook.Delay | web/src/lib/useNotifications.ts:112-115 | the reconnect delay lies in [5000, 120000] ms |
| NotificationHook.DelayMonotone | web/src/lib/useNotifications.ts:112-115 | the delay never decreases with the retry count |
| NotificationHook.DelayDoubles | web/src/lib/useNotifications.ts:112-115 | each further failure doubles the delay until the cap |
| NotificationHook.DelaySchedule | web/src/lib/useNotifications.ts:111-115 | 5 s at the first retry, 80 s at the fifth, 120 s from the sixth on |
| NotificationHook.Prop | web/src/lib/useNotifications.ts:72-92 | a property read gives a value exactly when the parsed value is an object with that key |
| NotificationHook.React | web/src/lib/useNotifications.ts:67-84 | a message is accepted only on an authenticated socket, as the value the text parses to |
| NotificationHook.PongIgnored | web/src/lib/useNotifications.ts:68 | "pong" is ignored |
| NotificationHook.NothingBeforeAuth | web/src/lib/useNotifications.ts:83 | before `auth_ok` no message is accepted |
| NotificationHook.ControlMessages | web/src/lib/useNotifications.ts:72-81 | `auth_ok` and `auth_error` are recognised whatever the authentication state |
| NotificationHook.SameSlotIdsCollide | web/src/lib/useNotifications.ts:86 | the id as written collides for two medications of one pet in one slot received in the same millisecond |
| NotificationHook.CollidingDismissRemovesBoth | web/src/lib/useNotifications.ts:33-35 | dismissing one of two colliding notifications removes both |
| NotificationHook.NotificationId | web/src/lib/useNotifications.ts:86 | the corrected id ends in the notification's serial number, which reads back |
| NotificationHook.IdsDiffer | web/src/lib/useNotifications.ts:86 | notifications with different serials have different ids |
| NotificationHook.Build | web/src/lib/useNotifications.ts:85-94 | the notification copies the message's type, pet and slot and the time received; its id is the corrected `NotificationId`, which adds a per-hook serial the source's id lacks |
| NotificationHook.WithoutId | web/src/lib/useNotifications.ts:33-35 | the remaining notifications are exactly those whose id differs |
| NotificationHook.DistinctIds | web/src/lib/useNotifications.ts:33-95 | in a newest-first list no two notifications share an id |
| NotificationHook.WithoutIdKeepsOrder | web/src/lib/useNotifications.ts:33-35 | dismissal keeps the list newest first |
| NotificationHook.WithoutIdAppend | web/src/lib/useNotifications.ts:33-35 | dismissal distributes over concatenation, so order is preserved |
| NotificationHook.WithoutIdAbsent | web/src/lib/useNotifications.ts:33-35 | dismissing an absent id changes nothing |
| NotificationHook.DismissOne | web/src/lib/useNotifications.ts:33-35 | with distinct ids, dismissal removes exactly that one notification and keeps the rest in order |
| NotificationHook.FramesOfSnoc | web/src/lib/useNotifications.ts:58-62 | a sent frame goes to its socket's list of frames |
| NotificationHook.AuthFirstFlags | web/src/lib/useNotifications.ts:56-58 | flags other than "opened" do not affect the auth-first invariant |
| NotificationHook.AuthFirstNewSocket | web/src/lib/useNotifications.ts:52-53 | a new socket keeps the auth-first invariant |
| NotificationHook.Hook.constructor | web/src/lib/useNotifications.ts:24-31 | nothing connected, retry count 0, empty list |
| NotificationHook.Hook.Connect | web/src/lib/useNotifications.ts:37-53 | no token, disabled, unmounted or `retryCount >= 10` does nothing; otherwise the current socket is closed and a new one becomes current |
| NotificationHook.Hook.Mount | web/src/lib/useNotifications.ts:126-129 | mounted, retry count reset to 0, then `connect`: with a non-empty token and the hook enabled, a fresh unopened socket with that token becomes current and the previous current socket is closed, other sockets unchanged; otherwise sockets and current stay; list, outbox, timers and serial unchanged |
| NotificationHook.Hook.OnOpen | web/src/lib/useNotifications.ts:56-58 | the first frame sent on an opened socket is the auth frame with its token |
| NotificationHook.Hook.PingTick | web/src/lib/useNotifications.ts:60-64 | a ping goes out only while the socket is open, and always after the auth frame |
| NotificationHook.Hook.OnMessage | web/src/lib/useNotifications.ts:67-104 | `auth_ok` authenticates and resets the retry count; `auth_error` closes without a notification; an accepted reminder is prepended with existing entries unchanged, and its dismiss timer is added |
| NotificationHook.Hook.OnError | web/src/lib/useNotifications.ts:120-123 | the socket is closed and nothing else changes |
| NotificationHook.Hook.OnClose | web/src/lib/useNotifications.ts:106-118 | while mounted and under 10 retries, the retry count grows by exactly 1 and one reconnect is scheduled after `Delay(retryCount)`; otherwise nothing is scheduled |
| NotificationHook.Hook.ReconnectFires | web/src/lib/useNotifications.ts:37-117 | the timer is consumed and `connect` runs with its guards: when they pass, a fresh unopened socket with the token becomes current and the previous one is closed, other sockets unchanged; when they refuse, sockets and current stay; counter, list, outbox, dismiss timers and serial unchanged |
| NotificationHook.Hook.Dismiss | web/src/lib/useNotifications.ts:33-35 | the list becomes `WithoutId(old, id)` and nothing else changes |
| NotificationHook.Hook.DismissTimerFires | web/src/lib/useNotifications.ts:98-101 | the oldest auto-dismiss timer removes its notification and is forgotten |
| NotificationHook.Hook.Unmount | web/src/lib/useNotifications.ts:130-141 | unmounted, the latest reconnect timer and all dismiss timers are cleared, the current socket is closed |
| NotificationHook.UnmountedStaysQuiet | web/src/lib/useNotifications.ts:39-108 | once unmounted, `connect` does nothing |
| ApiClient.Loaded | web/src/lib/api.ts:17-23 | a cached truthy token is returned; otherwise, with a window, the stored token, else what memory holds |
| ApiClient.TokenStorage.constructor | web/src/lib/api.ts:14 | `_token` starts null |
| ApiClient.TokenStorage.Get | web/src/lib/api.ts:17-23 | returns `Loaded` and caches it, leaving storage alone |
| ApiClient.TokenStorage.Set | web/src/lib/api.ts:24-29 | memory and (with a window) storage hold the token |
| ApiClient.TokenStorage.Clear | web/src/lib/api.ts:30-35 | memory is null and (with a window) the key is removed |
| ApiClient.CachedIgnoresStorage | web/src/lib/api.ts:18 | a cached token is returned without reading storage |
| ApiClient.SetThenGet | web/src/lib/api.ts:17-29 | after `set(t)`, `get()` returns t |
| ApiClient.ClearThenGet | web/src/lib/api.ts:17-35 | after `clear()`, `get()` returns null |
| ApiClient.GetTwice | web/src/lib/api.ts:17-23 | a second `get()` answers as the first |
| ApiClient.Headers | web/src/lib/api.ts:52-54 | JSON content type always; `Authorization: Bearer <token>` exactly when the token is truthy; no other header |
| ApiClient.RequestHeaders | web/src/lib/api.ts:52-54 | the headers of the token `get()` returns, with its caching effect |
| ApiClient.UpperHexDigit | web/src/lib/api.ts:88 | percent-escapes use upper-case hex digits |
| ApiClient.HexDigitValue | web/src/lib/api.ts:88 | a hex digit has a value below 16 |
| ApiClient.UpperHexDigitValue | web/src/lib/api.ts:88 | a written hex digit reads back |
| ApiClient.FormByte | web/src/lib/api.ts:88 | one byte is written as 1 to 3 characters, never '&' or '=' |
| ApiClient.FormBytes | web/src/lib/api.ts:88 | the escaped bytes contain no '&' or '=' |
| ApiClient.FormEncode | web/src/lib/api.ts:88 | an encoded value contains no '&' or '=' |
| ApiClient.FormDecodeByte | web/src/lib/api.ts:88 | one written byte reads back |
| ApiClient.FormDecodeBytes | web/src/lib/api.ts:88 | the written bytes read back |
| ApiClient.FormRoundTrip | web/src/lib/api.ts:86-88 | every value reads back as its UTF-8 bytes |
| ApiClient.Params | web/src/lib/api.ts:85-87 | at most two parameters, none exactly when both dates are falsy |
| ApiClient.Serialised | web/src/lib/api.ts:88 | one `name=value` per parameter |
| ApiClient.Query | web/src/lib/api.ts:85-88 | `params.toString()`: the set parameters as name=value pieces joined by '&' |
| ApiClient.BuildListPath | web/src/lib/api.ts:84-90 | `buildListPath`: the base alone for an empty query, else base, '?' and the query; `NoDatesNoQuery`, `DatesGiveQuery` and `QueryReadsBack` state what it gives |
| ApiClient.NoDatesNoQuery | web/src/lib/api.ts:84-90 | without a truthy date the path is the base, unchanged |
| ApiClient.DatesGiveQuery | web/src/lib/api.ts:84-90 | with a date the path is `base + "?" + query` with a non-empty query |
| ApiClient.QueryReadsBack | web/src/lib/api.ts:85-89 | the query splits at '&' into exactly the set parameters, `date_from` before `date_to`, each `name=encoded value` whose value reads back |
| ApiClient.SerialisedAt | web/src/lib/api.ts:88 | the i-th piece is the i-th parameter |
| ToastStore.WithoutId | web/src/stores/toast.ts:23-25 | the remaining toasts are exactly those with another id |
| ToastStore.WithoutIdAppend | web/src/stores/toast.ts:23-25 | dismissal distributes over concatenation, so order is preserved |
| ToastStore.WithoutIdOne | web/src/stores/toast.ts:23-25 | one toast stays exactly when its id differs |
| ToastStore.WithoutAbsentId | web/src/stores/toast.ts:23-25 | dismissing an absent id changes nothing |
| ToastStore.WithoutIdIdempotent | web/src/stores/toast.ts:23-25 | dismissing twice is dismissing once |
| ToastStore.Toasts.constructor | web/src/stores/toast.ts:12-15 | empty list, counter 0 |
| ToastStore.Toasts.Show | web/src/stores/toast.ts:17-21 | the id is the pre-incremented counter, larger than every id so far; the toast is appended, with type defaulting to success, earlier toasts unchanged; its timer is pending |
| ToastStore.Toasts.Dismiss | web/src/stores/toast.ts:23-25 | the list becomes `WithoutId(old, id)`; the counter is unchanged |
| ToastStore.Toasts.TimerFires | web/src/stores/toast.ts:20 | the oldest pending timer dismisses its toast |
| ToastStore.ShowThenDismiss | web/src/stores/toast.ts:17-25 | dismissing the toast just shown restores the list |
| ToastStore.TimerKeepsPending | web/src/stores/toast.ts:20-25 | every toast left after a timer fires still has a pending timer |
| ToastStore.WithoutIdKeepsIncreasing | web/src/stores/toast.ts:18-25 | dismissal keeps ids strictly increasing along the list |
| Photos.ResolvePhotoUrl | web/src/lib/photos.ts:6-10 | null, undefined and '' give undefined; a URL starting with 'data:' or 'http' is returned unchanged; anything else gives undefined |
| Photos.RelativePathHidden | web/src/lib/photos.ts:8-9 | a relative path is never shown |
| Photos.RoundDiv | web/src/lib/photos.ts:27-30 | `Math.round(a / b)` is the nearest integer, halves rounded up |
| Photos.RoundDivAtMost | web/src/lib/photos.ts:27-30 | rounding a quotient of at most m stays at most m |
| Photos.CapDimensions | web/src/lib/photos.ts:24-33 | an image within the box keeps its size; an oversized one fits the box with its longer side (by `width > height`) at maxSize and the other side rounded to the aspect ratio; a square becomes maxSize × maxSize |
| Photos.CapDefault | web/src/lib/photos.ts:17-33 | without a `maxSize` the image is capped into the default 512-pixel box, an image within it keeps its size, and an oversized image gets 512 on its larger side (the height on a tie) |
| Photos.ScaledSide | web/src/lib/photos.ts:27-30 | the scaled shorter side is at most maxSize and the nearest integer to its exact value |
| Photos.RoundDivSquare | web/src/lib/photos.ts:29-31 | the rounded side of a square is maxSize itself |
| Photos.TrailingWordChars | web/src/lib/photos.ts:42 | the count of trailing `\w` characters |
| Photos.MatchUnique | web/src/lib/photos.ts:42 | `/\.\w+$/` matches at one place at most |
| Photos.RenameToJpg | web/src/lib/photos.ts:42 | a match is replaced by '.jpg', keeping everything before it; a name without a match is unchanged |
| Photos.MatchAtTrailing | web/src/lib/photos.ts:42 | any match starts right before the trailing word characters |
| Photos.RenameExamples | web/src/lib/photos.ts:42 | cat.png gives cat.jpg, scan.tar.gz gives scan.tar.jpg, notes and shot. are unchanged |
| PetStatus.FeedingStatus | web/src/app/pets/page.tsx:15-22 | null exactly for no dashboard; notFed exactly when no entry is logged |
| PetStatus.FeedingBands | web/src/app/pets/page.tsx:19-21 | with a positive plan: under 0.7 × planned is underfed, over 1.3 × planned is overfed, the closed band between is well fed |
| PetStatus.NoPlanWellFed | web/src/app/pets/page.tsx:19-21 | without a positive plan any logged feeding is well fed |
| PetStatus.NoEntriesNotFed | web/src/app/pets/page.tsx:18 | no entries is notFed whatever the grams |
| PetStatus.VaccineStatus | web/src/app/pets/page.tsx:24-32 | `getVaccineStatus`: noData exactly for no vaccines; overdue exactly when some due date is before now; up to date exactly when the list is non-empty and no date is before now or within the next 30 days |
| PetStatus.OverdueWins | web/src/app/pets/page.tsx:27-28 | a vaccine due strictly before now makes the pet overdue, whatever the others |
| PetStatus.DueSoonIff | web/src/app/pets/page.tsx:27-31 | due soon exactly when nothing is overdue and some date lies in [now, now + 30 days] |
| PetStatus.UndatedUpToDate | web/src/app/pets/page.tsx:27-31 | a non-empty list without usable dates is up to date |
| PetStatus.MoreVaccinesNoCalmer | web/src/app/pets/page.tsx:25-31 | recording another vaccine never makes the badge less alarming |
| PetStatus.OrderIrrelevant | web/src/app/pets/page.tsx:27-31 | the badge depends only on which dates occur, not their order |
| PetStatus.OccursIn | web/src/app/pets/page.tsx:27-29 | `some` finds in a larger list what it finds in a smaller one |
| Router.Match | web/src/router/index.ts:7-20 | a section route names one of the seven sections |
| Router.Resolve | web/src/router/index.ts:7 | '/' never reaches the guard: it resolves to '/pets' |
| Router.Guard | web/src/router/index.ts:44-53 | redirects exactly when guest-ness equals the auth state: to '/login' for a non-guest route without a user, to '/pets' for a guest route with one, otherwise proceeds |
| Router.MatchLogin | web/src/router/index.ts:8 | '/login' is the login route |
| Router.MatchPets | web/src/router/index.ts:10 | '/pets' is the pet list |
| Router.MatchRoot | web/src/router/index.ts:7 | '/' is the redirect record |
| Router.NoRedirectLoop | web/src/router/index.ts:8-52 | each redirect target passes the guard for the same auth state |
| Router.HomeIsPets | web/src/router/index.ts:7-49 | '/' lands on the pet list, which needs a user |
| Router.SignedOutGoesToLogin | web/src/router/index.ts:44-49 | without a user every non-guest route redirects to '/login' |
| Router.NotFoundNeedsUser | web/src/router/index.ts:20-49 | the catch-all is not a guest route, so unmatched paths need a user |
| Router.LowerIdempotent | web/src/router/index.ts:6-20 | folding case twice is folding it once |
| Router.LowerKeepsSlashes | web/src/router/index.ts:6-20 | folding case adds no '/' |
| Router.OneSegmentCaseInsensitive | web/src/router/index.ts:6-20 | a one-segment path matches the same route whatever the case of its letters |
| Router.TrailingSlashIgnored | web/src/router/index.ts:6-20 | any path not ending in '/' matches the same route with one '/' appended |
| Router.DoubleSlashNotFound | web/src/router/index.ts:8-20 | '/login//' falls to the catch-all |
| Text.Split | backend/app/routers/notifications.py:160 | `str.split(sep)` gives at least one piece, none containing the separator |
| Text.SplitJoin | backend/app/core/security.py:57-61 | splitting undoes joining separator-free pieces |
| Text.JoinSplit | backend/app/core/security.py:61 | joining undoes splitting |
| Text.SplitOnce | backend/app/core/security.py:29 | `split("$", 1)` fails exactly when '$' is absent, and otherwise splits at the first '$' |
| Text.SplitOnceAt | backend/app/core/security.py:29 | a '$'-free head splits off |
| Text.Utf8 | backend/app/core/security.py:23-55 | `str.encode()` is at least as long as the text |
| Text.Utf8OfAscii | backend/app/core/security.py:53-55 | an ASCII text encodes to its own code points |
| Text.NatToStringValue | backend/app/core/security.py:52 | `str(n)` has the value n |
| Text.IntToString | backend/app/core/security.py:52 | `str(i)` is a sign then digits |
| Text.ParseIntToString | backend/app/core/security.py:52-91 | `int(str(i)) == i` within CPython's digit limit |
| Text.IsPySpace | backend/app/routers/notifications.py:161 | the white space `int()` strips: tab to carriage return and space below U+007F, and the Unicode white space above it; not U+001C to U+001F |
| Text.ParsePyInt | backend/app/routers/notifications.py:161 | Python's `int()` of a text: stripped white space, an optional sign, digits grouped by single underscores, at most 4300 digits |
| Text.PyIntSpaceExamples | backend/app/routers/notifications.py:161 | `int("\x1c8")` raises; `int("\u00a08")` and `int("8\u3000")` are 8 |
| Text.IntToStringInjective | backend/app/routers/notifications.py:77 | distinct integers render differently |
| Text.Hex | backend/app/core/security.py:24 | `bytes.hex()` has two characters per byte and no '$' |
| Text.HexInjective | backend/app/core/security.py:24-31 | different byte strings have different hex strings |

## Findings

| source | as written | input that shows it | evidently intended | confidence | as-written member | corrected member |
|---|---|---|---|---|---|---|
| web/src/lib/useNotifications.ts:86 | a notification's id is type, pet id, slot and `Date.now()` | the backend sends one reminder per medication due in a slot, back to back (backend/app/routers/notifications.py:212-225); two medications of pet 3 at "08:00" arriving in the same millisecond get the same id, and dismissing one removes both | one id per notification, so `dismiss` removes only the one clicked or timed out | not executed | NotificationHook.IdAsWritten, NotificationHook.SameSlotIdsCollide, NotificationHook.CollidingDismissRemovesBoth | NotificationHook.NotificationId, NotificationHook.IdsDiffer, NotificationHook.DistinctIds, NotificationHook.DismissOne |

The hook model builds every notification with `NotificationId`, which appends
a per-hook serial number.

## Left out

- Transport: accepting, closing and receiving on sockets, `send_json`, the 10 s `wait_for` timeout of the message handshake, and the `sleep(60)` loop. A scan and a handshake are each modelled as one step, and a run of scans as a sequence of rounds.
- Concurrency: interleaving between the reminder loop and socket sessions, and between tabs sharing `localStorage`.
- The database, `ZoneInfo`, `datetime.now`, `strftime` and `Date.now()` are parameters. Scanner.CheckReminders uses one UTC day for the whole scan. The source reads the clock on every `_mark_sent` / `_was_sent`, so a scan that crosses midnight is not modelled.
- HMAC-SHA256, PBKDF2, `secrets.token_hex`, `json.dumps` / `json.loads`, `JSON.parse` and the template-literal rendering of values are passed in. Only their results are used. The one property assumed is that `json.loads` reads back the token payload `json.dumps` wrote, and only `Security.DecodeCreated`, `Security.CurrentUserOfCreated` and `Handshake.FreshQueryTokenAdmitted` take it, as a `requires`.
- The persisted `sent_notification` table is not used by the scan, and its unique constraint belongs to the database. It is not part of this model.
- Python details: `int()` strips the white space CPython strips, but `int()` of non-ASCII Unicode digits, lone surrogates in UTF-8, and JSON `NaN` / `Infinity` are not modelled.
- Scanner.CheckReminders: whether a connection's send fails is decided once per scan by the `broken` set. A connection that accepts one `send_json` and raises on a later send in the same scan is not modelled. Each round of a run carries its own set.
- Scanner.CheckReminders: `send_to_user` keeps a user whose connections all failed as an empty entry, so later scans still visit that user. `send_to_user` (backend/app/routers/notifications.py:43-53) discards the failed sockets but keeps the user's key; only `disconnect` (backend/app/routers/notifications.py:37-41) deletes an empty entry (`Registry.PruneKeepsEmptyEntry`).
- OfflineCache.Lookup: stored text that parses to JSON other than an entry object (for example a bare number) is treated like unparsable text. The source would return `undefined` for it. Errors raised by AsyncStorage itself are not modelled.
- ToastStore.Toasts: the 3.5 s expiry timers are modelled as a FIFO of pending ids, since every toast waits the same time. Real timer scheduling is not modelled.
- NotificationHook.Hook: the `/health` wake-up fetch is left out. So is the `readyState` subtlety that a socket can be open before `onopen` runs. Changing `enabled` at runtime, which makes React recreate `connect`, is not modelled: `enabled` is fixed per hook.
- NotificationHook.Hook.Unmount: `clearTimeout(reconnectTimer.current)` clears only the latest reconnect timer (numbered `timersSet - 1`), as the source does. Older timers that already fired were consumed.
- NotificationHook.Build: the hook model gives each notification the corrected id of the "## Findings" row, which appends a serial number. The id the source builds at web/src/lib/useNotifications.ts:86 has no serial and is modelled only by `IdAsWritten`.
- NotificationHook.Hook.OnMessage: an accepted reminder is stored with the corrected id, so the `NewestFirst` and serial parts of the hook's invariant hold only for the corrected program. With the source's id two notifications can share one id.
- NotificationHook.Hook.OnClose: the `clearInterval` of the ping timer is not modelled as state. A ping tick on a socket whose close has fired sends nothing, the same frames a cleared timer sends. The event methods accept events for any socket of the hook, including a message after close or a second `onclose`, which a browser never delivers.
- PetStatus.FeedingStatus: gram totals are exact reals, not IEEE doubles, so `planned * 0.7` is not rounded.
- PetStatus.VaccineStatus: the parsing of `next_due_date` by `new Date(...)` is given as its result (no date, an invalid date, or a time in milliseconds). The badge colours are left out.
- Photos.CapDimensions: the sizes are natural numbers. A negative `maxSize` and non-integral sizes are left out. `Math.round` is exact here, whereas floating-point division could differ for very large sizes. The canvas, `toBlob` and image-load error paths are native APIs and are left out.
- Router.Guard: waiting for `auth.loading` to settle happens before the decision and is left out. Percent-decoding of paths by the router is not modelled.
- UI code, the CRUD routers and their schemas, the auth orchestration, and client plumbing are not part of this model.
