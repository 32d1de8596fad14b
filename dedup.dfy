/** The in-memory deduplication ledger of the reminder scan (`_sent_today`,
    `_today_key`, `_mark_sent`, `_was_sent`): one bucket of reminder keys for
    one UTC day, emptied when the first mark of a new day arrives. */
module Dedup {
  import opened Text

  type UserId = int

  /** A calendar day, as a day number; the source keys its bucket by the ISO
      rendering of the UTC date, which is one-to-one with the day. */
  type Day = int

  datatype Kind = Medication | Feeding

  function KindName(k: Kind): (s: string)
    ensures ':' !in s
  {
    match k
    case Medication => "medication"
    case Feeding => "feeding"
  }

  /** One reminder occurrence within a day: user, kind, subject (medication id
      or pet id) and time slot. */
  datatype Reminder = Reminder(user: UserId, kind: Kind, ref: int, slot: string)

  /** The ledger string `f"{user_id}:{notif_type}:{ref_id}:{time_slot}"`. */
  function NotificationKey(r: Reminder): string {
    IntToString(r.user) + ":" + KindName(r.kind) + ":" + IntToString(r.ref) + ":" + r.slot
  }

  lemma KindNameInjective(a: Kind, b: Kind)
    requires KindName(a) == KindName(b)
    ensures a == b
  {
  }

  lemma KeySplits(r: Reminder)
    ensures Split(NotificationKey(r), ':')
         == [IntToString(r.user), KindName(r.kind), IntToString(r.ref)] + Split(r.slot, ':')
  {
    var u, k, f := IntToString(r.user), KindName(r.kind), IntToString(r.ref);
    assert ':' !in u && ':' !in f by {
      forall i | 0 <= i < |u| ensures u[i] != ':' { }
      forall i | 0 <= i < |f| ensures f[i] != ':' { }
    }
    assert NotificationKey(r) == u + [':'] + (k + [':'] + (f + [':'] + r.slot));
    SplitAtSeparator(u, ':', k + [':'] + (f + [':'] + r.slot));
    SplitAtSeparator(k, ':', f + [':'] + r.slot);
    SplitAtSeparator(f, ':', r.slot);
  }

  /** Distinct reminders have distinct ledger keys, even when a slot string
      itself contains ':'. */
  lemma NotificationKeyInjective(a: Reminder, b: Reminder)
    requires NotificationKey(a) == NotificationKey(b)
    ensures a == b
  {
    KeySplits(a);
    KeySplits(b);
    var sa, sb := Split(NotificationKey(a), ':'), Split(NotificationKey(b), ':');
    assert sa[0] == sb[0] && sa[1] == sb[1] && sa[2] == sb[2];
    IntToStringInjective(a.user, b.user);
    KindNameInjective(a.kind, b.kind);
    IntToStringInjective(a.ref, b.ref);
    assert sa[3..] == Split(a.slot, ':') && sb[3..] == Split(b.slot, ':');
    JoinSplit(a.slot, ':');
    JoinSplit(b.slot, ':');
  }

  // ---------------------------------------------------------------- the ledger as a value

  type Buckets = map<Day, set<string>>

  /** `_was_sent`: the key is in the bucket of the current UTC day. */
  function WasSentIn(m: Buckets, today: Day, key: string): bool {
    today in m && key in m[today]
  }

  /** `_mark_sent`: a day without a bucket first empties the whole ledger. */
  function Marked(m: Buckets, today: Day, key: string): (r: Buckets)
    ensures today in r
  {
    var base := if today in m then m else map[today := {}];
    base[today := base[today] + {key}]
  }

  /** After a mark on day d, the keys sent on d are the earlier ones plus the new one. */
  lemma MarkedSameDay(m: Buckets, today: Day, key: string, other: string)
    ensures WasSentIn(Marked(m, today, key), today, other) <==> other == key || WasSentIn(m, today, other)
  {
  }

  /** A mark on a new day discards every earlier-day key. */
  lemma MarkedNewDayDiscards(m: Buckets, today: Day, key: string)
    requires today !in m
    ensures Marked(m, today, key) == map[today := {key}]
  {
    assert {} + {key} == {key};
  }

  /** The ledger's shape: buckets for at most one day. */
  ghost predicate AtMostOneDay(m: Buckets) {
    forall d, e :: d in m && e in m ==> d == e
  }

  /** The ledger never holds more than one day, so right after a mark on d
      nothing is recorded for any other day. */
  lemma MarkedOtherDay(m: Buckets, today: Day, key: string, day: Day, other: string)
    requires AtMostOneDay(m)
    requires day != today
    ensures Marked(m, today, key).Keys == {today}
    ensures !WasSentIn(Marked(m, today, key), day, other)
  {
    var r := Marked(m, today, key);
    forall d | d in r ensures d == today {
      if today !in m {
        assert r.Keys == {today};
      }
    }
  }

  // ---------------------------------------------------------------- the module-level ledger

  /** The module-global `_sent_today` dictionary. */
  class SentLedger {
    var sentToday: Buckets

    ghost predicate Valid()
      reads this
    {
      AtMostOneDay(sentToday)
    }

    constructor ()
      ensures Valid() && sentToday == map[]
    {
      sentToday := map[];
    }

    /** `_was_sent(user_id, notif_type, ref_id, time_slot)` on the UTC day `today`. */
    function WasSent(r: Reminder, today: Day): bool
      reads this
    {
      WasSentIn(sentToday, today, NotificationKey(r))
    }

    /** `_mark_sent(user_id, notif_type, ref_id, time_slot)` on the UTC day `today`. */
    method MarkSent(r: Reminder, today: Day)
      requires Valid()
      modifies this
      ensures Valid()
      ensures sentToday == Marked(old(sentToday), today, NotificationKey(r))
      ensures WasSent(r, today)
    {
      var key := NotificationKey(r);
      if today !in sentToday {
        sentToday := map[];
        sentToday := sentToday[today := {}];
      }
      sentToday := sentToday[today := sentToday[today] + {key}];
    }
  }
}
