/** What the reminder scan promises: which reminders it considers due, that
    one scan sends exactly the due reminders not yet in today's bucket (each
    once), what it does to the registry, and at-most-once delivery per
    reminder and UTC day over any number of scans. */
module ScanProperties {
  import opened Wrappers
  import opened Dedup
  import opened DueWindow
  import opened Scanner
  import Registry

  // ---------------------------------------------------------------- what is due

  /** A medication of pet `p` is active on the user's local date and lists the slot. */
  ghost predicate MedicationEligible(w: World, u: UserId, c: LocalClock, p: Pet, d: Delivery) {
    exists m :: m in w.medications && m.petId == p.id && IsActive(m, c.date)
      && d.reminder.slot in SlotsOf(m) && d == MedicationDelivery(u, p, m, d.reminder.slot)
  }

  /** Pet `p` has no feeding log in today's UTC window and the slot is a meal time. */
  ghost predicate FeedingEligible(w: World, u: UserId, p: Pet, d: Delivery) {
    p.id !in w.fedToday && d.reminder.slot in FeedingSlots && d == FeedingDelivery(u, p, d.reminder.slot)
  }

  /** The source's conditions for sending `d` to user `u`, ledger aside: the
      user record exists, the slot is due on the user's local clock (UTC when
      the zone does not resolve), and `d` is a medication or feeding reminder
      for one of the user's pets. */
  ghost predicate Eligible(w: World, u: UserId, d: Delivery) {
    && u in w.timezones
    && var c := ClockOf(w, w.timezones[u]);
    && IsTimeDue(c.time, d.reminder.slot)
    && exists p :: p in w.pets && p.owner == u && (MedicationEligible(w, u, c, p, d) || FeedingEligible(w, u, p, d))
  }

  lemma PetDueIff(w: World, u: UserId, c: LocalClock, p: Pet, d: Delivery)
    ensures d in PetDue(w, u, c, p) <==>
      IsTimeDue(c.time, d.reminder.slot) && (MedicationEligible(w, u, c, p, d) || FeedingEligible(w, u, p, d))
  {
    var active := ActiveMedications(w.medications, p.id, c.date);
    var meds := MedicationsDue(u, p, c.time, active);
    MedicationsDueMembers(u, p, c.time, active);
    ActiveMedicationsMembers(w.medications, p.id, c.date);
    FeedingSlotsDueMembers(u, p, c.time, FeedingSlots);
    if d in meds {
      var m :| m in active && d in MedicationSlots(u, p, m, c.time, SlotsOf(m));
      MedicationSlotsMembers(u, p, m, c.time, SlotsOf(m));
    }
    if IsTimeDue(c.time, d.reminder.slot) && MedicationEligible(w, u, c, p, d) {
      var m :| m in w.medications && m.petId == p.id && IsActive(m, c.date)
        && d.reminder.slot in SlotsOf(m) && d == MedicationDelivery(u, p, m, d.reminder.slot);
      MedicationSlotsMembers(u, p, m, c.time, SlotsOf(m));
      assert d in MedicationSlots(u, p, m, c.time, SlotsOf(m));
    }
  }

  lemma UserDueIff(w: World, u: UserId, d: Delivery)
    ensures d in UserDue(w, u) <==> Eligible(w, u, d)
  {
    if u in w.timezones {
      var c := ClockOf(w, w.timezones[u]);
      var pets := PetsOf(w.pets, u);
      PetsDueMembers(w, u, c, pets);
      PetsOfMembers(w.pets, u);
      if d in UserDue(w, u) {
        var p :| p in pets && d in PetDue(w, u, c, p);
        PetDueIff(w, u, c, p, d);
      }
      if Eligible(w, u, d) {
        var p :| p in w.pets && p.owner == u && (MedicationEligible(w, u, c, p, d) || FeedingEligible(w, u, p, d));
        PetDueIff(w, u, c, p, d);
        assert d in PetDue(w, u, c, p);
      }
    }
  }

  /** Every delivery of the scan is addressed to the user it was found for. */
  lemma EligibleAddressee(w: World, u: UserId, d: Delivery)
    requires Eligible(w, u, d)
    ensures d.reminder.user == u
  {
  }

  /** The scan over users `order` finds `d` due exactly when `d` is addressed to
      a visited user and meets that user's conditions. */
  lemma ScanDueIff(w: World, order: seq<UserId>, d: Delivery)
    ensures d in ScanDue(w, order) <==> d.reminder.user in order && Eligible(w, d.reminder.user, d)
  {
    ScanDueMembers(w, order);
    if d in ScanDue(w, order) {
      var u :| u in order && d in UserDue(w, u);
      UserDueIff(w, u, d);
      EligibleAddressee(w, u, d);
    }
    if d.reminder.user in order && Eligible(w, d.reminder.user, d) {
      UserDueIff(w, d.reminder.user, d);
    }
  }

  /** A medication reminder is due only for an active medication of one of
      the user's pets whose slot list holds the slot, and only when the slot
      is due on the user's local clock. */
  lemma MedicationReminderConditions(w: World, order: seq<UserId>, d: Delivery)
    requires d in ScanDue(w, order) && d.reminder.kind == Kind.Medication
    ensures d.reminder.user in order && d.reminder.user in w.timezones
    ensures var c := ClockOf(w, w.timezones[d.reminder.user]);
      && IsTimeDue(c.time, d.reminder.slot)
      && exists m :: m in w.medications && m.id == d.reminder.ref && IsActive(m, c.date)
           && d.reminder.slot in SlotsOf(m)
           && exists p :: p in w.pets && p.owner == d.reminder.user && m.petId == p.id
  {
    ScanDueIff(w, order, d);
    var u := d.reminder.user;
    var c := ClockOf(w, w.timezones[u]);
    var p :| p in w.pets && p.owner == u && (MedicationEligible(w, u, c, p, d) || FeedingEligible(w, u, p, d));
    var m :| m in w.medications && m.petId == p.id && IsActive(m, c.date)
      && d.reminder.slot in SlotsOf(m) && d == MedicationDelivery(u, p, m, d.reminder.slot);
    assert m.id == d.reminder.ref;
    assert p in w.pets && p.owner == u && m.petId == p.id;
  }

  /** A pet with a feeding log in today's UTC window gets no feeding reminder. */
  lemma FedPetsGetNoFeedingReminder(w: World, order: seq<UserId>, d: Delivery)
    requires d in ScanDue(w, order) && d.reminder.kind == Kind.Feeding
    ensures d.reminder.ref !in w.fedToday
    ensures d.reminder.slot in FeedingSlots
  {
    ScanDueIff(w, order, d);
    var u := d.reminder.user;
    var c := ClockOf(w, w.timezones[u]);
    var p :| p in w.pets && p.owner == u && (MedicationEligible(w, u, c, p, d) || FeedingEligible(w, u, p, d));
    if MedicationEligible(w, u, c, p, d) {
      assert false;
    }
  }

  /** Only users listed in the zone table are served; the others are skipped. */
  lemma UnknownUsersSkipped(w: World, order: seq<UserId>, d: Delivery)
    requires d in ScanDue(w, order)
    ensures d.reminder.user in w.timezones
  {
    ScanDueIff(w, order, d);
  }

  /** A user whose zone name does not resolve is served on the UTC clock. */
  lemma UnresolvedZoneUsesUtc(w: World, u: UserId, d: Delivery)
    requires u in w.timezones && w.timezones[u] !in w.zones
    ensures Eligible(w, u, d) ==> IsTimeDue(w.utc.time, d.reminder.slot)
  {
  }

  // ---------------------------------------------------------------- one scan

  /** Soundness: one scan sends only reminders that are due and whose keys were
      not in today's bucket, never two with the same key, and leaves every sent
      key in the bucket. */
  lemma ScanSound(ledger: Buckets, conns: Registry.Connections, w: World, order: seq<UserId>,
                  broken: set<Registry.Conn>)
    ensures forall i :: 0 <= i < |Scan(ledger, conns, w, order, broken).sent| ==>
      && Scan(ledger, conns, w, order, broken).sent[i] in ScanDue(w, order)
      && !WasSentIn(ledger, w.utc.date, NotificationKey(Scan(ledger, conns, w, order, broken).sent[i].reminder))
      && WasSentIn(Scan(ledger, conns, w, order, broken).ledger, w.utc.date,
                   NotificationKey(Scan(ledger, conns, w, order, broken).sent[i].reminder))
    ensures forall i, j :: 0 <= i < j < |Scan(ledger, conns, w, order, broken).sent| ==>
      Scan(ledger, conns, w, order, broken).sent[i].reminder != Scan(ledger, conns, w, order, broken).sent[j].reminder
  {
    var due, day := ScanDue(w, order), w.utc.date;
    EmitSentDueAndFresh(ledger, conns, due, day, broken);
    EmitSentMarked(ledger, conns, due, day, broken);
    EmitSentDistinct(ledger, conns, due, day, broken);
  }

  /** Completeness: every reminder the scan finds due ends up in today's bucket,
      and one whose key was not there before is sent by this scan. */
  lemma ScanComplete(ledger: Buckets, conns: Registry.Connections, w: World, order: seq<UserId>,
                     broken: set<Registry.Conn>, d: Delivery)
    requires d in ScanDue(w, order)
    ensures WasSentIn(Scan(ledger, conns, w, order, broken).ledger, w.utc.date, NotificationKey(d.reminder))
    ensures !WasSentIn(ledger, w.utc.date, NotificationKey(d.reminder)) ==>
      exists i :: 0 <= i < |Scan(ledger, conns, w, order, broken).sent|
        && Scan(ledger, conns, w, order, broken).sent[i].reminder == d.reminder
  {
    var due, day := ScanDue(w, order), w.utc.date;
    var e := Scan(ledger, conns, w, order, broken);
    EmitMarksDue(Emitted([], ledger, conns), due, day, broken);
    EmitNewKeysSent(ledger, conns, due, day, broken);
    if !WasSentIn(ledger, day, NotificationKey(d.reminder)) {
      var i :| 0 <= i < |e.sent| && NotificationKey(e.sent[i].reminder) == NotificationKey(d.reminder);
      NotificationKeyInjective(e.sent[i].reminder, d.reminder);
    }
  }

  /** A second scan on the same UTC day, from the ledger the first one left,
      does not resend anything the first one sent. */
  lemma ScanTwiceSameDay(ledger: Buckets, conns: Registry.Connections, w1: World, w2: World,
                         order1: seq<UserId>, order2: seq<UserId>, broken: set<Registry.Conn>)
    requires w1.utc.date == w2.utc.date
    ensures var first := Scan(ledger, conns, w1, order1, broken);
      forall i, j :: 0 <= i < |first.sent| && 0 <= j < |Scan(first.ledger, first.conns, w2, order2, broken).sent| ==>
        first.sent[i].reminder != Scan(first.ledger, first.conns, w2, order2, broken).sent[j].reminder
  {
    var first := Scan(ledger, conns, w1, order1, broken);
    ScanSound(ledger, conns, w1, order1, broken);
    ScanSound(first.ledger, first.conns, w2, order2, broken);
  }

  /** The registry after a scan: the failing connections of exactly the users
      something was sent to are gone, and every user entry stays. */
  lemma ScanPrunes(ledger: Buckets, conns: Registry.Connections, w: World, order: seq<UserId>,
                   broken: set<Registry.Conn>)
    ensures Scan(ledger, conns, w, order, broken).conns
         == Registry.PrunedAll(conns, Registry.Members(Recipients(Scan(ledger, conns, w, order, broken).sent)), broken)
    ensures Scan(ledger, conns, w, order, broken).conns.Keys == conns.Keys
  {
    EmitPrunes(ledger, conns, ScanDue(w, order), w.utc.date, broken);
    Registry.PrunedSeqIsPrunedAll(conns, Recipients(Scan(ledger, conns, w, order, broken).sent), broken);
  }

  /** With nobody connected the scan sends nothing and changes nothing. */
  lemma ScanOfNobody(ledger: Buckets, conns: Registry.Connections, w: World, broken: set<Registry.Conn>)
    ensures Scan(ledger, conns, w, [], broken) == Emitted([], ledger, conns)
  {
  }

  // ---------------------------------------------------------------- any number of scans

  /** One scan of the periodic loop: the world it reads, the order in which
      it visits the connected users, and the connections whose sends fail
      during that scan. */
  datatype Round = Round(w: World, order: seq<UserId>, broken: set<Registry.Conn>)

  /** A reminder as sent, with the UTC day of the scan that sent it. */
  datatype Stamped = Stamped(delivery: Delivery, day: Day)

  /** The ledger and registry after some scans, and every send so far. */
  datatype History = History(ledger: Buckets, conns: Registry.Connections, log: seq<Stamped>)

  function Stamp(sent: seq<Delivery>, day: Day): (r: seq<Stamped>)
    ensures |r| == |sent|
    ensures forall i :: 0 <= i < |r| ==> r[i] == Stamped(sent[i], day)
  {
    seq(|sent|, i requires 0 <= i < |sent| => Stamped(sent[i], day))
  }

  /** The history after a run of the protocol over `due` on UTC day `day`. */
  function After(h: History, due: seq<Delivery>, day: Day, broken: set<Registry.Conn>): History {
    var e := Emit(Emitted([], h.ledger, h.conns), due, day, broken);
    History(e.ledger, e.conns, h.log + Stamp(e.sent, day))
  }

  /** One more scan after history `h`. */
  function Next(h: History, r: Round): History {
    After(h, ScanDue(r.w, r.order), r.w.utc.date, r.broken)
  }

  /** The scans `rounds`, in order, from ledger `ledger` and registry `conns`. */
  function Replay(ledger: Buckets, conns: Registry.Connections, rounds: seq<Round>): History
    decreases |rounds|
  {
    if rounds == [] then History(ledger, conns, [])
    else Next(Replay(ledger, conns, rounds[..|rounds| - 1]), rounds[|rounds| - 1])
  }

  /** No reminder was sent twice on one UTC day. */
  ghost predicate NoRepeat(log: seq<Stamped>) {
    forall i, j :: 0 <= i < j < |log| && log[i].day == log[j].day ==>
      log[i].delivery.reminder != log[j].delivery.reminder
  }

  /** The ledger explains the log up to day `today`: it holds one day at most,
      no send is later than `today`, and every send of `today` is recorded. */
  ghost predicate Recorded(h: History, today: Day) {
    && AtMostOneDay(h.ledger)
    && (forall i :: 0 <= i < |h.log| ==> h.log[i].day <= today)
    && (forall i :: 0 <= i < |h.log| && h.log[i].day == today ==>
          WasSentIn(h.ledger, today, NotificationKey(h.log[i].delivery.reminder)))
  }

  lemma AfterRecorded(h: History, today: Day, due: seq<Delivery>, day: Day, broken: set<Registry.Conn>)
    requires Recorded(h, today) && today <= day
    ensures Recorded(After(h, due, day, broken), day)
  {
    var e := Emit(Emitted([], h.ledger, h.conns), due, day, broken);
    EmitKeepsOneDay(Emitted([], h.ledger, h.conns), due, day, broken);
    EmitGrows(Emitted([], h.ledger, h.conns), due, day, broken);
    EmitSentMarked(h.ledger, h.conns, due, day, broken);
    LogRecorded(h.log, h.ledger, today, e.sent, e.ledger, day);
  }

  /** The earlier sends stay recorded in a ledger that only grew, and the new
      sends of day `day` are recorded in it. */
  lemma LogRecorded(log: seq<Stamped>, ledger: Buckets, today: Day, sent: seq<Delivery>, ledger': Buckets, day: Day)
    requires today <= day
    requires forall i :: 0 <= i < |log| ==> log[i].day <= today
    requires forall i :: 0 <= i < |log| && log[i].day == today ==>
      WasSentIn(ledger, today, NotificationKey(log[i].delivery.reminder))
    requires forall k :: WasSentIn(ledger, day, k) ==> WasSentIn(ledger', day, k)
    requires forall i :: 0 <= i < |sent| ==> WasSentIn(ledger', day, NotificationKey(sent[i].reminder))
    ensures forall i :: 0 <= i < |log + Stamp(sent, day)| ==> (log + Stamp(sent, day))[i].day <= day
    ensures forall i :: 0 <= i < |log + Stamp(sent, day)| && (log + Stamp(sent, day))[i].day == day ==>
      WasSentIn(ledger', day, NotificationKey((log + Stamp(sent, day))[i].delivery.reminder))
  {
    var all := log + Stamp(sent, day);
    forall i | 0 <= i < |all|
      ensures all[i].day <= day
      ensures all[i].day == day ==> WasSentIn(ledger', day, NotificationKey(all[i].delivery.reminder))
    {
      if i < |log| {
        assert all[i] == log[i];
      } else {
        assert all[i] == Stamped(sent[i - |log|], day);
      }
    }
  }

  lemma NoRepeatAppend(a: seq<Stamped>, b: seq<Stamped>)
    requires NoRepeat(a) && NoRepeat(b)
    requires forall i, j :: 0 <= i < |a| && 0 <= j < |b| && a[i].day == b[j].day ==>
      a[i].delivery.reminder != b[j].delivery.reminder
    ensures NoRepeat(a + b)
  {
    var c := a + b;
    forall i, j | 0 <= i < j < |c| && c[i].day == c[j].day
      ensures c[i].delivery.reminder != c[j].delivery.reminder
    {
      if j < |a| {
        assert c[i] == a[i] && c[j] == a[j];
      } else if i < |a| {
        assert c[i] == a[i] && c[j] == b[j - |a|];
      } else {
        assert c[i] == b[i - |a|] && c[j] == b[j - |a|];
      }
    }
  }

  lemma AfterNoRepeat(h: History, today: Day, due: seq<Delivery>, day: Day, broken: set<Registry.Conn>)
    requires Recorded(h, today) && NoRepeat(h.log) && today <= day
    ensures NoRepeat(After(h, due, day, broken).log)
  {
    var e := Emit(Emitted([], h.ledger, h.conns), due, day, broken);
    var newer := Stamp(e.sent, day);
    EmitSentDueAndFresh(h.ledger, h.conns, due, day, broken);
    EmitSentDistinct(h.ledger, h.conns, due, day, broken);
    forall i, j | 0 <= i < j < |newer| ensures newer[i].delivery.reminder != newer[j].delivery.reminder {
      assert NotificationKey(e.sent[i].reminder) != NotificationKey(e.sent[j].reminder);
    }
    forall i, j | 0 <= i < |h.log| && 0 <= j < |newer| && h.log[i].day == newer[j].day
      ensures h.log[i].delivery.reminder != newer[j].delivery.reminder
    {
      assert WasSentIn(h.ledger, day, NotificationKey(h.log[i].delivery.reminder));
      assert !WasSentIn(h.ledger, day, NotificationKey(e.sent[j].reminder));
    }
    NoRepeatAppend(h.log, newer);
  }

  lemma {:induction false} ReplayRecorded(ledger: Buckets, conns: Registry.Connections, rounds: seq<Round>)
    requires AtMostOneDay(ledger)
    requires rounds != []
    requires forall i, j :: 0 <= i < j < |rounds| ==> rounds[i].w.utc.date <= rounds[j].w.utc.date
    ensures Recorded(Replay(ledger, conns, rounds), rounds[|rounds| - 1].w.utc.date)
    ensures NoRepeat(Replay(ledger, conns, rounds).log)
    decreases |rounds|
  {
    var pre, r := rounds[..|rounds| - 1], rounds[|rounds| - 1];
    if pre == [] {
      var h := History(ledger, conns, []);
      assert Recorded(h, r.w.utc.date);
      AfterRecorded(h, r.w.utc.date, ScanDue(r.w, r.order), r.w.utc.date, r.broken);
      AfterNoRepeat(h, r.w.utc.date, ScanDue(r.w, r.order), r.w.utc.date, r.broken);
    } else {
      ReplayRecorded(ledger, conns, pre);
      var h := Replay(ledger, conns, pre);
      var today := pre[|pre| - 1].w.utc.date;
      assert today <= r.w.utc.date by {
        assert pre[|pre| - 1] == rounds[|pre| - 1];
      }
      AfterRecorded(h, today, ScanDue(r.w, r.order), r.w.utc.date, r.broken);
      AfterNoRepeat(h, today, ScanDue(r.w, r.order), r.w.utc.date, r.broken);
    }
  }

  /** At-most-once delivery: over any number of scans whose UTC days never go
      back, starting from an empty ledger, no reminder (user, kind, subject,
      slot) is sent twice on the same UTC day. */
  lemma AtMostOncePerDay(conns: Registry.Connections, rounds: seq<Round>)
    requires forall i, j :: 0 <= i < j < |rounds| ==> rounds[i].w.utc.date <= rounds[j].w.utc.date
    ensures NoRepeat(Replay(map[], conns, rounds).log)
  {
    if rounds != [] {
      ReplayRecorded(map[], conns, rounds);
    }
  }
}
