/** The reminder scan (`_check_reminders`, `_check_medications`,
    `_check_feeding`): one pass over the connected users that sends every
    medication and feeding reminder that is due and not yet in the ledger,
    marking each right after sending it.

    The database, the zone database and the clock are inputs (`World`): the
    users' time-zone names, the local reading ("HH:MM" and date) of the current
    instant in each zone the zone database resolves, the UTC reading, the pet
    and medication tables, and the pets that have a feeding log inside today's
    UTC window. A send "fails" on the connections of the set `broken`. */
module Scanner {
  import opened Wrappers
  import opened Dedup
  import opened DueWindow
  import Registry

  datatype Pet = Pet(id: int, owner: UserId, name: string)

  datatype Medication = Medication(
    id: int, petId: int, name: string, dosage: string,
    startDate: Day, endDate: Option<Day>, timesOfDay: Option<seq<string>>)

  /** The current instant as read in one zone: `strftime("%H:%M")` and `date()`. */
  datatype LocalClock = LocalClock(time: string, date: Day)

  datatype World = World(
    timezones: map<UserId, string>,
    zones: map<string, LocalClock>,
    utc: LocalClock,
    pets: seq<Pet>,
    medications: seq<Medication>,
    fedToday: set<int>)

  /** The two outbound reminder payloads. */
  datatype Message =
    | MedicationReminder(petId: int, petName: string, medicationName: string, dosage: string, scheduledTime: string)
    | FeedingReminder(petId: int, petName: string, scheduledTime: string)

  /** One `send_to_user` call of the scan: which reminder, and what was sent. */
  datatype Delivery = Delivery(reminder: Reminder, message: Message)

  const FeedingSlots: seq<string> := ["08:00", "13:00", "19:00"]

  // ---------------------------------------------------------------- the queries

  /** `ZoneInfo(user.timezone)`, falling back to UTC when the name does not resolve. */
  function ClockOf(w: World, tz: string): (c: LocalClock)
    ensures tz !in w.zones ==> c == w.utc
  {
    if tz in w.zones then w.zones[tz] else w.utc
  }

  /** `select(Pet).where(Pet.user_id == user_id)`, in table order. */
  function PetsOf(pets: seq<Pet>, u: UserId): seq<Pet>
    decreases |pets|
  {
    if pets == [] then []
    else
      var last := pets[|pets| - 1];
      PetsOf(pets[..|pets| - 1], u) + (if last.owner == u then [last] else [])
  }

  /** "Active medication": started on or before the local date, and not ended before it. */
  predicate IsActive(m: Medication, today: Day) {
    m.startDate <= today && (m.endDate.None? || m.endDate.value >= today)
  }

  /** The medication query of `_check_medications`, in table order. */
  function ActiveMedications(meds: seq<Medication>, petId: int, today: Day): seq<Medication>
    decreases |meds|
  {
    if meds == [] then []
    else
      var last := meds[|meds| - 1];
      ActiveMedications(meds[..|meds| - 1], petId, today)
        + (if last.petId == petId && IsActive(last, today) then [last] else [])
  }

  /** `med.times_of_day`, where a null list has no slots. */
  function SlotsOf(m: Medication): seq<string> {
    match m.timesOfDay
    case None => []
    case Some(s) => s
  }

  function MedicationDelivery(u: UserId, pet: Pet, med: Medication, slot: string): Delivery {
    Delivery(Reminder(u, Kind.Medication, med.id, slot),
             MedicationReminder(pet.id, pet.name, med.name, med.dosage, slot))
  }

  function FeedingDelivery(u: UserId, pet: Pet, slot: string): Delivery {
    Delivery(Reminder(u, Kind.Feeding, pet.id, slot), FeedingReminder(pet.id, pet.name, slot))
  }

  // ---------------------------------------------------------------- what is due, in scan order

  /** The due slots of one medication. */
  function MedicationSlots(u: UserId, pet: Pet, med: Medication, time: string, slots: seq<string>): seq<Delivery>
    decreases |slots|
  {
    if slots == [] then []
    else
      var slot := slots[|slots| - 1];
      MedicationSlots(u, pet, med, time, slots[..|slots| - 1])
        + (if IsTimeDue(time, slot) then [MedicationDelivery(u, pet, med, slot)] else [])
  }

  /** The due medication reminders of one pet. */
  function MedicationsDue(u: UserId, pet: Pet, time: string, meds: seq<Medication>): seq<Delivery>
    decreases |meds|
  {
    if meds == [] then []
    else
      var m := meds[|meds| - 1];
      MedicationsDue(u, pet, time, meds[..|meds| - 1]) + MedicationSlots(u, pet, m, time, SlotsOf(m))
  }

  /** The due feeding slots of one pet. */
  function FeedingSlotsDue(u: UserId, pet: Pet, time: string, slots: seq<string>): seq<Delivery>
    decreases |slots|
  {
    if slots == [] then []
    else
      var slot := slots[|slots| - 1];
      FeedingSlotsDue(u, pet, time, slots[..|slots| - 1])
        + (if IsTimeDue(time, slot) then [FeedingDelivery(u, pet, slot)] else [])
  }

  /** `_check_feeding`'s candidates: none once the pet has been fed today. */
  function FeedingDue(u: UserId, pet: Pet, time: string, fed: bool): seq<Delivery> {
    if fed then [] else FeedingSlotsDue(u, pet, time, FeedingSlots)
  }

  /** Medications first, then feeding, as `_check_reminders` calls them per pet. */
  function PetDue(w: World, u: UserId, clock: LocalClock, pet: Pet): seq<Delivery> {
    MedicationsDue(u, pet, clock.time, ActiveMedications(w.medications, pet.id, clock.date))
      + FeedingDue(u, pet, clock.time, pet.id in w.fedToday)
  }

  function PetsDue(w: World, u: UserId, clock: LocalClock, pets: seq<Pet>): seq<Delivery>
    decreases |pets|
  {
    if pets == [] then []
    else
      var p := pets[|pets| - 1];
      PetsDue(w, u, clock, pets[..|pets| - 1]) + PetDue(w, u, clock, p)
  }

  /** One user's due reminders: none when the user record is missing. */
  function UserDue(w: World, u: UserId): seq<Delivery> {
    if u !in w.timezones then []
    else PetsDue(w, u, ClockOf(w, w.timezones[u]), PetsOf(w.pets, u))
  }

  /** Every reminder the scan finds due, users in the order visited. */
  function ScanDue(w: World, order: seq<UserId>): seq<Delivery>
    decreases |order|
  {
    if order == [] then []
    else
      var u := order[|order| - 1];
      ScanDue(w, order[..|order| - 1]) + UserDue(w, u)
  }

  // ---------------------------------------------------------------- the due lists, one element at a time

  lemma MedicationSlotsSnoc(u: UserId, pet: Pet, med: Medication, time: string, slots: seq<string>, j: nat)
    requires j < |slots|
    ensures MedicationSlots(u, pet, med, time, slots[..j + 1])
         == MedicationSlots(u, pet, med, time, slots[..j])
          + (if IsTimeDue(time, slots[j]) then [MedicationDelivery(u, pet, med, slots[j])] else [])
  {
    assert slots[..j + 1][..j] == slots[..j];
  }

  lemma FeedingSlotsDueSnoc(u: UserId, pet: Pet, time: string, slots: seq<string>, j: nat)
    requires j < |slots|
    ensures FeedingSlotsDue(u, pet, time, slots[..j + 1])
         == FeedingSlotsDue(u, pet, time, slots[..j])
          + (if IsTimeDue(time, slots[j]) then [FeedingDelivery(u, pet, slots[j])] else [])
  {
    assert slots[..j + 1][..j] == slots[..j];
  }

  lemma MedicationsDueSnoc(u: UserId, pet: Pet, time: string, meds: seq<Medication>, i: nat)
    requires i < |meds|
    ensures MedicationsDue(u, pet, time, meds[..i + 1])
         == MedicationsDue(u, pet, time, meds[..i]) + MedicationSlots(u, pet, meds[i], time, SlotsOf(meds[i]))
  {
    assert meds[..i + 1][..i] == meds[..i];
  }

  lemma PetsDueSnoc(w: World, u: UserId, clock: LocalClock, pets: seq<Pet>, k: nat)
    requires k < |pets|
    ensures PetsDue(w, u, clock, pets[..k + 1]) == PetsDue(w, u, clock, pets[..k]) + PetDue(w, u, clock, pets[k])
  {
    assert pets[..k + 1][..k] == pets[..k];
  }

  lemma ScanDueSnoc(w: World, order: seq<UserId>, u: UserId)
    ensures ScanDue(w, order + [u]) == ScanDue(w, order) + UserDue(w, u)
  {
    assert (order + [u])[..|order|] == order;
  }

  // ---------------------------------------------------------------- membership of the due lists

  lemma LastSplit<T>(s: seq<T>)
    requires s != []
    ensures forall x :: x in s <==> x in s[..|s| - 1] || x == s[|s| - 1]
  {
    assert s == s[..|s| - 1] + [s[|s| - 1]];
  }

  lemma {:induction false} PetsOfMembers(pets: seq<Pet>, u: UserId)
    ensures forall p :: p in PetsOf(pets, u) <==> p in pets && p.owner == u
    decreases |pets|
  {
    if pets != [] {
      PetsOfMembers(pets[..|pets| - 1], u);
      LastSplit(pets);
    }
  }

  lemma {:induction false} ActiveMedicationsMembers(meds: seq<Medication>, petId: int, today: Day)
    ensures forall m :: m in ActiveMedications(meds, petId, today) <==>
      m in meds && m.petId == petId && IsActive(m, today)
    decreases |meds|
  {
    if meds != [] {
      ActiveMedicationsMembers(meds[..|meds| - 1], petId, today);
      LastSplit(meds);
    }
  }

  lemma {:induction false} MedicationSlotsMembers(u: UserId, pet: Pet, med: Medication, time: string, slots: seq<string>)
    ensures forall d :: d in MedicationSlots(u, pet, med, time, slots) <==>
      d.reminder.slot in slots && IsTimeDue(time, d.reminder.slot) && d == MedicationDelivery(u, pet, med, d.reminder.slot)
    decreases |slots|
  {
    if slots != [] {
      MedicationSlotsMembers(u, pet, med, time, slots[..|slots| - 1]);
      LastSplit(slots);
    }
  }

  lemma {:induction false} MedicationsDueMembers(u: UserId, pet: Pet, time: string, meds: seq<Medication>)
    ensures forall d :: d in MedicationsDue(u, pet, time, meds) <==>
      exists m :: m in meds && d in MedicationSlots(u, pet, m, time, SlotsOf(m))
    decreases |meds|
  {
    if meds != [] {
      MedicationsDueMembers(u, pet, time, meds[..|meds| - 1]);
      LastSplit(meds);
    }
  }

  lemma {:induction false} FeedingSlotsDueMembers(u: UserId, pet: Pet, time: string, slots: seq<string>)
    ensures forall d :: d in FeedingSlotsDue(u, pet, time, slots) <==>
      d.reminder.slot in slots && IsTimeDue(time, d.reminder.slot) && d == FeedingDelivery(u, pet, d.reminder.slot)
    decreases |slots|
  {
    if slots != [] {
      FeedingSlotsDueMembers(u, pet, time, slots[..|slots| - 1]);
      LastSplit(slots);
    }
  }

  lemma {:induction false} PetsDueMembers(w: World, u: UserId, clock: LocalClock, pets: seq<Pet>)
    ensures forall d :: d in PetsDue(w, u, clock, pets) <==> exists p :: p in pets && d in PetDue(w, u, clock, p)
    decreases |pets|
  {
    if pets != [] {
      PetsDueMembers(w, u, clock, pets[..|pets| - 1]);
      LastSplit(pets);
    }
  }

  lemma {:induction false} ScanDueMembers(w: World, order: seq<UserId>)
    ensures forall d :: d in ScanDue(w, order) <==> exists u :: u in order && d in UserDue(w, u)
    decreases |order|
  {
    if order != [] {
      ScanDueMembers(w, order[..|order| - 1]);
      LastSplit(order);
    }
  }

  // ---------------------------------------------------------------- send-and-mark against the ledger

  /** The state the scan changes: what was sent, the ledger, and the registry. */
  datatype Emitted = Emitted(sent: seq<Delivery>, ledger: Buckets, conns: Registry.Connections)

  /** The imperative state (sent so far, the ledger, the registry) agrees with `e`. */
  predicate Tracks(sent: seq<Delivery>, ledger: Buckets, conns: Registry.Connections, e: Emitted) {
    sent == e.sent && ledger == e.ledger && conns == e.conns
  }

  /** The protocol for one due reminder: skip it when its key is in today's
      bucket, otherwise send it (the user's failing connections leave the
      registry) and mark it. */
  function EmitOne(e: Emitted, d: Delivery, day: Day, broken: set<Registry.Conn>): Emitted {
    var key := NotificationKey(d.reminder);
    if WasSentIn(e.ledger, day, key) then e
    else Emitted(e.sent + [d], Marked(e.ledger, day, key), Registry.Pruned(e.conns, d.reminder.user, broken))
  }

  function Emit(e: Emitted, due: seq<Delivery>, day: Day, broken: set<Registry.Conn>): Emitted
    decreases |due|
  {
    if due == [] then e
    else EmitOne(Emit(e, due[..|due| - 1], day, broken), due[|due| - 1], day, broken)
  }

  /** One scan from ledger `ledger` and registry `conns`, visiting users in `order`. */
  function Scan(ledger: Buckets, conns: Registry.Connections, w: World, order: seq<UserId>,
                broken: set<Registry.Conn>): Emitted {
    Emit(Emitted([], ledger, conns), ScanDue(w, order), w.utc.date, broken)
  }

  lemma EmitExtend(e: Emitted, due: seq<Delivery>, d: Delivery, day: Day, broken: set<Registry.Conn>)
    ensures Emit(e, due + [d], day, broken) == EmitOne(Emit(e, due, day, broken), d, day, broken)
  {
    assert (due + [d])[..|due|] == due;
  }

  lemma {:induction false} EmitAppend(e: Emitted, a: seq<Delivery>, b: seq<Delivery>, day: Day, broken: set<Registry.Conn>)
    ensures Emit(e, a + b, day, broken) == Emit(Emit(e, a, day, broken), b, day, broken)
    decreases |b|
  {
    if b == [] {
      assert a + b == a;
    } else {
      var b0 := b[..|b| - 1];
      assert a + b == (a + b0) + [b[|b| - 1]];
      EmitExtend(e, a + b0, b[|b| - 1], day, broken);
      EmitAppend(e, a, b0, day, broken);
    }
  }

  /** What was sent before does not influence what is sent next. */
  lemma {:induction false} EmitShift(sent: seq<Delivery>, ledger: Buckets, conns: Registry.Connections,
                                     due: seq<Delivery>, day: Day, broken: set<Registry.Conn>)
    ensures var e := Emit(Emitted([], ledger, conns), due, day, broken);
      Emit(Emitted(sent, ledger, conns), due, day, broken) == Emitted(sent + e.sent, e.ledger, e.conns)
    decreases |due|
  {
    if due == [] {
      assert sent + [] == sent;
    } else {
      EmitShift(sent, ledger, conns, due[..|due| - 1], day, broken);
      var e := Emit(Emitted([], ledger, conns), due[..|due| - 1], day, broken);
      assert sent + (e.sent + [due[|due| - 1]]) == (sent + e.sent) + [due[|due| - 1]];
    }
  }

  /** One step of the protocol keeps every key of today's bucket and leaves the
      reminder's own key in it, whether it was sent or skipped. */
  lemma EmitOneMarks(e: Emitted, d: Delivery, day: Day, broken: set<Registry.Conn>)
    ensures forall k :: WasSentIn(e.ledger, day, k) ==> WasSentIn(EmitOne(e, d, day, broken).ledger, day, k)
    ensures WasSentIn(EmitOne(e, d, day, broken).ledger, day, NotificationKey(d.reminder))
    ensures forall k :: WasSentIn(EmitOne(e, d, day, broken).ledger, day, k) ==>
      WasSentIn(e.ledger, day, k) || k == NotificationKey(d.reminder)
  {
    var key := NotificationKey(d.reminder);
    if !WasSentIn(e.ledger, day, key) {
      forall k ensures WasSentIn(Marked(e.ledger, day, key), day, k) <==> k == key || WasSentIn(e.ledger, day, k) {
        MarkedSameDay(e.ledger, day, key, k);
      }
    }
  }

  /** The bucket of today only grows during a scan. */
  lemma {:induction false} EmitGrows(e: Emitted, due: seq<Delivery>, day: Day, broken: set<Registry.Conn>)
    ensures forall k :: WasSentIn(e.ledger, day, k) ==> WasSentIn(Emit(e, due, day, broken).ledger, day, k)
    decreases |due|
  {
    if due != [] {
      EmitGrows(e, due[..|due| - 1], day, broken);
      EmitOneMarks(Emit(e, due[..|due| - 1], day, broken), due[|due| - 1], day, broken);
    }
  }

  /** Afterwards every due reminder's key is in today's bucket: nothing due is
      left unsent and unrecorded. */
  lemma {:induction false} EmitMarksDue(e: Emitted, due: seq<Delivery>, day: Day, broken: set<Registry.Conn>)
    ensures forall d :: d in due ==> WasSentIn(Emit(e, due, day, broken).ledger, day, NotificationKey(d.reminder))
    decreases |due|
  {
    if due != [] {
      var pre, d := due[..|due| - 1], due[|due| - 1];
      assert due == pre + [d];
      EmitMarksDue(e, pre, day, broken);
      EmitOneMarks(Emit(e, pre, day, broken), d, day, broken);
    }
  }

  /** A key is new in the bucket only if a reminder with that key was sent. */
  lemma {:induction false} EmitNewKeysSent(ledger: Buckets, conns: Registry.Connections, due: seq<Delivery>,
                                           day: Day, broken: set<Registry.Conn>)
    ensures var e := Emit(Emitted([], ledger, conns), due, day, broken);
      forall k :: WasSentIn(e.ledger, day, k) ==>
        WasSentIn(ledger, day, k) || exists i :: 0 <= i < |e.sent| && NotificationKey(e.sent[i].reminder) == k
    decreases |due|
  {
    if due != [] {
      var pre, d := due[..|due| - 1], due[|due| - 1];
      EmitNewKeysSent(ledger, conns, pre, day, broken);
      var e := Emit(Emitted([], ledger, conns), pre, day, broken);
      var e' := EmitOne(e, d, day, broken);
      EmitOneMarks(e, d, day, broken);
      forall k | WasSentIn(e'.ledger, day, k)
        ensures WasSentIn(ledger, day, k) || exists i :: 0 <= i < |e'.sent| && NotificationKey(e'.sent[i].reminder) == k
      {
        if WasSentIn(e.ledger, day, k) {
          if !WasSentIn(ledger, day, k) {
            var i :| 0 <= i < |e.sent| && NotificationKey(e.sent[i].reminder) == k;
            assert e'.sent[i] == e.sent[i];
          }
        } else {
          assert e'.sent == e.sent + [d];
          assert NotificationKey(e'.sent[|e.sent|].reminder) == k;
        }
      }
    }
  }

  /** What a run of the protocol sends was due, and its key was not in today's
      bucket before the run. */
  lemma {:induction false} EmitSentDueAndFresh(ledger: Buckets, conns: Registry.Connections, due: seq<Delivery>,
                                               day: Day, broken: set<Registry.Conn>)
    ensures forall i :: 0 <= i < |Emit(Emitted([], ledger, conns), due, day, broken).sent| ==>
      Emit(Emitted([], ledger, conns), due, day, broken).sent[i] in due && !WasSentIn(ledger, day, NotificationKey(Emit(Emitted([], ledger, conns), due, day, broken).sent[i].reminder))
    decreases |due|
  {
    if due != [] {
      var pre, d := due[..|due| - 1], due[|due| - 1];
      assert due == pre + [d];
      EmitSentDueAndFresh(ledger, conns, pre, day, broken);
      var e := Emit(Emitted([], ledger, conns), pre, day, broken);
      EmitGrows(Emitted([], ledger, conns), pre, day, broken);
      var e' := EmitOne(e, d, day, broken);
      forall i | 0 <= i < |e'.sent|
        ensures e'.sent[i] in due && !WasSentIn(ledger, day, NotificationKey(e'.sent[i].reminder))
      {
        if i < |e.sent| {
          assert e'.sent[i] == e.sent[i];
        }
      }
    }
  }

  /** Everything a run of the protocol sends has its key in today's bucket afterwards. */
  lemma {:induction false} EmitSentMarked(ledger: Buckets, conns: Registry.Connections, due: seq<Delivery>,
                                          day: Day, broken: set<Registry.Conn>)
    ensures forall i :: 0 <= i < |Emit(Emitted([], ledger, conns), due, day, broken).sent| ==>
      WasSentIn(Emit(Emitted([], ledger, conns), due, day, broken).ledger, day, NotificationKey(Emit(Emitted([], ledger, conns), due, day, broken).sent[i].reminder))
    decreases |due|
  {
    if due != [] {
      var pre, d := due[..|due| - 1], due[|due| - 1];
      EmitSentMarked(ledger, conns, pre, day, broken);
      var e := Emit(Emitted([], ledger, conns), pre, day, broken);
      EmitOneMarks(e, d, day, broken);
      var e' := EmitOne(e, d, day, broken);
      forall i | 0 <= i < |e'.sent| ensures WasSentIn(e'.ledger, day, NotificationKey(e'.sent[i].reminder)) {
        if i < |e.sent| {
          assert e'.sent[i] == e.sent[i];
          assert WasSentIn(e.ledger, day, NotificationKey(e.sent[i].reminder));
        }
      }
    }
  }

  /** A run of the protocol never sends two reminders with the same key. */
  lemma {:induction false} EmitSentDistinct(ledger: Buckets, conns: Registry.Connections, due: seq<Delivery>,
                                            day: Day, broken: set<Registry.Conn>)
    ensures forall i, j :: 0 <= i < j < |Emit(Emitted([], ledger, conns), due, day, broken).sent| ==>
      NotificationKey(Emit(Emitted([], ledger, conns), due, day, broken).sent[i].reminder) != NotificationKey(Emit(Emitted([], ledger, conns), due, day, broken).sent[j].reminder)
    decreases |due|
  {
    if due != [] {
      var pre, d := due[..|due| - 1], due[|due| - 1];
      EmitSentDistinct(ledger, conns, pre, day, broken);
      EmitSentMarked(ledger, conns, pre, day, broken);
      var e := Emit(Emitted([], ledger, conns), pre, day, broken);
      var key := NotificationKey(d.reminder);
      if !WasSentIn(e.ledger, day, key) {
        var e' := EmitOne(e, d, day, broken);
        forall i, j | 0 <= i < j < |e'.sent|
          ensures NotificationKey(e'.sent[i].reminder) != NotificationKey(e'.sent[j].reminder)
        {
          assert e'.sent[i] == e.sent[i];
          if j == |e.sent| {
            assert WasSentIn(e.ledger, day, NotificationKey(e.sent[i].reminder));
          } else {
            assert e'.sent[j] == e.sent[j];
          }
        }
      }
    }
  }

  /** The protocol keeps the ledger's one-day shape. */
  lemma {:induction false} EmitKeepsOneDay(e: Emitted, due: seq<Delivery>, day: Day, broken: set<Registry.Conn>)
    requires AtMostOneDay(e.ledger)
    ensures AtMostOneDay(Emit(e, due, day, broken).ledger)
    decreases |due|
  {
    if due != [] {
      var pre, d := due[..|due| - 1], due[|due| - 1];
      EmitKeepsOneDay(e, pre, day, broken);
      var m := Emit(e, pre, day, broken).ledger;
      var key := NotificationKey(d.reminder);
      if !WasSentIn(m, day, key) {
        forall x, y | x in Marked(m, day, key) && y in Marked(m, day, key) ensures x == y {
          if day !in m {
            MarkedNewDayDiscards(m, day, key);
          }
        }
      }
    }
  }

  /** The users of a run of deliveries, one per delivery, in order. */
  function Recipients(sent: seq<Delivery>): seq<UserId>
    decreases |sent|
  {
    if sent == [] then [] else Recipients(sent[..|sent| - 1]) + [sent[|sent| - 1].reminder.user]
  }

  lemma RecipientsSnoc(sent: seq<Delivery>, d: Delivery)
    ensures Recipients(sent + [d]) == Recipients(sent) + [d.reminder.user]
  {
    assert (sent + [d])[..|sent|] == sent;
  }

  /** The registry after a run of the protocol is the registry after one
      `send_to_user` per reminder sent, in the order sent. */
  lemma {:induction false} EmitPrunes(ledger: Buckets, conns: Registry.Connections, due: seq<Delivery>,
                                      day: Day, broken: set<Registry.Conn>)
    ensures var e := Emit(Emitted([], ledger, conns), due, day, broken);
      e.conns == Registry.PrunedSeq(conns, Recipients(e.sent), broken)
    decreases |due|
  {
    if due != [] {
      var pre, d := due[..|due| - 1], due[|due| - 1];
      EmitPrunes(ledger, conns, pre, day, broken);
      var e := Emit(Emitted([], ledger, conns), pre, day, broken);
      if !WasSentIn(e.ledger, day, NotificationKey(d.reminder)) {
        RecipientsSnoc(e.sent, d);
        Registry.PrunedSeqSnoc(conns, Recipients(e.sent), d.reminder.user, broken);
      }
    }
  }

  // ---------------------------------------------------------------- the scan as imperative code

  /** The `_was_sent` / `send_to_user` / `_mark_sent` step that both checks
      perform for a due reminder, against the abstract state `e`. */
  method SendAndMark(manager: Registry.ConnectionManager, ledger: SentLedger, d: Delivery, day: Day,
                     broken: set<Registry.Conn>, ghost e: Emitted)
    returns (delivered: bool)
    requires ledger.Valid() && ledger.sentToday == e.ledger && manager.connections == e.conns
    modifies manager, ledger
    ensures ledger.Valid()
    ensures delivered == !WasSentIn(old(ledger.sentToday), day, NotificationKey(d.reminder))
    ensures Tracks(if delivered then e.sent + [d] else e.sent, ledger.sentToday, manager.connections,
                   EmitOne(e, d, day, broken))
  {
    delivered := !ledger.WasSent(d.reminder, day);
    if delivered {
      var _ := manager.SendToUser(d.reminder.user, broken);
      ledger.MarkSent(d.reminder, day);
    }
  }

  /** The inner loop of `_check_medications`: the slots `slots` of one medication, in order. */
  method SendMedicationSlots(manager: Registry.ConnectionManager, ledger: SentLedger,
                             u: UserId, pet: Pet, med: Medication, slots: seq<string>, currentTime: string,
                             utcDay: Day, broken: set<Registry.Conn>)
    returns (sent: seq<Delivery>)
    requires ledger.Valid()
    modifies manager, ledger
    ensures ledger.Valid()
    ensures Tracks(sent, ledger.sentToday, manager.connections,
                   Emit(Emitted([], old(ledger.sentToday), old(manager.connections)),
                        MedicationSlots(u, pet, med, currentTime, slots), utcDay, broken))
  {
    ghost var start := Emitted([], ledger.sentToday, manager.connections);
    ghost var done: seq<Delivery> := [];
    sent := [];
    var j := 0;
    while j < |slots|
      invariant 0 <= j <= |slots|
      invariant ledger.Valid()
      invariant done == MedicationSlots(u, pet, med, currentTime, slots[..j])
      invariant Tracks(sent, ledger.sentToday, manager.connections, Emit(start, done, utcDay, broken))
    {
      var slot := slots[j];
      MedicationSlotsSnoc(u, pet, med, currentTime, slots, j);
      var d := MedicationDelivery(u, pet, med, slot);
      if IsTimeDue(currentTime, slot) {
        EmitExtend(start, done, d, utcDay, broken);
        var delivered := SendAndMark(manager, ledger, d, utcDay, broken, Emit(start, done, utcDay, broken));
        if delivered {
          sent := sent + [d];
        }
        done := done + [d];
      } else {
        assert done + [] == done;
      }
      j := j + 1;
    }
    assert slots[..j] == slots;
  }

  /** `_check_medications(db, user_id, pet, today, current_time)`; `utcDay` is
      the day `_today_key` reads. A medication without slots (`times_of_day`
      null or empty) is skipped. */
  method CheckMedications(manager: Registry.ConnectionManager, ledger: SentLedger,
                          medications: seq<Medication>, u: UserId, pet: Pet, today: Day,
                          currentTime: string, utcDay: Day, broken: set<Registry.Conn>)
    returns (sent: seq<Delivery>)
    requires ledger.Valid()
    modifies manager, ledger
    ensures ledger.Valid()
    ensures Tracks(sent, ledger.sentToday, manager.connections,
                   Emit(Emitted([], old(ledger.sentToday), old(manager.connections)),
                        MedicationsDue(u, pet, currentTime, ActiveMedications(medications, pet.id, today)),
                        utcDay, broken))
  {
    var result := ActiveMedications(medications, pet.id, today);
    ghost var start := Emitted([], ledger.sentToday, manager.connections);
    sent := [];
    var i := 0;
    while i < |result|
      invariant 0 <= i <= |result|
      invariant ledger.Valid()
      invariant Tracks(sent, ledger.sentToday, manager.connections,
                       Emit(start, MedicationsDue(u, pet, currentTime, result[..i]), utcDay, broken))
    {
      var med := result[i];
      MedicationsDueSnoc(u, pet, currentTime, result, i);
      ghost var done := MedicationsDue(u, pet, currentTime, result[..i]);
      ghost var slotsDue := MedicationSlots(u, pet, med, currentTime, SlotsOf(med));
      ghost var mid := Emitted(sent, ledger.sentToday, manager.connections);
      if SlotsOf(med) != [] {
        var s := SendMedicationSlots(manager, ledger, u, pet, med, SlotsOf(med), currentTime, utcDay, broken);
        EmitShift(mid.sent, mid.ledger, mid.conns, slotsDue, utcDay, broken);
        sent := sent + s;
      } else {
        assert slotsDue == [];
      }
      EmitAppend(start, done, slotsDue, utcDay, broken);
      i := i + 1;
    }
    assert result[..i] == result;
  }

  /** The slot loop of `_check_feeding`, over the given slots. */
  method SendFeedingSlots(manager: Registry.ConnectionManager, ledger: SentLedger,
                          u: UserId, pet: Pet, currentTime: string, slots: seq<string>,
                          utcDay: Day, broken: set<Registry.Conn>)
    returns (sent: seq<Delivery>)
    requires ledger.Valid()
    modifies manager, ledger
    ensures ledger.Valid()
    ensures Tracks(sent, ledger.sentToday, manager.connections,
                   Emit(Emitted([], old(ledger.sentToday), old(manager.connections)),
                        FeedingSlotsDue(u, pet, currentTime, slots), utcDay, broken))
  {
    ghost var start := Emitted([], ledger.sentToday, manager.connections);
    ghost var done: seq<Delivery> := [];
    sent := [];
    var j := 0;
    while j < |slots|
      invariant 0 <= j <= |slots|
      invariant ledger.Valid()
      invariant done == FeedingSlotsDue(u, pet, currentTime, slots[..j])
      invariant Tracks(sent, ledger.sentToday, manager.connections, Emit(start, done, utcDay, broken))
    {
      var slot := slots[j];
      FeedingSlotsDueSnoc(u, pet, currentTime, slots, j);
      var d := FeedingDelivery(u, pet, slot);
      if IsTimeDue(currentTime, slot) {
        EmitExtend(start, done, d, utcDay, broken);
        var delivered := SendAndMark(manager, ledger, d, utcDay, broken, Emit(start, done, utcDay, broken));
        if delivered {
          sent := sent + [d];
        }
        done := done + [d];
      } else {
        assert done + [] == done;
      }
      j := j + 1;
    }
    assert slots[..j] == slots;
  }

  /** `_check_feeding(db, user_id, pet, today_start, today_end, current_time)`;
      `fedToday` answers the feeding-log query for today's UTC window. */
  method CheckFeeding(manager: Registry.ConnectionManager, ledger: SentLedger,
                      fedToday: set<int>, u: UserId, pet: Pet, currentTime: string,
                      utcDay: Day, broken: set<Registry.Conn>)
    returns (sent: seq<Delivery>)
    requires ledger.Valid()
    modifies manager, ledger
    ensures ledger.Valid()
    ensures Tracks(sent, ledger.sentToday, manager.connections,
                   Emit(Emitted([], old(ledger.sentToday), old(manager.connections)),
                        FeedingDue(u, pet, currentTime, pet.id in fedToday), utcDay, broken))
  {
    var hasBeenFed := pet.id in fedToday;
    if hasBeenFed {
      return [];
    }
    sent := SendFeedingSlots(manager, ledger, u, pet, currentTime, FeedingSlots, utcDay, broken);
  }

  /** The body of the pet loop of `_check_reminders`: medications, then feeding. */
  method CheckPet(manager: Registry.ConnectionManager, ledger: SentLedger, w: World, u: UserId,
                  clock: LocalClock, pet: Pet, broken: set<Registry.Conn>)
    returns (sent: seq<Delivery>)
    requires ledger.Valid()
    modifies manager, ledger
    ensures ledger.Valid()
    ensures Tracks(sent, ledger.sentToday, manager.connections,
                   Emit(Emitted([], old(ledger.sentToday), old(manager.connections)), PetDue(w, u, clock, pet),
                        w.utc.date, broken))
  {
    ghost var start := Emitted([], ledger.sentToday, manager.connections);
    ghost var meds := MedicationsDue(u, pet, clock.time, ActiveMedications(w.medications, pet.id, clock.date));
    ghost var feeds := FeedingDue(u, pet, clock.time, pet.id in w.fedToday);
    var s1 := CheckMedications(manager, ledger, w.medications, u, pet, clock.date, clock.time, w.utc.date, broken);
    ghost var mid := Emitted(s1, ledger.sentToday, manager.connections);
    var s2 := CheckFeeding(manager, ledger, w.fedToday, u, pet, clock.time, w.utc.date, broken);
    EmitShift(s1, mid.ledger, mid.conns, feeds, w.utc.date, broken);
    EmitAppend(start, meds, feeds, w.utc.date, broken);
    sent := s1 + s2;
  }

  /** The body of `_check_reminders` for one connected user: nothing when the
      user record is missing, otherwise each pet in turn. */
  method CheckUser(manager: Registry.ConnectionManager, ledger: SentLedger, w: World, u: UserId,
                   broken: set<Registry.Conn>)
    returns (sent: seq<Delivery>)
    requires ledger.Valid()
    modifies manager, ledger
    ensures ledger.Valid()
    ensures Tracks(sent, ledger.sentToday, manager.connections,
                   Emit(Emitted([], old(ledger.sentToday), old(manager.connections)), UserDue(w, u),
                        w.utc.date, broken))
  {
    sent := [];
    if u !in w.timezones {
      return;
    }
    ghost var start := Emitted([], ledger.sentToday, manager.connections);
    var clock := ClockOf(w, w.timezones[u]);
    var pets := PetsOf(w.pets, u);
    var k := 0;
    while k < |pets|
      invariant 0 <= k <= |pets|
      invariant ledger.Valid()
      invariant Tracks(sent, ledger.sentToday, manager.connections,
                       Emit(start, PetsDue(w, u, clock, pets[..k]), w.utc.date, broken))
    {
      PetsDueSnoc(w, u, clock, pets, k);
      ghost var done := PetsDue(w, u, clock, pets[..k]);
      ghost var mid := Emitted(sent, ledger.sentToday, manager.connections);
      var s := CheckPet(manager, ledger, w, u, clock, pets[k], broken);
      EmitShift(mid.sent, mid.ledger, mid.conns, PetDue(w, u, clock, pets[k]), w.utc.date, broken);
      EmitAppend(start, done, PetDue(w, u, clock, pets[k]), w.utc.date, broken);
      sent := sent + s;
      k := k + 1;
    }
    assert pets[..k] == pets;
  }

  /** `_check_reminders()`: the connected users are visited in an unspecified
      order (Python set iteration), reported in `visited`, each once. */
  method CheckReminders(manager: Registry.ConnectionManager, ledger: SentLedger, w: World,
                        broken: set<Registry.Conn>)
    returns (sent: seq<Delivery>, ghost visited: seq<UserId>)
    requires ledger.Valid()
    modifies manager, ledger
    ensures ledger.Valid()
    ensures Registry.Members(visited) == old(manager.connections).Keys
    ensures forall i, j :: 0 <= i < j < |visited| ==> visited[i] != visited[j]
    ensures Tracks(sent, ledger.sentToday, manager.connections,
                   Scan(old(ledger.sentToday), old(manager.connections), w, visited, broken))
  {
    sent, visited := [], [];
    assert Registry.Members(visited) == {};
    var connected := manager.ConnectedUsers();
    if connected == {} {
      return;
    }
    ghost var start := Emitted([], ledger.sentToday, manager.connections);
    var remaining := connected;
    while remaining != {}
      invariant remaining <= connected
      invariant Registry.Members(visited) == connected - remaining
      invariant forall i, j :: 0 <= i < j < |visited| ==> visited[i] != visited[j]
      invariant ledger.Valid()
      invariant Tracks(sent, ledger.sentToday, manager.connections, Emit(start, ScanDue(w, visited), w.utc.date, broken))
      decreases remaining
    {
      Registry.SomeMember(remaining);
      var u :| u in remaining;
      remaining := remaining - {u};
      ghost var mid := Emitted(sent, ledger.sentToday, manager.connections);
      Registry.MembersSnoc(visited, u);
      ScanDueSnoc(w, visited, u);
      EmitAppend(start, ScanDue(w, visited), UserDue(w, u), w.utc.date, broken);
      var s := CheckUser(manager, ledger, w, u, broken);
      EmitShift(mid.sent, mid.ledger, mid.conns, UserDue(w, u), w.utc.date, broken);
      sent := sent + s;
      visited := visited + [u];
    }
  }
}
