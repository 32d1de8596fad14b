/** The status badges of the web client's pet list
    (`web/src/app/pets/page.tsx`): how today's feeding compares with the
    plan, and whether any vaccine is overdue or due within thirty days. */
module PetStatus {
  import opened Wrappers

  // ---------------------------------------------------------------- feeding

  /** The `feeding` part of a pet's dashboard. */
  datatype Feeding = Feeding(actualGrams: real, plannedGrams: real, entries: int)

  datatype FeedingKey = NotFed | Underfed | Overfed | WellFed

  const UnderfedRatio: real := 0.7
  const OverfedRatio: real := 1.3

  /** `getFeedingStatus(d)`, with `None` for a dashboard not loaded yet. */
  function FeedingStatus(d: Option<Feeding>): (k: Option<FeedingKey>)
    ensures k.None? <==> d.None?
    ensures k == Some(NotFed) <==> d.Some? && d.value.entries == 0
  {
    match d
    case None => None
    case Some(f) =>
      if f.entries == 0 then Some(NotFed)
      else if f.plannedGrams > 0.0 && f.actualGrams < f.plannedGrams * UnderfedRatio then Some(Underfed)
      else if f.plannedGrams > 0.0 && f.actualGrams > f.plannedGrams * OverfedRatio then Some(Overfed)
      else Some(WellFed)
  }

  /** With entries logged, the badge is decided by the band
      [0.7 * planned, 1.3 * planned]: below it underfed, above it overfed,
      inside it (bounds included) well fed. */
  lemma FeedingBands(f: Feeding)
    requires f.entries != 0 && f.plannedGrams > 0.0
    ensures FeedingStatus(Some(f)) == Some(Underfed) <==> f.actualGrams < f.plannedGrams * UnderfedRatio
    ensures FeedingStatus(Some(f)) == Some(Overfed) <==> f.actualGrams > f.plannedGrams * OverfedRatio
    ensures (FeedingStatus(Some(f)) == Some(WellFed))
              <==> f.plannedGrams * UnderfedRatio <= f.actualGrams <= f.plannedGrams * OverfedRatio
  {
  }

  /** Without a positive plan there is nothing to compare with: any logged
      feeding is well fed, whatever the grams. */
  lemma NoPlanWellFed(f: Feeding)
    requires f.entries != 0 && f.plannedGrams <= 0.0
    ensures FeedingStatus(Some(f)) == Some(WellFed)
  {
  }

  /** No logged feeding is "not fed" whatever the gram totals say. */
  lemma NoEntriesNotFed(actual: real, planned: real)
    ensures FeedingStatus(Some(Feeding(actual, planned, 0))) == Some(NotFed)
  {
  }

  // ---------------------------------------------------------------- vaccines

  /** `v.next_due_date` as `new Date(...)` reads it: absent or empty, a text
      the parser refuses (an invalid date, which compares false with every
      time), or a time in milliseconds. */
  datatype DueDate = NoDate | Invalid | At(ms: int)

  datatype VaccineKey = NoData | Overdue | DueSoon | UpToDate

  /** Thirty days, in milliseconds. */
  const SoonWindow: int := 30 * 86400000

  predicate PastDue(d: DueDate, now: int) {
    d.At? && d.ms < now
  }

  predicate DueWithinWindow(d: DueDate, now: int) {
    d.At? && now <= d.ms <= now + SoonWindow
  }

  /** `getVaccineStatus(vaccines)` at time `now`, from the due dates. */
  function VaccineStatus(dues: seq<DueDate>, now: int): (k: VaccineKey)
    ensures k == NoData <==> |dues| == 0
    ensures k == Overdue <==> exists i :: 0 <= i < |dues| && PastDue(dues[i], now)
    ensures k == UpToDate <==>
              |dues| > 0 && forall i :: 0 <= i < |dues| ==> !PastDue(dues[i], now) && !DueWithinWindow(dues[i], now)
  {
    if |dues| == 0 then NoData
    else if exists i :: 0 <= i < |dues| && PastDue(dues[i], now) then Overdue
    else if exists i :: 0 <= i < |dues| && DueWithinWindow(dues[i], now) then DueSoon
    else UpToDate
  }

  /** One overdue vaccine makes the pet overdue, whatever the others. */
  lemma OverdueWins(dues: seq<DueDate>, i: nat, now: int)
    requires i < |dues| && PastDue(dues[i], now)
    ensures VaccineStatus(dues, now) == Overdue
  {
  }

  /** Due soon exactly when nothing is overdue and some date lies within
      thirty days from now, both ends included. */
  lemma DueSoonIff(dues: seq<DueDate>, now: int)
    requires |dues| > 0
    ensures (VaccineStatus(dues, now) == DueSoon)
              <==> (forall i :: 0 <= i < |dues| ==> !PastDue(dues[i], now))
                   && (exists i :: 0 <= i < |dues| && DueWithinWindow(dues[i], now))
  {
  }

  /** Vaccines without a usable date never raise an alarm. */
  lemma UndatedUpToDate(dues: seq<DueDate>, now: int)
    requires |dues| > 0 && forall i :: 0 <= i < |dues| ==> !dues[i].At?
    ensures VaccineStatus(dues, now) == UpToDate
  {
  }

  /** How alarming a badge is. */
  function Severity(k: VaccineKey): nat {
    match k
    case NoData => 0
    case UpToDate => 0
    case DueSoon => 1
    case Overdue => 2
  }

  /** Recording another vaccine never makes the badge less alarming. */
  lemma MoreVaccinesNoCalmer(dues: seq<DueDate>, more: seq<DueDate>, now: int)
    ensures Severity(VaccineStatus(dues, now)) <= Severity(VaccineStatus(dues + more, now))
  {
    var all := dues + more;
    if exists i :: 0 <= i < |dues| && PastDue(dues[i], now) {
      var i :| 0 <= i < |dues| && PastDue(dues[i], now);
      assert all[i] == dues[i];
    } else if exists i :: 0 <= i < |dues| && DueWithinWindow(dues[i], now) {
      var i :| 0 <= i < |dues| && DueWithinWindow(dues[i], now);
      assert all[i] == dues[i];
    }
  }

  /** The badge depends only on which dates occur, not on the order of the
      list (`some` looks at every element). */
  lemma OrderIrrelevant(dues: seq<DueDate>, other: seq<DueDate>, now: int)
    requires |dues| > 0 && |other| > 0
    requires forall d :: d in dues <==> d in other
    ensures VaccineStatus(dues, now) == VaccineStatus(other, now)
  {
    OccursIn(dues, other, now);
    OccursIn(other, dues, now);
  }

  /** A date that occurs in `a` occurs in any list holding all of `a`'s. */
  lemma OccursIn(a: seq<DueDate>, b: seq<DueDate>, now: int)
    requires forall d :: d in a ==> d in b
    ensures (exists i :: 0 <= i < |a| && PastDue(a[i], now)) ==> (exists j :: 0 <= j < |b| && PastDue(b[j], now))
    ensures (exists i :: 0 <= i < |a| && DueWithinWindow(a[i], now)) ==> (exists j :: 0 <= j < |b| && DueWithinWindow(b[j], now))
  {
    if exists i :: 0 <= i < |a| && PastDue(a[i], now) {
      var i :| 0 <= i < |a| && PastDue(a[i], now);
      assert a[i] in b;
    }
    if exists i :: 0 <= i < |a| && DueWithinWindow(a[i], now) {
      var i :| 0 <= i < |a| && DueWithinWindow(a[i], now);
      assert a[i] in b;
    }
  }
}
