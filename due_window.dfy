/** The due-window predicate of the reminder scan (`_is_time_due`): a slot
    "HH:MM" is due during the five minutes that start at it, on the same
    clock day (there is no wrap past midnight). */
module DueWindow {
  import opened Wrappers
  import opened Text

  /** Width of the due window, in minutes. */
  const WindowMinutes: int := 5

  /** `ch, cm = map(int, s.split(":"))` as minutes since midnight, or `None`
      where the source raises (not exactly two parts, a part `int()` refuses).
      Parts are not range-checked: "25:99" parses. */
  function ParseClock(s: string): Option<int> {
    var parts := Split(s, ':');
    if |parts| != 2 then None
    else
      match (ParsePyInt(parts[0]), ParsePyInt(parts[1]))
      case (Some(h), Some(m)) => Some(h * 60 + m)
      case _ => None
  }

  /** `_is_time_due(current, scheduled)`. */
  function IsTimeDue(current: string, scheduled: string): bool {
    match (ParseClock(current), ParseClock(scheduled))
    case (Some(c), Some(s)) => 0 <= c - s <= WindowMinutes
    case _ => false
  }

  /** Two-digit, zero-padded rendering (`%H`, `%M`). */
  function Pad2(n: nat): (s: string)
    requires n < 100
    ensures |s| == 2 && AllDigits(s)
  {
    [DigitChar(n / 10), DigitChar(n % 10)]
  }

  /** "HH:MM" of a minute of the day (`strftime("%H:%M")`). */
  function FormatClock(t: nat): string
    requires t < 24 * 60
  {
    Pad2(t / 60) + ":" + Pad2(t % 60)
  }

  lemma Pad2Value(n: nat)
    requires n < 100
    ensures DigitsValue(Pad2(n)) == n
  {
    var s := Pad2(n);
    assert s[..1] == [s[0]];
    assert DigitsValue(s[..1]) == DigitValue(s[0]) == n / 10;
    assert DigitValue(s[1]) == n % 10;
  }

  lemma ParsePad2(n: nat)
    requires n < 100
    ensures ParsePyInt(Pad2(n)) == Some(n)
  {
    var s := Pad2(n);
    assert TrimStart(s) == s by { assert !IsPySpace(s[0]); }
    assert TrimEnd(s) == s by { assert !IsPySpace(s[1]); }
    assert s[0] != '-' && s[0] != '+';
    assert WellUnderscored(s);
    RemoveUnderscoresOfDigits(s);
    Pad2Value(n);
    assert ParseMagnitude(s) == Some(n);
  }

  lemma SplitClock(t: nat)
    requires t < 24 * 60
    ensures Split(FormatClock(t), ':') == [Pad2(t / 60), Pad2(t % 60)]
  {
    var h, m := Pad2(t / 60), Pad2(t % 60);
    assert ':' !in h && ':' !in m;
    assert FormatClock(t) == h + [':'] + m;
    SplitAtSeparator(h, ':', m);
    SplitNoSeparator(m, ':');
  }

  /** A formatted clock reading parses back to its minute. */
  lemma ParseFormatClock(t: nat)
    requires t < 24 * 60
    ensures ParseClock(FormatClock(t)) == Some(t)
  {
    SplitClock(t);
    ParsePad2(t / 60);
    ParsePad2(t % 60);
  }

  /** The due window on well-formed clock readings: due exactly when the current
      minute is at the slot or at most five minutes after it. */
  lemma DueIffWithinWindow(current: nat, slot: nat)
    requires current < 24 * 60 && slot < 24 * 60
    ensures IsTimeDue(FormatClock(current), FormatClock(slot)) <==> slot <= current <= slot + 5
  {
    ParseFormatClock(current);
    ParseFormatClock(slot);
  }

  /** A string that does not split into exactly two parts is never due, as
      either argument. */
  lemma MalformedNeverDue(current: string, scheduled: string)
    requires |Split(current, ':')| != 2 || |Split(scheduled, ':')| != 2
    ensures !IsTimeDue(current, scheduled)
  {
  }

  /** A slot is due from its own minute through five minutes later, and the
      window does not wrap past midnight. */
  lemma DueWindowExamples()
    ensures IsTimeDue("08:00", "08:00")
    ensures IsTimeDue("08:05", "08:00")
    ensures !IsTimeDue("08:06", "08:00")
    ensures !IsTimeDue("07:59", "08:00")
    ensures !IsTimeDue("00:02", "23:59")
  {
    assert FormatClock(480) == "08:00";
    assert FormatClock(485) == "08:05";
    assert FormatClock(486) == "08:06";
    assert FormatClock(479) == "07:59";
    assert FormatClock(2) == "00:02";
    assert FormatClock(1439) == "23:59";
    DueIffWithinWindow(480, 480);
    DueIffWithinWindow(485, 480);
    DueIffWithinWindow(486, 480);
    DueIffWithinWindow(479, 480);
    DueIffWithinWindow(2, 1439);
  }

  /** A slot led by the separator U+001C makes `int()` raise, so it is never
      due; one led by a no-break space is read as the plain slot. */
  lemma SlotSpaceExamples()
    ensures !IsTimeDue("08:00", "\U{1c}08:00")
    ensures IsTimeDue("08:00", "\U{a0}08:00")
  {
    SeparatorSlot();
    NoBreakSlot();
    EightOClock();
  }

  lemma EightOClock()
    ensures ParseClock("08:00") == Some(480)
  {
    assert FormatClock(480) == "08:00";
    ParseFormatClock(480);
  }

  lemma SeparatorSlot()
    ensures ParseClock("\U{1c}08:00") == None
  {
    assert "\U{1c}08:00" == "\U{1c}08" + [':'] + "00";
    SplitAtSeparator("\U{1c}08", ':', "00");
    SplitNoSeparator("00", ':');
    SeparatorHour();
  }

  lemma SeparatorHour()
    ensures ParsePyInt("\U{1c}08") == None
  {
    assert !IsPySpace("\U{1c}08"[0]);
    assert TrimStart("\U{1c}08") == "\U{1c}08";
    assert !WellUnderscored("\U{1c}08");
  }

  lemma NoBreakSlot()
    ensures ParseClock("\U{a0}08:00") == Some(480)
  {
    assert "\U{a0}08:00" == "\U{a0}08" + [':'] + "00";
    SplitAtSeparator("\U{a0}08", ':', "00");
    SplitNoSeparator("00", ':');
    NoBreakHour();
    ZeroMinutes();
  }

  lemma NoBreakHour()
    ensures ParsePyInt("\U{a0}08") == Some(8)
  {
    assert TrimStart("\U{a0}08") == "08" by { assert "\U{a0}08"[1..] == "08"; }
    assert TrimEnd("08") == "08";
    RemoveUnderscoresOfDigits("08");
    assert WellUnderscored("08");
    assert DigitsValue("08") == 8 by { assert "08"[..1] == "0"; }
  }

  lemma ZeroMinutes()
    ensures ParsePyInt("00") == Some(0)
  {
    assert Pad2(0) == "00";
    ParsePad2(0);
  }
}
