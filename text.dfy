/** String and number rendering shared by the backend and client models:
    `str.split`, decimal rendering of integers (Python `str(int)`),
    Python's `int(str)` parser, and lower-case hex of bytes (`bytes.hex()`). */
module Text {
  import opened Wrappers

  type byte = x: int | 0 <= x < 256

  // ---------------------------------------------------------------- split / join

  /** `s.split(sep)` for a one-character separator: the pieces between separators,
      always at least one (Python gives `[""]` for the empty string). */
  function Split(s: string, sep: char): (parts: seq<string>)
    ensures |parts| >= 1
    ensures forall i :: 0 <= i < |parts| ==> sep !in parts[i]
    decreases |s|
  {
    if s == [] then [""]
    else
      var rest := Split(s[1..], sep);
      if s[0] == sep then [""] + rest
      else [[s[0]] + rest[0]] + rest[1..]
  }

  /** `sep.join(parts)`. */
  function Join(parts: seq<string>, sep: char): string
    decreases |parts|
  {
    if |parts| == 0 then ""
    else if |parts| == 1 then parts[0]
    else parts[0] + [sep] + Join(parts[1..], sep)
  }

  lemma {:induction false} SplitNoSeparator(s: string, sep: char)
    requires sep !in s
    ensures Split(s, sep) == [s]
    decreases |s|
  {
    if s != [] {
      assert sep !in s[1..];
      SplitNoSeparator(s[1..], sep);
      assert [s[0]] + s[1..] == s;
    }
  }

  /** A separator-free head splits off as the first piece. */
  lemma {:induction false} SplitAtSeparator(a: string, sep: char, b: string)
    requires sep !in a
    ensures Split(a + [sep] + b, sep) == [a] + Split(b, sep)
    decreases |a|
  {
    if a == [] {
      assert a + [sep] + b == [sep] + b;
      assert ([sep] + b)[1..] == b;
    } else {
      var s := a + [sep] + b;
      assert s[0] == a[0];
      assert s[1..] == a[1..] + [sep] + b;
      assert sep !in a[1..];
      SplitAtSeparator(a[1..], sep, b);
      assert [a[0]] + a[1..] == a;
    }
  }

  /** Splitting undoes joining pieces that do not contain the separator. */
  lemma {:induction false} SplitJoin(parts: seq<string>, sep: char)
    requires |parts| >= 1
    requires forall i :: 0 <= i < |parts| ==> sep !in parts[i]
    ensures Split(Join(parts, sep), sep) == parts
    decreases |parts|
  {
    if |parts| == 1 {
      SplitNoSeparator(parts[0], sep);
    } else {
      SplitJoin(parts[1..], sep);
      SplitAtSeparator(parts[0], sep, Join(parts[1..], sep));
      assert [parts[0]] + parts[1..] == parts;
    }
  }

  /** Joining undoes splitting, for every string. */
  lemma {:induction false} JoinSplit(s: string, sep: char)
    ensures Join(Split(s, sep), sep) == s
    decreases |s|
  {
    if s != [] {
      JoinSplit(s[1..], sep);
      var rest := Split(s[1..], sep);
      if s[0] == sep {
        assert Split(s, sep) == [""] + rest;
        assert ([""] + rest)[1..] == rest;
        assert s == [sep] + s[1..];
      } else {
        var parts := Split(s, sep);
        assert parts == [[s[0]] + rest[0]] + rest[1..];
        if |rest| == 1 {
          assert s == [s[0]] + rest[0];
        } else {
          assert parts[1..] == rest[1..];
          assert Join(rest, sep) == rest[0] + [sep] + Join(rest[1..], sep);
          assert s == [s[0]] + s[1..];
        }
      }
    }
  }

  /** `s.split(sep, 1)` unpacked into two names: `None` when there is no
      separator (the unpacking raises), else the text before the first
      separator and everything after it. */
  function SplitOnce(s: string, sep: char): (r: Option<(string, string)>)
    ensures r.None? <==> sep !in s
    ensures r.Some? ==> sep !in r.value.0 && s == r.value.0 + [sep] + r.value.1
    decreases |s|
  {
    if s == [] then None
    else if s[0] == sep then Some(([], s[1..]))
    else
      match SplitOnce(s[1..], sep)
      case None => None
      case Some(pair) => Some(([s[0]] + pair.0, pair.1))
  }

  /** The first separator is found: a head without the separator splits off. */
  lemma {:induction false} SplitOnceAt(a: string, sep: char, b: string)
    requires sep !in a
    ensures SplitOnce(a + [sep] + b, sep) == Some((a, b))
    decreases |a|
  {
    var s := a + [sep] + b;
    if a == [] {
      assert s == [sep] + b && s[1..] == b;
    } else {
      assert s[0] == a[0] && s[1..] == a[1..] + [sep] + b;
      assert sep !in a[1..];
      SplitOnceAt(a[1..], sep, b);
      assert [a[0]] + a[1..] == a;
    }
  }

  /** The text after the last separator (all of `s` when it has none). */
  function LastField(s: string, sep: char): (r: string)
    ensures sep !in r && |r| <= |s|
    decreases |s|
  {
    if s == [] || s[|s| - 1] == sep then []
    else LastField(s[..|s| - 1], sep) + [s[|s| - 1]]
  }

  /** A tail without the separator is the last field. */
  lemma {:induction false} LastFieldAfter(p: string, sep: char, d: string)
    requires sep !in d
    ensures LastField(p + [sep] + d, sep) == d
    decreases |d|
  {
    var s := p + [sep] + d;
    if d != [] {
      assert s[..|s| - 1] == p + [sep] + d[..|d| - 1];
      LastFieldAfter(p, sep, d[..|d| - 1]);
      assert d[..|d| - 1] + [d[|d| - 1]] == d;
    }
  }

  // ---------------------------------------------------------------- UTF-8 and ASCII

  predicate IsAscii(s: string) {
    forall i :: 0 <= i < |s| ==> (s[i] as int) < 128
  }

  /** The UTF-8 encoding of one Unicode scalar value. */
  function Utf8Char(c: char): (b: seq<byte>)
    ensures 1 <= |b| <= 4
    ensures |b| == 1 <==> (c as int) < 128
    ensures |b| == 1 ==> b[0] == c as int
  {
    var n := c as int;
    if n < 0x80 then [n]
    else if n < 0x800 then [0xC0 + n / 64, 0x80 + n % 64]
    else if n < 0x10000 then [0xE0 + n / 4096, 0x80 + (n / 64) % 64, 0x80 + n % 64]
    else [0xF0 + n / 262144, 0x80 + (n / 4096) % 64, 0x80 + (n / 64) % 64, 0x80 + n % 64]
  }

  /** `s.encode()`: UTF-8, character by character. */
  function Utf8(s: string): (b: seq<byte>)
    ensures |b| >= |s|
    decreases |s|
  {
    if s == [] then [] else Utf8Char(s[0]) + Utf8(s[1..])
  }

  /** An ASCII text encodes to its own code points, one byte each. */
  lemma {:induction false} Utf8OfAscii(s: string)
    requires IsAscii(s)
    ensures |Utf8(s)| == |s|
    ensures forall i :: 0 <= i < |s| ==> Utf8(s)[i] == s[i] as int
    decreases |s|
  {
    if s != [] {
      Utf8OfAscii(s[1..]);
      assert Utf8(s) == [s[0] as int] + Utf8(s[1..]);
    }
  }

  // ---------------------------------------------------------------- decimal digits

  predicate IsDigit(c: char) { '0' <= c <= '9' }

  predicate AllDigits(s: string) { forall i :: 0 <= i < |s| ==> IsDigit(s[i]) }

  function DigitValue(c: char): nat
    requires IsDigit(c)
  {
    (c as int) - ('0' as int)
  }

  function DigitChar(d: nat): (c: char)
    requires d < 10
    ensures IsDigit(c) && DigitValue(c) == d
  {
    ((('0' as int) + d) as char)
  }

  /** The value of a string of decimal digits, most significant first. */
  function DigitsValue(s: string): nat
    requires AllDigits(s)
    decreases |s|
  {
    if s == [] then 0
    else DigitsValue(s[..|s| - 1]) * 10 + DigitValue(s[|s| - 1])
  }

  /** `str(n)` for a natural number. */
  function NatToString(n: nat): (s: string)
    ensures |s| >= 1 && AllDigits(s)
    decreases n
  {
    if n < 10 then [DigitChar(n)] else NatToString(n / 10) + [DigitChar(n % 10)]
  }

  lemma {:induction false} NatToStringValue(n: nat)
    ensures DigitsValue(NatToString(n)) == n
    decreases n
  {
    if n >= 10 {
      NatToStringValue(n / 10);
      var s := NatToString(n);
      assert s[..|s| - 1] == NatToString(n / 10);
    }
  }

  /** `str(i)` for an integer: a minus sign, then the digits of the magnitude. */
  function IntToString(i: int): (s: string)
    ensures |s| >= 1
    ensures s[0] == '-' <==> i < 0
    ensures forall k :: 0 <= k < |s| ==> IsDigit(s[k]) || s[k] == '-'
  {
    if i < 0 then "-" + NatToString(-i) else NatToString(i)
  }

  // ---------------------------------------------------------------- Python int(str)

  /** CPython (3.11 and later) refuses to convert strings of more digits than this. */
  const MaxStrDigits: nat := 4300

  /** The characters `int()` strips around the number. Below U+007F only the
      C white space (tab, line feed, vertical tab, form feed, carriage return,
      space) is skipped, so the separators U+001C to U+001F are refused;
      above it every Unicode white space character is first rewritten to a
      space, so these are skipped as well. */
  predicate IsPySpace(c: char) {
    || (9 <= c as int <= 13)
    || (c as int) in {32, 0x85, 0xA0, 0x1680, 0x2028, 0x2029, 0x202F, 0x205F, 0x3000}
    || (0x2000 <= c as int <= 0x200A)
  }

  function TrimStart(s: string): (t: string)
    ensures |t| <= |s|
    decreases |s|
  {
    if s != [] && IsPySpace(s[0]) then TrimStart(s[1..]) else s
  }

  function TrimEnd(s: string): (t: string)
    ensures |t| <= |s|
    decreases |s|
  {
    if s != [] && IsPySpace(s[|s| - 1]) then TrimEnd(s[..|s| - 1]) else s
  }

  /** Digits with single underscores between them, as `int()` accepts them. */
  predicate WellUnderscored(s: string) {
    && |s| >= 1
    && IsDigit(s[0])
    && IsDigit(s[|s| - 1])
    && (forall i :: 0 <= i < |s| ==> IsDigit(s[i]) || s[i] == '_')
    && (forall i :: 0 <= i < |s| - 1 && s[i] == '_' ==> s[i + 1] != '_')
  }

  function RemoveUnderscores(s: string): (t: string)
    requires forall i :: 0 <= i < |s| ==> IsDigit(s[i]) || s[i] == '_'
    ensures AllDigits(t) && |t| <= |s|
    decreases |s|
  {
    if s == [] then ""
    else if s[0] == '_' then RemoveUnderscores(s[1..])
    else [s[0]] + RemoveUnderscores(s[1..])
  }

  lemma {:induction false} RemoveUnderscoresOfDigits(s: string)
    requires AllDigits(s)
    ensures RemoveUnderscores(s) == s
    decreases |s|
  {
    if s != [] {
      RemoveUnderscoresOfDigits(s[1..]);
      assert [s[0]] + s[1..] == s;
    }
  }

  /** The unsigned magnitude that `int()` reads after the sign. */
  function ParseMagnitude(s: string): Option<nat> {
    if !WellUnderscored(s) then None
    else
      var digits := RemoveUnderscores(s);
      if |digits| > MaxStrDigits then None else Some(DigitsValue(digits))
  }

  /** Python's `int(s)` for a string: surrounding white space, an optional sign,
      then decimal digits that may be grouped by single underscores. `None` is
      the `ValueError` the source catches. */
  function ParsePyInt(s: string): Option<int> {
    var t := TrimEnd(TrimStart(s));
    if t == [] then None
    else if t[0] == '-' then
      (match ParseMagnitude(t[1..]) case Some(n) => Some(-(n as int)) case None => None)
    else if t[0] == '+' then
      (match ParseMagnitude(t[1..]) case Some(n) => Some(n as int) case None => None)
    else
      (match ParseMagnitude(t) case Some(n) => Some(n as int) case None => None)
  }

  /** The separator U+001C is not white space to `int()`; the no-break space
      U+00A0 is. */
  lemma PyIntSpaceExamples()
    ensures ParsePyInt("\U{1c}8") == None
    ensures ParsePyInt("\U{a0}8") == Some(8)
    ensures ParsePyInt("8\U{3000}") == Some(8)
  {
    assert TrimStart("\U{a0}8") == "8" by { assert "\U{a0}8"[1..] == "8"; }
    assert TrimEnd("8\U{3000}") == "8" by { assert "8\U{3000}"[..1] == "8"; }
    assert !WellUnderscored("\U{1c}8");
    RemoveUnderscoresOfDigits("8");
  }

  lemma TrimOfDigitsAndSign(s: string)
    requires |s| >= 1
    requires forall k :: 0 <= k < |s| ==> IsDigit(s[k]) || s[k] == '-'
    ensures TrimEnd(TrimStart(s)) == s
  {
    assert !IsPySpace(s[0]);
    assert !IsPySpace(s[|s| - 1]);
  }

  /** `int(str(i)) == i` whenever the digits fit under CPython's limit. */
  lemma {:induction false} ParseIntToString(i: int)
    requires |NatToString(if i < 0 then -i else i)| <= MaxStrDigits
    ensures ParsePyInt(IntToString(i)) == Some(i)
  {
    var n: nat := if i < 0 then -i else i;
    var digits := NatToString(n);
    TrimOfDigitsAndSign(IntToString(i));
    RemoveUnderscoresOfDigits(digits);
    NatToStringValue(n);
    assert WellUnderscored(digits);
    assert ParseMagnitude(digits) == Some(n);
    if i < 0 {
      assert IntToString(i)[1..] == digits;
    } else {
      assert IntToString(i)[0] != '-' && IntToString(i)[0] != '+';
    }
  }

  /** Distinct naturals render differently. */
  lemma NatToStringInjective(m: nat, n: nat)
    requires NatToString(m) == NatToString(n)
    ensures m == n
  {
    NatToStringValue(m);
    NatToStringValue(n);
  }

  /** Distinct integers render differently (`str` is injective on `int`). */
  lemma IntToStringInjective(i: int, j: int)
    requires IntToString(i) == IntToString(j)
    ensures i == j
  {
    var a, b := IntToString(i), IntToString(j);
    assert (i < 0) == (j < 0) by { assert a[0] == b[0]; }
    if i < 0 {
      assert a[1..] == NatToString(-i) && b[1..] == NatToString(-j);
      NatToStringInjective(-i, -j);
    } else {
      NatToStringInjective(i, j);
    }
  }

  // ---------------------------------------------------------------- hex

  function HexDigit(d: nat): char
    requires d < 16
  {
    if d < 10 then DigitChar(d) else (('a' as int) + d - 10) as char
  }

  /** `bytes.hex()`: two lower-case hex digits per byte. */
  function Hex(b: seq<byte>): (s: string)
    ensures |s| == 2 * |b|
    ensures '$' !in s
    decreases |b|
  {
    if b == [] then ""
    else [HexDigit(b[0] / 16), HexDigit(b[0] % 16)] + Hex(b[1..])
  }

  lemma HexDigitInjective(d: nat, e: nat)
    requires d < 16 && e < 16
    requires HexDigit(d) == HexDigit(e)
    ensures d == e
  {
  }

  /** Different byte strings give different hex strings. */
  lemma {:induction false} HexInjective(a: seq<byte>, b: seq<byte>)
    requires Hex(a) == Hex(b)
    ensures a == b
    decreases |a|
  {
    if a != [] {
      var ha, hb := Hex(a), Hex(b);
      assert ha[0] == hb[0] && ha[1] == hb[1];
      HexDigitInjective(a[0] / 16, b[0] / 16);
      HexDigitInjective(a[0] % 16, b[0] % 16);
      assert ha[2..] == Hex(a[1..]) && hb[2..] == Hex(b[1..]);
      HexInjective(a[1..], b[1..]);
      assert a == [a[0]] + a[1..] && b == [b[0]] + b[1..];
    }
  }
}
