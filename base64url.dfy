/** The token codec's base64url layer (`_b64url_encode`, `_b64url_decode`):
    the URL- and filename-safe alphabet of section 5 of RFC 4648, written
    without '=' padding as section 2 of RFC 7515 asks, and read back by
    re-padding and running Python's lenient (non-strict) base64 decoder. */
module Base64Url {
  import opened Wrappers
  import opened Text

  // ---------------------------------------------------------------- the alphabet

  /** The 64 symbols of the URL-safe alphabet. */
  predicate IsUrlSafe(c: char) {
    ('A' <= c <= 'Z') || ('a' <= c <= 'z') || ('0' <= c <= '9') || c == '-' || c == '_'
  }

  /** The symbol for a six-bit value. */
  function Symbol(v: nat): (c: char)
    requires v < 64
    ensures IsUrlSafe(c)
  {
    if v < 26 then (('A' as int) + v) as char
    else if v < 52 then (('a' as int) + v - 26) as char
    else if v < 62 then (('0' as int) + v - 52) as char
    else if v == 62 then '-'
    else '_'
  }

  /** `urlsafe_b64decode` first maps '-' and '_' to '+' and '/'. */
  function Translate(c: char): char {
    if c == '-' then '+' else if c == '_' then '/' else c
  }

  /** The standard decoding table: the six-bit value of a symbol of the standard
      alphabet, `None` for every other character (which the lenient decoder skips). */
  function StandardValue(c: char): (v: Option<nat>)
    ensures v.Some? ==> v.value < 64
  {
    if 'A' <= c <= 'Z' then Some((c as int) - ('A' as int))
    else if 'a' <= c <= 'z' then Some((c as int) - ('a' as int) + 26)
    else if '0' <= c <= '9' then Some((c as int) - ('0' as int) + 52)
    else if c == '+' then Some(62)
    else if c == '/' then Some(63)
    else None
  }

  /** The value the URL-safe decoder gives a character. */
  function Value(c: char): Option<nat> {
    StandardValue(Translate(c))
  }

  /** Every symbol decodes to the value it encodes. */
  lemma ValueOfSymbol(v: nat)
    requires v < 64
    ensures Value(Symbol(v)) == Some(v)
  {
  }

  // ---------------------------------------------------------------- encoding

  /** Four symbols for three bytes. */
  function Group(b0: byte, b1: byte, b2: byte): string {
    [Symbol(b0 / 4), Symbol((b0 % 4) * 16 + b1 / 16), Symbol((b1 % 16) * 4 + b2 / 64), Symbol(b2 % 64)]
  }

  /** Two symbols for a final single byte. */
  function Tail1(b0: byte): string {
    [Symbol(b0 / 4), Symbol((b0 % 4) * 16)]
  }

  /** Three symbols for a final pair of bytes. */
  function Tail2(b0: byte, b1: byte): string {
    [Symbol(b0 / 4), Symbol((b0 % 4) * 16 + b1 / 16), Symbol((b1 % 16) * 4)]
  }

  /** `base64.urlsafe_b64encode`: whole groups, then a final group of one or two
      bytes padded with '=' to four characters. */
  function UrlsafeB64Encode(b: seq<byte>): string
    decreases |b|
  {
    if |b| == 0 then ""
    else if |b| == 1 then Tail1(b[0]) + "=="
    else if |b| == 2 then Tail2(b[0], b[1]) + "="
    else Group(b[0], b[1], b[2]) + UrlsafeB64Encode(b[3..])
  }

  /** `bytes.rstrip(b"=")`. */
  function StripPadding(s: string): (t: string)
    ensures |t| <= |s|
    decreases |s|
  {
    if s != [] && s[|s| - 1] == '=' then StripPadding(s[..|s| - 1]) else s
  }

  /** `_b64url_encode(data)`. */
  function B64UrlEncode(b: seq<byte>): string {
    StripPadding(UrlsafeB64Encode(b))
  }

  /** The symbols of the encoding, without the padding. */
  function Unpadded(b: seq<byte>): (s: string)
    ensures forall i :: 0 <= i < |s| ==> IsUrlSafe(s[i])
    decreases |b|
  {
    if |b| == 0 then ""
    else if |b| == 1 then Tail1(b[0])
    else if |b| == 2 then Tail2(b[0], b[1])
    else Group(b[0], b[1], b[2]) + Unpadded(b[3..])
  }

  /** The '=' characters `urlsafe_b64encode` appends. */
  function PadOf(b: seq<byte>): string {
    if |b| % 3 == 1 then "==" else if |b| % 3 == 2 then "=" else ""
  }

  lemma {:induction false} EncodeIsUnpaddedThenPad(b: seq<byte>)
    ensures UrlsafeB64Encode(b) == Unpadded(b) + PadOf(b)
    decreases |b|
  {
    if |b| > 2 {
      EncodeIsUnpaddedThenPad(b[3..]);
      assert |b[3..]| % 3 == |b| % 3;
    }
  }

  /** Stripping '=' characters off symbols that do not end in '=' leaves the symbols. */
  lemma {:induction false} StripPaddingOf(u: string, pad: string)
    requires u == [] || u[|u| - 1] != '='
    requires forall i :: 0 <= i < |pad| ==> pad[i] == '='
    ensures StripPadding(u + pad) == u
    decreases |pad|
  {
    if pad == [] {
      assert u + pad == u;
    } else {
      var s := u + pad;
      assert s[..|s| - 1] == u + pad[..|pad| - 1];
      StripPaddingOf(u, pad[..|pad| - 1]);
    }
  }

  /** The encoder's output is the unpadded symbols. */
  lemma EncodeUnpadded(b: seq<byte>)
    ensures B64UrlEncode(b) == Unpadded(b)
  {
    EncodeIsUnpaddedThenPad(b);
    var u := Unpadded(b);
    assert u == [] || u[|u| - 1] != '=' by {
      if u != [] { assert IsUrlSafe(u[|u| - 1]); }
    }
    StripPaddingOf(u, PadOf(b));
  }

  /** The encoder uses the URL-safe alphabet only and never writes '='; its
      length is that of the padded encoding less the padding. */
  lemma EncodeAlphabet(b: seq<byte>)
    ensures forall i :: 0 <= i < |B64UrlEncode(b)| ==> IsUrlSafe(B64UrlEncode(b)[i])
    ensures '=' !in B64UrlEncode(b) && '.' !in B64UrlEncode(b)
    ensures |B64UrlEncode(b)| % 4 != 1
  {
    EncodeUnpadded(b);
    UnpaddedLength(b);
    var s := B64UrlEncode(b);
    forall i | 0 <= i < |s| ensures s[i] != '=' && s[i] != '.' {
      assert IsUrlSafe(s[i]);
    }
  }

  // ---------------------------------------------------------------- decoding

  /** The ways `urlsafe_b64decode` can raise. */
  datatype DecodeError =
    | NonAscii          // `str.encode('ascii')` of the input fails
    | ExcessCharacter   // one data character more than a multiple of four
    | IncorrectPadding  // the data ends inside a group without enough '='

  /** The state of CPython's `binascii.a2b_base64` loop: position in the group
      of four, the bits carried to the next byte, the run of '=' seen inside the
      group, and the bytes so far. */
  datatype Quad = Quad(pos: nat, left: nat, pads: nat, out: seq<byte>)

  const Start := Quad(0, 0, 0, [])

  /** One data character: it may complete an output byte. The shifts and ORs of
      the C code are sums of disjoint bit ranges; the store into an unsigned char
      truncates modulo 256. */
  function Feed(q: Quad, v: nat): Quad
    requires v < 64
  {
    if q.pos == 0 then Quad(1, v, 0, q.out)
    else if q.pos == 1 then Quad(2, v % 16, 0, q.out + [(q.left * 4 + v / 16) % 256])
    else if q.pos == 2 then Quad(3, v % 4, 0, q.out + [(q.left * 16 + v / 4) % 256])
    else Quad(0, 0, 0, q.out + [(q.left * 64 + v) % 256])
  }

  /** The non-strict `a2b_base64` loop (CPython 3.11 and later) over the
      characters, with the URL-safe translation applied to each. Characters
      outside the alphabet are skipped; a '=' counts only from the third
      position of a group, and enough of them end the input there. */
  function A2b(s: string, q: Quad): Result<seq<byte>, DecodeError>
    decreases |s|
  {
    if s == [] then
      if q.pos == 0 then Ok(q.out)
      else if q.pos == 1 then Err(ExcessCharacter)
      else Err(IncorrectPadding)
    else if s[0] == '=' then
      if q.pos >= 2 && q.pos + q.pads + 1 >= 4 then Ok(q.out)
      else A2b(s[1..], if q.pos >= 2 then q.(pads := q.pads + 1) else q)
    else
      match Value(s[0])
      case None => A2b(s[1..], q)
      case Some(v) => A2b(s[1..], Feed(q, v))
  }

  /** `base64.urlsafe_b64decode(s)` for a `str` argument. */
  function UrlsafeB64Decode(s: string): Result<seq<byte>, DecodeError> {
    if !IsAscii(s) then Err(NonAscii) else A2b(s, Start)
  }

  /** `"=" * n`. */
  function Equals(n: nat): (s: string)
    ensures |s| == n && forall i :: 0 <= i < n ==> s[i] == '='
  {
    seq(n, _ => '=')
  }

  /** The re-padding of `_b64url_decode`: `4 - len % 4` '=' characters,
      unless that count is 4. */
  function Repadded(s: string): (t: string)
    ensures |t| % 4 == 0
    ensures |s| % 4 == 0 ==> t == s
    ensures |s| % 4 != 0 ==> t == s + Equals(4 - |s| % 4)
  {
    var padding := 4 - |s| % 4;
    if padding != 4 then s + Equals(padding) else s
  }

  /** `_b64url_decode(s)`. */
  function B64UrlDecode(s: string): Result<seq<byte>, DecodeError> {
    UrlsafeB64Decode(Repadded(s))
  }

  // ---------------------------------------------------------------- the round trip

  /** One data character, read from any state. */
  lemma A2bData(c: char, s: string, q: Quad, v: nat)
    requires c != '=' && Value(c) == Some(v)
    ensures A2b([c] + s, q) == A2b(s, Feed(q, v))
  {
    assert ([c] + s)[1..] == s;
  }

  /** The four values a group of three bytes is cut into give the bytes back. */
  lemma GroupArithmetic(b0: byte, b1: byte, b2: byte)
    ensures (b0 / 4) * 4 + ((b0 % 4) * 16 + b1 / 16) / 16 == b0
    ensures (((b0 % 4) * 16 + b1 / 16) % 16) * 16 + ((b1 % 16) * 4 + b2 / 64) / 4 == b1
    ensures (((b1 % 16) * 4 + b2 / 64) % 4) * 64 + b2 % 64 == b2
  {
    var v1, v2 := (b0 % 4) * 16 + b1 / 16, (b1 % 16) * 4 + b2 / 64;
    assert v1 / 16 == b0 % 4 && v1 % 16 == b1 / 16;
    assert v2 / 4 == b1 % 16 && v2 % 4 == b2 / 64;
  }

  /** Feeding the four values of a group from a group boundary appends its bytes. */
  lemma FeedGroup(q: Quad, b0: byte, b1: byte, b2: byte)
    requires q.pos == 0
    ensures Feed(Feed(Feed(Feed(q, b0 / 4), (b0 % 4) * 16 + b1 / 16), (b1 % 16) * 4 + b2 / 64), b2 % 64)
         == Quad(0, 0, 0, q.out + [b0, b1, b2])
  {
    GroupArithmetic(b0, b1, b2);
    var v1, v2 := (b0 % 4) * 16 + b1 / 16, (b1 % 16) * 4 + b2 / 64;
    var x0, x1, x2 := b0 / 4 * 4 + v1 / 16, (v1 % 16) * 16 + v2 / 4, (v2 % 4) * 64 + b2 % 64;
    assert x0 % 256 == b0 && x1 % 256 == b1 && x2 % 256 == b2;
    assert q.out + [b0] + [b1] + [b2] == q.out + [b0, b1, b2];
  }

  /** Feeding the two values of a final byte leaves the decoder in the third position. */
  lemma FeedTail1(q: Quad, b0: byte)
    requires q.pos == 0
    ensures Feed(Feed(q, b0 / 4), (b0 % 4) * 16) == Quad(2, 0, 0, q.out + [b0])
  {
    GroupArithmetic(b0, 0, 0);
    assert (b0 / 4 * 4 + ((b0 % 4) * 16) / 16) % 256 == b0;
  }

  /** Feeding the three values of a final pair leaves the decoder in the fourth position. */
  lemma FeedTail2(q: Quad, b0: byte, b1: byte)
    requires q.pos == 0
    ensures Feed(Feed(Feed(q, b0 / 4), (b0 % 4) * 16 + b1 / 16), (b1 % 16) * 4) == Quad(3, 0, 0, q.out + [b0, b1])
  {
    GroupArithmetic(b0, b1, 0);
    var v1 := (b0 % 4) * 16 + b1 / 16;
    assert (b0 / 4 * 4 + v1 / 16) % 256 == b0;
    assert ((v1 % 16) * 16 + ((b1 % 16) * 4) / 4) % 256 == b1;
    assert q.out + [b0] + [b1] == q.out + [b0, b1];
  }

  /** Decoding a group of four symbols from the start of a group yields its three bytes. */
  lemma A2bGroup(q: Quad, b0: byte, b1: byte, b2: byte, rest: string)
    requires q.pos == 0
    ensures A2b(Group(b0, b1, b2) + rest, q) == A2b(rest, Quad(0, 0, 0, q.out + [b0, b1, b2]))
  {
    var v0, v1, v2, v3 := b0 / 4, (b0 % 4) * 16 + b1 / 16, (b1 % 16) * 4 + b2 / 64, b2 % 64;
    var c0, c1, c2, c3 := Symbol(v0), Symbol(v1), Symbol(v2), Symbol(v3);
    ValueOfSymbol(v0);
    ValueOfSymbol(v1);
    ValueOfSymbol(v2);
    ValueOfSymbol(v3);
    assert Group(b0, b1, b2) + rest == [c0] + ([c1] + ([c2] + ([c3] + rest)));
    var q1 := Feed(q, v0);
    var q2 := Feed(q1, v1);
    var q3 := Feed(q2, v2);
    A2bData(c0, [c1] + ([c2] + ([c3] + rest)), q, v0);
    A2bData(c1, [c2] + ([c3] + rest), q1, v1);
    A2bData(c2, [c3] + rest, q2, v2);
    A2bData(c3, rest, q3, v3);
    FeedGroup(q, b0, b1, b2);
  }

  /** A final single byte: two symbols and "==" give it back and end the input. */
  lemma A2bTail1(q: Quad, b0: byte)
    requires q.pos == 0
    ensures A2b(Tail1(b0) + "==", q) == Ok(q.out + [b0])
  {
    var v0, v1 := b0 / 4, (b0 % 4) * 16;
    var c0, c1 := Symbol(v0), Symbol(v1);
    ValueOfSymbol(v0);
    ValueOfSymbol(v1);
    assert Tail1(b0) + "==" == [c0] + ([c1] + "==");
    var q1 := Feed(q, v0);
    A2bData(c0, [c1] + "==", q, v0);
    A2bData(c1, "==", q1, v1);
    FeedTail1(q, b0);
    assert "=="[1..] == "=";
  }

  /** A final pair of bytes: three symbols and "=" give them back and end the input. */
  lemma A2bTail2(q: Quad, b0: byte, b1: byte)
    requires q.pos == 0
    ensures A2b(Tail2(b0, b1) + "=", q) == Ok(q.out + [b0, b1])
  {
    var v0, v1, v2 := b0 / 4, (b0 % 4) * 16 + b1 / 16, (b1 % 16) * 4;
    var c0, c1, c2 := Symbol(v0), Symbol(v1), Symbol(v2);
    ValueOfSymbol(v0);
    ValueOfSymbol(v1);
    ValueOfSymbol(v2);
    assert Tail2(b0, b1) + "=" == [c0] + ([c1] + ([c2] + "="));
    var q1 := Feed(q, v0);
    var q2 := Feed(q1, v1);
    A2bData(c0, [c1] + ([c2] + "="), q, v0);
    A2bData(c1, [c2] + "=", q1, v1);
    A2bData(c2, "=", q2, v2);
    FeedTail2(q, b0, b1);
  }

  lemma AppendThree(out: seq<byte>, b: seq<byte>)
    requires |b| >= 3
    ensures out + [b[0], b[1], b[2]] + b[3..] == out + b
  {
    assert [b[0], b[1], b[2]] + b[3..] == b;
  }

  /** The lenient decoder reads a padded encoding back, from a group boundary. */
  lemma {:induction false} A2bEncoded(q: Quad, b: seq<byte>)
    requires q.pos == 0
    ensures A2b(UrlsafeB64Encode(b), q) == Ok(q.out + b)
    decreases |b|
  {
    if |b| == 0 {
      assert q.out + b == q.out;
    } else if |b| == 1 {
      A2bTail1(q, b[0]);
      assert [b[0]] == b;
    } else if |b| == 2 {
      A2bTail2(q, b[0], b[1]);
      assert [b[0], b[1]] == b;
    } else {
      A2bGroup(q, b[0], b[1], b[2], UrlsafeB64Encode(b[3..]));
      var q' := Quad(0, 0, 0, q.out + [b[0], b[1], b[2]]);
      A2bEncoded(q', b[3..]);
      AppendThree(q.out, b);
    }
  }

  /** The unpadded encoding is 4 symbols per whole group, then 0, 2 or 3. */
  lemma {:induction false} UnpaddedLength(b: seq<byte>)
    ensures |Unpadded(b)| % 4 == (if |b| % 3 == 0 then 0 else |b| % 3 + 1)
    decreases |b|
  {
    if |b| > 2 {
      UnpaddedLength(b[3..]);
      LengthStep(|b|, |Unpadded(b[3..])|);
    }
  }

  lemma LengthStep(n: nat, m: nat)
    requires n >= 3
    requires m % 4 == (if (n - 3) % 3 == 0 then 0 else (n - 3) % 3 + 1)
    ensures (4 + m) % 4 == (if n % 3 == 0 then 0 else n % 3 + 1)
  {
    assert (n - 3) % 3 == n % 3;
    assert (4 + m) % 4 == m % 4;
  }

  /** Re-padding the unpadded symbols restores the padded encoding. */
  lemma RepaddedUnpadded(b: seq<byte>)
    ensures Repadded(B64UrlEncode(b)) == UrlsafeB64Encode(b)
  {
    EncodeUnpadded(b);
    EncodeIsUnpaddedThenPad(b);
    UnpaddedLength(b);
    var u := Unpadded(b);
    if |b| % 3 == 1 {
      assert Equals(4 - |u| % 4) == "==";
    } else if |b| % 3 == 2 {
      assert Equals(4 - |u| % 4) == "=";
    } else {
      assert u + PadOf(b) == u;
    }
  }

  /** Round trip: `_b64url_decode(_b64url_encode(b)) == b` for every byte string. */
  lemma DecodeEncode(b: seq<byte>)
    ensures B64UrlDecode(B64UrlEncode(b)) == Ok(b)
  {
    RepaddedUnpadded(b);
    EncodeAscii(b);
    A2bEncoded(Start, b);
    assert Start.out + b == b;
  }

  lemma EncodeAscii(b: seq<byte>)
    ensures IsAscii(UrlsafeB64Encode(b))
  {
    EncodeIsUnpaddedThenPad(b);
    var u, p := Unpadded(b), PadOf(b);
    var s := u + p;
    forall i | 0 <= i < |s| ensures (s[i] as int) < 128 {
      if i < |u| {
        assert IsUrlSafe(u[i]) && s[i] == u[i];
      } else {
        assert s[i] == p[i - |u|];
      }
    }
  }

  /** A '=' before the third position of a group is skipped. */
  lemma A2bEarlyPad(s: string, q: Quad)
    requires q.pos < 2
    ensures A2b("=" + s, q) == A2b(s, q)
  {
    assert ("=" + s)[1..] == s;
  }

  /** A '=' that completes a group's padding ends the input. */
  lemma A2bFinalPad(s: string, q: Quad)
    requires q.pos >= 2 && q.pos + q.pads + 1 >= 4
    ensures A2b("=" + s, q) == Ok(q.out)
  {
  }

  /** The decoder is lenient: a text whose last symbol carries bits that no
      encoder writes still decodes, so two different texts decode to the same
      bytes ("QQ" and "QR" both give the byte 65). */
  lemma DecodeNotCanonical()
    ensures B64UrlDecode("QQ") == Ok([65])
    ensures B64UrlDecode("QR") == Ok([65])
  {
    assert Repadded("QQ") == "Q" + ("Q" + ("=" + "="));
    assert Repadded("QR") == "Q" + ("R" + ("=" + "="));
    A2bData('Q', "Q" + ("=" + "="), Start, 16);
    assert Feed(Start, 16) == Quad(1, 16, 0, []);
    A2bData('Q', "=" + "=", Quad(1, 16, 0, []), 16);
    assert Feed(Quad(1, 16, 0, []), 16) == Quad(2, 0, 0, [65]);
    assert Feed(Quad(1, 16, 0, []), 17) == Quad(2, 1, 0, [65]);
    A2bData('R', "=" + "=", Quad(1, 16, 0, []), 17);
    assert A2b("=" + "=", Quad(2, 0, 0, [65])) == A2b("=", Quad(2, 0, 1, [65]));
    assert A2b("=" + "=", Quad(2, 1, 0, [65])) == A2b("=", Quad(2, 1, 1, [65]));
    A2bFinalPad("", Quad(2, 0, 1, [65]));
    A2bFinalPad("", Quad(2, 1, 1, [65]));
  }

  /** Characters outside the alphabet are skipped, wherever they occur. */
  lemma SkipsForeign(c: char, s: string, q: Quad)
    requires c != '=' && Value(c) == None
    ensures A2b([c] + s, q) == A2b(s, q)
  {
    assert ([c] + s)[1..] == s;
  }

  /** One data character more than a multiple of four is refused: "QUJD" is
      "ABC", and a lone "R" after it cannot form a byte. */
  lemma ExcessCharacterRefused()
    ensures B64UrlDecode("QUJDR") == Err(ExcessCharacter)
  {
    var q3 := Quad(3, 1, 0, [65, 66]);
    var q4 := Quad(0, 0, 0, [65, 66, 67]);
    var q5 := Quad(1, 17, 0, [65, 66, 67]);
    assert Repadded("QUJDR") == "Q" + ("U" + ("J" + ("D" + ("R" + ("=" + ("=" + ("=" + "")))))));
    A2bData('Q', "U" + ("J" + ("D" + ("R" + ("=" + ("=" + ("=" + "")))))), Start, 16);
    A2bData('U', "J" + ("D" + ("R" + ("=" + ("=" + ("=" + ""))))), Quad(1, 16, 0, []), 20);
    A2bData('J', "D" + ("R" + ("=" + ("=" + ("=" + "")))), Quad(2, 4, 0, [65]), 9);
    A2bData('D', "R" + ("=" + ("=" + ("=" + ""))), q3, 3);
    A2bData('R', "=" + ("=" + ("=" + "")), q4, 17);
    A2bEarlyPad("=" + ("=" + ""), q5);
    A2bEarlyPad("=" + "", q5);
    A2bEarlyPad("", q5);
  }
}
