/** The web client's API helpers (`web/src/lib/api.ts`): the bearer token
    cached in memory over `localStorage`, the headers of every request, and
    the query string of the list endpoints, serialised as
    `application/x-www-form-urlencoded` the way `URLSearchParams` does
    (section 5.2 of the WHATWG URL standard). */
module ApiClient {
  import opened Wrappers
  import opened Text

  const TokenKey: string := "pwelltrack_token"

  /** JavaScript truthiness of an optional text. */
  predicate Truthy(t: Option<string>) {
    t.Some? && t.value != ""
  }

  // ---------------------------------------------------------------- token storage

  /** `_token` after `tokenStorage.get()`, which is also what it returns: a
      truthy cached token; otherwise the stored one when there is a window
      (`None` when the key is absent); otherwise the cache as it was. */
  function Loaded(memory: Option<string>, storage: map<string, string>, hasWindow: bool): (r: Option<string>)
    ensures Truthy(memory) ==> r == memory
    ensures !Truthy(memory) && hasWindow ==> (r.Some? <==> TokenKey in storage)
    ensures r.Some? && !Truthy(memory) && hasWindow ==> r.value == storage[TokenKey]
    ensures !hasWindow ==> r == memory
  {
    if Truthy(memory) then memory
    else if hasWindow then (if TokenKey in storage then Some(storage[TokenKey]) else None)
    else memory
  }

  /** The module variable `_token` and the page's `localStorage`;
      `hasWindow` is `typeof window !== 'undefined'` (false while rendering
      on the server). */
  class TokenStorage {
    var memory: Option<string>
    var storage: map<string, string>
    const hasWindow: bool

    constructor (storage: map<string, string>, hasWindow: bool)
      ensures memory == None && this.storage == storage && this.hasWindow == hasWindow
    {
      memory := None;
      this.storage := storage;
      this.hasWindow := hasWindow;
    }

    /** `tokenStorage.get()`. */
    method Get() returns (t: Option<string>)
      modifies this
      ensures t == Loaded(old(memory), old(storage), hasWindow)
      ensures memory == t && storage == old(storage)
    {
      if memory.Some? && memory.value != "" {
        return memory;
      }
      if hasWindow {
        memory := if TokenKey in storage then Some(storage[TokenKey]) else None;
      }
      return memory;
    }

    /** `tokenStorage.set(token)`. */
    method Set(token: string)
      modifies this
      ensures memory == Some(token)
      ensures storage == if hasWindow then old(storage)[TokenKey := token] else old(storage)
    {
      memory := Some(token);
      if hasWindow {
        storage := storage[TokenKey := token];
      }
    }

    /** `tokenStorage.clear()`. */
    method Clear()
      modifies this
      ensures memory == None
      ensures storage == if hasWindow then old(storage) - {TokenKey} else old(storage)
    {
      memory := None;
      if hasWindow {
        storage := storage - {TokenKey};
      }
    }
  }

  /** A cached token is returned without looking at the storage at all. */
  lemma CachedIgnoresStorage(memory: Option<string>, storage: map<string, string>, other: map<string, string>, hasWindow: bool)
    requires Truthy(memory)
    ensures Loaded(memory, storage, hasWindow) == Loaded(memory, other, hasWindow) == memory
  {
  }

  /** After `set(t)`, `get()` returns `t`, with or without a window. */
  lemma SetThenGet(storage: map<string, string>, token: string, hasWindow: bool)
    ensures Loaded(Some(token), if hasWindow then storage[TokenKey := token] else storage, hasWindow) == Some(token)
  {
  }

  /** After `clear()`, `get()` returns `null`, with or without a window. */
  lemma ClearThenGet(storage: map<string, string>, hasWindow: bool)
    ensures Loaded(None, if hasWindow then storage - {TokenKey} else storage, hasWindow) == None
  {
  }

  /** A second `get()` answers as the first did. */
  lemma GetTwice(memory: Option<string>, storage: map<string, string>, hasWindow: bool)
    ensures Loaded(Loaded(memory, storage, hasWindow), storage, hasWindow) == Loaded(memory, storage, hasWindow)
  {
  }

  // ---------------------------------------------------------------- request headers

  /** The headers `request` sends, given the token `tokenStorage.get()`
      returned. */
  function Headers(token: Option<string>): (h: map<string, string>)
    ensures "Content-Type" in h && h["Content-Type"] == "application/json"
    ensures ("Authorization" in h) <==> Truthy(token)
    ensures "Authorization" in h ==> h["Authorization"] == "Bearer " + token.value
    ensures h.Keys <= {"Content-Type", "Authorization"}
  {
    var plain := map["Content-Type" := "application/json"];
    if Truthy(token) then plain["Authorization" := "Bearer " + token.value] else plain
  }

  /** The header step of `request`: reading the token may load it into the
      cache. */
  method RequestHeaders(ts: TokenStorage) returns (h: map<string, string>)
    modifies ts
    ensures h == Headers(Loaded(old(ts.memory), old(ts.storage), ts.hasWindow))
    ensures ts.memory == Loaded(old(ts.memory), old(ts.storage), ts.hasWindow) && ts.storage == old(ts.storage)
  {
    var token := ts.Get();
    h := Headers(token);
  }

  // ---------------------------------------------------------------- form encoding

  /** The bytes `URLSearchParams` writes as themselves: `*-._`, digits and
      ASCII letters. */
  predicate Unreserved(b: byte) {
    b == 0x2A || b == 0x2D || b == 0x2E || (0x30 <= b <= 0x39) || (0x41 <= b <= 0x5A) || b == 0x5F || (0x61 <= b <= 0x7A)
  }

  function UpperHexDigit(d: nat): (c: char)
    requires d < 16
    ensures IsUpperHexDigit(c)
  {
    if d < 10 then ('0' as int + d) as char else ('A' as int + d - 10) as char
  }

  predicate IsUpperHexDigit(c: char) {
    ('0' <= c <= '9') || ('A' <= c <= 'F')
  }

  /** The value of a hex digit in either case, as the decoder reads it. */
  predicate IsHexDigit(c: char) {
    ('0' <= c <= '9') || ('A' <= c <= 'F') || ('a' <= c <= 'f')
  }

  function HexDigitValue(c: char): (d: nat)
    requires IsHexDigit(c)
    ensures d < 16
  {
    if '0' <= c <= '9' then c as int - '0' as int
    else if 'A' <= c <= 'F' then c as int - 'A' as int + 10
    else c as int - 'a' as int + 10
  }

  lemma UpperHexDigitValue(d: nat)
    requires d < 16
    ensures HexDigitValue(UpperHexDigit(d)) == d
  {
  }

  /** One byte of the serialiser: itself, `+` for a space, else `%XY`. */
  function FormByte(b: byte): (s: string)
    ensures 1 <= |s| <= 3 && '&' !in s && '=' !in s
  {
    if Unreserved(b) then [b as char]
    else if b == 0x20 then "+"
    else ['%', UpperHexDigit(b / 16), UpperHexDigit(b % 16)]
  }

  function FormBytes(bs: seq<byte>): (s: string)
    ensures '&' !in s && '=' !in s
    decreases |bs|
  {
    if bs == [] then [] else FormByte(bs[0]) + FormBytes(bs[1..])
  }

  /** A name or value as `URLSearchParams.toString` writes it: its UTF-8
      bytes, one at a time. */
  function FormEncode(s: string): (e: string)
    ensures '&' !in e && '=' !in e
  {
    FormBytes(Utf8(s))
  }

  /** The reading side (section 5.1 of the WHATWG URL standard): `+` is a
      space, `%XY` with two hex digits is a byte, and any other character
      stands for its own UTF-8 bytes. */
  function FormDecode(s: string): seq<byte>
    decreases |s|
  {
    if s == [] then []
    else if s[0] == '+' then [0x20] + FormDecode(s[1..])
    else if s[0] == '%' && |s| >= 3 && IsHexDigit(s[1]) && IsHexDigit(s[2]) then
      [HexDigitValue(s[1]) * 16 + HexDigitValue(s[2])] + FormDecode(s[3..])
    else Utf8Char(s[0]) + FormDecode(s[1..])
  }

  /** Decoding reads one encoded byte back and goes on after it. */
  lemma FormDecodeByte(b: byte, rest: string)
    ensures FormDecode(FormByte(b) + rest) == [b] + FormDecode(rest)
  {
    var s := FormByte(b) + rest;
    if Unreserved(b) {
      assert s[0] == b as char && s[1..] == rest;
      assert Utf8Char(b as char) == [b];
    } else if b == 0x20 {
      assert s[0] == '+' && s[1..] == rest;
    } else {
      assert s[0] == '%' && s[1] == UpperHexDigit(b / 16) && s[2] == UpperHexDigit(b % 16) && s[3..] == rest;
      UpperHexDigitValue(b / 16);
      UpperHexDigitValue(b % 16);
    }
  }

  /** Decoding undoes the serialiser byte for byte. */
  lemma {:induction false} FormDecodeBytes(bs: seq<byte>)
    ensures FormDecode(FormBytes(bs)) == bs
    decreases |bs|
  {
    if bs != [] {
      FormDecodeByte(bs[0], FormBytes(bs[1..]));
      FormDecodeBytes(bs[1..]);
    }
  }

  /** Every value reads back as the UTF-8 bytes it was written from. */
  lemma FormRoundTrip(s: string)
    ensures FormDecode(FormEncode(s)) == Utf8(s)
  {
    FormDecodeBytes(Utf8(s));
  }

  // ---------------------------------------------------------------- list paths

  /** `name=value`, as the serialiser writes one parameter (the two names
      used here are written as they are). */
  function Param(name: string, value: string): string {
    name + "=" + FormEncode(value)
  }

  /** The parameters `buildListPath` sets, in the order it sets them. */
  function Params(dateFrom: Option<string>, dateTo: Option<string>): (ps: seq<(string, string)>)
    ensures |ps| <= 2
    ensures (ps == []) <==> !Truthy(dateFrom) && !Truthy(dateTo)
  {
    (if Truthy(dateFrom) then [("date_from", dateFrom.value)] else [])
      + (if Truthy(dateTo) then [("date_to", dateTo.value)] else [])
  }

  function Serialised(ps: seq<(string, string)>): (r: seq<string>)
    ensures |r| == |ps|
    decreases |ps|
  {
    if ps == [] then [] else [Param(ps[0].0, ps[0].1)] + Serialised(ps[1..])
  }

  /** `params.toString()`. */
  function Query(dateFrom: Option<string>, dateTo: Option<string>): string {
    Join(Serialised(Params(dateFrom, dateTo)), '&')
  }

  /** `buildListPath(base, dateFrom, dateTo)`. */
  function BuildListPath(base: string, dateFrom: Option<string>, dateTo: Option<string>): string {
    var qs := Query(dateFrom, dateTo);
    if qs != "" then base + "?" + qs else base
  }

  /** With no (truthy) date the path is the base, untouched. */
  lemma NoDatesNoQuery(base: string, dateFrom: Option<string>, dateTo: Option<string>)
    requires !Truthy(dateFrom) && !Truthy(dateTo)
    ensures BuildListPath(base, dateFrom, dateTo) == base
  {
  }

  /** With a date the path is the base, `?`, and a non-empty query. */
  lemma DatesGiveQuery(base: string, dateFrom: Option<string>, dateTo: Option<string>)
    requires Truthy(dateFrom) || Truthy(dateTo)
    ensures Query(dateFrom, dateTo) != ""
    ensures BuildListPath(base, dateFrom, dateTo) == base + "?" + Query(dateFrom, dateTo)
  {
    var ps := Params(dateFrom, dateTo);
    assert Serialised(ps)[0] == Param(ps[0].0, ps[0].1);
    JoinHead(Serialised(ps), '&');
  }

  lemma JoinHead(parts: seq<string>, sep: char)
    requires |parts| >= 1
    ensures |Join(parts, sep)| >= |parts[0]|
  {
  }

  /** The query reads back as exactly the parameters set, `date_from`
      before `date_to`: split at `&`, each piece is `name=` and a value that
      decodes to the UTF-8 bytes of the given date. */
  lemma QueryReadsBack(dateFrom: Option<string>, dateTo: Option<string>)
    requires Truthy(dateFrom) || Truthy(dateTo)
    ensures var ps := Params(dateFrom, dateTo);
            var pieces := Split(Query(dateFrom, dateTo), '&');
            && |pieces| == |ps|
            && forall i :: 0 <= i < |ps| ==>
                 && SplitOnce(pieces[i], '=') == Some((ps[i].0, FormEncode(ps[i].1)))
                 && FormDecode(FormEncode(ps[i].1)) == Utf8(ps[i].1)
  {
    var ps := Params(dateFrom, dateTo);
    var parts := Serialised(ps);
    forall i | 0 <= i < |ps| ensures parts[i] == Param(ps[i].0, ps[i].1) {
      SerialisedAt(ps, i);
    }
    forall i | 0 <= i < |parts| ensures '&' !in parts[i] {
      assert ps[i].0 == "date_from" || ps[i].0 == "date_to";
      assert parts[i] == ps[i].0 + "=" + FormEncode(ps[i].1);
    }
    SplitJoin(parts, '&');
    forall i | 0 <= i < |ps|
      ensures SplitOnce(parts[i], '=') == Some((ps[i].0, FormEncode(ps[i].1)))
      ensures FormDecode(FormEncode(ps[i].1)) == Utf8(ps[i].1)
    {
      assert ps[i].0 == "date_from" || ps[i].0 == "date_to";
      SplitOnceAt(ps[i].0, '=', FormEncode(ps[i].1));
      assert parts[i] == ps[i].0 + ['='] + FormEncode(ps[i].1);
      FormRoundTrip(ps[i].1);
    }
  }

  lemma {:induction false} SerialisedAt(ps: seq<(string, string)>, i: nat)
    requires i < |ps|
    ensures Serialised(ps)[i] == Param(ps[i].0, ps[i].1)
    decreases i
  {
    if i > 0 {
      SerialisedAt(ps[1..], i - 1);
    }
  }
}
