/**
 * `encodeURIComponent` and `decodeURIComponent` as section 19.2.6 of
 * ECMA-262 defines them (the URI handling functions and their Encode and
 * Decode operations): a character outside the unreserved set becomes the
 * `%XX` escapes of its UTF-8 octets, upper-case hex; decoding accepts upper-
 * and lower-case hex and rejects any escape sequence that is not the valid
 * UTF-8 encoding of one code point.
 */
module UriComponent {
  import opened Wrappers

  /** The characters `encodeURIComponent` leaves as they are. */
  predicate IsUnreserved(c: char) {
    ('A' <= c <= 'Z') || ('a' <= c <= 'z') || ('0' <= c <= '9')
    || c == '-' || c == '_' || c == '.' || c == '!' || c == '~' || c == '*' || c == '\'' || c == '(' || c == ')'
  }

  predicate IsUpperHex(c: char) {
    ('0' <= c <= '9') || ('A' <= c <= 'F')
  }

  function HexDigit(d: nat): (c: char)
    requires d < 16
    ensures IsUpperHex(c)
  {
    if d < 10 then ('0' as int + d) as char else ('A' as int + d - 10) as char
  }

  /** The value of a hex digit in either case. */
  function HexValue(c: char): (r: Option<nat>)
    ensures r.Some? ==> r.value < 16
  {
    if '0' <= c <= '9' then Some(c as int - '0' as int)
    else if 'A' <= c <= 'F' then Some(c as int - 'A' as int + 10)
    else if 'a' <= c <= 'f' then Some(c as int - 'a' as int + 10)
    else None
  }

  lemma HexRoundTrip(d: nat)
    requires d < 16
    ensures HexValue(HexDigit(d)) == Some(d)
  {
  }

  /** `%XX` for one octet. */
  function Escape(b: nat): (r: string)
    requires b < 256
    ensures |r| == 3 && r[0] == '%' && IsUpperHex(r[1]) && IsUpperHex(r[2])
  {
    ['%', HexDigit(b / 16), HexDigit(b % 16)]
  }

  /** The UTF-8 octets of a code point (section 3 of RFC 3629). */
  function Utf8(c: char): (bytes: seq<nat>)
    ensures 1 <= |bytes| <= 4
    ensures forall i :: 0 <= i < |bytes| ==> bytes[i] < 256
  {
    var cp := c as int;
    if cp < 0x80 then [cp]
    else if cp < 0x800 then [0xC0 + cp / 64, 0x80 + cp % 64]
    else if cp < 0x10000 then [0xE0 + cp / 4096, 0x80 + (cp / 64) % 64, 0x80 + cp % 64]
    else [0xF0 + cp / 262144, 0x80 + (cp / 4096) % 64, 0x80 + (cp / 64) % 64, 0x80 + cp % 64]
  }

  function Escapes(bytes: seq<nat>): (r: string)
    requires forall i :: 0 <= i < |bytes| ==> bytes[i] < 256
    ensures |r| == 3 * |bytes|
  {
    if bytes == [] then [] else Escape(bytes[0]) + Escapes(bytes[1..])
  }

  function EncodeChar(c: char): string {
    if IsUnreserved(c) then [c] else Escapes(Utf8(c))
  }

  /** A text of unreserved characters only. */
  predicate AllUnreserved(s: string) {
    forall i :: 0 <= i < |s| ==> IsUnreserved(s[i])
  }

  /**
   * `encodeURIComponent(s)`: a text of unreserved characters is left as it
   * is, and any other text grows, since every other character becomes at
   * least one three-character escape.
   */
  function Encode(s: string): (r: string)
    ensures |r| >= |s|
    ensures |r| == |s| <==> AllUnreserved(s)
    ensures AllUnreserved(s) ==> r == s
  {
    if s == [] then []
    else
      assert AllUnreserved(s) <==> IsUnreserved(s[0]) && AllUnreserved(s[1..]) by {
        assert forall i :: 1 <= i < |s| ==> s[1..][i - 1] == s[i];
      }
      var r := EncodeChar(s[0]) + Encode(s[1..]);
      if IsUnreserved(s[0]) then
        assert [s[0]] + s[1..] == s;
        r
      else
        r
  }

  /** A character `Encode` can emit. */
  predicate IsEncodedChar(c: char) {
    IsUnreserved(c) || c == '%' || IsUpperHex(c)
  }

  // ---- Decoding ----

  /** The octet escaped as `%XX` at position `k`, if there is one. */
  function ByteAt(s: string, k: nat): (r: Option<nat>)
    ensures r.Some? ==> r.value < 256 && k + 3 <= |s|
  {
    if k + 3 <= |s| && s[k] == '%' && HexValue(s[k + 1]).Some? && HexValue(s[k + 2]).Some?
    then Some(16 * HexValue(s[k + 1]).value + HexValue(s[k + 2]).value)
    else None
  }

  /** The low six bits of a continuation octet `10xxxxxx` escaped at `k`. */
  function Continuation(s: string, k: nat): (r: Option<nat>)
    ensures r.Some? ==> r.value < 64 && k + 3 <= |s|
  {
    match ByteAt(s, k)
    case None => None
    case Some(b) => if 0x80 <= b < 0xC0 then Some(b - 0x80) else None
  }

  /**
   * One decoded character at the front of `s` and the number of characters it
   * used; `None` where `decodeURIComponent` throws a URIError: a `%` without
   * two hex digits, a stray continuation octet, a lead octet of five or more
   * ones, a missing continuation, an overlong form, a surrogate, or a code
   * point above U+10FFFF.
   */
  function DecodeOne(s: string): (r: Option<(char, nat)>)
    requires s != []
    ensures r.Some? ==> 1 <= r.value.1 <= |s|
  {
    if s[0] != '%' then Some((s[0], 1))
    else match ByteAt(s, 0)
    case None => None
    case Some(b0) =>
      if b0 < 0x80 then Some((b0 as char, 3))
      else if b0 < 0xC0 then None
      else if b0 < 0xE0 then
        match Continuation(s, 3)
        case None => None
        case Some(x1) =>
          var cp := (b0 - 0xC0) * 64 + x1;
          if cp < 0x80 then None else Some((cp as char, 6))
      else if b0 < 0xF0 then
        match (Continuation(s, 3), Continuation(s, 6))
        case (Some(x1), Some(x2)) =>
          var cp := (b0 - 0xE0) * 4096 + x1 * 64 + x2;
          if cp < 0x800 || (0xD800 <= cp <= 0xDFFF) then None else Some((cp as char, 9))
        case _ => None
      else if b0 < 0xF8 then
        match (Continuation(s, 3), Continuation(s, 6), Continuation(s, 9))
        case (Some(x1), Some(x2), Some(x3)) =>
          var cp := (b0 - 0xF0) * 262144 + x1 * 4096 + x2 * 64 + x3;
          if cp < 0x10000 || cp > 0x10FFFF then None else Some((cp as char, 12))
        case _ => None
      else None
  }

  /**
   * `decodeURIComponent(s)`, `None` where it throws. Decoding never
   * lengthens a text, and a text without `%` decodes to itself.
   */
  function Decode(s: string): (r: Option<string>)
    ensures r.Some? ==> |r.value| <= |s|
    ensures '%' !in s ==> r == Some(s)
    decreases |s|
  {
    if s == [] then Some([])
    else match DecodeOne(s)
    case None => None
    case Some((c, used)) =>
      match Decode(s[used..])
      case None => None
      case Some(t) =>
        assert '%' !in s ==> used == 1 && c == s[0] && [s[0]] + s[1..] == s;
        Some([c] + t)
  }

  // ---- Properties ----

  /** Every character of an encoding is unreserved, a `%` or an upper-case hex digit. */
  lemma {:induction false} EncodeAlphabet(s: string)
    ensures forall i :: 0 <= i < |Encode(s)| ==> IsEncodedChar(Encode(s)[i])
  {
    if s != [] {
      EncodeAlphabet(s[1..]);
      EscapesAlphabet(Utf8(s[0]));
      var a := EncodeChar(s[0]);
      var b := Encode(s[1..]);
      forall i | 0 <= i < |a + b| ensures IsEncodedChar((a + b)[i]) {
        if i < |a| { assert (a + b)[i] == a[i]; } else { assert (a + b)[i] == b[i - |a|]; }
      }
    }
  }

  lemma {:induction false} EscapesAlphabet(bytes: seq<nat>)
    requires forall i :: 0 <= i < |bytes| ==> bytes[i] < 256
    ensures forall i :: 0 <= i < |Escapes(bytes)| ==> IsEncodedChar(Escapes(bytes)[i])
  {
    if bytes != [] {
      EscapesAlphabet(bytes[1..]);
      var a := Escape(bytes[0]);
      var b := Escapes(bytes[1..]);
      forall i | 0 <= i < |a + b| ensures IsEncodedChar((a + b)[i]) {
        if i < |a| { assert (a + b)[i] == a[i]; } else { assert (a + b)[i] == b[i - |a|]; }
      }
    }
  }

  /** An encoding never holds a character that separates or ends a query parameter. */
  lemma EncodeIsQuerySafe(s: string)
    ensures '&' !in Encode(s) && '=' !in Encode(s) && '#' !in Encode(s) && '+' !in Encode(s)
  {
    EncodeAlphabet(s);
  }

  lemma EscapeByte(b: nat, rest: string)
    requires b < 256
    ensures ByteAt(Escape(b) + rest, 0) == Some(b)
  {
    HexRoundTrip(b / 16);
    HexRoundTrip(b % 16);
  }

  /** The `k`-th escape of a run of escapes reads back as the `k`-th octet. */
  lemma {:induction false} EscapesByteAt(bytes: seq<nat>, rest: string, k: nat)
    requires forall i :: 0 <= i < |bytes| ==> bytes[i] < 256
    requires k < |bytes|
    ensures ByteAt(Escapes(bytes) + rest, 3 * k) == Some(bytes[k])
  {
    var s := Escapes(bytes) + rest;
    var tail := Escapes(bytes[1..]) + rest;
    assert s == Escape(bytes[0]) + tail;
    if k == 0 {
      EscapeByte(bytes[0], tail);
    } else {
      EscapesByteAt(bytes[1..], rest, k - 1);
      assert s[3 * k..3 * k + 3] == tail[3 * (k - 1)..3 * (k - 1) + 3];
    }
  }

  /** The arithmetic of the four UTF-8 forms: the bits come back. */
  lemma TwoOctets(cp: int)
    requires 0x80 <= cp < 0x800
    ensures 0xC0 <= 0xC0 + cp / 64 < 0xE0
    ensures (cp / 64) * 64 + cp % 64 == cp
  {
  }

  lemma ThreeOctets(cp: int)
    requires 0x800 <= cp < 0x10000
    ensures 0xE0 <= 0xE0 + cp / 4096 < 0xF0
    ensures (cp / 4096) * 4096 + ((cp / 64) % 64) * 64 + cp % 64 == cp
  {
    var hi := cp / 4096;
    var mid := cp % 4096;
    assert cp == hi * 4096 + mid;
    assert (cp / 64) % 64 == mid / 64;
    assert cp % 64 == mid % 64;
  }

  lemma FourOctets(cp: int)
    requires 0x10000 <= cp <= 0x10FFFF
    ensures 0xF0 <= 0xF0 + cp / 262144 < 0xF8
    ensures (cp / 262144) * 262144 + ((cp / 4096) % 64) * 4096 + ((cp / 64) % 64) * 64 + cp % 64 == cp
  {
    var hi := cp / 262144;
    var low := cp % 262144;
    assert cp == hi * 262144 + low;
    assert (cp / 4096) % 64 == low / 4096;
    assert (cp / 64) % 64 == (low % 4096) / 64;
    assert cp % 64 == low % 64;
  }

  /** Decoding the escapes of one character gives that character back and uses exactly them. */
  lemma DecodeEscapedChar(c: char, rest: string)
    ensures DecodeOne(Escapes(Utf8(c)) + rest) == Some((c, |Escapes(Utf8(c))|))
  {
    var bytes := Utf8(c);
    var s := Escapes(bytes) + rest;
    var cp := c as int;
    EscapesByteAt(bytes, rest, 0);
    assert s[0] == '%';
    if cp < 0x80 {
    } else if cp < 0x800 {
      EscapesByteAt(bytes, rest, 1);
      TwoOctets(cp);
      DecodeTwo(s, bytes[0], bytes[1]);
    } else if cp < 0x10000 {
      EscapesByteAt(bytes, rest, 1);
      EscapesByteAt(bytes, rest, 2);
      ThreeOctets(cp);
      DecodeThree(s, bytes[0], bytes[1], bytes[2]);
    } else {
      EscapesByteAt(bytes, rest, 1);
      EscapesByteAt(bytes, rest, 2);
      EscapesByteAt(bytes, rest, 3);
      FourOctets(cp);
      DecodeFour(s, bytes[0], bytes[1], bytes[2], bytes[3]);
    }
  }

  lemma DecodeTwo(s: string, b0: nat, b1: nat)
    requires s != [] && s[0] == '%'
    requires ByteAt(s, 0) == Some(b0) && ByteAt(s, 3) == Some(b1)
    requires 0xC0 <= b0 < 0xE0 && 0x80 <= b1 < 0xC0
    requires (b0 - 0xC0) * 64 + (b1 - 0x80) >= 0x80
    ensures DecodeOne(s) == Some((((b0 - 0xC0) * 64 + (b1 - 0x80)) as char, 6))
  {
  }

  lemma DecodeThree(s: string, b0: nat, b1: nat, b2: nat)
    requires s != [] && s[0] == '%'
    requires ByteAt(s, 0) == Some(b0) && ByteAt(s, 3) == Some(b1) && ByteAt(s, 6) == Some(b2)
    requires 0xE0 <= b0 < 0xF0 && 0x80 <= b1 < 0xC0 && 0x80 <= b2 < 0xC0
    requires var cp := (b0 - 0xE0) * 4096 + (b1 - 0x80) * 64 + (b2 - 0x80);
               cp >= 0x800 && !(0xD800 <= cp <= 0xDFFF)
    ensures DecodeOne(s) == Some((((b0 - 0xE0) * 4096 + (b1 - 0x80) * 64 + (b2 - 0x80)) as char, 9))
  {
  }

  lemma DecodeFour(s: string, b0: nat, b1: nat, b2: nat, b3: nat)
    requires s != [] && s[0] == '%'
    requires ByteAt(s, 0) == Some(b0) && ByteAt(s, 3) == Some(b1) && ByteAt(s, 6) == Some(b2) && ByteAt(s, 9) == Some(b3)
    requires 0xF0 <= b0 < 0xF8 && 0x80 <= b1 < 0xC0 && 0x80 <= b2 < 0xC0 && 0x80 <= b3 < 0xC0
    requires var cp := (b0 - 0xF0) * 262144 + (b1 - 0x80) * 4096 + (b2 - 0x80) * 64 + (b3 - 0x80);
               0x10000 <= cp <= 0x10FFFF
    ensures DecodeOne(s) == Some((((b0 - 0xF0) * 262144 + (b1 - 0x80) * 4096 + (b2 - 0x80) * 64 + (b3 - 0x80)) as char, 12))
  {
  }

  lemma DecodeEncodedChar(c: char, rest: string)
    ensures Decode(EncodeChar(c) + rest)
              == match Decode(rest) { case None => None case Some(t) => Some([c] + t) }
  {
    var s := EncodeChar(c) + rest;
    if IsUnreserved(c) {
      assert s[0] == c && s[1..] == rest;
    } else {
      DecodeEscapedChar(c, rest);
      assert s[|EncodeChar(c)|..] == rest;
    }
  }

  /** `decodeURIComponent(encodeURIComponent(s)) === s`. */
  lemma {:induction false} DecodeEncode(s: string)
    ensures Decode(Encode(s)) == Some(s)
  {
    if s != [] {
      DecodeEncode(s[1..]);
      DecodeEncodedChar(s[0], Encode(s[1..]));
      assert [s[0]] + s[1..] == s;
    }
  }

  /** Distinct texts have distinct encodings. */
  lemma EncodeInjective(a: string, b: string)
    ensures Encode(a) == Encode(b) <==> a == b
  {
    if Encode(a) == Encode(b) {
      DecodeEncode(a);
      DecodeEncode(b);
    }
  }
}
