/**
 * `encodeURIComponent` of the host (ECMAScript 2023, section 19.2.6.5):
 * every code point outside the unescaped set is written as the
 * percent-encoded octets of its UTF-8 form (section 2.1 of RFC 3986),
 * with upper-case hexadecimal digits. `PercentDecode` is the inverse the
 * host offers as `decodeURIComponent`; it is used here to state what the
 * encoding preserves.
 */
module UriComponent {
  import opened JsValues
  import opened JsStrings

  /** The characters `encodeURIComponent` leaves as they are: letters, digits and `-_.!~*'()`. */
  predicate IsUnescaped(c: char) {
    || ('A' <= c <= 'Z') || ('a' <= c <= 'z') || ('0' <= c <= '9')
    || c == '-' || c == '_' || c == '.' || c == '!' || c == '~' || c == '*' || c == '\'' || c == '(' || c == ')'
  }

  /** Upper-case hexadecimal digit of 0..15. */
  function HexDigit(d: int): (c: char)
    requires 0 <= d < 16
    ensures ('0' <= c <= '9') || ('A' <= c <= 'F')
  {
    if d < 10 then ('0' as int + d) as char else ('A' as int + d - 10) as char
  }

  predicate IsHexDigit(c: char) {
    ('0' <= c <= '9') || ('A' <= c <= 'F') || ('a' <= c <= 'f')
  }

  function HexValue(c: char): (d: int)
    requires IsHexDigit(c)
    ensures 0 <= d < 16
  {
    if '0' <= c <= '9' then c as int - '0' as int
    else if 'A' <= c <= 'F' then c as int - 'A' as int + 10
    else c as int - 'a' as int + 10
  }

  /** The UTF-8 octets of a Unicode scalar value. */
  function Utf8(cp: int): (octets: seq<int>)
    requires 0 <= cp <= 0x10FFFF
    ensures 1 <= |octets| <= 4
    ensures forall i :: 0 <= i < |octets| ==> 0 <= octets[i] < 256
  {
    if cp < 0x80 then [cp]
    else if cp < 0x800 then [0xC0 + cp / 64, 0x80 + cp % 64]
    else if cp < 0x10000 then [0xE0 + cp / 4096, 0x80 + (cp / 64) % 64, 0x80 + cp % 64]
    else [0xF0 + cp / 262144, 0x80 + (cp / 4096) % 64, 0x80 + (cp / 64) % 64, 0x80 + cp % 64]
  }

  /** `%HH` for one octet. */
  function Escape(b: int): (r: string)
    requires 0 <= b < 256
    ensures |r| == 3
  {
    ['%', HexDigit(b / 16), HexDigit(b % 16)]
  }

  /** `%HH` for each octet. */
  function PercentEscape(octets: seq<int>): (r: string)
    requires forall i :: 0 <= i < |octets| ==> 0 <= octets[i] < 256
    ensures |r| == 3 * |octets|
  {
    if octets == [] then "" else Escape(octets[0]) + PercentEscape(octets[1..])
  }

  /** The characters of escaped octets: `%` and hexadecimal digits. */
  lemma PercentEscapeChars(octets: seq<int>)
    requires forall i :: 0 <= i < |octets| ==> 0 <= octets[i] < 256
    ensures forall i :: 0 <= i < |PercentEscape(octets)| ==> IsEncodedChar(PercentEscape(octets)[i])
  {
  }

  /** The encoding of one character. */
  function EncodeChar(c: char): string {
    if IsUnescaped(c) then [c] else PercentEscape(Utf8(c as int))
  }

  /** The characters an encoding is made of: unescaped ones, `%` and upper-case hex digits. */
  predicate IsEncodedChar(c: char) {
    IsUnescaped(c) || c == '%' || ('A' <= c <= 'F')
  }

  /** `encodeURIComponent(s)` */
  function Encode(s: string): (r: string)
    ensures forall i :: 0 <= i < |r| ==> IsEncodedChar(r[i])
  {
    if s == [] then ""
    else
      var head := EncodeChar(s[0]);
      assert forall i :: 0 <= i < |head| ==> IsEncodedChar(head[i]) by {
        if !IsUnescaped(s[0]) {
          PercentEscapeChars(Utf8(s[0] as int));
        }
      }
      head + Encode(s[1..])
  }

  /** The encoder escapes the separators the query string is built with. */
  lemma EncodeHasNoSeparators(s: string)
    ensures forall i :: 0 <= i < |Encode(s)| ==> Encode(s)[i] !in {'&', '=', ',', '?', '#'}
  {
  }

  /** The octet written as `%HH` at position `i`, if there is one. */
  function OctetAt(s: string, i: nat): (r: Option<int>)
    ensures r.Some? ==> i + 3 <= |s| && 0 <= r.value < 256
  {
    if i + 3 <= |s| && s[i] == '%' && IsHexDigit(s[i + 1]) && IsHexDigit(s[i + 2])
    then Some(HexValue(s[i + 1]) * 16 + HexValue(s[i + 2]))
    else None
  }

  /** A UTF-8 continuation octet (10xxxxxx) written as `%HH` at position `i`. */
  function TrailAt(s: string, i: nat): (r: Option<int>)
    ensures r.Some? ==> i + 3 <= |s| && 0x80 <= r.value < 0xC0
  {
    var b := OctetAt(s, i);
    if b.Some? && 0x80 <= b.value < 0xC0 then b else None
  }

  /**
   * Decodes the escape sequence that starts `s` into one character and the
   * number of characters it used; `None` for a malformed escape or an
   * invalid UTF-8 sequence (overlong forms, surrogates, beyond U+10FFFF).
   */
  function DecodeEscape(s: string): (r: Option<(char, nat)>)
    ensures r.Some? ==> 3 <= r.value.1 <= |s|
  {
    var b0 := OctetAt(s, 0);
    if b0.None? then None
    else if b0.value < 0x80 then Some((b0.value as char, 3))
    else if 0xC2 <= b0.value <= 0xDF then
      var b1 := TrailAt(s, 3);
      if b1.None? then None
      else Some((((b0.value - 0xC0) * 64 + (b1.value - 0x80)) as char, 6))
    else if 0xE0 <= b0.value <= 0xEF then
      var b1 := TrailAt(s, 3);
      var b2 := TrailAt(s, 6);
      if b1.None? || b2.None? then None
      else
        var cp := (b0.value - 0xE0) * 4096 + (b1.value - 0x80) * 64 + (b2.value - 0x80);
        if cp < 0x800 || (0xD800 <= cp <= 0xDFFF) then None else Some((cp as char, 9))
    else if 0xF0 <= b0.value <= 0xF4 then
      var b1 := TrailAt(s, 3);
      var b2 := TrailAt(s, 6);
      var b3 := TrailAt(s, 9);
      if b1.None? || b2.None? || b3.None? then None
      else
        var cp := (b0.value - 0xF0) * 262144 + (b1.value - 0x80) * 4096 + (b2.value - 0x80) * 64 + (b3.value - 0x80);
        if cp < 0x10000 || cp > 0x10FFFF then None else Some((cp as char, 12))
    else None
  }

  /** `decodeURIComponent(s)`, with `None` where the host throws a URIError. */
  function PercentDecode(s: string): Option<string>
    decreases |s|
  {
    if s == [] then Some("")
    else if s[0] != '%' then
      match PercentDecode(s[1..])
      case None => None
      case Some(t) => Some([s[0]] + t)
    else
      match DecodeEscape(s)
      case None => None
      case Some((c, n)) =>
        match PercentDecode(s[n..])
        case None => None
        case Some(t) => Some([c] + t)
  }

  /** Reading back an escaped octet. */
  lemma OctetAtEscape(b: int, rest: string)
    requires 0 <= b < 256
    ensures OctetAt(Escape(b) + rest, 0) == Some(b)
  {
    var s := Escape(b) + rest;
    assert s[0] == '%' && s[1] == HexDigit(b / 16) && s[2] == HexDigit(b % 16);
  }

  /** Reading an octet three characters on is reading it in what follows the first escape. */
  lemma OctetAtShift(s: string, i: nat)
    requires |s| >= 3
    ensures OctetAt(s, i + 3) == OctetAt(s[3..], i)
  {
    if i + 6 <= |s| {
      assert s[i + 3] == s[3..][i] && s[i + 4] == s[3..][i + 1] && s[i + 5] == s[3..][i + 2];
    }
  }

  /** Reading the octets of two consecutive escapes. */
  lemma OctetsOf2(a: int, b: int, rest: string)
    requires 0 <= a < 256 && 0 <= b < 256
    ensures var s := Escape(a) + (Escape(b) + rest);
      OctetAt(s, 0) == Some(a) && OctetAt(s, 3) == Some(b)
  {
    var t := Escape(b) + rest;
    var s := Escape(a) + t;
    assert s[3..] == t;
    OctetAtEscape(a, t);
    OctetAtEscape(b, rest);
    OctetAtShift(s, 0);
  }

  /** Reading the octets of three consecutive escapes. */
  lemma OctetsOf3(a: int, b: int, c: int, rest: string)
    requires 0 <= a < 256 && 0 <= b < 256 && 0 <= c < 256
    ensures var s := Escape(a) + (Escape(b) + (Escape(c) + rest));
      OctetAt(s, 0) == Some(a) && OctetAt(s, 3) == Some(b) && OctetAt(s, 6) == Some(c)
  {
    var t := Escape(b) + (Escape(c) + rest);
    var s := Escape(a) + t;
    assert s[3..] == t;
    OctetsOf2(b, c, rest);
    OctetAtEscape(a, t);
    OctetAtShift(s, 0);
    OctetAtShift(s, 3);
  }

  /** Reading the octets of four consecutive escapes. */
  lemma OctetsOf4(a: int, b: int, c: int, d: int, rest: string)
    requires 0 <= a < 256 && 0 <= b < 256 && 0 <= c < 256 && 0 <= d < 256
    ensures var s := Escape(a) + (Escape(b) + (Escape(c) + (Escape(d) + rest)));
      OctetAt(s, 0) == Some(a) && OctetAt(s, 3) == Some(b) && OctetAt(s, 6) == Some(c) && OctetAt(s, 9) == Some(d)
  {
    var t := Escape(b) + (Escape(c) + (Escape(d) + rest));
    var s := Escape(a) + t;
    assert s[3..] == t;
    OctetsOf3(b, c, d, rest);
    OctetAtEscape(a, t);
    OctetAtShift(s, 0);
    OctetAtShift(s, 3);
    OctetAtShift(s, 6);
  }

  /** The escape sequence of a character below U+0080. */
  lemma DecodeEscape1(c: char, rest: string)
    requires !IsUnescaped(c) && (c as int) < 0x80
    ensures DecodeEscape(EncodeChar(c) + rest) == Some((c, 3))
  {
    var o := Utf8(c as int);
    assert EncodeChar(c) + rest == Escape(o[0]) + rest;
    OctetAtEscape(o[0], rest);
  }

  /** The escapes of a character's octets, followed by `rest`, one escape at a time. */
  lemma EscapeChain(octets: seq<int>, rest: string)
    requires |octets| >= 1 && forall i :: 0 <= i < |octets| ==> 0 <= octets[i] < 256
    ensures PercentEscape(octets) + rest == Escape(octets[0]) + (PercentEscape(octets[1..]) + rest)
  {
    var head, tail := Escape(octets[0]), PercentEscape(octets[1..]);
    assert PercentEscape(octets) == head + tail;
    ConcatAssoc(head, tail, rest);
  }


  /** The escapes of two octets, followed by `rest`. */
  lemma EscapeChain2(o: seq<int>, rest: string)
    requires |o| == 2 && 0 <= o[0] < 256 && 0 <= o[1] < 256
    ensures PercentEscape(o) + rest == Escape(o[0]) + (Escape(o[1]) + rest)
  {
    EscapeChain(o, rest);
    EscapeChain(o[1..], rest);
    assert o[1..][1..] == [];
  }

  /** The escapes of three octets, followed by `rest`. */
  lemma EscapeChain3(o: seq<int>, rest: string)
    requires |o| == 3 && 0 <= o[0] < 256 && 0 <= o[1] < 256 && 0 <= o[2] < 256
    ensures PercentEscape(o) + rest == Escape(o[0]) + (Escape(o[1]) + (Escape(o[2]) + rest))
  {
    EscapeChain(o, rest);
    EscapeChain2(o[1..], rest);
  }

  /** The escapes of four octets, followed by `rest`. */
  lemma EscapeChain4(o: seq<int>, rest: string)
    requires |o| == 4 && 0 <= o[0] < 256 && 0 <= o[1] < 256 && 0 <= o[2] < 256 && 0 <= o[3] < 256
    ensures PercentEscape(o) + rest == Escape(o[0]) + (Escape(o[1]) + (Escape(o[2]) + (Escape(o[3]) + rest)))
  {
    EscapeChain(o, rest);
    EscapeChain3(o[1..], rest);
  }

  /** Decoding two escapes that form a valid two-octet UTF-8 sequence. */
  lemma DecodeOctets2(a: int, b: int, rest: string)
    requires 0xC2 <= a <= 0xDF && 0x80 <= b < 0xC0
    ensures DecodeEscape(Escape(a) + (Escape(b) + rest)) == Some((((a - 0xC0) * 64 + (b - 0x80)) as char, 6))
  {
    OctetsOf2(a, b, rest);
  }

  /** Decoding three escapes that form a valid three-octet UTF-8 sequence. */
  lemma DecodeOctets3(a: int, b: int, c: int, rest: string)
    requires 0xE0 <= a <= 0xEF && 0x80 <= b < 0xC0 && 0x80 <= c < 0xC0
    requires var cp := (a - 0xE0) * 4096 + (b - 0x80) * 64 + (c - 0x80);
      0x800 <= cp && !(0xD800 <= cp <= 0xDFFF)
    ensures var cp := (a - 0xE0) * 4096 + (b - 0x80) * 64 + (c - 0x80);
      DecodeEscape(Escape(a) + (Escape(b) + (Escape(c) + rest))) == Some((cp as char, 9))
  {
    var s := Escape(a) + (Escape(b) + (Escape(c) + rest));
    OctetsOf3(a, b, c, rest);
    assert OctetAt(s, 0) == Some(a) && TrailAt(s, 3) == Some(b) && TrailAt(s, 6) == Some(c);
  }

  /** The two octets of a code point from U+0080 to U+07FF: a valid lead and trail that put it back together. */
  lemma Utf8Octets2(cp: int)
    requires 0x80 <= cp < 0x800
    ensures var o := Utf8(cp);
      && |o| == 2 && 0xC2 <= o[0] <= 0xDF && 0x80 <= o[1] < 0xC0
      && (o[0] - 0xC0) * 64 + (o[1] - 0x80) == cp
  {
    assert cp == (cp / 64) * 64 + cp % 64;
  }

  /** The three octets of a code point from U+0800 to U+FFFF. */
  lemma Utf8Octets3(cp: int)
    requires 0x800 <= cp < 0x10000
    ensures var o := Utf8(cp);
      && |o| == 3 && 0xE0 <= o[0] <= 0xEF && 0x80 <= o[1] < 0xC0 && 0x80 <= o[2] < 0xC0
      && (o[0] - 0xE0) * 4096 + (o[1] - 0x80) * 64 + (o[2] - 0x80) == cp
  {
    Split3(cp);
  }

  /** The four octets of a supplementary code point. */
  lemma Utf8Octets4(cp: int)
    requires 0x10000 <= cp <= 0x10FFFF
    ensures var o := Utf8(cp);
      && |o| == 4 && 0xF0 <= o[0] <= 0xF4 && 0x80 <= o[1] < 0xC0 && 0x80 <= o[2] < 0xC0 && 0x80 <= o[3] < 0xC0
      && (o[0] - 0xF0) * 262144 + (o[1] - 0x80) * 4096 + (o[2] - 0x80) * 64 + (o[3] - 0x80) == cp
  {
    Split4(cp);
  }

  /** The escape sequence of a character from U+0080 to U+07FF. */
  lemma DecodeEscape2(c: char, rest: string)
    requires 0x80 <= (c as int) < 0x800
    ensures DecodeEscape(EncodeChar(c) + rest) == Some((c, 6))
  {
    var o := Utf8(c as int);
    Utf8Octets2(c as int);
    EscapeChain2(o, rest);
    DecodeOctets2(o[0], o[1], rest);
  }

  /** The escape sequence of a character from U+0800 to U+FFFF. */
  lemma DecodeEscape3(c: char, rest: string)
    requires 0x800 <= (c as int) < 0x10000
    ensures DecodeEscape(EncodeChar(c) + rest) == Some((c, 9))
  {
    var o := Utf8(c as int);
    Utf8Octets3(c as int);
    EscapeChain3(o, rest);
    DecodeOctets3(o[0], o[1], o[2], rest);
  }

  /** Decoding four escapes that form a valid four-octet UTF-8 sequence. */
  lemma DecodeOctets4(a: int, b: int, c: int, d: int, rest: string)
    requires 0xF0 <= a <= 0xF4 && 0x80 <= b < 0xC0 && 0x80 <= c < 0xC0 && 0x80 <= d < 0xC0
    requires 0x10000 <= (a - 0xF0) * 262144 + (b - 0x80) * 4096 + (c - 0x80) * 64 + (d - 0x80) <= 0x10FFFF
    ensures var cp := (a - 0xF0) * 262144 + (b - 0x80) * 4096 + (c - 0x80) * 64 + (d - 0x80);
      DecodeEscape(Escape(a) + (Escape(b) + (Escape(c) + (Escape(d) + rest))))
        == Some((cp as char, 12))
  {
    var s := Escape(a) + (Escape(b) + (Escape(c) + (Escape(d) + rest)));
    OctetsOf4(a, b, c, d, rest);
    assert OctetAt(s, 0) == Some(a) && TrailAt(s, 3) == Some(b) && TrailAt(s, 6) == Some(c) && TrailAt(s, 9) == Some(d);
  }

  /** The escape sequence of a supplementary character. */
  lemma DecodeEscape4(c: char, rest: string)
    requires 0x10000 <= (c as int)
    ensures DecodeEscape(EncodeChar(c) + rest) == Some((c, 12))
  {
    var o := Utf8(c as int);
    Utf8Octets4(c as int);
    EscapeChain4(o, rest);
    DecodeOctets4(o[0], o[1], o[2], o[3], rest);
  }

  /** The escape sequence of a character that must be escaped decodes to that character. */
  lemma DecodeEscapeChar(c: char, rest: string)
    requires !IsUnescaped(c)
    ensures DecodeEscape(EncodeChar(c) + rest) == Some((c, |EncodeChar(c)|))
  {
    var cp := c as int;
    if cp < 0x80 {
      DecodeEscape1(c, rest);
    } else if cp < 0x800 {
      DecodeEscape2(c, rest);
    } else if cp < 0x10000 {
      DecodeEscape3(c, rest);
    } else {
      DecodeEscape4(c, rest);
    }
  }

  /** The three 6-bit groups of a code point below U+10000 put back together. */
  lemma Split3(cp: int)
    requires 0 <= cp < 0x10000
    ensures (cp / 4096) * 4096 + ((cp / 64) % 64) * 64 + cp % 64 == cp
    ensures cp / 4096 < 16
  {
    var q := cp / 64;
    assert cp == q * 64 + cp % 64;
    assert q == (q / 64) * 64 + q % 64;
    assert q / 64 == cp / 4096;
  }

  /** The four groups of a supplementary code point put back together. */
  lemma Split4(cp: int)
    requires 0x10000 <= cp <= 0x10FFFF
    ensures (cp / 262144) * 262144 + ((cp / 4096) % 64) * 4096 + ((cp / 64) % 64) * 64 + cp % 64 == cp
    ensures 1 <= cp / 4096 && cp / 262144 <= 4
  {
    var q := cp / 64;
    var q2 := q / 64;
    assert cp == q * 64 + cp % 64;
    assert q == q2 * 64 + q % 64;
    assert q2 == (q2 / 64) * 64 + q2 % 64;
    assert q2 == cp / 4096;
    assert q2 / 64 == cp / 262144;
  }

  /** Round trip: `decodeURIComponent(encodeURIComponent(s)) == s`. */
  lemma {:induction false} DecodeEncode(s: string)
    ensures PercentDecode(Encode(s)) == Some(s)
    decreases |s|
  {
    if s != [] {
      var c := s[0];
      var head := EncodeChar(c);
      var rest := Encode(s[1..]);
      assert Encode(s) == head + rest;
      DecodeEncode(s[1..]);
      if IsUnescaped(c) {
        assert (head + rest)[1..] == rest;
      } else {
        DecodeEscapeChar(c, rest);
        assert (head + rest)[|head|..] == rest;
      }
      assert s == [c] + s[1..];
    }
  }

  /** Distinct strings have distinct encodings. */
  lemma EncodeInjective(s: string, t: string)
    requires Encode(s) == Encode(t)
    ensures s == t
  {
    DecodeEncode(s);
    DecodeEncode(t);
  }
}
