/** `encodeURIComponent` (the URI handling functions of section 19.2.6 of
    ECMA-262): every character outside `A-Z a-z 0-9 - _ . ! ~ * ' ( )` is
    written as the percent-encoding of section 2.1 of RFC 3986 of its UTF-8
    bytes, with upper-case hexadecimal digits. A byte-level decoder is the partner that
    shows nothing is lost. */
module UriComponent {
  import opened Types

  newtype byte = x: int | 0 <= x < 256

  /** The characters `encodeURIComponent` leaves as they are:
      `A-Z a-z 0-9 - _ . ! ~ * ' ( )`. */
  predicate Unreserved(c: char) {
    ('A' <= c <= 'Z') || ('a' <= c <= 'z') || ('0' <= c <= '9')
    || c == '-' || c == '_' || c == '.' || c == '!' || c == '~' || c == '*'
    || c == '\'' || c == '(' || c == ')'
  }

  predicate IsUpperHex(c: char) {
    ('0' <= c <= '9') || ('A' <= c <= 'F')
  }

  predicate IsHex(c: char) {
    IsUpperHex(c) || ('a' <= c <= 'f')
  }

  /** The UTF-8 encoding of one Unicode scalar value. */
  function Utf8Char(c: char): (r: seq<byte>)
    ensures 1 <= |r| <= 4
    ensures (|r| == 1) == (c as int < 0x80)
    ensures |r| == 1 ==> r[0] as int == c as int
  {
    var cp := c as int;
    if cp < 0x80 then [cp as byte]
    else if cp < 0x800 then [(0xC0 + cp / 0x40) as byte, (0x80 + cp % 0x40) as byte]
    else if cp < 0x10000 then
      [(0xE0 + cp / 0x1000) as byte, (0x80 + (cp / 0x40) % 0x40) as byte, (0x80 + cp % 0x40) as byte]
    else
      [(0xF0 + cp / 0x40000) as byte, (0x80 + (cp / 0x1000) % 0x40) as byte,
       (0x80 + (cp / 0x40) % 0x40) as byte, (0x80 + cp % 0x40) as byte]
  }

  /** The UTF-8 encoding of a string. */
  function Utf8(s: string): seq<byte> {
    if s == [] then [] else Utf8Char(s[0]) + Utf8(s[1..])
  }

  function HexDigit(n: nat): (c: char)
    requires n < 16
    ensures IsUpperHex(c)
  {
    if n < 10 then ('0' as int + n) as char else ('A' as int + n - 10) as char
  }

  function HexValue(c: char): (n: nat)
    requires IsHex(c)
    ensures n < 16
  {
    if '0' <= c <= '9' then c as int - '0' as int
    else if 'A' <= c <= 'F' then c as int - 'A' as int + 10
    else c as int - 'a' as int + 10
  }

  /** `%XX` for one byte. */
  function PercentByte(b: byte): string {
    ['%', HexDigit(b as nat / 16), HexDigit(b as nat % 16)]
  }

  function PercentBytes(bs: seq<byte>): (r: string)
    ensures |r| == 3 * |bs|
  {
    if bs == [] then [] else PercentByte(bs[0]) + PercentBytes(bs[1..])
  }

  function EncodeChar(c: char): string {
    if Unreserved(c) then [c] else PercentBytes(Utf8Char(c))
  }

  /** `encodeURIComponent`: what comes out is made only of unreserved
      characters, `%` and upper-case hexadecimal digits. */
  function EncodeUriComponent(s: string): (r: string)
    ensures forall i :: 0 <= i < |r| ==> Unreserved(r[i]) || r[i] == '%' || IsUpperHex(r[i])
  {
    if s == [] then []
    else
      PercentBytesAlphabet(Utf8Char(s[0]));
      EncodeChar(s[0]) + EncodeUriComponent(s[1..])
  }

  lemma {:induction false} PercentBytesAlphabet(bs: seq<byte>)
    ensures forall i :: 0 <= i < |PercentBytes(bs)| ==> PercentBytes(bs)[i] == '%' || IsUpperHex(PercentBytes(bs)[i])
  {
    if bs != [] {
      PercentBytesAlphabet(bs[1..]);
    }
  }

  /** Encoding works character by character, so it distributes over
      concatenation. */
  lemma {:induction false} EncodeAppend(a: string, b: string)
    ensures EncodeUriComponent(a + b) == EncodeUriComponent(a) + EncodeUriComponent(b)
  {
    if a == [] {
      assert a + b == b;
    } else {
      assert (a + b)[1..] == a[1..] + b;
      EncodeAppend(a[1..], b);
    }
  }

  /** The encoded text never holds a character that means something in a
      query string, so it cannot split one. */
  lemma EncodedIsQuerySafe(s: string)
    ensures '&' !in EncodeUriComponent(s) && '=' !in EncodeUriComponent(s)
    ensures '/' !in EncodeUriComponent(s) && '?' !in EncodeUriComponent(s)
    ensures '#' !in EncodeUriComponent(s) && ' ' !in EncodeUriComponent(s)
  {
    var r := EncodeUriComponent(s);
    forall i | 0 <= i < |r|
      ensures r[i] != '&' && r[i] != '=' && r[i] != '/' && r[i] != '?' && r[i] != '#' && r[i] != ' '
    {
      assert Unreserved(r[i]) || r[i] == '%' || IsUpperHex(r[i]);
    }
  }

  /** Percent-decoding to bytes: a `%` must start a triple of a `%` and two
      hexadecimal digits; any other character stands for its UTF-8 bytes. */
  function PercentDecode(e: string): Option<seq<byte>> {
    if e == [] then Some([])
    else if e[0] == '%' then
      if |e| >= 3 && IsHex(e[1]) && IsHex(e[2]) then
        match PercentDecode(e[3..])
        case None => None
        case Some(rest) => Some([(16 * HexValue(e[1]) + HexValue(e[2])) as byte] + rest)
      else None
    else
      match PercentDecode(e[1..])
      case None => None
      case Some(rest) => Some(Utf8Char(e[0]) + rest)
  }

  lemma HexRoundTrip(n: nat)
    requires n < 16
    ensures HexValue(HexDigit(n)) == n
  {
  }

  lemma {:induction false} DecodePercentBytes(bs: seq<byte>, tail: string)
    ensures PercentDecode(PercentBytes(bs) + tail) ==
      match PercentDecode(tail)
      case None => None
      case Some(rest) => Some(bs + rest)
  {
    if bs != [] {
      var b := bs[0];
      HexRoundTrip(b as nat / 16);
      HexRoundTrip(b as nat % 16);
      var e := PercentBytes(bs) + tail;
      assert e == PercentByte(b) + (PercentBytes(bs[1..]) + tail);
      assert e[0] == '%' && e[1] == HexDigit(b as nat / 16) && e[2] == HexDigit(b as nat % 16);
      assert e[3..] == PercentBytes(bs[1..]) + tail;
      assert (16 * HexValue(e[1]) + HexValue(e[2])) as byte == b;
      DecodePercentBytes(bs[1..], tail);
      match PercentDecode(tail)
      case None =>
      case Some(rest) =>
        assert PercentDecode(e[3..]) == Some(bs[1..] + rest);
        assert [b] + (bs[1..] + rest) == bs + rest;
    } else {
      assert PercentBytes(bs) + tail == tail;
      match PercentDecode(tail)
      case None =>
      case Some(rest) => assert bs + rest == rest;
    }
  }

  /** Decoding what `encodeURIComponent` produced gives back exactly the
      UTF-8 bytes of the original text. */
  lemma {:induction false} DecodeEncode(s: string)
    ensures PercentDecode(EncodeUriComponent(s)) == Some(Utf8(s))
  {
    if s != [] {
      var c := s[0];
      DecodeEncode(s[1..]);
      var tail := EncodeUriComponent(s[1..]);
      if Unreserved(c) {
        assert ([c] + tail)[1..] == tail;
      } else {
        DecodePercentBytes(Utf8Char(c), tail);
      }
    }
  }

  /** For ASCII text the decoded bytes are the characters' own codes, so the
      round trip returns the text itself. */
  lemma {:induction false} Utf8OfAscii(s: string)
    requires forall i :: 0 <= i < |s| ==> s[i] as int < 0x80
    ensures |Utf8(s)| == |s|
    ensures forall i :: 0 <= i < |s| ==> Utf8(s)[i] as int == s[i] as int
  {
    if s != [] {
      Utf8OfAscii(s[1..]);
    }
  }

  /** Concrete cases: plain words pass through, a space becomes `%20` and
      an ampersand `%26`. */
  lemma EncodeExamples()
    ensures EncodeUriComponent("Gym") == "Gym"
    ensures EncodeUriComponent("a b&c") == "a%20b%26c"
  {
    assert EncodeChar(' ') == "%20" && EncodeChar('&') == "%26";
  }

  /** A non-ASCII letter becomes the encoding of its two UTF-8 bytes. */
  lemma EncodeNonAsciiExample()
    ensures EncodeUriComponent("ñ") == "%C3%B1"
  {
    assert Utf8Char('ñ') == [0xC3, 0xB1];
    assert PercentByte(0xC3) == "%C3" && PercentByte(0xB1) == "%B1";
  }
}
