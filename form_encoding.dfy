/**
 * The application/x-www-form-urlencoded encoding of a string with the UTF-8
 * charset, as java.net.URLEncoder.encode(s, "UTF-8") does it (section
 * 17.13.4.1 of HTML 4.01): ASCII letters, digits and the four characters
 * ".-*_" are kept, a space becomes '+', and every other character becomes the
 * %XY escapes, upper-case hexadecimal, of its UTF-8 bytes.
 */
module FormEncoding {

  /** Characters that URLEncoder leaves as they are. */
  predicate Unreserved(c: char)
  {
    || 'a' <= c <= 'z' || 'A' <= c <= 'Z' || '0' <= c <= '9'
    || c == '.' || c == '-' || c == '*' || c == '_'
  }

  /** Characters that can occur in URLEncoder's output. */
  predicate EncodedChar(c: char)
  {
    Unreserved(c) || c == '+' || c == '%'
  }

  /** Upper-case hexadecimal digit of a value below 16. */
  function HexChar(d: nat): (c: char)
    requires d < 16
    ensures '0' <= c <= '9' || 'A' <= c <= 'F'
  {
    if d < 10 then ('0' as int + d) as char else ('A' as int + d - 10) as char
  }

  /** Value of a hexadecimal digit; 0 for anything else. */
  function HexValue(c: char): (d: nat)
    ensures d < 16
  {
    if '0' <= c <= '9' then c as int - '0' as int
    else if 'A' <= c <= 'F' then c as int - 'A' as int + 10
    else if 'a' <= c <= 'f' then c as int - 'a' as int + 10
    else 0
  }

  /** The UTF-8 bytes of one character (a Unicode scalar value). */
  function Utf8Bytes(c: char): (r: seq<nat>)
    ensures 1 <= |r| <= 4
    ensures forall k :: 0 <= k < |r| ==> r[k] < 256
    ensures c as int < 0x80 <==> |r| == 1
    ensures |r| == 1 ==> r[0] == c as int
  {
    var n := c as int;
    if n < 0x80 then [n]
    else if n < 0x800 then [0xC0 + n / 0x40, 0x80 + n % 0x40]
    else if n < 0x1_0000 then [0xE0 + n / 0x1000, 0x80 + (n / 0x40) % 0x40, 0x80 + n % 0x40]
    else [0xF0 + n / 0x4_0000, 0x80 + (n / 0x1000) % 0x40, 0x80 + (n / 0x40) % 0x40, 0x80 + n % 0x40]
  }

  /** "%XY" for each byte. */
  function PercentBytes(bytes: seq<nat>): (r: string)
    requires forall k :: 0 <= k < |bytes| ==> bytes[k] < 256
    ensures |r| == 3 * |bytes|
    ensures forall k :: 0 <= k < |r| ==> EncodedChar(r[k])
  {
    if bytes == [] then []
    else ['%', HexChar(bytes[0] / 16), HexChar(bytes[0] % 16)] + PercentBytes(bytes[1..])
  }

  function EncodeChar(c: char): string
  {
    if Unreserved(c) then [c]
    else if c == ' ' then "+"
    else PercentBytes(Utf8Bytes(c))
  }

  /**
   * URLEncoder.encode(s, "UTF-8"). Its output is made of kept characters,
   * '+' and escapes only, so it never holds the '&' and '=' that structure a
   * query string.
   */
  function FormEncodeUtf8(s: string): (r: string)
    ensures forall k :: 0 <= k < |r| ==> EncodedChar(r[k])
    ensures '&' !in r && '=' !in r
    ensures |s| <= |r|
  {
    if s == [] then [] else EncodeChar(s[0]) + FormEncodeUtf8(s[1..])
  }

  /** A string made only of unreserved characters is its own encoding. */
  lemma {:induction false} FormEncodeKeepsUnreserved(s: string)
    requires forall k :: 0 <= k < |s| ==> Unreserved(s[k])
    ensures FormEncodeUtf8(s) == s
  {
    if s != [] {
      FormEncodeKeepsUnreserved(s[1..]);
    }
  }

  /**
   * The decoding URLDecoder.decode applies, restricted to escapes of ASCII
   * bytes: '+' is a space, "%XY" the byte XY, anything else itself.
   */
  function FormDecodeAscii(t: string): string
    decreases |t|
  {
    if t == [] then []
    else if t[0] == '+' then [' '] + FormDecodeAscii(t[1..])
    else if t[0] == '%' && |t| >= 3 then
      [(HexValue(t[1]) * 16 + HexValue(t[2])) as char] + FormDecodeAscii(t[3..])
    else [t[0]] + FormDecodeAscii(t[1..])
  }

  lemma DecodeEncodedChar(c: char, rest: string)
    requires c as int < 0x80
    ensures FormDecodeAscii(EncodeChar(c) + rest) == [c] + FormDecodeAscii(rest)
  {
    var t := EncodeChar(c) + rest;
    if Unreserved(c) {
      assert t[1..] == rest;
    } else if c == ' ' {
      assert t[1..] == rest;
    } else {
      var b := c as int;
      assert Utf8Bytes(c) == [b];
      assert EncodeChar(c) == ['%', HexChar(b / 16), HexChar(b % 16)];
      assert t[3..] == rest;
      assert HexValue(HexChar(b / 16)) * 16 + HexValue(HexChar(b % 16)) == b;
    }
  }

  /** On ASCII text, decoding undoes URLEncoder's encoding. */
  lemma {:induction false} FormDecodeAsciiRoundTrip(s: string)
    requires forall k :: 0 <= k < |s| ==> s[k] as int < 0x80
    ensures FormDecodeAscii(FormEncodeUtf8(s)) == s
  {
    if s != [] {
      DecodeEncodedChar(s[0], FormEncodeUtf8(s[1..]));
      FormDecodeAsciiRoundTrip(s[1..]);
    }
  }
}
