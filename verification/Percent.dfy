/** `urllib.parse.quote(text, safe="")`: percent-encoding of a whole path
    segment, and its inverse (RFC 3986 sections 2.1 and 2.3, RFC 3629 for the
    bytes underneath). */
module Percent {
  import opened JsonValues

  type Byte = b: int | 0 <= b < 256

  // ------------------------------------------------------------------- UTF-8

  function Utf8Char(c: char): (bytes: seq<Byte>)
    ensures 1 <= |bytes| <= 4
  {
    var n := c as int;
    if n < 0x80 then [n]
    else if n < 0x800 then [0xC0 + n / 64, 0x80 + n % 64]
    else if n < 0x1_0000 then [0xE0 + n / 4096, 0x80 + n / 64 % 64, 0x80 + n % 64]
    else [0xF0 + n / 262144, 0x80 + n / 4096 % 64, 0x80 + n / 64 % 64, 0x80 + n % 64]
  }

  function Utf8(s: string): seq<Byte>
  {
    if s == [] then [] else Utf8Char(s[0]) + Utf8(s[1..])
  }

  predicate Continuation(b: Byte)
  {
    0x80 <= b < 0xC0
  }

  /** How many octets a character takes, by its lead octet; none leads with
      zero. */
  function CharLength(lead: Byte): nat
  {
    if lead < 0x80 then 1 else if lead < 0xC0 then 0 else if lead < 0xE0 then 2 else if lead < 0xF0 then 3 else 4
  }

  function Low(b: Byte): int
  {
    b as int - 0x80
  }

  /** The number the first `CharLength` octets spell. */
  function Spelled(b: seq<Byte>): int
    requires b != [] && 1 <= CharLength(b[0]) <= |b|
  {
    var lead := b[0] as int;
    match CharLength(b[0])
    case 1 => lead
    case 2 => (lead - 0xC0) * 64 + Low(b[1])
    case 3 => (lead - 0xE0) * 4096 + Low(b[1]) * 64 + Low(b[2])
    case _ => (lead - 0xF0) * 262144 + Low(b[1]) * 4096 + Low(b[2]) * 64 + Low(b[3])
  }

  /** A scalar value, in its shortest form. */
  predicate Scalar(n: int, length: nat)
  {
    && (0 <= n < 0xD800 || 0xE000 <= n < 0x11_0000)
    && (length == 2 ==> n >= 0x80) && (length == 3 ==> n >= 0x800) && (length == 4 ==> n >= 0x1_0000)
  }

  /** RFC 3629: octets that are not the UTF-8 of any text decode to nothing. */
  function Utf8Decode(b: seq<Byte>): Option<string>
    decreases |b|
  {
    if b == [] then Some([])
    else
      var n := CharLength(b[0]);
      if n == 0 || |b| < n || (exists i :: 1 <= i < n && !Continuation(b[i])) || !Scalar(Spelled(b), n) then None
      else match Utf8Decode(b[n..])
        case None => None
        case Some(rest) => Some([Spelled(b) as char] + rest)
  }

  lemma Utf8CharRoundTrip(c: char, rest: seq<Byte>)
    ensures
      match Utf8Decode(rest)
      case None => Utf8Decode(Utf8Char(c) + rest) == None
      case Some(t) => Utf8Decode(Utf8Char(c) + rest) == Some([c] + t)
  {
    var b := Utf8Char(c) + rest;
    assert b[|Utf8Char(c)|..] == rest;
    Utf8CharSpells(c, rest);
  }

  lemma Utf8CharSpells(c: char, rest: seq<Byte>)
    ensures var b := Utf8Char(c) + rest;
            && CharLength(b[0]) == |Utf8Char(c)| && Spelled(b) == c as int && Scalar(c as int, CharLength(b[0]))
            && forall i :: 1 <= i < CharLength(b[0]) ==> Continuation(b[i])
  {
    var n := c as int;
    assert n == n / 64 * 64 + n % 64;
    assert n / 64 == n / 4096 * 64 + n / 64 % 64;
    assert n / 4096 == n / 262144 * 64 + n / 4096 % 64;
  }

  lemma {:induction false} Utf8RoundTrip(s: string)
    ensures Utf8Decode(Utf8(s)) == Some(s)
  {
    if s != [] {
      Utf8RoundTrip(s[1..]);
      Utf8CharRoundTrip(s[0], Utf8(s[1..]));
      assert s == [s[0]] + s[1..];
    }
  }

  // --------------------------------------------------------- percent-encoding

  /** RFC 3986 section 2.3. */
  predicate Unreserved(b: Byte)
  {
    || ('A' as int <= b <= 'Z' as int) || ('a' as int <= b <= 'z' as int) || ('0' as int <= b <= '9' as int)
    || b == '-' as int || b == '.' as int || b == '_' as int || b == '~' as int
  }

  function HexDigit(d: int): (c: char)
    requires 0 <= d < 16
    ensures '0' <= c <= '9' || 'A' <= c <= 'F'
  {
    if d < 10 then ('0' as int + d) as char else ('A' as int + d - 10) as char
  }

  function HexValue(c: char): int
  {
    if '0' <= c <= '9' then c as int - '0' as int
    else if 'A' <= c <= 'F' then c as int - 'A' as int + 10
    else if 'a' <= c <= 'f' then c as int - 'a' as int + 10
    else -1
  }

  function QuoteByte(b: Byte): string
  {
    if Unreserved(b) then [b as char] else ['%', HexDigit(b / 16), HexDigit(b % 16)]
  }

  function QuoteBytes(bytes: seq<Byte>): string
  {
    if bytes == [] then [] else QuoteByte(bytes[0]) + QuoteBytes(bytes[1..])
  }

  /** `quote(text, safe="")` */
  function Quote(text: string): string
  {
    QuoteBytes(Utf8(text))
  }

  /** RFC 3986 section 2.1: each `%XX` is one byte, any other ASCII character
      is itself. */
  function Unquote(s: string): Option<seq<Byte>>
    decreases |s|
  {
    if s == [] then Some([])
    else if s[0] == '%' then
      if |s| < 3 || HexValue(s[1]) < 0 || HexValue(s[2]) < 0 then None
      else match Unquote(s[3..])
        case None => None
        case Some(rest) => Some([16 * HexValue(s[1]) + HexValue(s[2])] + rest)
    else if s[0] as int >= 0x80 then None
    else match Unquote(s[1..])
      case None => None
      case Some(rest) => Some([s[0] as int] + rest)
  }

  lemma HexRoundTrip(d: int)
    requires 0 <= d < 16
    ensures HexValue(HexDigit(d)) == d
  {
  }

  lemma QuoteByteRoundTrip(b: Byte, rest: string, bytes: seq<Byte>)
    requires Unquote(rest) == Some(bytes)
    ensures Unquote(QuoteByte(b) + rest) == Some([b] + bytes)
  {
    var s := QuoteByte(b) + rest;
    if Unreserved(b) {
      assert s[1..] == rest;
    } else {
      assert s[3..] == rest;
      HexRoundTrip(b / 16);
      HexRoundTrip(b % 16);
    }
  }

  lemma {:induction false} QuoteRoundTrip(bytes: seq<Byte>)
    ensures Unquote(QuoteBytes(bytes)) == Some(bytes)
  {
    if bytes != [] {
      QuoteRoundTrip(bytes[1..]);
      QuoteByteRoundTrip(bytes[0], QuoteBytes(bytes[1..]), bytes[1..]);
      assert bytes == [bytes[0]] + bytes[1..];
    }
  }

  /** A quoted value is one segment: nothing in it separates. */
  lemma {:induction false} QuoteHidesReserved(bytes: seq<Byte>)
    ensures forall c :: c in QuoteBytes(bytes) ==> c == '%' || (c as int < 256 && Unreserved(c as int))
  {
    if bytes != [] { QuoteHidesReserved(bytes[1..]); }
  }

  /** The text itself comes back from its segment. */
  lemma SegmentRoundTrip(text: string)
    ensures Unquote(Quote(text)) == Some(Utf8(text))
    ensures Utf8Decode(Unquote(Quote(text)).value) == Some(text)
    ensures '/' !in Quote(text)
  {
    QuoteRoundTrip(Utf8(text));
    Utf8RoundTrip(text);
    QuoteHidesReserved(Utf8(text));
  }
}
