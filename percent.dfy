/**
 * Envelope file names: `urllib.parse.quote(content_id, safe='')`. The text is
 * encoded as UTF-8 and every byte outside the unreserved set of section 2.3
 * of RFC 3986 becomes a percent-encoded octet (section 2.1 of RFC 3986),
 * written with upper-case hexadecimal digits.
 */
module Percent {
  import opened Wrappers

  type Byte = b: int | 0 <= b < 256

  /** The UTF-8 encoding of one Unicode scalar value. */
  function Utf8Char(c: char): (bs: seq<Byte>)
    ensures 1 <= |bs| <= 4
  {
    var cp := c as int;
    if cp < 0x80 then [cp]
    else if cp < 0x800 then [0xC0 + cp / 64, 0x80 + cp % 64]
    else if cp < 0x10000 then [0xE0 + cp / 4096, 0x80 + (cp / 64) % 64, 0x80 + cp % 64]
    else [0xF0 + cp / 262144, 0x80 + (cp / 4096) % 64, 0x80 + (cp / 64) % 64, 0x80 + cp % 64]
  }

  /** `s.encode('utf-8')`. */
  function Utf8(s: string): seq<Byte>
  {
    if s == [] then [] else Utf8Char(s[0]) + Utf8(s[1..])
  }

  /** ALPHA, DIGIT, `-`, `.`, `_` and `~`: the bytes `quote` never escapes. */
  predicate IsUnreserved(b: int)
  {
    ('A' as int <= b <= 'Z' as int) || ('a' as int <= b <= 'z' as int) ||
    ('0' as int <= b <= '9' as int) ||
    b == '-' as int || b == '.' as int || b == '_' as int || b == '~' as int
  }

  /** The upper-case hexadecimal digit for a value below 16. */
  function HexDigit(v: int): (c: char)
    requires 0 <= v < 16
  {
    if v < 10 then ('0' as int + v) as char else ('A' as int + v - 10) as char
  }

  predicate IsHexDigit(c: char)
  {
    '0' <= c <= '9' || 'A' <= c <= 'F'
  }

  /** The characters that can appear in a quoted string. */
  predicate IsQuotedChar(c: char)
  {
    IsUnreserved(c as int) || c == '%' || IsHexDigit(c)
  }

  function QuoteByte(b: Byte): string
  {
    if IsUnreserved(b) then [b as char] else ['%', HexDigit(b / 16), HexDigit(b % 16)]
  }

  /** `quote_from_bytes(bs, safe='')`. Only unreserved characters, `%` and hex digits come out. */
  function QuoteBytes(bs: seq<Byte>): (r: string)
    ensures forall i :: 0 <= i < |r| ==> IsQuotedChar(r[i])
    ensures |bs| <= |r| <= 3 * |bs|
  {
    if bs == [] then [] else QuoteByte(bs[0]) + QuoteBytes(bs[1..])
  }

  /** `quote(s, safe='')`: no slash survives, so the result is a single path segment. */
  function Quote(s: string): (r: string)
    ensures forall i :: 0 <= i < |r| ==> r[i] != '/' && IsQuotedChar(r[i])
  {
    QuoteBytes(Utf8(s))
  }

  function HexValue(c: char): (v: int)
    requires IsHexDigit(c)
    ensures 0 <= v < 16 && HexDigit(v) == c
  {
    if '0' <= c <= '9' then c as int - '0' as int else c as int - 'A' as int + 10
  }

  /** Percent-decoding of a quoted string back to its octets; `None` for text `quote` cannot produce. */
  function Unquote(t: string): Option<seq<Byte>>
  {
    if t == [] then Some([])
    else if t[0] == '%' then
      if |t| >= 3 && IsHexDigit(t[1]) && IsHexDigit(t[2]) then
        match Unquote(t[3..])
        case Some(rest) => Some([HexValue(t[1]) * 16 + HexValue(t[2])] + rest)
        case None => None
      else None
    else if IsUnreserved(t[0] as int) then
      match Unquote(t[1..])
      case Some(rest) => Some([t[0] as int] + rest)
      case None => None
    else None
  }

  /** Decoding a quoted byte string gives the bytes back. */
  lemma {:induction false} UnquoteQuoteBytes(bs: seq<Byte>)
    ensures Unquote(QuoteBytes(bs)) == Some(bs)
  {
    if bs != [] {
      var b, rest := bs[0], bs[1..];
      var t := QuoteBytes(bs);
      UnquoteQuoteBytes(rest);
      if IsUnreserved(b) {
        assert t == [b as char] + QuoteBytes(rest);
        assert t[0] != '%' && IsUnreserved(t[0] as int);
        assert t[1..] == QuoteBytes(rest);
      } else {
        assert t == ['%', HexDigit(b / 16), HexDigit(b % 16)] + QuoteBytes(rest);
        assert t[3..] == QuoteBytes(rest);
        assert HexValue(t[1]) == b / 16 && HexValue(t[2]) == b % 16;
        assert (b / 16) * 16 + b % 16 == b;
      }
      assert bs == [b] + rest;
    }
  }

  /** Decoding a quoted string gives its UTF-8 bytes back. */
  lemma UnquoteQuote(s: string)
    ensures Unquote(Quote(s)) == Some(Utf8(s))
  {
    UnquoteQuoteBytes(Utf8(s));
  }

  /** The lead byte of a character's encoding tells how many bytes follow. */
  function EncodedLength(lead: Byte): nat
  {
    if lead < 0x80 then 1 else if lead < 0xE0 then 2 else if lead < 0xF0 then 3 else 4
  }

  lemma Utf8CharLength(c: char)
    ensures EncodedLength(Utf8Char(c)[0]) == |Utf8Char(c)|
  {
  }

  lemma Utf8CharInjective(c: char, d: char)
    requires Utf8Char(c) == Utf8Char(d)
    ensures c == d
  {
    var cp, dp := c as int, d as int;
    if cp >= 0x80 {
      SixBits(cp);
      SixBits(dp);
      if cp >= 0x800 {
        SixBits(cp / 64);
        SixBits(dp / 64);
        if cp >= 0x10000 {
          SixBits(cp / 4096);
          SixBits(dp / 4096);
        }
      }
    }
  }

  lemma SixBits(n: int)
    requires n >= 0
    ensures n == (n / 64) * 64 + n % 64
    ensures n / 64 / 64 == n / 4096 && n / 4096 / 64 == n / 262144
  {
  }

  /** Distinct strings have distinct UTF-8 encodings. */
  lemma {:induction false} Utf8Injective(s: string, u: string)
    requires Utf8(s) == Utf8(u)
    ensures s == u
  {
    if s == [] || u == [] {
    } else {
      var es, eu := Utf8Char(s[0]), Utf8Char(u[0]);
      assert Utf8(s) == es + Utf8(s[1..]);
      assert Utf8(u) == eu + Utf8(u[1..]);
      Utf8CharLength(s[0]);
      Utf8CharLength(u[0]);
      assert es[0] == Utf8(s)[0] == Utf8(u)[0] == eu[0];
      assert es == Utf8(s)[..|es|] == Utf8(u)[..|eu|] == eu;
      Utf8CharInjective(s[0], u[0]);
      assert Utf8(s[1..]) == Utf8(s)[|es|..] == Utf8(u)[|eu|..] == Utf8(u[1..]);
      Utf8Injective(s[1..], u[1..]);
    }
  }

  /** Distinct content IDs get distinct envelope file names. */
  lemma QuoteInjective(s: string, u: string)
    requires Quote(s) == Quote(u)
    ensures s == u
  {
    UnquoteQuote(s);
    UnquoteQuote(u);
    Utf8Injective(s, u);
  }

  lemma SlashExample()
    ensures Quote("a/b") == "a%2Fb"
  {
  }
}
