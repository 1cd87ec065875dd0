/**
 * `urllib.parse.quote(s)` with its default `safe='/'`: percent-encoding as in
 * section 2.1 of RFC 3986. Every character other than an ASCII letter, digit,
 * one of `_.-~`, or `/` is replaced by `%XX` (upper-case hexadecimal) for each
 * byte of its UTF-8 encoding. `Unquote` reverses it, and `UnquoteQuote`
 * proves that decoding a quoted string gives the string back.
 */
module Quoting {
  import opened Wrappers

  type byte = b: int | 0 <= b < 256

  /** The characters `quote` leaves unchanged. */
  predicate Unreserved(c: char) {
    'a' <= c <= 'z' || 'A' <= c <= 'Z' || '0' <= c <= '9'
    || c == '_' || c == '.' || c == '-' || c == '~' || c == '/'
  }

  predicate IsUpperHex(c: char) {
    '0' <= c <= '9' || 'A' <= c <= 'F'
  }

  /** The UTF-8 encoding of one Unicode scalar value (section 3 of RFC 3629). */
  function Utf8(c: char): (bs: seq<byte>)
    ensures 1 <= |bs| <= 4
  {
    var n := c as int;
    if n < 0x80 then [n]
    else if n < 0x800 then [0xC0 + n / 64, 0x80 + n % 64]
    else if n < 0x1_0000 then [0xE0 + n / 4096, 0x80 + (n / 64) % 64, 0x80 + n % 64]
    else [0xF0 + n / 262144, 0x80 + (n / 4096) % 64, 0x80 + (n / 64) % 64, 0x80 + n % 64]
  }

  function Utf8String(s: string): seq<byte> {
    if |s| == 0 then [] else Utf8(s[0]) + Utf8String(s[1..])
  }

  const HexDigits := "0123456789ABCDEF"

  /** `%XX` for one byte. */
  function PercentByte(b: byte): string {
    ['%', HexDigits[b / 16], HexDigits[b % 16]]
  }

  function PercentBytes(bs: seq<byte>): (r: string)
    ensures forall k :: 0 <= k < |r| ==> r[k] == '%' || IsUpperHex(r[k])
  {
    if |bs| == 0 then [] else PercentByte(bs[0]) + PercentBytes(bs[1..])
  }

  /** What `quote` produces for one character. */
  function QuoteChar(c: char): (r: string)
    ensures forall k :: 0 <= k < |r| ==> Unreserved(r[k]) || r[k] == '%' || IsUpperHex(r[k])
  {
    if Unreserved(c) then [c] else PercentBytes(Utf8(c))
  }

  /**
   * `quote(s)`: the result is plain ASCII built only from unreserved
   * characters, `%` and upper-case hexadecimal digits.
   */
  function Quote(s: string): (r: string)
    ensures forall k :: 0 <= k < |r| ==> Unreserved(r[k]) || r[k] == '%' || IsUpperHex(r[k])
  {
    if |s| == 0 then "" else QuoteChar(s[0]) + Quote(s[1..])
  }

  function HexValue(c: char): Option<nat> {
    if '0' <= c <= '9' then Some(c as int - '0' as int)
    else if 'a' <= c <= 'f' then Some(c as int - 'a' as int + 10)
    else if 'A' <= c <= 'F' then Some(c as int - 'A' as int + 10)
    else None
  }

  /** Percent-decoding to bytes: `%XX` gives one byte, any other character its UTF-8 bytes. */
  function UnquoteBytes(s: string): seq<byte> {
    if |s| == 0 then []
    else if |s| >= 3 && s[0] == '%' && HexValue(s[1]).Some? && HexValue(s[2]).Some?
            && HexValue(s[1]).value < 16 && HexValue(s[2]).value < 16 then
      [HexValue(s[1]).value * 16 + HexValue(s[2]).value] + UnquoteBytes(s[3..])
    else Utf8(s[0]) + UnquoteBytes(s[1..])
  }

  predicate IsContinuation(b: byte) {
    0x80 <= b < 0xC0
  }

  /** The six payload bits of the continuation byte at `k`, when there is one. */
  function Cont(bs: seq<byte>, k: nat): int {
    if k < |bs| then bs[k] as int - 0x80 else 0
  }

  /** One scalar value from the front of `bs` and the number of bytes it took. */
  function DecodeChar(bs: seq<byte>): (r: Option<(char, nat)>)
    requires |bs| > 0
    ensures r.Some? ==> 1 <= r.value.1 <= |bs|
  {
    var b0, b1, b2, b3 := bs[0] as int, Cont(bs, 1), Cont(bs, 2), Cont(bs, 3);
    if b0 < 0x80 then Some((b0 as char, 1))
    else if 0xC0 <= b0 < 0xE0 && |bs| >= 2 && IsContinuation(bs[1]) then
      var n := (b0 - 0xC0) * 64 + b1;
      if 0x80 <= n then Some((n as char, 2)) else None
    else if 0xE0 <= b0 < 0xF0 && |bs| >= 3 && IsContinuation(bs[1]) && IsContinuation(bs[2]) then
      var n := (b0 - 0xE0) * 4096 + b1 * 64 + b2;
      if 0x800 <= n && !(0xD800 <= n < 0xE000) then Some((n as char, 3)) else None
    else if 0xF0 <= b0 < 0xF8 && |bs| >= 4 && IsContinuation(bs[1]) && IsContinuation(bs[2])
            && IsContinuation(bs[3]) then
      var n := (b0 - 0xF0) * 262144 + b1 * 4096 + b2 * 64 + b3;
      if 0x1_0000 <= n < 0x11_0000 then Some((n as char, 4)) else None
    else None
  }

  /** Strict UTF-8 decoding; None on a malformed sequence. */
  function DecodeUtf8(bs: seq<byte>): Option<string>
    decreases |bs|
  {
    if |bs| == 0 then Some("")
    else
      match DecodeChar(bs)
      case None => None
      case Some(d) =>
        match DecodeUtf8(bs[d.1..])
        case None => None
        case Some(rest) => Some([d.0] + rest)
  }

  /** `urllib.parse.unquote` on the strings where it does not have to replace malformed bytes. */
  function Unquote(s: string): Option<string> {
    DecodeUtf8(UnquoteBytes(s))
  }

  lemma Utf8Decodes(c: char, rest: seq<byte>)
    ensures DecodeChar(Utf8(c) + rest) == Some((c, |Utf8(c)|))
  {
    var n := c as int;
    if n < 0x80 {
    } else if n < 0x800 {
      Utf8Decodes2(c, rest);
    } else if n < 0x1_0000 {
      Utf8Decodes3(c, rest);
    } else {
      Utf8Decodes4(c, rest);
    }
  }

  lemma Utf8Decodes2(c: char, rest: seq<byte>)
    requires 0x80 <= c as int < 0x800
    ensures DecodeChar(Utf8(c) + rest) == Some((c, 2))
  {
    var n := c as int;
    var bs := Utf8(c) + rest;
    assert bs[0] == 0xC0 + n / 64 && bs[1] == 0x80 + n % 64;
    assert Cont(bs, 1) == n % 64;
  }

  lemma Utf8Decodes3(c: char, rest: seq<byte>)
    requires 0x800 <= c as int < 0x1_0000
    ensures DecodeChar(Utf8(c) + rest) == Some((c, 3))
  {
    var n := c as int;
    var a, r := n / 4096, n % 4096;
    assert n == a * 4096 + r;
    assert n / 64 == a * 64 + r / 64;
    assert (n / 64) % 64 == r / 64;
    assert n % 64 == r % 64;
    var bs := Utf8(c) + rest;
    assert bs[0] == 0xE0 + a && bs[1] == 0x80 + r / 64 && bs[2] == 0x80 + r % 64;
    assert Cont(bs, 1) == r / 64 && Cont(bs, 2) == r % 64;
    assert a * 4096 + (r / 64) * 64 + r % 64 == n;
  }

  lemma Utf8Decodes4(c: char, rest: seq<byte>)
    requires 0x1_0000 <= c as int
    ensures DecodeChar(Utf8(c) + rest) == Some((c, 4))
  {
    var n := c as int;
    var a, r := n / 262144, n % 262144;
    var b, t := r / 4096, r % 4096;
    assert n == a * 262144 + r && r == b * 4096 + t;
    assert n / 4096 == a * 64 + b;
    assert (n / 4096) % 64 == b;
    assert n / 64 == a * 4096 + b * 64 + t / 64;
    assert (n / 64) % 64 == t / 64;
    assert n % 64 == t % 64;
    var bs := Utf8(c) + rest;
    assert bs[0] == 0xF0 + a && bs[1] == 0x80 + b && bs[2] == 0x80 + t / 64 && bs[3] == 0x80 + t % 64;
    assert Cont(bs, 1) == b && Cont(bs, 2) == t / 64 && Cont(bs, 3) == t % 64;
    assert a * 262144 + b * 4096 + (t / 64) * 64 + t % 64 == n;
  }

  lemma {:induction false} DecodeEncoded(s: string)
    ensures DecodeUtf8(Utf8String(s)) == Some(s)
  {
    if |s| > 0 {
      var bs := Utf8String(s);
      Utf8Decodes(s[0], Utf8String(s[1..]));
      assert bs[|Utf8(s[0])|..] == Utf8String(s[1..]);
      DecodeEncoded(s[1..]);
      assert s == [s[0]] + s[1..];
    }
  }

  lemma HexDigitValue(d: nat)
    requires d < 16
    ensures HexValue(HexDigits[d]) == Some(d)
  {
  }

  lemma UnquoteEscape(b: byte, t: string)
    ensures UnquoteBytes(PercentByte(b) + t) == [b] + UnquoteBytes(t)
  {
    var s := PercentByte(b) + t;
    HexDigitValue(b / 16);
    HexDigitValue(b % 16);
    assert s[0] == '%' && s[1] == HexDigits[b / 16] && s[2] == HexDigits[b % 16];
    assert s[3..] == t;
  }

  lemma {:induction false} UnquotePercentBytes(bs: seq<byte>, rest: string)
    ensures UnquoteBytes(PercentBytes(bs) + rest) == bs + UnquoteBytes(rest)
  {
    if |bs| > 0 {
      var t := PercentBytes(bs[1..]) + rest;
      assert PercentBytes(bs) + rest == PercentByte(bs[0]) + t;
      UnquoteEscape(bs[0], t);
      UnquotePercentBytes(bs[1..], rest);
      assert bs == [bs[0]] + bs[1..];
    } else {
      assert PercentBytes(bs) + rest == rest;
    }
  }

  lemma {:induction false} UnquoteBytesOfQuote(s: string)
    ensures UnquoteBytes(Quote(s)) == Utf8String(s)
  {
    if |s| > 0 {
      var c := s[0];
      var q := Quote(s);
      assert q == QuoteChar(c) + Quote(s[1..]);
      if Unreserved(c) {
        assert q[1..] == Quote(s[1..]);
        assert UnquoteBytes(q) == Utf8(c) + UnquoteBytes(Quote(s[1..]));
      } else {
        UnquotePercentBytes(Utf8(c), Quote(s[1..]));
      }
      UnquoteBytesOfQuote(s[1..]);
    }
  }

  /** Decoding a quoted string gives the original string back. */
  lemma UnquoteQuote(s: string)
    ensures Unquote(Quote(s)) == Some(s)
  {
    UnquoteBytesOfQuote(s);
    DecodeEncoded(s);
  }

  /** A string made only of unreserved characters is quoted as itself. */
  lemma {:induction false} QuotePlain(s: string)
    requires forall k :: 0 <= k < |s| ==> Unreserved(s[k])
    ensures Quote(s) == s
  {
    if |s| > 0 {
      QuotePlain(s[1..]);
      assert s == [s[0]] + s[1..];
    }
  }
}
