/**
 * The two URL encoders the providers call: `urllib.parse.quote` (Zap's
 * `onde` value) and `urllib.parse.urlencode` (Apolar's query string), both
 * percent-encoding the UTF-8 bytes of every character they do not keep.
 */
module Url {

  /** Characters neither encoder ever escapes: ASCII letters, digits and `_.-~`. */
  predicate IsUnreserved(c: char) {
    || 'A' <= c <= 'Z' || 'a' <= c <= 'z' || '0' <= c <= '9'
    || c == '_' || c == '.' || c == '-' || c == '~'
  }

  /** The UTF-8 encoding of one Unicode scalar value. */
  function Utf8(c: char): (r: seq<nat>)
    ensures 1 <= |r| <= 4
    ensures forall i :: 0 <= i < |r| ==> r[i] < 256
    ensures |r| == 1 <==> c < '\U{80}'
  {
    var v := c as int;
    if v < 0x80 then [v]
    else if v < 0x800 then [0xC0 + v / 64, 0x80 + v % 64]
    else if v < 0x1_0000 then [0xE0 + v / 4096, 0x80 + v / 64 % 64, 0x80 + v % 64]
    else [0xF0 + v / 262144, 0x80 + v / 4096 % 64, 0x80 + v / 64 % 64, 0x80 + v % 64]
  }

  /** The code point a well-formed UTF-8 sequence of one to four bytes spells. */
  function Utf8Value(b: seq<nat>): int
    requires 1 <= |b| <= 4
  {
    if |b| == 1 then b[0]
    else if |b| == 2 then (b[0] as int - 0xC0) * 64 + (b[1] as int - 0x80)
    else if |b| == 3 then (b[0] as int - 0xE0) * 4096 + (b[1] as int - 0x80) * 64 + (b[2] as int - 0x80)
    else (b[0] as int - 0xF0) * 262144 + (b[1] as int - 0x80) * 4096 + (b[2] as int - 0x80) * 64 + (b[3] as int - 0x80)
  }

  /** Decoding the bytes gives back the character, and the lead byte says how many bytes follow. */
  lemma Utf8RoundTrip(c: char)
    ensures Utf8Value(Utf8(c)) == c as int
    ensures var b := Utf8(c);
            && (|b| == 1 <==> b[0] < 0x80)
            && (|b| == 2 <==> 0xC0 <= b[0] < 0xE0)
            && (|b| == 3 <==> 0xE0 <= b[0] < 0xF0)
            && (|b| == 4 <==> 0xF0 <= b[0] < 0xF8)
            && forall i :: 1 <= i < |b| ==> 0x80 <= b[i] < 0xC0
  {
    var v := c as int;
    assert v < 0x11_0000;
    if v >= 0x1_0000 {
      var a, b, d := v / 262144, v / 4096 % 64, v / 64 % 64;
      assert v == a * 262144 + b * 4096 + d * 64 + v % 64;
    } else if v >= 0x800 {
      assert v == v / 4096 * 4096 + v / 64 % 64 * 64 + v % 64;
    }
  }

  function HexDigit(d: nat): (c: char)
    requires d < 16
    ensures IsUnreserved(c)
  {
    if d < 10 then ('0' as int + d) as char else ('A' as int + d - 10) as char
  }

  /** `%XX` for one byte, in upper-case hexadecimal as Python writes it. */
  function Percent(b: nat): (r: string)
    requires b < 256
    ensures |r| == 3 && r[0] == '%' && IsUnreserved(r[1]) && IsUnreserved(r[2])
  {
    ['%', HexDigit(b / 16), HexDigit(b % 16)]
  }

  /** The escape of a character: `%XX` for each of its UTF-8 bytes. */
  function Escape(c: char): (r: string)
    ensures 3 <= |r| <= 12 && r[0] == '%'
    ensures forall i :: 0 <= i < |r| ==> r[i] == '%' || IsUnreserved(r[i])
  {
    var b := Utf8(c);
    EscapeBytes(b)
  }

  function EscapeBytes(b: seq<nat>): (r: string)
    requires forall i :: 0 <= i < |b| ==> b[i] < 256
    ensures |r| == 3 * |b|
    ensures b != [] ==> r[0] == '%'
    ensures forall i :: 0 <= i < |r| ==> r[i] == '%' || IsUnreserved(r[i])
  {
    if b == [] then [] else Percent(b[0]) + EscapeBytes(b[1..])
  }

  /** `quote` on one character, with its default safe character '/'. */
  function QuoteChar(c: char): string {
    if IsUnreserved(c) || c == '/' then [c] else Escape(c)
  }

  /** `urllib.parse.quote(s)`. */
  function Quote(s: string): string {
    if s == [] then [] else QuoteChar(s[0]) + Quote(s[1..])
  }

  /** `quote_plus` on one character with no safe characters: a space becomes '+'. */
  function QuotePlusChar(c: char): string {
    if IsUnreserved(c) then [c] else if c == ' ' then "+" else Escape(c)
  }

  /** `urllib.parse.quote_plus(s, safe='')`, which `urlencode` applies to keys and values. */
  function QuotePlus(s: string): string {
    if s == [] then [] else QuotePlusChar(s[0]) + QuotePlus(s[1..])
  }

  /** `urllib.parse.urlencode` of a dictionary, in insertion order. */
  function UrlEncode(params: seq<(string, string)>): string {
    if params == [] then []
    else
      var pair := QuotePlus(params[0].0) + "=" + QuotePlus(params[0].1);
      if |params| == 1 then pair else pair + "&" + UrlEncode(params[1..])
  }

  /** `quote` works character by character. */
  lemma {:induction false} QuoteAppend(a: string, b: string)
    ensures Quote(a + b) == Quote(a) + Quote(b)
  {
    if a == [] {
      assert a + b == b;
    } else {
      assert (a + b)[0] == a[0] && (a + b)[1..] == a[1..] + b;
      QuoteAppend(a[1..], b);
    }
  }

  /** `quote` leaves only unreserved characters, '/' and the '%' of its escapes. */
  lemma {:induction false} QuoteChars(s: string)
    ensures forall i :: 0 <= i < |Quote(s)| ==> IsUnreserved(Quote(s)[i]) || Quote(s)[i] == '/' || Quote(s)[i] == '%'
  {
    if s != [] {
      QuoteChars(s[1..]);
      var h, t := QuoteChar(s[0]), Quote(s[1..]);
      assert Quote(s) == h + t;
      forall i | 0 <= i < |h + t|
        ensures IsUnreserved((h + t)[i]) || (h + t)[i] == '/' || (h + t)[i] == '%'
      {
        if i >= |h| { assert (h + t)[i] == t[i - |h|]; }
      }
    }
  }

  predicate QuoteSafe(s: string) {
    forall i :: 0 <= i < |s| ==> IsUnreserved(s[i]) || s[i] == '/'
  }

  /** `quote` changes a string exactly when it holds a character outside the safe set. */
  lemma {:induction false} QuoteIdentity(s: string)
    ensures Quote(s) == s <==> QuoteSafe(s)
    ensures |Quote(s)| >= |s|
    ensures !QuoteSafe(s) ==> |Quote(s)| > |s|
  {
    if s != [] {
      QuoteIdentity(s[1..]);
      assert QuoteSafe(s) <==> (IsUnreserved(s[0]) || s[0] == '/') && QuoteSafe(s[1..]) by {
        if QuoteSafe(s) {
          forall i | 0 <= i < |s[1..]| ensures IsUnreserved(s[1..][i]) || s[1..][i] == '/' {
            assert s[1..][i] == s[i + 1];
          }
        }
        if (IsUnreserved(s[0]) || s[0] == '/') && QuoteSafe(s[1..]) {
          forall i | 0 <= i < |s| ensures IsUnreserved(s[i]) || s[i] == '/' {
            if i > 0 { assert s[i] == s[1..][i - 1]; }
          }
        }
      }
      if IsUnreserved(s[0]) || s[0] == '/' {
        assert Quote(s) == [s[0]] + Quote(s[1..]);
        assert s == [s[0]] + s[1..];
      } else {
        assert |Quote(s)| == |Escape(s[0])| + |Quote(s[1..])|;
      }
    }
  }

  /** `quote_plus` never produces the separators of a query string, nor a space. */
  lemma {:induction false} QuotePlusChars(s: string)
    ensures forall i :: 0 <= i < |QuotePlus(s)| ==>
              IsUnreserved(QuotePlus(s)[i]) || QuotePlus(s)[i] == '+' || QuotePlus(s)[i] == '%'
  {
    if s != [] {
      QuotePlusChars(s[1..]);
      var h, t := QuotePlusChar(s[0]), QuotePlus(s[1..]);
      assert QuotePlus(s) == h + t;
      forall i | 0 <= i < |h + t|
        ensures IsUnreserved((h + t)[i]) || (h + t)[i] == '+' || (h + t)[i] == '%'
      {
        if i >= |h| { assert (h + t)[i] == t[i - |h|]; }
      }
    }
  }

  lemma NoSeparator(s: string)
    ensures '&' !in QuotePlus(s) && '=' !in QuotePlus(s) && ' ' !in QuotePlus(s)
  {
    QuotePlusChars(s);
  }

  /**
   * The encoded query holds one '=' per parameter and one '&' between
   * parameters: keys and values never contribute either.
   */
  lemma {:induction false} UrlEncodeSeparators(params: seq<(string, string)>)
    ensures Count(UrlEncode(params), '=') == |params|
    ensures Count(UrlEncode(params), '&') == if params == [] then 0 else |params| - 1
  {
    if params != [] {
      var k, v := QuotePlus(params[0].0), QuotePlus(params[0].1);
      NoSeparator(params[0].0);
      NoSeparator(params[0].1);
      CountAbsent(k, '=');
      CountAbsent(v, '=');
      CountAbsent(k, '&');
      CountAbsent(v, '&');
      CountAppend(k, "=", '=');
      CountAppend(k + "=", v, '=');
      CountAppend(k, "=", '&');
      CountAppend(k + "=", v, '&');
      if |params| > 1 {
        UrlEncodeSeparators(params[1..]);
        var pair := k + "=" + v;
        CountAppend(pair, "&", '=');
        CountAppend(pair + "&", UrlEncode(params[1..]), '=');
        CountAppend(pair, "&", '&');
        CountAppend(pair + "&", UrlEncode(params[1..]), '&');
      }
    }
  }

  function Count(s: string, c: char): nat {
    if s == [] then 0 else (if s[0] == c then 1 else 0) + Count(s[1..], c)
  }

  lemma {:induction false} CountAppend(a: string, b: string, c: char)
    ensures Count(a + b, c) == Count(a, c) + Count(b, c)
  {
    if a == [] {
      assert a + b == b;
    } else {
      assert (a + b)[0] == a[0] && (a + b)[1..] == a[1..] + b;
      CountAppend(a[1..], b, c);
    }
  }

  lemma {:induction false} CountAbsent(s: string, c: char)
    requires c !in s
    ensures Count(s, c) == 0
  {
    if s != [] {
      assert s[1..] <= s[1..];
      assert forall x :: x in s[1..] ==> x in s;
      CountAbsent(s[1..], c);
    }
  }
}
