/**
 * The parts of Python's `str` that the scrapers use, over Dafny strings
 * (sequences of Unicode scalar values): `isspace`, `strip`, `lower`,
 * `upper`, `title`, `isdigit`, `replace`, `startswith` and the `in`
 * substring test, plus decimal rendering of integers.
 */
module Text {

  /** Python's `str.isspace()` for one character. */
  predicate IsSpace(c: char) {
    || c == ' '
    || '\t' <= c <= '\r'
    || '\U{1C}' <= c <= '\U{1F}'
    || c == '\U{85}' || c == '\U{A0}' || c == '\U{1680}'
    || '\U{2000}' <= c <= '\U{200A}'
    || c == '\U{2028}' || c == '\U{2029}' || c == '\U{202F}' || c == '\U{205F}' || c == '\U{3000}'
  }

  /** No whitespace at either end: what `strip()` guarantees. */
  predicate Trimmed(s: string) {
    s == [] || (!IsSpace(s[0]) && !IsSpace(s[|s| - 1]))
  }

  function TrimStart(s: string): (r: string)
    ensures |r| <= |s| && r == s[|s| - |r|..]
    ensures r == [] || !IsSpace(r[0])
  {
    if s != [] && IsSpace(s[0]) then TrimStart(s[1..]) else s
  }

  function TrimEnd(s: string): (r: string)
    ensures |r| <= |s| && r == s[..|r|]
    ensures r == [] || !IsSpace(r[|r| - 1])
  {
    if s != [] && IsSpace(s[|s| - 1]) then TrimEnd(s[..|s| - 1]) else s
  }

  /** Python's `str.strip()`: drops whitespace from both ends and keeps the middle untouched. */
  function Strip(s: string): (r: string)
    ensures Trimmed(r)
    ensures |r| <= |s|
    ensures forall c :: c in r ==> c in s
  {
    TrimEnd(TrimStart(s))
  }

  /** A string without whitespace at its ends is its own `strip()`. */
  lemma {:induction false} StripTrimmed(s: string)
    requires Trimmed(s)
    ensures Strip(s) == s
  {
    if s != [] {
      assert TrimStart(s) == s;
      assert TrimEnd(s) == s;
    }
  }

  /** Strings joined with nothing between them. */
  function Concat(pieces: seq<string>): string {
    if pieces == [] then [] else pieces[0] + Concat(pieces[1..])
  }

  /** Joining strings without surrounding whitespace gives a string without surrounding whitespace. */
  lemma {:induction false} ConcatTrimmed(pieces: seq<string>)
    requires forall i :: 0 <= i < |pieces| ==> Trimmed(pieces[i])
    ensures Trimmed(Concat(pieces))
  {
    if pieces != [] {
      var head, rest := pieces[0], Concat(pieces[1..]);
      ConcatTrimmed(pieces[1..]);
      assert head != [] ==> (head + rest)[0] == head[0];
      assert rest != [] ==> (head + rest)[|head + rest| - 1] == rest[|rest| - 1];
      assert rest == [] ==> head + rest == head;
    }
  }

  lemma ConcatSingle(pieces: seq<string>)
    ensures |pieces| == 1 ==> Concat(pieces) == pieces[0]
  {
    if |pieces| == 1 {
      assert Concat(pieces[1..]) == [];
    }
  }

  /**
   * BeautifulSoup's `get_text(strip=True)` over a tag's text fragments: each
   * fragment is stripped and the pieces are joined with nothing between them.
   */
  function StrippedText(parts: seq<string>): (r: string)
    ensures Trimmed(r)
    ensures |parts| == 1 ==> r == Strip(parts[0])
  {
    var pieces := seq(|parts|, i requires 0 <= i < |parts| => Strip(parts[i]));
    ConcatTrimmed(pieces);
    ConcatSingle(pieces);
    Concat(pieces)
  }

  /** Python's `needle in hay` for strings; the empty string is in every string. */
  predicate Contains(hay: string, needle: string) {
    needle <= hay || (hay != [] && Contains(hay[1..], needle))
  }

  /** Python's `s.startswith(prefix)`. */
  predicate StartsWith(s: string, prefix: string) {
    prefix <= s
  }

  /**
   * Python's `s.replace(pat, rep)` for a non-empty `pat`: scans left to
   * right and replaces every non-overlapping occurrence.
   */
  function ReplaceAll(s: string, pat: string, rep: string): string
    requires pat != []
    decreases |s|
  {
    if |s| < |pat| then s
    else if s[..|pat|] == pat then rep + ReplaceAll(s[|pat|..], pat, rep)
    else [s[0]] + ReplaceAll(s[1..], pat, rep)
  }

  /** Replacing one character by another changes exactly the positions holding it. */
  lemma {:induction false} ReplaceCharAt(s: string, a: char, b: char)
    ensures |ReplaceAll(s, [a], [b])| == |s|
    ensures forall i :: 0 <= i < |s| ==> ReplaceAll(s, [a], [b])[i] == (if s[i] == a then b else s[i])
    ensures forall c :: c in ReplaceAll(s, [a], [b]) ==> c == b || (c in s && c != a)
  {
    if s != [] {
      ReplaceCharAt(s[1..], a, b);
    }
  }

  /** Removing a character leaves no occurrence of it and adds no other character. */
  lemma {:induction false} RemoveChar(s: string, a: char)
    ensures a !in ReplaceAll(s, [a], [])
    ensures forall c :: c in ReplaceAll(s, [a], []) ==> c in s
    ensures |ReplaceAll(s, [a], [])| <= |s|
  {
    if s != [] {
      RemoveChar(s[1..], a);
    }
  }

  /** A pattern whose first character does not occur is never replaced. */
  lemma {:induction false} ReplaceAbsent(s: string, pat: string, rep: string)
    requires pat != [] && pat[0] !in s
    ensures ReplaceAll(s, pat, rep) == s
  {
    if |s| >= |pat| {
      assert s[..|pat|][0] == s[0] != pat[0];
      assert s[0] in s;
      assert pat[0] !in s[1..] by {
        forall c | c in s[1..] ensures c in s { }
      }
      ReplaceAbsent(s[1..], pat, rep);
      assert [s[0]] + s[1..] == s;
    }
  }

  /** Deleting every occurrence of a pattern adds no character. */
  lemma {:induction false} DeletePatternChars(s: string, pat: string)
    requires pat != []
    ensures forall c :: c in ReplaceAll(s, pat, []) ==> c in s
  {
    if |s| >= |pat| {
      if s[..|pat|] == pat {
        DeletePatternChars(s[|pat|..], pat);
        forall c | c in s[|pat|..] ensures c in s { }
      } else {
        DeletePatternChars(s[1..], pat);
        forall c | c in s[1..] ensures c in s { }
      }
    }
  }

  /** `strip()` drops leading whitespace in front of already trimmed text. */
  lemma StripAfterSpace(s: string)
    requires s != [] && Trimmed(s)
    ensures Strip(" " + s) == s
  {
    assert (" " + s)[1..] == s;
    assert TrimStart(s) == s;
    assert TrimEnd(s) == s;
  }

  /** `needle` occurs in `hay` starting at index `i`. */
  predicate OccursAt(hay: string, needle: string, i: int) {
    0 <= i && i + |needle| <= |hay| && hay[i..i + |needle|] == needle
  }

  /** The `in` test holds exactly when the needle occurs at some index. */
  lemma ContainsAt(hay: string, needle: string)
    ensures Contains(hay, needle) <==> exists i :: OccursAt(hay, needle, i)
  {
    if Contains(hay, needle) {
      var i := ContainsIndex(hay, needle);
    }
    forall i | OccursAt(hay, needle, i) ensures Contains(hay, needle) {
      OccursContains(hay, needle, i);
    }
  }

  /** A successful `in` test has an index where the needle occurs. */
  lemma {:induction false} ContainsIndex(hay: string, needle: string) returns (i: nat)
    requires Contains(hay, needle)
    ensures OccursAt(hay, needle, i)
  {
    if needle <= hay {
      i := 0;
      assert hay[..|needle|] == needle;
    } else {
      var j := ContainsIndex(hay[1..], needle);
      i := j + 1;
      assert hay[1..][j..j + |needle|] == hay[i..i + |needle|];
    }
  }

  /** An occurrence at any index makes the `in` test succeed. */
  lemma {:induction false} OccursContains(hay: string, needle: string, i: int)
    requires OccursAt(hay, needle, i)
    ensures Contains(hay, needle)
    decreases i
  {
    if i == 0 {
      assert hay[..|needle|] == needle;
    } else {
      assert hay[1..][i - 1..i - 1 + |needle|] == hay[i..i + |needle|];
      OccursContains(hay[1..], needle, i - 1);
    }
  }

  /** A pattern cannot start at a character other than its own first one. */
  lemma NotOccursAt(s: string, pat: string, i: int)
    requires 0 <= i < |s| && pat != [] && s[i] != pat[0]
    ensures !OccursAt(s, pat, i)
  {
  }

  /** Occurrences past a prefix are occurrences in the rest, shifted. */
  lemma OccursShift(s: string, pat: string, k: int, i: int)
    requires 0 <= k <= |s| && k <= i
    ensures OccursAt(s, pat, i) <==> OccursAt(s[k..], pat, i - k)
  {
    if i + |pat| <= |s| {
      assert s[k..][i - k..i - k + |pat|] == s[i..i + |pat|];
    }
  }

  /**
   * Replacing a pattern by one that differs only in its first character,
   * where that first character occurs nowhere else in either, changes
   * exactly the first character of every occurrence of the pattern.
   */
  lemma {:induction false} ReplaceLead(s: string, u: char, l: char, t: string)
    requires u !in t && l !in t && u != l
    ensures |ReplaceAll(s, [u] + t, [l] + t)| == |s|
    ensures forall i :: 0 <= i < |s| ==>
              ReplaceAll(s, [u] + t, [l] + t)[i] == if OccursAt(s, [u] + t, i) then l else s[i]
    decreases |s|
  {
    var pat, rep := [u] + t, [l] + t;
    var r := ReplaceAll(s, pat, rep);
    if |s| < |pat| {
    } else if s[..|pat|] == pat {
      var rest := s[|pat|..];
      ReplaceLead(rest, u, l, t);
      assert r == rep + ReplaceAll(rest, pat, rep);
      forall i | 0 <= i < |s| ensures r[i] == if OccursAt(s, pat, i) then l else s[i] {
        if i == 0 {
          assert OccursAt(s, pat, 0);
        } else if i < |pat| {
          assert r[i] == t[i - 1] == s[i];
          assert t[i - 1] in t;
          NotOccursAt(s, pat, i);
        } else {
          assert r[i] == ReplaceAll(rest, pat, rep)[i - |pat|];
          OccursShift(s, pat, |pat|, i);
        }
      }
    } else {
      var rest := s[1..];
      ReplaceLead(rest, u, l, t);
      assert r == [s[0]] + ReplaceAll(rest, pat, rep);
      forall i | 0 <= i < |s| ensures r[i] == if OccursAt(s, pat, i) then l else s[i] {
        if i == 0 {
          assert !OccursAt(s, pat, 0);
        } else {
          assert r[i] == ReplaceAll(rest, pat, rep)[i - 1];
          OccursShift(s, pat, 1, i);
        }
      }
    }
  }

  /** After the replacement described by `ReplaceLead`, the pattern no longer occurs. */
  lemma NoPatternAfterReplace(s: string, u: char, l: char, t: string)
    requires u !in t && l !in t && u != l
    ensures !Contains(ReplaceAll(s, [u] + t, [l] + t), [u] + t)
  {
    var pat, r := [u] + t, ReplaceAll(s, [u] + t, [l] + t);
    ReplaceLead(s, u, l, t);
    LeadSwapShape(s, r, pat, l);
    ContainsAt(r, pat);
    forall i ensures !OccursAt(r, pat, i) {
      SwapKeepsOccurrence(s, r, l, pat, i);
      OccursLead(r, pat, i);
    }
  }

  /** The same replacement cannot create a text that does not contain the new lead character. */
  lemma ReplaceKeepsAbsent(s: string, u: char, l: char, t: string, q: string)
    requires u !in t && l !in t && u != l
    requires l !in q && !Contains(s, q)
    ensures !Contains(ReplaceAll(s, [u] + t, [l] + t), q)
  {
    var pat, r := [u] + t, ReplaceAll(s, [u] + t, [l] + t);
    ReplaceLead(s, u, l, t);
    LeadSwapShape(s, r, pat, l);
    ContainsAt(r, q);
    ContainsAt(s, q);
    forall i ensures !OccursAt(r, q, i) {
      SwapKeepsOccurrence(s, r, l, q, i);
    }
  }

  /**
   * Where `r` differs from `s` only by characters turned into `l`, every
   * occurrence in `r` of a text without `l` is an occurrence in `s` too.
   */
  lemma SwapKeepsOccurrence(s: string, r: string, l: char, q: string, i: int)
    requires |r| == |s| && forall j :: 0 <= j < |s| ==> r[j] == s[j] || r[j] == l
    requires l !in q
    ensures OccursAt(r, q, i) ==> OccursAt(s, q, i)
  {
    if OccursAt(r, q, i) {
      forall k | 0 <= k < |q| ensures s[i + k] == q[k] {
        assert r[i + k] == r[i..i + |q|][k];
        assert q[k] in q;
      }
      assert s[i..i + |q|] == q;
    }
  }

  /** An occurrence starts with the needle's first character. */
  lemma OccursLead(hay: string, needle: string, i: int)
    requires needle != []
    ensures OccursAt(hay, needle, i) ==> hay[i] == needle[0]
  {
    if OccursAt(hay, needle, i) {
      assert hay[i..i + |needle|][0] == hay[i];
    }
  }

  /** The same replacement changes letter case only, when the two lead characters differ only in case. */
  lemma ReplaceLeadLower(s: string, u: char, l: char, t: string)
    requires u !in t && l !in t && u != l && ToLower(u) == ToLower(l)
    ensures Lower(ReplaceAll(s, [u] + t, [l] + t)) == Lower(s)
  {
    var pat, r := [u] + t, ReplaceAll(s, [u] + t, [l] + t);
    ReplaceLead(s, u, l, t);
    LeadSwapShape(s, r, pat, l);
    CaseSwapLower(r, s, u, l);
  }

  /** Where a pattern's occurrences get a new lead character, every other character stays. */
  lemma LeadSwapShape(s: string, r: string, pat: string, l: char)
    requires pat != [] && |r| == |s|
    requires forall i :: 0 <= i < |s| ==> r[i] == if OccursAt(s, pat, i) then l else s[i]
    ensures forall i :: 0 <= i < |s| ==> r[i] == s[i] || (s[i] == pat[0] && r[i] == l)
  {
    forall i | 0 <= i < |s| ensures r[i] == s[i] || (s[i] == pat[0] && r[i] == l) {
      if OccursAt(s, pat, i) {
        assert s[i..i + |pat|][0] == s[i];
      }
    }
  }

  /** Trading some occurrences of `u` for a character with the same lower case keeps `lower()`. */
  lemma CaseSwapLower(r: string, s: string, u: char, l: char)
    requires |r| == |s| && ToLower(u) == ToLower(l)
    requires forall i :: 0 <= i < |s| ==> r[i] == s[i] || (s[i] == u && r[i] == l)
    ensures Lower(r) == Lower(s)
  {
    forall i | 0 <= i < |s| ensures Lower(r)[i] == Lower(s)[i] { }
  }

  /** Latin upper-case letters: ASCII `A`-`Z` and Latin-1 `À`-`Þ` except `×`. */
  predicate IsUpper(c: char) {
    'A' <= c <= 'Z' || ('\U{C0}' <= c <= '\U{DE}' && c != '\U{D7}')
  }

  /** Latin lower-case letters: ASCII `a`-`z` and Latin-1 `à`-`þ` except `÷`. */
  predicate IsLower(c: char) {
    'a' <= c <= 'z' || ('\U{E0}' <= c <= '\U{FE}' && c != '\U{F7}')
  }

  predicate IsCased(c: char) {
    IsUpper(c) || IsLower(c)
  }

  function ToLower(c: char): (r: char)
    ensures IsCased(r) == IsCased(c) && !IsUpper(r)
    ensures c < '\U{80}' ==> r < '\U{80}'
    ensures IsSpace(r) == IsSpace(c)
  {
    if IsUpper(c) then (c as int + 32) as char else c
  }

  function ToUpper(c: char): (r: char)
    ensures IsCased(r) == IsCased(c) && !IsLower(r)
  {
    if IsLower(c) then (c as int - 32) as char else c
  }

  /** Python's `str.lower()` on the modelled letters. */
  function Lower(s: string): (r: string)
    ensures |r| == |s|
    ensures forall c :: c in r ==> !IsUpper(c)
  {
    seq(|s|, i requires 0 <= i < |s| => ToLower(s[i]))
  }

  /**
   * Python's `str.title()`: a character that follows a cased character is
   * lower-cased, every other character is upper-cased. `prevCased` says
   * whether the character before `s` was cased.
   */
  function TitleFrom(s: string, prevCased: bool): (r: string)
    ensures |r| == |s|
  {
    if s == [] then []
    else [if prevCased then ToLower(s[0]) else ToUpper(s[0])] + TitleFrom(s[1..], IsCased(s[0]))
  }

  function Title(s: string): string {
    TitleFrom(s, false)
  }

  /** Title-casing keeps each character's casedness, so it is idempotent. */
  lemma {:induction false} TitleFromIdempotent(s: string, prevCased: bool)
    ensures TitleFrom(TitleFrom(s, prevCased), prevCased) == TitleFrom(s, prevCased)
  {
    if s != [] {
      var t := TitleFrom(s, prevCased);
      assert t[1..] == TitleFrom(s[1..], IsCased(s[0]));
      assert IsCased(t[0]) == IsCased(s[0]);
      TitleFromIdempotent(s[1..], IsCased(s[0]));
    }
  }

  /** Title-casing changes letter case only. */
  lemma {:induction false} TitleFromLower(s: string, prevCased: bool)
    ensures Lower(TitleFrom(s, prevCased)) == Lower(s)
  {
    if s != [] {
      TitleFromLower(s[1..], IsCased(s[0]));
      var t := TitleFrom(s, prevCased);
      assert t == [t[0]] + TitleFrom(s[1..], IsCased(s[0]));
      forall i | 0 <= i < |s| ensures Lower(t)[i] == Lower(s)[i] {
        if i > 0 {
          assert Lower(t)[i] == Lower(t[1..])[i - 1];
          assert Lower(s)[i] == Lower(s[1..])[i - 1];
        }
      }
    }
  }

  predicate IsAsciiDigit(c: char) {
    '0' <= c <= '9'
  }

  /**
   * Characters for which Python's `isdigit()` holds but which `float()`
   * rejects: the superscript and subscript digits (as in "m²").
   */
  predicate IsNonDecimalDigit(c: char) {
    || c == '\U{B2}' || c == '\U{B3}' || c == '\U{B9}' || c == '\U{2070}'
    || '\U{2074}' <= c <= '\U{2079}'
    || '\U{2080}' <= c <= '\U{2089}'
  }

  /** Python's `str.isdigit()` on the modelled characters. */
  predicate IsDigit(c: char) {
    IsAsciiDigit(c) || IsNonDecimalDigit(c)
  }

  predicate AllAsciiDigits(s: string) {
    forall i :: 0 <= i < |s| ==> IsAsciiDigit(s[i])
  }

  function Pow10(k: nat): (r: nat)
    ensures r >= 1
  {
    if k == 0 then 1 else 10 * Pow10(k - 1)
  }

  /** The number a string of ASCII digits denotes (0 for the empty string). */
  function DigitsValue(s: string): nat
    requires AllAsciiDigits(s)
  {
    if s == [] then 0 else DigitsValue(s[..|s| - 1]) * 10 + (s[|s| - 1] as int - '0' as int)
  }

  /** Reading `a + b` reads `a`, shifts it by the length of `b`, and adds `b`. */
  lemma {:induction false} DigitsValueAppend(a: string, b: string)
    requires AllAsciiDigits(a) && AllAsciiDigits(b)
    ensures AllAsciiDigits(a + b)
    ensures DigitsValue(a + b) == DigitsValue(a) * Pow10(|b|) + DigitsValue(b)
  {
    if b == [] {
      assert a + b == a;
    } else {
      var b' := b[..|b| - 1];
      assert (a + b)[..|a + b| - 1] == a + b';
      DigitsValueAppend(a, b');
      var d := b[|b| - 1] as int - '0' as int;
      assert (a + b)[|a + b| - 1] == b[|b| - 1];
      assert DigitsValue(a + b) == DigitsValue(a + b') * 10 + d;
      var x, p, y := DigitsValue(a), Pow10(|b'|), DigitsValue(b');
      assert Pow10(|b|) == p * 10;
      ShiftDigit(x, p, y, d);
    }
  }

  lemma ShiftDigit(x: int, p: int, y: int, d: int)
    ensures (x * p + y) * 10 + d == x * (p * 10) + (y * 10 + d)
  {
  }

  function DigitChar(d: nat): (c: char)
    requires d < 10
    ensures IsAsciiDigit(c) && c as int - '0' as int == d
  {
    ('0' as int + d) as char
  }

  /** Python's `str(n)` for a natural number: its shortest decimal rendering. */
  function NatToString(n: nat): (r: string)
    ensures r != [] && AllAsciiDigits(r)
    ensures DigitsValue(r) == n
    ensures r[0] != '0' || n == 0
  {
    if n < 10 then [DigitChar(n)]
    else
      var r := NatToString(n / 10) + [DigitChar(n % 10)];
      assert r[..|r| - 1] == NatToString(n / 10);
      r
  }

  /** Python's `str(i)` / f-string rendering of an integer. */
  function IntToString(i: int): (r: string)
    ensures r != []
    ensures i >= 0 ==> AllAsciiDigits(r) && DigitsValue(r) == i
    ensures i < 0 ==> r[0] == '-' && AllAsciiDigits(r[1..]) && DigitsValue(r[1..]) == -i
  {
    if i < 0 then "-" + NatToString(-i) else NatToString(i)
  }

  /** Python's `int(x)` on a number: truncation towards zero. */
  function Truncate(x: real): (r: int)
    ensures x >= 0.0 ==> r as real <= x < r as real + 1.0
    ensures x < 0.0 ==> r as real - 1.0 < x <= r as real
  {
    if x >= 0.0 then x.Floor else -((-x).Floor)
  }
}
