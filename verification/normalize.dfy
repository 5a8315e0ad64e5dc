/**
 * The text and number normalisers every provider carries its own copy of:
 * `formatar_slug` (and crowler.py's `formatar_bairro`), the two variants of
 * `limpar_numero`, and crowler.py's `limpar_texto`.
 */
module Normalize {
  import opened Wrappers
  import opened Text

  /**
   * `unicodedata.normalize('NFKD', c)` followed by `.encode('ASCII', 'ignore')`
   * for one character: ASCII stays, Latin-1 letters lose their accents,
   * Latin-1 compatibility characters become their ASCII decomposition, and
   * everything without an ASCII decomposition disappears.
   */
  function AsciiFoldChar(c: char): (r: string)
    ensures forall d :: d in r ==> d < '\U{80}'
    ensures c < '\U{80}' ==> r == [c]
  {
    if c < '\U{80}' then [c]
    else if '\U{C0}' <= c <= '\U{C5}' then "A"
    else if c == '\U{C7}' then "C"
    else if '\U{C8}' <= c <= '\U{CB}' then "E"
    else if '\U{CC}' <= c <= '\U{CF}' then "I"
    else if c == '\U{D1}' then "N"
    else if '\U{D2}' <= c <= '\U{D6}' then "O"
    else if '\U{D9}' <= c <= '\U{DC}' then "U"
    else if c == '\U{DD}' then "Y"
    else if '\U{E0}' <= c <= '\U{E5}' || c == '\U{AA}' then "a"
    else if c == '\U{E7}' then "c"
    else if '\U{E8}' <= c <= '\U{EB}' then "e"
    else if '\U{EC}' <= c <= '\U{EF}' then "i"
    else if c == '\U{F1}' then "n"
    else if '\U{F2}' <= c <= '\U{F6}' || c == '\U{BA}' then "o"
    else if '\U{F9}' <= c <= '\U{FC}' then "u"
    else if c == '\U{FD}' || c == '\U{FF}' then "y"
    else if c == '\U{A0}' || c == '\U{A8}' || c == '\U{AF}' || c == '\U{B4}' || c == '\U{B8}' then " "
    else if c == '\U{B9}' then "1"
    else if c == '\U{B2}' then "2"
    else if c == '\U{B3}' then "3"
    else if c == '\U{BC}' then "14"
    else if c == '\U{BD}' then "12"
    else if c == '\U{BE}' then "34"
    else ""
  }

  predicate IsAscii(s: string) {
    forall c :: c in s ==> c < '\U{80}'
  }

  /** Accent stripping of a whole string; ASCII text is left as it is. */
  function AsciiFold(s: string): (r: string)
    ensures IsAscii(r)
    ensures IsAscii(s) ==> r == s
  {
    if s == [] then []
    else
      assert IsAscii(s) ==> s[0] < '\U{80}' && IsAscii(s[1..]) by {
        if IsAscii(s) {
          assert s[0] in s;
          forall c | c in s[1..] ensures c in s { }
        }
      }
      AsciiFoldChar(s[0]) + AsciiFold(s[1..])
  }

  /** The shape of every key the slug functions produce. */
  predicate IsSlugShaped(s: string) {
    && IsAscii(s)
    && (forall c :: c in s ==> !IsUpper(c))
    && ' ' !in s
    && Trimmed(s)
  }

  /** Lower-casing ASCII text keeps it ASCII. */
  lemma LowerAscii(s: string)
    requires IsAscii(s)
    ensures IsAscii(Lower(s))
  {
    forall c | c in Lower(s) ensures c < '\U{80}' {
      var i :| 0 <= i < |s| && Lower(s)[i] == c;
      assert s[i] in s;
    }
  }

  /** Text without upper-case letters is its own `lower()`. */
  lemma LowerNoUpper(s: string)
    requires forall c :: c in s ==> !IsUpper(c)
    ensures Lower(s) == s
  {
    forall i | 0 <= i < |s| ensures Lower(s)[i] == s[i] {
      assert s[i] in s;
    }
  }

  /** Text without spaces is its own `replace(' ', '-')`. */
  lemma NoSpaceReplace(s: string)
    requires ' ' !in s
    ensures ReplaceAll(s, " ", "-") == s
  {
    ReplaceCharAt(s, ' ', '-');
    forall i | 0 <= i < |s| ensures ReplaceAll(s, " ", "-")[i] == s[i] {
      assert s[i] in s;
    }
  }

  /** Replacing the spaces of trimmed, lower-case ASCII text by '-' gives a slug. */
  lemma HyphenateShape(t: string)
    requires IsAscii(t) && (forall c :: c in t ==> !IsUpper(c)) && Trimmed(t)
    ensures IsSlugShaped(ReplaceAll(t, " ", "-"))
  {
    ReplaceCharAt(t, ' ', '-');
  }

  /**
   * crowler.py's `formatar_bairro`: strip accents, lower-case, strip, and
   * turn every single space into '-'.
   */
  function BairroSlug(nome: string): (r: string)
    ensures IsSlugShaped(r)
  {
    var l := Lower(AsciiFold(nome));
    LowerAscii(AsciiFold(nome));
    var t := Strip(l);
    HyphenateShape(t);
    ReplaceAll(t, " ", "-")
  }

  /** The providers' `formatar_slug`: the same key, with "" for empty input. */
  function Slug(texto: string): (r: string)
    ensures texto == [] ==> r == []
    ensures IsSlugShaped(r)
  {
    if texto == [] then "" else BairroSlug(texto)
  }

  /** The empty-input guard of `formatar_slug` changes nothing on strings. */
  lemma SlugIsBairroSlug(texto: string)
    ensures Slug(texto) == BairroSlug(texto)
  {
    if texto == [] {
      assert AsciiFold(texto) == [];
      assert Lower([]) == [];
    }
  }

  /** A slug is its own slug: applying `formatar_slug` twice equals applying it once. */
  lemma SlugIdempotent(texto: string)
    ensures Slug(Slug(texto)) == Slug(texto)
  {
    var s := Slug(texto);
    if s != [] {
      assert AsciiFold(s) == s;
      LowerNoUpper(s);
      StripTrimmed(s);
      NoSpaceReplace(s);
    }
  }

  /** The characters `limpar_numero` keeps in the Galvão and Apolar providers: `isdigit()` or ','. */
  function KeepDigitsAndCommas(s: string): string {
    if s == [] then []
    else (if IsDigit(s[0]) || s[0] == ',' then [s[0]] else []) + KeepDigitsAndCommas(s[1..])
  }

  lemma {:induction false} KeptDigitsAndCommas(s: string)
    ensures forall i :: 0 <= i < |KeepDigitsAndCommas(s)| ==>
              IsDigit(KeepDigitsAndCommas(s)[i]) || KeepDigitsAndCommas(s)[i] == ','
  {
    if s != [] {
      KeptDigitsAndCommas(s[1..]);
    }
  }

  /** The characters Zap's `limpar_numero` keeps: `isdigit()` only. */
  function KeepDigits(s: string): string {
    if s == [] then [] else (if IsDigit(s[0]) then [s[0]] else []) + KeepDigits(s[1..])
  }

  lemma {:induction false} KeptDigits(s: string)
    ensures forall i :: 0 <= i < |KeepDigits(s)| ==> IsDigit(KeepDigits(s)[i])
  {
    if s != [] {
      KeptDigits(s[1..]);
    }
  }

  predicate HasNonDecimalDigit(s: string) {
    exists i :: 0 <= i < |s| && IsNonDecimalDigit(s[i])
  }

  function CommaCount(s: string): nat {
    if s == [] then 0 else (if s[0] == ',' then 1 else 0) + CommaCount(s[1..])
  }

  /** No comma is counted exactly when there is none. */
  lemma {:induction false} CommaCountZero(s: string)
    ensures CommaCount(s) == 0 <==> ',' !in s
  {
    if s != [] {
      CommaCountZero(s[1..]);
      assert s == [s[0]] + s[1..];
    }
  }

  /** The text before the first ',' and, when there is one, the text after it. */
  function SplitAtComma(s: string): (r: (string, Option<string>))
    ensures ',' !in r.0
    ensures r.1.None? ==> r.0 == s
    ensures r.1.Some? ==> s == r.0 + "," + r.1.value
  {
    if s == [] then ([], None)
    else if s[0] == ',' then ([], Some(s[1..]))
    else var (w, f) := SplitAtComma(s[1..]); ([s[0]] + w, f)
  }

  lemma {:induction false} SplitAtFirstComma(a: string, b: string)
    requires ',' !in a
    ensures SplitAtComma(a + "," + b) == (a, Some(b))
  {
    var s := a + "," + b;
    if a == [] {
      assert s[0] == ',' && s[1..] == b;
    } else {
      assert a[0] in a;
      assert ',' !in a[1..] by {
        forall c | c in a[1..] ensures c in a { }
      }
      assert s[0] == a[0] && s[1..] == a[1..] + "," + b;
      SplitAtFirstComma(a[1..], b);
      assert [a[0]] + a[1..] == a;
    }
  }

  /** The text splits exactly when it holds a comma, and the rest after the first comma holds one comma fewer. */
  lemma {:induction false} SplitCommaCount(s: string)
    ensures SplitAtComma(s).1.None? <==> CommaCount(s) == 0
    ensures SplitAtComma(s).1.Some? ==> CommaCount(SplitAtComma(s).1.value) == CommaCount(s) - 1
  {
    if s != [] && s[0] != ',' {
      SplitCommaCount(s[1..]);
    }
  }

  /** Without superscript digits, both sides of the first comma are ASCII digits up to further commas. */
  lemma {:induction false} SplitAtCommaDigits(nums: string)
    requires forall i :: 0 <= i < |nums| ==> IsDigit(nums[i]) || nums[i] == ','
    requires !HasNonDecimalDigit(nums)
    ensures AllAsciiDigits(SplitAtComma(nums).0)
    ensures SplitAtComma(nums).1.Some? && ',' !in SplitAtComma(nums).1.value ==>
              AllAsciiDigits(SplitAtComma(nums).1.value)
  {
    if nums != [] {
      assert !IsNonDecimalDigit(nums[0]);
      if nums[0] == ',' {
        var f := nums[1..];
        forall i | 0 <= i < |f| && ',' !in f ensures IsAsciiDigit(f[i]) {
          assert f[i] == nums[i + 1] && f[i] in f;
          assert !IsNonDecimalDigit(nums[i + 1]);
        }
      } else {
        var t := nums[1..];
        assert forall i :: 0 <= i < |t| ==> t[i] == nums[i + 1];
        assert !HasNonDecimalDigit(t) by {
          forall i | 0 <= i < |t| ensures !IsNonDecimalDigit(t[i]) {
            assert !IsNonDecimalDigit(nums[i + 1]);
          }
        }
        SplitAtCommaDigits(t);
      }
    }
  }

  /**
   * Python's `float(nums.replace(',', '.'))` for a string of `isdigit()`
   * characters and commas. `None` is the `ValueError` it raises: on a
   * superscript or subscript digit, on a second separator, and on a lone
   * separator.
   */
  function DecimalOf(nums: string): (r: Option<real>)
    requires forall i :: 0 <= i < |nums| ==> IsDigit(nums[i]) || nums[i] == ','
    requires nums != []
    ensures r.Some? ==> r.value >= 0.0
  {
    if HasNonDecimalDigit(nums) then None
    else
      var parts := SplitAtComma(nums);
      SplitAtCommaDigits(nums);
      if parts.1.None? then Some(DigitsValue(parts.0) as real)
      else if ',' in parts.1.value || (parts.0 == [] && parts.1.value == []) then None
      else Some(PointValue(parts.0, parts.1.value))
  }

  /** The number written `whole.frac` with a decimal point. */
  function PointValue(whole: string, frac: string): (r: real)
    requires AllAsciiDigits(whole) && AllAsciiDigits(frac)
    ensures r >= 0.0
  {
    DigitsValue(whole) as real + DigitsValue(frac) as real / Pow10(|frac|) as real
  }

  /**
   * `limpar_numero` of the Galvão and Apolar providers. 0 for empty text and
   * for text with neither digits nor commas; otherwise the digits with the
   * comma read as the decimal point, every other character (dots included)
   * ignored. `None` stands for the exception `float()` raises.
   */
  function ParseDecimal(texto: string): (r: Option<real>)
    ensures texto == [] ==> r == Some(0.0)
    ensures r.Some? ==> r.value >= 0.0
  {
    if texto == [] then Some(0.0)
    else
      var nums := KeepDigitsAndCommas(texto);
      KeptDigitsAndCommas(texto);
      if nums == [] then Some(0.0) else DecimalOf(nums)
  }

  /**
   * Zap's `limpar_numero`: 0 for empty or digit-free text, otherwise the
   * whole number its digits spell. `None` stands for the exception `float()`
   * raises on a superscript or subscript digit.
   */
  function ParseWhole(texto: string): (r: Option<nat>)
    ensures texto == [] ==> r == Some(0)
  {
    if texto == [] then Some(0)
    else
      var nums := KeepDigits(texto);
      KeptDigits(texto);
      if nums == [] then Some(0)
      else if HasNonDecimalDigit(nums) then None
      else
        assert AllAsciiDigits(nums) by {
          forall i | 0 <= i < |nums| ensures IsAsciiDigit(nums[i]) {
            assert IsDigit(nums[i]);
          }
        }
        Some(DigitsValue(nums))
  }

  /**
   * `limpar_numero` of the Galvão and Apolar providers fails exactly when
   * the kept characters hold a superscript or subscript digit, two or more
   * commas, or are a lone comma.
   */
  lemma ParseDecimalFails(texto: string)
    ensures var nums := KeepDigitsAndCommas(texto);
            ParseDecimal(texto).None? <==> HasNonDecimalDigit(nums) || CommaCount(nums) >= 2 || nums == ","
  {
    var nums := KeepDigitsAndCommas(texto);
    if texto != [] && nums != [] && !HasNonDecimalDigit(nums) {
      KeptDigitsAndCommas(texto);
      var parts := SplitAtComma(nums);
      SplitCommaCount(nums);
      if parts.1.Some? {
        CommaCountZero(parts.1.value);
        assert nums == parts.0 + "," + parts.1.value;
        assert nums == "," <==> parts.0 == [] && parts.1.value == [];
      }
    }
  }

  /** Kept characters that are all ASCII digits read as their whole number; none at all read as 0. */
  lemma ParseDecimalWhole(texto: string)
    requires AllAsciiDigits(KeepDigitsAndCommas(texto))
    ensures ParseDecimal(texto) == Some(DigitsValue(KeepDigitsAndCommas(texto)) as real)
  {
    var nums := KeepDigitsAndCommas(texto);
    if texto != [] && nums != [] {
      KeptDigitsAndCommas(texto);
      assert ',' !in nums by {
        forall i | 0 <= i < |nums| ensures nums[i] != ',' { assert IsAsciiDigit(nums[i]); }
      }
      assert !HasNonDecimalDigit(nums) by {
        forall i | 0 <= i < |nums| ensures !IsNonDecimalDigit(nums[i]) { assert IsAsciiDigit(nums[i]); }
      }
      SplitWithoutComma(nums);
    }
  }

  /** Kept characters of the form digits, one comma, digits read with the comma as the decimal point. */
  lemma ParseDecimalPoint(texto: string, whole: string, frac: string)
    requires KeepDigitsAndCommas(texto) == whole + "," + frac
    requires AllAsciiDigits(whole) && AllAsciiDigits(frac) && whole + frac != []
    ensures ParseDecimal(texto) == Some(PointValue(whole, frac))
  {
    assert texto != [];
    KeptDigitsAndCommas(texto);
    DecimalOfDigits(whole, frac);
  }

  /** Zap's `limpar_numero` fails exactly when a kept digit is a superscript or subscript. */
  lemma ParseWholeFails(texto: string)
    ensures ParseWhole(texto).None? <==> HasNonDecimalDigit(KeepDigits(texto))
  {
    if texto == [] {
      assert KeepDigits(texto) == [];
    }
  }

  /** Zap's `limpar_numero` reads the number its kept digits spell; no digit at all reads as 0. */
  lemma ParseWholeValue(texto: string)
    requires AllAsciiDigits(KeepDigits(texto))
    ensures ParseWhole(texto) == Some(DigitsValue(KeepDigits(texto)))
  {
    var nums := KeepDigits(texto);
    assert !HasNonDecimalDigit(nums) by {
      forall i | 0 <= i < |nums| ensures !IsNonDecimalDigit(nums[i]) { assert IsAsciiDigit(nums[i]); }
    }
  }

  /**
   * crowler.py's `limpar_texto`: "N/A" for empty text, otherwise the text
   * without its newlines and stripped.
   */
  function CleanText(texto: string): (r: string)
    ensures texto == [] ==> r == "N/A"
    ensures texto != [] ==> '\n' !in r && Trimmed(r)
  {
    if texto == [] then "N/A"
    else
      var t := ReplaceAll(texto, "\n", "");
      RemoveChar(texto, '\n');
      Strip(t)
  }

  /** The value of the digits and the single comma of a price text. */
  lemma DecimalOfDigits(whole: string, frac: string)
    requires AllAsciiDigits(whole) && AllAsciiDigits(frac) && whole + frac != []
    ensures DecimalOf(whole + "," + frac) == Some(PointValue(whole, frac))
  {
    var w := whole;
    var nums := w + "," + frac;
    assert forall i :: 0 <= i < |nums| ==> IsAsciiDigit(nums[i]) || nums[i] == ',' by {
      forall i | 0 <= i < |nums| ensures IsAsciiDigit(nums[i]) || nums[i] == ',' {
        if i < |w| { assert nums[i] == w[i]; }
        else if i > |w| { assert nums[i] == frac[i - |w| - 1]; }
      }
    }
    assert ',' !in w by {
      forall i | 0 <= i < |w| ensures w[i] != ',' { assert IsAsciiDigit(w[i]); }
    }
    assert ',' !in frac by {
      forall i | 0 <= i < |frac| ensures frac[i] != ',' { assert IsAsciiDigit(frac[i]); }
    }
    assert !HasNonDecimalDigit(nums) by {
      forall i | 0 <= i < |nums| ensures !IsNonDecimalDigit(nums[i]) { }
    }
    SplitAtFirstComma(w, frac);
    assert SplitAtComma(nums) == (w, Some(frac));
  }

  lemma {:induction false} KeepWithoutComma(s: string)
    requires ',' !in s
    ensures KeepDigitsAndCommas(s) == KeepDigits(s)
  {
    if s != [] {
      assert s[0] in s;
      assert forall c :: c in s[1..] ==> c in s;
      KeepWithoutComma(s[1..]);
    }
  }

  /** Without a comma, SplitAtComma finds nothing to split. */
  lemma {:induction false} SplitWithoutComma(s: string)
    requires ',' !in s
    ensures SplitAtComma(s) == (s, None)
  {
    if s != [] {
      assert s[0] in s;
      assert forall c :: c in s[1..] ==> c in s;
      SplitWithoutComma(s[1..]);
      assert [s[0]] + s[1..] == s;
    }
  }

  /**
   * On text without a comma, Zap's digits-only cleaner and the Galvão and
   * Apolar cleaner read the same number, and fail on the same texts.
   */
  lemma CleanersAgreeWithoutComma(texto: string)
    requires ',' !in texto
    ensures ParseWhole(texto).Some? <==> ParseDecimal(texto).Some?
    ensures ParseWhole(texto).Some? ==> ParseDecimal(texto).value == ParseWhole(texto).value as real
  {
    if texto != [] {
      KeepWithoutComma(texto);
      var nums := KeepDigits(texto);
      KeptDigits(texto);
      if nums != [] {
        assert ',' !in nums by {
          forall i | 0 <= i < |nums| ensures nums[i] != ',' { assert IsDigit(nums[i]); }
        }
        SplitWithoutComma(nums);
      }
    }
  }
}
