/**
 * Apolar's Brazilian-format query values, `formatar_dinheiro_url` and
 * `formatar_area_url`: Python renders the amount with `f"{v:,.2f}"`
 * (',' between thousands, '.' before the cents) and then swaps the two
 * separators through the placeholder 'X'.
 */
module ApolarFormat {
  import opened Wrappers
  import opened Text
  import opened Normalize

  /** A number below 1000 as exactly three digits, as it appears after a thousands separator. */
  function Pad3(k: nat): (r: string)
    requires k < 1000
    ensures |r| == 3 && AllAsciiDigits(r) && DigitsValue(r) == k
  {
    var a, b, c := DigitChar(k / 100), DigitChar(k / 10 % 10), DigitChar(k % 10);
    var r := [a, b, c];
    assert DigitsValue([a]) == k / 100 by { assert [a][..0] == []; }
    assert DigitsValue([a, b]) == k / 10 by { assert [a, b][..1] == [a]; }
    assert DigitsValue(r) == k by { assert r[..2] == [a, b]; }
    r
  }

  /** A number below 100 as exactly two digits: the cents after the decimal separator. */
  function Pad2(k: nat): (r: string)
    requires k < 100
    ensures |r| == 2 && AllAsciiDigits(r) && DigitsValue(r) == k
  {
    var a, b := DigitChar(k / 10), DigitChar(k % 10);
    var r := [a, b];
    assert DigitsValue([a]) == k / 10 by { assert [a][..0] == []; }
    assert DigitsValue(r) == k by { assert r[..1] == [a]; }
    r
  }

  /** The integer part of `f"{n:,}"`: digits in groups of three, `sep` between groups. */
  function Grouped(n: nat, sep: char): (r: string)
    ensures r != []
  {
    if n < 1000 then NatToString(n) else Grouped(n / 1000, sep) + [sep] + Pad3(n % 1000)
  }

  /** `f"{v:,.2f}"` for an amount of `cents` hundredths. */
  function UsFormat(cents: nat): string {
    Grouped(cents / 100, ',') + "." + Pad2(cents % 100)
  }

  /** `t.replace(',', 'X').replace('.', ',').replace('X', '.')`. */
  function SwapSeparators(t: string): string {
    ReplaceAll(ReplaceAll(ReplaceAll(t, ",", "X"), ".", ","), "X", ".")
  }

  /** `formatar_dinheiro_url`: the `price_max` query value, e.g. "R$ 2.500,00". */
  function MoneyParam(cents: nat): (r: string)
    ensures r == "R$ " + Grouped(cents / 100, '.') + "," + Pad2(cents % 100)
  {
    SwappedFormat(cents);
    "R$ " + SwapSeparators(UsFormat(cents))
  }

  /** `formatar_area_url`: the `area_min` query value, e.g. "60,00 m²". */
  function AreaParam(cents: nat): (r: string)
    ensures r == Grouped(cents / 100, '.') + "," + Pad2(cents % 100) + " m\U{B2}"
  {
    SwappedFormat(cents);
    SwapSeparators(UsFormat(cents)) + " m\U{B2}"
  }

  /** The separator exchange the placeholder swap is meant to perform on one character. */
  function Exchange(c: char): char {
    if c == ',' then '.' else if c == '.' then ',' else c
  }

  function Exchanged(t: string): (r: string)
    ensures |r| == |t|
  {
    seq(|t|, i requires 0 <= i < |t| => Exchange(t[i]))
  }

  /**
   * On text without the placeholder 'X', the three chained replacements
   * exchange ',' and '.' and leave every other character as it is.
   */
  lemma SwapExchanges(t: string)
    requires 'X' !in t
    ensures SwapSeparators(t) == Exchanged(t)
  {
    var a := ReplaceAll(t, ",", "X");
    ReplaceCharAt(t, ',', 'X');
    var b := ReplaceAll(a, ".", ",");
    ReplaceCharAt(a, '.', ',');
    ReplaceCharAt(b, 'X', '.');
    forall i | 0 <= i < |t| ensures SwapSeparators(t)[i] == Exchanged(t)[i] {
      assert t[i] != 'X' by { assert t[i] in t; }
    }
  }

  /** The placeholder is not escaped: an 'X' already in the text comes out as '.'. */
  lemma SwapCollidesOnPlaceholder()
    ensures SwapSeparators("X") == "."
  {
    ReplaceCharAt("X", ',', 'X');
    ReplaceCharAt("X", '.', ',');
    ReplaceCharAt("X", 'X', '.');
  }

  lemma ExchangedAppend(a: string, b: string)
    ensures Exchanged(a + b) == Exchanged(a) + Exchanged(b)
  {
  }

  /** Digits are not separators, so exchanging leaves them alone. */
  lemma ExchangedDigits(t: string)
    requires AllAsciiDigits(t)
    ensures Exchanged(t) == t
  {
  }

  /** Exchanging the separators of the US grouping gives the Brazilian grouping. */
  lemma {:induction false} ExchangedGrouped(n: nat)
    ensures Exchanged(Grouped(n, ',')) == Grouped(n, '.')
  {
    if n < 1000 {
      ExchangedDigits(NatToString(n));
    } else {
      ExchangedGrouped(n / 1000);
      ExchangedAppend(Grouped(n / 1000, ',') + [','], Pad3(n % 1000));
      ExchangedAppend(Grouped(n / 1000, ','), [',']);
      ExchangedDigits(Pad3(n % 1000));
    }
  }

  /** The US rendering holds only digits and the two separators, so never the placeholder. */
  lemma {:induction false} GroupedChars(n: nat, sep: char)
    ensures forall c :: c in Grouped(n, sep) ==> IsAsciiDigit(c) || c == sep
  {
    if n >= 1000 {
      GroupedChars(n / 1000, sep);
      var p := Pad3(n % 1000);
      forall c | c in p ensures IsAsciiDigit(c) { }
    } else {
      forall c | c in NatToString(n) ensures IsAsciiDigit(c) { }
    }
  }

  /** What the Brazilian rendering looks like once the swap is done. */
  lemma SwappedFormat(cents: nat)
    ensures SwapSeparators(UsFormat(cents)) == Grouped(cents / 100, '.') + "," + Pad2(cents % 100)
  {
    var g := Grouped(cents / 100, ',');
    var p := Pad2(cents % 100);
    GroupedChars(cents / 100, ',');
    forall c | c in p ensures IsAsciiDigit(c) { }
    assert 'X' !in UsFormat(cents);
    SwapExchanges(UsFormat(cents));
    ExchangedAppend(g + ".", p);
    ExchangedAppend(g, ".");
    ExchangedGrouped(cents / 100);
    ExchangedDigits(p);
  }

  lemma {:induction false} KeepAppend(a: string, b: string)
    ensures KeepDigitsAndCommas(a + b) == KeepDigitsAndCommas(a) + KeepDigitsAndCommas(b)
  {
    if a == [] {
      assert a + b == b;
    } else {
      var h: string := if IsDigit(a[0]) || a[0] == ',' then [a[0]] else [];
      assert (a + b)[0] == a[0];
      assert (a + b)[1..] == a[1..] + b;
      assert KeepDigitsAndCommas(a + b) == h + KeepDigitsAndCommas(a[1..] + b);
      KeepAppend(a[1..], b);
      assert KeepDigitsAndCommas(a) == h + KeepDigitsAndCommas(a[1..]);
    }
  }

  lemma {:induction false} KeepAsciiDigits(t: string)
    requires AllAsciiDigits(t)
    ensures KeepDigitsAndCommas(t) == t
  {
    if t != [] {
      KeepAsciiDigits(t[1..]);
    }
  }

  /** Dropping the dots of the Brazilian grouping leaves the plain digits of the amount. */
  lemma {:induction false} KeepGroupedDots(n: nat)
    ensures AllAsciiDigits(KeepDigitsAndCommas(Grouped(n, '.')))
    ensures KeepDigitsAndCommas(Grouped(n, '.')) != []
    ensures DigitsValue(KeepDigitsAndCommas(Grouped(n, '.'))) == n
  {
    if n < 1000 {
      KeepAsciiDigits(NatToString(n));
    } else {
      var head := Grouped(n / 1000, '.');
      var p := Pad3(n % 1000);
      KeepGroupedDots(n / 1000);
      KeepAppend(head + ".", p);
      KeepAppend(head, ".");
      KeepAsciiDigits(p);
      var d := KeepDigitsAndCommas(head);
      assert KeepDigitsAndCommas(Grouped(n, '.')) == d + p;
      DigitsValueAppend(d, p);
    }
  }

  /** Around a text, a piece without digits or commas contributes nothing, and a comma and a digit string themselves. */
  lemma KeepAround(r: string, g: string, p: string)
    requires KeepDigitsAndCommas(r) == [] && AllAsciiDigits(p)
    ensures KeepDigitsAndCommas(r + g + "," + p) == KeepDigitsAndCommas(g) + "," + p
  {
    KeepAppend(r + g + ",", p);
    KeepAppend(r + g, ",");
    KeepAppend(r, g);
    KeepAsciiDigits(p);
    assert KeepDigitsAndCommas(",") == "," by { assert ","[1..] == []; }
  }

  /** The characters `limpar_numero` keeps from a `price_max` value: the amount's digits, a comma, the cents. */
  lemma MoneyKept(cents: nat)
    ensures KeepDigitsAndCommas(MoneyParam(cents))
            == KeepDigitsAndCommas(Grouped(cents / 100, '.')) + "," + Pad2(cents % 100)
  {
    assert KeepDigitsAndCommas("R$ ") == [] by {
      assert "R$ "[1..] == "$ " && "$ "[1..] == " " && " "[1..] == [];
    }
    KeepAround("R$ ", Grouped(cents / 100, '.'), Pad2(cents % 100));
  }

  lemma CentsValue(cents: nat, d: string, p: string)
    requires AllAsciiDigits(d) && AllAsciiDigits(p)
    requires DigitsValue(d) == cents / 100 && p == Pad2(cents % 100)
    ensures PointValue(d, p) == cents as real / 100.0
  {
    assert Pow10(|p|) == 100 by { assert Pow10(2) == 10 * Pow10(1); }
    var q, m := cents / 100, cents % 100;
    assert cents == q * 100 + m;
    assert cents as real == q as real * 100.0 + m as real;
  }

  /**
   * Reading a `price_max` value back with `limpar_numero` gives the amount
   * it was rendered from: the dots are dropped and the comma becomes the
   * decimal point.
   */
  lemma MoneyRoundTrip(cents: nat)
    ensures ParseDecimal(MoneyParam(cents)) == Some(cents as real / 100.0)
  {
    MoneyKept(cents);
    KeepGroupedDots(cents / 100);
    var d := KeepDigitsAndCommas(Grouped(cents / 100, '.'));
    var p := Pad2(cents % 100);
    assert MoneyParam(cents) != [];
    DecimalOfDigits(d, p);
    CentsValue(cents, d, p);
  }

  /**
   * An `area_min` value is not something `limpar_numero` can read back: the
   * '²' of "m²" is a digit to `isdigit()` but not to `float()`.
   */
  lemma AreaNotReadable(cents: nat)
    ensures ParseDecimal(AreaParam(cents)) == None
  {
    var t := AreaParam(cents);
    var body := SwapSeparators(UsFormat(cents));
    KeepAppend(body, " m\U{B2}");
    assert KeepDigitsAndCommas(" m\U{B2}") == "\U{B2}" by {
      assert " m\U{B2}"[1..] == "m\U{B2}" && "m\U{B2}"[1..] == "\U{B2}" && "\U{B2}"[1..] == [];
    }
    var nums := KeepDigitsAndCommas(t);
    assert nums[|nums| - 1] == '\U{B2}';
    KeptDigitsAndCommas(t);
    assert HasNonDecimalDigit(nums) by { assert IsNonDecimalDigit(nums[|nums| - 1]); }
  }
}
