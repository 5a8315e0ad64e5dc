/**
 * `ZapProvider.run`: a fixed city and state, one search URL per
 * neighbourhood with the name title-cased for the `onde` parameter, and
 * one record per listing item that has a card link. Zap does not re-check
 * price or rooms after the search.
 */
module Zap {
  import opened Wrappers
  import opened Text
  import opened Normalize
  import opened Listing
  import opened Url
  import ApolarFormat

  const BaseUrl := "https://www.zapimoveis.com.br/aluguel"
  const Host := "https://www.zapimoveis.com.br"
  const Cidade := "Curitiba"
  const Estado := "Paran\U{E1}"
  /** The state as the `onde` hierarchy spells it, without the accent. */
  const HierarquiaEstado := "Parana"

  /** The filters Zap reads, with its defaults filled in. */
  datatype Settings = Settings(bairros: seq<string>, precoMax: real, areaMin: real)

  function SettingsOf(f: Filtros): (s: Settings)
    ensures f.bairros.None? ==> s.bairros == []
    ensures f.precoMax.None? ==> s.precoMax == 2500.0
    ensures f.areaMin.None? ==> s.areaMin == 50.0
    ensures f.bairros.Some? ==> s.bairros == f.bairros.value
  {
    Settings(f.bairros.GetOr([]), f.precoMax.GetOr(2500.0), f.areaMin.GetOr(50.0))
  }

  /** The name as Zap's `onde` parameter expects it: title-cased, with "Da " and "De " lower-cased again. */
  function BairroTitle(bairro: string): string {
    ReplaceAll(ReplaceAll(Title(bairro), "Da ", "da "), "De ", "de ")
  }

  /** Only the letter case of the name changes. */
  lemma BairroTitleCaseOnly(bairro: string)
    ensures Lower(BairroTitle(bairro)) == Lower(bairro)
  {
    var t := Title(bairro);
    TitleFromLower(bairro, false);
    assert "Da " == ['D'] + "a " && "da " == ['d'] + "a ";
    assert "De " == ['D'] + "e " && "de " == ['d'] + "e ";
    ReplaceLeadLower(t, 'D', 'd', "a ");
    ReplaceLeadLower(ReplaceAll(t, "Da ", "da "), 'D', 'd', "e ");
  }

  /** Neither connective is left capitalised before a following word. */
  lemma BairroTitleConnectives(bairro: string)
    ensures !Contains(BairroTitle(bairro), "Da ")
    ensures !Contains(BairroTitle(bairro), "De ")
  {
    var t := Title(bairro);
    assert "Da " == ['D'] + "a " && "da " == ['d'] + "a ";
    assert "De " == ['D'] + "e " && "de " == ['d'] + "e ";
    var once := ReplaceAll(t, "Da ", "da ");
    NoPatternAfterReplace(t, 'D', 'd', "a ");
    ReplaceKeepsAbsent(once, 'D', 'd', "e ", "Da ");
    NoPatternAfterReplace(once, 'D', 'd', "e ");
  }

  /** The `onde` value before quoting: state, city and neighbourhood, then the place hierarchy. */
  function Onde(title: string): string {
    ", " + Estado + ", " + Cidade + ", , " + title + ", , , neighborhood, BR>"
    + HierarquiaEstado + ">NULL>" + Cidade + ">Barrios>" + title + ", , "
  }

  /** The query string after the path. */
  function Query(cfg: Settings, bairro: string): string {
    "transacao=aluguel&"
    + "onde=" + Quote(Onde(BairroTitle(bairro))) + "&"
    + "tipos=apartamento_residencial&"
    + "quartos=2%2C3%2C4&"
    + "precoMaximo=" + IntToString(Truncate(cfg.precoMax)) + "&"
    + "areaMinima=" + IntToString(Truncate(cfg.areaMin)) + "&"
    + "origem=busca-recente"
  }

  /** The search page for one neighbourhood: always two-bedroom apartments in Curitiba. */
  function SearchUrl(cfg: Settings, bairro: string): string {
    BaseUrl + "/apartamentos/pr+curitiba++" + Slug(bairro) + "/2-quartos/?" + Query(cfg, bairro)
  }

  /**
   * The quoted `onde` value cannot end the parameter early or break the
   * URL: it holds no '&', '=', '#', '?' or space.
   */
  lemma OndeQuoted(bairro: string)
    ensures var q := Quote(Onde(BairroTitle(bairro)));
            '&' !in q && '=' !in q && '#' !in q && '?' !in q && ' ' !in q
  {
    var q := Quote(Onde(BairroTitle(bairro)));
    QuoteChars(Onde(BairroTitle(bairro)));
    forall c | c in q ensures c != '&' && c != '=' && c != '#' && c != '?' && c != ' ' {
      var i :| 0 <= i < |q| && q[i] == c;
    }
  }

  /**
   * The listing item's parts the provider reads; `None` is a missing tag or attribute.
   * The area tag is kept as its text fragments, which `get_text(strip=True)` strips one by one.
   */
  datatype Anchor = Anchor(href: Option<string>)

  datatype Item = Item(
    anchor: Option<Anchor>,
    price: Option<string>,
    area: Option<seq<string>>,
    bedrooms: Option<string>)

  /** The card link made absolute: anything not starting with "http" is taken as a path on the site. */
  function AbsoluteLink(href: string): (r: string)
    ensures StartsWith(r, "http")
    ensures StartsWith(href, "http") ==> r == href
    ensures !StartsWith(href, "http") ==> r == Host + href
  {
    if StartsWith(href, "http") then href
    else
      assert (Host + href)[..4] == Host[..4] == "http";
      Host + href
  }

  /** Making a link absolute twice changes nothing. */
  lemma AbsoluteLinkIdempotent(href: string)
    ensures AbsoluteLink(AbsoluteLink(href)) == AbsoluteLink(href)
  {
  }

  /** Zap's `limpar_numero` of a tag's text, with the provider's default for a missing tag. */
  function WholeOf(tag: Option<string>, default: nat): (r: Option<nat>)
    ensures tag.None? ==> r == Some(default)
  {
    if tag.Some? then ParseWhole(tag.value) else Some(default)
  }

  /** What one listing item contributes: nothing without a card link or when a number fails to parse. */
  function Decide(title: string, item: Item): (r: Option<Imovel>)
    ensures r.Some? <==> item.anchor.Some? && WholeOf(item.price, 0).Some? && WholeOf(item.bedrooms, 2).Some?
    ensures r.Some? ==>
              && r.value.imobiliaria == "Zap Im\U{F3}veis"
              && r.value.bairro == title
              && r.value.localReal.None? && r.value.tipo.None? && r.value.vagas.None?
              && r.value.preco == WholeOf(item.price, 0).value as real
              && r.value.quartos == WholeOf(item.bedrooms, 2).value
              && r.value.area == (if item.area.Some? then StrippedText(item.area.value) else "-")
              && r.value.link == AbsoluteLink(item.anchor.value.href.GetOr(""))
  {
    if item.anchor.None? then None
    else
      var link := AbsoluteLink(item.anchor.value.href.GetOr(""));
      var preco := WholeOf(item.price, 0);
      var quartos := WholeOf(item.bedrooms, 2);
      if preco.None? || quartos.None? then None
      else
        Some(Imovel("Zap Im\U{F3}veis", title, None, None, preco.value as real, quartos.value, None,
                    if item.area.Some? then StrippedText(item.area.value) else "-", link))
  }

  /** An item with a card but no bedroom tag is recorded with two rooms, the search's own minimum. */
  lemma MissingBedroomsDefault(title: string, item: Item)
    requires item.anchor.Some? && item.bedrooms.None? && WholeOf(item.price, 0).Some?
    ensures Decide(title, item).Some? && Decide(title, item).value.quartos == 2
  {
  }

  lemma {:induction false} KeepDigitsAppend(a: string, b: string)
    ensures KeepDigits(a + b) == KeepDigits(a) + KeepDigits(b)
  {
    if a == [] {
      assert a + b == b;
    } else {
      var h: string := if IsDigit(a[0]) then [a[0]] else [];
      assert (a + b)[0] == a[0] && (a + b)[1..] == a[1..] + b;
      assert KeepDigits(a + b) == h + KeepDigits(a[1..] + b);
      KeepDigitsAppend(a[1..], b);
      assert KeepDigits(a) == h + KeepDigits(a[1..]);
    }
  }

  lemma {:induction false} KeepDigitsOfDigits(t: string)
    requires AllAsciiDigits(t)
    ensures KeepDigits(t) == t
  {
    if t != [] {
      KeepDigitsOfDigits(t[1..]);
    }
  }

  /** Around a text, pieces without digits contribute nothing and a digit string contributes itself. */
  lemma KeepDigitsAround(r: string, g: string, c: string, p: string)
    requires KeepDigits(r) == [] && KeepDigits(c) == [] && AllAsciiDigits(p)
    ensures KeepDigits(r + g + c + p) == KeepDigits(g) + p
  {
    KeepDigitsAppend(r + g + c, p);
    KeepDigitsAppend(r + g, c);
    KeepDigitsAppend(r, g);
    KeepDigitsOfDigits(p);
  }

  /** The currency sign and the decimal comma hold no digit. */
  lemma KeepDigitsMoneyMarks()
    ensures KeepDigits("R$ ") == [] && KeepDigits(",") == []
  {
    assert "R$ "[1..] == "$ " && "$ "[1..] == " " && " "[1..] == [];
    assert ","[1..] == [];
  }

  lemma MoneyDigitsKept(cents: nat)
    ensures KeepDigits(ApolarFormat.MoneyParam(cents))
            == KeepDigits(ApolarFormat.Grouped(cents / 100, '.')) + ApolarFormat.Pad2(cents % 100)
  {
    KeepDigitsMoneyMarks();
    KeepDigitsAround("R$ ", ApolarFormat.Grouped(cents / 100, '.'), ",", ApolarFormat.Pad2(cents % 100));
  }

  /**
   * A price written with cents in the Brazilian way ("R$ 2.500,50") reads,
   * through Zap's digits-only cleaner, as the number of cents: the comma
   * is dropped along with the dots.
   */
  lemma CentsReadAsWhole(cents: nat)
    ensures ParseWhole(ApolarFormat.MoneyParam(cents)) == Some(cents)
  {
    var g := ApolarFormat.Grouped(cents / 100, '.');
    var p := ApolarFormat.Pad2(cents % 100);
    MoneyDigitsKept(cents);
    ApolarFormat.GroupedChars(cents / 100, '.');
    KeepWithoutComma(g);
    ApolarFormat.KeepGroupedDots(cents / 100);
    var d := KeepDigits(g);
    DigitsValueAppend(d, p);
    assert Pow10(2) == 100 by { assert Pow10(2) == 10 * Pow10(1); }
    assert !HasNonDecimalDigit(d + p) by {
      forall i | 0 <= i < |d + p| ensures !IsNonDecimalDigit((d + p)[i]) {
        assert IsAsciiDigit((d + p)[i]);
      }
    }
    assert ApolarFormat.MoneyParam(cents) != [];
  }

  /** The records kept from one page of items, in item order. */
  function Kept(title: string, items: seq<Item>): (r: seq<Imovel>)
    ensures |r| <= |items|
  {
    if items == [] then []
    else Kept(title, items[..|items| - 1]) + AsSeq(Decide(title, items[|items| - 1]))
  }

  /** What every Zap record satisfies. */
  predicate Sound(title: string, r: Imovel) {
    && r.imobiliaria == "Zap Im\U{F3}veis"
    && r.bairro == title
    && StartsWith(r.link, "http")
    && r.preco >= 0.0 && r.quartos >= 0
  }

  lemma {:induction false} KeptSound(title: string, items: seq<Item>)
    ensures forall k :: 0 <= k < |Kept(title, items)| ==> Sound(title, Kept(title, items)[k])
  {
    if items != [] {
      KeptSound(title, items[..|items| - 1]);
    }
  }

  /** Every item with a card link and readable numbers becomes a record: nothing is filtered by price or rooms. */
  lemma {:induction false} KeptCount(title: string, items: seq<Item>)
    requires forall k :: 0 <= k < |items| ==>
               items[k].anchor.Some? && WholeOf(items[k].price, 0).Some? && WholeOf(items[k].bedrooms, 2).Some?
    ensures |Kept(title, items)| == |items|
  {
    if items != [] {
      KeptCount(title, items[..|items| - 1]);
    }
  }

  /** The records one neighbourhood's page yields; nothing when the page fails to load. */
  function PageRecords(cfg: Settings, browse: string -> Option<seq<Item>>, bairro: string): seq<Imovel> {
    match browse(SearchUrl(cfg, bairro))
    case None => []
    case Some(items) => Kept(BairroTitle(bairro), items)
  }

  /** The records of the given neighbourhoods, in the order they are searched. */
  function ResultsFor(cfg: Settings, browse: string -> Option<seq<Item>>, bairros: seq<string>): seq<Imovel> {
    if bairros == [] then []
    else ResultsFor(cfg, browse, bairros[..|bairros| - 1]) + PageRecords(cfg, browse, bairros[|bairros| - 1])
  }

  /** Every record `run` returns is stored under the title-cased name of a requested neighbourhood. */
  lemma {:induction false} ResultsSound(cfg: Settings, browse: string -> Option<seq<Item>>, bairros: seq<string>)
    ensures forall k :: 0 <= k < |ResultsFor(cfg, browse, bairros)| ==>
              var r := ResultsFor(cfg, browse, bairros)[k];
              Sound(r.bairro, r) && r.bairro in TitlesOf(bairros)
  {
    if bairros != [] {
      var init := bairros[..|bairros| - 1];
      var last := bairros[|bairros| - 1];
      ResultsSound(cfg, browse, init);
      match browse(SearchUrl(cfg, last))
      case None =>
      case Some(items) => KeptSound(BairroTitle(last), items);
    }
  }

  /** The title-cased names of the requested neighbourhoods. */
  function TitlesOf(bairros: seq<string>): (r: set<string>)
    ensures forall b :: b in bairros ==> BairroTitle(b) in r
  {
    set b | b in bairros :: BairroTitle(b)
  }

  /** `run`: the records of every requested neighbourhood, in search order. */
  function Results(f: Filtros, browse: string -> Option<seq<Item>>): seq<Imovel> {
    var cfg := SettingsOf(f);
    ResultsFor(cfg, browse, cfg.bairros)
  }

  lemma KeptStep(title: string, items: seq<Item>, j: nat)
    requires j < |items|
    ensures Kept(title, items[..j + 1]) == Kept(title, items[..j]) + AsSeq(Decide(title, items[j]))
  {
    assert items[..j + 1][..j] == items[..j];
  }

  /** The item loop of `run` over one page. */
  method ScanPage(title: string, items: seq<Item>) returns (kept: seq<Imovel>)
    ensures kept == Kept(title, items)
  {
    kept := [];
    var j := 0;
    while j < |items|
      invariant 0 <= j <= |items|
      invariant kept == Kept(title, items[..j])
    {
      KeptStep(title, items, j);
      var r := Decide(title, items[j]);
      if r.Some? {
        kept := kept + [r.value];
      }
      j := j + 1;
    }
    assert items[..|items|] == items;
  }

  lemma ResultsStep(cfg: Settings, browse: string -> Option<seq<Item>>, bairros: seq<string>, i: nat)
    requires i < |bairros|
    ensures ResultsFor(cfg, browse, bairros[..i + 1])
            == ResultsFor(cfg, browse, bairros[..i]) + PageRecords(cfg, browse, bairros[i])
  {
    assert bairros[..i + 1][..i] == bairros[..i];
  }

  /**
   * `ZapProvider.run`, with the browser as `browse`: the listing items of
   * the page at a URL, or `None` when the page or its list fails to load.
   */
  method Run(f: Filtros, browse: string -> Option<seq<Item>>) returns (resultados: seq<Imovel>)
    ensures resultados == Results(f, browse)
  {
    var cfg := SettingsOf(f);
    resultados := [];
    var i := 0;
    while i < |cfg.bairros|
      invariant 0 <= i <= |cfg.bairros|
      invariant resultados == ResultsFor(cfg, browse, cfg.bairros[..i])
    {
      var bairro := cfg.bairros[i];
      ResultsStep(cfg, browse, cfg.bairros, i);
      var title := BairroTitle(bairro);
      var page := browse(SearchUrl(cfg, bairro));
      if page.Some? {
        var kept := ScanPage(title, page.value);
        resultados := resultados + kept;
      }
      i := i + 1;
    }
    assert cfg.bairros[..|cfg.bairros|] == cfg.bairros;
  }
}
