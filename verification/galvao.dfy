/**
 * `GalvaoProvider.run`: the whole search encoded in one URL slug per
 * neighbourhood, a neighbourhood check against each card's address label,
 * feature items classified by their text, and a re-check of the price
 * ceiling and room floor.
 */
module Galvao {
  import opened Wrappers
  import opened Text
  import opened Normalize
  import opened Listing

  const BaseUrl := "https://www.galvao.com.br/imoveis"
  const Host := "https://www.galvao.com.br"
  /** The lower price bound the site requires in the URL. */
  const PrecoMin := 0
  /** The generic upper area bound of the URL. */
  const AreaMax := 50000

  /** The filters with Galvão's defaults filled in; city and type are slugs. */
  datatype Settings = Settings(
    cidade: string,
    tipo: string,
    bairros: seq<string>,
    quartosMin: int,
    precoMax: real,
    areaMin: real)

  function SettingsOf(f: Filtros): (s: Settings)
    ensures IsSlugShaped(s.cidade) && IsSlugShaped(s.tipo)
    ensures f.bairros.None? ==> s.bairros == []
    ensures f.quartosMin.None? ==> s.quartosMin == 1
    ensures f.precoMax.None? ==> s.precoMax == 50000.0
    ensures f.areaMin.None? ==> s.areaMin == 0.0
  {
    Settings(
      Slug(f.cidade.GetOr("curitiba")),
      Slug(f.tipo.GetOr("apartamento")),
      f.bairros.GetOr([]),
      f.quartosMin.GetOr(1),
      f.precoMax.GetOr(50000.0),
      f.areaMin.GetOr(0.0))
  }

  /** Type, city and neighbourhood, each followed by its separator. */
  function PlacePart(cfg: Settings, bairro: string): string {
    cfg.tipo + "-locacao-" + cfg.cidade + "-" + Slug(bairro) + "-"
  }

  /** Room floor, price range and area range. */
  function RangePart(cfg: Settings): string {
    IntToString(cfg.quartosMin) + "-ou-mais-quartos-"
    + "de-" + IntToString(PrecoMin) + "-ate-" + IntToString(Truncate(cfg.precoMax)) + "-"
    + "de-" + IntToString(Truncate(cfg.areaMin)) + "m2-ate-" + IntToString(AreaMax) + "m2"
  }

  /**
   * The search slug for one neighbourhood:
   * `{tipo}-locacao-{cidade}-{bairro}-{q}-ou-mais-quartos-de-{pmin}-ate-{pmax}-de-{amin}m2-ate-{amax}m2`,
   * with the price ceiling and area floor truncated to integers.
   */
  function UrlSlug(cfg: Settings, bairro: string): string {
    PlacePart(cfg, bairro) + RangePart(cfg)
  }

  function SearchUrl(cfg: Settings, bairro: string): (r: string)
    ensures |BaseUrl| < |r| && r[..|BaseUrl| + 1] == BaseUrl + "/"
  {
    var u := BaseUrl + "/" + UrlSlug(cfg, bairro);
    assert u[..|BaseUrl| + 1] == BaseUrl + "/";
    u
  }

  /** Text that can stand in a URL path as it is: no spaces and nothing upper-case. */
  predicate UrlText(t: string) {
    forall i :: 0 <= i < |t| ==> t[i] != ' ' && !IsUpper(t[i])
  }

  lemma DigitsUrlText(t: string)
    requires AllAsciiDigits(t)
    ensures UrlText(t)
  {
    forall i | 0 <= i < |t| ensures t[i] != ' ' && !IsUpper(t[i]) {
      assert IsAsciiDigit(t[i]);
    }
  }

  lemma SlugUrlText(t: string)
    requires IsSlugShaped(t)
    ensures UrlText(t)
  {
    forall i | 0 <= i < |t| ensures t[i] != ' ' && !IsUpper(t[i]) {
      assert t[i] in t;
    }
  }

  lemma IntUrlText(i: int)
    ensures UrlText(IntToString(i))
  {
    var t := IntToString(i);
    if i < 0 {
      DigitsUrlText(t[1..]);
      assert t == [t[0]] + t[1..];
    } else {
      DigitsUrlText(t);
    }
  }

  lemma UrlTextAppend(a: string, b: string)
    requires UrlText(a) && UrlText(b)
    ensures UrlText(a + b)
  {
    forall i | 0 <= i < |a + b| ensures (a + b)[i] != ' ' && !IsUpper((a + b)[i]) {
      if i >= |a| {
        assert (a + b)[i] == b[i - |a|];
      }
    }
  }

  lemma LiteralPartsUrlText()
    ensures UrlText("-locacao-") && UrlText("-") && UrlText("-ou-mais-quartos-") && UrlText("de-")
    ensures UrlText("-ate-") && UrlText("m2-ate-") && UrlText("m2")
  {
  }

  lemma BaseUrlText()
    ensures UrlText(BaseUrl + "/")
  {
  }

  lemma PlaceUrlText(cfg: Settings, bairro: string)
    requires IsSlugShaped(cfg.tipo) && IsSlugShaped(cfg.cidade)
    ensures UrlText(PlacePart(cfg, bairro))
  {
    LiteralPartsUrlText();
    SlugUrlText(cfg.tipo);
    SlugUrlText(cfg.cidade);
    SlugUrlText(Slug(bairro));
    var t := cfg.tipo + "-locacao-";
    UrlTextAppend(cfg.tipo, "-locacao-");
    UrlTextAppend(t, cfg.cidade);
    UrlTextAppend(t + cfg.cidade, "-");
    UrlTextAppend(t + cfg.cidade + "-", Slug(bairro));
    UrlTextAppend(t + cfg.cidade + "-" + Slug(bairro), "-");
  }

  lemma RangeUrlText(cfg: Settings)
    ensures UrlText(RangePart(cfg))
  {
    LiteralPartsUrlText();
    var q, p0, p1, a0, a1 := IntToString(cfg.quartosMin), IntToString(PrecoMin),
      IntToString(Truncate(cfg.precoMax)), IntToString(Truncate(cfg.areaMin)), IntToString(AreaMax);
    IntUrlText(cfg.quartosMin);
    IntUrlText(PrecoMin);
    IntUrlText(Truncate(cfg.precoMax));
    IntUrlText(Truncate(cfg.areaMin));
    IntUrlText(AreaMax);
    var s := q;
    UrlTextAppend(s, "-ou-mais-quartos-");
    s := s + "-ou-mais-quartos-";
    UrlTextAppend(s, "de-");
    s := s + "de-";
    UrlTextAppend(s, p0);
    s := s + p0;
    UrlTextAppend(s, "-ate-");
    s := s + "-ate-";
    UrlTextAppend(s, p1);
    s := s + p1;
    UrlTextAppend(s, "-");
    s := s + "-";
    UrlTextAppend(s, "de-");
    s := s + "de-";
    UrlTextAppend(s, a0);
    s := s + a0;
    UrlTextAppend(s, "m2-ate-");
    s := s + "m2-ate-";
    UrlTextAppend(s, a1);
    s := s + a1;
    UrlTextAppend(s, "m2");
    s := s + "m2";
    assert s == RangePart(cfg);
  }

  /** The search URL is lower-case text without spaces, whatever the neighbourhood's name. */
  lemma SearchUrlShape(cfg: Settings, bairro: string)
    requires IsSlugShaped(cfg.tipo) && IsSlugShaped(cfg.cidade)
    ensures UrlText(SearchUrl(cfg, bairro))
  {
    PlaceUrlText(cfg, bairro);
    RangeUrlText(cfg);
    UrlTextAppend(PlacePart(cfg, bairro), RangePart(cfg));
    BaseUrlText();
    UrlTextAppend(BaseUrl + "/", UrlSlug(cfg, bairro));
  }

  /** The parts of a `list__link` card the provider reads; `None` is a missing attribute or tag. */
  datatype Card = Card(
    href: Option<string>,
    bairroLabel: Option<string>,
    price: Option<string>,
    features: seq<string>)

  /** The neighbourhood a card is stored under: its address label without "Bairro:", or the one searched. */
  function BairroReal(bairro: string, rotulo: Option<string>): (r: string)
    ensures rotulo.None? ==> r == bairro
    ensures rotulo.Some? ==> Trimmed(r)
  {
    if rotulo.Some? then Strip(ReplaceAll(rotulo.value, "Bairro:", "")) else bairro
  }

  /** What the feature items say, in the variables the card loop keeps. */
  datatype Features = Features(quartos: real, area: string, vagas: real)

  const NoFeatures := Features(0.0, "-", 0.0)

  /** The text a feature item is classified by: stripped, then lower-cased. */
  function FeatureText(item: string): (r: string)
    ensures forall c :: c in r ==> !IsUpper(c)
  {
    Lower(Strip(item))
  }

  /**
   * One pass of the feature loop: an item mentioning "m²" is the area, else
   * one mentioning "quarto" the rooms, else one mentioning "vaga" the
   * parking spaces; anything else (bathrooms included) is ignored.
   */
  function ClassifyItem(acc: Features, item: string): Option<Features> {
    var texto := FeatureText(item);
    if Contains(texto, "m\U{B2}") then Some(acc.(area := texto))
    else if Contains(texto, "quarto") then
      match ParseDecimal(texto)
      case None => None
      case Some(q) => Some(acc.(quartos := q))
    else if Contains(texto, "vaga") then
      match ParseDecimal(texto)
      case None => None
      case Some(v) => Some(acc.(vagas := v))
    else Some(acc)
  }

  /**
   * An "m²" item sets the area whatever else it says, an item naming none
   * of the three keywords changes nothing, and the numbers read are never
   * negative.
   */
  lemma ClassifyItemShape(acc: Features, item: string)
    ensures var r, t := ClassifyItem(acc, item), FeatureText(item);
            && (Contains(t, "m\U{B2}") ==> r == Some(acc.(area := t)))
            && (!Contains(t, "m\U{B2}") && !Contains(t, "quarto") && !Contains(t, "vaga") ==> r == Some(acc))
            && (r.Some? ==> (r.value.quartos >= 0.0 || r.value.quartos == acc.quartos)
                            && (r.value.vagas >= 0.0 || r.value.vagas == acc.vagas)
                            && (r.value.area == acc.area || Contains(r.value.area, "m\U{B2}")))
  {
  }

  /**
   * An item without "m²" that mentions "quarto" sets the rooms to the number
   * it reads; otherwise one that mentions "vaga" sets the parking spaces.
   * Either fails when the number does not parse, and nothing else changes.
   */
  lemma ClassifyItemNumbers(acc: Features, item: string)
    ensures var r, t := ClassifyItem(acc, item), FeatureText(item);
            && (!Contains(t, "m\U{B2}") && Contains(t, "quarto") ==>
                  r == if ParseDecimal(t).None? then None else Some(acc.(quartos := ParseDecimal(t).value)))
            && (!Contains(t, "m\U{B2}") && !Contains(t, "quarto") && Contains(t, "vaga") ==>
                  r == if ParseDecimal(t).None? then None else Some(acc.(vagas := ParseDecimal(t).value)))
  {
  }

  /** A feature loop driven by `step`, over `items`, that stops at the first item `step` rejects. */
  function FoldFeatures(step: (Features, string) -> Option<Features>, items: seq<string>): Option<Features> {
    if items == [] then Some(NoFeatures)
    else
      match FoldFeatures(step, items[..|items| - 1])
      case None => None
      case Some(acc) => step(acc, items[|items| - 1])
  }

  /** The variables after the feature loop over `items`; `None` when a number in them fails to parse. */
  function Classify(items: seq<string>): Option<Features> {
    FoldFeatures(ClassifyItem, items)
  }

  /** Before any item, the loop starts from no rooms, area "-" and no parking spaces. */
  lemma ClassifyEmpty()
    ensures Classify([]) == Some(Features(0.0, "-", 0.0))
  {
  }

  /** Numbers the loop reads are never negative, and the area is either the default or an "m²" text. */
  lemma {:induction false} ClassifySane(items: seq<string>)
    ensures Classify(items).Some? ==>
              && Classify(items).value.quartos >= 0.0
              && Classify(items).value.vagas >= 0.0
              && (Classify(items).value.area == "-" || Contains(Classify(items).value.area, "m\U{B2}"))
  {
    if items != [] {
      ClassifySane(items[..|items| - 1]);
      if Classify(items[..|items| - 1]).Some? {
        ClassifyItemShape(Classify(items[..|items| - 1]).value, items[|items| - 1]);
      }
    }
  }

  /** A feature loop that stops early cannot be resumed: once an item is rejected, the card is lost. */
  lemma {:induction false} FoldFailureSticks(step: (Features, string) -> Option<Features>, items: seq<string>, more: seq<string>)
    requires FoldFeatures(step, items).None?
    ensures FoldFeatures(step, items + more).None?
    decreases |more|
  {
    if more == [] {
      assert items + more == items;
    } else {
      var init := more[..|more| - 1];
      FoldFailureSticks(step, items, init);
      var all := items + more;
      assert all[..|all| - 1] == items + init;
    }
  }

  /** A rejection at item `j` is the outcome of the whole loop. */
  lemma FoldFailureAt(step: (Features, string) -> Option<Features>, items: seq<string>, j: nat)
    requires j < |items| && FoldFeatures(step, items[..j + 1]).None?
    ensures FoldFeatures(step, items).None?
  {
    FoldFailureSticks(step, items[..j + 1], items[j + 1..]);
    assert items[..j + 1] + items[j + 1..] == items;
  }

  lemma FoldStep(step: (Features, string) -> Option<Features>, items: seq<string>, j: nat)
    requires j < |items|
    ensures FoldFeatures(step, items[..j + 1])
            == match FoldFeatures(step, items[..j]) case None => None case Some(acc) => step(acc, items[j])
  {
    assert items[..j + 1][..j] == items[..j];
  }

  /** The body of the feature loop for one item: `None` when its number fails to parse. */
  method ReadFeature(acc: Features, item: string) returns (r: Option<Features>)
    ensures r == ClassifyItem(acc, item)
  {
    var texto := FeatureText(item);
    if Contains(texto, "m\U{B2}") {
      r := Some(acc.(area := texto));
    } else if Contains(texto, "quarto") {
      var q := ParseDecimal(texto);
      r := if q.None? then None else Some(acc.(quartos := q.value));
    } else if Contains(texto, "vaga") {
      var v := ParseDecimal(texto);
      r := if v.None? then None else Some(acc.(vagas := v.value));
    } else {
      r := Some(acc);
    }
  }

  /** The feature loop of the card body, exiting on the first number that fails to parse. */
  method ScanFeatures(items: seq<string>) returns (r: Option<Features>)
    ensures r == Classify(items)
  {
    var quartos, area, vagas := 0.0, "-", 0.0;
    var j := 0;
    while j < |items|
      invariant 0 <= j <= |items|
      invariant FoldFeatures(ClassifyItem, items[..j]) == Some(Features(quartos, area, vagas))
    {
      FoldStep(ClassifyItem, items, j);
      var next := ReadFeature(Features(quartos, area, vagas), items[j]);
      if next.None? {
        FoldFailureAt(ClassifyItem, items, j);
        return None;
      }
      quartos, area, vagas := next.value.quartos, next.value.area, next.value.vagas;
      j := j + 1;
    }
    assert items[..|items|] == items;
    r := Some(Features(quartos, area, vagas));
  }

  /** What one card contributes: a record, or nothing when it is skipped or raises. */
  function Decide(cfg: Settings, bairro: string, card: Card): (r: Option<Imovel>)
    ensures r.Some? ==>
              && card.href.Some?
              && r.value.imobiliaria == "Galv\U{E3}o"
              && r.value.bairro == BairroReal(bairro, card.bairroLabel)
              && r.value.link == Host + card.href.value
              && r.value.tipo == Some(cfg.tipo)
              && r.value.localReal.None?
              && NumberOf(card.price) == Some(r.value.preco)
              && Classify(card.features).Some?
              && r.value.quartos == Truncate(Classify(card.features).value.quartos)
              && r.value.vagas == Some(Truncate(Classify(card.features).value.vagas))
              && r.value.area == Classify(card.features).value.area
  {
    if card.href.None? then None
    else
      var link := Host + card.href.value;
      var bairroReal := BairroReal(bairro, card.bairroLabel);
      if !Contains(Slug(bairroReal), Slug(bairro)) then None
      else
        var preco := NumberOf(card.price);
        var feats := Classify(card.features);
        if preco.None? || feats.None? then None
        else if !Affordable(cfg.precoMax, cfg.quartosMin, preco.value, feats.value.quartos) then None
        else
          Some(Imovel("Galv\U{E3}o", bairroReal, None, Some(cfg.tipo), preco.value,
                      Truncate(feats.value.quartos), Some(Truncate(feats.value.vagas)),
                      feats.value.area, link))
  }

  /** What every Galvão record satisfies for the neighbourhood it was searched under. */
  predicate Sound(cfg: Settings, bairro: string, r: Imovel) {
    && r.imobiliaria == "Galv\U{E3}o"
    && Contains(Slug(r.bairro), Slug(bairro))
    && WithinBounds(r, cfg.precoMax, cfg.quartosMin)
    && |Host| <= |r.link| && r.link[..|Host|] == Host
    && r.quartos >= 0
    && r.vagas.Some? && r.vagas.value >= 0
  }

  /** A kept card passed the neighbourhood check and the re-check, and links into the site. */
  lemma DecideSound(cfg: Settings, bairro: string, card: Card)
    ensures Decide(cfg, bairro, card).Some? ==> Sound(cfg, bairro, Decide(cfg, bairro, card).value)
  {
    var r := Decide(cfg, bairro, card);
    if r.Some? {
      ClassifySane(card.features);
      var f := Classify(card.features).value;
      AffordableWithinBounds(cfg.precoMax, cfg.quartosMin, r.value.preco, f.quartos, r.value);
      assert (Host + card.href.value)[..|Host|] == Host;
    }
  }

  /**
   * A card is kept exactly when it has a link, its neighbourhood contains
   * the searched one, its price and features read, and the numbers pass
   * the re-check.
   */
  lemma DecideKeeps(cfg: Settings, bairro: string, card: Card)
    ensures Decide(cfg, bairro, card).Some? <==>
              && card.href.Some?
              && Contains(Slug(BairroReal(bairro, card.bairroLabel)), Slug(bairro))
              && NumberOf(card.price).Some? && Classify(card.features).Some?
              && Affordable(cfg.precoMax, cfg.quartosMin, NumberOf(card.price).value, Classify(card.features).value.quartos)
  {
  }

  /** A card without an address label is checked against the searched neighbourhood itself, so it always passes. */
  lemma MissingLabelPasses(cfg: Settings, bairro: string, card: Card)
    requires card.href.Some? && card.bairroLabel.None?
    requires NumberOf(card.price).Some? && Classify(card.features).Some?
    requires Affordable(cfg.precoMax, cfg.quartosMin, NumberOf(card.price).value, Classify(card.features).value.quartos)
    ensures Decide(cfg, bairro, card).Some?
    ensures Decide(cfg, bairro, card).value.bairro == bairro
  {
    assert Slug(bairro) <= Slug(bairro);
  }

  /** A card without a link raises before anything else is read, and is skipped. */
  lemma MissingLinkSkipped(cfg: Settings, bairro: string, card: Card)
    requires card.href.None?
    ensures Decide(cfg, bairro, card).None?
  {
  }

  /** The card body of the page loop: the feature loop, then the same decision. */
  method DecideCard(cfg: Settings, bairro: string, card: Card) returns (r: Option<Imovel>)
    ensures r == Decide(cfg, bairro, card)
  {
    if card.href.None? {
      return None;
    }
    var link := Host + card.href.value;
    var bairroReal := BairroReal(bairro, card.bairroLabel);
    if !Contains(Slug(bairroReal), Slug(bairro)) {
      return None;
    }
    var preco := NumberOf(card.price);
    var feats := ScanFeatures(card.features);
    if preco.None? || feats.None? {
      return None;
    }
    if !Affordable(cfg.precoMax, cfg.quartosMin, preco.value, feats.value.quartos) {
      return None;
    }
    r := Some(Imovel("Galv\U{E3}o", bairroReal, None, Some(cfg.tipo), preco.value,
                     Truncate(feats.value.quartos), Some(Truncate(feats.value.vagas)),
                     feats.value.area, link));
  }

  /** The records kept from one page of cards, in card order. */
  function Kept(cfg: Settings, bairro: string, cards: seq<Card>): (r: seq<Imovel>)
    ensures |r| <= |cards|
  {
    if cards == [] then []
    else Kept(cfg, bairro, cards[..|cards| - 1]) + AsSeq(Decide(cfg, bairro, cards[|cards| - 1]))
  }

  lemma {:induction false} KeptSound(cfg: Settings, bairro: string, cards: seq<Card>)
    ensures forall k :: 0 <= k < |Kept(cfg, bairro, cards)| ==> Sound(cfg, bairro, Kept(cfg, bairro, cards)[k])
  {
    if cards != [] {
      KeptSound(cfg, bairro, cards[..|cards| - 1]);
      DecideSound(cfg, bairro, cards[|cards| - 1]);
    }
  }

  /** The records one neighbourhood's page yields; nothing when the page fails to load. */
  function PageRecords(cfg: Settings, browse: string -> Option<seq<Card>>, bairro: string): seq<Imovel> {
    match browse(SearchUrl(cfg, bairro))
    case None => []
    case Some(cards) => Kept(cfg, bairro, cards)
  }

  /** The records of the given neighbourhoods, in the order they are searched. */
  function ResultsFor(cfg: Settings, browse: string -> Option<seq<Card>>, bairros: seq<string>): seq<Imovel> {
    if bairros == [] then []
    else ResultsFor(cfg, browse, bairros[..|bairros| - 1]) + PageRecords(cfg, browse, bairros[|bairros| - 1])
  }

  lemma PageSound(cfg: Settings, browse: string -> Option<seq<Card>>, bairro: string)
    ensures forall k :: 0 <= k < |PageRecords(cfg, browse, bairro)| ==> Sound(cfg, bairro, PageRecords(cfg, browse, bairro)[k])
  {
    match browse(SearchUrl(cfg, bairro))
    case None =>
    case Some(cards) => KeptSound(cfg, bairro, cards);
  }

  /** The requested neighbourhood whose page produced the `k`-th record. */
  lemma {:induction false} SourceOf(cfg: Settings, browse: string -> Option<seq<Card>>, bairros: seq<string>, k: nat)
    returns (b: string)
    requires k < |ResultsFor(cfg, browse, bairros)|
    ensures b in bairros && Sound(cfg, b, ResultsFor(cfg, browse, bairros)[k])
  {
    var init := bairros[..|bairros| - 1];
    var last := bairros[|bairros| - 1];
    var head := ResultsFor(cfg, browse, init);
    var tail := PageRecords(cfg, browse, last);
    assert ResultsFor(cfg, browse, bairros) == head + tail;
    if k < |head| {
      b := SourceOf(cfg, browse, init, k);
      assert (head + tail)[k] == head[k];
    } else {
      PageSound(cfg, browse, last);
      assert (head + tail)[k] == tail[k - |head|];
      b := last;
    }
  }

  /** The record passed the checks for one of the requested neighbourhoods. */
  predicate SoundForSome(cfg: Settings, bairros: seq<string>, r: Imovel) {
    exists b :: b in bairros && Sound(cfg, b, r)
  }

  /** Every record `run` returns passed the checks for one of the requested neighbourhoods. */
  lemma ResultsSound(cfg: Settings, browse: string -> Option<seq<Card>>, bairros: seq<string>)
    ensures forall k :: 0 <= k < |ResultsFor(cfg, browse, bairros)| ==>
              SoundForSome(cfg, bairros, ResultsFor(cfg, browse, bairros)[k])
  {
    forall k | 0 <= k < |ResultsFor(cfg, browse, bairros)|
      ensures SoundForSome(cfg, bairros, ResultsFor(cfg, browse, bairros)[k])
    {
      var b := SourceOf(cfg, browse, bairros, k);
    }
  }

  /** `run`: the records of every requested neighbourhood, in search order. */
  function Results(f: Filtros, browse: string -> Option<seq<Card>>): seq<Imovel> {
    var cfg := SettingsOf(f);
    ResultsFor(cfg, browse, cfg.bairros)
  }

  lemma KeptStep(cfg: Settings, bairro: string, cards: seq<Card>, j: nat)
    requires j < |cards|
    ensures Kept(cfg, bairro, cards[..j + 1]) == Kept(cfg, bairro, cards[..j]) + AsSeq(Decide(cfg, bairro, cards[j]))
  {
    assert cards[..j + 1][..j] == cards[..j];
  }

  /** The card loop of `run` over one page. */
  method ScanPage(cfg: Settings, bairro: string, cards: seq<Card>) returns (kept: seq<Imovel>)
    ensures kept == Kept(cfg, bairro, cards)
  {
    kept := [];
    var j := 0;
    while j < |cards|
      invariant 0 <= j <= |cards|
      invariant kept == Kept(cfg, bairro, cards[..j])
    {
      KeptStep(cfg, bairro, cards, j);
      var r := DecideCard(cfg, bairro, cards[j]);
      if r.Some? {
        kept := kept + [r.value];
      }
      j := j + 1;
    }
    assert cards[..|cards|] == cards;
  }

  lemma ResultsStep(cfg: Settings, browse: string -> Option<seq<Card>>, bairros: seq<string>, i: nat)
    requires i < |bairros|
    ensures ResultsFor(cfg, browse, bairros[..i + 1])
            == ResultsFor(cfg, browse, bairros[..i]) + PageRecords(cfg, browse, bairros[i])
  {
    assert bairros[..i + 1][..i] == bairros[..i];
  }

  /**
   * `GalvaoProvider.run`, with the browser as `browse`: the cards of the
   * page at a URL, or `None` when the page or its cards fail to load.
   */
  method Run(f: Filtros, browse: string -> Option<seq<Card>>) returns (resultados: seq<Imovel>)
    ensures resultados == Results(f, browse)
  {
    var cfg := SettingsOf(f);
    resultados := [];
    var i := 0;
    while i < |cfg.bairros|
      invariant 0 <= i <= |cfg.bairros|
      invariant resultados == ResultsFor(cfg, browse, cfg.bairros[..i])
    {
      var bairro := cfg.bairros[i];
      ResultsStep(cfg, browse, cfg.bairros, i);
      var page := browse(SearchUrl(cfg, bairro));
      if page.Some? {
        var kept := ScanPage(cfg, bairro, page.value);
        resultados := resultados + kept;
      }
      i := i + 1;
    }
    assert cfg.bairros[..|cfg.bairros|] == cfg.bairros;
  }
}
