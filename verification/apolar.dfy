/**
 * `ApolarProvider.run`: one search page per requested neighbourhood, a
 * location check on every card's address, a re-check of the price ceiling
 * and room floor, and one record per card that passes.
 */
module Apolar {
  import opened Wrappers
  import opened Text
  import opened Normalize
  import opened Listing
  import opened ApolarFormat
  import opened Url

  const BaseUrl := "https://www.apolar.com.br/alugar"

  /** The filters with Apolar's defaults filled in; the city is already a slug, the type is not. */
  datatype Settings = Settings(
    cidade: string,
    tipo: string,
    bairros: seq<string>,
    quartosMin: int,
    precoMax: real,
    areaMin: real,
    condominioIncluso: bool)

  function SettingsOf(f: Filtros): (s: Settings)
    ensures IsSlugShaped(s.cidade)
    ensures f.tipo.None? ==> s.tipo == "apartamento"
    ensures f.bairros.None? ==> s.bairros == []
    ensures f.quartosMin.None? ==> s.quartosMin == 0
    ensures f.precoMax.None? ==> s.precoMax == 0.0
    ensures f.areaMin.None? ==> s.areaMin == 0.0
    ensures f.condominioIncluso.None? ==> !s.condominioIncluso
  {
    Settings(
      Slug(f.cidade.GetOr("curitiba")),
      f.tipo.GetOr("apartamento"),
      f.bairros.GetOr([]),
      f.quartosMin.GetOr(0),
      f.precoMax.GetOr(0.0),
      f.areaMin.GetOr(0.0),
      f.condominioIncluso.GetOr(false))
  }

  /**
   * The hundredths `f"{v:,.2f}"` shows for a non-negative amount: the
   * nearest whole number of cents.
   */
  function Cents(v: real): (r: nat)
    requires v >= 0.0
    ensures r as real - 0.5 <= v * 100.0 < r as real + 0.5
  {
    (v * 100.0 + 0.5).Floor
  }

  /** The value a query dictionary holds for `key`. */
  function Lookup(params: seq<(string, string)>, key: string): Option<string> {
    if params == [] then None
    else if params[0].0 == key then Some(params[0].1)
    else Lookup(params[1..], key)
  }

  lemma {:induction false} LookupAppend(a: seq<(string, string)>, b: seq<(string, string)>, key: string)
    ensures Lookup(a + b, key) == if Lookup(a, key).Some? then Lookup(a, key) else Lookup(b, key)
  {
    if a == [] {
      assert a + b == b;
    } else {
      assert (a + b)[0] == a[0] && (a + b)[1..] == a[1..] + b;
      LookupAppend(a[1..], b, key);
    }
  }

  /** The path up to the neighbourhood slug. */
  function PathPrefix(cfg: Settings, bairro: string): string {
    BaseUrl + "/" + cfg.tipo + "/" + cfg.cidade + "/" + Slug(bairro)
  }

  function OptionalParam(present: bool, key: string, value: string): (r: seq<(string, string)>)
    ensures Lookup(r, key) == if present then Some(value) else None
    ensures forall i :: 0 <= i < |r| ==> r[i].0 == key
  {
    if present then [(key, value)] else []
  }

  /** The URL path of one neighbourhood's search: the room floor becomes a last segment only when positive. */
  function SearchPath(cfg: Settings, bairro: string): (r: string)
    ensures |PathPrefix(cfg, bairro)| <= |r| && r[..|PathPrefix(cfg, bairro)|] == PathPrefix(cfg, bairro)
    ensures cfg.quartosMin > 0 <==> |r| > |PathPrefix(cfg, bairro)|
    ensures cfg.quartosMin > 0 ==> r[|PathPrefix(cfg, bairro)|..] == "/" + IntToString(cfg.quartosMin) + "-quartos"
  {
    var prefix := PathPrefix(cfg, bairro);
    if cfg.quartosMin > 0 then
      var suffix := "/" + IntToString(cfg.quartosMin) + "-quartos";
      assert (prefix + suffix)[..|prefix|] == prefix;
      assert (prefix + suffix)[|prefix|..] == suffix;
      prefix + suffix
    else prefix
  }

  function PriceValue(cfg: Settings): string {
    if cfg.precoMax > 0.0 then MoneyParam(Cents(cfg.precoMax)) else ""
  }

  function AreaValue(cfg: Settings): string {
    if cfg.areaMin > 0.0 then AreaParam(Cents(cfg.areaMin)) else ""
  }

  /** The value found for `key` in four consecutive parts of a dictionary, the first part that has it winning. */
  lemma LookupParts(a: seq<(string, string)>, b: seq<(string, string)>, c: seq<(string, string)>,
                    d: seq<(string, string)>, key: string)
    ensures Lookup(a + b + c + d, key)
            == if Lookup(a, key).Some? then Lookup(a, key)
               else if Lookup(b, key).Some? then Lookup(b, key)
               else if Lookup(c, key).Some? then Lookup(c, key)
               else Lookup(d, key)
  {
    LookupAppend(a + b + c, d, key);
    LookupAppend(a + b, c, key);
    LookupAppend(a, b, key);
  }

  /**
   * The query dictionary: always `mensal` and `country`, then each optional
   * filter only when it is set.
   */
  function QueryParams(cfg: Settings): (r: seq<(string, string)>)
    ensures |r| >= 2 && r[..2] == [("mensal", ""), ("country", "Brasil")]
    ensures Lookup(r, "price_max") == if cfg.precoMax > 0.0 then Some(PriceValue(cfg)) else None
    ensures Lookup(r, "area_min") == if cfg.areaMin > 0.0 then Some(AreaValue(cfg)) else None
    ensures Lookup(r, "price_condominium_included") == if cfg.condominioIncluso then Some("true") else None
  {
    var fixed := [("mensal", ""), ("country", "Brasil")];
    var price := OptionalParam(cfg.precoMax > 0.0, "price_max", PriceValue(cfg));
    var area := OptionalParam(cfg.areaMin > 0.0, "area_min", AreaValue(cfg));
    var condo := OptionalParam(cfg.condominioIncluso, "price_condominium_included", "true");
    LookupParts(fixed, price, area, condo, "price_max");
    LookupParts(fixed, price, area, condo, "area_min");
    LookupParts(fixed, price, area, condo, "price_condominium_included");
    fixed + price + area + condo
  }

  /** The search page `run` opens for one neighbourhood: the path, '?', the encoded query. */
  function SearchUrl(cfg: Settings, bairro: string): string {
    SearchPath(cfg, bairro) + "?" + UrlEncode(QueryParams(cfg))
  }

  /**
   * The price ceiling travels in the URL as a value that reads back, with
   * `limpar_numero`, as the ceiling rounded to the cent.
   */
  lemma PriceParamReadsBack(cfg: Settings)
    requires cfg.precoMax > 0.0
    ensures Lookup(QueryParams(cfg), "price_max").Some?
    ensures var back := ParseDecimal(Lookup(QueryParams(cfg), "price_max").value);
            back.Some? && cfg.precoMax - 0.005 < back.value <= cfg.precoMax + 0.005
  {
    var c := Cents(cfg.precoMax);
    var v := PriceValue(cfg);
    assert v == MoneyParam(c);
    assert Lookup(QueryParams(cfg), "price_max") == Some(v);
    MoneyRoundTrip(c);
    assert ParseDecimal(v) == Some(c as real / 100.0);
  }

  /** The parts of a `property-component` card the provider reads; `None` is a missing tag. */
  datatype Card = Card(
    address: Option<string>,
    price: Option<string>,
    bedrooms: Option<string>,
    href: Option<string>,
    area: Option<string>)

  /** The card's address as stored in 'Local Real': its text stripped, "" when the tag is missing. */
  function Address(card: Card): (r: string)
    ensures Trimmed(r)
    ensures card.address.None? ==> r == []
  {
    if card.address.Some? then Strip(card.address.value) else ""
  }

  /** The location check: the neighbourhood slug and the city slug both occur in the address slug. */
  predicate InPlace(cfg: Settings, bairro: string, endereco: string) {
    Contains(Slug(endereco), Slug(bairro)) && Contains(Slug(endereco), cfg.cidade)
  }

  /** What one card contributes: a record, or nothing when it is skipped. */
  function Decide(cfg: Settings, bairro: string, card: Card): (r: Option<Imovel>)
    ensures r.Some? <==>
              && InPlace(cfg, bairro, Address(card))
              && NumberOf(card.price).Some? && NumberOf(card.bedrooms).Some?
              && Affordable(cfg.precoMax, cfg.quartosMin, NumberOf(card.price).value, NumberOf(card.bedrooms).value)
    ensures r.Some? ==>
              && r.value.imobiliaria == "Apolar"
              && r.value.bairro == bairro
              && r.value.localReal == Some(Address(card))
              && r.value.tipo == Some(cfg.tipo)
              && r.value.vagas.None?
              && r.value.preco == NumberOf(card.price).value
              && r.value.quartos == Truncate(NumberOf(card.bedrooms).value)
              && r.value.link == card.href.GetOr("")
              && r.value.area == (if card.area.Some? then Strip(card.area.value) else "-")
              && WithinBounds(r.value, cfg.precoMax, cfg.quartosMin)
  {
    var endereco := Address(card);
    if !InPlace(cfg, bairro, endereco) then None
    else
      var preco := NumberOf(card.price);
      var quartos := NumberOf(card.bedrooms);
      if preco.None? || quartos.None? then None
      else if !Affordable(cfg.precoMax, cfg.quartosMin, preco.value, quartos.value) then None
      else
        Some(Imovel("Apolar", bairro, Some(endereco), Some(cfg.tipo), preco.value,
                    Truncate(quartos.value), None,
                    if card.area.Some? then Strip(card.area.value) else "-",
                    card.href.GetOr("")))
  }

  /** A card without an address is never kept when a neighbourhood was asked for. */
  lemma MissingAddressSkipped(cfg: Settings, bairro: string, card: Card)
    requires card.address.None? && Slug(bairro) != []
    ensures Decide(cfg, bairro, card).None?
  {
  }

  /** A card without price or rooms tags counts as free and roomless, and is kept only if no floor is set. */
  lemma MissingNumbersDefault(cfg: Settings, bairro: string, card: Card)
    requires card.price.None? && card.bedrooms.None? && InPlace(cfg, bairro, Address(card))
    ensures Decide(cfg, bairro, card).Some? <==> cfg.quartosMin <= 0
    ensures Decide(cfg, bairro, card).Some? ==>
              Decide(cfg, bairro, card).value.preco == 0.0 && Decide(cfg, bairro, card).value.quartos == 0
  {
  }

  /** The records kept from one page of cards, in card order. */
  function Kept(cfg: Settings, bairro: string, cards: seq<Card>): (r: seq<Imovel>)
    ensures |r| <= |cards|
  {
    if cards == [] then []
    else Kept(cfg, bairro, cards[..|cards| - 1]) + AsSeq(Decide(cfg, bairro, cards[|cards| - 1]))
  }

  /** What every record of the provider satisfies: it names the neighbourhood searched and passed both checks. */
  predicate Sound(cfg: Settings, bairro: string, r: Imovel) {
    && r.imobiliaria == "Apolar"
    && r.bairro == bairro
    && r.localReal.Some? && InPlace(cfg, bairro, r.localReal.value)
    && WithinBounds(r, cfg.precoMax, cfg.quartosMin)
  }

  lemma {:induction false} KeptSound(cfg: Settings, bairro: string, cards: seq<Card>)
    ensures forall k :: 0 <= k < |Kept(cfg, bairro, cards)| ==> Sound(cfg, bairro, Kept(cfg, bairro, cards)[k])
  {
    if cards != [] {
      KeptSound(cfg, bairro, cards[..|cards| - 1]);
    }
  }

  /** The records one neighbourhood's page yields; nothing when the page fails to load. */
  function PageRecords(cfg: Settings, browse: string -> Option<seq<Card>>, bairro: string): seq<Imovel> {
    match browse(SearchUrl(cfg, bairro))
    case None => []
    case Some(cards) => Kept(cfg, bairro, cards)
  }

  /** The records of the given neighbourhoods, in the order they are searched. */
  function ResultsFor(cfg: Settings, browse: string -> Option<seq<Card>>, bairros: seq<string>): seq<Imovel> {
    if bairros == [] then []
    else ResultsFor(cfg, browse, bairros[..|bairros| - 1]) + PageRecords(cfg, browse, bairros[|bairros| - 1])
  }

  lemma PageSound(cfg: Settings, browse: string -> Option<seq<Card>>, bairro: string)
    ensures forall k :: 0 <= k < |PageRecords(cfg, browse, bairro)| ==> Sound(cfg, bairro, PageRecords(cfg, browse, bairro)[k])
  {
    match browse(SearchUrl(cfg, bairro))
    case None =>
    case Some(cards) => KeptSound(cfg, bairro, cards);
  }

  /** Every record `run` returns comes from a requested neighbourhood and passed both checks for it. */
  lemma {:induction false} ResultsSound(cfg: Settings, browse: string -> Option<seq<Card>>, bairros: seq<string>)
    ensures forall k :: 0 <= k < |ResultsFor(cfg, browse, bairros)| ==>
              var r := ResultsFor(cfg, browse, bairros)[k];
              r.bairro in bairros && Sound(cfg, r.bairro, r)
  {
    if bairros != [] {
      var init := bairros[..|bairros| - 1];
      var last := bairros[|bairros| - 1];
      ResultsSound(cfg, browse, init);
      PageSound(cfg, browse, last);
      var head: seq<Imovel> := ResultsFor(cfg, browse, init);
      var tail: seq<Imovel> := PageRecords(cfg, browse, last);
      assert ResultsFor(cfg, browse, bairros) == head + tail;
      forall k | 0 <= k < |head + tail|
        ensures (head + tail)[k].bairro in bairros && Sound(cfg, (head + tail)[k].bairro, (head + tail)[k])
      {
        if k < |head| {
          assert (head + tail)[k] == head[k];
          assert head[k].bairro in init;
        } else {
          assert (head + tail)[k] == tail[k - |head|];
        }
      }
    }
  }

  /** `run`: the records of every requested neighbourhood, in search order. */
  function Results(f: Filtros, browse: string -> Option<seq<Card>>): seq<Imovel> {
    var cfg := SettingsOf(f);
    ResultsFor(cfg, browse, cfg.bairros)
  }

  lemma KeptStep(cfg: Settings, bairro: string, cards: seq<Card>, j: nat)
    requires j < |cards|
    ensures Kept(cfg, bairro, cards[..j + 1]) == Kept(cfg, bairro, cards[..j]) + AsSeq(Decide(cfg, bairro, cards[j]))
  {
    assert cards[..j + 1][..j] == cards[..j];
  }

  /** The inner loop of `run`: the cards of one page, in order. */
  method ScanPage(cfg: Settings, bairro: string, cards: seq<Card>) returns (kept: seq<Imovel>)
    ensures kept == Kept(cfg, bairro, cards)
  {
    kept := [];
    var j := 0;
    while j < |cards|
      invariant 0 <= j <= |cards|
      invariant kept == Kept(cfg, bairro, cards[..j])
    {
      KeptStep(cfg, bairro, cards, j);
      var r := Decide(cfg, bairro, cards[j]);
      if r.Some? {
        kept := kept + [r.value];
      }
      j := j + 1;
    }
    assert cards[..|cards|] == cards;
  }

  lemma ResultsStep(cfg: Settings, browse: string -> Option<seq<Card>>, bairros: seq<string>, i: nat)
    requires i < |bairros|
    ensures ResultsFor(cfg, browse, bairros[..i + 1])
            == ResultsFor(cfg, browse, bairros[..i]) + PageRecords(cfg, browse, bairros[i])
  {
    assert bairros[..i + 1][..i] == bairros[..i];
  }

  /**
   * `ApolarProvider.run`, with the browser as `browse`: the cards of the
   * page a request opens, or `None` when the page or its cards fail to load.
   */
  method Run(f: Filtros, browse: string -> Option<seq<Card>>) returns (resultados: seq<Imovel>)
    ensures resultados == Results(f, browse)
  {
    var cfg := SettingsOf(f);
    resultados := [];
    var i := 0;
    while i < |cfg.bairros|
      invariant 0 <= i <= |cfg.bairros|
      invariant resultados == ResultsFor(cfg, browse, cfg.bairros[..i])
    {
      var bairro := cfg.bairros[i];
      ResultsStep(cfg, browse, cfg.bairros, i);
      var page := browse(SearchUrl(cfg, bairro));
      if page.Some? {
        var kept := ScanPage(cfg, bairro, page.value);
        resultados := resultados + kept;
      }
      i := i + 1;
    }
    assert cfg.bairros[..|cfg.bairros|] == cfg.bairros;
  }
}
