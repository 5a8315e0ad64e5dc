/**
 * The two shapes every provider shares: the filter dictionary `filtros`
 * that `main.py` passes to each provider's `run`, and the record dictionary
 * each provider appends to its `resultados`.
 */
module Listing {
  import opened Wrappers
  import opened Text
  import opened Normalize

  /**
   * The keys a provider reads from `filtros`; a missing key is `None` and
   * each provider substitutes its own default.
   */
  datatype Filtros = Filtros(
    cidade: Option<string>,
    tipo: Option<string>,
    bairros: Option<seq<string>>,
    quartosMin: Option<int>,
    precoMax: Option<real>,
    areaMin: Option<real>,
    condominioIncluso: Option<bool>)

  /**
   * One scraped listing. `localReal` is only written by Apolar, `tipo` by
   * Galvão and Apolar, `vagas` by Galvão; the other providers leave the
   * key out (`None`).
   */
  datatype Imovel = Imovel(
    imobiliaria: string,
    bairro: string,
    localReal: Option<string>,
    tipo: Option<string>,
    preco: real,
    quartos: int,
    vagas: Option<int>,
    area: string,
    link: string)

  /**
   * The re-check Galvão and Apolar apply before appending a record: a
   * positive price ceiling is not exceeded and a positive room floor is met.
   */
  predicate WithinBounds(r: Imovel, precoMax: real, quartosMin: int) {
    && !(precoMax > 0.0 && r.preco > precoMax)
    && !(quartosMin > 0 && r.quartos < quartosMin)
  }

  /** The record a skipped card contributes nothing, a kept one itself. */
  function AsSeq(r: Option<Imovel>): (s: seq<Imovel>)
    ensures |s| <= 1
    ensures r.None? ==> s == []
    ensures r.Some? ==> s == [r.value]
  {
    match r
    case None => []
    case Some(x) => [x]
  }

  /** `limpar_numero` of a tag's text, 0 for a missing tag; `None` is the exception that skips the card. */
  function NumberOf(tag: Option<string>): (r: Option<real>)
    ensures tag.None? ==> r == Some(0.0)
    ensures r.Some? ==> r.value >= 0.0
  {
    if tag.Some? then ParseDecimal(tag.value) else Some(0.0)
  }

  /** The re-check on the parsed numbers, before the room count is truncated to an integer. */
  predicate Affordable(precoMax: real, quartosMin: int, preco: real, quartos: real) {
    !(precoMax > 0.0 && preco > precoMax) && !(quartosMin > 0 && quartos < quartosMin as real)
  }

  /** Truncating the room count keeps it above an integer floor, so a record built from passing numbers is within bounds. */
  lemma AffordableWithinBounds(precoMax: real, quartosMin: int, preco: real, quartos: real, r: Imovel)
    requires Affordable(precoMax, quartosMin, preco, quartos) && quartos >= 0.0
    requires r.preco == preco && r.quartos == Truncate(quartos)
    ensures WithinBounds(r, precoMax, quartosMin)
  {
  }
}
