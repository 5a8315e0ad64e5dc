/**
 * crowler.py: the standalone Apolar scraper. It walks a fixed list of
 * Curitiba neighbourhoods, opens one Apolar search page per neighbourhood
 * and turns every property card on it into a record of three texts
 * (neighbourhood, price, link), without any filtering.
 *
 * The browser and the HTML parser are abstracted: `browse` maps a page URL
 * to the cards found on it, or to `None` when the page did not load or no
 * card appeared before the selector timeout.
 */
module Crowler {
  import opened Wrappers
  import opened Text
  import opened Normalize

  /** `bairros_alvo`: the neighbourhoods searched, in search order. */
  const BairrosAlvo: seq<string> := [
    "ahu", "alto da gloria", "alto da rua xv", "agua verde", "batel",
    "bigorrilho", "bom retiro", "cabral", "centro", "champagnat",
    "cristo rei", "hugo lange", "jardim social", "juveve",
    "merces", "mossungue", "portao", "boa vista"
  ]

  const BaseUrl: string := "https://www.apolar.com.br/alugar/apartamento/curitiba/"

  /** The link recorded for a card without an anchor. */
  const SemLink: string := "S/ Link"

  /** The search page of one neighbourhood. */
  function PageUrl(bairro: string): (r: string)
    ensures StartsWith(r, BaseUrl) && IsSlugShaped(r[|BaseUrl|..])
  {
    BaseUrl + BairroSlug(bairro)
  }

  /** A property card: the texts of its anchor, price tag and address tag, each possibly missing. */
  datatype Card = Card(link: Option<string>, price: Option<string>, address: Option<string>)

  /** One row of `lista_imoveis`: the 'Bairro', 'Preco' and 'Link' columns. */
  datatype Registro = Registro(bairro: string, preco: string, link: string)

  /** The 'Preco' column: the cleaned price text without "R$", stripped; "0" without a price tag. */
  function PriceField(price: Option<string>): (r: string)
    ensures price.None? ==> r == "0"
    ensures price == Some([]) ==> r == "N/A"
    ensures price.Some? ==> Trimmed(r) && '\n' !in r
  {
    match price
    case None => "0"
    case Some(t) =>
      var c := CleanText(t);
      DeletePatternChars(c, "R$");
      assert t == [] ==> Strip(ReplaceAll(c, "R$", "")) == "N/A" by {
        if t == [] {
          ReplaceAbsent(c, "R$", "");
          StripTrimmed(c);
        }
      }
      Strip(ReplaceAll(c, "R$", ""))
  }

  /** Text without newlines or surrounding whitespace is its own `limpar_texto`. */
  lemma CleanTextOfTrimmed(t: string)
    requires t != [] && Trimmed(t) && '\n' !in t
    ensures CleanText(t) == t
  {
    ReplaceAbsent(t, "\n", "");
    StripTrimmed(t);
  }

  /** Deleting "R$" from "R$ " and an amount without 'R' leaves " " and the amount. */
  lemma DeleteCurrency(amount: string)
    requires 'R' !in amount
    ensures ReplaceAll("R$ " + amount, "R$", "") == " " + amount
  {
    var t := "R$ " + amount;
    assert t[..2] == "R$" && t[2..] == " " + amount;
    ReplaceAbsent(" " + amount, "R$", "") by {
      assert 'R' !in " " + amount by {
        forall i | 0 <= i < |" " + amount| ensures (" " + amount)[i] != 'R' {
          if i >= 1 { assert (" " + amount)[i] == amount[i - 1]; }
        }
      }
    }
  }

  /** A price tag reading "R$ " and a plain amount gives exactly that amount. */
  lemma PriceFieldOfAmount(amount: string)
    requires amount != [] && Trimmed(amount)
    requires '\n' !in amount && 'R' !in amount
    ensures PriceField(Some("R$ " + amount)) == amount
  {
    var t := "R$ " + amount;
    assert '\n' !in t by {
      forall i | 0 <= i < |t| ensures t[i] != '\n' {
        if i >= 3 { assert t[i] == amount[i - 3]; }
      }
    }
    assert Trimmed(t);
    CleanTextOfTrimmed(t);
    DeleteCurrency(amount);
    StripAfterSpace(amount);
  }

  /** The placeholder `limpar_texto` returns for empty text is itself clean text. */
  lemma NotApplicableClean()
    ensures '\n' !in "N/A" && Trimmed("N/A")
  {
  }

  /** The record of one card found while searching `bairro`. */
  function Record(bairro: string, card: Card): (r: Registro)
    ensures card.link.None? ==> r.link == SemLink
    ensures card.link.Some? ==> r.link == card.link.value
    ensures card.address.None? ==> r.bairro == bairro
    ensures card.address.Some? ==> '\n' !in r.bairro && Trimmed(r.bairro)
    ensures card.price.None? ==> r.preco == "0"
    ensures card.price.Some? ==> '\n' !in r.preco && Trimmed(r.preco)
  {
    NotApplicableClean();
    Registro(
      if card.address.Some? then CleanText(card.address.value) else bairro,
      PriceField(card.price),
      if card.link.Some? then card.link.value else SemLink)
  }

  /** A function applied to every card, in card order. */
  function MapCards(f: Card -> Registro, cards: seq<Card>): (r: seq<Registro>)
    ensures |r| == |cards|
  {
    if cards == [] then []
    else MapCards(f, cards[..|cards| - 1]) + [f(cards[|cards| - 1])]
  }

  lemma {:induction false} MapCardsAt(f: Card -> Registro, cards: seq<Card>)
    ensures forall k :: 0 <= k < |cards| ==> MapCards(f, cards)[k] == f(cards[k])
  {
    if cards != [] {
      MapCardsAt(f, cards[..|cards| - 1]);
    }
  }

  lemma MapCardsStep(f: Card -> Registro, cards: seq<Card>, j: nat)
    requires j < |cards|
    ensures MapCards(f, cards[..j + 1]) == MapCards(f, cards[..j]) + [f(cards[j])]
  {
    assert cards[..j + 1][..j] == cards[..j];
  }

  /** The records of a page's cards, one per card and in card order. */
  function Records(bairro: string, cards: seq<Card>): seq<Registro> {
    MapCards(c => Record(bairro, c), cards)
  }

  /** The records of one search page; none when the page failed. */
  function PageRecords(browse: string -> Option<seq<Card>>, bairro: string): seq<Registro> {
    match browse(PageUrl(bairro))
    case None => []
    case Some(cards) => Records(bairro, cards)
  }

  /** The records of the given neighbourhoods, in search order. */
  function ResultsFor(browse: string -> Option<seq<Card>>, bairros: seq<string>): seq<Registro> {
    if bairros == [] then []
    else ResultsFor(browse, bairros[..|bairros| - 1]) + PageRecords(browse, bairros[|bairros| - 1])
  }

  /** The number of cards a neighbourhood's page shows; 0 when it failed. */
  function CardCount(browse: string -> Option<seq<Card>>, bairro: string): nat {
    match browse(PageUrl(bairro))
    case None => 0
    case Some(cards) => |cards|
  }

  function TotalCards(browse: string -> Option<seq<Card>>, bairros: seq<string>): nat {
    if bairros == [] then 0
    else TotalCards(browse, bairros[..|bairros| - 1]) + CardCount(browse, bairros[|bairros| - 1])
  }

  /** No filtering: every card of every loaded page yields exactly one record. */
  lemma {:induction false} ResultsCount(browse: string -> Option<seq<Card>>, bairros: seq<string>)
    ensures |ResultsFor(browse, bairros)| == TotalCards(browse, bairros)
  {
    if bairros != [] {
      ResultsCount(browse, bairros[..|bairros| - 1]);
    }
  }

  /** The shape of every record: a requested or cleaned neighbourhood, a cleaned price, a link or the placeholder. */
  predicate WellFormed(bairros: seq<string>, r: Registro) {
    && (r.bairro in bairros || ('\n' !in r.bairro && Trimmed(r.bairro)))
    && '\n' !in r.preco && Trimmed(r.preco)
  }

  lemma PageWellFormed(browse: string -> Option<seq<Card>>, bairros: seq<string>, bairro: string)
    requires bairro in bairros
    ensures forall k :: 0 <= k < |PageRecords(browse, bairro)| ==> WellFormed(bairros, PageRecords(browse, bairro)[k])
  {
    match browse(PageUrl(bairro))
    case None =>
    case Some(cards) =>
      MapCardsAt(c => Record(bairro, c), cards);
      forall k | 0 <= k < |cards| ensures WellFormed(bairros, Record(bairro, cards[k])) {
        var c := cards[k];
        if c.price.None? {
          assert Trimmed("0");
        }
      }
  }

  lemma {:induction false} ResultsWellFormed(browse: string -> Option<seq<Card>>, bairros: seq<string>)
    ensures forall k :: 0 <= k < |ResultsFor(browse, bairros)| ==> WellFormed(bairros, ResultsFor(browse, bairros)[k])
  {
    if bairros != [] {
      var init := bairros[..|bairros| - 1];
      var last := bairros[|bairros| - 1];
      ResultsWellFormed(browse, init);
      PageWellFormed(browse, bairros, last);
      var head: seq<Registro> := ResultsFor(browse, init);
      var tail: seq<Registro> := PageRecords(browse, last);
      forall k | 0 <= k < |head + tail| ensures WellFormed(bairros, (head + tail)[k]) {
        if k < |head| {
          assert (head + tail)[k] == head[k];
          var r := head[k];
          assert WellFormed(init, r);
          assert r.bairro in init ==> r.bairro in bairros;
        } else {
          assert (head + tail)[k] == tail[k - |head|];
        }
      }
    }
  }

  /** A target name: non-empty lower-case ASCII words separated by single spaces. */
  predicate PlainName(b: string) {
    && b != [] && b[0] != ' ' && b[|b| - 1] != ' '
    && forall i :: 0 <= i < |b| ==> ('a' <= b[i] <= 'z' || b[i] == ' ')
  }

  lemma PlainSlug(b: string)
    requires PlainName(b)
    ensures BairroSlug(b) == ReplaceAll(b, " ", "-")
  {
    assert IsAscii(b) by {
      forall c | c in b ensures c < '\U{80}' { }
    }
    LowerNoUpper(b);
    StripTrimmed(b);
  }

  /** Replacing spaces by '-' keeps distinct hyphen-free names distinct. */
  lemma HyphenateInjective(a: string, b: string)
    requires a != b && '-' !in a && '-' !in b
    ensures ReplaceAll(a, " ", "-") != ReplaceAll(b, " ", "-")
  {
    ReplaceCharAt(a, ' ', '-');
    ReplaceCharAt(b, ' ', '-');
    if |a| == |b| {
      var i :| 0 <= i < |a| && a[i] != b[i];
      assert a[i] in a && b[i] in b;
    }
  }

  /** Distinct target-style names get distinct slugs. */
  lemma SlugInjective(a: string, b: string)
    requires PlainName(a) && PlainName(b) && a != b
    ensures BairroSlug(a) != BairroSlug(b)
  {
    PlainSlug(a);
    PlainSlug(b);
    HyphenateInjective(a, b);
  }

  /** Distinct target-style names get distinct search pages. */
  lemma PageUrlInjective(a: string, b: string)
    requires PlainName(a) && PlainName(b) && a != b
    ensures PageUrl(a) != PageUrl(b)
  {
    SlugInjective(a, b);
    var sa, sb := BairroSlug(a), BairroSlug(b);
    assert (BaseUrl + sa)[|BaseUrl|..] == sa;
    assert (BaseUrl + sb)[|BaseUrl|..] == sb;
  }

  /** Every target name is in the plain form the slug keeps. */
  lemma TargetsPlain()
    ensures forall i :: 0 <= i < |BairrosAlvo| ==> PlainName(BairrosAlvo[i])
  {
    forall i | 0 <= i < |BairrosAlvo| ensures PlainName(BairrosAlvo[i]) {
      var b := BairrosAlvo[i];
      assert b[0] != ' ' && b[|b| - 1] != ' ';
      forall k | 0 <= k < |b| ensures 'a' <= b[k] <= 'z' || b[k] == ' ' { }
    }
  }

  /** The target list names each neighbourhood once. */
  lemma TargetsDistinct()
    ensures forall i, j :: 0 <= i < j < |BairrosAlvo| ==> BairrosAlvo[i] != BairrosAlvo[j]
  {
  }

  /** Every target neighbourhood gets a search page of its own. */
  lemma TargetPagesDistinct()
    ensures forall i, j :: 0 <= i < j < |BairrosAlvo| ==> PageUrl(BairrosAlvo[i]) != PageUrl(BairrosAlvo[j])
  {
    TargetsPlain();
    TargetsDistinct();
    forall i, j | 0 <= i < j < |BairrosAlvo|
      ensures PageUrl(BairrosAlvo[i]) != PageUrl(BairrosAlvo[j])
    {
      PageUrlInjective(BairrosAlvo[i], BairrosAlvo[j]);
    }
  }

  lemma ResultsStep(browse: string -> Option<seq<Card>>, bairros: seq<string>, i: nat)
    requires i < |bairros|
    ensures ResultsFor(browse, bairros[..i + 1]) == ResultsFor(browse, bairros[..i]) + PageRecords(browse, bairros[i])
  {
    assert bairros[..i + 1][..i] == bairros[..i];
  }

  /** The inner loop of `raspar_com_navegador`: a record per card. */
  method ScanPage(bairro: string, cards: seq<Card>) returns (recs: seq<Registro>)
    ensures recs == Records(bairro, cards)
  {
    recs := [];
    var j := 0;
    while j < |cards|
      invariant 0 <= j <= |cards|
      invariant recs == Records(bairro, cards[..j])
    {
      MapCardsStep(c => Record(bairro, c), cards, j);
      recs := recs + [Record(bairro, cards[j])];
      j := j + 1;
    }
    assert cards[..|cards|] == cards;
  }

  /** The neighbourhood loop of `raspar_com_navegador`. */
  method ScrapeAll(browse: string -> Option<seq<Card>>, bairros: seq<string>) returns (lista: seq<Registro>)
    ensures lista == ResultsFor(browse, bairros)
  {
    lista := [];
    var i := 0;
    while i < |bairros|
      invariant 0 <= i <= |bairros|
      invariant lista == ResultsFor(browse, bairros[..i])
    {
      var bairro := bairros[i];
      ResultsStep(browse, bairros, i);
      var page := browse(PageUrl(bairro));
      if page.Some? {
        var recs := ScanPage(bairro, page.value);
        lista := lista + recs;
      }
      i := i + 1;
    }
    assert bairros[..|bairros|] == bairros;
  }

  /** `raspar_com_navegador`: the records of every target neighbourhood, in search order. */
  method Scrape(browse: string -> Option<seq<Card>>) returns (lista: seq<Registro>)
    ensures lista == ResultsFor(browse, BairrosAlvo)
  {
    lista := ScrapeAll(browse, BairrosAlvo);
  }
}
