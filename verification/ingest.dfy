/**
 * main.py: the entry point that runs the enabled providers with the fixed
 * filter `MEUS_FILTROS`, concatenates their records and stores the new ones
 * in the DynamoDB table, one conditional `put_item` per record.
 *
 * The table is a map from partition key to item. Its sort key
 * `data_scraped` is the same constant for every item, so the full key is
 * determined by the partition key `id_imovel`, which is the record's Link.
 * Failures other than the conditional check are a parameter: the set of
 * batch positions whose item construction or `put_item` raises.
 */
module Ingest {
  import opened Wrappers
  import opened Listing

  /** `MEUS_FILTROS`: Curitiba apartments in sixteen neighbourhoods, at most R$ 2500, 60 m², 2 rooms. */
  const MeusFiltros: Filtros := Filtros(
    Some("curitiba"),
    Some("apartamento"),
    Some([
      "ahu", "alto da gloria", "alto da rua xv", "agua verde", "batel",
      "bigorrilho", "bom retiro", "cabral", "centro", "champagnat",
      "hugo lange", "jardim social", "juveve", "merces", "mossungue",
      "portao"]),
    Some(2),
    Some(2500.0),
    Some(60.0),
    Some(true))

  /** The sort key every item gets. */
  const DataScraped: string := "2026-02-11"

  /** A DynamoDB item; `updatedAt` is the insertion time in seconds. */
  datatype Item = Item(
    idImovel: string,
    dataScraped: string,
    imobiliaria: string,
    bairro: string,
    preco: real,
    area: string,
    quartos: int,
    link: string,
    updatedAt: int)

  /** The item built from a record at time `now`: keyed by its Link, every other column copied. */
  function ToItem(r: Imovel, now: int): (it: Item)
    ensures it.idImovel == r.link && it.link == r.link
    ensures it.dataScraped == DataScraped && it.updatedAt == now
    ensures it.imobiliaria == r.imobiliaria && it.bairro == r.bairro
    ensures it.preco == r.preco && it.area == r.area && it.quartos == r.quartos
  {
    Item(r.link, DataScraped, r.imobiliaria, r.bairro, r.preco, r.area, r.quartos, r.link, now)
  }

  /** The record at position `i` is inserted: it does not fail and its key is still absent. */
  predicate Inserts(store: map<string, Item>, imoveis: seq<Imovel>, faults: set<nat>, i: nat)
    requires i < |imoveis|
  {
    i !in faults && imoveis[i].link !in store
  }

  /** The table after `salvar_no_dynamo` has processed the batch. */
  function Stored(store: map<string, Item>, imoveis: seq<Imovel>, faults: set<nat>, now: int): map<string, Item>
    decreases |imoveis|
  {
    if imoveis == [] then store
    else
      var n := |imoveis| - 1;
      var s := Stored(store, imoveis[..n], faults, now);
      if Inserts(s, imoveis, faults, n) then s[imoveis[n].link := ToItem(imoveis[n], now)] else s
  }

  /** The final value of `novos_inseridos`. */
  function Inserted(store: map<string, Item>, imoveis: seq<Imovel>, faults: set<nat>, now: int): nat
    decreases |imoveis|
  {
    if imoveis == [] then 0
    else
      var n := |imoveis| - 1;
      var s := Stored(store, imoveis[..n], faults, now);
      Inserted(store, imoveis[..n], faults, now) + if Inserts(s, imoveis, faults, n) then 1 else 0
  }

  /** An entry already in the table is never overwritten or removed. */
  lemma {:induction false} StoredKeepsExisting(store: map<string, Item>, imoveis: seq<Imovel>, faults: set<nat>, now: int)
    ensures forall k :: k in store ==> k in Stored(store, imoveis, faults, now) && Stored(store, imoveis, faults, now)[k] == store[k]
  {
    if imoveis != [] {
      StoredKeepsExisting(store, imoveis[..|imoveis| - 1], faults, now);
    }
  }

  /** The counter is exactly the number of entries the table gains. */
  lemma {:induction false} InsertedIsGrowth(store: map<string, Item>, imoveis: seq<Imovel>, faults: set<nat>, now: int)
    ensures |Stored(store, imoveis, faults, now)| == |store| + Inserted(store, imoveis, faults, now)
  {
    if imoveis != [] {
      InsertedIsGrowth(store, imoveis[..|imoveis| - 1], faults, now);
    }
  }

  /** The Links of the records at positions that do not fail. */
  function Links(imoveis: seq<Imovel>, faults: set<nat>): set<string> {
    set i | 0 <= i < |imoveis| && i !in faults :: imoveis[i].link
  }

  lemma LinksStep(imoveis: seq<Imovel>, faults: set<nat>)
    requires imoveis != []
    ensures var n := |imoveis| - 1;
            Links(imoveis, faults) == Links(imoveis[..n], faults) + (if n in faults then {} else {imoveis[n].link})
  {
    var n := |imoveis| - 1;
    var p := imoveis[..n];
    forall k | k in Links(imoveis, faults) ensures k in Links(p, faults) + (if n in faults then {} else {imoveis[n].link}) {
      var i :| 0 <= i < |imoveis| && i !in faults && imoveis[i].link == k;
      if i < n {
        assert p[i] == imoveis[i];
      }
    }
    forall k | k in Links(p, faults) ensures k in Links(imoveis, faults) {
      var i :| 0 <= i < |p| && i !in faults && p[i].link == k;
      assert imoveis[i] == p[i];
    }
  }

  /** The table holds what it held before plus the Link of every record that did not fail. */
  lemma {:induction false} StoredKeys(store: map<string, Item>, imoveis: seq<Imovel>, faults: set<nat>, now: int)
    ensures Stored(store, imoveis, faults, now).Keys == store.Keys + Links(imoveis, faults)
  {
    if imoveis != [] {
      StoredKeys(store, imoveis[..|imoveis| - 1], faults, now);
      LinksStep(imoveis, faults);
    }
  }

  /**
   * Without failures, the counter equals the number of distinct Links of
   * the batch that were not yet in the table.
   */
  lemma CountsNewLinks(store: map<string, Item>, imoveis: seq<Imovel>, now: int)
    ensures Inserted(store, imoveis, {}, now) == |Links(imoveis, {}) - store.Keys|
  {
    var l := Links(imoveis, {});
    StoredKeys(store, imoveis, {}, now);
    InsertedIsGrowth(store, imoveis, {}, now);
    assert store.Keys + l == store.Keys + (l - store.Keys);
    assert store.Keys * (l - store.Keys) == {};
  }

  /** A batch whose every Link is already stored changes nothing and counts nothing. */
  lemma {:induction false} AllPresentNoop(store: map<string, Item>, imoveis: seq<Imovel>, faults: set<nat>, now: int)
    requires forall i :: 0 <= i < |imoveis| ==> imoveis[i].link in store
    ensures Stored(store, imoveis, faults, now) == store
    ensures Inserted(store, imoveis, faults, now) == 0
  {
    if imoveis != [] {
      AllPresentNoop(store, imoveis[..|imoveis| - 1], faults, now);
    }
  }

  /** Saving a batch again after a run without failures inserts nothing. */
  lemma SecondRunInsertsNothing(store: map<string, Item>, imoveis: seq<Imovel>, faults: set<nat>, now: int, later: int)
    ensures var first := Stored(store, imoveis, {}, now);
            Stored(first, imoveis, faults, later) == first && Inserted(first, imoveis, faults, later) == 0
  {
    var first := Stored(store, imoveis, {}, now);
    StoredKeys(store, imoveis, {}, now);
    forall i | 0 <= i < |imoveis| ensures imoveis[i].link in first {
      assert imoveis[i].link in Links(imoveis, {});
    }
    AllPresentNoop(first, imoveis, faults, later);
  }

  /**
   * The first record of a Link that does not fail is the one stored under
   * that Link, unless the Link was already in the table.
   */
  lemma {:induction false} FirstOccurrenceStored(store: map<string, Item>, imoveis: seq<Imovel>, faults: set<nat>, now: int, i: nat)
    requires i < |imoveis| && i !in faults && imoveis[i].link !in store
    requires forall j :: 0 <= j < i && j !in faults ==> imoveis[j].link != imoveis[i].link
    ensures imoveis[i].link in Stored(store, imoveis, faults, now)
    ensures Stored(store, imoveis, faults, now)[imoveis[i].link] == ToItem(imoveis[i], now)
  {
    var n := |imoveis| - 1;
    var p := imoveis[..n];
    var k := imoveis[i].link;
    if i == n {
      StoredKeys(store, p, faults, now);
      assert k !in Links(p, faults) by {
        forall j | 0 <= j < |p| && j !in faults ensures p[j].link != k {
          assert p[j] == imoveis[j];
        }
      }
    } else {
      assert p[i] == imoveis[i];
      forall j | 0 <= j < i && j !in faults ensures p[j].link != p[i].link {
        assert p[j] == imoveis[j];
      }
      FirstOccurrenceStored(store, p, faults, now, i);
    }
  }

  /** The table `salvar_no_dynamo` writes to. */
  class Table {
    var items: map<string, Item>

    constructor (initial: map<string, Item>)
      ensures items == initial
    {
      items := initial;
    }

    /** `put_item` with `attribute_not_exists(id_imovel)`: writes only under an absent key. */
    method PutIfAbsent(item: Item) returns (inserted: bool)
      modifies this
      ensures inserted == (item.idImovel !in old(items))
      ensures items == if inserted then old(items)[item.idImovel := item] else old(items)
    {
      inserted := item.idImovel !in items;
      if inserted {
        items := items[item.idImovel := item];
      }
    }
  }

  lemma SaveStep(store: map<string, Item>, imoveis: seq<Imovel>, faults: set<nat>, now: int, i: nat)
    requires i < |imoveis|
    ensures var s := Stored(store, imoveis[..i], faults, now);
            && Stored(store, imoveis[..i + 1], faults, now)
               == (if Inserts(s, imoveis, faults, i) then s[imoveis[i].link := ToItem(imoveis[i], now)] else s)
            && Inserted(store, imoveis[..i + 1], faults, now)
               == Inserted(store, imoveis[..i], faults, now) + if Inserts(s, imoveis, faults, i) then 1 else 0
  {
    assert imoveis[..i + 1][..i] == imoveis[..i];
  }

  /**
   * `salvar_no_dynamo`: one conditional insert per record; an existing key
   * is skipped silently, a failing record is skipped, and only successful
   * inserts are counted.
   */
  method SalvarNoDynamo(table: Table, imoveis: seq<Imovel>, faults: set<nat>, now: int) returns (novos: nat)
    modifies table
    ensures table.items == Stored(old(table.items), imoveis, faults, now)
    ensures novos == Inserted(old(table.items), imoveis, faults, now)
  {
    novos := 0;
    var i := 0;
    while i < |imoveis|
      invariant 0 <= i <= |imoveis|
      invariant table.items == Stored(old(table.items), imoveis[..i], faults, now)
      invariant novos == Inserted(old(table.items), imoveis[..i], faults, now)
    {
      SaveStep(old(table.items), imoveis, faults, now, i);
      if i !in faults {
        var inserted := table.PutIfAbsent(ToItem(imoveis[i], now));
        if inserted {
          novos := novos + 1;
        }
      }
      i := i + 1;
    }
    assert imoveis[..|imoveis|] == imoveis;
  }

  /** The records of the providers that did not raise, in provider order. */
  function Collected(outcomes: seq<Option<seq<Imovel>>>): seq<Imovel> {
    if outcomes == [] then []
    else Collected(outcomes[..|outcomes| - 1]) + outcomes[|outcomes| - 1].GetOr([])
  }

  /** Collecting distributes over consecutive groups of providers. */
  lemma {:induction false} CollectedAppend(a: seq<Option<seq<Imovel>>>, b: seq<Option<seq<Imovel>>>)
    ensures Collected(a + b) == Collected(a) + Collected(b)
  {
    if b == [] {
      assert a + b == a;
    } else {
      var n := |b| - 1;
      assert (a + b)[..|a + b| - 1] == a + b[..n];
      assert (a + b)[|a + b| - 1] == b[n];
      CollectedAppend(a, b[..n]);
      assert Collected(a + b) == Collected(a + b[..n]) + b[n].GetOr([]);
      assert Collected(b) == Collected(b[..n]) + b[n].GetOr([]);
    }
  }

  /** A failing provider does not stop the others and contributes nothing. */
  lemma FailureContributesNothing(a: seq<Option<seq<Imovel>>>, b: seq<Option<seq<Imovel>>>)
    ensures Collected(a + [None] + b) == Collected(a) + Collected(b)
  {
    var failed: seq<Option<seq<Imovel>>> := [None];
    var c := a + failed;
    assert a + [None] + b == c + b;
    CollectedAppend(c, b);
    CollectedAppend(a, failed);
    assert Collected(failed) == [] by {
      assert failed[..0] == [];
    }
  }

  /** The provider loop of `main`: extends the list with each provider's records, ignoring one that raises. */
  method Collect(outcomes: seq<Option<seq<Imovel>>>) returns (todos: seq<Imovel>)
    ensures todos == Collected(outcomes)
  {
    todos := [];
    var i := 0;
    while i < |outcomes|
      invariant 0 <= i <= |outcomes|
      invariant todos == Collected(outcomes[..i])
    {
      assert outcomes[..i + 1][..i] == outcomes[..i];
      if outcomes[i].Some? {
        todos := todos + outcomes[i].value;
      }
      i := i + 1;
    }
    assert outcomes[..|outcomes|] == outcomes;
  }

  /**
   * `main`: `outcomes` holds what each enabled provider's `run` returned
   * for `MeusFiltros` (`None` when it raised). The table is written only
   * when some record was found; the result is the total announced.
   */
  method RunAndSave(table: Table, outcomes: seq<Option<seq<Imovel>>>, faults: set<nat>, now: int) returns (total: nat)
    modifies table
    ensures total == |Collected(outcomes)|
    ensures Collected(outcomes) == [] ==> table.items == old(table.items)
    ensures Collected(outcomes) != [] ==> table.items == Stored(old(table.items), Collected(outcomes), faults, now)
  {
    var todos := Collect(outcomes);
    total := |todos|;
    if todos != [] {
      var novos := SalvarNoDynamo(table, todos, faults, now);
    }
  }
}
