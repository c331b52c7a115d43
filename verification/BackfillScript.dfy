/** The backfill script, run inside one transaction on the shop's tables. */
module BackfillScript {
  import opened Prelude
  import opened Backfill

  /** One UPDATE statement: sets the variant of a product's rows that have none. */
  method UpdateRows(rows: seq<Row>, product: int, id: int) returns (r: seq<Row>, count: nat)
    ensures r == LinkRows(rows, map[product := id])
    ensures count == CountEligible(rows, map[product := id])
  {
    r, count := [], 0;
    for i := 0 to |rows|
      invariant r == LinkRows(rows[..i], map[product := id])
      invariant count == CountEligible(rows[..i], map[product := id])
    {
      assert rows[..i + 1][..i] == rows[..i];
      var row := rows[i];
      if row.product == product && row.variant.None? {
        row := row.(variant := Some(id));
        count := count + 1;
      }
      r := r + [row];
    }
    assert rows[..|rows|] == rows;
  }

  lemma {:induction false} NothingDone(tables: seq<seq<Row>>)
    requires |tables| == TABLES
    ensures LinkTables(tables, map[]) == tables
    ensures CountTables(tables, map[]) == seq(TABLES, _ => 0)
  {
    forall t | 0 <= t < TABLES
      ensures LinkRows(tables[t], map[]) == tables[t] && CountEligible(tables[t], map[]) == 0
    {
      NoLinksNoChange(tables[t]);
    }
  }

  lemma {:induction false} TablesCompose(tables: seq<seq<Row>>, links: Links, product: int, id: int)
    requires |tables| == TABLES && product !in links
    ensures LinkTables(LinkTables(tables, links), map[product := id]) == LinkTables(tables, links[product := id])
    ensures Sum(CountTables(tables, links), CountTables(LinkTables(tables, links), map[product := id]))
            == CountTables(tables, links[product := id])
  {
    forall t | 0 <= t < TABLES
      ensures LinkRows(LinkRows(tables[t], links), map[product := id]) == LinkRows(tables[t], links[product := id])
      ensures CountEligible(tables[t], links[product := id])
              == CountEligible(tables[t], links) + CountEligible(LinkRows(tables[t], links), map[product := id])
    {
      LinkRowsCompose(tables[t], links, product, id);
    }
  }

  lemma {:induction false} ClashIsFinal(tables: seq<seq<Row>>, some: Links, all: Links)
    requires |tables| == TABLES && Extends(some, all) && !TablesOk(LinkTables(tables, some))
    ensures !TablesOk(LinkTables(tables, all))
  {
    var t :| 0 <= t < TABLES && Keyed(t) && !RowsUnique(LinkTables(tables, some)[t]);
    ClashPersists(tables[t], some, all);
    assert LinkTables(tables, all)[t] == LinkRows(tables[t], all);
  }

  /** What updating for the next product makes of the links so far. */
  lemma {:induction false} LinkStep(tables: seq<seq<Row>>, ps: seq<Product>, existing: Links, nextId: int, k: nat)
    requires ProductsOk(ps) && |tables| == TABLES && k < |ps|
    ensures ps[k].id in LinksFor(ps, existing, nextId)
    ensures LinkTables(LinkTables(tables, LinksFor(ps[..k], existing, nextId)),
                       map[ps[k].id := LinksFor(ps, existing, nextId)[ps[k].id]])
            == LinkTables(tables, LinksFor(ps[..k + 1], existing, nextId))
    ensures Sum(CountTables(tables, LinksFor(ps[..k], existing, nextId)),
                CountTables(LinkTables(tables, LinksFor(ps[..k], existing, nextId)),
                            map[ps[k].id := LinksFor(ps, existing, nextId)[ps[k].id]]))
            == CountTables(tables, LinksFor(ps[..k + 1], existing, nextId))
    ensures TablesOk(LinkTables(tables, LinksFor(ps, existing, nextId))) ==>
              TablesOk(LinkTables(tables, LinksFor(ps[..k + 1], existing, nextId)))
  {
    var done, next := LinksFor(ps[..k], existing, nextId), LinksFor(ps[..k + 1], existing, nextId);
    var all := LinksFor(ps, existing, nextId);
    AllLinksExtend(ps, existing, nextId, k, done);
    TablesCompose(tables, done, ps[k].id, all[ps[k].id]);
    LinksGrow(ps, existing, nextId, k + 1);
    if !TablesOk(LinkTables(tables, next)) {
      ClashIsFinal(tables, next, all);
    }
  }

  class Catalog {
    const products: seq<Product>
    var variants: seq<Variant>
    var tables: seq<seq<Row>>
    var nextId: int

    function Contents(): Shop
      reads this
    {
      Shop(products, variants, tables, nextId)
    }

    constructor (s: Shop)
      ensures Contents() == s
    {
      products, variants, tables, nextId := s.products, s.variants, s.tables, s.nextId;
    }

    method ReadExisting() returns (existing: Links)
      ensures existing == Existing(variants)
    {
      existing := map[];
      for i := 0 to |variants|
        invariant existing == Existing(variants[..i])
      {
        assert variants[..i + 1][..i] == variants[..i];
        existing := existing[variants[i].product := variants[i].id];
      }
      assert variants[..|variants|] == variants;
    }

    method MakeVariants(existing: Links) returns (made: seq<Variant>, links: Links, created: nat, already: nat)
      ensures made == Created(products, existing, nextId)
      ensures links == LinksFor(products, existing, nextId)
      ensures created == |made| && already == |products| - |made|
    {
      made, links, created, already := [], map[], 0, 0;
      for i := 0 to |products|
        invariant made == Created(products[..i], existing, nextId)
        invariant links == LinksFor(products[..i], existing, nextId)
        invariant created == |made| && already == i - |made|
      {
        assert products[..i + 1][..i] == products[..i];
        var product := products[i];
        if product.id in existing {
          already := already + 1;
          links := links[product.id := existing[product.id]];
        } else {
          var variant := Variant(nextId + |made|, product.id, product.sku, product.barcode,
                                 product.status == "active");
          links := links[product.id := variant.id];
          made := made + [variant];
          created := created + 1;
        }
      }
      assert products[..|products|] == products;
    }

    /** The nine UPDATE statements for one product; a violated constraint stops them. */
    method UpdateTables(work: seq<seq<Row>>, updated: seq<nat>, product: int, id: int)
      returns (r: seq<seq<Row>>, counts: seq<nat>, clash: bool)
      requires |work| == TABLES && |updated| == TABLES
      ensures clash <==> !TablesOk(LinkTables(work, map[product := id]))
      ensures !clash ==> r == LinkTables(work, map[product := id])
      ensures !clash ==> counts == Sum(updated, CountTables(work, map[product := id]))
    {
      r, counts, clash := [], [], false;
      for t := 0 to TABLES
        invariant |r| == t && |counts| == t
        invariant forall u :: 0 <= u < t ==> r[u] == LinkRows(work[u], map[product := id])
        invariant forall u :: 0 <= u < t && Keyed(u) ==> RowsUnique(r[u])
        invariant forall u :: 0 <= u < t ==> counts[u] == updated[u] + CountEligible(work[u], map[product := id])
      {
        var rows, count := UpdateRows(work[t], product, id);
        if Keyed(t) && !RowsUnique(rows) {
          clash := true;
          return;
        }
        r, counts := r + [rows], counts + [updated[t] + count];
      }
      assert r == LinkTables(work, map[product := id]);
      assert counts == Sum(updated, CountTables(work, map[product := id]));
    }

    /** The loop over the products and their variants. */
    method LinkAll(existing: Links, links: Links)
      returns (work: seq<seq<Row>>, updated: seq<nat>, clash: bool)
      requires ProductsOk(products) && TablesOk(tables) && links == LinksFor(products, existing, nextId)
      ensures clash <==> !TablesOk(LinkTables(tables, links))
      ensures !clash ==> work == LinkTables(tables, links) && updated == CountTables(tables, links)
    {
      work, updated, clash := tables, seq(TABLES, _ => 0), false;
      NothingDone(tables);
      for k := 0 to |products|
        invariant |work| == TABLES && |updated| == TABLES
        invariant work == LinkTables(tables, LinksFor(products[..k], existing, nextId))
        invariant updated == CountTables(tables, LinksFor(products[..k], existing, nextId))
        invariant TablesOk(work)
      {
        LinkStep(tables, products, existing, nextId, k);
        var product := products[k].id;
        var linked, counts, stopped := UpdateTables(work, updated, product, links[product]);
        if stopped {
          clash := true;
          return;
        }
        work, updated := linked, counts;
      }
      assert products[..|products|] == products;
    }

    /** Counting what can be linked, and linking it; without products there is neither to do. */
    method CountAndLink(existing: Links, links: Links)
      returns (work: seq<seq<Row>>, eligible: Option<seq<nat>>, updated: seq<nat>, clash: bool)
      requires ProductsOk(products) && TablesOk(tables) && links == LinksFor(products, existing, nextId)
      ensures clash <==> !TablesOk(LinkTables(tables, links))
      ensures !clash ==> work == LinkTables(tables, links) && updated == CountTables(tables, links)
      ensures !clash ==> eligible == if products == [] then None else Some(CountTables(tables, links))
    {
      if products == [] {
        NothingDone(tables);
        return tables, None, seq(TABLES, _ => 0), false;
      }
      eligible := Some(CountTables(tables, links));
      work, updated, clash := LinkAll(existing, links);
    }

    /**
     `backfill_variants`. A violated constraint ends the transaction and nothing is kept; otherwise
     the new variants and the linked tables are committed together.
     */
    method BackfillVariants() returns (r: Result<Stats, Failure>)
      requires Valid(Contents())
      modifies this
      ensures r.Ok? <==> old(Succeeds(Contents()))
      ensures r.Ok? ==> Contents() == Outcome(old(Contents())) && r.value == OutcomeStats(old(Contents()))
      ensures r.Err? ==> Contents() == old(Contents())
    {
      ghost var shop := Contents();
      var existing := ReadExisting();
      var made, links, created, already := MakeVariants(existing);
      assert made == ShopCreated(shop) && links == ShopLinks(shop);
      if !SkusUnique(variants + made) || !BarcodesUnique(variants + made) {
        return Err(UniqueViolation);
      }
      var work, eligible, updated, clash := CountAndLink(existing, links);
      if clash {
        return Err(UniqueViolation);
      }
      variants, nextId, tables := variants + made, nextId + |made|, work;
      return Ok(Stats(created, already, eligible, updated));
    }
  }
}
