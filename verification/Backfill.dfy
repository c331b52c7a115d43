/** Giving every product a variant and every line of nine tables the variant of its product. */
module Backfill {
  import opened Prelude

  datatype Product = Product(id: int, sku: string, barcode: Option<string>, status: string)

  datatype Variant = Variant(id: int, product: int, sku: string, barcode: Option<string>, active: bool)

  /** The columns of a line that the backfill reads and writes. */
  datatype Row = Row(branch: int, product: int, variant: Option<int>)

  type Links = map<int, int>

  const TABLES := 9
  const STOCK_LEVELS := 1
  const BRANCH_PRODUCT_COSTS := 2

  /**
   Tables in the script's order: stock movements, stock levels, branch product costs, cart lines,
   invoice lines, purchase order lines, goods receipt lines, transfer lines, return lines.
   */
  datatype Shop = Shop(products: seq<Product>, variants: seq<Variant>, tables: seq<seq<Row>>, nextId: int)

  datatype Stats = Stats(created: nat, already: nat, eligible: Option<seq<nat>>, updated: seq<nat>)

  datatype Failure = UniqueViolation

  // ----- Constraints -----

  predicate SkusUnique(vs: seq<Variant>)
  {
    forall i, j :: 0 <= i < j < |vs| ==> vs[i].sku != vs[j].sku
  }

  predicate BarcodesUnique(vs: seq<Variant>)
  {
    forall i, j :: 0 <= i < j < |vs| && vs[i].barcode.Some? ==> vs[i].barcode != vs[j].barcode
  }

  /** One row per branch, product and variant; rows without a variant do not count. */
  predicate RowsUnique(rows: seq<Row>)
  {
    forall i, j :: 0 <= i < j < |rows| && rows[i].variant.Some? ==> rows[i] != rows[j]
  }

  predicate Keyed(table: int) { table == STOCK_LEVELS || table == BRANCH_PRODUCT_COSTS }

  ghost predicate ProductsOk(ps: seq<Product>)
  {
    forall i, j :: 0 <= i < j < |ps| ==>
      && ps[i].id != ps[j].id && ps[i].sku != ps[j].sku
      && (ps[i].barcode.Some? ==> ps[i].barcode != ps[j].barcode)
  }

  ghost predicate VariantsOk(vs: seq<Variant>, nextId: int)
  {
    && (forall i :: 0 <= i < |vs| ==> vs[i].id < nextId)
    && (forall i, j :: 0 <= i < j < |vs| ==> vs[i].id != vs[j].id)
    && SkusUnique(vs) && BarcodesUnique(vs)
  }

  ghost predicate TablesOk(tables: seq<seq<Row>>)
  {
    |tables| == TABLES && forall t :: 0 <= t < TABLES && Keyed(t) ==> RowsUnique(tables[t])
  }

  /**
   The keys and unique constraints of the tables. That variant columns are never null, which holds for
   all tables but the purchase order lines now, is not part of it: the backfill precedes it.
   */
  ghost predicate Valid(s: Shop)
  {
    ProductsOk(s.products) && VariantsOk(s.variants, s.nextId) && TablesOk(s.tables)
  }

  // ----- The result, as functions of the tables -----

  /** The variant a product already has: the last one read when it has several. */
  function Existing(vs: seq<Variant>): Links
  {
    if vs == [] then map[] else Existing(vs[..|vs| - 1])[vs[|vs| - 1].product := vs[|vs| - 1].id]
  }

  function VariantOf(p: Product, id: int): Variant
  {
    Variant(id, p.id, p.sku, p.barcode, p.status == "active")
  }

  /** The variants created for the products that have none, with the next ids. */
  function Created(ps: seq<Product>, existing: Links, nextId: int): (vs: seq<Variant>)
    ensures |vs| <= |ps|
  {
    if ps == [] then [] else
      var before, p := Created(ps[..|ps| - 1], existing, nextId), ps[|ps| - 1];
      if p.id in existing then before
      else before + [VariantOf(p, nextId + |before|)]
  }

  /** The variant of each product, existing or created. */
  function LinksFor(ps: seq<Product>, existing: Links, nextId: int): Links
  {
    if ps == [] then map[] else
      var before, p := ps[..|ps| - 1], ps[|ps| - 1];
      LinksFor(before, existing, nextId)
        [p.id := if p.id in existing then existing[p.id] else nextId + |Created(before, existing, nextId)|]
  }

  predicate IsEligible(row: Row, links: Links) { row.variant.None? && row.product in links }

  function LinkRow(row: Row, links: Links): Row
  {
    if IsEligible(row, links) then row.(variant := Some(links[row.product])) else row
  }

  function LinkRows(rows: seq<Row>, links: Links): (r: seq<Row>)
    ensures |r| == |rows|
    ensures forall i :: 0 <= i < |rows| ==> r[i] == LinkRow(rows[i], links)
  {
    if rows == [] then [] else LinkRows(rows[..|rows| - 1], links) + [LinkRow(rows[|rows| - 1], links)]
  }

  function CountEligible(rows: seq<Row>, links: Links): nat
  {
    if rows == [] then 0
    else CountEligible(rows[..|rows| - 1], links) + if IsEligible(rows[|rows| - 1], links) then 1 else 0
  }

  function LinkTables(tables: seq<seq<Row>>, links: Links): (r: seq<seq<Row>>)
    ensures |r| == |tables|
  {
    seq(|tables|, t requires 0 <= t < |tables| => LinkRows(tables[t], links))
  }

  function CountTables(tables: seq<seq<Row>>, links: Links): (r: seq<nat>)
    ensures |r| == |tables|
  {
    seq(|tables|, t requires 0 <= t < |tables| => CountEligible(tables[t], links))
  }

  function Sum(xs: seq<nat>, ys: seq<nat>): (r: seq<nat>)
    requires |xs| == |ys|
    ensures |r| == |xs|
  {
    seq(|xs|, t requires 0 <= t < |xs| => xs[t] + ys[t])
  }

  function ShopCreated(s: Shop): seq<Variant> { Created(s.products, Existing(s.variants), s.nextId) }

  function ShopLinks(s: Shop): Links { LinksFor(s.products, Existing(s.variants), s.nextId) }

  /** When the run violates no constraint. */
  ghost predicate Succeeds(s: Shop)
  {
    && SkusUnique(s.variants + ShopCreated(s))
    && BarcodesUnique(s.variants + ShopCreated(s))
    && TablesOk(LinkTables(s.tables, ShopLinks(s)))
  }

  /** What a run that violates no constraint leaves. */
  function Outcome(s: Shop): Shop
  {
    s.(variants := s.variants + ShopCreated(s), tables := LinkTables(s.tables, ShopLinks(s)),
       nextId := s.nextId + |ShopCreated(s)|)
  }

  function OutcomeStats(s: Shop): Stats
  {
    var counts := CountTables(s.tables, ShopLinks(s));
    Stats(|ShopCreated(s)|, |s.products| - |ShopCreated(s)|,
          if s.products == [] then None else Some(counts), counts)
  }

  // ----- The links -----

  ghost predicate Names(vs: seq<Variant>, product: int, id: int)
  {
    exists i :: 0 <= i < |vs| && vs[i].product == product && vs[i].id == id
  }

  lemma {:induction false} NamesGrow(vs: seq<Variant>, more: seq<Variant>, product: int, id: int)
    requires Names(vs, product, id) || Names(more, product, id)
    ensures Names(vs + more, product, id)
  {
    if Names(vs, product, id) {
      var i :| 0 <= i < |vs| && vs[i].product == product && vs[i].id == id;
      assert (vs + more)[i] == vs[i];
    } else {
      var i :| 0 <= i < |more| && more[i].product == product && more[i].id == id;
      assert (vs + more)[|vs| + i] == more[i];
    }
  }

  /** The existing links are to variants of the product, and every variant's product has one. */
  lemma {:induction false} ExistingMeaning(vs: seq<Variant>)
    ensures forall p :: p in Existing(vs) ==> Names(vs, p, Existing(vs)[p])
    ensures forall i :: 0 <= i < |vs| ==> vs[i].product in Existing(vs)
  {
    if vs != [] {
      var before, v := vs[..|vs| - 1], vs[|vs| - 1];
      ExistingMeaning(before);
      assert vs == before + [v];
      forall p | p in Existing(vs)
        ensures Names(vs, p, Existing(vs)[p])
      {
        if p == v.product {
          assert [v][0].product == p && [v][0].id == Existing(vs)[p];
        } else {
          assert p in Existing(before) && Existing(vs)[p] == Existing(before)[p];
        }
        NamesGrow(before, [v], p, Existing(vs)[p]);
      }
    }
  }

  ghost predicate Listed(ps: seq<Product>, id: int)
  {
    exists i :: 0 <= i < |ps| && ps[i].id == id
  }

  lemma {:induction false} ListedPrefix(ps: seq<Product>, n: nat, id: int)
    requires n <= |ps| && Listed(ps[..n], id)
    ensures Listed(ps, id)
  {
    var i :| 0 <= i < n && ps[..n][i].id == id;
    assert ps[i].id == id;
  }

  /** v is a variant of p with its codes, active while the product is. */
  predicate Copies(v: Variant, p: Product)
  {
    && v.product == p.id && v.sku == p.sku && v.barcode == p.barcode
    && (v.active <==> p.status == "active")
  }

  /** v is made from one of the products, one that had no variant, under this id. */
  ghost predicate MadeAs(ps: seq<Product>, existing: Links, v: Variant, id: int)
  {
    v.product !in existing && v.id == id && exists j :: 0 <= j < |ps| && Copies(v, ps[j])
  }

  /** The created variants copy products without a variant, and take the next ids in turn. */
  lemma {:induction false} CreatedMeaning(ps: seq<Product>, existing: Links, nextId: int)
    ensures forall i :: 0 <= i < |Created(ps, existing, nextId)| ==>
              MadeAs(ps, existing, Created(ps, existing, nextId)[i], nextId + i)
  {
    if ps != [] {
      var n := |ps| - 1;
      CreatedMeaning(ps[..n], existing, nextId);
      var vs, before := Created(ps, existing, nextId), Created(ps[..n], existing, nextId);
      forall i | 0 <= i < |vs|
        ensures MadeAs(ps, existing, vs[i], nextId + i)
      {
        if i < |before| {
          assert vs[i] == before[i] && MadeAs(ps[..n], existing, before[i], nextId + i);
          var j :| 0 <= j < n && Copies(before[i], ps[..n][j]);
          assert Copies(vs[i], ps[j]);
        } else {
          assert Copies(vs[i], ps[n]);
        }
      }
    }
  }

  lemma {:induction false} LinksListed(ps: seq<Product>, existing: Links, nextId: int)
    ensures forall p :: p in LinksFor(ps, existing, nextId) <==> Listed(ps, p)
  {
    if ps != [] {
      var n := |ps| - 1;
      LinksListed(ps[..n], existing, nextId);
      forall p
        ensures p in LinksFor(ps, existing, nextId) <==> Listed(ps, p)
      {
        if Listed(ps[..n], p) {
          ListedPrefix(ps, n, p);
        } else {
          assert forall i :: 0 <= i < n ==> ps[..n][i].id != p;
        }
      }
    }
  }

  /** A product's link is to a variant of its own. */
  lemma {:induction false} LinksNameOwn(ps: seq<Product>, vs: seq<Variant>, nextId: int)
    ensures forall p :: p in LinksFor(ps, Existing(vs), nextId) ==>
              Names(vs + Created(ps, Existing(vs), nextId), p, LinksFor(ps, Existing(vs), nextId)[p])
  {
    if ps != [] {
      var n, existing := |ps| - 1, Existing(vs);
      var links, before := LinksFor(ps, existing, nextId), LinksFor(ps[..n], existing, nextId);
      var made, made' := Created(ps[..n], existing, nextId), Created(ps, existing, nextId);
      LinksNameOwn(ps[..n], vs, nextId);
      ExistingMeaning(vs);
      var extra := made'[|made|..];
      assert vs + made' == vs + made + extra;
      forall p | p in links
        ensures Names(vs + made', p, links[p])
      {
        if p != ps[n].id {
          assert p in before && links[p] == before[p];
          NamesGrow(vs + made, extra, p, links[p]);
        } else {
          if p !in existing {
            assert made'[|made|] == VariantOf(ps[n], links[p]);
          }
          NamesGrow(vs, made', p, links[p]);
        }
      }
    }
  }

  // ----- Updating row by row, product by product -----

  lemma {:induction false} LinkRowsCompose(rows: seq<Row>, links: Links, product: int, id: int)
    requires product !in links
    ensures LinkRows(LinkRows(rows, links), map[product := id]) == LinkRows(rows, links[product := id])
    ensures CountEligible(rows, links[product := id])
            == CountEligible(rows, links) + CountEligible(LinkRows(rows, links), map[product := id])
  {
    if rows != [] {
      var n := |rows| - 1;
      LinkRowsCompose(rows[..n], links, product, id);
      assert LinkRows(rows, links)[..n] == LinkRows(rows[..n], links);
    }
  }

  lemma {:induction false} NoLinksNoChange(rows: seq<Row>)
    ensures LinkRows(rows, map[]) == rows && CountEligible(rows, map[]) == 0
  {
    if rows != [] {
      NoLinksNoChange(rows[..|rows| - 1]);
    }
  }

  ghost predicate Extends(some: Links, all: Links)
  {
    forall p :: p in some ==> p in all && all[p] == some[p]
  }

  /** A clash that some of the links cause, all of them cause. */
  lemma {:induction false} ClashPersists(rows: seq<Row>, some: Links, all: Links)
    requires Extends(some, all)
    requires !RowsUnique(LinkRows(rows, some))
    ensures !RowsUnique(LinkRows(rows, all))
  {
    var a, b := LinkRows(rows, some), LinkRows(rows, all);
    var i, j :| 0 <= i < j < |a| && a[i].variant.Some? && a[i] == a[j];
    assert b[i] == a[i] && b[j] == a[j];
  }

  lemma {:induction false} NotYetLinked(ps: seq<Product>, existing: Links, nextId: int, k: nat)
    requires ProductsOk(ps) && k < |ps|
    ensures ps[k].id !in LinksFor(ps[..k], existing, nextId)
  {
    LinksListed(ps[..k], existing, nextId);
    assert forall i :: 0 <= i < k ==> ps[..k][i].id != ps[k].id;
  }

  lemma {:induction false} LinksGrow(ps: seq<Product>, existing: Links, nextId: int, k: nat)
    requires ProductsOk(ps) && k <= |ps|
    ensures Extends(LinksFor(ps[..k], existing, nextId), LinksFor(ps, existing, nextId))
    decreases |ps|
  {
    if k == |ps| {
      assert ps[..k] == ps;
    } else {
      var n := |ps| - 1;
      assert ps[..n][..k] == ps[..k];
      LinksGrow(ps[..n], existing, nextId, k);
      NotYetLinked(ps, existing, nextId, n);
    }
  }

  lemma {:induction false} AllLinksExtend(ps: seq<Product>, existing: Links, nextId: int, k: nat, t: Links)
    requires ProductsOk(ps) && k < |ps|
    requires t == LinksFor(ps[..k], existing, nextId)
    ensures ps[k].id !in t && ps[k].id in LinksFor(ps, existing, nextId)
    ensures LinksFor(ps[..k + 1], existing, nextId) == t[ps[k].id := LinksFor(ps, existing, nextId)[ps[k].id]]
  {
    assert ps[..k + 1][..k] == ps[..k] && ps[..k + 1][k] == ps[k];
    NotYetLinked(ps, existing, nextId, k);
    LinksGrow(ps, existing, nextId, k + 1);
  }

  // ----- What a successful run achieves -----

  /** Every row that had a variant keeps it; the others get one of their own product, if they can. */
  ghost predicate RightlyLinked(s: Shop, row: Row, row': Row, vs: seq<Variant>)
  {
    && row'.branch == row.branch && row'.product == row.product
    && (row.variant.Some? ==> row' == row)
    && (row'.variant.Some? && row.variant.None? ==> Names(vs, row.product, row'.variant.value))
    && (row'.variant.None? ==> !Listed(s.products, row.product))
  }

  lemma {:induction false} BackfillLinksRightly(s: Shop, t: nat, i: nat)
    requires t < |s.tables| && i < |s.tables[t]|
    ensures RightlyLinked(s, s.tables[t][i], Outcome(s).tables[t][i], Outcome(s).variants)
  {
    LinksListed(s.products, Existing(s.variants), s.nextId);
    LinksNameOwn(s.products, s.variants, s.nextId);
    assert Outcome(s).tables[t] == LinkRows(s.tables[t], ShopLinks(s));
  }

  /** The number of positions at which two tables differ. */
  function Differences(rows: seq<Row>, rows': seq<Row>): nat
    requires |rows| == |rows'|
  {
    if rows == [] then 0
    else Differences(rows[..|rows| - 1], rows'[..|rows| - 1])
         + if rows[|rows| - 1] != rows'[|rows| - 1] then 1 else 0
  }

  lemma {:induction false} EligibleAreChanged(rows: seq<Row>, links: Links)
    ensures CountEligible(rows, links) == Differences(rows, LinkRows(rows, links))
  {
    if rows != [] {
      var n := |rows| - 1;
      EligibleAreChanged(rows[..n], links);
      assert LinkRows(rows, links)[..n] == LinkRows(rows[..n], links);
    }
  }

  /** The update counts, the eligibility counts and the numbers of rows changed are the same. */
  lemma {:induction false} CountersAreExact(s: Shop, t: nat)
    requires t < |s.tables|
    ensures OutcomeStats(s).updated[t] == Differences(s.tables[t], Outcome(s).tables[t])
    ensures OutcomeStats(s).eligible == if s.products == [] then None else Some(OutcomeStats(s).updated)
    ensures OutcomeStats(s).created == |Outcome(s).variants| - |s.variants|
    ensures OutcomeStats(s).created + OutcomeStats(s).already == |s.products|
  {
    EligibleAreChanged(s.tables[t], ShopLinks(s));
  }

  lemma {:induction false} CreatedKeepsIds(s: Shop)
    requires Valid(s) && Succeeds(s)
    ensures VariantsOk(Outcome(s).variants, Outcome(s).nextId)
  {
    CreatedMeaning(s.products, Existing(s.variants), s.nextId);
    var made := ShopCreated(s);
    var n, all := |s.variants|, s.variants + made;
    forall i | 0 <= i < |all|
      ensures all[i].id < s.nextId + |made| && (i >= n ==> all[i].id == s.nextId + i - n)
    {
      if i >= n {
        assert MadeAs(s.products, Existing(s.variants), made[i - n], s.nextId + (i - n));
      }
    }
  }

  lemma {:induction false} BackfillKeepsValid(s: Shop)
    requires Valid(s) && Succeeds(s)
    ensures Valid(Outcome(s))
  {
    CreatedKeepsIds(s);
  }

  // ----- Running it again -----

  lemma {:induction false} NothingToCreate(ps: seq<Product>, existing: Links, nextId: int)
    requires forall i :: 0 <= i < |ps| ==> ps[i].id in existing
    ensures Created(ps, existing, nextId) == []
  {
    if ps != [] {
      NothingToCreate(ps[..|ps| - 1], existing, nextId);
    }
  }

  lemma {:induction false} NothingToLink(rows: seq<Row>, links: Links)
    requires forall i :: 0 <= i < |rows| ==> !IsEligible(rows[i], links)
    ensures LinkRows(rows, links) == rows && CountEligible(rows, links) == 0
  {
    if rows != [] {
      NothingToLink(rows[..|rows| - 1], links);
    }
  }

  lemma {:induction false} EveryProductHasVariant(s: Shop)
    ensures forall i :: 0 <= i < |s.products| ==> s.products[i].id in Existing(Outcome(s).variants)
  {
    LinksListed(s.products, Existing(s.variants), s.nextId);
    LinksNameOwn(s.products, s.variants, s.nextId);
    ExistingMeaning(Outcome(s).variants);
    forall i | 0 <= i < |s.products|
      ensures s.products[i].id in Existing(Outcome(s).variants)
    {
      var p := s.products[i].id;
      assert Listed(s.products, p);
      assert Names(Outcome(s).variants, p, ShopLinks(s)[p]);
      var v :| 0 <= v < |Outcome(s).variants| && Outcome(s).variants[v].product == p
               && Outcome(s).variants[v].id == ShopLinks(s)[p];
    }
  }

  lemma {:induction false} SecondRunCreatesNothing(s: Shop)
    requires Valid(s) && Succeeds(s)
    ensures ShopCreated(Outcome(s)) == []
  {
    var s' := Outcome(s);
    EveryProductHasVariant(s);
    NothingToCreate(s'.products, Existing(s'.variants), s'.nextId);
  }

  lemma {:induction false} SecondRunLinksNothing(s: Shop, t: nat)
    requires t < |s.tables|
    ensures LinkRows(Outcome(s).tables[t], ShopLinks(Outcome(s))) == Outcome(s).tables[t]
    ensures CountEligible(Outcome(s).tables[t], ShopLinks(Outcome(s))) == 0
  {
    var s' := Outcome(s);
    LinksListed(s'.products, Existing(s'.variants), s'.nextId);
    forall i | 0 <= i < |s'.tables[t]|
      ensures !IsEligible(s'.tables[t][i], ShopLinks(s'))
    {
      BackfillLinksRightly(s, t, i);
    }
    NothingToLink(s'.tables[t], ShopLinks(s'));
  }

  /** A second run succeeds, creates nothing, updates nothing and leaves the tables as they are. */
  lemma {:induction false} SecondRunChangesNothing(s: Shop)
    requires Valid(s) && Succeeds(s)
    ensures var s' := Outcome(s);
            && Valid(s') && Succeeds(s') && Outcome(s') == s'
            && OutcomeStats(s').created == 0 && OutcomeStats(s').already == |s.products|
            && forall t :: 0 <= t < TABLES ==> OutcomeStats(s').updated[t] == 0
  {
    var s' := Outcome(s);
    BackfillKeepsValid(s);
    SecondRunCreatesNothing(s);
    assert s'.variants + ShopCreated(s') == s'.variants;
    forall t | 0 <= t < TABLES
      ensures LinkRows(s'.tables[t], ShopLinks(s')) == s'.tables[t]
              && CountEligible(s'.tables[t], ShopLinks(s')) == 0
    {
      SecondRunLinksNothing(s, t);
    }
    assert LinkTables(s'.tables, ShopLinks(s')) == s'.tables;
  }

  // ----- Which variants a run creates, and which ones the lines get -----

  ghost predicate Covers(vs: seq<Variant>, p: Product)
  {
    exists i :: 0 <= i < |vs| && Copies(vs[i], p)
  }

  lemma {:induction false} CreatedCovers(ps: seq<Product>, existing: Links, nextId: int)
    ensures forall j :: 0 <= j < |ps| && ps[j].id !in existing ==>
              Covers(Created(ps, existing, nextId), ps[j])
  {
    if ps != [] {
      var n := |ps| - 1;
      CreatedCovers(ps[..n], existing, nextId);
      var vs, before := Created(ps, existing, nextId), Created(ps[..n], existing, nextId);
      forall j | 0 <= j < |ps| && ps[j].id !in existing
        ensures Covers(vs, ps[j])
      {
        if j < n {
          assert ps[..n][j] == ps[j] && Covers(before, ps[j]);
          var i :| 0 <= i < |before| && Copies(before[i], ps[j]);
          assert Copies(vs[i], ps[j]);
        } else {
          assert Copies(vs[|before|], ps[n]);
        }
      }
    }
  }

  lemma {:induction false} CreatedForDistinct(ps: seq<Product>, existing: Links, nextId: int)
    requires ProductsOk(ps)
    ensures forall i, j :: 0 <= i < j < |Created(ps, existing, nextId)| ==>
              Created(ps, existing, nextId)[i].product != Created(ps, existing, nextId)[j].product
  {
    if ps != [] {
      var n := |ps| - 1;
      CreatedForDistinct(ps[..n], existing, nextId);
      CreatedMeaning(ps[..n], existing, nextId);
      var vs, before := Created(ps, existing, nextId), Created(ps[..n], existing, nextId);
      forall i, j | 0 <= i < j < |vs|
        ensures vs[i].product != vs[j].product
      {
        assert vs[i] == before[i] && MadeAs(ps[..n], existing, before[i], nextId + i);
        if j < |before| {
          assert vs[j] == before[j];
        }
      }
    }
  }

  ghost predicate HasVariant(vs: seq<Variant>, product: int)
  {
    exists i :: 0 <= i < |vs| && vs[i].product == product
  }

  lemma {:induction false} MappedIffHasVariant(vs: seq<Variant>, product: int)
    ensures product in Existing(vs) <==> HasVariant(vs, product)
  {
    ExistingMeaning(vs);
    if product in Existing(vs) {
      assert Names(vs, product, Existing(vs)[product]);
    }
  }

  /** Every variant that a run adds, under the next ids, copies a listed product that had none. */
  lemma {:induction false} AddedVariantCopies(s: Shop, i: nat) returns (j: nat)
    requires |s.variants| <= i < |Outcome(s).variants|
    ensures j < |s.products| && !HasVariant(s.variants, s.products[j].id)
    ensures Copies(Outcome(s).variants[i], s.products[j])
    ensures Outcome(s).variants[i].id == s.nextId + i - |s.variants|
  {
    var at := i - |s.variants|;
    CreatedMeaning(s.products, Existing(s.variants), s.nextId);
    var made := ShopCreated(s);
    assert MadeAs(s.products, Existing(s.variants), made[at], s.nextId + at);
    j :| 0 <= j < |s.products| && Copies(made[at], s.products[j]);
    MappedIffHasVariant(s.variants, s.products[j].id);
  }

  lemma {:induction false} CreatedAreApart(s: Shop, i: nat, k: nat)
    requires ProductsOk(s.products) && i < |ShopCreated(s)| && k < |ShopCreated(s)| && i != k
    ensures ShopCreated(s)[i].product != ShopCreated(s)[k].product
  {
    CreatedForDistinct(s.products, Existing(s.variants), s.nextId);
  }

  /** Every listed product that had none gets exactly one; the variants there were stay first and as they were. */
  lemma {:induction false} UncoveredGetsOne(s: Shop, j: nat) returns (i: nat)
    requires ProductsOk(s.products) && j < |s.products| && !HasVariant(s.variants, s.products[j].id)
    ensures s.variants <= Outcome(s).variants && |s.variants| <= i < |Outcome(s).variants|
    ensures Copies(Outcome(s).variants[i], s.products[j])
    ensures forall k :: 0 <= k < |Outcome(s).variants| && k != i ==>
              Outcome(s).variants[k].product != s.products[j].id
  {
    var made, n := ShopCreated(s), |s.variants|;
    MappedIffHasVariant(s.variants, s.products[j].id);
    CreatedCovers(s.products, Existing(s.variants), s.nextId);
    assert Covers(made, s.products[j]);
    var at :| 0 <= at < |made| && Copies(made[at], s.products[j]);
    i := n + at;
    forall k | 0 <= k < |Outcome(s).variants| && k != i
      ensures Outcome(s).variants[k].product != s.products[j].id
    {
      if k >= n {
        CreatedAreApart(s, at, k - n);
      }
    }
  }

  /** Variant i is the last one of its product. */
  ghost predicate LastOfProduct(vs: seq<Variant>, i: nat)
  {
    i < |vs| && forall k :: i < k < |vs| ==> vs[k].product != vs[i].product
  }

  /** Of several variants of a product the last one counts. */
  lemma {:induction false} LastIsMapped(vs: seq<Variant>, i: nat)
    requires LastOfProduct(vs, i)
    ensures vs[i].product in Existing(vs) && Existing(vs)[vs[i].product] == vs[i].id
  {
    var n := |vs| - 1;
    if i < n {
      LastIsMapped(vs[..n], i);
    }
  }

  lemma {:induction false} ExistingIsKept(ps: seq<Product>, existing: Links, nextId: int, product: int)
    requires product in LinksFor(ps, existing, nextId) && product in existing
    ensures LinksFor(ps, existing, nextId)[product] == existing[product]
  {
    var n := |ps| - 1;
    if product != ps[n].id {
      ExistingIsKept(ps[..n], existing, nextId, product);
    }
  }

  lemma {:induction false} OldLast(s: Shop, i: nat)
    requires LastOfProduct(Outcome(s).variants, i) && HasVariant(s.variants, Outcome(s).variants[i].product)
    ensures i < |s.variants| && LastOfProduct(s.variants, i)
  {
    var vs, n := Outcome(s).variants, |s.variants|;
    MappedIffHasVariant(s.variants, vs[i].product);
    if i >= n {
      var j := AddedVariantCopies(s, i);
      assert false;
    }
    forall k | i < k < n
      ensures s.variants[k].product != s.variants[i].product
    {
      assert vs[k] == s.variants[k] && vs[i] == s.variants[i];
    }
  }

  lemma {:induction false} LinkIsLast(s: Shop, i: nat)
    requires ProductsOk(s.products) && LastOfProduct(Outcome(s).variants, i)
    requires Listed(s.products, Outcome(s).variants[i].product)
    ensures Outcome(s).variants[i].product in ShopLinks(s)
    ensures ShopLinks(s)[Outcome(s).variants[i].product] == Outcome(s).variants[i].id
  {
    var vs, existing := Outcome(s).variants, Existing(s.variants);
    var product := vs[i].product;
    LinksListed(s.products, existing, s.nextId);
    MappedIffHasVariant(s.variants, product);
    if HasVariant(s.variants, product) {
      OldLast(s, i);
      LastIsMapped(s.variants, i);
      ExistingIsKept(s.products, existing, s.nextId, product);
    } else {
      LinksNameOwn(s.products, s.variants, s.nextId);
      assert Names(vs, product, ShopLinks(s)[product]);
      var j :| 0 <= j < |s.products| && s.products[j].id == product;
      var only := UncoveredGetsOne(s, j);
      assert only == i;
    }
  }

  /** A line without a variant gets the last variant of its product there is after the run. */
  lemma {:induction false} LineGetsLastVariant(s: Shop, t: nat, r: nat, i: nat)
    requires ProductsOk(s.products) && t < |s.tables| && r < |s.tables[t]| && s.tables[t][r].variant.None?
    requires Listed(s.products, s.tables[t][r].product)
    requires LastOfProduct(Outcome(s).variants, i) && Outcome(s).variants[i].product == s.tables[t][r].product
    ensures Outcome(s).tables[t][r].variant == Some(Outcome(s).variants[i].id)
  {
    LinkIsLast(s, i);
    assert Outcome(s).tables[t] == LinkRows(s.tables[t], ShopLinks(s));
  }

  // ----- When a run succeeds, told from the tables beforehand -----

  /** Two rows that the links would make the same: at least one is unlinked, the other agrees. */
  predicate Collide(a: Row, b: Row, links: Links)
  {
    && a.branch == b.branch && a.product == b.product && a.product in links
    && (a.variant.None? || b.variant.None?)
    && (a.variant.None? || a.variant == Some(links[a.product]))
    && (b.variant.None? || b.variant == Some(links[b.product]))
  }

  lemma {:induction false} TableKeepsUniqueIff(rows: seq<Row>, links: Links)
    requires RowsUnique(rows)
    ensures RowsUnique(LinkRows(rows, links)) <==>
              forall i, j :: 0 <= i < j < |rows| ==> !Collide(rows[i], rows[j], links)
  {
    var rows' := LinkRows(rows, links);
    forall i, j | 0 <= i < j < |rows|
      ensures Collide(rows[i], rows[j], links) <==> rows'[i].variant.Some? && rows'[i] == rows'[j]
    {
      assert rows[i].variant.Some? ==> rows[i] != rows[j];
    }
  }

  /** No variant holds the SKU or the barcode of a product that has none of its own. */
  ghost predicate CodesFree(s: Shop)
  {
    forall j, i :: 0 <= j < |s.products| && s.products[j].id !in Existing(s.variants) && 0 <= i < |s.variants| ==>
      && s.variants[i].sku != s.products[j].sku
      && (s.variants[i].barcode.Some? ==> s.variants[i].barcode != s.products[j].barcode)
  }

  lemma {:induction false} CodesFreeSuffices(s: Shop)
    requires Valid(s) && CodesFree(s)
    ensures SkusUnique(s.variants + ShopCreated(s)) && BarcodesUnique(s.variants + ShopCreated(s))
  {
    var existing, made := Existing(s.variants), ShopCreated(s);
    var n, all := |s.variants|, s.variants + made;
    CreatedMeaning(s.products, existing, s.nextId);
    CreatedForDistinct(s.products, existing, s.nextId);
    forall i, j | 0 <= i < j < |all|
      ensures all[i].sku != all[j].sku && (all[i].barcode.Some? ==> all[i].barcode != all[j].barcode)
    {
      if j >= n {
        assert MadeAs(s.products, existing, made[j - n], s.nextId + (j - n));
        var b :| 0 <= b < |s.products| && Copies(made[j - n], s.products[b]);
        if i >= n {
          assert MadeAs(s.products, existing, made[i - n], s.nextId + (i - n));
          var a :| 0 <= a < |s.products| && Copies(made[i - n], s.products[a]);
          assert a != b;
        }
      }
    }
  }

  lemma {:induction false} CodesFreeNeeded(s: Shop)
    requires SkusUnique(s.variants + ShopCreated(s)) && BarcodesUnique(s.variants + ShopCreated(s))
    ensures CodesFree(s)
  {
    var made := ShopCreated(s);
    var n, all := |s.variants|, s.variants + made;
    CreatedCovers(s.products, Existing(s.variants), s.nextId);
    forall j, i | 0 <= j < |s.products| && s.products[j].id !in Existing(s.variants) && 0 <= i < n
      ensures s.variants[i].sku != s.products[j].sku
      ensures s.variants[i].barcode.Some? ==> s.variants[i].barcode != s.products[j].barcode
    {
      assert Covers(made, s.products[j]);
      var k :| 0 <= k < |made| && Copies(made[k], s.products[j]);
      assert all[i] == s.variants[i] && all[n + k] == made[k];
    }
  }

  /**
   A run succeeds exactly when the codes of the products without a variant are free and linking makes
   no two stock levels, and no two branch costs, the same.
   */
  lemma {:induction false} SucceedsIff(s: Shop)
    requires Valid(s)
    ensures Succeeds(s) <==>
              && CodesFree(s)
              && forall t :: 0 <= t < TABLES && Keyed(t) ==>
                   forall i, j :: 0 <= i < j < |s.tables[t]| ==>
                     !Collide(s.tables[t][i], s.tables[t][j], ShopLinks(s))
  {
    if CodesFree(s) {
      CodesFreeSuffices(s);
    }
    if SkusUnique(s.variants + ShopCreated(s)) && BarcodesUnique(s.variants + ShopCreated(s)) {
      CodesFreeNeeded(s);
    }
    var linked := LinkTables(s.tables, ShopLinks(s));
    forall t | 0 <= t < TABLES && Keyed(t)
      ensures RowsUnique(linked[t]) <==>
                forall i, j :: 0 <= i < j < |s.tables[t]| ==>
                  !Collide(s.tables[t][i], s.tables[t][j], ShopLinks(s))
    {
      TableKeepsUniqueIff(s.tables[t], ShopLinks(s));
    }
  }

  // ----- Under the present schema -----

  const PURCHASE_ORDER_LINES := 5

  /** The variant column is never null but in the purchase order lines. */
  ghost predicate VariantsRequired(s: Shop)
  {
    forall t, i :: 0 <= t < |s.tables| && t != PURCHASE_ORDER_LINES && 0 <= i < |s.tables[t]| ==>
      s.tables[t][i].variant.Some?
  }

  /** Then stock levels and branch costs are in nobody's way: the codes alone decide. */
  lemma {:induction false} RequiredSucceedsIff(s: Shop)
    requires Valid(s) && VariantsRequired(s)
    ensures Succeeds(s) <==> CodesFree(s)
  {
    SucceedsIff(s);
    forall t, i, j | 0 <= t < TABLES && Keyed(t) && 0 <= i < j < |s.tables[t]|
      ensures !Collide(s.tables[t][i], s.tables[t][j], ShopLinks(s))
    {
    }
  }

  /** A product without a variant, whose SKU another product's variant has taken. */
  function TakenSku(): Shop
  {
    Shop([Product(1, "a", None, "active"), Product(2, "b", None, "active")],
         [Variant(1, 2, "a", None, true)], seq(TABLES, _ => []), 2)
  }

  /** On such a shop, which meets every constraint, the backfill fails. */
  lemma {:induction false} BackfillCanFail()
    ensures Valid(TakenSku()) && VariantsRequired(TakenSku()) && !Succeeds(TakenSku())
  {
    var s := TakenSku();
    assert s.variants[..0] == [];
    assert Existing([]) == map[];
    assert Existing(s.variants) == map[2 := 1];
    assert Valid(s) by {
      assert s.products[0].sku != s.products[1].sku;
    }
    RequiredSucceedsIff(s);
    assert s.products[0].id !in Existing(s.variants) && s.variants[0].sku == s.products[0].sku;
  }

  /** One product with a variant, and one table with two rows of it, of which only one is linked. */
  function HalfLinked(t: nat): Shop
    requires t < TABLES
  {
    Shop([Product(1, "a", None, "active")], [Variant(1, 1, "a", None, true)],
         seq(TABLES, _ => [])[t := [Row(1, 1, None), Row(1, 1, Some(1))]], 2)
  }

  lemma {:induction false} HalfLinkedLinks(t: nat)
    requires t < TABLES
    ensures ShopLinks(HalfLinked(t)) == map[1 := 1] && CodesFree(HalfLinked(t))
  {
    var s := HalfLinked(t);
    assert s.variants[..0] == [] && Existing([]) == map[];
    assert Existing(s.variants) == map[1 := 1];
    assert s.products[..0] == [] && LinksFor([], Existing(s.variants), 2) == map[];
  }

  /** It is the second and the third table, the stock levels and the branch costs, that must not be so. */
  lemma {:induction false} HalfLinkedFailsIff(t: nat)
    requires t < TABLES
    ensures Valid(HalfLinked(t)) && (Succeeds(HalfLinked(t)) <==> t != 1 && t != 2)
  {
    var s := HalfLinked(t);
    HalfLinkedLinks(t);
    SucceedsIff(s);
    assert s.tables[t][0].variant.None? && s.tables[t][1] == Row(1, 1, Some(1));
    assert Collide(s.tables[t][0], s.tables[t][1], ShopLinks(s));
  }
}
