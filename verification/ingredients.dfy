/** The ranking pipeline of `GET /ingredients/:id/products`: every vendor
    listing of an ingredient gets its price per base unit, the listings are
    stably sorted by it, and every listing at the lowest price is flagged as
    a best price. */
module IngredientRanking {
  import opened Seqs
  import opened StableSort
  import opened UnitConversion

  /** A product row as the query returns it, joined with its vendor's name. */
  datatype Product = Product(
    id: int,
    vendorId: int,
    ingredientId: int,
    name: string,
    quantity: real,
    unit: string,
    price: real,
    vendorName: string)

  /** A product row with its price per base unit and that price's display. */
  datatype PricedProduct = Priced(product: Product, unitPrice: real, unitPriceDisplay: string)

  /** A priced row with its best-price flag. */
  datatype RankedProduct = Ranked(priced: PricedProduct, isBestPrice: bool)

  function UnitPriceOf(x: PricedProduct): real {
    x.unitPrice
  }

  /** The row of a product, priced in the ingredient's base unit. */
  function WithUnitPrice(baseUnit: string, p: Product): (r: PricedProduct)
    ensures r.product == p
  {
    var unitPrice := PricePerBaseUnit(p.price, p.quantity, p.unit, baseUnit);
    Priced(p, unitPrice, FormatUnitPrice(unitPrice, baseUnit))
  }

  /** Every row of `rows` priced in `baseUnit`, in query order. */
  function PriceAll(baseUnit: string, rows: seq<Product>): (r: seq<PricedProduct>)
    ensures |r| == |rows|
    ensures forall i :: 0 <= i < |rows| ==> r[i] == WithUnitPrice(baseUnit, rows[i])
  {
    Map(p => WithUnitPrice(baseUnit, p), rows)
  }

  /** Flags the rows of an ascending sequence whose price equals the first
      row's price. */
  function MarkBest(sorted: seq<PricedProduct>): (r: seq<RankedProduct>)
    ensures |r| == |sorted|
    ensures forall i :: 0 <= i < |r| ==> r[i].priced == sorted[i]
    ensures forall i :: 0 <= i < |r| ==>
      (r[i].isBestPrice <==> sorted[i].unitPrice == sorted[0].unitPrice)
  {
    if sorted == [] then []
    else
      var minPrice := sorted[0].unitPrice;
      Map((x: PricedProduct) => Ranked(x, x.unitPrice == minPrice), sorted)
  }

  /** Exactly the rows at the lowest unit price are flagged. */
  predicate FlagsMinimum(r: seq<RankedProduct>) {
    forall i :: 0 <= i < |r| ==>
      (r[i].isBestPrice <==> forall j :: 0 <= j < |r| ==> r[i].priced.unitPrice <= r[j].priced.unitPrice)
  }

  /** The priced rows of a ranking, flags dropped. */
  function Unrank(r: seq<RankedProduct>): (s: seq<PricedProduct>)
    ensures |s| == |r|
    ensures forall i :: 0 <= i < |r| ==> s[i] == r[i].priced
  {
    Map((x: RankedProduct) => x.priced, r)
  }

  /** The product rows of a ranking. */
  function Products(r: seq<RankedProduct>): (s: seq<Product>)
    ensures |s| == |r|
    ensures forall i :: 0 <= i < |r| ==> s[i] == r[i].priced.product
  {
    Map((x: RankedProduct) => x.priced.product, r)
  }

  /** The handler's response body for the rows of one ingredient, in the
      query's `ORDER BY p.price` order. */
  function RankProducts(baseUnit: string, rows: seq<Product>): (r: seq<RankedProduct>)
    ensures |r| == |rows|
    ensures multiset(Products(r)) == multiset(rows)
    ensures forall i :: 0 <= i < |r| ==> r[i].priced == WithUnitPrice(baseUnit, r[i].priced.product)
    ensures SortedBy(UnitPriceOf, Unrank(r))
    ensures SameOrderPerKey(UnitPriceOf, Unrank(r), PriceAll(baseUnit, rows))
    ensures FlagsMinimum(r)
    ensures |r| > 0 ==> r[0].isBestPrice
  {
    var sorted := Sort(UnitPriceOf, PriceAll(baseUnit, rows));
    RankingOrder(baseUnit, rows);
    BestIsMinimum(sorted);
    MarkBest(sorted)
  }

  /** The ranked rows are the priced input rows in stable ascending order. */
  lemma RankingOrder(baseUnit: string, rows: seq<Product>)
    ensures var r := MarkBest(Sort(UnitPriceOf, PriceAll(baseUnit, rows)));
      && multiset(Products(r)) == multiset(rows)
      && (forall i :: 0 <= i < |r| ==> r[i].priced == WithUnitPrice(baseUnit, r[i].priced.product))
      && SortedBy(UnitPriceOf, Unrank(r))
      && SameOrderPerKey(UnitPriceOf, Unrank(r), PriceAll(baseUnit, rows))
  {
    var priced := PriceAll(baseUnit, rows);
    var sorted := Sort(UnitPriceOf, priced);
    var r := MarkBest(sorted);
    assert Unrank(r) == sorted;
    SortIsStable(UnitPriceOf, priced);
    RankedRowsArePriced(baseUnit, rows, sorted);
    RankedProductsPermute(baseUnit, rows, r);
  }

  /** On an ascending sequence, the rows equal in price to the first are
      exactly the rows at the minimum price. */
  lemma BestIsMinimum(sorted: seq<PricedProduct>)
    requires SortedBy(UnitPriceOf, sorted)
    ensures FlagsMinimum(MarkBest(sorted))
    ensures sorted != [] ==> MarkBest(sorted)[0].isBestPrice
  {
    var r := MarkBest(sorted);
    forall i | 0 <= i < |sorted|
      ensures r[i].isBestPrice <==> forall j :: 0 <= j < |sorted| ==> sorted[i].unitPrice <= sorted[j].unitPrice
    {
      if r[i].isBestPrice {
        forall j | 0 <= j < |sorted|
          ensures sorted[i].unitPrice <= sorted[j].unitPrice
        {
          if j > 0 {
            assert UnitPriceOf(sorted[0]) <= UnitPriceOf(sorted[j]);
          }
        }
      } else {
        assert i > 0;
        assert UnitPriceOf(sorted[0]) <= UnitPriceOf(sorted[i]);
      }
    }
  }

  /** Every row of a rearrangement of the priced rows is a priced row. */
  lemma RankedRowsArePriced(baseUnit: string, rows: seq<Product>, sorted: seq<PricedProduct>)
    requires multiset(sorted) == multiset(PriceAll(baseUnit, rows))
    ensures forall i :: 0 <= i < |sorted| ==> sorted[i] == WithUnitPrice(baseUnit, sorted[i].product)
  {
    var priced := PriceAll(baseUnit, rows);
    forall i | 0 <= i < |sorted|
      ensures sorted[i] == WithUnitPrice(baseUnit, sorted[i].product)
    {
      assert sorted[i] in multiset(priced);
      var j :| 0 <= j < |priced| && priced[j] == sorted[i];
    }
  }

  /** The product rows of the ranking are the input rows, rearranged. */
  lemma RankedProductsPermute(baseUnit: string, rows: seq<Product>, r: seq<RankedProduct>)
    requires multiset(Unrank(r)) == multiset(PriceAll(baseUnit, rows))
    ensures multiset(Products(r)) == multiset(rows)
  {
    var product := (x: PricedProduct) => x.product;
    MapMultiset(product, Unrank(r), PriceAll(baseUnit, rows));
    assert Map(product, Unrank(r)) == Products(r);
    assert Map(product, PriceAll(baseUnit, rows)) == rows;
  }

  /** The ranking is the only stable ascending order of the priced rows:
      any sequence that is sorted by unit price and keeps the query order
      among equal prices is the ranking without its flags. */
  lemma RankingIsTheStableSort(baseUnit: string, rows: seq<Product>, s: seq<PricedProduct>)
    requires SortedBy(UnitPriceOf, s)
    requires SameOrderPerKey(UnitPriceOf, s, PriceAll(baseUnit, rows))
    ensures Unrank(RankProducts(baseUnit, rows)) == s
  {
    var r := Unrank(RankProducts(baseUnit, rows));
    StableSortIsSort(UnitPriceOf, PriceAll(baseUnit, rows), s);
    StableSortIsSort(UnitPriceOf, PriceAll(baseUnit, rows), r);
  }

  /** No rows, no ranking. */
  lemma RankEmpty(baseUnit: string)
    ensures RankProducts(baseUnit, []) == []
  {
  }
}
