/** The price-change column of the product comparison table: the lowest
    unit price of the group, the next price after it, and for each row the
    "best by N%" or "N% above best" figures. */
module ProductComparison {
  import opened Wrappers
  import opened Seqs
  import opened StableSort
  import opened Numerals
  import IngredientRanking

  /** A row of the table: the fields the price-change column and the
      searches read. An absent `isBestPrice` reads as `false`. */
  datatype ProductRow = ProductRow(id: int, name: string, vendorName: Option<string>, unitPrice: real, isBestPrice: bool)

  /** The figures shown for one row. */
  datatype PriceChange = PriceChange(primary: string, secondary: string, isBest: bool)

  function PriceOf(x: ProductRow): real {
    x.unitPrice
  }

  /** Rows priced strictly below `v`. */
  function Below(v: real): ProductRow -> bool {
    (x: ProductRow) => x.unitPrice < v
  }

  /** Rows priced at most `v`. */
  function AtMost(v: real): ProductRow -> bool {
    (x: ProductRow) => x.unitPrice <= v
  }

  /** `Math.min` over the unit prices of a non-empty list. */
  function MinUnitPrice(s: seq<ProductRow>): (m: real)
    requires |s| > 0
    ensures forall i :: 0 <= i < |s| ==> m <= s[i].unitPrice
    ensures exists i :: 0 <= i < |s| && m == s[i].unitPrice
  {
    if |s| == 1 then s[0].unitPrice
    else
      var m := MinUnitPrice(s[1..]);
      assert forall i :: 1 <= i < |s| ==> s[i] == s[1..][i - 1];
      if s[0].unitPrice <= m then s[0].unitPrice else m
  }

  /** `bestUnitPrice`: the lowest unit price, or 0 for no rows. */
  function BestUnitPrice(products: seq<ProductRow>): (b: real)
    ensures products == [] ==> b == 0.0
    ensures products != [] ==> forall i :: 0 <= i < |products| ==> b <= products[i].unitPrice
    ensures products != [] ==> exists i :: 0 <= i < |products| && b == products[i].unitPrice
  {
    if |products| > 0 then MinUnitPrice(products) else 0.0
  }

  /** `sortedByPrice`: a copy of the rows in ascending unit price, stable. */
  function SortedByPrice(products: seq<ProductRow>): (r: seq<ProductRow>)
    ensures SortedBy(PriceOf, r)
    ensures multiset(r) == multiset(products)
    ensures SameOrderPerKey(PriceOf, r, products)
  {
    SortIsStable(PriceOf, products);
    Sort(PriceOf, products)
  }

  /** `nextPriceAfterBest`: the unit price second in ascending order, absent
      for fewer than two rows. */
  function NextPriceAfterBest(products: seq<ProductRow>): (r: Option<real>)
    ensures r.Some? <==> |products| >= 2
    ensures r.Some? ==> exists i :: 0 <= i < |products| && r.value == products[i].unitPrice
    ensures r.Some? ==> BestUnitPrice(products) <= r.value
  {
    var sorted := SortedByPrice(products);
    if |sorted| >= 2 then
      assert sorted[1] in multiset(products);
      Some(sorted[1].unitPrice)
    else None
  }

  /** `v` is the second-lowest unit price counting repeats: at most one row
      is cheaper, and at least two rows cost no more. */
  predicate SecondLowest(products: seq<ProductRow>, v: real) {
    |Filter(Below(v), products)| <= 1 && |Filter(AtMost(v), products)| >= 2
  }

  /** The next price after the best is the second-lowest price. */
  lemma NextIsSecondLowest(products: seq<ProductRow>)
    requires |products| >= 2
    ensures SecondLowest(products, NextPriceAfterBest(products).value)
  {
    var sorted := SortedByPrice(products);
    var v := sorted[1].unitPrice;
    FilterCountPermutation(Below(v), sorted, products);
    FilterCountPermutation(AtMost(v), sorted, products);
    assert PriceOf(sorted[0]) <= PriceOf(sorted[1]);
    FilterCountTwo(AtMost(v), sorted, 0, 1);
    forall i | 0 <= i < |sorted[1..]|
      ensures !Below(v)(sorted[1..][i])
    {
      assert PriceOf(sorted[1]) <= PriceOf(sorted[i + 1]);
    }
    FilterNone(Below(v), sorted[1..]);
  }

  /** At most one value is the second-lowest price. */
  lemma SecondLowestUnique(products: seq<ProductRow>, v: real, w: real)
    requires SecondLowest(products, v) && SecondLowest(products, w)
    ensures v == w
  {
    if v < w {
      FilterCountMonotone(AtMost(v), Below(w), products);
    } else if w < v {
      FilterCountMonotone(AtMost(w), Below(v), products);
    }
  }

  /** A part no larger than a positive whole is at most all of it. */
  lemma ShareAtMostOne(part: real, whole: real)
    requires whole > 0.0 && part <= whole
    ensures part / whole <= 1.0
  {
    var q := part / whole;
    assert q * whole == part;
    assert (q - 1.0) * whole == part - whole;
  }

  /** `Math.round((next - best) / next * 100)`: how much cheaper the best row
      is than the next one, in percent. */
  function PercentBetter(next: real, best: real): (p: int)
    requires next > 0.0
    ensures p as real - 0.5 <= (next - best) / next * 100.0 < p as real + 0.5
    ensures best <= next ==> p >= 0
    ensures 0.0 <= best <= next ==> p <= 100
    ensures best == next ==> p == 0
  {
    var x := (next - best) / next * 100.0;
    assert best <= next ==> x >= 0.0;
    assert 0.0 <= best <= next ==> x <= 100.0 by {
      if 0.0 <= best <= next {
        ShareAtMostOne(next - best, next);
      }
    }
    Round(x)
  }

  /** `Math.round((price - best) / best * 100)`: how much dearer a row is
      than the best, in percent. */
  function PercentAbove(price: real, best: real): (p: int)
    requires best > 0.0
    ensures p as real - 0.5 <= (price - best) / best * 100.0 < p as real + 0.5
    ensures best <= price ==> p >= 0
    ensures price == best ==> p == 0
  {
    var x := (price - best) / best * 100.0;
    assert best <= price ==> x >= 0.0;
    Round(x)
  }

  /** The label pair of a best row. */
  function BestLabels(p: int): PriceChange {
    PriceChange("Best by " + IntToString(p) + "%", IntToString(p) + "% decrease", true)
  }

  /** The label pair of a row above the best. */
  function AboveLabels(p: int): PriceChange {
    PriceChange(IntToString(p) + "% above best", IntToString(p) + "% increase", false)
  }

  /** `getPriceChange(row)` for a row of the table `products`. */
  function GetPriceChange(products: seq<ProductRow>, row: ProductRow): (r: Option<PriceChange>)
    ensures row.unitPrice <= 0.0 ==> r == None
    ensures r.Some? <==>
      (row.unitPrice > 0.0 &&
       ((row.isBestPrice && |products| >= 2 && NextPriceAfterBest(products).value > 0.0)
        || (!row.isBestPrice && BestUnitPrice(products) > 0.0)))
    ensures r.Some? ==> r.value.isBest == row.isBestPrice
    ensures r.Some? && r.value.isBest ==>
      r.value == BestLabels(PercentBetter(NextPriceAfterBest(products).value, BestUnitPrice(products)))
    ensures r.Some? && !r.value.isBest ==>
      r.value == AboveLabels(PercentAbove(row.unitPrice, BestUnitPrice(products)))
  {
    var best := BestUnitPrice(products);
    var next := NextPriceAfterBest(products);
    if row.unitPrice <= 0.0 then None
    else if row.isBestPrice && next.Some? && next.value > 0.0 then
      var p := PercentBetter(next.value, best);
      assert (forall i :: 0 <= i < |products| ==> products[i].unitPrice >= 0.0) ==> best >= 0.0;
      Some(BestLabels(p))
    else if !row.isBestPrice && best > 0.0 then
      var p := PercentAbove(row.unitPrice, best);
      Some(AboveLabels(p))
    else None
  }

  /** The percentage a best row shows lies between 0 and 100 when no price
      is negative, and a row of the table above the best never shows a
      negative one. */
  lemma LabelPercentInRange(products: seq<ProductRow>, row: ProductRow)
    requires GetPriceChange(products, row).Some?
    ensures var r := GetPriceChange(products, row).value;
      && (r.isBest ==>
            exists p :: (r == BestLabels(p) && p >= 0 &&
              ((forall i :: 0 <= i < |products| ==> products[i].unitPrice >= 0.0) ==> p <= 100)))
      && (!r.isBest ==> exists p :: (r == AboveLabels(p) && (row in products ==> p >= 0)))
  {
  }

  /** The label pair carries one percentage, readable back from either
      string. */
  lemma LabelsAgree(p: int)
    ensures ParseInt(BestLabels(p).primary[8..|BestLabels(p).primary| - 1]) == p
    ensures ParseInt(BestLabels(p).secondary[..|BestLabels(p).secondary| - 10]) == p
    ensures ParseInt(AboveLabels(p).primary[..|AboveLabels(p).primary| - 12]) == p
    ensures ParseInt(AboveLabels(p).secondary[..|AboveLabels(p).secondary| - 10]) == p
  {
    var n := IntToString(p);
    IntToStringRoundTrip(p);
    assert BestLabels(p).primary[8..|BestLabels(p).primary| - 1] == n;
    assert BestLabels(p).secondary[..|BestLabels(p).secondary| - 10] == n;
    assert AboveLabels(p).primary[..|AboveLabels(p).primary| - 12] == n;
    assert AboveLabels(p).secondary[..|AboveLabels(p).secondary| - 10] == n;
  }

  /** When two rows tie at the lowest price, a best row is "Best by 0%". */
  lemma TiedBestIsZero(products: seq<ProductRow>, row: ProductRow, i: nat, j: nat)
    requires i < |products| && j < |products| && i != j
    requires products[i].unitPrice == BestUnitPrice(products) == products[j].unitPrice
    requires row.isBestPrice && row.unitPrice > 0.0 && BestUnitPrice(products) > 0.0
    ensures GetPriceChange(products, row) == Some(BestLabels(0))
  {
    var best := BestUnitPrice(products);
    TiedBestIsSecondLowest(products, i, j);
    NextIsSecondLowest(products);
    SecondLowestUnique(products, NextPriceAfterBest(products).value, best);
    assert PercentBetter(best, best) == 0;
  }

  /** Two rows at the lowest price make it the second-lowest price too. */
  lemma TiedBestIsSecondLowest(products: seq<ProductRow>, i: nat, j: nat)
    requires i < |products| && j < |products| && i != j
    requires products[i].unitPrice == BestUnitPrice(products) == products[j].unitPrice
    ensures SecondLowest(products, BestUnitPrice(products))
  {
    var best := BestUnitPrice(products);
    FilterCountTwo(AtMost(best), products, i, j);
    FilterNone(Below(best), products);
  }

  /** The row the table shows for a ranked server row. */
  function ToRow(r: IngredientRanking.RankedProduct): ProductRow {
    ProductRow(r.priced.product.id, r.priced.product.name, Some(r.priced.product.vendorName),
               r.priced.unitPrice, r.isBestPrice)
  }

  /** On the rows the server ranks, the server's best-price flag and the
      table's lowest price agree: a row is flagged exactly when its unit
      price is the table's best unit price. */
  lemma ServerFlagsMatchBest(baseUnit: string, rows: seq<IngredientRanking.Product>)
    ensures var table := Map(ToRow, IngredientRanking.RankProducts(baseUnit, rows));
      forall i :: 0 <= i < |table| ==>
        (table[i].isBestPrice <==> table[i].unitPrice == BestUnitPrice(table))
  {
    var ranked := IngredientRanking.RankProducts(baseUnit, rows);
    FlagsAgainstMinimum(ranked, Map(ToRow, ranked));
  }

  /** Rows flagged exactly at the minimum price keep their flags, and that
      minimum is the table's best unit price. */
  lemma FlagsAgainstMinimum(ranked: seq<IngredientRanking.RankedProduct>, table: seq<ProductRow>)
    requires |table| == |ranked|
    requires forall i :: 0 <= i < |ranked| ==>
      table[i].isBestPrice == ranked[i].isBestPrice && table[i].unitPrice == ranked[i].priced.unitPrice
    requires forall i :: 0 <= i < |ranked| ==>
      (ranked[i].isBestPrice <==> forall j :: 0 <= j < |ranked| ==> ranked[i].priced.unitPrice <= ranked[j].priced.unitPrice)
    ensures forall i :: 0 <= i < |table| ==>
      (table[i].isBestPrice <==> table[i].unitPrice == BestUnitPrice(table))
  {
    if table != [] {
      var b := BestUnitPrice(table);
      var k :| 0 <= k < |table| && b == table[k].unitPrice;
      forall i | 0 <= i < |table|
        ensures table[i].isBestPrice <==> table[i].unitPrice == b
      {
        if table[i].unitPrice == b {
          assert forall j :: 0 <= j < |ranked| ==> ranked[i].priced.unitPrice <= ranked[j].priced.unitPrice;
        } else {
          assert ranked[k].priced.unitPrice < ranked[i].priced.unitPrice;
        }
      }
    }
  }
}
