/** The order lines the client assembles for an order it has not sent yet:
    one line per chosen product, priced by its quantity, and the sum of the
    lines. */
module OrderLines {
  import opened Seqs

  /** What a catalogue product, a regular and a price-change product have
      in common for building a line. */
  datatype Listing = Listing(productName: string, unit: string, unitPrice: real)

  /** A line of a draft order. */
  datatype LineItem = LineItem(productName: string, quantity: real, unit: string, unitPrice: real, lineTotal: real)

  /** `toLineItem(p, quantity)`: the product's name, unit and price, the
      given quantity, and the quantity times the price as the line total. */
  function ToLineItem(p: Listing, quantity: real): (l: LineItem)
    ensures l.productName == p.productName && l.unit == p.unit && l.unitPrice == p.unitPrice
    ensures l.quantity == quantity
    ensures l.lineTotal == l.quantity * l.unitPrice
    ensures quantity >= 0.0 && p.unitPrice >= 0.0 ==> l.lineTotal >= 0.0
    ensures quantity == 1.0 ==> l.lineTotal == p.unitPrice
  {
    LineItem(p.productName, quantity, p.unit, p.unitPrice, quantity * p.unitPrice)
  }

  /** `toLineItem(p, 1)`, the only call the modals make. */
  function Single(p: Listing): LineItem {
    ToLineItem(p, 1.0)
  }

  /** `lines.reduce((sum, line) => sum + line.lineTotal, 0)`. */
  function Total(lines: seq<LineItem>): (t: real)
    ensures (forall i :: 0 <= i < |lines| ==> lines[i].lineTotal >= 0.0) ==> t >= 0.0
  {
    if lines == [] then 0.0 else Total(lines[..|lines| - 1]) + lines[|lines| - 1].lineTotal
  }

  /** The total of two runs of lines is the sum of their totals. */
  lemma {:induction false} TotalConcat(a: seq<LineItem>, b: seq<LineItem>)
    ensures Total(a + b) == Total(a) + Total(b)
    decreases |b|
  {
    if b == [] {
      assert a + b == a;
    } else {
      var b' := b[..|b| - 1];
      assert (a + b)[..|a + b| - 1] == a + b';
      assert (a + b)[|a + b| - 1] == b[|b| - 1];
      TotalConcat(a, b');
    }
  }

  /** The sum of the listed prices. */
  function PriceSum(ps: seq<Listing>): real {
    if ps == [] then 0.0 else PriceSum(ps[..|ps| - 1]) + ps[|ps| - 1].unitPrice
  }

  /** Lines of quantity one total the listed prices. */
  lemma {:induction false} TotalOfSingles(ps: seq<Listing>)
    ensures Total(Map(Single, ps)) == PriceSum(ps)
  {
    if ps != [] {
      var init := ps[..|ps| - 1];
      TotalOfSingles(init);
      assert Map(Single, ps)[..|ps| - 1] == Map(Single, init);
    }
  }
}
