/** The unit converter of the server: a fixed table of conversion factors
    and the price of a vendor listing per ingredient base unit. */
module UnitConversion {
  import opened Wrappers
  import opened Strings
  import opened Numerals

  /** The units that key the conversion table. */
  datatype Unit = Each | Dozen | Lb | Oz | Carton | Case

  /** The table key of a unit. */
  function UnitName(u: Unit): string {
    match u
    case Each => "each"
    case Dozen => "dozen"
    case Lb => "lb"
    case Oz => "oz"
    case Carton => "carton"
    case Case => "case"
  }

  /** The table key a (normalized) unit text is, if any. */
  function KnownUnit(s: string): Option<Unit> {
    if s == "each" then Some(Each)
    else if s == "dozen" then Some(Dozen)
    else if s == "lb" then Some(Lb)
    else if s == "oz" then Some(Oz)
    else if s == "carton" then Some(Carton)
    else if s == "case" then Some(Case)
    else None
  }

  /** A unit text is a table key exactly when it names a unit, and it is
      read back as that unit. */
  lemma KnownUnitNames(s: string)
    ensures KnownUnit(s).Some? ==> UnitName(KnownUnit(s).value) == s
    ensures KnownUnit(s).None? ==> forall u :: UnitName(u) != s
    ensures forall u :: KnownUnit(UnitName(u)) == Some(u)
  {
  }

  /** `CONVERSIONS[from][to]`, the factor `f` meant to satisfy "quantity in
      `to` = quantity in `from` * f". The table is sparse and asymmetric. It
      is reproduced as written, including the weight entries, which state
      the reciprocal of the real ratio: one pound is sixteen ounces, yet
      `lb -> oz` is `1/16`. */
  function Entry(from: Unit, to: Unit): Option<real> {
    match (from, to)
    case (Each, Each) => Some(1.0)
    case (Each, Dozen) => Some(1.0 / 12.0)
    case (Dozen, Each) => Some(12.0)
    case (Dozen, Dozen) => Some(1.0)
    case (Lb, Lb) => Some(1.0)
    case (Lb, Oz) => Some(1.0 / 16.0)
    case (Oz, Lb) => Some(16.0)
    case (Oz, Oz) => Some(1.0)
    case (Carton, Each) => Some(1.0)
    case (Carton, Dozen) => Some(1.0 / 12.0)
    case (Case, Each) => Some(1.0)
    case _ => None
  }

  /** `CONVERSIONS[from]?.[to]` for unit texts: the entry when both texts
      are table keys and the table lists the pair. */
  function Conversion(from: string, to: string): (r: Option<real>)
    ensures r.Some? ==> r.value > 0.0
  {
    match (KnownUnit(from), KnownUnit(to))
    case (Some(a), Some(b)) => Entry(a, b)
    case _ => None
  }

  /** Where the table lists both directions of a pair, they are
      reciprocal. */
  lemma EntriesReciprocal(a: Unit, b: Unit)
    requires Entry(a, b).Some? && Entry(b, a).Some?
    ensures Entry(a, b).value * Entry(b, a).value == 1.0
  {
  }

  /** Units are compared lower-cased and trimmed. */
  function NormalizeUnit(u: string): (r: string)
    ensures IsTrimmed(r) && LowerCased(r)
  {
    Trim(Lower(u))
  }

  /** A normalized unit normalizes to itself. */
  lemma NormalizeIdempotent(u: string)
    ensures NormalizeUnit(NormalizeUnit(u)) == NormalizeUnit(u)
  {
    LowerTrimIdempotent(u);
  }

  /** The factor from `from` to `to` (both normalized): the direct entry
      when there is one, else the reciprocal of the reverse entry, else 1. */
  function Factor(from: string, to: string): (f: real)
    ensures f > 0.0
    ensures Conversion(from, to).Some? ==> f == Conversion(from, to).value
    ensures Conversion(from, to).None? && Conversion(to, from).Some? ==> f * Conversion(to, from).value == 1.0
    ensures Conversion(from, to).None? && Conversion(to, from).None? ==> f == 1.0
  {
    match Conversion(from, to)
    case Some(f) => f
    case None =>
      match Conversion(to, from)
      case Some(g) => 1.0 / g
      case None => 1.0
  }

  /** Every pair of units converts back and forth to the identity: where
      both directions are in the table they are reciprocal. */
  lemma FactorReciprocal(a: string, b: string)
    ensures Factor(a, b) * Factor(b, a) == 1.0
  {
    if Conversion(a, b).Some? && Conversion(b, a).Some? {
      EntriesReciprocal(KnownUnit(a).value, KnownUnit(b).value);
    }
  }

  /** `d !== 0 ? p / d : 0`, the guard in front of each division. */
  function GuardedDiv(p: real, d: real): (r: real)
    ensures d != 0.0 ==> r * d == p
    ensures d == 0.0 ==> r == 0.0
    ensures p >= 0.0 && d >= 0.0 ==> r >= 0.0
  {
    if d != 0.0 then p / d else 0.0
  }

  /** The factor by which the quantity is scaled between two normalized
      units: 1 when they agree, else the table factor. */
  function UnitFactor(u: string, b: string): (f: real)
    ensures f > 0.0
    ensures u == b ==> f == 1.0
    ensures u != b ==> f == Factor(u, b)
  {
    if u == b then 1.0 else Factor(u, b)
  }

  /** The computation of `pricePerBaseUnit` once both units are normalized:
      the price divided by the quantity expressed in the base unit, so that
      multiplied back by that quantity it gives the price. */
  function PricePerNormalizedUnit(price: real, quantity: real, u: string, b: string): (r: real)
    ensures quantity == 0.0 ==> r == 0.0
    ensures quantity != 0.0 ==> r * (quantity * UnitFactor(u, b)) == price
    ensures price >= 0.0 && quantity >= 0.0 ==> r >= 0.0
  {
    if u == b then
      PriceAtFactor(price, quantity, 1.0)
    else
      PriceAtFactor(price, quantity, Factor(u, b))
  }

  /** `quantityInBaseUnit !== 0 ? price / quantityInBaseUnit : 0` for the
      quantity scaled by a positive factor `f`. */
  function PriceAtFactor(price: real, quantity: real, f: real): (r: real)
    requires f > 0.0
    ensures quantity == 0.0 ==> r == 0.0
    ensures quantity != 0.0 ==> r * (quantity * f) == price
    ensures price >= 0.0 && quantity >= 0.0 ==> r >= 0.0
  {
    DivideByScaled(price, quantity, f);
    GuardedDiv(price, quantity * f)
  }

  /** Dividing by a quantity scaled by a positive factor. */
  lemma DivideByScaled(price: real, quantity: real, f: real)
    requires f > 0.0
    ensures var r := GuardedDiv(price, quantity * f);
      && (quantity == 0.0 ==> r == 0.0)
      && (quantity != 0.0 ==> r * (quantity * f) == price)
      && (price >= 0.0 && quantity >= 0.0 ==> r >= 0.0)
  {
    ScaledQuantity(quantity, f);
  }

  /** `pricePerBaseUnit(price, quantity, productUnit, baseUnit)`: units are
      compared lower-cased and trimmed, and every division is guarded, so a
      quantity of zero in the base unit gives 0. */
  function PricePerBaseUnit(price: real, quantity: real, productUnit: string, baseUnit: string): (r: real)
    ensures quantity == 0.0 ==> r == 0.0
    ensures price >= 0.0 && quantity >= 0.0 ==> r >= 0.0
  {
    PricePerNormalizedUnit(price, quantity, NormalizeUnit(productUnit), NormalizeUnit(baseUnit))
  }

  /** Scaling by a positive factor keeps a quantity's sign and zeroness. */
  lemma ScaledQuantity(quantity: real, f: real)
    requires f > 0.0
    ensures quantity * f == 0.0 <==> quantity == 0.0
    ensures quantity >= 0.0 ==> quantity * f >= 0.0
  {
    if quantity > 0.0 {
      assert quantity * f > 0.0;
    } else if quantity < 0.0 {
      assert quantity * f < 0.0;
    }
  }

  /** Matching units divide the price by the quantity, or give 0 for a zero
      quantity. */
  lemma SameUnitIsPlainDivision(price: real, quantity: real, productUnit: string, baseUnit: string)
    requires NormalizeUnit(productUnit) == NormalizeUnit(baseUnit)
    ensures PricePerBaseUnit(price, quantity, productUnit, baseUnit)
         == if quantity != 0.0 then price / quantity else 0.0
  {
  }

  /** A pair in neither direction of the table converts 1:1. */
  lemma UnknownPairIsPlainDivision(price: real, quantity: real, productUnit: string, baseUnit: string)
    requires Conversion(NormalizeUnit(productUnit), NormalizeUnit(baseUnit)).None?
    requires Conversion(NormalizeUnit(baseUnit), NormalizeUnit(productUnit)).None?
    ensures PricePerBaseUnit(price, quantity, productUnit, baseUnit)
         == if quantity != 0.0 then price / quantity else 0.0
  {
    var u, b := NormalizeUnit(productUnit), NormalizeUnit(baseUnit);
    assert UnitFactor(u, b) == 1.0;
    assert quantity * 1.0 == quantity;
  }

  /** Units that differ only in case and surrounding whitespace give the
      same price: the result depends on the normalized units alone. */
  lemma NormalizationInvariant(price: real, quantity: real, productUnit: string, baseUnit: string)
    ensures PricePerBaseUnit(price, quantity, NormalizeUnit(productUnit), NormalizeUnit(baseUnit))
         == PricePerBaseUnit(price, quantity, productUnit, baseUnit)
  {
    NormalizeIdempotent(productUnit);
    NormalizeIdempotent(baseUnit);
  }

  /** Twelve eggs sold "each" for 3.99 cost 3.99 per dozen. */
  lemma EachToDozenExample()
    ensures PricePerBaseUnit(3.99, 12.0, "each", "dozen") == 3.99
  {
    NormalizesToItself("each");
    NormalizesToItself("dozen");
    EachToDozenFactor();
    assert 12.0 * (1.0 / 12.0) == 1.0;
  }

  /** One "each" is a twelfth of a dozen. */
  lemma EachToDozenFactor()
    ensures UnitFactor("each", "dozen") == 1.0 / 12.0
  {
    assert KnownUnit("each") == Some(Each) && KnownUnit("dozen") == Some(Dozen);
  }

  lemma NormalizesToItself(u: string)
    requires IsTrimmed(u) && LowerCased(u)
    ensures NormalizeUnit(u) == u
  {
    LowerOfLowerCased(u);
    TrimOfTrimmed(u);
  }

  /** `formatUnitPrice(value, baseUnit)`: a dollar sign, the value to two
      decimals, a slash and the base unit exactly as stored. */
  function FormatUnitPrice(value: real, baseUnit: string): (r: string)
    ensures |r| >= 6 + |baseUnit| && r[0] == '$'
    ensures r[|r| - |baseUnit| - 1..] == "/" + baseUnit
    ensures ParseFixed2(r[1..|r| - |baseUnit| - 1]) == Cents(value)
  {
    ToFixed2Parses(value);
    var f := ToFixed2(value);
    Framed(f, baseUnit);
    "$" + f + "/" + baseUnit
  }

  /** The pieces of `"$" + f + "/" + unit` can be read back by position. */
  lemma Framed(f: string, unit: string)
    ensures var r := "$" + f + "/" + unit;
      && |r| == |f| + |unit| + 2 && r[0] == '$'
      && r[|r| - |unit| - 1..] == "/" + unit
      && r[1..|r| - |unit| - 1] == f
  {
    var r := "$" + f + "/" + unit;
    assert r == "$" + (f + ("/" + unit));
    assert r[1..] == f + ("/" + unit);
  }
}
