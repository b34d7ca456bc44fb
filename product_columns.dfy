/** The products table's cells (app/dashboard/products/columns.tsx): the price with its
    discount, the stock colour and the brand. */
module ProductColumns {
  import opened Wrappers
  import OrderDetails

  /** `row.original.discount || 0`: a missing or zero discount is no discount. */
  function EffectiveDiscount(discount: Option<int>): (d: int)
    ensures discount.None? ==> d == 0
    ensures discount.Some? ==> d == discount.value
  {
    discount.GetOr(0)
  }

  /** Line 153: `discount > 0 ? price * (1 - discount / 100) : price`. */
  function FinalPrice(price: int, discount: Option<int>): (r: real)
    ensures EffectiveDiscount(discount) <= 0 ==> r == price as real
    ensures EffectiveDiscount(discount) > 0 ==> r == (price * (100 - EffectiveDiscount(discount))) as real / 100.0
  {
    var d := EffectiveDiscount(discount);
    if d > 0 then price as real * (1.0 - d as real / 100.0) else price as real
  }

  /** Lines 157-169: the struck-through price and the `-d%` tag are shown together, exactly for a
      positive discount. */
  predicate ShowsDiscount(discount: Option<int>) {
    EffectiveDiscount(discount) > 0
  }

  /** A discount in [0, 100] never raises the price, and leaves it unchanged exactly when the
      discount is not positive or the price is 0. */
  lemma FinalPriceBounds(price: nat, discount: Option<int>)
    requires EffectiveDiscount(discount) <= 100
    ensures 0.0 <= FinalPrice(price, discount) <= price as real
    ensures FinalPrice(price, discount) == price as real <==> !ShowsDiscount(discount) || price == 0
  {
    var d := EffectiveDiscount(discount);
    if d > 0 {
      var n := price * (100 - d);
      assert n == price * 100 - price * d;
      assert 0 <= n <= price * 100;
      assert n == price * 100 <==> price == 0 by {
        if price > 0 {
          assert price * d >= 1;
        }
      }
      assert (n as real) <= (price * 100) as real;
      assert FinalPrice(price, discount) == n as real / 100.0;
    }
  }

  /** The order dialog's rounded unit price is this cell's final price to the nearest FCFA. */
  lemma RoundedFinalPrice(price: nat, d: int)
    requires 0 < d <= 100
    ensures var u := OrderDetails.UnitPrice(price, d) as real;
      u - 0.5 <= FinalPrice(price, Some(d)) < u + 0.5
  {
    var n := price * (100 - d);
    var u := OrderDetails.UnitPrice(price, d);
    assert 200 * u <= 2 * n + 100 < 200 * u + 200;
    assert (200 * u) as real <= (2 * n + 100) as real < (200 * u + 200) as real;
  }

  datatype StockColour = Red | Yellow | Green

  /** Line 202: 0 is red, under 10 yellow, otherwise green. */
  function StockBand(stock: int): (c: StockColour)
    ensures c == Red <==> stock == 0
    ensures c == Yellow <==> stock != 0 && stock < 10
    ensures c == Green <==> stock >= 10
  {
    if stock == 0 then Red else if stock < 10 then Yellow else Green
  }

  /** On a stored product (stock at least 0) the bands are 0, 1 to 9, and 10 or more. */
  lemma StockBandsOfValidStock(stock: nat)
    ensures StockBand(stock) == Yellow <==> 1 <= stock <= 9
  {
  }

  /** Line 183: `brand || "-"`. */
  function BrandCell(brand: Option<string>): (r: string)
    ensures brand.None? || brand == Some("") ==> r == "-"
    ensures brand.Some? && brand.value != "" ==> r == brand.value
    ensures r != ""
  {
    if brand.Some? && brand.value != "" then brand.value else "-"
  }
}
