/**
 * Discount calculators (app/Calculators): a fixed amount, a percentage of the
 * cart total, or any other calculator a caller supplies to the custom builder.
 */
module Calculators {
  import opened Money
  import opened Carts

  datatype Calculator =
    | FixedAmount(money: MoneyData)
    | Percentage(percentage: PercentageData)
      /** A caller-supplied `DiscountCalculator`, seen only through its `calculate`. */
    | Custom(compute: CartRows -> real)

  /** `new FixedAmountCalculator($amount, $currency)`; the currency defaults to USD. */
  function NewFixedAmountCalculator(amount: real, currency: string := DefaultCurrency): (c: Calculator)
    ensures c.FixedAmount? && c.money.amount == amount && c.money.currency == currency
  {
    FixedAmount(MoneyData(amount, currency))
  }

  /** `new PercentageCalculator($percent)`. */
  function NewPercentageCalculator(percent: real): (c: Calculator)
    ensures c.Percentage? && c.percentage.value == percent
  {
    Percentage(PercentageData(percent))
  }

  /** `calculate($cart)`. */
  function Calculate(c: Calculator, cart: CartRows): (amount: real)
    ensures c.FixedAmount? ==> amount == c.money.amount
    ensures c.Percentage? ==> amount == Subtotal(cart) * c.percentage.value / 100.0
    ensures c.Custom? ==> amount == c.compute(cart)
  {
    match c
    case FixedAmount(money) => money.amount
    case Percentage(p) => Subtotal(cart) * AsDecimal(p)
    case Custom(compute) => compute(cart)
  }

  /** A fixed calculator returns its constructor amount whatever the cart and the currency. */
  lemma FixedAmountIgnoresCart(amount: real, currency: string, cart: CartRows)
    ensures Calculate(NewFixedAmountCalculator(amount, currency), cart) == amount
    ensures Calculate(NewFixedAmountCalculator(amount), cart) == amount
  {
  }

  /** A percentage of zero gives nothing; a percentage of one hundred gives the whole total. */
  lemma PercentageEnds(cart: CartRows)
    ensures Calculate(NewPercentageCalculator(0.0), cart) == 0.0
    ensures Calculate(NewPercentageCalculator(100.0), cart) == Subtotal(cart)
  {
  }

  /** With the annotated range 0..100 and a non-negative total the discount lies between 0 and the total. */
  lemma PercentageWithinTotal(percent: real, cart: CartRows)
    requires 0.0 <= percent <= 100.0
    requires Subtotal(cart) >= 0.0
    ensures 0.0 <= Calculate(NewPercentageCalculator(percent), cart) <= Subtotal(cart)
  {
    var t := Subtotal(cart);
    var d := AsDecimal(PercentageData(percent));
    assert 0.0 <= d <= 1.0;
    assert t * d <= t * 1.0 by {
      assert t * (1.0 - d) >= 0.0;
    }
  }

  /** For a fixed non-negative percentage, a larger total never gives a smaller discount. */
  lemma PercentageMonotone(percent: real, cart1: CartRows, cart2: CartRows)
    requires percent >= 0.0
    requires Subtotal(cart1) <= Subtotal(cart2)
    ensures Calculate(NewPercentageCalculator(percent), cart1) <= Calculate(NewPercentageCalculator(percent), cart2)
  {
    var d := AsDecimal(PercentageData(percent));
    ScaleMonotone(Subtotal(cart1), Subtotal(cart2), d,
                  Calculate(NewPercentageCalculator(percent), cart1), Calculate(NewPercentageCalculator(percent), cart2));
  }

  /** Scaling by a non-negative factor keeps the order. */
  lemma ScaleMonotone(x: real, y: real, k: real, xk: real, yk: real)
    requires x <= y && 0.0 <= k && xk == x * k && yk == y * k
    ensures xk <= yk
  {
    assert (y - x) * k >= 0.0;
  }

  /** Fixed and percentage calculators see the cart only through its total. */
  lemma CalculateThroughTotal(c: Calculator, cart1: CartRows, cart2: CartRows)
    requires !c.Custom?
    requires Subtotal(cart1) == Subtotal(cart2)
    ensures Calculate(c, cart1) == Calculate(c, cart2)
  {
  }
}
