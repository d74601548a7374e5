/**
 * The discounts the application registers at start-up (app/Providers/AppServiceProvider.php):
 * a quantity, a price and an authentication discount, each built with a code and no
 * provided code.
 */
module Boot {
  import opened Wrappers
  import opened Carts
  import opened Instants
  import opened Conditions
  import opened Calculators
  import opened Discounts
  import opened Factories
  import opened Services

  /** A discount of the start-up set: its code, and that it never applies. */
  ghost predicate NeverApplies(d: CompositeDiscount, code: string)
    reads d
  {
    d.Valid() && d.Code() == code && forall cart, user, now :: !d.IsApplicable(cart, user, now)
  }

  /** `boot()`: registers the three start-up discounts in order, none of which ever applies. */
  method RegisterStartupDiscounts(service: DefaultDiscountService)
    returns (quantity: CompositeDiscount, price: CompositeDiscount, auth: CompositeDiscount)
    requires service.Valid()
    modifies service
    ensures service.Valid()
    ensures service.keys == UpsertKey(UpsertKey(UpsertKey(old(service.keys), "quantity_discount"),
                                                "price_discount"), "auth_discount")
    ensures service.registry == old(service.registry)["quantity_discount" := quantity]
                                  ["price_discount" := price]["auth_discount" := auth]
    ensures quantity.calculator == NewPercentageCalculator(10.0) && quantity.combinable && quantity.priority == 100
    ensures price.calculator == NewFixedAmountCalculator(200.0) && price.combinable && price.priority == 110
    ensures auth.calculator == NewPercentageCalculator(20.0) && auth.combinable && auth.priority == 120
    ensures forall cart, user, now :: !quantity.IsApplicable(cart, user, now)
    ensures forall cart, user, now :: !price.IsApplicable(cart, user, now)
    ensures forall cart, user, now :: !auth.IsApplicable(cart, user, now)
  {
    quantity := QuantityDiscount();
    service.RegisterDiscount(quantity);
    price := PriceDiscount();
    service.RegisterDiscount(price);
    auth := AuthDiscount();
    service.RegisterDiscount(auth);
  }

  /** 10% off with three or more of product 2, combinable, priority 100. */
  method QuantityDiscount() returns (d: CompositeDiscount)
    ensures fresh(d) && NeverApplies(d, "quantity_discount")
    ensures d.calculator == NewPercentageCalculator(10.0) && d.combinable && d.priority == 100
  {
    var r := CreatePercentageDiscount("quantity_discount", 10.0, [ByProductId(2, 3)], true, None, 100);
    d := r.value;
    StartupCode("quantity_discount", [ByProductId(2, 3)]);
  }

  /** 200 (cents) off with product 3 in the cart, combinable, priority 110. */
  method PriceDiscount() returns (d: CompositeDiscount)
    ensures fresh(d) && NeverApplies(d, "price_discount")
    ensures d.calculator == NewFixedAmountCalculator(200.0) && d.combinable && d.priority == 110
  {
    var r := CreateFixedDiscount("price_discount", 200.0, [ByProductId(3, 1)], true, None, 110);
    d := r.value;
    StartupCode("price_discount", [ByProductId(3, 1)]);
  }

  /** 20% off with product 4 in the cart for an authenticated user, combinable, priority 120. */
  method AuthDiscount() returns (d: CompositeDiscount)
    ensures fresh(d) && NeverApplies(d, "auth_discount")
    ensures d.calculator == NewPercentageCalculator(20.0) && d.combinable && d.priority == 120
  {
    var r := CreatePercentageDiscount("auth_discount", 20.0, [ByProductId(4, 1), AuthenticatedUser], true, None, 120);
    d := r.value;
    StartupCode("auth_discount", [ByProductId(4, 1), AuthenticatedUser]);
  }

  /**
   * A truthy code over conditions without a code condition: the assembled list answers
   * that code and never holds.
   */
  lemma StartupCode(code: string, conditions: seq<Condition>)
    requires code != "" && code != "0"
    requires forall i :: 0 <= i < |conditions| ==> !conditions[i].DiscountCode?
    ensures AssembleConditions(conditions, code, None, None, None).Ok?
    ensures FirstCode(AssembleConditions(conditions, code, None, None, None).value) == Some(code)
    ensures forall cart, user, now :: !AllHold(AssembleConditions(conditions, code, None, None, None).value, cart, user, now)
  {
    AssembledCodeIsCode(conditions, code, None, None, None);
    forall cart, user, now
      ensures !AllHold(AssembleConditions(conditions, code, None, None, None).value, cart, user, now)
    {
      NoProvidedCodeNeverApplies(conditions, code, None, None, cart, user, now);
    }
  }
}
