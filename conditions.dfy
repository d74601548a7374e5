/**
 * Discount conditions (the classes under app/Conditions): pure predicates over a cart, an
 * optional user and the current instant. Every condition class is one variant
 * of `Condition`, and `Eval` is their common `isSatisfied`. The date-range
 * condition is brought under the same two-argument contract, with the instant
 * passed in explicitly.
 */
module Conditions {
  import opened Wrappers
  import opened Php
  import opened Errors
  import opened Carts
  import opened Instants

  /** The user: `None` when there is none, `Some(a)` for a user whose `isAuthenticated()` is `a`. */
  type User = Option<bool>

  datatype Condition =
    | ByProductId(productId: ProductId, minQuantity: int := 1)
    | MultipleProducts(requiredProducts: map<ProductId, int>)
    | ProductCategory(categoryIds: seq<int>, requireAll: bool := false)
    | CartTotal(minTotal: real)
    | AuthenticatedUser
    | DiscountCode(expectedCode: string, providedCode: string)
    | DateRange(validFrom: Option<Instant>, validTo: Option<Instant>)
    | Chain(conditions: seq<Condition>)

  /**
   * The values the condition classes' constructors can build: a category condition
   * lists at least one category, a multi-product condition requires only positive
   * quantities, and a chain holds only such values. `Eval` is defined on every
   * value of `Condition`, these and the rest alike.
   */
  predicate Constructible(c: Condition)
    decreases c
  {
    match c
    case MultipleProducts(required) => forall p :: p in required ==> required[p] > 0
    case ProductCategory(ids, _) => ids != []
    case Chain(cs) => forall i :: 0 <= i < |cs| ==> Constructible(cs[i])
    case _ => true
  }

  /** `isSatisfied($cart, $user)` of each condition class. */
  function Eval(c: Condition, cart: CartRows, user: User, now: Instant): bool
    decreases c
  {
    match c
    case ByProductId(p, minQuantity) => Quantity(cart, p) >= minQuantity
    case MultipleProducts(required) => forall p | p in required :: Quantity(cart, p) >= required[p]
    case ProductCategory(ids, requireAll) =>
      if requireAll then AllPresent(ids, CategoryIds(cart)) else AnyPresent(ids, CategoryIds(cart))
    case CartTotal(minTotal) => Subtotal(cart) >= minTotal
    case AuthenticatedUser => user.Some? && user.value
    case DiscountCode(expected, provided) => provided == expected
    case DateRange(from, to) => InWindow(from, to, now)
    case Chain(cs) => AllHold(cs, cart, user, now)
  }

  /**
   * The AND loop shared by `ConditionChain::isSatisfied` and
   * `CompositeDiscount::isApplicable`: true when every condition holds.
   */
  function AllHold(cs: seq<Condition>, cart: CartRows, user: User, now: Instant): (b: bool)
    ensures b <==> forall i :: 0 <= i < |cs| ==> Eval(cs[i], cart, user, now)
    decreases cs
  {
    if cs == [] then true
    else if !Eval(cs[0], cart, user, now) then false
    else AllHold(cs[1..], cart, user, now)
  }

  /** The `requireAll` loop: every listed category is among the cart's. */
  function AllPresent(ids: seq<int>, cats: set<int>): (b: bool)
    ensures b <==> forall i :: 0 <= i < |ids| ==> ids[i] in cats
  {
    if ids == [] then true
    else if ids[0] !in cats then false
    else AllPresent(ids[1..], cats)
  }

  /** The default loop: at least one listed category is among the cart's. */
  function AnyPresent(ids: seq<int>, cats: set<int>): (b: bool)
    ensures b <==> exists i :: 0 <= i < |ids| && ids[i] in cats
  {
    if ids == [] then false
    else if ids[0] in cats then true
    else AnyPresent(ids[1..], cats)
  }

  /** `DateRangeCondition::isSatisfiedBy`: both bounds absent, or `now` within the inclusive window. */
  predicate InWindow(from: Option<Instant>, to: Option<Instant>, now: Instant) {
    if from.None? && to.None? then true
    else
      var afterStart := from.None? || now >= from.value;
      var beforeEnd := to.None? || now <= to.value;
      afterStart && beforeEnd
  }

  // ---------------------------------------------------------------------------
  // Validating constructors

  /** `new ProductCategoryCondition($ids, $requireAll)`: an empty list is refused. */
  function NewProductCategory(ids: seq<int>, requireAll: bool := false): (r: Result<Condition, Error>)
    ensures r.Err? <==> ids == []
    ensures r.Err? ==> r.error == InvalidArgument("At least one category ID must be provided")
    ensures r.Ok? ==> r.value == ProductCategory(ids, requireAll) && Constructible(r.value)
  {
    if ids == [] then Err(InvalidArgument("At least one category ID must be provided"))
    else Ok(ProductCategory(ids, requireAll))
  }

  /** `$bound ? Carbon::parse($bound) : null`: an absent or falsy text is no bound. */
  function ParseBound(bound: Option<string>): (r: Result<Option<Instant>, Error>)
    ensures bound.None? || !Truthy(bound.value) ==> r == Ok(None)
    ensures bound.Some? && Truthy(bound.value) ==>
      match Parse(bound.value)
      case Some(t) => r == Ok(Some(t))
      case None => r == Err(InvalidDate(bound.value))
  {
    if bound.None? || !Truthy(bound.value) then Ok(None)
    else match Parse(bound.value)
      case Some(t) => Ok(Some(t))
      case None => Err(InvalidDate(bound.value))
  }

  /** `new DateRangeCondition($validFrom, $validTo)`. */
  function NewDateRange(validFrom: Option<string> := None, validTo: Option<string> := None): (r: Result<Condition, Error>)
    ensures r.Ok? ==> r.value.DateRange?
    ensures r.Ok? <==> ParseBound(validFrom).Ok? && ParseBound(validTo).Ok?
    ensures r.Ok? ==> r.value.validFrom == ParseBound(validFrom).value && r.value.validTo == ParseBound(validTo).value
  {
    match ParseBound(validFrom)
    case Err(e) => Err(e)
    case Ok(from) =>
      match ParseBound(validTo)
      case Err(e) => Err(e)
      case Ok(to) => Ok(DateRange(from, to))
  }

  /** `toArray()` of a date-range condition. */
  function ToArray(c: Condition): (d: Descriptor)
    requires c.DateRange?
    ensures Lookup(d, "type") == Str("date_range")
    ensures c.validFrom.None? <==> Lookup(d, "valid_from") == Null
    ensures c.validTo.None? <==> Lookup(d, "valid_to") == Null
  {
    map["type" := Str("date_range"),
        "valid_from" := if c.validFrom.Some? then Str(Format(c.validFrom.value)) else Null,
        "valid_to" := if c.validTo.Some? then Str(Format(c.validTo.value)) else Null]
  }

  /** A `?string` argument read from a descriptor: null, text, or a type error. */
  function TextArgument(d: Descriptor, key: string): (r: Result<Option<string>, Error>)
    ensures Lookup(d, key) == Null ==> r == Ok(None)
    ensures Lookup(d, key).Str? ==> r == Ok(Some(Lookup(d, key).s))
    ensures r.Err? <==> !(Lookup(d, key).Null? || Lookup(d, key).Str?)
  {
    match Lookup(d, key)
    case Null => Ok(None)
    case Str(s) => Ok(Some(s))
    case _ => Err(TypeError(key))
  }

  /** `DateRangeCondition::fromArray($data)`. */
  function FromArray(d: Descriptor): (r: Result<Condition, Error>)
    ensures r.Ok? ==> r.value.DateRange?
  {
    match TextArgument(d, "valid_from")
    case Err(e) => Err(e)
    case Ok(from) =>
      match TextArgument(d, "valid_to")
      case Err(e) => Err(e)
      case Ok(to) => NewDateRange(from, to)
  }

  /** A bound written by `toArray` is truthy and parses back to itself. */
  lemma BoundRoundTrip(bound: Option<Instant>)
    ensures var text := if bound.Some? then Some(Format(bound.value)) else None;
            ParseBound(text) == Ok(bound)
  {
    if bound.Some? {
      var s := Format(bound.value);
      assert s[0] == '@';
      assert s != "" && s != "0" by {
        assert "0"[0] == '0';
      }
      ParseFormat(bound.value);
    }
  }

  /** `fromArray(toArray($c))` rebuilds the same bounds. */
  lemma {:induction false} DateRangeRoundTrip(c: Condition)
    requires c.DateRange?
    ensures FromArray(ToArray(c)) == Ok(c)
  {
    var d := ToArray(c);
    BoundRoundTrip(c.validFrom);
    BoundRoundTrip(c.validTo);
    assert TextArgument(d, "valid_from") == Ok(if c.validFrom.Some? then Some(Format(c.validFrom.value)) else None);
    assert TextArgument(d, "valid_to") == Ok(if c.validTo.Some? then Some(Format(c.validTo.value)) else None);
  }

  // ---------------------------------------------------------------------------
  // Properties of the individual conditions

  /** On a well-formed cart, the default `ByProductId(p)` holds exactly when the cart holds `p`. */
  lemma ByProductIdDefault(p: ProductId, cart: CartRows, user: User, now: Instant)
    requires WellFormed(cart)
    ensures Eval(ByProductId(p), cart, user, now) <==> exists i :: 0 <= i < |cart| && cart[i].product == p
  {
    match IndexOf(cart, p)
    case None =>
    case Some(i) =>
  }

  /** A minimum quantity of zero or less is met by every cart. */
  lemma ByProductIdNonPositiveMinimum(p: ProductId, m: int, cart: CartRows, user: User, now: Instant)
    requires m <= 0 && PositiveQuantities(cart)
    ensures Eval(ByProductId(p, m), cart, user, now)
  {
    match IndexOf(cart, p)
    case None =>
    case Some(i) =>
  }

  /** `AddItem` never breaks a product, multi-product or (with non-negative prices) cart-total condition. */
  lemma AddItemKeepsQuantityConditions(c: Condition, cart: CartRows, catalog: map<ProductId, Product>,
                                       p: ProductId, user: User, now: Instant)
    requires MatchesCatalog(cart, catalog) && p in catalog && catalog[p].price >= 0.0
    requires c.ByProductId? || c.MultipleProducts? || c.CartTotal?
    requires Eval(c, cart, user, now)
    ensures Eval(c, Added(cart, p, catalog[p]), user, now)
  {
    var after := Added(cart, p, catalog[p]);
    match c
    case ByProductId(q, _) =>
      AddedQuantity(cart, p, catalog[p], q);
    case MultipleProducts(required) =>
      forall q | q in required ensures Quantity(after, q) >= required[q] {
        AddedQuantity(cart, p, catalog[p], q);
      }
    case CartTotal(_) =>
      AddedSubtotal(cart, catalog, p);
  }

  /** With at least one category listed, "all present" implies "any present". */
  lemma AllCategoriesImpliesAny(ids: seq<int>, cart: CartRows, user: User, now: Instant)
    requires ids != []
    requires Eval(ProductCategory(ids, true), cart, user, now)
    ensures Eval(ProductCategory(ids, false), cart, user, now)
  {
    assert ids[0] in CategoryIds(cart);
  }

  /** The product condition is monotone: more of the product keeps it satisfied. */
  lemma ByProductIdMonotone(p: ProductId, m: int, cart1: CartRows, cart2: CartRows, user: User, now: Instant)
    requires Quantity(cart1, p) <= Quantity(cart2, p)
    requires Eval(ByProductId(p, m), cart1, user, now)
    ensures Eval(ByProductId(p, m), cart2, user, now)
  {
  }

  /** The cart-total bound is inclusive, and the condition is monotone in the total. */
  lemma CartTotalMonotone(m: real, cart1: CartRows, cart2: CartRows, user: User, now: Instant)
    requires Subtotal(cart1) <= Subtotal(cart2)
    ensures Subtotal(cart1) == m ==> Eval(CartTotal(m), cart1, user, now)
    ensures Eval(CartTotal(m), cart1, user, now) ==> Eval(CartTotal(m), cart2, user, now)
  {
  }

  /** No user, or an unauthenticated one, fails; an authenticated user passes. */
  lemma AuthenticatedUserCases(cart: CartRows, now: Instant)
    ensures !Eval(AuthenticatedUser, cart, None, now)
    ensures !Eval(AuthenticatedUser, cart, Some(false), now)
    ensures Eval(AuthenticatedUser, cart, Some(true), now)
  {
  }

  /** A code condition holds exactly when the codes are equal; an empty provided code never matches. */
  lemma DiscountCodeExact(expected: string, provided: string, cart: CartRows, user: User, now: Instant)
    ensures Eval(DiscountCode(expected, provided), cart, user, now) <==> provided == expected
    ensures expected != "" ==> !Eval(DiscountCode(expected, ""), cart, user, now)
  {
  }

  /**
   * In terms of the cart's rows: "all" asks every listed category to be some row's
   * category, "any" asks it of at least one.
   */
  lemma CategoryByRows(ids: seq<int>, cart: CartRows, user: User, now: Instant)
    ensures Eval(ProductCategory(ids, true), cart, user, now) <==>
              forall i :: 0 <= i < |ids| ==> exists j :: 0 <= j < |cart| && cart[j].category == Some(ids[i])
    ensures Eval(ProductCategory(ids, false), cart, user, now) <==>
              exists i :: 0 <= i < |ids| && exists j :: 0 <= j < |cart| && cart[j].category == Some(ids[i])
  {
    var cats := CategoryIds(cart);
    assert forall i :: 0 <= i < |ids| ==>
      (ids[i] in cats <==> exists j :: 0 <= j < |cart| && cart[j].category == Some(ids[i]));
  }

  /** Without bounds the window always holds; with bounds both ends are inclusive. */
  lemma WindowInclusive(from: Instant, to: Instant, cart: CartRows, user: User, now: Instant)
    ensures Eval(DateRange(None, None), cart, user, now)
    ensures from <= to ==> Eval(DateRange(Some(from), Some(to)), cart, user, from)
    ensures from <= to ==> Eval(DateRange(Some(from), Some(to)), cart, user, to)
    ensures Eval(DateRange(Some(from), None), cart, user, now) <==> now >= from
    ensures Eval(DateRange(None, Some(to)), cart, user, now) <==> now <= to
  {
  }

  /** A window whose start lies after its end admits no instant. */
  lemma InvertedWindowNeverHolds(from: Instant, to: Instant, cart: CartRows, user: User, now: Instant)
    requires from > to
    ensures !Eval(DateRange(Some(from), Some(to)), cart, user, now)
  {
  }

  /** Conditions that consult the user: `AuthenticatedUser`, possibly inside a chain. */
  predicate ReadsUser(c: Condition) {
    match c
    case AuthenticatedUser => true
    case Chain(cs) => exists i :: 0 <= i < |cs| && ReadsUser(cs[i])
    case _ => false
  }

  /** Conditions that consult the cart. */
  predicate ReadsCart(c: Condition) {
    match c
    case ByProductId(_, _) => true
    case MultipleProducts(_) => true
    case ProductCategory(_, _) => true
    case CartTotal(_) => true
    case Chain(cs) => exists i :: 0 <= i < |cs| && ReadsCart(cs[i])
    case _ => false
  }

  /** Conditions that consult the instant. */
  predicate ReadsClock(c: Condition) {
    match c
    case DateRange(_, _) => true
    case Chain(cs) => exists i :: 0 <= i < |cs| && ReadsClock(cs[i])
    case _ => false
  }

  /** A condition that does not consult the user gives the same answer for every user. */
  lemma {:induction false} UserIrrelevant(c: Condition, cart: CartRows, u1: User, u2: User, now: Instant)
    requires !ReadsUser(c)
    ensures Eval(c, cart, u1, now) == Eval(c, cart, u2, now)
    decreases c
  {
    if c.Chain? {
      forall i | 0 <= i < |c.conditions| ensures Eval(c.conditions[i], cart, u1, now) == Eval(c.conditions[i], cart, u2, now) {
        UserIrrelevant(c.conditions[i], cart, u1, u2, now);
      }
    }
  }

  /** A condition that does not consult the cart gives the same answer for every cart. */
  lemma {:induction false} CartIrrelevant(c: Condition, cart1: CartRows, cart2: CartRows, user: User, now: Instant)
    requires !ReadsCart(c)
    ensures Eval(c, cart1, user, now) == Eval(c, cart2, user, now)
    decreases c
  {
    if c.Chain? {
      forall i | 0 <= i < |c.conditions| ensures Eval(c.conditions[i], cart1, user, now) == Eval(c.conditions[i], cart2, user, now) {
        CartIrrelevant(c.conditions[i], cart1, cart2, user, now);
      }
    }
  }

  /** A condition without a date range gives the same answer at every instant. */
  lemma {:induction false} ClockIrrelevant(c: Condition, cart: CartRows, user: User, t1: Instant, t2: Instant)
    requires !ReadsClock(c)
    ensures Eval(c, cart, user, t1) == Eval(c, cart, user, t2)
    decreases c
  {
    if c.Chain? {
      forall i | 0 <= i < |c.conditions| ensures Eval(c.conditions[i], cart, user, t1) == Eval(c.conditions[i], cart, user, t2) {
        ClockIrrelevant(c.conditions[i], cart, user, t1, t2);
      }
    }
  }

  // ---------------------------------------------------------------------------
  // Properties of the AND loop

  /** Appending a condition to an AND-chain can only turn it from satisfied to unsatisfied. */
  lemma {:induction false} AllHoldAppend(cs: seq<Condition>, c: Condition, cart: CartRows, user: User, now: Instant)
    ensures AllHold(cs + [c], cart, user, now) <==> AllHold(cs, cart, user, now) && Eval(c, cart, user, now)
  {
    var s := cs + [c];
    assert forall i :: 0 <= i < |cs| ==> s[i] == cs[i];
    assert s[|cs|] == c;
  }

  /**
   * The loop stops at the first failing condition: once `cs[i]` fails, the
   * conditions after it, whatever they are, do not change the answer.
   */
  lemma {:induction false} AllHoldStopsAtFailure(cs: seq<Condition>, i: nat, rest: seq<Condition>,
                                                 cart: CartRows, user: User, now: Instant)
    requires i < |cs| && !Eval(cs[i], cart, user, now)
    ensures !AllHold(cs[..i + 1] + rest, cart, user, now)
  {
    assert (cs[..i + 1] + rest)[i] == cs[i];
  }
}
