/**
 * ConditionResolver (app/Resolvers/ConditionResolver.php): turns a descriptor array into a
 * condition by a strict `match` on its `type` entry.
 */
module Resolvers {
  import opened Wrappers
  import opened Php
  import opened Errors
  import opened Conditions

  /** An `int` constructor parameter read from a descriptor. */
  function IntArgument(d: Descriptor, key: string): (r: Result<int, Error>)
    ensures r.Ok? <==> Lookup(d, key).Int?
    ensures r.Ok? ==> r.value == Lookup(d, key).i
    ensures r.Err? ==> r.error == TypeError(key)
  {
    match Lookup(d, key)
    case Int(i) => Ok(i)
    case _ => Err(TypeError(key))
  }

  /** A `float` constructor parameter: an integer is widened, anything else is refused. */
  function FloatArgument(d: Descriptor, key: string): (r: Result<real, Error>)
    ensures r.Ok? <==> Lookup(d, key).Int? || Lookup(d, key).Float?
    ensures Lookup(d, key).Int? ==> r == Ok(Lookup(d, key).i as real)
    ensures Lookup(d, key).Float? ==> r == Ok(Lookup(d, key).r)
    ensures r.Err? ==> r.error == TypeError(key)
  {
    match Lookup(d, key)
    case Int(i) => Ok(i as real)
    case Float(x) => Ok(x)
    case _ => Err(TypeError(key))
  }

  /** The tags `resolve` knows. */
  predicate KnownTag(tag: Value) {
    tag == Str("by_product_id") || tag == Str("authenticated") || tag == Str("cart_total") || tag == Str("date_range")
  }

  /** `resolve($condition)`. */
  function Resolve(d: Descriptor): (r: Result<Condition, Error>)
    ensures !KnownTag(Lookup(d, "type")) ==> r == Err(UnknownConditionType(Lookup(d, "type")))
    ensures Lookup(d, "type") == Str("by_product_id") ==>
              (r.Ok? <==> Lookup(d, "product_id").Int? && Lookup(d, "min_quantity").Int?)
              && (r.Ok? ==> r.value == ByProductId(Lookup(d, "product_id").i, Lookup(d, "min_quantity").i))
    ensures Lookup(d, "type") == Str("authenticated") ==> r == Ok(AuthenticatedUser)
    ensures Lookup(d, "type") == Str("cart_total") ==>
              (r.Ok? <==> Lookup(d, "min_total").Int? || Lookup(d, "min_total").Float?)
              && (r.Ok? ==> r.value.CartTotal?)
    ensures Lookup(d, "type") == Str("date_range") ==> r == FromArray(d)
    ensures r.Ok? ==> Constructible(r.value)
  {
    match Lookup(d, "type")
    case Str("by_product_id") =>
      (match IntArgument(d, "product_id")
       case Err(e) => Err(e)
       case Ok(p) =>
         match IntArgument(d, "min_quantity")
         case Err(e) => Err(e)
         case Ok(q) => Ok(ByProductId(p, q)))
    case Str("authenticated") => Ok(AuthenticatedUser)
    case Str("cart_total") =>
      (match FloatArgument(d, "min_total")
       case Err(e) => Err(e)
       case Ok(m) => Ok(CartTotal(m)))
    case Str("date_range") => FromArray(d)
    case tag => Err(UnknownConditionType(tag))
  }

  /**
   * Only four kinds of condition can come out of the resolver; code, multi-product,
   * category and chain conditions have no arm.
   */
  lemma ResolvedKinds(d: Descriptor)
    requires Resolve(d).Ok?
    ensures var c := Resolve(d).value;
            c.ByProductId? || c.AuthenticatedUser? || c.CartTotal? || c.DateRange?
  {
  }

  /** A `toArray()` descriptor resolves back to the date-range condition it came from. */
  lemma ResolveToArray(c: Condition)
    requires c.DateRange?
    ensures Resolve(ToArray(c)) == Ok(c)
  {
    DateRangeRoundTrip(c);
  }

  /** A descriptor written out for a product condition resolves to exactly that condition. */
  lemma ResolveByProductId(p: int, q: int)
    ensures Resolve(map["type" := Str("by_product_id"), "product_id" := Int(p), "min_quantity" := Int(q)])
            == Ok(ByProductId(p, q))
  {
  }

  /** A `cart_total` descriptor carries its threshold through, an integer one widened. */
  lemma ResolveCartTotal(d: Descriptor)
    requires Lookup(d, "type") == Str("cart_total")
    ensures Lookup(d, "min_total").Float? ==> Resolve(d) == Ok(CartTotal(Lookup(d, "min_total").r))
    ensures Lookup(d, "min_total").Int? ==> Resolve(d) == Ok(CartTotal(Lookup(d, "min_total").i as real))
  {
  }
}
