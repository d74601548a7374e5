/**
 * The MultipleProductsCondition object (app/Conditions/MultipleProductsCondition.php):
 * a requirement map from product id to minimum quantity, filled by a validating
 * constructor loop and extended in place by `addProductRequirement`.
 */
module ProductRequirements {
  import opened Wrappers
  import opened Errors
  import opened Carts
  import opened Instants
  import opened Conditions

  const ConstructorMessage: string := "Product IDs and quantities must be positive integers"
  const AddMessage: string := "Quantity must be a positive integer"

  /** Every required quantity is positive. */
  predicate AllPositive(required: map<ProductId, int>) {
    forall p :: p in required ==> required[p] > 0
  }

  class MultipleProductsCondition {
    var requiredProducts: map<ProductId, int>

    ghost predicate Valid()
      reads this
    {
      AllPositive(requiredProducts)
    }

    constructor Empty()
      ensures Valid() && requiredProducts == map[]
    {
      requiredProducts := map[];
    }

    /** `getRequiredProducts()` */
    function GetRequiredProducts(): map<ProductId, int>
      reads this
    {
      requiredProducts
    }

    /**
     * `addProductRequirement($p, $q)`: refuses a quantity of zero or less and
     * then leaves the map as it was; otherwise sets (or overwrites) the entry for `p`.
     */
    method AddProductRequirement(p: ProductId, q: int) returns (r: Result<(), Error>)
      requires Valid()
      modifies this
      ensures Valid()
      ensures r.Err? <==> q <= 0
      ensures r.Err? ==> r.error == InvalidArgument(AddMessage) && requiredProducts == old(requiredProducts)
      ensures r.Ok? ==> requiredProducts == old(requiredProducts)[p := q]
      ensures forall other :: other != p && other in old(requiredProducts) ==>
                other in requiredProducts && requiredProducts[other] == old(requiredProducts)[other]
    {
      if q <= 0 {
        return Err(InvalidArgument(AddMessage));
      }
      requiredProducts := requiredProducts[p := q];
      return Ok(());
    }

    /** `isSatisfied($cart, $user)`: each required product is present in at least its quantity. */
    function IsSatisfied(cart: CartRows, user: User, now: Instant): (b: bool)
      reads this
      ensures b <==> forall p :: p in requiredProducts ==> Quantity(cart, p) >= requiredProducts[p]
      ensures requiredProducts == map[] ==> b
    {
      Eval(ToCondition(), cart, user, now)
    }

    /** The object as a condition value. */
    function ToCondition(): (c: Condition)
      reads this
      ensures c.MultipleProducts? && c.requiredProducts == requiredProducts
      ensures Valid() ==> Constructible(c)
    {
      MultipleProducts(requiredProducts)
    }
  }

  /** A PHP array of (product id, quantity) entries in iteration order. */
  type Entries = seq<(ProductId, int)>

  /** The map the entries build when assigned one after another (a later key overwrites). */
  function ToMap(entries: Entries): (m: map<ProductId, int>)
    ensures forall p :: p in m <==> exists i :: 0 <= i < |entries| && entries[i].0 == p
  {
    if entries == [] then map[]
    else
      var init := entries[..|entries| - 1];
      var last := entries[|entries| - 1];
      assert forall i :: 0 <= i < |init| ==> init[i] == entries[i];
      ToMap(init)[last.0 := last.1]
  }

  /** Every entry carries a positive quantity. */
  predicate EntriesPositive(entries: Entries) {
    forall i :: 0 <= i < |entries| ==> entries[i].1 > 0
  }

  /** Each key is mapped to the quantity of its last entry. */
  lemma {:induction false} ToMapLastWins(entries: Entries, i: nat)
    requires i < |entries|
    requires forall j :: i < j < |entries| ==> entries[j].0 != entries[i].0
    ensures entries[i].0 in ToMap(entries) && ToMap(entries)[entries[i].0] == entries[i].1
  {
    var n := |entries|;
    if i < n - 1 {
      var init := entries[..n - 1];
      ToMapLastWins(init, i);
    }
  }

  /** Positive entries build a map of positive quantities. */
  lemma {:induction false} ToMapPositive(entries: Entries)
    requires EntriesPositive(entries)
    ensures AllPositive(ToMap(entries))
  {
    if entries != [] {
      ToMapPositive(entries[..|entries| - 1]);
    }
  }

  /**
   * `new MultipleProductsCondition($productQuantities)`: the constructor loop
   * copies the entries one by one and throws at the first quantity of zero or less.
   * Keys and values are integers by type, so the `is_int` checks always pass.
   */
  method NewMultipleProducts(productQuantities: Entries)
    returns (r: Result<MultipleProductsCondition, Error>)
    ensures r.Err? <==> !EntriesPositive(productQuantities)
    ensures r.Err? ==> r.error == InvalidArgument(ConstructorMessage)
    ensures r.Ok? ==> fresh(r.value) && r.value.Valid() && r.value.requiredProducts == ToMap(productQuantities)
  {
    var c := new MultipleProductsCondition.Empty();
    for i := 0 to |productQuantities|
      invariant EntriesPositive(productQuantities[..i])
      invariant c.requiredProducts == ToMap(productQuantities[..i])
      invariant fresh(c)
    {
      var (p, q) := productQuantities[i];
      if q <= 0 {
        return Err(InvalidArgument(ConstructorMessage));
      }
      c.requiredProducts := c.requiredProducts[p := q];
      assert productQuantities[..i + 1][..i] == productQuantities[..i];
    }
    assert productQuantities[..|productQuantities|] == productQuantities;
    ToMapPositive(productQuantities);
    return Ok(c);
  }
}
