/**
 * The ConditionChain object (app/Conditions/ConditionChain.php): a list of
 * conditions that grows in place through `addCondition`. `ToCondition` is the
 * condition value the chain currently denotes.
 */
module ConditionChains {
  import opened Carts
  import opened Instants
  import opened Conditions

  class ConditionChain {
    var conditions: seq<Condition>

    /**
     * `new ConditionChain($conditions)`: copies the list member by member. The
     * source's "not a DiscountCondition" exception cannot arise, since every
     * element already has type `Condition`.
     */
    constructor (conditions: seq<Condition> := [])
      ensures this.conditions == conditions
    {
      this.conditions := [];
      new;
      var i := 0;
      while i < |conditions|
        invariant 0 <= i <= |conditions|
        invariant this.conditions == conditions[..i]
      {
        this.conditions := this.conditions + [conditions[i]];
        i := i + 1;
      }
      assert conditions[..|conditions|] == conditions;
    }

    /** `addCondition($c)`: appends at the end; the members already there keep their order. */
    method AddCondition(c: Condition)
      modifies this
      ensures conditions == old(conditions) + [c]
      ensures |conditions| == old(|conditions|) + 1 && conditions[..old(|conditions|)] == old(conditions)
    {
      conditions := conditions + [c];
    }

    /** `isSatisfied($cart, $user)`: the AND of the members, an empty chain being satisfied. */
    function IsSatisfied(cart: CartRows, user: User, now: Instant): (b: bool)
      reads this
      ensures b <==> forall i :: 0 <= i < |conditions| ==> Eval(conditions[i], cart, user, now)
      ensures conditions == [] ==> b
    {
      AllHold(conditions, cart, user, now)
    }

    /** The chain as a condition value, as a discount that holds it evaluates it now. */
    function ToCondition(): (c: Condition)
      reads this
      ensures c.Chain? && c.conditions == conditions
    {
      Chain(conditions)
    }
  }

  /** After `addCondition`, a satisfied chain may become unsatisfied, never the reverse. */
  method AddConditionOnlyNarrows(chain: ConditionChain, c: Condition, cart: CartRows, user: User, now: Instant)
    modifies chain
    ensures chain.IsSatisfied(cart, user, now) ==> old(chain.IsSatisfied(cart, user, now))
    ensures chain.IsSatisfied(cart, user, now) <==>
      old(chain.IsSatisfied(cart, user, now)) && Eval(c, cart, user, now)
  {
    AllHoldAppend(chain.conditions, c, cart, user, now);
    chain.AddCondition(c);
  }
}
