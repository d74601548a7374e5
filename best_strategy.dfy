/**
 * BestDiscountStrategy (app/Strategies/BestDiscountStrategy.php): the largest amount among the
 * applicable discounts, starting from 0.
 */
module BestStrategies {
  import opened Carts
  import opened Instants
  import opened Conditions
  import opened Discounts

  function Max(a: real, b: real): (m: real)
    ensures m >= a && m >= b && (m == a || m == b)
  {
    if a >= b then a else b
  }

  /** The value of `$maxDiscount` after the loop has visited `ds`. */
  function BestOf(ds: seq<CompositeDiscount>, cart: CartRows, user: User, now: Instant): real {
    if ds == [] then 0.0
    else
      var best := BestOf(ds[..|ds| - 1], cart, user, now);
      var d := ds[|ds| - 1];
      if d.IsApplicable(cart, user, now) then Max(best, d.Calculate(cart, user)) else best
  }

  /**
   * What "the best discount" means: at least 0, at least every applicable amount,
   * and either 0 or one of those amounts.
   */
  predicate IsBest(r: real, ds: seq<CompositeDiscount>, cart: CartRows, user: User, now: Instant) {
    && r >= 0.0
    && (forall i :: 0 <= i < |ds| && ds[i].IsApplicable(cart, user, now) ==> r >= ds[i].Calculate(cart, user))
    && (r == 0.0 || exists i :: 0 <= i < |ds| && ds[i].IsApplicable(cart, user, now) && r == ds[i].Calculate(cart, user))
  }

  /** The loop computes the best discount. */
  lemma {:induction false} BestOfIsBest(ds: seq<CompositeDiscount>, cart: CartRows, user: User, now: Instant)
    ensures IsBest(BestOf(ds, cart, user, now), ds, cart, user, now)
  {
    if ds != [] {
      var init := ds[..|ds| - 1];
      BestOfIsBest(init, cart, user, now);
      assert forall i :: 0 <= i < |init| ==> init[i] == ds[i];
      var r := BestOf(ds, cart, user, now);
      var b := BestOf(init, cart, user, now);
      if r != 0.0 && r != b {
        assert ds[|ds| - 1].IsApplicable(cart, user, now) && r == ds[|ds| - 1].Calculate(cart, user);
      } else if r != 0.0 {
        var i :| 0 <= i < |init| && init[i].IsApplicable(cart, user, now) && b == init[i].Calculate(cart, user);
        assert ds[i] == init[i];
      }
    }
  }

  /** Two lists holding the same applicable discounts have the same best value. */
  lemma BestUnique(r1: real, ds: seq<CompositeDiscount>, r2: real, es: seq<CompositeDiscount>,
                   cart: CartRows, user: User, now: Instant)
    requires IsBest(r1, ds, cart, user, now) && IsBest(r2, es, cart, user, now)
    requires forall d :: d in ds && d.IsApplicable(cart, user, now) ==> d in es
    requires forall d :: d in es && d.IsApplicable(cart, user, now) ==> d in ds
    ensures r1 == r2
  {
    if r2 != 0.0 {
      var j :| 0 <= j < |es| && es[j].IsApplicable(cart, user, now) && r2 == es[j].Calculate(cart, user);
      assert es[j] in ds;
    }
    if r1 != 0.0 {
      var i :| 0 <= i < |ds| && ds[i].IsApplicable(cart, user, now) && r1 == ds[i].Calculate(cart, user);
      assert ds[i] in es;
    }
  }

  /** List order is irrelevant: a permutation gives the same result. */
  lemma BestPermutation(ds: seq<CompositeDiscount>, es: seq<CompositeDiscount>, cart: CartRows, user: User, now: Instant)
    requires multiset(ds) == multiset(es)
    ensures BestOf(ds, cart, user, now) == BestOf(es, cart, user, now)
  {
    BestOfIsBest(ds, cart, user, now);
    BestOfIsBest(es, cart, user, now);
    forall d | d in ds
      ensures d in es
    {
      assert d in multiset(ds);
    }
    forall d | d in es
      ensures d in ds
    {
      assert d in multiset(es);
    }
    BestUnique(BestOf(ds, cart, user, now), ds, BestOf(es, cart, user, now), es, cart, user, now);
  }

  /** An inapplicable discount, wherever it stands, does not change the result. */
  lemma BestSkipsInapplicable(a: seq<CompositeDiscount>, d: CompositeDiscount, b: seq<CompositeDiscount>,
                              cart: CartRows, user: User, now: Instant)
    requires !d.IsApplicable(cart, user, now)
    ensures BestOf(a + [d] + b, cart, user, now) == BestOf(a + b, cart, user, now)
  {
    var ds := a + [d] + b;
    var es := a + b;
    BestOfIsBest(ds, cart, user, now);
    BestOfIsBest(es, cart, user, now);
    forall x | x in ds && x.IsApplicable(cart, user, now)
      ensures x in es
    {
      assert x != d;
    }
    BestUnique(BestOf(ds, cart, user, now), ds, BestOf(es, cart, user, now), es, cart, user, now);
  }

  /** With no applicable discount, in particular with none at all, the result is 0. */
  lemma BestWithoutApplicable(ds: seq<CompositeDiscount>, cart: CartRows, user: User, now: Instant)
    requires forall i :: 0 <= i < |ds| ==> !ds[i].IsApplicable(cart, user, now)
    ensures BestOf(ds, cart, user, now) == 0.0
  {
    BestOfIsBest(ds, cart, user, now);
  }

  /** `applyDiscounts($applicableDiscounts, $cart, $user)`. */
  method ApplyBest(ds: seq<CompositeDiscount>, cart: CartRows, user: User, now: Instant) returns (best: real)
    ensures best == BestOf(ds, cart, user, now)
    ensures IsBest(best, ds, cart, user, now)
  {
    best := 0.0;
    for i := 0 to |ds|
      invariant best == BestOf(ds[..i], cart, user, now)
    {
      var d := ds[i];
      assert ds[..i + 1][..i] == ds[..i];
      if d.IsApplicable(cart, user, now) {
        best := Max(best, d.Calculate(cart, user));
      }
    }
    assert ds[..|ds|] == ds;
    BestOfIsBest(ds, cart, user, now);
  }
}
