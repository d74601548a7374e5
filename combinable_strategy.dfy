/**
 * CombinableDiscountsStrategy (app/Strategies/CombinableDiscountsStrategy.php): the sum of the
 * amounts of the discounts that are both applicable and combinable.
 */
module CombinableStrategies {
  import opened Carts
  import opened Instants
  import opened Conditions
  import opened Discounts

  /** Whether the loop adds `d`. */
  predicate Qualifies(d: CompositeDiscount, cart: CartRows, user: User, now: Instant) {
    d.IsApplicable(cart, user, now) && d.combinable
  }

  /** What `d` adds to the running total. */
  function Contribution(d: CompositeDiscount, cart: CartRows, user: User, now: Instant): real {
    if Qualifies(d, cart, user, now) then d.Calculate(cart, user) else 0.0
  }

  /** The value of `$totalDiscount` after the loop has visited `ds`. */
  function CombinedSum(ds: seq<CompositeDiscount>, cart: CartRows, user: User, now: Instant): real {
    if ds == [] then 0.0
    else CombinedSum(ds[..|ds| - 1], cart, user, now) + Contribution(ds[|ds| - 1], cart, user, now)
  }

  lemma {:induction false} SumConcat(a: seq<CompositeDiscount>, b: seq<CompositeDiscount>,
                                     cart: CartRows, user: User, now: Instant)
    ensures CombinedSum(a + b, cart, user, now) == CombinedSum(a, cart, user, now) + CombinedSum(b, cart, user, now)
    decreases |b|
  {
    if b == [] {
      assert a + b == a;
    } else {
      var init := b[..|b| - 1];
      assert (a + b)[..|a + b| - 1] == a + init;
      SumConcat(a, init, cart, user, now);
    }
  }

  /** The sum splits around any one discount. */
  lemma SumAround(a: seq<CompositeDiscount>, d: CompositeDiscount, b: seq<CompositeDiscount>,
                  cart: CartRows, user: User, now: Instant)
    ensures CombinedSum(a + [d] + b, cart, user, now)
            == CombinedSum(a + b, cart, user, now) + Contribution(d, cart, user, now)
  {
    SumConcat(a + [d], b, cart, user, now);
    SumConcat(a, b, cart, user, now);
    assert (a + [d])[..|a + [d]| - 1] == a;
  }

  /** List order is irrelevant: a permutation gives the same sum. */
  lemma {:induction false} SumPermutation(ds: seq<CompositeDiscount>, es: seq<CompositeDiscount>,
                                          cart: CartRows, user: User, now: Instant)
    requires multiset(ds) == multiset(es)
    ensures CombinedSum(ds, cart, user, now) == CombinedSum(es, cart, user, now)
    decreases |ds|
  {
    if ds == [] {
      assert |es| == |multiset(es)| == 0;
    } else {
      var init := ds[..|ds| - 1];
      var x := ds[|ds| - 1];
      var a, b := SplitAt(es, x);
      RemoveBoth(ds, init, x, es, a, b);
      SumAround(a, x, b, cart, user, now);
      SumPermutation(init, a + b, cart, user, now);
    }
  }

  /** An element of a list splits it into the part before it and the part after it. */
  lemma SplitAt<T>(s: seq<T>, x: T) returns (a: seq<T>, b: seq<T>)
    requires x in multiset(s)
    ensures s == a + [x] + b
  {
    assert x in s;
    var j :| 0 <= j < |s| && s[j] == x;
    a, b := s[..j], s[j + 1..];
    assert s == a + [x] + b;
  }

  /** Taking one occurrence of `x` out of two permutations of each other leaves permutations. */
  lemma RemoveBoth<T>(ds: seq<T>, init: seq<T>, x: T, es: seq<T>, a: seq<T>, b: seq<T>)
    requires ds == init + [x] && es == a + [x] + b
    requires multiset(ds) == multiset(es)
    ensures multiset(init) == multiset(a + b)
  {
    assert multiset(ds) == multiset(init) + multiset{x};
    assert multiset(es) == multiset(a + b) + multiset{x} by {
      assert es == a + ([x] + b);
      assert multiset(a + ([x] + b)) == multiset(a) + multiset([x] + b);
      assert multiset(a + b) == multiset(a) + multiset(b);
    }
    MultisetCancel(multiset(init), multiset(a + b), x);
  }

  /** Taking the same element away from two equal multisets leaves equal multisets. */
  lemma MultisetCancel<T>(a: multiset<T>, b: multiset<T>, x: T)
    requires a + multiset{x} == b + multiset{x}
    ensures a == b
  {
    assert forall y :: a[y] == (a + multiset{x})[y] - multiset{x}[y];
  }

  /** A discount that is inapplicable or not combinable, wherever it stands, adds nothing. */
  lemma NonQualifyingAddsNothing(a: seq<CompositeDiscount>, d: CompositeDiscount, b: seq<CompositeDiscount>,
                                 cart: CartRows, user: User, now: Instant)
    requires !d.IsApplicable(cart, user, now) || !d.combinable
    ensures CombinedSum(a + [d] + b, cart, user, now) == CombinedSum(a + b, cart, user, now)
  {
    SumAround(a, d, b, cart, user, now);
  }

  /** With no discount qualifying, in particular with none at all, the sum is 0. */
  lemma {:induction false} SumWithoutQualifying(ds: seq<CompositeDiscount>, cart: CartRows, user: User, now: Instant)
    requires forall i :: 0 <= i < |ds| ==> !Qualifies(ds[i], cart, user, now)
    ensures CombinedSum(ds, cart, user, now) == 0.0
  {
    if ds != [] {
      SumWithoutQualifying(ds[..|ds| - 1], cart, user, now);
    }
  }

  /** Non-negative qualifying amounts give a non-negative sum. */
  lemma {:induction false} SumNonNegative(ds: seq<CompositeDiscount>, cart: CartRows, user: User, now: Instant)
    requires forall i :: 0 <= i < |ds| && Qualifies(ds[i], cart, user, now) ==> ds[i].Calculate(cart, user) >= 0.0
    ensures CombinedSum(ds, cart, user, now) >= 0.0
  {
    if ds != [] {
      SumNonNegative(ds[..|ds| - 1], cart, user, now);
    }
  }

  /** When every qualifying amount is non-negative, the sum is at least each of them. */
  lemma SumAtLeastEach(ds: seq<CompositeDiscount>, i: nat, cart: CartRows, user: User, now: Instant)
    requires forall k :: 0 <= k < |ds| && Qualifies(ds[k], cart, user, now) ==> ds[k].Calculate(cart, user) >= 0.0
    requires i < |ds| && Qualifies(ds[i], cart, user, now)
    ensures CombinedSum(ds, cart, user, now) >= ds[i].Calculate(cart, user)
  {
    var a := ds[..i];
    var b := ds[i + 1..];
    assert ds == a + [ds[i]] + b;
    SumAround(a, ds[i], b, cart, user, now);
    SliceNonNegative(ds, 0, i, cart, user, now);
    SliceNonNegative(ds, i + 1, |ds|, cart, user, now);
    assert ds[0..i] == a && ds[i + 1..|ds|] == b;
    SumConcat(a, b, cart, user, now);
  }

  /** Every slice of a list with non-negative qualifying amounts has a non-negative sum. */
  lemma SliceNonNegative(ds: seq<CompositeDiscount>, lo: nat, hi: nat, cart: CartRows, user: User, now: Instant)
    requires lo <= hi <= |ds|
    requires forall k :: 0 <= k < |ds| && Qualifies(ds[k], cart, user, now) ==> ds[k].Calculate(cart, user) >= 0.0
    ensures CombinedSum(ds[lo..hi], cart, user, now) >= 0.0
  {
    var s := ds[lo..hi];
    assert forall k :: 0 <= k < |s| ==> s[k] == ds[lo + k];
    SumNonNegative(s, cart, user, now);
  }

  /** `applyDiscounts($applicableDiscounts, $cart, $user)`. */
  method ApplyCombinable(ds: seq<CompositeDiscount>, cart: CartRows, user: User, now: Instant) returns (total: real)
    ensures total == CombinedSum(ds, cart, user, now)
  {
    total := 0.0;
    for i := 0 to |ds|
      invariant total == CombinedSum(ds[..i], cart, user, now)
    {
      var d := ds[i];
      assert ds[..i + 1][..i] == ds[..i];
      if d.IsApplicable(cart, user, now) && d.combinable {
        total := total + d.Calculate(cart, user);
      }
    }
    assert ds[..|ds|] == ds;
  }
}
