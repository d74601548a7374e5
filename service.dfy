/**
 * DefaultDiscountService (app/Services/DefaultDiscountService.php): a registry of discounts
 * keyed by code, and the strategy it hands them to.
 *
 * The registry is a PHP associative array. Its iteration order is the order in which keys
 * were first inserted, and assigning to a key that is already present replaces the value
 * in place. It is modelled as `keys` (the insertion order) beside `registry` (the mapping).
 */
module Services {
  import opened Wrappers
  import opened Carts
  import opened Instants
  import opened Conditions
  import opened Discounts
  import opened BestStrategies
  import opened CombinableStrategies
  import opened OrderedStrategies

  /** The strategy implementations of the repository. */
  datatype Strategy = Best | Combinable | Ordered(ordered: OrderedDiscountStrategy)

  predicate Distinct(keys: seq<string>) {
    forall i, j :: 0 <= i < j < |keys| ==> keys[i] != keys[j]
  }

  /** The key order after `$array[$c] = ...`: unchanged for a present key, `c` appended otherwise. */
  function UpsertKey(keys: seq<string>, c: string): seq<string> {
    if c in keys then keys else keys + [c]
  }

  /** The key order after `unset($array[$c])`. */
  function Without(keys: seq<string>, c: string): (r: seq<string>)
    ensures forall k :: k in r <==> k in keys && k != c
  {
    if keys == [] then []
    else (if keys[0] == c then [] else [keys[0]]) + Without(keys[1..], c)
  }

  /** `array_values`: the values in key order. */
  function ValuesOf(keys: seq<string>, m: map<string, CompositeDiscount>): (vs: seq<CompositeDiscount>)
    requires forall i :: 0 <= i < |keys| ==> keys[i] in m
    ensures |vs| == |keys| && forall i :: 0 <= i < |keys| ==> vs[i] == m[keys[i]]
  {
    seq(|keys|, i requires 0 <= i < |keys| => m[keys[i]])
  }

  /** The key order after registering `ds` one after the other. */
  function KeysAfter(keys: seq<string>, ds: seq<CompositeDiscount>): seq<string> {
    if ds == [] then keys else UpsertKey(KeysAfter(keys, ds[..|ds| - 1]), ds[|ds| - 1].Code())
  }

  /** The mapping after registering `ds` one after the other. */
  function RegistryAfter(m: map<string, CompositeDiscount>, ds: seq<CompositeDiscount>): map<string, CompositeDiscount> {
    if ds == [] then m else RegistryAfter(m, ds[..|ds| - 1])[ds[|ds| - 1].Code() := ds[|ds| - 1]]
  }

  // ---------------------------------------------------------------------------
  // Properties of the key order

  /** Upserting keeps every existing key at its position and keeps the keys distinct. */
  lemma UpsertKeepsPositions(keys: seq<string>, c: string)
    requires Distinct(keys)
    ensures var r := UpsertKey(keys, c);
            Distinct(r) && keys <= r && c in r
            && (c in keys ==> r == keys) && (c !in keys ==> r == keys + [c])
  {
  }

  /** Removing keeps the other keys in their relative order and keeps them distinct. */
  lemma {:induction false} WithoutKeepsDistinct(keys: seq<string>, c: string)
    requires Distinct(keys)
    ensures Distinct(Without(keys, c)) && c !in Without(keys, c)
  {
    if keys != [] {
      WithoutKeepsDistinct(keys[1..], c);
      var rest := Without(keys[1..], c);
      if keys[0] != c {
        assert keys[0] !in keys[1..];
        assert keys[0] !in rest;
        var r := [keys[0]] + rest;
        forall i, j | 0 <= i < j < |r|
          ensures r[i] != r[j]
        {
          if i == 0 {
            assert r[j] == rest[j - 1];
          } else {
            assert r[i] == rest[i - 1] && r[j] == rest[j - 1];
          }
        }
      } else {
        assert Without(keys, c) == rest;
      }
    }
  }

  /** Removing a key that is absent leaves the order as it is. */
  lemma {:induction false} WithoutAbsent(keys: seq<string>, c: string)
    requires c !in keys
    ensures Without(keys, c) == keys
  {
    if keys != [] {
      WithoutAbsent(keys[1..], c);
      assert [keys[0]] + keys[1..] == keys;
    }
  }

  /** Removing a freshly added key undoes the registration. */
  lemma WithoutUndoesUpsert(keys: seq<string>, c: string)
    requires c !in keys
    ensures Without(UpsertKey(keys, c), c) == keys
  {
    WithoutConcat(keys, [c], c);
    WithoutAbsent(keys, c);
    assert Without([c][1..], c) == [];
    assert Without([c], c) == [];
    assert keys + [] == keys;
  }

  lemma {:induction false} WithoutConcat(a: seq<string>, b: seq<string>, c: string)
    ensures Without(a + b, c) == Without(a, c) + Without(b, c)
  {
    if a == [] {
      assert a + b == b;
    } else {
      assert (a + b)[1..] == a[1..] + b;
      WithoutConcat(a[1..], b, c);
    }
  }

  /** The number of entries equals the number of distinct keys in the order. */
  lemma {:induction false} SizeIsKeyCount(keys: seq<string>, s: set<string>)
    requires Distinct(keys)
    requires forall k :: k in keys <==> k in s
    ensures |s| == |keys|
  {
    if keys != [] {
      var last := keys[|keys| - 1];
      var init := keys[..|keys| - 1];
      DistinctInit(keys);
      var t := s - {last};
      forall k
        ensures k in init <==> k in t
      {
        assert keys == init + [last];
      }
      SizeIsKeyCount(init, t);
      forall k | k in s
        ensures k in t + {last}
      {
      }
      assert s == t + {last};
    }
  }

  /** Dropping the last key keeps the rest distinct, and the last key is not among them. */
  lemma DistinctInit(keys: seq<string>)
    requires Distinct(keys) && keys != []
    ensures Distinct(keys[..|keys| - 1]) && keys[|keys| - 1] !in keys[..|keys| - 1]
  {
    var init := keys[..|keys| - 1];
    assert forall i :: 0 <= i < |init| ==> init[i] == keys[i];
  }

  // ---------------------------------------------------------------------------
  // Registering a list

  /** `registerDiscounts` leaves the keys distinct and each registered code present. */
  lemma {:induction false} KeysAfterDistinct(keys: seq<string>, ds: seq<CompositeDiscount>)
    requires Distinct(keys)
    ensures Distinct(KeysAfter(keys, ds)) && keys <= KeysAfter(keys, ds)
    ensures forall i :: 0 <= i < |ds| ==> ds[i].Code() in KeysAfter(keys, ds)
  {
    if ds != [] {
      var init := ds[..|ds| - 1];
      KeysAfterDistinct(keys, init);
      UpsertKeepsPositions(KeysAfter(keys, init), ds[|ds| - 1].Code());
      forall i | 0 <= i < |ds|
        ensures ds[i].Code() in KeysAfter(keys, ds)
      {
        if i < |init| {
          assert ds[i] == init[i];
        }
      }
    }
  }

  /** For every code, the last discount in the list that carries it wins. */
  lemma {:induction false} LastDuplicateWins(m: map<string, CompositeDiscount>, ds: seq<CompositeDiscount>, j: nat)
    requires j < |ds|
    requires forall k :: j < k < |ds| ==> ds[k].Code() != ds[j].Code()
    ensures ds[j].Code() in RegistryAfter(m, ds) && RegistryAfter(m, ds)[ds[j].Code()] == ds[j]
  {
    if j < |ds| - 1 {
      var init := ds[..|ds| - 1];
      assert init[j] == ds[j];
      forall k | j < k < |init|
        ensures init[k].Code() != init[j].Code()
      {
        assert init[k] == ds[k];
      }
      LastDuplicateWins(m, init, j);
    }
  }

  /** A code no discount in the list carries keeps its old entry. */
  lemma {:induction false} UntouchedCode(m: map<string, CompositeDiscount>, ds: seq<CompositeDiscount>, c: string)
    requires forall k :: 0 <= k < |ds| ==> ds[k].Code() != c
    ensures c in RegistryAfter(m, ds) <==> c in m
    ensures c in m ==> RegistryAfter(m, ds)[c] == m[c]
  {
    if ds != [] {
      var init := ds[..|ds| - 1];
      forall k | 0 <= k < |init|
        ensures init[k].Code() != c
      {
        assert init[k] == ds[k];
      }
      UntouchedCode(m, init, c);
    }
  }

  /**
   * Re-registering a code puts the new discount at the old position of the values the
   * strategy sees; a new code puts it last.
   */
  lemma ValuesAfterUpsert(keys: seq<string>, m: map<string, CompositeDiscount>, d: CompositeDiscount)
    requires Distinct(keys) && forall i :: 0 <= i < |keys| ==> keys[i] in m
    ensures var keys' := UpsertKey(keys, d.Code());
            var m' := m[d.Code() := d];
            var vs := ValuesOf(keys, m);
            (forall i :: 0 <= i < |keys'| ==> keys'[i] in m')
            && (d.Code() !in keys ==> ValuesOf(keys', m') == vs + [d])
            && (forall p :: 0 <= p < |keys| && keys[p] == d.Code() ==> ValuesOf(keys', m') == vs[p := d])
  {
    var keys' := UpsertKey(keys, d.Code());
    var m' := m[d.Code() := d];
    var vs := ValuesOf(keys, m);
    if d.Code() !in keys {
      assert ValuesOf(keys', m') == vs + [d];
    }
    forall p | 0 <= p < |keys| && keys[p] == d.Code()
      ensures ValuesOf(keys', m') == vs[p := d]
    {
      assert keys' == keys;
      forall i | 0 <= i < |keys|
        ensures ValuesOf(keys', m')[i] == vs[p := d][i]
      {
        if i != p {
          assert keys[i] != keys[p];
        }
      }
    }
  }

  /**
   * A worked example: the list C, A, B where A has priority 10 and is combinable, B has
   * priority 20 and is not, and C has priority 30 and is combinable; all three apply,
   * with amounts 5, 7 and 3.
   */
  predicate Example(a: CompositeDiscount, b: CompositeDiscount, c: CompositeDiscount,
                    cart: CartRows, user: User, now: Instant) {
    && a.priority == 10 && b.priority == 20 && c.priority == 30
    && a.combinable && !b.combinable && c.combinable
    && a.IsApplicable(cart, user, now) && b.IsApplicable(cart, user, now) && c.IsApplicable(cart, user, now)
    && a.Calculate(cart, user) == 5.0 && b.Calculate(cart, user) == 7.0 && c.Calculate(cart, user) == 3.0
  }

  /** Sorting C, A, B by priority gives A, B, C. */
  lemma ExampleSorted(a: CompositeDiscount, b: CompositeDiscount, c: CompositeDiscount)
    requires a.priority == 10 && b.priority == 20 && c.priority == 30
    ensures SortByPriority([c, a, b]) == [a, b, c]
  {
    assert [c, a, b][..2] == [c, a] && [c, a][..1] == [c];
    SortUnfold([c, a, b]);
    SortUnfold([c, a]);
    SortSingle(c);
    InsertAhead([c], a);
    InsertAfterFirst(a, c, b);
  }

  lemma SortSingle(x: CompositeDiscount)
    ensures SortByPriority([x]) == [x]
  {
    assert [x][..0] == [];
  }

  lemma InsertAhead(s: seq<CompositeDiscount>, x: CompositeDiscount)
    requires s != [] && x.priority < s[0].priority
    ensures Insert(s, x) == [x] + s
  {
  }

  lemma InsertAfterFirst(x: CompositeDiscount, y: CompositeDiscount, z: CompositeDiscount)
    requires x.priority <= z.priority < y.priority
    ensures Insert([x, y], z) == [x, z, y]
  {
    assert [x, y][1..] == [y];
    InsertAhead([y], z);
  }

  /** The ordered strategy visits A, B, C (see `ExampleSorted`), applies A and B, and stops before C: 12. */
  lemma ExampleOrdered(a: CompositeDiscount, b: CompositeDiscount, c: CompositeDiscount,
                       cart: CartRows, user: User, now: Instant)
    requires Example(a, b, c, cart, user, now)
    ensures var outcome := Run([a, b, c], cart, user, now);
            outcome.total == 12.0 && outcome.trace == [Entry(a, cart, user), Entry(b, cart, user)]
  {
    assert [a, b, c] == [a] + [b, c] && [b, c] == [b] + [c];
    FirstStops(b, [c], cart, user, now);
    FirstAdds(a, [b, c], cart, user, now);
  }

  lemma FirstStops(d: CompositeDiscount, rest: seq<CompositeDiscount>, cart: CartRows, user: User, now: Instant)
    requires d.IsApplicable(cart, user, now) && !d.combinable
    ensures Run([d] + rest, cart, user, now) == Outcome(d.Calculate(cart, user), [Entry(d, cart, user)])
  {
    assert ([d] + rest)[0] == d;
  }

  lemma FirstAdds(d: CompositeDiscount, rest: seq<CompositeDiscount>, cart: CartRows, user: User, now: Instant)
    requires d.IsApplicable(cart, user, now) && d.combinable
    ensures var r := Run(rest, cart, user, now);
            Run([d] + rest, cart, user, now) == Outcome(d.Calculate(cart, user) + r.total, [Entry(d, cart, user)] + r.trace)
  {
    assert ([d] + rest)[0] == d && ([d] + rest)[1..] == rest;
  }

  /** The best strategy picks B: 7. */
  lemma ExampleBest(a: CompositeDiscount, b: CompositeDiscount, c: CompositeDiscount,
                    cart: CartRows, user: User, now: Instant)
    requires Example(a, b, c, cart, user, now)
    ensures BestOf([c, a, b], cart, user, now) == 7.0
  {
    assert [c, a, b][..2] == [c, a] && [c, a][..1] == [c] && [c][..0] == [];
    assert BestOf([c], cart, user, now) == 3.0;
  }

  /** The combinable strategy adds A and C and leaves B out: 8. */
  lemma ExampleCombinable(a: CompositeDiscount, b: CompositeDiscount, c: CompositeDiscount,
                          cart: CartRows, user: User, now: Instant)
    requires Example(a, b, c, cart, user, now)
    ensures CombinedSum([c, a, b], cart, user, now) == 8.0
  {
    assert [c, a, b][..2] == [c, a] && [c, a][..1] == [c] && [c][..0] == [];
    assert CombinedSum([c], cart, user, now) == 3.0;
  }

  // ---------------------------------------------------------------------------
  // The service

  class DefaultDiscountService {
    /** Null when the container gave none; `calculateDiscount` then cannot run. */
    const strategy: Option<Strategy>
    /** The keys of `$registeredDiscounts` in iteration order. */
    var keys: seq<string>
    /** `$registeredDiscounts`. */
    var registry: map<string, CompositeDiscount>

    /** The order and the mapping describe one PHP array, of discounts whose code caches are sound. */
    ghost predicate Valid()
      reads this, registry.Values
    {
      && Distinct(keys)
      && (forall k :: k in keys <==> k in registry)
      && (forall k :: k in registry ==> registry[k].Valid())
    }

    /** `new DefaultDiscountService($strategy, $factory, $registeredDiscounts)`, the array as order and mapping. */
    constructor(strategy: Option<Strategy>, initialKeys: seq<string> := [],
                initial: map<string, CompositeDiscount> := map[])
      requires Distinct(initialKeys) && forall k :: k in initialKeys <==> k in initial
      requires forall k :: k in initial ==> initial[k].Valid()
      ensures this.strategy == strategy && keys == initialKeys && registry == initial
      ensures Valid()
    {
      this.strategy := strategy;
      keys := initialKeys;
      registry := initial;
    }

    /** The values the strategy is handed, in iteration order. */
    ghost function Values(): seq<CompositeDiscount>
      requires Valid()
      reads this, registry.Values
    {
      ValuesOf(keys, registry)
    }

    /**
     * `registerDiscount($discount)`: stores the discount under its code. A new code is
     * appended to the order; a known code is overwritten where it stands.
     */
    method RegisterDiscount(d: CompositeDiscount)
      requires Valid() && d.Valid()
      modifies this, d
      ensures Valid() && d.Valid()
      ensures registry == old(registry)[d.Code() := d]
      ensures keys == UpsertKey(old(keys), d.Code())
      ensures d.code == old(d.code) || FirstCode(d.conditions).None?
    {
      var c := d.GetCode();
      UpsertKeepsPositions(keys, c);
      if c !in keys {
        keys := keys + [c];
      }
      registry := registry[c := d];
    }

    /** `registerDiscounts($discounts)`: the same as registering them one after the other. */
    method RegisterDiscounts(ds: seq<CompositeDiscount>)
      requires Valid() && forall i :: 0 <= i < |ds| ==> ds[i].Valid()
      modifies this, ds
      ensures Valid()
      ensures registry == RegistryAfter(old(registry), ds)
      ensures keys == KeysAfter(old(keys), ds)
    {
      for i := 0 to |ds|
        invariant Valid()
        invariant registry == RegistryAfter(old(registry), ds[..i])
        invariant keys == KeysAfter(old(keys), ds[..i])
        invariant forall j :: 0 <= j < |ds| ==> ds[j].Valid()
      {
        assert ds[..i + 1][..i] == ds[..i];
        RegisterDiscount(ds[i]);
      }
      assert ds[..|ds|] == ds;
    }

    /** `removeDiscount($code)`: drops that one entry; an absent code changes nothing. */
    method RemoveDiscount(c: string)
      requires Valid()
      modifies this
      ensures Valid()
      ensures registry == old(registry) - {c}
      ensures keys == Without(old(keys), c)
      ensures c !in old(registry) ==> registry == old(registry) && keys == old(keys)
    {
      if c in registry {
        WithoutKeepsDistinct(keys, c);
        keys := Without(keys, c);
        registry := registry - {c};
      } else {
        WithoutAbsent(keys, c);
        assert registry - {c} == registry;
      }
    }

    /**
     * `calculateDiscount($cart, $user)`: hands the values, in iteration order, to the
     * strategy and returns its answer. The registry is left as it was.
     */
    method CalculateDiscount(cart: CartRows, user: User, now: Instant) returns (total: real)
      requires Valid() && strategy.Some?
      modifies registry.Values, if strategy.value.Ordered? then {strategy.value.ordered} else {}
      ensures Valid() && keys == old(keys) && registry == old(registry)
      ensures strategy.value.Best? ==> total == BestOf(Values(), cart, user, now)
      ensures strategy.value.Combinable? ==> total == CombinedSum(Values(), cart, user, now)
      ensures strategy.value.Ordered? ==>
                total == Run(SortByPriority(Values()), cart, user, now).total
                && strategy.value.ordered.appliedDiscounts == Run(SortByPriority(Values()), cart, user, now).trace
    {
      var discounts := ValuesOf(keys, registry);
      match strategy.value
      case Best =>
        total := ApplyBest(discounts, cart, user, now);
      case Combinable =>
        total := ApplyCombinable(discounts, cart, user, now);
      case Ordered(o) =>
        forall i | 0 <= i < |discounts|
          ensures discounts[i] in registry.Values && discounts[i].Valid()
        {
          assert registry[keys[i]] == discounts[i];
        }
        total := o.ApplyDiscounts(discounts, cart, user, now);
        forall k | k in registry
          ensures registry[k].Valid()
        {
          var i :| 0 <= i < |keys| && keys[i] == k;
          assert discounts[i] == registry[k];
        }
    }

    /** `getAppliedDiscounts()`: the ordered strategy's trace, and nothing for any other strategy. */
    function GetAppliedDiscounts(): (r: seq<AppliedDiscount>)
      reads if strategy.Some? && strategy.value.Ordered? then {strategy.value.ordered} else {}
      ensures !(strategy.Some? && strategy.value.Ordered?) ==> r == []
      ensures strategy.Some? && strategy.value.Ordered? ==> r == strategy.value.ordered.appliedDiscounts
    {
      match strategy
      case Some(Ordered(o)) => o.GetAppliedDiscounts()
      case _ => []
    }

    /** `getAllDiscounts()`: the code-to-discount entries in iteration order. */
    function GetAllDiscounts(): (r: seq<(string, CompositeDiscount)>)
      requires Valid()
      reads this, registry.Values
      ensures |r| == |keys| && forall i :: 0 <= i < |r| ==> r[i] == (keys[i], registry[keys[i]])
    {
      var ks, m := keys, registry;
      seq(|ks|, i requires 0 <= i < |ks| && ks[i] in m => (ks[i], m[ks[i]]))
    }

    /** The registry never holds two entries for one code, and has one per key in the order. */
    lemma SizeMatchesKeys()
      requires Valid()
      ensures |registry| == |keys|
    {
      SizeIsKeyCount(keys, registry.Keys);
    }
  }
}
