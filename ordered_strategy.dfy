/**
 * OrderedDiscountStrategy (app/Strategies/OrderedDiscountStrategy.php): visits the discounts by
 * ascending priority, adds every applicable one, stops right after the first
 * applicable discount that is not combinable, and records what it applied.
 */
module OrderedStrategies {
  import opened Carts
  import opened Instants
  import opened Conditions
  import opened Discounts

  // ---------------------------------------------------------------------------
  // `usort` by priority, which is stable in PHP 8

  predicate SortedByPriority(s: seq<CompositeDiscount>) {
    forall i, j :: 0 <= i < j < |s| ==> s[i].priority <= s[j].priority
  }

  /** Every element has priority at least `b`. */
  predicate LowerBound(s: seq<CompositeDiscount>, b: int) {
    forall i :: 0 <= i < |s| ==> b <= s[i].priority
  }

  /** Inserts `x` after every element whose priority is at most its own. */
  function Insert(s: seq<CompositeDiscount>, x: CompositeDiscount): (r: seq<CompositeDiscount>)
    ensures multiset(r) == multiset(s) + multiset{x}
  {
    if s == [] then [x]
    else if x.priority < s[0].priority then [x] + s
    else
      assert s == [s[0]] + s[1..];
      [s[0]] + Insert(s[1..], x)
  }

  lemma {:induction false} InsertLowerBound(s: seq<CompositeDiscount>, x: CompositeDiscount, b: int)
    requires LowerBound(s, b) && b <= x.priority
    ensures LowerBound(Insert(s, x), b)
  {
    if s != [] && x.priority >= s[0].priority {
      InsertLowerBound(s[1..], x, b);
      var rest := Insert(s[1..], x);
      assert Insert(s, x) == [s[0]] + rest;
      assert forall i :: 1 <= i < |rest| + 1 ==> ([s[0]] + rest)[i] == rest[i - 1];
    }
  }

  lemma {:induction false} InsertSorted(s: seq<CompositeDiscount>, x: CompositeDiscount)
    requires SortedByPriority(s)
    ensures SortedByPriority(Insert(s, x))
  {
    if s != [] {
      SortedTail(s);
      if x.priority >= s[0].priority {
        InsertSorted(s[1..], x);
        InsertLowerBound(s[1..], x, s[0].priority);
        ConsSorted(s[0], Insert(s[1..], x));
      } else {
        ConsSorted(x, s);
      }
    }
  }

  /** The tail of a sorted list is sorted and bounded below by its head. */
  lemma SortedTail(s: seq<CompositeDiscount>)
    requires SortedByPriority(s) && s != []
    ensures SortedByPriority(s[1..]) && LowerBound(s[1..], s[0].priority) && LowerBound(s, s[0].priority)
  {
    assert forall i :: 0 <= i < |s| - 1 ==> s[1..][i] == s[i + 1];
  }

  /** A head no larger than a sorted tail gives a sorted list. */
  lemma ConsSorted(h: CompositeDiscount, t: seq<CompositeDiscount>)
    requires SortedByPriority(t) && LowerBound(t, h.priority)
    ensures SortedByPriority([h] + t)
  {
    var r := [h] + t;
    forall i, j | 0 <= i < j < |r|
      ensures r[i].priority <= r[j].priority
    {
      assert r[j] == t[j - 1];
      if i > 0 {
        assert r[i] == t[i - 1];
      }
    }
  }

  /** The list `usort` leaves: sorted by priority and a permutation of its input. */
  function SortByPriority(ds: seq<CompositeDiscount>): (r: seq<CompositeDiscount>)
    ensures SortedByPriority(r)
    ensures multiset(r) == multiset(ds)
  {
    if ds == [] then []
    else
      var init := ds[..|ds| - 1];
      assert ds == init + [ds[|ds| - 1]];
      var sortedInit := SortByPriority(init);
      InsertSorted(sortedInit, ds[|ds| - 1]);
      Insert(sortedInit, ds[|ds| - 1])
  }

  /** The discounts of priority `k`, in list order. */
  function WithPriority(s: seq<CompositeDiscount>, k: int): seq<CompositeDiscount> {
    if s == [] then []
    else (if s[0].priority == k then [s[0]] else []) + WithPriority(s[1..], k)
  }

  lemma ConcatAssoc<T>(a: seq<T>, b: seq<T>, c: seq<T>)
    ensures a + (b + c) == (a + b) + c
  {
  }

  /** Filtering a list that starts with `h`. */
  lemma WithPriorityCons(h: CompositeDiscount, t: seq<CompositeDiscount>, k: int)
    ensures WithPriority([h] + t, k) == (if h.priority == k then [h] else []) + WithPriority(t, k)
  {
    assert ([h] + t)[0] == h && ([h] + t)[1..] == t;
  }

  lemma {:induction false} WithPriorityConcat(a: seq<CompositeDiscount>, b: seq<CompositeDiscount>, k: int)
    ensures WithPriority(a + b, k) == WithPriority(a, k) + WithPriority(b, k)
  {
    if a == [] {
      assert a + b == b;
    } else {
      var h := if a[0].priority == k then [a[0]] else [];
      assert a + b == [a[0]] + (a[1..] + b) && a == [a[0]] + a[1..];
      WithPriorityCons(a[0], a[1..] + b, k);
      WithPriorityCons(a[0], a[1..], k);
      WithPriorityConcat(a[1..], b, k);
      ConcatAssoc(h, WithPriority(a[1..], k), WithPriority(b, k));
    }
  }

  lemma {:induction false} WithPriorityNone(s: seq<CompositeDiscount>, k: int)
    requires forall i :: 0 <= i < |s| ==> s[i].priority != k
    ensures WithPriority(s, k) == []
  {
    if s != [] {
      WithPriorityNone(s[1..], k);
    }
  }

  /** Inserting into a sorted list puts `x` after the elements of equal priority. */
  lemma {:induction false} InsertStable(s: seq<CompositeDiscount>, x: CompositeDiscount, k: int)
    requires SortedByPriority(s)
    ensures WithPriority(Insert(s, x), k) == WithPriority(s, k) + (if x.priority == k then [x] else [])
  {
    if s == [] {
      WithPriorityCons(x, [], k);
      assert [x] == [x] + [];
    } else if x.priority < s[0].priority {
      SortedTail(s);
      InsertAheadStable(s, x, k);
    } else {
      SortedTail(s);
      InsertStable(s[1..], x, k);
      InsertBehindStable(s, x, k);
    }
  }

  /** `x` goes in front: no element of `s` has its priority. */
  lemma InsertAheadStable(s: seq<CompositeDiscount>, x: CompositeDiscount, k: int)
    requires s != [] && x.priority < s[0].priority && LowerBound(s, s[0].priority)
    ensures WithPriority(Insert(s, x), k) == WithPriority(s, k) + (if x.priority == k then [x] else [])
  {
    assert Insert(s, x) == [x] + s;
    WithPriorityCons(x, s, k);
    if x.priority == k {
      WithPriorityNone(s, k);
      assert [x] + [] == [] + [x];
    } else {
      assert [] + WithPriority(s, k) == WithPriority(s, k) + [];
    }
  }

  /** `x` goes behind the head: the head comes first in both filtered lists. */
  lemma InsertBehindStable(s: seq<CompositeDiscount>, x: CompositeDiscount, k: int)
    requires s != [] && x.priority >= s[0].priority
    requires WithPriority(Insert(s[1..], x), k) == WithPriority(s[1..], k) + (if x.priority == k then [x] else [])
    ensures WithPriority(Insert(s, x), k) == WithPriority(s, k) + (if x.priority == k then [x] else [])
  {
    var e := if x.priority == k then [x] else [];
    var h := if s[0].priority == k then [s[0]] else [];
    var rest := Insert(s[1..], x);
    assert Insert(s, x) == [s[0]] + rest;
    WithPriorityCons(s[0], rest, k);
    assert s == [s[0]] + s[1..];
    WithPriorityCons(s[0], s[1..], k);
    ConcatAssoc(h, WithPriority(s[1..], k), e);
  }

  lemma WithPriorityLast(s: seq<CompositeDiscount>, k: int)
    requires s != []
    ensures var x := s[|s| - 1];
            WithPriority(s, k) == WithPriority(s[..|s| - 1], k) + (if x.priority == k then [x] else [])
  {
    var x := s[|s| - 1];
    var init := s[..|s| - 1];
    assert s == init + [x];
    WithPriorityConcat(init, [x], k);
    WithPriorityCons(x, [], k);
    assert [x] + [] == [x];
    assert WithPriority([], k) == [];
  }

  /** The sort of a non-empty list inserts its last element into the sort of the rest. */
  lemma SortUnfold(ds: seq<CompositeDiscount>)
    requires ds != []
    ensures SortByPriority(ds) == Insert(SortByPriority(ds[..|ds| - 1]), ds[|ds| - 1])
  {
  }

  /** Stability: the discounts of each priority keep their input order. */
  lemma {:induction false} SortStable(ds: seq<CompositeDiscount>, k: int)
    ensures WithPriority(SortByPriority(ds), k) == WithPriority(ds, k)
  {
    if ds != [] {
      var init := ds[..|ds| - 1];
      var last := ds[|ds| - 1];
      SortUnfold(ds);
      SortStable(init, k);
      InsertStable(SortByPriority(init), last, k);
      WithPriorityLast(ds, k);
    }
  }

  // ---------------------------------------------------------------------------
  // The accumulation loop

  /** One entry of `$appliedDiscounts`. */
  datatype AppliedDiscount = AppliedDiscount(code: string, amount: real, combinable: bool)

  /** The running total and the trace the loop leaves. */
  datatype Outcome = Outcome(total: real, trace: seq<AppliedDiscount>)

  /** The entry recorded for `d`: its code, its amount and its flag. */
  function Entry(d: CompositeDiscount, cart: CartRows, user: User): AppliedDiscount {
    AppliedDiscount(d.Code(), d.Calculate(cart, user), d.combinable)
  }

  /** The loop over an already sorted list, from its first element. */
  function Run(ds: seq<CompositeDiscount>, cart: CartRows, user: User, now: Instant): Outcome {
    if ds == [] then Outcome(0.0, [])
    else
      var d := ds[0];
      if !d.IsApplicable(cart, user, now) then Run(ds[1..], cart, user, now)
      else if !d.combinable then Outcome(d.Calculate(cart, user), [Entry(d, cart, user)])
      else
        var rest := Run(ds[1..], cart, user, now);
        Outcome(d.Calculate(cart, user) + rest.total, [Entry(d, cart, user)] + rest.trace)
  }

  /** The sum of the recorded amounts. */
  function SumAmounts(trace: seq<AppliedDiscount>): real {
    if trace == [] then 0.0 else trace[0].amount + SumAmounts(trace[1..])
  }

  /** The applicable discounts, in order. */
  function Applicable(ds: seq<CompositeDiscount>, cart: CartRows, user: User, now: Instant): seq<CompositeDiscount> {
    if ds == [] then []
    else (if ds[0].IsApplicable(cart, user, now) then [ds[0]] else []) + Applicable(ds[1..], cart, user, now)
  }

  /** The prefix up to and including the first discount that is not combinable. */
  function ThroughFirstNonCombinable(ds: seq<CompositeDiscount>): seq<CompositeDiscount> {
    if ds == [] then []
    else if !ds[0].combinable then [ds[0]]
    else [ds[0]] + ThroughFirstNonCombinable(ds[1..])
  }

  /** The entries of a list of discounts. */
  function Entries(ds: seq<CompositeDiscount>, cart: CartRows, user: User): seq<AppliedDiscount> {
    if ds == [] then [] else [Entry(ds[0], cart, user)] + Entries(ds[1..], cart, user)
  }

  /**
   * The trace is the entries of the applicable discounts in visiting order, cut
   * after the first one that is not combinable, and the total is their sum.
   */
  lemma {:induction false} RunIsApplied(ds: seq<CompositeDiscount>, cart: CartRows, user: User, now: Instant)
    ensures Run(ds, cart, user, now).trace
            == Entries(ThroughFirstNonCombinable(Applicable(ds, cart, user, now)), cart, user)
    ensures Run(ds, cart, user, now).total == SumAmounts(Run(ds, cart, user, now).trace)
  {
    if ds != [] {
      RunIsApplied(ds[1..], cart, user, now);
      var d := ds[0];
      if d.IsApplicable(cart, user, now) {
        var rest := Applicable(ds[1..], cart, user, now);
        assert Applicable(ds, cart, user, now) == [d] + rest;
        assert ([d] + rest)[1..] == rest;
        if !d.combinable {
          assert Run(ds, cart, user, now).trace == [Entry(d, cart, user)];
          assert [Entry(d, cart, user)][1..] == [];
        } else {
          var trace := Run(ds, cart, user, now).trace;
          assert trace[1..] == Run(ds[1..], cart, user, now).trace;
          var cut := ThroughFirstNonCombinable([d] + rest);
          assert cut == [d] + ThroughFirstNonCombinable(rest);
          assert cut[1..] == ThroughFirstNonCombinable(rest);
        }
      } else {
        assert Applicable(ds, cart, user, now) == [] + Applicable(ds[1..], cart, user, now);
        assert [] + Applicable(ds[1..], cart, user, now) == Applicable(ds[1..], cart, user, now);
      }
    }
  }

  /** One step of the loop, at position `i` of the sorted list. */
  lemma RunStep(s: seq<CompositeDiscount>, i: nat, cart: CartRows, user: User, now: Instant)
    requires i < |s|
    ensures var d := s[i];
            var rest := Run(s[i + 1..], cart, user, now);
            Run(s[i..], cart, user, now)
            == if !d.IsApplicable(cart, user, now) then rest
               else if !d.combinable then Outcome(d.Calculate(cart, user), [Entry(d, cart, user)])
               else Outcome(d.Calculate(cart, user) + rest.total, [Entry(d, cart, user)] + rest.trace)
  {
    assert s[i..][0] == s[i];
    assert s[i..][1..] == s[i + 1..];
  }

  /** The loop's first step on a list that starts with `d`. */
  lemma RunCons(d: CompositeDiscount, rest: seq<CompositeDiscount>, cart: CartRows, user: User, now: Instant)
    ensures var r := Run(rest, cart, user, now);
            Run([d] + rest, cart, user, now)
            == if !d.IsApplicable(cart, user, now) then r
               else if !d.combinable then Outcome(d.Calculate(cart, user), [Entry(d, cart, user)])
               else Outcome(d.Calculate(cart, user) + r.total, [Entry(d, cart, user)] + r.trace)
  {
    assert ([d] + rest)[0] == d && ([d] + rest)[1..] == rest;
  }

  /** Every entry but possibly the last is combinable. */
  predicate AllButLastCombinable(trace: seq<AppliedDiscount>) {
    forall i :: 0 <= i < |trace| - 1 ==> trace[i].combinable
  }

  /** Every entry but possibly the last comes from a combinable discount. */
  lemma {:induction false} OnlyLastNonCombinable(ds: seq<CompositeDiscount>, cart: CartRows, user: User, now: Instant)
    ensures AllButLastCombinable(Run(ds, cart, user, now).trace)
  {
    if ds != [] {
      OnlyLastNonCombinable(ds[1..], cart, user, now);
      var d := ds[0];
      if d.IsApplicable(cart, user, now) && d.combinable {
        var trace := Run(ds, cart, user, now).trace;
        var rest := Run(ds[1..], cart, user, now).trace;
        assert trace == [Entry(d, cart, user)] + rest;
        forall i | 0 <= i < |trace| - 1
          ensures trace[i].combinable
        {
          if i > 0 {
            assert trace[i] == rest[i - 1];
          }
        }
      }
    }
  }

  /** Nothing after the first applicable non-combinable discount contributes. */
  lemma {:induction false} StopsAtNonCombinable(pre: seq<CompositeDiscount>, d: CompositeDiscount,
                                                post: seq<CompositeDiscount>,
                                                cart: CartRows, user: User, now: Instant)
    requires d.IsApplicable(cart, user, now) && !d.combinable
    ensures Run(pre + [d] + post, cart, user, now) == Run(pre + [d], cart, user, now)
  {
    if pre == [] {
      assert ([d] + post)[0] == d;
      assert [] + [d] + post == [d] + post;
      assert [] + [d] == [d];
    } else {
      assert (pre + [d] + post)[1..] == pre[1..] + [d] + post;
      assert (pre + [d])[1..] == pre[1..] + [d];
      StopsAtNonCombinable(pre[1..], d, post, cart, user, now);
    }
  }

  /**
   * When every applicable discount before `d` is combinable, the applicable
   * non-combinable `d` gives the last trace entry.
   */
  lemma {:induction false} NonCombinableIsLast(pre: seq<CompositeDiscount>, d: CompositeDiscount,
                                               post: seq<CompositeDiscount>,
                                               cart: CartRows, user: User, now: Instant)
    requires d.IsApplicable(cart, user, now) && !d.combinable
    requires forall i :: 0 <= i < |pre| && pre[i].IsApplicable(cart, user, now) ==> pre[i].combinable
    ensures var trace := Run(pre + [d] + post, cart, user, now).trace;
            |trace| > 0 && trace[|trace| - 1] == Entry(d, cart, user)
  {
    StopsAtNonCombinable(pre, d, post, cart, user, now);
    LastEntry(pre, d, cart, user, now);
  }

  lemma {:induction false} LastEntry(pre: seq<CompositeDiscount>, d: CompositeDiscount,
                                     cart: CartRows, user: User, now: Instant)
    requires d.IsApplicable(cart, user, now) && !d.combinable
    requires forall i :: 0 <= i < |pre| && pre[i].IsApplicable(cart, user, now) ==> pre[i].combinable
    ensures EndsWith(Run(pre + [d], cart, user, now).trace, Entry(d, cart, user))
  {
    if pre == [] {
      assert [] + [d] == [d];
      RunCons(d, [], cart, user, now);
    } else {
      var t := pre[1..];
      assert pre + [d] == [pre[0]] + (t + [d]);
      assert forall i :: 0 <= i < |t| ==> t[i] == pre[i + 1];
      LastEntry(t, d, cart, user, now);
      LastEntryStep(pre[0], t + [d], Entry(d, cart, user), cart, user, now);
    }
  }

  predicate EndsWith(trace: seq<AppliedDiscount>, e: AppliedDiscount) {
    |trace| > 0 && trace[|trace| - 1] == e
  }

  /** A combinable or inapplicable discount in front keeps the last entry. */
  lemma LastEntryStep(h: CompositeDiscount, rest: seq<CompositeDiscount>, e: AppliedDiscount,
                      cart: CartRows, user: User, now: Instant)
    requires h.IsApplicable(cart, user, now) ==> h.combinable
    requires EndsWith(Run(rest, cart, user, now).trace, e)
    ensures EndsWith(Run([h] + rest, cart, user, now).trace, e)
  {
    RunCons(h, rest, cart, user, now);
    var r := Run(rest, cart, user, now).trace;
    assert ([Entry(h, cart, user)] + r)[|r|] == r[|r| - 1];
  }

  /** An inapplicable discount, wherever it stands, changes neither the total nor the trace. */
  lemma {:induction false} SkipsInapplicable(a: seq<CompositeDiscount>, d: CompositeDiscount, b: seq<CompositeDiscount>,
                                             cart: CartRows, user: User, now: Instant)
    requires !d.IsApplicable(cart, user, now)
    ensures Run(a + [d] + b, cart, user, now) == Run(a + b, cart, user, now)
  {
    if a == [] {
      assert [] + [d] + b == [d] + b;
      assert ([d] + b)[1..] == b;
      assert [] + b == b;
    } else {
      assert (a + [d] + b)[1..] == a[1..] + [d] + b;
      assert (a + b)[1..] == a[1..] + b;
      SkipsInapplicable(a[1..], d, b, cart, user, now);
    }
  }

  /** With no applicable discount, in particular with none at all, the result is 0 and no entries. */
  lemma {:induction false} NothingApplicable(ds: seq<CompositeDiscount>, cart: CartRows, user: User, now: Instant)
    requires forall i :: 0 <= i < |ds| ==> !ds[i].IsApplicable(cart, user, now)
    ensures Run(ds, cart, user, now) == Outcome(0.0, [])
  {
    if ds != [] {
      NothingApplicable(ds[1..], cart, user, now);
    }
  }

  /** The loop has accounted for everything but `rest`, the run over the unvisited discounts. */
  predicate Accounts(total: real, trace: seq<AppliedDiscount>, rest: Outcome, goal: Outcome) {
    total + rest.total == goal.total && trace + rest.trace == goal.trace
  }

  /** Accounting for an applied discount: either the run is complete or the rest is still to come. */
  lemma Advance(total: real, before: seq<AppliedDiscount>, d: CompositeDiscount, next: Outcome, goal: Outcome,
                cart: CartRows, user: User)
    requires var amount, entry := d.Calculate(cart, user), Entry(d, cart, user);
             Accounts(total, before, if d.combinable then Outcome(amount + next.total, [entry] + next.trace)
                                     else Outcome(amount, [entry]), goal)
    ensures var amount, entry := d.Calculate(cart, user), Entry(d, cart, user);
            && (!d.combinable ==> total + amount == goal.total && before + [entry] == goal.trace)
            && (d.combinable ==> Accounts(total + amount, before + [entry], next, goal))
  {
    var entry := Entry(d, cart, user);
    ConcatAssoc(before, [entry], next.trace);
  }

  /** Every element of the sorted list is one of the input discounts. */
  lemma SortedMembers(ds: seq<CompositeDiscount>, sorted: seq<CompositeDiscount>)
    requires multiset(sorted) == multiset(ds)
    ensures forall j :: 0 <= j < |sorted| ==> sorted[j] in ds
  {
    forall j | 0 <= j < |sorted|
      ensures sorted[j] in ds
    {
      assert sorted[j] in multiset(sorted);
    }
  }

  class OrderedDiscountStrategy {
    /** The trace of the last `applyDiscounts` call. */
    var appliedDiscounts: seq<AppliedDiscount>

    constructor()
      ensures appliedDiscounts == []
    {
      appliedDiscounts := [];
    }

    /**
     * `applyDiscounts($applicableDiscounts, $cart, $user)`: resets the trace, sorts a
     * copy of the list, and runs the loop. Asking a discount for its code may fill its
     * code cache; nothing else about the discounts changes.
     */
    method ApplyDiscounts(ds: seq<CompositeDiscount>, cart: CartRows, user: User, now: Instant) returns (total: real)
      requires forall i :: 0 <= i < |ds| ==> ds[i].Valid()
      modifies this, ds
      ensures var outcome := Run(SortByPriority(ds), cart, user, now);
              total == outcome.total && appliedDiscounts == outcome.trace
      ensures forall i :: 0 <= i < |ds| ==> ds[i].Valid()
    {
      appliedDiscounts := [];
      var sorted := SortByPriority(ds);
      SortedMembers(ds, sorted);
      SortedMembers(sorted, ds);
      total := Accumulate(sorted, cart, user, now);
    }

    /** The loop of `applyDiscounts` over the sorted copy, appending to the (reset) trace. */
    method Accumulate(sorted: seq<CompositeDiscount>, cart: CartRows, user: User, now: Instant) returns (total: real)
      requires appliedDiscounts == []
      requires forall i :: 0 <= i < |sorted| ==> sorted[i].Valid()
      modifies this, sorted
      ensures var outcome := Run(sorted, cart, user, now);
              total == outcome.total && appliedDiscounts == outcome.trace
      ensures forall i :: 0 <= i < |sorted| ==> sorted[i].Valid()
    {
      total := 0.0;
      ghost var goal := Run(sorted, cart, user, now);
      var i := 0;
      while i < |sorted|
        invariant 0 <= i <= |sorted|
        invariant Accounts(total, appliedDiscounts, Run(sorted[i..], cart, user, now), goal)
        invariant forall j :: 0 <= j < |sorted| ==> sorted[j].Valid()
      {
        var stop;
        total, stop := Visit(sorted, i, total, cart, user, now, goal);
        if stop {
          break;
        }
        i := i + 1;
      }
    }

    /**
     * The body of the loop for `sorted[i]`: an inapplicable discount is skipped
     * (`continue`); otherwise its amount is added and its entry appended, and `stop`
     * says that it is not combinable (`break`).
     */
    method Visit(sorted: seq<CompositeDiscount>, i: nat, total: real, cart: CartRows, user: User, now: Instant,
                 ghost goal: Outcome)
      returns (newTotal: real, stop: bool)
      requires i < |sorted| && sorted[i].Valid()
      requires Accounts(total, appliedDiscounts, Run(sorted[i..], cart, user, now), goal)
      modifies this, sorted[i]
      ensures sorted[i].Valid()
      ensures stop ==> newTotal == goal.total && appliedDiscounts == goal.trace
      ensures !stop ==> Accounts(newTotal, appliedDiscounts, Run(sorted[i + 1..], cart, user, now), goal)
    {
      var d := sorted[i];
      RunStep(sorted, i, cart, user, now);
      if !d.IsApplicable(cart, user, now) {
        return total, false;
      }
      var amount := d.Calculate(cart, user);
      newTotal := total + amount;
      ghost var before := appliedDiscounts;
      var code := d.GetCode();
      appliedDiscounts := appliedDiscounts + [AppliedDiscount(code, amount, d.combinable)];
      stop := !d.combinable;
      Advance(total, before, d, Run(sorted[i + 1..], cart, user, now), goal, cart, user);
    }

    /** `getAppliedDiscounts()`. */
    function GetAppliedDiscounts(): seq<AppliedDiscount>
      reads this
    {
      appliedDiscounts
    }
  }
}
