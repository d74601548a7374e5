/**
 * DefaultDiscountFactory (app/Discount/DefaultDiscountFactory.php): the three builders
 * share one condition-list assembly and differ only in the calculator.
 */
module Factories {
  import opened Wrappers
  import opened Php
  import opened Errors
  import opened Carts
  import opened Instants
  import opened Conditions
  import opened Calculators
  import opened Discounts

  /** Whether either date bound was passed (`$validFrom !== null || $validTo !== null`). */
  predicate HasDateBound(validFrom: Option<string>, validTo: Option<string>) {
    validFrom.Some? || validTo.Some?
  }

  /** The code condition a truthy code contributes, with `$providedCode ?? ''`. */
  function CodeCondition(code: string, providedCode: Option<string>): Condition {
    DiscountCode(code, providedCode.GetOr(""))
  }

  /**
   * The condition list every builder passes to `CompositeDiscount`: the caller's
   * conditions, then the code condition if the code is truthy, then the date range
   * if a bound was given. Only an unparsable date makes it fail.
   */
  function AssembleConditions(conditions: seq<Condition>, code: string, providedCode: Option<string>,
                              validFrom: Option<string>, validTo: Option<string>): (r: Result<seq<Condition>, Error>)
    ensures r.Err? <==> HasDateBound(validFrom, validTo) && NewDateRange(validFrom, validTo).Err?
    ensures r.Err? ==> r == Err(NewDateRange(validFrom, validTo).error)
    ensures r.Ok? ==>
              var withCode := conditions + (if Truthy(code) then [CodeCondition(code, providedCode)] else []);
              r.value == withCode + (if HasDateBound(validFrom, validTo) then [NewDateRange(validFrom, validTo).value] else [])
  {
    var withCode := if Truthy(code) then conditions + [CodeCondition(code, providedCode)] else conditions;
    if HasDateBound(validFrom, validTo) then
      match NewDateRange(validFrom, validTo)
      case Err(e) => Err(e)
      case Ok(range) => Ok(withCode + [range])
    else Ok(withCode)
  }

  /** The caller's conditions come first, unchanged and in order. */
  lemma AssemblyKeepsCallerConditions(conditions: seq<Condition>, code: string, providedCode: Option<string>,
                                      validFrom: Option<string>, validTo: Option<string>)
    requires AssembleConditions(conditions, code, providedCode, validFrom, validTo).Ok?
    ensures conditions <= AssembleConditions(conditions, code, providedCode, validFrom, validTo).value
  {
  }

  /** The conditions the factory appends are ones the condition constructors can build. */
  lemma AssemblyKeepsConstructible(conditions: seq<Condition>, code: string, providedCode: Option<string>,
                                   validFrom: Option<string>, validTo: Option<string>)
    requires AssembleConditions(conditions, code, providedCode, validFrom, validTo).Ok?
    requires forall i :: 0 <= i < |conditions| ==> Constructible(conditions[i])
    ensures var cs := AssembleConditions(conditions, code, providedCode, validFrom, validTo).value;
            forall i :: 0 <= i < |cs| ==> Constructible(cs[i])
  {
  }

  /** A falsy code (`''` or `'0'`) adds no code condition; a truthy one adds exactly one. */
  lemma {:induction false} CodeConditionIffTruthy(conditions: seq<Condition>, code: string, providedCode: Option<string>,
                                                  validFrom: Option<string>, validTo: Option<string>)
    requires AssembleConditions(conditions, code, providedCode, validFrom, validTo).Ok?
    ensures var cs := AssembleConditions(conditions, code, providedCode, validFrom, validTo).value;
            CountCodeConditions(cs) == CountCodeConditions(conditions) + (if Truthy(code) then 1 else 0)
  {
    var cs := AssembleConditions(conditions, code, providedCode, validFrom, validTo).value;
    var withCode := conditions + (if Truthy(code) then [CodeCondition(code, providedCode)] else []);
    var tail := if HasDateBound(validFrom, validTo) then [NewDateRange(validFrom, validTo).value] else [];
    assert cs == withCode + tail;
    CountConcat(withCode, tail);
    CountConcat(conditions, if Truthy(code) then [CodeCondition(code, providedCode)] else []);
    if Truthy(code) {
      assert CountCodeConditions([CodeCondition(code, providedCode)]) == 1 by {
        assert [CodeCondition(code, providedCode)][1..] == [];
      }
    }
    if tail != [] {
      assert CountCodeConditions(tail) == 0 by {
        assert tail[1..] == [];
      }
    }
  }

  /** The number of top-level code conditions in a list. */
  function CountCodeConditions(cs: seq<Condition>): nat {
    if cs == [] then 0 else (if cs[0].DiscountCode? then 1 else 0) + CountCodeConditions(cs[1..])
  }

  lemma {:induction false} CountConcat(a: seq<Condition>, b: seq<Condition>)
    ensures CountCodeConditions(a + b) == CountCodeConditions(a) + CountCodeConditions(b)
  {
    if a != [] {
      assert (a + b)[1..] == a[1..] + b;
      CountConcat(a[1..], b);
    } else {
      assert a + b == b;
    }
  }

  /** A date range is appended exactly when a bound was given. */
  lemma DateRangeIffBound(conditions: seq<Condition>, code: string, providedCode: Option<string>,
                          validFrom: Option<string>, validTo: Option<string>)
    requires AssembleConditions(conditions, code, providedCode, validFrom, validTo).Ok?
    ensures var cs := AssembleConditions(conditions, code, providedCode, validFrom, validTo).value;
            var n := |conditions| + (if Truthy(code) then 1 else 0);
            |cs| == n + (if HasDateBound(validFrom, validTo) then 1 else 0)
            && (HasDateBound(validFrom, validTo) ==> cs[n].DateRange?)
  {
  }

  /**
   * With a truthy code and no code condition among the caller's, the built
   * discount's code is that code.
   */
  lemma {:induction false} AssembledCodeIsCode(conditions: seq<Condition>, code: string, providedCode: Option<string>,
                                               validFrom: Option<string>, validTo: Option<string>)
    requires Truthy(code) && FirstCode(conditions).None?
    requires AssembleConditions(conditions, code, providedCode, validFrom, validTo).Ok?
    ensures FirstCode(AssembleConditions(conditions, code, providedCode, validFrom, validTo).value) == Some(code)
  {
    var cs := AssembleConditions(conditions, code, providedCode, validFrom, validTo).value;
    var n := |conditions|;
    assert cs[n] == CodeCondition(code, providedCode);
    assert forall j :: 0 <= j < n ==> cs[j] == conditions[j];
    FirstCodeAt(cs, n);
  }

  /** The first code condition found at index `i` determines `FirstCode`. */
  lemma FirstCodeAt(cs: seq<Condition>, i: nat)
    requires i < |cs| && cs[i].DiscountCode?
    requires forall j :: 0 <= j < i ==> !cs[j].DiscountCode?
    ensures FirstCode(cs) == Some(cs[i].expectedCode)
  {
    var r := FirstCode(cs);
    assert r.Some?;
    var k :| 0 <= k < |cs| && cs[k].DiscountCode? && cs[k].expectedCode == r.value
             && forall j :: 0 <= j < k ==> !cs[j].DiscountCode?;
    assert k == i;
  }

  /**
   * A truthy code without a provided code makes the discount inapplicable for
   * every cart, user and instant: the appended `DiscountCode(code, '')` cannot hold.
   */
  lemma NoProvidedCodeNeverApplies(conditions: seq<Condition>, code: string,
                                   validFrom: Option<string>, validTo: Option<string>,
                                   cart: CartRows, user: User, now: Instant)
    requires Truthy(code)
    requires AssembleConditions(conditions, code, None, validFrom, validTo).Ok?
    ensures !AllHold(AssembleConditions(conditions, code, None, validFrom, validTo).value, cart, user, now)
  {
    var cs := AssembleConditions(conditions, code, None, validFrom, validTo).value;
    assert cs[|conditions|] == DiscountCode(code, "");
    assert !Eval(cs[|conditions|], cart, user, now);
  }

  /**
   * `createFixedDiscount`: a `FixedAmountCalculator($amount)` in the default currency.
   * An unparsable date is the only failure.
   */
  method CreateFixedDiscount(code: string, amount: real, conditions: seq<Condition> := [],
                             combinable: bool := false, maxAmount: Option<real> := None,
                             priority: int := DefaultPriority, providedCode: Option<string> := None,
                             validFrom: Option<string> := None, validTo: Option<string> := None)
    returns (r: Result<CompositeDiscount, Error>)
    ensures var assembled := AssembleConditions(conditions, code, providedCode, validFrom, validTo);
            (r.Err? <==> assembled.Err?) && (r.Err? ==> r.error == assembled.error)
            && (r.Ok? ==> fresh(r.value) && r.value.Valid() && r.value.code.None?
                          && r.value.calculator == NewFixedAmountCalculator(amount)
                          && r.value.conditions == assembled.value
                          && r.value.combinable == combinable && r.value.maxAmount == maxAmount
                          && r.value.priority == priority)
  {
    var assembled := AssembleConditions(conditions, code, providedCode, validFrom, validTo);
    if assembled.Err? {
      return Err(assembled.error);
    }
    var d := new CompositeDiscount(NewFixedAmountCalculator(amount), assembled.value, combinable, maxAmount, priority);
    return Ok(d);
  }

  /** `createPercentageDiscount`: a `PercentageCalculator($percentage)`. */
  method CreatePercentageDiscount(code: string, percentage: real, conditions: seq<Condition> := [],
                                  combinable: bool := false, maxAmount: Option<real> := None,
                                  priority: int := DefaultPriority, providedCode: Option<string> := None,
                                  validFrom: Option<string> := None, validTo: Option<string> := None)
    returns (r: Result<CompositeDiscount, Error>)
    ensures var assembled := AssembleConditions(conditions, code, providedCode, validFrom, validTo);
            (r.Err? <==> assembled.Err?) && (r.Err? ==> r.error == assembled.error)
            && (r.Ok? ==> fresh(r.value) && r.value.Valid() && r.value.code.None?
                          && r.value.calculator == NewPercentageCalculator(percentage)
                          && r.value.conditions == assembled.value
                          && r.value.combinable == combinable && r.value.maxAmount == maxAmount
                          && r.value.priority == priority)
  {
    var assembled := AssembleConditions(conditions, code, providedCode, validFrom, validTo);
    if assembled.Err? {
      return Err(assembled.error);
    }
    var d := new CompositeDiscount(NewPercentageCalculator(percentage), assembled.value, combinable, maxAmount, priority);
    return Ok(d);
  }

  /** `createCustomDiscount`: the caller's calculator, unchanged. */
  method CreateCustomDiscount(code: string, calculator: Calculator, conditions: seq<Condition> := [],
                              combinable: bool := false, maxAmount: Option<real> := None,
                              priority: int := DefaultPriority, providedCode: Option<string> := None,
                              validFrom: Option<string> := None, validTo: Option<string> := None)
    returns (r: Result<CompositeDiscount, Error>)
    ensures var assembled := AssembleConditions(conditions, code, providedCode, validFrom, validTo);
            (r.Err? <==> assembled.Err?) && (r.Err? ==> r.error == assembled.error)
            && (r.Ok? ==> fresh(r.value) && r.value.Valid() && r.value.code.None?
                          && r.value.calculator == calculator
                          && r.value.conditions == assembled.value
                          && r.value.combinable == combinable && r.value.maxAmount == maxAmount
                          && r.value.priority == priority)
  {
    var assembled := AssembleConditions(conditions, code, providedCode, validFrom, validTo);
    if assembled.Err? {
      return Err(assembled.error);
    }
    var d := new CompositeDiscount(calculator, assembled.value, combinable, maxAmount, priority);
    return Ok(d);
  }
}
