/**
 * CompositeDiscount (app/Discount/CompositeDiscount.php): a calculator, an AND-list of
 * conditions, a combinable flag, an optional cap and a priority. Every field
 * but the cached fallback code is fixed by the constructor.
 */
module Discounts {
  import opened Wrappers
  import opened Carts
  import opened Instants
  import opened Conditions
  import opened Calculators
  import Money

  const CodePrefix: string := "discount_"
  const DefaultPriority: int := 100

  /**
   * The expected code of the first top-level `DiscountCode` condition, if any
   * (the `instanceof` test does not look inside chains).
   */
  function FirstCode(conditions: seq<Condition>): (r: Option<string>)
    ensures r.None? <==> forall i :: 0 <= i < |conditions| ==> !conditions[i].DiscountCode?
    ensures r.Some? ==>
              exists i ::
                0 <= i < |conditions| && conditions[i].DiscountCode? && conditions[i].expectedCode == r.value
                && forall j :: 0 <= j < i ==> !conditions[j].DiscountCode?
  {
    if conditions == [] then None
    else if conditions[0].DiscountCode? then Some(conditions[0].expectedCode)
    else
      var r := FirstCode(conditions[1..]);
      assert forall j :: 1 <= j < |conditions| ==> conditions[j] == conditions[1..][j - 1];
      r
  }

  /** A lower-case hexadecimal digit. */
  function HexDigit(n: nat): (c: char)
    requires n < 16
  {
    if n < 10 then ('0' as int + n) as char else ('a' as int + n - 10) as char
  }

  predicate IsHexDigit(c: char) {
    '0' <= c <= '9' || 'a' <= c <= 'f'
  }

  /** The last `width` hexadecimal digits of `n`, most significant first. */
  function Hex(n: nat, width: nat): (s: string)
    ensures |s| == width
    ensures forall i :: 0 <= i < |s| ==> IsHexDigit(s[i])
  {
    if width == 0 then "" else Hex(n / 16, width - 1) + [HexDigit(n % 16)]
  }

  /** Digests are 32-bit, like the eight hexadecimal digits kept of `md5`. */
  const DigestModulus: nat := 0x1_0000_0000

  /** `16^width`. */
  function Pow16(width: nat): (p: nat)
    ensures p >= 1
  {
    if width == 0 then 1 else 16 * Pow16(width - 1)
  }

  /*
   * A stand-in for `md5(serialize($this))`. `serialize` writes out every property
   * of the discount, so the digest folds in the whole configuration: the calculator
   * (its kind, amount, currency or percentage), every condition with its
   * parameters (chains recursively), the combinable flag, the cap and the
   * priority. Only its determinism and what it reads matter to the model.
   */

  /** Folds one more integer into a running digest. */
  function Mix(h: nat, x: int): (r: nat)
    ensures r < DigestModulus
  {
    (h * 31 + x) % DigestModulus
  }

  /** A real as an integer digest input: its value to six decimal places. */
  function RealKey(x: real): int {
    (x * 1000000.0).Floor
  }

  function MixString(h: nat, s: string): (r: nat)
    ensures r < DigestModulus
    decreases s
  {
    if s == [] then h % DigestModulus else MixString(Mix(h, s[0] as int), s[1..])
  }

  function MixInts(h: nat, xs: seq<int>): (r: nat)
    ensures r < DigestModulus
    decreases xs
  {
    if xs == [] then h % DigestModulus else MixInts(Mix(h, xs[0]), xs[1..])
  }

  function MixOptionInt(h: nat, o: Option<int>): (r: nat)
    ensures r < DigestModulus
  {
    if o.None? then Mix(h, 0) else Mix(Mix(h, 1), o.value)
  }

  function MixOptionReal(h: nat, o: Option<real>): (r: nat)
    ensures r < DigestModulus
  {
    if o.None? then Mix(h, 0) else Mix(Mix(h, 1), RealKey(o.value))
  }

  lemma MemberOf(s: set<int>) returns (x: int)
    requires s != {}
    ensures x in s
  {
    if forall y :: y !in s {
      assert false;
    }
    x :| x in s;
  }

  lemma MinExists(s: set<int>)
    requires s != {}
    ensures exists k :: k in s && forall j :: j in s ==> k <= j
  {
    var x := MemberOf(s);
    if s != {x} {
      var rest := s - {x};
      MinExists(rest);
      var k :| k in rest && forall j :: j in rest ==> k <= j;
      var least := if x < k then x else k;
      forall j | j in s
        ensures least <= j
      {
        if j != x {
          assert j in rest;
        }
      }
    }
  }

  /** The least element of a non-empty set of integers. */
  function MinKey(s: set<int>): (k: int)
    requires s != {}
    ensures k in s && forall j :: j in s ==> k <= j
  {
    MinExists(s);
    var k :| k in s && forall j :: j in s ==> k <= j;
    k
  }

  /** A map's entries in increasing key order (PHP keeps insertion order, which the map does not record). */
  function MixMap(h: nat, m: map<int, int>): (r: nat)
    ensures r < DigestModulus
    decreases |m|
  {
    if |m| == 0 then h % DigestModulus
    else
      var k := MinKey(m.Keys);
      MixMap(Mix(Mix(h, k), m[k]), m - {k})
  }

  /** A custom calculator is seen only through `calculate`, so only its kind enters the digest. */
  function MixCalculator(h: nat, c: Calculator): (r: nat)
    ensures r < DigestModulus
  {
    match c
    case FixedAmount(money) => MixString(Mix(Mix(h, 1), RealKey(money.amount)), money.currency)
    case Percentage(p) => Mix(Mix(h, 2), RealKey(p.value))
    case Custom(_) => Mix(h, 3)
  }

  function MixCondition(h: nat, c: Condition): (r: nat)
    ensures r < DigestModulus
    decreases c
  {
    match c
    case ByProductId(p, q) => Mix(Mix(Mix(h, 1), p), q)
    case MultipleProducts(required) => MixMap(Mix(h, 2), required)
    case ProductCategory(ids, requireAll) => Mix(MixInts(Mix(Mix(h, 3), |ids|), ids), if requireAll then 1 else 0)
    case CartTotal(minTotal) => Mix(Mix(h, 4), RealKey(minTotal))
    case AuthenticatedUser => Mix(h, 5)
    case DiscountCode(expected, provided) =>
      MixString(Mix(MixString(Mix(Mix(h, 6), |expected|), expected), |provided|), provided)
    case DateRange(from, to) => MixOptionInt(MixOptionInt(Mix(h, 7), from), to)
    case Chain(cs) => MixConditions(Mix(Mix(h, 8), |cs|), cs)
  }

  function MixConditions(h: nat, cs: seq<Condition>): (r: nat)
    ensures r < DigestModulus
    decreases cs
  {
    if cs == [] then h % DigestModulus else MixConditions(MixCondition(h, cs[0]), cs[1..])
  }

  /** The digest of one discount's configuration. */
  function Fingerprint(calculator: Calculator, conditions: seq<Condition>, combinable: bool,
                       maxAmount: Option<real>, priority: int): (f: nat)
    ensures f < DigestModulus
  {
    var h := MixConditions(Mix(MixCalculator(0, calculator), |conditions|), conditions);
    Mix(Mix(MixOptionReal(h, maxAmount), if combinable then 1 else 0), priority)
  }

  /** `'discount_' . substr(md5(serialize($this)), 0, 8)`: the prefix followed by eight hexadecimal digits. */
  function GeneratedCode(calculator: Calculator, conditions: seq<Condition>, combinable: bool,
                         maxAmount: Option<real>, priority: int): (s: string)
    ensures |s| == |CodePrefix| + 8 && s[..|CodePrefix|] == CodePrefix
    ensures forall i :: |CodePrefix| <= i < |s| ==> IsHexDigit(s[i])
  {
    CodePrefix + Hex(Fingerprint(calculator, conditions, combinable, maxAmount, priority), 8)
  }

  lemma HexDigitInjective(n: nat, m: nat)
    requires n < 16 && m < 16 && HexDigit(n) == HexDigit(m)
    ensures n == m
  {
  }

  /** Below `16^width`, different numbers have different digit strings. */
  lemma {:induction false} HexInjective(n: nat, m: nat, width: nat)
    requires n < Pow16(width) && m < Pow16(width) && Hex(n, width) == Hex(m, width)
    ensures n == m
  {
    if width > 0 {
      var a, b := Hex(n / 16, width - 1), Hex(m / 16, width - 1);
      assert Hex(n, width) == a + [HexDigit(n % 16)] && Hex(m, width) == b + [HexDigit(m % 16)];
      assert a == Hex(n, width)[..width - 1] && b == Hex(m, width)[..width - 1];
      HexDigitInjective(n % 16, m % 16);
      HexInjective(n / 16, m / 16, width - 1);
    }
  }

  /** Two generated codes are equal exactly when the digests of the two configurations are. */
  lemma GeneratedCodeIffFingerprint(c1: Calculator, cs1: seq<Condition>, b1: bool, cap1: Option<real>, p1: int,
                                    c2: Calculator, cs2: seq<Condition>, b2: bool, cap2: Option<real>, p2: int)
    ensures GeneratedCode(c1, cs1, b1, cap1, p1) == GeneratedCode(c2, cs2, b2, cap2, p2)
            <==> Fingerprint(c1, cs1, b1, cap1, p1) == Fingerprint(c2, cs2, b2, cap2, p2)
  {
    var f1, f2 := Fingerprint(c1, cs1, b1, cap1, p1), Fingerprint(c2, cs2, b2, cap2, p2);
    var s1, s2 := GeneratedCode(c1, cs1, b1, cap1, p1), GeneratedCode(c2, cs2, b2, cap2, p2);
    if s1 == s2 {
      assert Pow16(8) == DigestModulus;
      assert Hex(f1, 8) == s1[|CodePrefix|..] && Hex(f2, 8) == s2[|CodePrefix|..];
      HexInjective(f1, f2, 8);
    }
  }

  class CompositeDiscount {
    const calculator: Calculator
    const conditions: seq<Condition>
    const combinable: bool
    const maxAmount: Option<real>
    const priority: int
    /** The cached fallback code, `null` until `getCode` first needs it. */
    var code: Option<string>

    /** The cache is empty or holds the generated code. */
    ghost predicate Valid()
      reads this
    {
      code.None? || code.value == GeneratedCode(calculator, conditions, combinable, maxAmount, priority)
    }

    constructor(calculator: Calculator, conditions: seq<Condition> := [], combinable: bool := false,
                maxAmount: Option<real> := None, priority: int := DefaultPriority)
      ensures this.calculator == calculator && this.conditions == conditions
      ensures this.combinable == combinable && this.maxAmount == maxAmount && this.priority == priority
      ensures code.None? && Valid()
    {
      this.calculator := calculator;
      this.conditions := conditions;
      this.combinable := combinable;
      this.maxAmount := maxAmount;
      this.priority := priority;
      code := None;
    }

    /** The code `getCode()` answers: the first code condition's, otherwise the generated one. */
    function Code(): (s: string)
      ensures FirstCode(conditions).Some? ==> s == FirstCode(conditions).value
      ensures FirstCode(conditions).None? ==> s == GeneratedCode(calculator, conditions, combinable, maxAmount, priority)
    {
      FirstCode(conditions).GetOr(GeneratedCode(calculator, conditions, combinable, maxAmount, priority))
    }

    /**
     * `getCode()`: scans the conditions for a code condition; failing that, fills the
     * cache on first use and returns the cached value, so every call gives the same string.
     */
    method GetCode() returns (s: string)
      requires Valid()
      modifies this
      ensures s == Code() && Valid()
      ensures FirstCode(conditions).Some? ==> code == old(code)
      ensures FirstCode(conditions).None? ==> code == Some(s)
    {
      for i := 0 to |conditions|
        invariant forall j :: 0 <= j < i ==> !conditions[j].DiscountCode?
      {
        if conditions[i].DiscountCode? {
          return conditions[i].expectedCode;
        }
      }
      if code.None? {
        code := Some(GeneratedCode(calculator, conditions, combinable, maxAmount, priority));
      }
      s := code.value;
    }

    /** `isApplicable($cart, $user)`: every condition holds; an empty list always applies. */
    function IsApplicable(cart: CartRows, user: User, now: Instant): (b: bool)
      ensures b <==> forall i :: 0 <= i < |conditions| ==> Eval(conditions[i], cart, user, now)
      ensures conditions == [] ==> b
    {
      AllHold(conditions, cart, user, now)
    }

    /** Whether PHP treats the cap as set: non-null and not `0.0`. */
    predicate Capped() {
      maxAmount.Some? && maxAmount.value != 0.0
    }

    /** `calculate($cart, $user)`: the calculator's amount, limited by a truthy cap. */
    function Calculate(cart: CartRows, user: User): (amount: real)
      ensures Capped() ==> amount <= maxAmount.value
      ensures Capped() ==> amount == Calculators.Calculate(calculator, cart) || amount == maxAmount.value
      ensures Capped() && Calculators.Calculate(calculator, cart) <= maxAmount.value ==>
                amount == Calculators.Calculate(calculator, cart)
      ensures !Capped() ==> amount == Calculators.Calculate(calculator, cart)
    {
      var raw := Calculators.Calculate(calculator, cart);
      if Capped() then (if raw <= maxAmount.value then raw else maxAmount.value) else raw
    }
  }

  /** `calculate` does not consult the user. */
  lemma CalculateIgnoresUser(d: CompositeDiscount, cart: CartRows, u1: User, u2: User)
    ensures d.Calculate(cart, u1) == d.Calculate(cart, u2)
  {
  }

  /** A cap of `0.0` is falsy in PHP and leaves the amount uncapped. */
  lemma ZeroCapIgnored(d: CompositeDiscount, cart: CartRows, user: User)
    requires d.maxAmount == Some(0.0)
    ensures d.Calculate(cart, user) == Calculators.Calculate(d.calculator, cart)
  {
  }

  /**
   * Two code-less discounts whose five configuration fields agree answer the same
   * code, so registering the second replaces the first.
   */
  lemma SameConfigurationSameCode(d1: CompositeDiscount, d2: CompositeDiscount)
    requires FirstCode(d1.conditions).None?
    requires d1.calculator == d2.calculator && d1.conditions == d2.conditions
    requires d1.combinable == d2.combinable && d1.maxAmount == d2.maxAmount && d1.priority == d2.priority
    ensures d1.Code() == d2.Code()
  {
  }

  /**
   * Of two code-less discounts, those whose configurations have different digests
   * answer different codes, so the registry keeps both.
   */
  lemma DifferentFingerprintDifferentCode(d1: CompositeDiscount, d2: CompositeDiscount)
    requires FirstCode(d1.conditions).None? && FirstCode(d2.conditions).None?
    requires Fingerprint(d1.calculator, d1.conditions, d1.combinable, d1.maxAmount, d1.priority)
             != Fingerprint(d2.calculator, d2.conditions, d2.combinable, d2.maxAmount, d2.priority)
    ensures d1.Code() != d2.Code()
  {
    GeneratedCodeIffFingerprint(d1.calculator, d1.conditions, d1.combinable, d1.maxAmount, d1.priority,
                                d2.calculator, d2.conditions, d2.combinable, d2.maxAmount, d2.priority);
  }

  /**
   * A fixed 5 with no cap and a 10% capped at 3, both code-less, not combinable and
   * at priority 100, get different codes.
   */
  lemma CalculatorAndCapSeparateCodes()
    ensures Fingerprint(NewFixedAmountCalculator(5.0), [], false, None, 100)
            != Fingerprint(NewPercentageCalculator(10.0), [], false, Some(3.0), 100)
  {
    FixedDigest();
    PercentageDigest();
  }

  lemma FixedDigest()
    ensures Fingerprint(NewFixedAmountCalculator(5.0), [], false, None, 100) == 4173013643
  {
    var c := NewFixedAmountCalculator(5.0);
    assert c == FixedAmount(Money.MoneyData(5.0, "USD"));
    assert RealKey(5.0) == 5000000;
    assert Mix(Mix(0, 1), 5000000) == 5000031;
    UsdDigest();
    assert MixCalculator(0, c) == 2927119783;
    assert MixConditions(Mix(2927119783, 0), []) == 546400057;
    assert MixOptionReal(546400057, None) == 4053499879;
  }

  lemma UsdDigest()
    ensures MixString(5000031, "USD") == 2927119783
  {
    assert "USD"[1..] == "SD" && "SD"[1..] == "D" && "D"[1..] == [];
    assert MixString(510065213, "D") == 2927119783;
    assert MixString(155001046, "SD") == 2927119783;
  }

  lemma PercentageDigest()
    ensures Fingerprint(NewPercentageCalculator(10.0), [], false, Some(3.0), 100) == 2238020485
  {
    var c := NewPercentageCalculator(10.0);
    assert c == Percentage(Money.PercentageData(10.0));
    assert RealKey(10.0) == 10000000 && RealKey(3.0) == 3000000;
    assert MixCalculator(0, c) == 10000062;
    assert MixConditions(Mix(10000062, 0), []) == 310001922;
    assert MixOptionReal(310001922, Some(3.0)) == 1562103649;
  }

}
