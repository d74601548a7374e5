/**
 * MoneyData and PercentageData: immutable value objects. Every operation returns
 * a new value; a receiver is never changed.
 */
module Money {
  import opened Wrappers
  import opened Errors

  const DefaultCurrency: string := "USD"

  /** An amount in a currency; the currency defaults to USD as in the constructor. */
  datatype MoneyData = MoneyData(amount: real, currency: string := DefaultCurrency)

  /** The `#[Min(0.01)]` validation annotation; a plain `new` does not enforce it. */
  predicate MeetsMinimum(m: MoneyData) {
    m.amount >= 0.01
  }

  function MismatchMessage(a: MoneyData, b: MoneyData): string {
    "Cannot operate on different currencies: " + a.currency + " and " + b.currency
  }

  /** `ensureSameCurrency`: throws `InvalidArgumentException` unless the currencies are identical. */
  function EnsureSameCurrency(a: MoneyData, b: MoneyData): (r: Result<(), Error>)
    ensures r.Ok? <==> a.currency == b.currency
    ensures r.Err? ==> r.error == InvalidArgument(MismatchMessage(a, b))
  {
    if a.currency != b.currency then Err(InvalidArgument(MismatchMessage(a, b))) else Ok(())
  }

  /** `a->add(b)` */
  function Add(a: MoneyData, b: MoneyData): (r: Result<MoneyData, Error>)
    ensures r.Ok? <==> a.currency == b.currency
    ensures r.Err? ==> r.error == InvalidArgument(MismatchMessage(a, b))
    ensures r.Ok? ==> r.value.currency == a.currency && r.value.amount - b.amount == a.amount
  {
    match EnsureSameCurrency(a, b)
    case Err(e) => Err(e)
    case Ok(_) => Ok(MoneyData(a.amount + b.amount, a.currency))
  }

  /** `a->subtract(b)`: the difference floored at zero. */
  function Subtract(a: MoneyData, b: MoneyData): (r: Result<MoneyData, Error>)
    ensures r.Ok? <==> a.currency == b.currency
    ensures r.Err? ==> r.error == InvalidArgument(MismatchMessage(a, b))
    ensures r.Ok? ==> r.value.currency == a.currency && r.value.amount >= 0.0
    ensures r.Ok? && a.amount >= b.amount ==> r.value.amount + b.amount == a.amount
    ensures r.Ok? && a.amount <= b.amount ==> r.value.amount == 0.0
  {
    match EnsureSameCurrency(a, b)
    case Err(e) => Err(e)
    case Ok(_) =>
      var result := a.amount - b.amount;
      Ok(MoneyData(if result > 0.0 then result else 0.0, a.currency))
  }

  /** `a->multiply(m)`: no currency check, currency kept. */
  function Multiply(a: MoneyData, multiplier: real): (r: MoneyData)
    ensures r.currency == a.currency
    ensures r.amount == a.amount * multiplier
  {
    MoneyData(a.amount * multiplier, a.currency)
  }

  /** Scaling distributes over addition, and scaling by 1 is the identity. */
  lemma MultiplyDistributes(a: MoneyData, b: MoneyData, m: real)
    requires a.currency == b.currency
    ensures Add(Multiply(a, m), Multiply(b, m)) == Ok(Multiply(Add(a, b).value, m))
    ensures Multiply(a, 1.0) == a
  {
    var sum := Add(a, b).value;
    assert sum == MoneyData(a.amount + b.amount, a.currency);
    assert (a.amount + b.amount) * m == a.amount * m + b.amount * m;
    var x, y := Multiply(a, m), Multiply(b, m);
    assert x.currency == y.currency;
    assert EnsureSameCurrency(x, y) == Ok(());
    assert Add(x, y) == Ok(MoneyData(x.amount + y.amount, x.currency));
    assert Multiply(sum, m) == MoneyData(sum.amount * m, a.currency);
    assert sum.amount * m == x.amount + y.amount;
  }

  /** Adding and then subtracting the same money gives the original amount back. */
  lemma SubtractUndoesAdd(a: MoneyData, b: MoneyData)
    requires a.currency == b.currency && a.amount >= 0.0
    ensures Add(a, b).Ok? && Subtract(Add(a, b).value, b) == Ok(a)
  {
    var s := Add(a, b).value;
    assert s.amount == a.amount + b.amount;
  }

  /** Addition is commutative on amounts; the result takes the receiver's currency. */
  lemma AddCommutes(a: MoneyData, b: MoneyData)
    requires a.currency == b.currency
    ensures Add(a, b) == Add(b, a)
  {
  }

  /** Two values meeting the annotated minimum add up to one that meets it too. */
  lemma AddKeepsMinimum(a: MoneyData, b: MoneyData)
    requires a.currency == b.currency && MeetsMinimum(a) && MeetsMinimum(b)
    ensures MeetsMinimum(Add(a, b).value)
  {
  }

  /** `getCurrencySymbol`: the four known symbols, else the code followed by a space. */
  function CurrencySymbol(currency: string): (s: string)
    ensures currency == "USD" ==> s == "$"
    ensures currency == "EUR" ==> s == "€"
    ensures currency == "GBP" ==> s == "£"
    ensures currency == "JPY" ==> s == "¥"
    ensures currency !in {"USD", "EUR", "GBP", "JPY"} ==> s == currency + " "
  {
    var symbols := map["USD" := "$", "EUR" := "€", "GBP" := "£", "JPY" := "¥"];
    if currency in symbols then symbols[currency] else currency + " "
  }

  /** A percentage; `#[Min(0)] #[Max(100)]` are annotations, stated as hypotheses below. */
  datatype PercentageData = PercentageData(value: real)

  /** `asDecimal()`: the fraction the percentage stands for. */
  function AsDecimal(p: PercentageData): (d: real)
    ensures d * 100.0 == p.value
    ensures 0.0 <= p.value <= 100.0 ==> 0.0 <= d <= 1.0
  {
    p.value / 100.0
  }

  /** The documented example: 25% becomes 0.25. */
  lemma AsDecimalExample()
    ensures AsDecimal(PercentageData(25.0)) == 0.25
  {
  }
}
