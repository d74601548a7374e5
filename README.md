# Discount evaluation engine, modelled in Dafny

This project models the discount engine of a small Laravel demo shop. It covers three things:
- whether a discount applies to a cart and an optional user;
- how much the discount is worth;
- how the registered discounts combine into one amount.

**Discounts.** A discount (`CompositeDiscount`) has five parts:
- a calculator: a fixed amount, a percentage of the cart total, or a caller's own;
- a list of conditions;
- a combinable flag;
- an optional cap;
- a priority.

**Conditions.** Each condition is a predicate over the cart, the user and the current instant:
- a product in a minimum quantity;
- several products;
- a category, any or all;
- a cart total;
- an authenticated user;
- an exact discount code;
- a date window;
- a chain of conditions.

**Building discounts.** A factory assembles each discount's condition list. A resolver turns array descriptors into conditions.

**Strategies.** There are three ways to combine discounts:
- the best single discount;
- the sum of the combinable ones;
- a priority-ordered pass that stops after the first non-combinable discount it applies. This pass records a trace of what it applied.

**The service.** The discount service keeps a registry keyed by discount code and hands its values to the configured strategy.

## How the model is organised

The modules follow the source tree:

| module | file | models |
|---|---|---|
| `Money` | money.dfy | `MoneyData` and `PercentageData` |
| `Carts` | carts.dfy | the cart model, with its rows and the `Cart` state machine |
| `Calculators` | calculators.dfy | the calculators |
| `Conditions` | conditions.dfy | every condition class, as one `Condition` datatype with `Eval` |
| `ConditionChains` | condition_chain.dfy | the mutable chain object |
| `ProductRequirements` | multiple_products.dfy | the multi-product condition object |
| `Resolvers` | resolver.dfy | the resolver |
| `Discounts` | discount.dfy | `CompositeDiscount` |
| `Factories` | factory.dfy | the factory |
| `BestStrategies`, `CombinableStrategies`, `OrderedStrategies` | best_strategy.dfy, combinable_strategy.dfy, ordered_strategy.dfy | the strategies |
| `Services` | service.dfy | the service |
| `Boot` | boot.dfy | the start-up registrations |

Three small modules support the rest:
- `Wrappers`: `Option` and `Result`;
- `Php`: truthiness and descriptor values;
- `Errors`: the exceptions, as values.

**State.** Code that changes state is modelled with classes:
- the cart;
- the chain object;
- the multi-product condition;
- the discount's code cache;
- the ordered strategy's trace;
- the service registry.

**Loops.** Every loop in the source that accumulates a value or updates state is a method with invariants. Each such method is proved against a specification function:
- `BestOf`, `CombinedSum` and `Run` for the strategies;
- `Subtotal` for the cart total;
- `ToMap` for the constructor loop of the multi-product condition;
- `FirstCode` for `getCode`;
- `KeysAfter` and `RegistryAfter` for `registerDiscounts`;
- the given list itself for the constructor loop of the chain object.

The lemmas are stated about those functions.

The read-only loops, which only test their elements, are functions:
- the AND loops of `ConditionChain::isSatisfied` and `CompositeDiscount::isApplicable`, as `Conditions.AllHold`;
- the loop of `MultipleProductsCondition::isSatisfied`, as a quantifier inside `Conditions.Eval`;
- the two loops of `ProductCategoryCondition::isSatisfied`, as `Conditions.AllPresent` and `Conditions.AnyPresent`;
- the category loop of `Cart::getProductCategoryIds`, as `Carts.CategoryIds`.

**Inputs made explicit.** `now` is the current instant, in Unix seconds. It is passed to every condition, where the source reads `Carbon::now()`. The user is an `Option<bool>`: absent, or present with its `isAuthenticated()` answer. Money is `real`.

**What the model shows about the start-up registrations.** `AppServiceProvider::boot` registers three discounts. Each is built with a code and no provided code. So none of them applies to any cart, for any user, at any instant (`Boot.RegisterStartupDiscounts`).

## Model

| member | source | states |
|---|---|---|
| Money.EnsureSameCurrency | app/Data/MoneyData.php:76-81 | succeeds exactly when the two currencies are identical; otherwise an invalid-argument error carrying both currency codes |
| Money.Add | app/Data/MoneyData.php:39-43 | fails exactly on a currency mismatch; otherwise the result has the receiver's currency and an amount exceeding the receiver's by the argument's |
| Money.Subtract | app/Data/MoneyData.php:52-57 | fails exactly on a currency mismatch; otherwise never negative, exactly the difference when the receiver is larger, 0 when it is not, in the receiver's currency |
| Money.Multiply | app/Data/MoneyData.php:65-68 | the amount times the multiplier, in the same currency; the currency is never checked or changed |
| Money.MultiplyDistributes | app/Data/MoneyData.php:39-68 | scaling two sums equals summing the scaled values; scaling by 1 is the identity |
| Money.SubtractUndoesAdd | app/Data/MoneyData.php:39-57 | subtracting what was just added gives back the original non-negative money |
| Money.AddCommutes | app/Data/MoneyData.php:39-43 | with equal currencies, adding in either order gives the same money |
| Money.AddKeepsMinimum | app/Data/MoneyData.php:24-43 | two amounts meeting the annotated minimum of 0.01 add up to one that meets it |
| Money.CurrencySymbol | app/Data/MoneyData.php:99-109 | `$`, `€`, `£`, `¥` for USD, EUR, GBP, JPY; any other code followed by a space |
| Money.AsDecimal | app/Data/PercentageData.php:38-41 | the decimal times 100 is the percentage; a percentage in the annotated range 0..100 gives a decimal in 0..1 |
| Money.AsDecimalExample | app/Data/PercentageData.php:34-40 | 25% is 0.25 |
| Calculators.NewFixedAmountCalculator | app/Calculators/FixedAmountCalculator.php:30-33 | a fixed calculator holding the amount and the currency (USD by default) |
| Calculators.NewPercentageCalculator | app/Calculators/PercentageCalculator.php:29-32 | a percentage calculator holding the percentage |
| Calculators.Calculate | app/Calculators/PercentageCalculator.php:42-45 | a percentage calculator gives total × p / 100; a fixed one gives its amount; a custom one gives its own answer |
| Calculators.FixedAmountIgnoresCart | app/Calculators/FixedAmountCalculator.php:30-47 | a fixed calculator returns its constructor amount for every cart and every currency |
| Calculators.PercentageEnds | app/Calculators/PercentageCalculator.php:42-45 | 0% gives 0 and 100% gives the whole total |
| Calculators.PercentageWithinTotal | app/Calculators/PercentageCalculator.php:42-45 | for 0 ≤ p ≤ 100 and a non-negative total, the amount lies between 0 and the total |
| Calculators.PercentageMonotone | app/Calculators/PercentageCalculator.php:42-45 | for a fixed p ≥ 0, a larger total never gives a smaller amount |
| Calculators.CalculateThroughTotal | app/Calculators/PercentageCalculator.php:42-45 | fixed and percentage calculators see the cart only through its total |
| Carts.IndexOf | app/Models/Cart.php:64 | the position of the first row of the product, or none when no row has it |
| Carts.Quantity | app/Models/Cart.php:62-66 | 0 for a product the cart does not hold; otherwise that product's row quantity |
| Carts.CategoryIds | app/Models/Cart.php:73-80 | exactly the non-null categories of the cart's rows, each once |
| Carts.AddedQuantity | app/Models/Cart.php:89-102 | adding a product raises its quantity by one and leaves every other product's quantity alone |
| Carts.AddedWellFormed | app/Models/Cart.php:89-102 | adding keeps one row per product, every quantity at least 1, and every row true to the products table |
| Carts.RemovedQuantity | app/Models/Cart.php:110-125 | removing lowers a held product's quantity by one (to 0 when it held one); an absent product and the other products are left alone |
| Carts.RemovedWellFormed | app/Models/Cart.php:110-125 | removing keeps one row per product, every quantity at least 1, and the rows true to the products table |
| Carts.AddedSubtotal | app/Models/Cart.php:89-102 | adding a product raises the total by its catalogue price |
| Carts.RemovedSubtotal | app/Models/Cart.php:110-125 | removing a held product lowers the total by its price; an absent product leaves the total alone |
| Carts.RemoveUndoesAdd | app/Models/Cart.php:89-125 | removing right after adding gives back exactly the rows there were before |
| Carts.Cart.Total | app/Models/Cart.php:47-54 | the loop returns the sum of price × quantity over the rows |
| Carts.Cart.AddItem | app/Models/Cart.php:89-102 | the new rows are the added rows; quantities change only for the item, by one; the total rises by the item's price; the cart stays well formed |
| Carts.Cart.RemoveItem | app/Models/Cart.php:110-125 | the new rows are the removed rows; only the item's quantity changes, by one if held; the cart stays well formed |
| Carts.Cart.Clear | app/Models/Cart.php:152-155 | the cart is empty, its total is 0 and every quantity is 0 |
| Instants.Format | app/Conditions/DateRangeCondition.php:52-53 | the text of an instant is at least two characters long and starts with `@` |
| Instants.Parse | app/Conditions/DateRangeCondition.php:18-19 | only `@`-prefixed text is readable |
| Instants.ParseFormat | app/Conditions/DateRangeCondition.php:18-53 | reading back the text of an instant gives the instant |
| Instants.DigitsRoundTrip | app/Conditions/DateRangeCondition.php:52-53 | decimal digits read back to the number they were written from |
| Conditions.AllHold | app/Conditions/ConditionChain.php:63-71 | the AND loop holds exactly when every condition holds, so an empty list holds |
| Conditions.AllPresent | app/Conditions/ProductCategoryCondition.php:37-44 | true exactly when every listed category is among the cart's |
| Conditions.AnyPresent | app/Conditions/ProductCategoryCondition.php:45-53 | true exactly when at least one listed category is among the cart's |
| Conditions.NewProductCategory | app/Conditions/ProductCategoryCondition.php:17-24 | refuses exactly the empty category list, with its message; otherwise the condition with the given ids and flag, which is `Constructible` |
| Conditions.ParseBound | app/Conditions/DateRangeCondition.php:18-19 | an absent, empty or `'0'` text is no bound; other text is parsed, and unreadable text is an error |
| Conditions.NewDateRange | app/Conditions/DateRangeCondition.php:16-20 | succeeds exactly when both bounds parse; the condition holds the parsed bounds |
| Conditions.ToArray | app/Conditions/DateRangeCondition.php:48-55 | the type is `date_range`, and a bound is null exactly when it is absent |
| Conditions.TextArgument | app/Conditions/DateRangeCondition.php:42-45 | a missing or null entry is no text; a string entry is that text; anything else is a type error |
| Conditions.FromArray | app/Conditions/DateRangeCondition.php:40-46 | a successful result is a date-range condition |
| Conditions.BoundRoundTrip | app/Conditions/DateRangeCondition.php:18-53 | a bound written by `toArray` is truthy and parses back to itself |
| Conditions.DateRangeRoundTrip | app/Conditions/DateRangeCondition.php:40-55 | `fromArray(toArray(c))` is `c` |
| Conditions.ByProductIdDefault | app/Conditions/ByProductIdCondition.php:17-33 | with the default minimum of 1, the condition holds exactly when the cart holds the product |
| Conditions.ByProductIdNonPositiveMinimum | app/Conditions/ByProductIdCondition.php:29-33 | a minimum of 0 or less is met by every cart |
| Conditions.ByProductIdMonotone | app/Conditions/ByProductIdCondition.php:29-33 | more of the product keeps the condition satisfied |
| Conditions.CartTotalMonotone | app/Conditions/CartTotalCondition.php:31-34 | a total equal to the minimum passes, and a larger total keeps it passing |
| Conditions.AuthenticatedUserCases | app/Conditions/AuthenticatedUserCondition.php:24-27 | no user fails, an unauthenticated user fails, an authenticated user passes |
| Conditions.DiscountCodeExact | app/Conditions/DiscountCodeCondition.php:29-32 | holds exactly when the provided code equals the expected one; an empty provided code never matches a non-empty one |
| Conditions.CategoryByRows | app/Conditions/ProductCategoryCondition.php:33-54 | "all" holds when every listed category is some row's category; "any" holds when one is |
| Conditions.WindowInclusive | app/Conditions/DateRangeCondition.php:22-38 | no bounds always holds; both ends of a window are inclusive; a single bound is a plain comparison |
| Conditions.AddItemKeepsQuantityConditions | app/Models/Cart.php:89-102 | adding a product never breaks a product, multi-product or cart-total condition (the last needs a non-negative price) |
| Conditions.AllCategoriesImpliesAny | app/Conditions/ProductCategoryCondition.php:37-53 | for a non-empty list, "all present" implies "any present" |
| Conditions.InvertedWindowNeverHolds | app/Conditions/DateRangeCondition.php:32-37 | a window that starts after it ends admits no instant |
| Conditions.UserIrrelevant | app/Conditions/CartTotalCondition.php:31-34 | a condition that never consults the user gives the same answer for every user |
| Conditions.CartIrrelevant | app/Conditions/DiscountCodeCondition.php:29-32 | a condition that never consults the cart gives the same answer for every cart |
| Conditions.ClockIrrelevant | app/Conditions/DateRangeCondition.php:29-37 | a condition without a date window gives the same answer at every instant |
| Conditions.AllHoldAppend | app/Conditions/ConditionChain.php:47-71 | appending a condition gives the old answer AND the new condition |
| Conditions.AllHoldStopsAtFailure | app/Discount/CompositeDiscount.php:89-92 | once a condition fails, the conditions after it cannot change the answer |
| ConditionChains.ConditionChain.constructor | app/Conditions/ConditionChain.php:31-39 | the chain holds the given conditions in the given order |
| ConditionChains.ConditionChain.AddCondition | app/Conditions/ConditionChain.php:47-51 | the condition goes at the end; the members already there keep their order |
| ConditionChains.ConditionChain.IsSatisfied | app/Conditions/ConditionChain.php:63-71 | the AND of the members; an empty chain is satisfied |
| ConditionChains.ConditionChain.ToCondition | app/Conditions/ConditionChain.php:78-81 | the chain condition over exactly the stored list |
| ConditionChains.AddConditionOnlyNarrows | app/Conditions/ConditionChain.php:47-71 | after adding, the chain is satisfied exactly when it was before and the new condition holds |
| ProductRequirements.MultipleProductsCondition.AddProductRequirement | app/Conditions/MultipleProductsCondition.php:69-77 | refuses a quantity ≤ 0 and then leaves the map alone; otherwise sets that product's entry and leaves the others alone; every quantity stays positive |
| ProductRequirements.MultipleProductsCondition.IsSatisfied | app/Conditions/MultipleProductsCondition.php:39-50 | holds exactly when every required product is present in at least its quantity; an empty map holds |
| ProductRequirements.MultipleProductsCondition.ToCondition | app/Conditions/MultipleProductsCondition.php:57-60 | the multi-product condition over exactly the stored map; while the object keeps its positive-quantity invariant, a `Constructible` value |
| ProductRequirements.ToMap | app/Conditions/MultipleProductsCondition.php:23-29 | the keys are exactly the entries' product ids |
| ProductRequirements.ToMapLastWins | app/Conditions/MultipleProductsCondition.php:28 | each product maps to the quantity of its last entry |
| ProductRequirements.ToMapPositive | app/Conditions/MultipleProductsCondition.php:24-28 | positive entries build a map of positive quantities |
| ProductRequirements.NewMultipleProducts | app/Conditions/MultipleProductsCondition.php:21-30 | fails exactly when some quantity is ≤ 0, with the constructor's message; otherwise a fresh valid object whose map is built from the entries |
| Resolvers.IntArgument | app/Resolvers/ConditionResolver.php:16 | an integer entry is passed on; anything else is a type error naming the key |
| Resolvers.FloatArgument | app/Resolvers/ConditionResolver.php:18 | a float is passed on and an integer is widened; anything else is a type error |
| Resolvers.Resolve | app/Resolvers/ConditionResolver.php:13-23 | each of the four tags builds its condition from the descriptor's entries; any other tag is the unknown-type error carrying the tag; every resolved condition is `Constructible` |
| Resolvers.ResolvedKinds | app/Resolvers/ConditionResolver.php:15-21 | only product, authenticated-user, cart-total and date-range conditions come out |
| Resolvers.ResolveToArray | app/Resolvers/ConditionResolver.php:19 | a date-range descriptor from `toArray` resolves back to its condition |
| Resolvers.ResolveByProductId | app/Resolvers/ConditionResolver.php:16 | a product descriptor resolves to exactly that product condition |
| Resolvers.ResolveCartTotal | app/Resolvers/ConditionResolver.php:18 | a cart-total descriptor carries its threshold through, an integer one widened |
| Discounts.FirstCode | app/Discount/CompositeDiscount.php:56-60 | none exactly when no condition is a code condition; otherwise the expected code of the first one in list order |
| Discounts.GeneratedCode | app/Discount/CompositeDiscount.php:64 | `discount_` followed by eight hexadecimal digits |
| Discounts.GeneratedCodeIffFingerprint | app/Discount/CompositeDiscount.php:64 | two generated codes are equal exactly when the digests of the two whole configurations are equal |
| Discounts.CompositeDiscount.constructor | app/Discount/CompositeDiscount.php:37-43 | keeps every argument unchanged (defaults: no conditions, not combinable, no cap, priority 100); the cache starts empty |
| Discounts.CompositeDiscount.Code | app/Discount/CompositeDiscount.php:53-68 | the first code condition's code, otherwise the generated code |
| Discounts.CompositeDiscount.GetCode | app/Discount/CompositeDiscount.php:53-68 | returns `Code()`; without a code condition it fills the cache with that value, so every later call returns the same string |
| Discounts.CompositeDiscount.IsApplicable | app/Discount/CompositeDiscount.php:87-95 | true exactly when every condition holds; an empty list always applies |
| Discounts.CompositeDiscount.Calculate | app/Discount/CompositeDiscount.php:104-108 | with a truthy cap, the smaller of the amount and the cap; with no cap or a cap of 0.0, the calculator's amount |
| Discounts.CalculateIgnoresUser | app/Discount/CompositeDiscount.php:104-108 | the amount is the same for every user |
| Discounts.ZeroCapIgnored | app/Discount/CompositeDiscount.php:107 | a cap of 0.0 is falsy and leaves the amount uncapped |
| Discounts.SameConfigurationSameCode | app/Discount/CompositeDiscount.php:62-67 | two code-less discounts that agree on calculator, conditions, flag, cap and priority get the same code |
| Discounts.DifferentFingerprintDifferentCode | app/Discount/CompositeDiscount.php:62-67 | two code-less discounts whose configurations have different digests get different codes |
| Discounts.CalculatorAndCapSeparateCodes | app/Discount/CompositeDiscount.php:64 | a fixed 5 with no cap and a 10% capped at 3, otherwise alike, have different digests, so both stay registered |
| Factories.AssembleConditions | app/Discount/DefaultDiscountFactory.php:48-56 | the caller's conditions, then `DiscountCode(code, provided ?? '')` for a truthy code, then the date range when a bound is given; fails only when a given bound does not parse |
| Factories.AssemblyKeepsCallerConditions | app/Discount/DefaultDiscountFactory.php:40-56 | the caller's list is a prefix of the result, unchanged |
| Factories.AssemblyKeepsConstructible | app/Discount/DefaultDiscountFactory.php:48-56 | over constructible caller conditions, every assembled condition is constructible |
| Factories.CodeConditionIffTruthy | app/Discount/DefaultDiscountFactory.php:49-51 | `''` and `'0'` add no code condition; a truthy code adds exactly one |
| Factories.DateRangeIffBound | app/Discount/DefaultDiscountFactory.php:54-56 | a date range is appended exactly when a bound is given |
| Factories.AssembledCodeIsCode | app/Discount/DefaultDiscountFactory.php:49-51 | with a truthy code and no code condition among the caller's, the discount's code is that code |
| Factories.NoProvidedCodeNeverApplies | app/Discount/DefaultDiscountFactory.php:49-51 | with a truthy code and no provided code, the list never holds |
| Factories.CreateFixedDiscount | app/Discount/DefaultDiscountFactory.php:37-65 | a fresh discount with a fixed calculator for the amount, the assembled conditions, and the flag, cap and priority passed through; the assembly's error otherwise |
| Factories.CreatePercentageDiscount | app/Discount/DefaultDiscountFactory.php:81-109 | the same, with a percentage calculator |
| Factories.CreateCustomDiscount | app/Discount/DefaultDiscountFactory.php:125-153 | the same, with the caller's calculator unchanged |
| BestStrategies.BestOfIsBest | app/Strategies/BestDiscountStrategy.php:26-35 | the result is ≥ 0, ≥ every applicable amount, and either 0 or an applicable amount |
| BestStrategies.BestUnique | app/Strategies/BestDiscountStrategy.php:26-35 | lists holding the same applicable discounts have the same best value |
| BestStrategies.BestPermutation | app/Strategies/BestDiscountStrategy.php:29-33 | list order is irrelevant |
| BestStrategies.BestSkipsInapplicable | app/Strategies/BestDiscountStrategy.php:30 | an inapplicable discount, wherever it stands, changes nothing |
| BestStrategies.BestWithoutApplicable | app/Strategies/BestDiscountStrategy.php:28-34 | no applicable discount, in particular an empty list, gives 0 |
| BestStrategies.ApplyBest | app/Strategies/BestDiscountStrategy.php:26-35 | the loop returns `BestOf` of the list, which is the best value above |
| CombinableStrategies.SumPermutation | app/Strategies/CombinableDiscountsStrategy.php:30-34 | list order is irrelevant |
| CombinableStrategies.NonQualifyingAddsNothing | app/Strategies/CombinableDiscountsStrategy.php:31 | an inapplicable or non-combinable discount, wherever it stands, adds nothing |
| CombinableStrategies.SumWithoutQualifying | app/Strategies/CombinableDiscountsStrategy.php:29-35 | no qualifying discount, in particular an empty list, gives 0 |
| CombinableStrategies.SumNonNegative | app/Strategies/CombinableDiscountsStrategy.php:29-34 | non-negative qualifying amounts give a non-negative sum |
| CombinableStrategies.SumAtLeastEach | app/Strategies/CombinableDiscountsStrategy.php:30-34 | when every qualifying amount is ≥ 0, the sum is at least each of them |
| CombinableStrategies.ApplyCombinable | app/Strategies/CombinableDiscountsStrategy.php:27-36 | the loop returns the sum over the discounts that are applicable and combinable |
| OrderedStrategies.Insert | app/Strategies/OrderedDiscountStrategy.php:40-42 | inserting adds exactly that one discount |
| OrderedStrategies.SortByPriority | app/Strategies/OrderedDiscountStrategy.php:40-42 | the sorted list is ordered by ascending priority and is a permutation of the input |
| OrderedStrategies.SortStable | app/Strategies/OrderedDiscountStrategy.php:40-42 | discounts of equal priority keep their input order |
| OrderedStrategies.RunIsApplied | app/Strategies/OrderedDiscountStrategy.php:46-65 | the trace is the entries (code, amount, flag) of the applicable discounts in visiting order, cut after the first non-combinable one; the total is the sum of the trace amounts |
| OrderedStrategies.OnlyLastNonCombinable | app/Strategies/OrderedDiscountStrategy.php:55-64 | every trace entry but possibly the last is combinable |
| OrderedStrategies.StopsAtNonCombinable | app/Strategies/OrderedDiscountStrategy.php:62-64 | nothing after an applicable non-combinable discount contributes |
| OrderedStrategies.NonCombinableIsLast | app/Strategies/OrderedDiscountStrategy.php:46-65 | the first applicable non-combinable discount gives the last trace entry |
| OrderedStrategies.SkipsInapplicable | app/Strategies/OrderedDiscountStrategy.php:48-50 | an inapplicable discount changes neither the total nor the trace |
| OrderedStrategies.NothingApplicable | app/Strategies/OrderedDiscountStrategy.php:44-67 | no applicable discount, in particular an empty list, gives 0 and an empty trace |
| OrderedStrategies.OrderedDiscountStrategy.constructor | app/Strategies/OrderedDiscountStrategy.php:24 | the trace starts empty |
| OrderedStrategies.OrderedDiscountStrategy.ApplyDiscounts | app/Strategies/OrderedDiscountStrategy.php:34-68 | the trace is reset; the total and the new trace are those of the pass over the priority-sorted input, so the trace describes only this call |
| OrderedStrategies.OrderedDiscountStrategy.Accumulate | app/Strategies/OrderedDiscountStrategy.php:44-65 | the loop over the sorted list returns the total of `Run` and leaves its trace |
| OrderedStrategies.OrderedDiscountStrategy.Visit | app/Strategies/OrderedDiscountStrategy.php:47-64 | one step of the loop: skip, add and go on, or add and stop, as `Run` prescribes |
| Services.Without | app/Services/DefaultDiscountService.php:67 | the keys left are exactly the old keys other than the removed one |
| Services.ValuesOf | app/Services/DefaultDiscountService.php:82 | `array_values`: the values in key order |
| Services.UpsertKeepsPositions | app/Services/DefaultDiscountService.php:41 | a known code keeps the key order; a new code is appended; the keys stay distinct |
| Services.WithoutKeepsDistinct | app/Services/DefaultDiscountService.php:67 | removing keeps the keys distinct and drops the code |
| Services.WithoutAbsent | app/Services/DefaultDiscountService.php:67 | removing an absent code leaves the order as it is |
| Services.WithoutUndoesUpsert | app/Services/DefaultDiscountService.php:39-69 | removing a freshly registered code gives back the old order |
| Services.SizeIsKeyCount | app/Services/DefaultDiscountService.php:39-69 | a set of codes described by distinct keys has as many codes as keys |
| Services.KeysAfterDistinct | app/Services/DefaultDiscountService.php:51-57 | registering a list keeps the keys distinct, keeps the old order as a prefix, and makes every code present |
| Services.LastDuplicateWins | app/Services/DefaultDiscountService.php:53-55 | for each code, the last discount in the list that carries it is the one registered |
| Services.UntouchedCode | app/Services/DefaultDiscountService.php:53-55 | a code no listed discount carries keeps its old entry, or stays absent |
| Services.ValuesAfterUpsert | app/Services/DefaultDiscountService.php:41 | re-registering a code puts the new discount at the old position of the values handed to the strategy; a new code puts it last |
| Services.ExampleSorted | app/Strategies/OrderedDiscountStrategy.php:40-42 | priorities 30, 10, 20 visit in the order 10, 20, 30 |
| Services.ExampleOrdered | app/Strategies/OrderedDiscountStrategy.php:46-65 | in that order the ordered pass applies the first two discounts (5 + 7) and stops before the third |
| Services.ExampleBest | app/Strategies/BestDiscountStrategy.php:26-35 | the best strategy picks the single amount 7 |
| Services.ExampleCombinable | app/Strategies/CombinableDiscountsStrategy.php:27-36 | the combinable strategy adds 5 and 3 and leaves the non-combinable 7 out |
| Services.DefaultDiscountService.constructor | app/Services/DefaultDiscountService.php:27-31 | keeps the strategy and the initial registry, given as order and mapping |
| Services.DefaultDiscountService.RegisterDiscount | app/Services/DefaultDiscountService.php:39-43 | the registry maps the discount's code to it and every other entry is unchanged; a new code goes last in the order, a known one keeps its place |
| Services.DefaultDiscountService.RegisterDiscounts | app/Services/DefaultDiscountService.php:51-57 | the result is that of registering the discounts one after the other |
| Services.DefaultDiscountService.RemoveDiscount | app/Services/DefaultDiscountService.php:65-69 | only that code's entry is dropped, the order keeping the rest; an absent code changes nothing |
| Services.DefaultDiscountService.CalculateDiscount | app/Services/DefaultDiscountService.php:79-89 | the strategy's answer on the values in iteration order (best, combined sum, or the ordered run with its trace); the registry is unchanged |
| Services.DefaultDiscountService.GetAppliedDiscounts | app/Services/DefaultDiscountService.php:98-105 | the ordered strategy's last trace when that strategy is configured, and nothing otherwise |
| Services.DefaultDiscountService.GetAllDiscounts | app/Services/DefaultDiscountService.php:112-115 | every code with its discount, in iteration order |
| Services.DefaultDiscountService.SizeMatchesKeys | app/Services/DefaultDiscountService.php:39-69 | the registry has one entry per distinct code in the order |
| Boot.RegisterStartupDiscounts | app/Providers/AppServiceProvider.php:47-88 | the three start-up discounts get their codes, calculators, flags and priorities, and are registered in order under their codes; none of them ever applies |
| Boot.QuantityDiscount | app/Providers/AppServiceProvider.php:54-61 | a fresh 10% discount, combinable, priority 100, whose code is `quantity_discount` and which never applies |
| Boot.PriceDiscount | app/Providers/AppServiceProvider.php:65-72 | a fresh fixed 200 discount, combinable, priority 110, whose code is `price_discount` and which never applies |
| Boot.AuthDiscount | app/Providers/AppServiceProvider.php:76-86 | a fresh 20% discount, combinable, priority 120, whose code is `auth_discount` and which never applies |
| Boot.StartupCode | app/Discount/DefaultDiscountFactory.php:93-95 | a truthy code over code-less conditions becomes the discount's code, and the list never holds without a provided code |

## Left out

- HTTP controllers, routes, persistence (the user, product and discount models, migrations, seeders, factories) and container wiring are outside the engine. The only part of the wiring modelled is the start-up registration.
- Interfaces under app/Contracts carry no behaviour. Each is represented by the datatype or class that implements it. Only the three strategy classes of the repository are modelled as strategies.
- Floating point is modelled as `real`. IEEE rounding, `number_format` in `MoneyData::__toString` and the text form of `PercentageData` are not modelled.
- The Spatie `Min`/`Max` annotations are not enforced by a plain `new`. They appear as hypotheses of lemmas (`Money.MeetsMinimum`, 0..100 percentages), never as thrown errors.
- Carbon: instants are integer Unix seconds. The ISO 8601 text of `toIso8601String` and the full generality of `Carbon::parse` are replaced by the "@seconds" form that Carbon also reads. `Instants.Format` and `Instants.Parse` are an exact round-trip pair over that form.
- Discounts.Fingerprint replaces `md5(serialize($this))` with a deterministic 32-bit stand-in digest. It reads the whole configuration: calculator, conditions, combinable flag, cap and priority. Only the prefix, the length, the determinism, the fields read and the caching are claimed. Which configurations happen to share a digest differs from md5's own collisions.
- Discounts.Fingerprint reads a custom calculator by its kind alone, since the model sees it only through `calculate`. So two code-less discounts with custom calculators that agree on everything else get the same code. PHP's `serialize` of the two calculator objects may tell them apart.
- Discounts.Fingerprint reads amounts rounded down to six decimal places, and a multi-product map in key order rather than insertion order.
- Conditions.Condition can also hold values no constructor builds: an empty category list, or a quantity of 0 or less in a multi-product map. `Conditions.Constructible` names the buildable ones. `Eval` and the lemmas are stated for every value.
- `DateRangeCondition` declares `implements DiscountCondition` but defines only `isSatisfiedBy(cart, product, user)`, so PHP would refuse the class. The model evaluates it as a condition like the others, with the instant passed in.
- `Conditions.Eval` of a category condition uses integer equality where `in_array` compares loosely. The stray argument to `getProductCategoryIds(1)` is ignored.
- PHP coercions are not modelled. That covers numeric strings passed for `int`/`float` parameters, product ids given as strings, and integer-like codes becoming integer array keys. Descriptor arguments are checked by type alone (`Resolvers.IntArgument`, `Resolvers.FloatArgument`).
- `ProductRequirements.NewMultipleProducts`: keys and quantities are integers by type, so the `is_int` checks always pass. The constructor of `ConditionChain` cannot meet a non-condition element.
- Simple getters return constructor values; they are the datatype's fields or the classes' fields. This covers `getProductId`, `getMinQuantity`, `getCategoryIds`, `requiresAll`, `getMinTotal`, `getExpectedCode`, `getProvidedCode`, `getConditions`, `getRequiredProducts`, `isCombinable` and `getPriority`. Method chaining (`return $this`) is left out; the methods return nothing.
- `Cart::items()` is not used by the engine and is not modelled.
- Carts.Cart.AddItem requires the product to be in the products table. Attaching an unknown id is a database error, which is not modelled.
- The cart's `products` relation is its rows, in the order the relation yields them. A discount holds a snapshot of a chain or multi-product object. Later changes to that object through another reference are not seen by the discount.
- Services.DefaultDiscountService.CalculateDiscount requires a configured strategy. With a null strategy PHP fails with an error on the method call, which is not modelled. The unused `$factory` constructor parameter is left out.
- OrderedStrategies.SortByPriority models `usort` as a stable insertion sort. Only its result is modelled (sorted, a permutation, stable), not PHP's algorithm. The comparator `$a - $b` is taken as the order of the priorities.
- OrderedStrategies.OrderedDiscountStrategy.Visit holds the body of the `foreach` loop as a separate method that `Accumulate` calls. `break` becomes its `stop` result and `continue` an early return.
- Services.ExampleOrdered is stated on the sorted order `[a, b, c]`. `Services.ExampleSorted` shows that this is what sorting `[c, a, b]` gives.
