# Cash register change calculator, modelled in Dafny

This project models `ChangeCalculator` from the Cash-Register program
(`Program.cs`, namespace `ChangeCalculatorApp`) and proves properties of it.

- **Construction.** A calculator is built for a currency identifier. It
  creates a fixed table from currency to denomination list: "US" and
  "Mexico". It rejects an identifier the table does not have, and otherwise
  binds the instance to that currency (`CurrentCountryCurrency`).
- **`CalculateChange(price, payment)`.** It adds up the tendered amounts and
  rejects a payment that is less than the price. It then walks the bound
  currency's denomination list in its configured order. For each
  denomination `d` it takes `count = remaining / d`. When `count` is positive
  it records `d -> count` in a dictionary and subtracts `count * d` from what
  remains. Whatever is left at the end is dropped.

Money is counted in whole cents (centavos for Mexico). The tables are:

- US: `[1, 5, 10, 25, 50, 100, 200, 500, 1000, 2000, 5000, 10000]`
- Mexico: `[5, 10, 20, 50, 100, 200, 500, 1000, 2000, 5000, 10000]`

The source's two exceptions are the error kinds `InvalidCurrency` and
`InsufficientPayment`, returned in a `Result`.

Layout:

- `Breakdown.dfy` (module `Breakdown`) holds the greedy walk, written once and
  generic over any list of positive denominations. `Step` is one loop
  iteration, `Run(ds, n, amount)` is the loop state after `n` iterations,
  `Walk` is the whole loop, and `ToMap` builds the dictionary from the
  recorded entries. The lemmas about the walk are here too.
- `ChangeCalculator.dfy` (module `ChangeCalculatorApp`) holds the table, the
  error kinds and the class `ChangeCalculator`. The class has the source's two
  fields, `currencyDenominations` and `CurrentCountryCurrency`.
  `CalculateChange` is a method with a `while` loop. Its loop invariant is
  that the loop's variables equal `Run(ds, j, change)`. Its postcondition
  ties the returned map to `Walk`.

## Traversal order

The comment at `Program.cs:49` says the loop goes "in reverse order (largest
to smallest)". The `foreach` at `Program.cs:50` walks the list in configured
order, and both lists are configured smallest first. The model follows the
loop as written, with no sort added. The consequences are proved:

- In US the 1-cent coin comes first and takes everything. The result is
  `{1: change}` for any positive change (`UsChangeIsAllPennies`). For change
  of 9.50 that is 950 pennies, not 5.00 + 2 x 2.00 + 0.50.
- In Mexico the 5-centavo coin comes first. The result is
  `{5: change / 5}`. What is left is `change % 5`, and it is dropped
  (`MexicoChangeIsAllFives`).

Configured order and largest-first order give the same breakdown only for
small change. That is no change at all, US change below 5 cents (`{1: c}`
either way), and Mexican change below 10 centavos (`{5: 1}` or nothing). From
5 cents in US, or 10 centavos in Mexico, a largest-first walk would use a
larger denomination, which the configured order never reaches. So the
largest-first, minimal-count breakdown that the comment describes is not what
the code returns. The model makes no claim that it does, and it has no lemma
about the largest-first walk.

## Model

| member | source | states |
|---|---|---|
| `ChangeCalculatorApp.BuiltInTable` | Program.cs:14-19 | Definition, no contract. The built-in table in cents: "US" and "Mexico" with their configured lists. |
| `ChangeCalculatorApp.Sum` | Program.cs:34-38 | Definition, no contract. The tendered amounts added left to right. |
| `ChangeCalculatorApp.ChangeCalculator.Denominations` | Program.cs:50 | The bound currency's list, looked up in the table. Every denomination in it is positive. |
| `Breakdown.Run` | Program.cs:50-58 | Definition, no contract. The loop's state after its first `n` iterations, starting from the change owed. |
| `Breakdown.Walk` | Program.cs:50-58 | Definition, no contract. The loop's state after it has visited the whole list. |
| `Breakdown.ToMap` | Program.cs:47-55 | Definition, no contract. The dictionary built by adding the recorded pairs in turn, starting from an empty dictionary. |
| `ChangeCalculatorApp.BuiltInTableWellFormed` | Program.cs:14-19 | The built-in table has exactly the keys "US" and "Mexico". Each list is positive and strictly increasing, so no denomination appears twice. |
| `ChangeCalculatorApp.SelectCurrency` | Program.cs:22-26 | An identifier is accepted exactly when it is a key of the table, and the accepted value is that identifier. Otherwise the result is `InvalidCurrency`. |
| `ChangeCalculatorApp.ChangeCalculator.Bind` | Program.cs:14-26 | A newly bound calculator holds the given table and currency, and the currency is a key of the table. |
| `ChangeCalculatorApp.ChangeCalculator.Create` | Program.cs:11-27 | Construction fails with `InvalidCurrency` exactly when the country is not in the built-in table. Otherwise it yields a fresh, valid calculator with the built-in table and `CurrentCountryCurrency == country`. |
| `ChangeCalculatorApp.ChangeCalculator.TotalPayment` | Program.cs:34-38 | The loop over the payment returns the sum of all tendered amounts. |
| `ChangeCalculatorApp.ChangeCalculator.CalculateChange` | Program.cs:31-61 | Fails with `InsufficientPayment` exactly when the sum of the payment is below the price. Otherwise the result is the dictionary of the configured-order walk over `sum - price`. Every key is a denomination of the bound currency with a positive count. Exact payment gives the empty map. `Dictionary.Add` is never given a key it already has. |
| `ChangeCalculatorApp.DictionaryAdd` | Program.cs:55 | `Add` requires a key that is not yet present. The result has the new pair and keeps every old pair. |
| `Breakdown.Step` | Program.cs:52-56 | One iteration never increases what remains and leaves less than `d`. A denomination larger than what remains records nothing. Otherwise it records `d` with count `remaining / d`, which is positive. |
| `Breakdown.StepConserves` | Program.cs:52-56 | One iteration moves value from what remains into the recorded entries and loses none. |
| `Breakdown.StepLeavesRemainder` | Program.cs:52-56 | What one iteration leaves is what it found, modulo the denomination. |
| `Breakdown.RunConserves` | Program.cs:50-58 | The loop invariant: after any number of iterations, the sum of `count * d` over the recorded entries plus what remains equals the change owed. |
| `Breakdown.TotalAtMostAmount` | Program.cs:46-58 | The value of the breakdown and the final remainder are each at most the change owed. The breakdown is worth exactly the change iff nothing remains. |
| `Breakdown.RemainderNonIncreasing` | Program.cs:52-56 | What remains never grows from one iteration to a later one. |
| `Breakdown.RunEntries` | Program.cs:50-58 | After `n` iterations, what remains is below each of the first `n` denominations. Every recorded entry has a positive count, a denomination from the list, and a denomination above what remains. No denomination is recorded twice. |
| `Breakdown.NothingOwedNothingRecorded` | Program.cs:46-58 | With zero change the loop records nothing. |
| `Breakdown.SmallestFirstTakesAll` | Program.cs:50-58 | On a strictly increasing list, the first denomination takes `amount / ds[0]` (recorded only if positive). The remainder is `amount % ds[0]`, and no later denomination is used. |
| `Breakdown.ToMapLookup` | Program.cs:47-55 | Every key of the built dictionary comes from a recorded entry and maps to that entry's count. |
| `Breakdown.ToMapHoldsEntries` | Program.cs:47-55 | When no denomination repeats, every recorded pair is in the dictionary as recorded. |
| `Breakdown.WalkBreakdown` | Program.cs:46-60 | The returned dictionary's keys are exactly the recorded denominations. Each is a denomination of the list with a positive count, and each recorded pair is present as recorded. Zero change gives the empty dictionary. |
| `ChangeCalculatorApp.UsChangeIsAllPennies` | Program.cs:16-56 | With the configured US list, the result is `{1: change}` for positive change and empty for zero, and it is worth exactly the change. |
| `ChangeCalculatorApp.MexicoChangeIsAllFives` | Program.cs:17-56 | With the configured Mexican list, the result is `{5: change / 5}` when the change is at least 5 and empty otherwise. `change % 5` is left over, so the breakdown is worth the full change iff the change is a multiple of 5. |

## Left out

- `Program.Main` (`Program.cs:64-94`) is left out. It is a demonstration with fixed values and console output.
- Floating point is left out. The source computes with `double`: the running sum, `changeAmount -= ...` and the dictionary keys are all `double`. Amounts here are exact integer cents, so rounding drift and inexact quotients near a whole number are not modelled.
- The `(int)` conversion at `Program.cs:52` is modelled as integer division of non-negative amounts. A quotient too large for a 32-bit `int` is left out, since C# leaves the result of that conversion unspecified.
- The exception messages (`Program.cs:24`, `Program.cs:42`) are left out. Only the error kinds are modelled.
- Dictionary hashing and enumeration order are left out, since the result is a Dafny `map`. The ghost entry sequence in `CalculateChange` keeps the order in which pairs were added.
- `new ChangeCalculator(country)` is modelled as the static method `Create`, because a Dafny constructor cannot fail. The table is built and the identifier checked before the object exists. In the source the object is allocated first and then the constructor throws, which is not observable.
- The `foreach` that sums the payment (`Program.cs:34-38`) is its own method, `TotalPayment`, called at the start of `CalculateChange`.
- `CurrentCountryCurrency` has a private setter in the source. In the model it is a plain field, and no method writes it after `Bind`. `CalculateChange` has no `modifies` clause, so it cannot change either field.
- A null `country` is out of scope. At `Program.cs:22` it would make `ContainsKey` throw `ArgumentNullException`. A null `payment` is out of scope too. At `Program.cs:35` it would make the `foreach` throw `NullReferenceException`. A Dafny `string` or `seq<int>` is never null, so neither can happen in the model.
- Tendered amounts and the price are unbounded integers with no sign check, as in the source. Denominations must be positive, so the walk never divides by zero. Both built-in lists are positive.
