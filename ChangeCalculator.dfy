/**
 * The change calculator of the ChangeCalculatorApp namespace: a built-in
 * table from currency identifier to its denominations (in cents), an
 * instance bound to one currency, and the change computation.
 *
 * The source's two exceptions are the two kinds of CalculatorError, returned
 * in a Result rather than thrown.
 */
module ChangeCalculatorApp {
  import opened Breakdown

  datatype CalculatorError = InvalidCurrency | InsufficientPayment

  datatype Result<T> = Ok(value: T) | Err(error: CalculatorError)

  /** US denominations in cents, in the configured (smallest-first) order. */
  const UsDenominations: seq<nat> := [1, 5, 10, 25, 50, 100, 200, 500, 1000, 2000, 5000, 10000]

  /** Mexican denominations in centavos, in the configured (smallest-first) order. */
  const MexicoDenominations: seq<nat> := [5, 10, 20, 50, 100, 200, 500, 1000, 2000, 5000, 10000]

  /** The table every calculator is built with. */
  function BuiltInTable(): map<string, seq<nat>>
  {
    map["US" := UsDenominations, "Mexico" := MexicoDenominations]
  }

  /** Every list in a table is positive, so the walk over it never divides by zero. */
  predicate WellFormedTable(table: map<string, seq<nat>>)
  {
    forall c :: c in table ==> Positive(table[c])
  }

  /** The built-in table serves exactly US and Mexico, each list positive and strictly increasing. */
  lemma BuiltInTableWellFormed()
    ensures BuiltInTable().Keys == {"US", "Mexico"}
    ensures WellFormedTable(BuiltInTable())
    ensures forall c :: c in BuiltInTable() ==> StrictlyIncreasing(BuiltInTable()[c])
  {
    var table := BuiltInTable();
    assert table.Keys == {"US", "Mexico"};
    assert Positive(table["US"]) && StrictlyIncreasing(table["US"]);
    assert Positive(table["Mexico"]) && StrictlyIncreasing(table["Mexico"]);
  }

  /** The currency check of construction: an identifier is accepted exactly when the table has it. */
  function SelectCurrency(table: map<string, seq<nat>>, country: string): (r: Result<string>)
    ensures r.Ok? <==> country in table
    ensures r.Ok? ==> r.value == country && r.value in table
    ensures r.Err? ==> r.error == InvalidCurrency
  {
    if country in table then Ok(country) else Err(InvalidCurrency)
  }

  /** The sum of a list of tendered amounts, added left to right. */
  function Sum(xs: seq<int>): int
  {
    if xs == [] then 0 else Sum(xs[..|xs| - 1]) + xs[|xs| - 1]
  }

  /** Adding the next tendered amount extends the running sum. */
  lemma SumExtend(xs: seq<int>, i: nat)
    requires i < |xs|
    ensures Sum(xs[..i + 1]) == Sum(xs[..i]) + xs[i]
  {
    assert xs[..i + 1][..i] == xs[..i];
  }

  /**
   * Dictionary.Add: the key must not be present yet (the library throws
   * otherwise); the result has the new pair and keeps every old one.
   */
  function DictionaryAdd(m: map<nat, nat>, key: nat, value: nat): (r: map<nat, nat>)
    requires key !in m
    ensures r.Keys == m.Keys + {key}
    ensures r[key] == value
    ensures forall k :: k in m ==> r[k] == m[k]
  {
    m[key := value]
  }

  class ChangeCalculator {
    var currencyDenominations: map<string, seq<nat>>
    var CurrentCountryCurrency: string

    /** The bound currency is a key of the table, and the table's lists are positive. */
    predicate Valid()
      reads this
    {
      CurrentCountryCurrency in currencyDenominations && WellFormedTable(currencyDenominations)
    }

    /** The denomination list of the bound currency. */
    function Denominations(): (ds: seq<nat>)
      reads this
      requires Valid()
      ensures Positive(ds)
    {
      currencyDenominations[CurrentCountryCurrency]
    }

    /** Sets the two fields once the currency has been accepted. */
    constructor Bind(table: map<string, seq<nat>>, country: string)
      requires country in table && WellFormedTable(table)
      ensures Valid()
      ensures currencyDenominations == table && CurrentCountryCurrency == country
    {
      currencyDenominations := table;
      CurrentCountryCurrency := country;
    }

    /**
     * new ChangeCalculator(country): builds the built-in table, fails with
     * InvalidCurrency unless country is one of its keys, and otherwise
     * yields a fresh calculator bound to country.
     */
    static method Create(country: string) returns (r: Result<ChangeCalculator>)
      ensures r.Err? <==> country !in BuiltInTable()
      ensures r.Err? ==> r.error == InvalidCurrency
      ensures r.Ok? ==> fresh(r.value) && r.value.Valid()
      ensures r.Ok? ==> r.value.currencyDenominations == BuiltInTable()
      ensures r.Ok? ==> r.value.CurrentCountryCurrency == country
    {
      var table := BuiltInTable();
      BuiltInTableWellFormed();
      var selected := SelectCurrency(table, country);
      if selected.Err? {
        return Err(selected.error);
      }
      var calculator := new ChangeCalculator.Bind(table, selected.value);
      return Ok(calculator);
    }

    /** The first loop of CalculateChange: the tendered amounts added one by one. */
    static method TotalPayment(payment: seq<int>) returns (totalPayment: int)
      ensures totalPayment == Sum(payment)
    {
      totalPayment := 0;
      var i := 0;
      while i < |payment|
        invariant 0 <= i <= |payment|
        invariant totalPayment == Sum(payment[..i])
      {
        SumExtend(payment, i);
        totalPayment := totalPayment + payment[i];
        i := i + 1;
      }
      assert payment[..i] == payment;
    }

    /**
     * CalculateChange(price, payment): fails with InsufficientPayment exactly
     * when the tendered amounts sum to less than price; otherwise walks the
     * bound currency's list in its configured order and returns the
     * breakdown of the change. Every key is a denomination of the bound
     * currency with a positive count, and exact payment gives no change.
     * The method names nothing in a modifies clause: the bound currency and
     * the table are left as they were.
     */
    method CalculateChange(price: int, payment: seq<int>) returns (r: Result<map<nat, nat>>)
      requires Valid()
      ensures r.Err? <==> Sum(payment) < price
      ensures r.Err? ==> r.error == InsufficientPayment
      ensures r.Ok? ==> r.value == ToMap(Walk(Denominations(), Sum(payment) - price).entries)
      ensures r.Ok? ==> forall d :: d in r.value ==> d in Denominations() && r.value[d] > 0
      ensures r.Ok? && Sum(payment) == price ==> r.value == map[]
    {
      var totalPayment := TotalPayment(payment);

      if totalPayment < price {
        return Err(InsufficientPayment);
      }

      var changeAmount: nat := totalPayment - price;
      ghost var change: nat := changeAmount;
      var changeDictionary: map<nat, nat> := map[];
      ghost var entries: seq<Entry> := [];
      var ds := currencyDenominations[CurrentCountryCurrency];
      var j := 0;
      while j < |ds|
        invariant 0 <= j <= |ds|
        invariant State(entries, changeAmount) == Run(ds, j, change)
        invariant changeDictionary == ToMap(entries)
        invariant forall d :: d in changeDictionary ==> changeAmount < d
      {
        var denomination := ds[j];
        ghost var next := Step(State(entries, changeAmount), denomination);
        assert next == Run(ds, j + 1, change);
        var numDenomination := changeAmount / denomination;
        DivisionFacts(changeAmount, denomination);
        if numDenomination > 0 {
          changeDictionary := DictionaryAdd(changeDictionary, denomination, numDenomination);
          changeAmount := changeAmount - numDenomination * denomination;
          ghost var before := entries;
          entries := entries + [Entry(denomination, numDenomination)];
          assert entries[..|entries| - 1] == before;
        }
        assert State(entries, changeAmount) == next;
        j := j + 1;
      }
      WalkBreakdown(ds, change);
      r := Ok(changeDictionary);
    }
  }

  /**
   * In the configured US order the one-cent coin comes first, so it takes the
   * whole change: the breakdown is {1: change}, or empty when nothing is owed.
   */
  lemma UsChangeIsAllPennies(change: nat)
    ensures ToMap(Walk(UsDenominations, change).entries) == if change > 0 then map[1 := change] else map[]
    ensures Total(Walk(UsDenominations, change).entries) == change
  {
    BuiltInTableWellFormed();
    assert BuiltInTable()["US"] == UsDenominations;
    SmallestFirstTakesAll(UsDenominations, |UsDenominations|, change);
    TotalAtMostAmount(UsDenominations, change);
  }

  /**
   * In the configured Mexican order the five-centavo coin comes first, so it
   * takes all it can and everything below five centavos is dropped; the
   * change is paid in full exactly when it is a multiple of five.
   */
  lemma MexicoChangeIsAllFives(change: nat)
    ensures ToMap(Walk(MexicoDenominations, change).entries) ==
              if change >= 5 then map[5 := change / 5] else map[]
    ensures Walk(MexicoDenominations, change).remaining == change % 5
    ensures Total(Walk(MexicoDenominations, change).entries) == change <==> change % 5 == 0
  {
    BuiltInTableWellFormed();
    assert BuiltInTable()["Mexico"] == MexicoDenominations;
    SmallestFirstTakesAll(MexicoDenominations, |MexicoDenominations|, change);
    TotalAtMostAmount(MexicoDenominations, change);
  }
}
