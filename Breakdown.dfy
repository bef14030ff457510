/**
 * The arithmetic of the change breakdown: the greedy walk over a list of
 * denominations that ChangeCalculator.CalculateChange performs, stated as
 * functions over integer minor units (cents) and generic in the list.
 *
 * The walk visits the denominations in the order they are listed. At each
 * denomination d it takes count = remaining / d (the source's (int) cast of a
 * non-negative quotient is this integer division), records (d, count) when
 * count is positive, and subtracts count * d from what remains.
 */
module Breakdown {

  /** One recorded (denomination, count) pair, in the order it was recorded. */
  datatype Entry = Entry(denomination: nat, count: nat)

  /** What the walk has built after some prefix of the list. */
  datatype State = State(entries: seq<Entry>, remaining: nat)

  /** Every denomination is strictly positive (there is no division by zero). */
  predicate Positive(ds: seq<nat>)
  {
    forall i :: 0 <= i < |ds| ==> ds[i] > 0
  }

  /** The list is ordered smallest to largest without repeats: each denomination exceeds the one before. */
  predicate StrictlyIncreasing(ds: seq<nat>)
  {
    forall i :: 0 < i < |ds| ==> ds[i - 1] < ds[i]
  }

  /** No denomination is recorded twice. */
  predicate DistinctDenominations(es: seq<Entry>)
  {
    forall k, l :: 0 <= k < l < |es| ==> es[k].denomination != es[l].denomination
  }

  /** The value handed back by a list of entries: the sum of denomination * count. */
  function Total(es: seq<Entry>): nat
  {
    if es == [] then 0
    else Total(es[..|es| - 1]) + es[|es| - 1].count * es[|es| - 1].denomination
  }

  /**
   * One iteration of the walk: take as many of d as fit into what remains.
   * Nothing is recorded when d exceeds the remainder; otherwise the count is
   * the largest number of d that fits, and what is left is less than d.
   */
  function Step(s: State, d: nat): (r: State)
    requires d > 0
    ensures r.remaining < d && r.remaining <= s.remaining
    ensures s.remaining < d ==> r == s
    ensures d <= s.remaining ==>
              r.entries == s.entries + [Entry(d, s.remaining / d)] &&
              s.remaining / d > 0
  {
    var count := s.remaining / d;
    DivisionFacts(s.remaining, d);
    if count > 0 then
      State(s.entries + [Entry(d, count)], s.remaining - count * d)
    else
      s
  }

  /** A step moves value from what remains into the recorded entries and loses none. */
  lemma StepConserves(s: State, d: nat)
    requires d > 0
    ensures Total(Step(s, d).entries) + Step(s, d).remaining == Total(s.entries) + s.remaining
  {
    DivisionFacts(s.remaining, d);
    if d <= s.remaining {
      TotalAppend(s.entries, Entry(d, s.remaining / d));
    }
  }

  /** What a step leaves is the remainder of what it found modulo the denomination. */
  lemma StepLeavesRemainder(s: State, d: nat)
    requires d > 0
    ensures Step(s, d).remaining == s.remaining % d
  {
    DivisionFacts(s.remaining, d);
  }

  /** Truncating division of what remains by a positive denomination. */
  lemma DivisionFacts(a: nat, d: nat)
    requires d > 0
    ensures a - (a / d) * d == a % d < d
    ensures a / d > 0 <==> d <= a
  {
  }

  /** Recording one more entry adds its value to the total. */
  lemma TotalAppend(es: seq<Entry>, e: Entry)
    ensures Total(es + [e]) == Total(es) + e.count * e.denomination
  {
    assert (es + [e])[..|es|] == es;
  }

  /**
   * The walk over the first n denominations of the list, starting from
   * `amount`: the state of the source's loop after n iterations.
   */
  function Run(ds: seq<nat>, n: nat, amount: nat): State
    requires Positive(ds) && n <= |ds|
  {
    if n == 0 then State([], amount) else Step(Run(ds, n - 1, amount), ds[n - 1])
  }

  /** The walk over the whole list. */
  function Walk(ds: seq<nat>, amount: nat): State
    requires Positive(ds)
  {
    Run(ds, |ds|, amount)
  }

  /** What was recorded plus what remains is always the amount owed at the start. */
  lemma {:induction false} RunConserves(ds: seq<nat>, n: nat, amount: nat)
    requires Positive(ds) && n <= |ds|
    ensures Total(Run(ds, n, amount).entries) + Run(ds, n, amount).remaining == amount
  {
    if n > 0 {
      RunConserves(ds, n - 1, amount);
      StepConserves(Run(ds, n - 1, amount), ds[n - 1]);
    }
  }

  /** Consequently neither the value of the breakdown nor what remains exceeds the amount owed. */
  lemma TotalAtMostAmount(ds: seq<nat>, amount: nat)
    requires Positive(ds)
    ensures Total(Walk(ds, amount).entries) <= amount
    ensures Walk(ds, amount).remaining <= amount
    ensures Total(Walk(ds, amount).entries) == amount <==> Walk(ds, amount).remaining == 0
  {
    RunConserves(ds, |ds|, amount);
  }

  /** The remainder never increases from one iteration of the walk to a later one. */
  lemma {:induction false} RemainderNonIncreasing(ds: seq<nat>, amount: nat, i: nat, j: nat)
    requires Positive(ds)
    requires i <= j <= |ds|
    ensures Run(ds, j, amount).remaining <= Run(ds, i, amount).remaining
  {
    if i < j {
      RemainderNonIncreasing(ds, amount, i, j - 1);
    }
  }

  /**
   * After the first n denominations, what remains is below every one of
   * them, and every recorded entry has a positive count, a denomination from
   * the list, and a denomination above what remains; so no denomination is
   * recorded twice.
   */
  lemma {:induction false} RunEntries(ds: seq<nat>, n: nat, amount: nat)
    requires Positive(ds) && n <= |ds|
    ensures var s := Run(ds, n, amount);
      && (forall i :: 0 <= i < n ==> s.remaining < ds[i])
      && (forall k :: 0 <= k < |s.entries| ==>
            s.entries[k].count > 0 &&
            s.entries[k].denomination in ds &&
            s.remaining < s.entries[k].denomination)
      && DistinctDenominations(s.entries)
  {
    if n > 0 {
      RunEntries(ds, n - 1, amount);
      var s := Run(ds, n - 1, amount);
      var r := Step(s, ds[n - 1]);
      assert r == Run(ds, n, amount);
      forall k | 0 <= k < |r.entries|
        ensures r.entries[k].count > 0 && r.entries[k].denomination in ds
        ensures r.remaining < r.entries[k].denomination
      {
        if k < |s.entries| {
          assert r.entries[k] == s.entries[k];
        }
      }
    }
  }

  /** With nothing owed the walk records nothing. */
  lemma {:induction false} NothingOwedNothingRecorded(ds: seq<nat>, n: nat)
    requires Positive(ds) && n <= |ds|
    ensures Run(ds, n, 0) == State([], 0)
  {
    if n > 0 {
      NothingOwedNothingRecorded(ds, n - 1);
    }
  }

  /**
   * On a list ordered smallest to largest, the first denomination takes
   * everything it can and leaves less than itself, so no later (larger)
   * denomination is ever used.
   */
  lemma {:induction false} SmallestFirstTakesAll(ds: seq<nat>, n: nat, amount: nat)
    requires Positive(ds) && StrictlyIncreasing(ds) && 0 < n <= |ds|
    ensures Run(ds, n, amount) ==
              State(if ds[0] <= amount then [Entry(ds[0], amount / ds[0])] else [],
                    amount % ds[0])
  {
    if n > 1 {
      SmallestFirstTakesAll(ds, n - 1, amount);
      StepLeavesRemainder(State([], amount), ds[0]);
      assert Run(ds, n - 1, amount).remaining < ds[n - 2] < ds[n - 1];
    } else {
      StepLeavesRemainder(State([], amount), ds[0]);
    }
  }

  /** The map a list of entries yields when each is added in turn. */
  function ToMap(es: seq<Entry>): map<nat, nat>
  {
    if es == [] then map[]
    else ToMap(es[..|es| - 1])[es[|es| - 1].denomination := es[|es| - 1].count]
  }

  /** Every key of the map comes from an entry, and maps to that entry's count. */
  lemma {:induction false} ToMapLookup(es: seq<Entry>)
    ensures forall d :: d in ToMap(es) ==>
              exists k :: 0 <= k < |es| && es[k].denomination == d && ToMap(es)[d] == es[k].count
  {
    if es != [] {
      var front := es[..|es| - 1];
      ToMapLookup(front);
      forall d | d in ToMap(es)
        ensures exists k :: 0 <= k < |es| && es[k].denomination == d && ToMap(es)[d] == es[k].count
      {
        if d != es[|es| - 1].denomination {
          var k :| 0 <= k < |front| && front[k].denomination == d && ToMap(front)[d] == front[k].count;
          assert es[k] == front[k];
        }
      }
    }
  }

  /** When no denomination repeats, every recorded pair is in the map as it was recorded. */
  lemma {:induction false} ToMapHoldsEntries(es: seq<Entry>)
    requires DistinctDenominations(es)
    ensures forall k :: 0 <= k < |es| ==>
              es[k].denomination in ToMap(es) && ToMap(es)[es[k].denomination] == es[k].count
  {
    if es != [] {
      var front := es[..|es| - 1];
      assert DistinctDenominations(front) by {
        forall k, l | 0 <= k < l < |front|
          ensures front[k].denomination != front[l].denomination
        {
          assert front[k] == es[k] && front[l] == es[l];
        }
      }
      ToMapHoldsEntries(front);
      forall k | 0 <= k < |es|
        ensures es[k].denomination in ToMap(es) && ToMap(es)[es[k].denomination] == es[k].count
      {
        if k < |front| {
          assert es[k] == front[k];
        }
      }
    }
  }

  /**
   * The breakdown of a walk: its keys are exactly the recorded
   * denominations, every key is a denomination of the list with a positive
   * count, each recorded pair is in it as recorded, and nothing owed gives
   * the empty breakdown.
   */
  lemma WalkBreakdown(ds: seq<nat>, amount: nat)
    requires Positive(ds)
    ensures var es := Walk(ds, amount).entries;
      && (forall d :: d in ToMap(es) <==> exists k :: 0 <= k < |es| && es[k].denomination == d)
      && (forall d :: d in ToMap(es) ==> d in ds && ToMap(es)[d] > 0)
      && (forall k :: 0 <= k < |es| ==>
            es[k].denomination in ToMap(es) && ToMap(es)[es[k].denomination] == es[k].count)
      && (amount == 0 ==> ToMap(es) == map[])
  {
    var es := Walk(ds, amount).entries;
    RunEntries(ds, |ds|, amount);
    ToMapLookup(es);
    ToMapHoldsEntries(es);
    if amount == 0 {
      NothingOwedNothingRecorded(ds, |ds|);
    }
  }
}
