/**
 * The application store (src/store/usePacStore.ts): it holds the current plan
 * input and the simulation result, and keeps the result equal to the
 * simulation of the input after every update.
 *
 * The monthly return root is a fixed function of the annual rate, given to the
 * store when it is created. Each simulation starts at the month the wall clock
 * shows; that reading is a parameter of the updating methods.
 */
module PacStore {
  import opened Wrappers
  import opened PacTypes
  import opened MonthLabel
  import opened Pac
  import opened PacProperties

  /** The plan a fresh store starts from: 100 a month for ten years, 5% return, 1% fee; one the form accepts. */
  function DefaultInput(): (r: PacInput)
    ensures FormRanges(r)
    ensures r.durationMonths == 120
  {
    PacInput(100.0, Monthly, 12 * 10, 0.0, 5.0, 1.0, 2.0, false)
  }

  /** Whatever the return, the default plan pays in 100 in each of its 120 months: 12000 in all. */
  lemma DefaultTotal(monthlyReturn: real, startDate: YearMonth)
    ensures Simulate(DefaultInput(), monthlyReturn, startDate).summary.totalContributed == 12000.0
  {
    TotalAfterClosedForm(DefaultInput(), monthlyReturn, 120);
  }

  /** A partial update: `Some` for every field it sets, `None` for every field it leaves alone. */
  datatype PartialInput = PartialInput(
    periodicContribution: Option<real>,
    frequency: Option<Frequency>,
    durationMonths: Option<nat>,
    initialCapital: Option<real>,
    annualReturnRatePct: Option<real>,
    annualFeePct: Option<real>,
    inflationRatePct: Option<real>,
    showInflationAdjusted: Option<bool>)

  /** The update that sets nothing. */
  const NoFields: PartialInput := PartialInput(None, None, None, None, None, None, None, None)

  /** The update that sets every field to the value it has in `x`. */
  function AllFields(x: PacInput): PartialInput {
    PartialInput(Some(x.periodicContribution), Some(x.frequency), Some(x.durationMonths), Some(x.initialCapital),
                 Some(x.annualReturnRatePct), Some(x.annualFeePct), Some(x.inflationRatePct), Some(x.showInflationAdjusted))
  }

  /** A field of the later object wins over the same field of the earlier one. */
  function Override<T>(later: Option<T>, earlier: T): T {
    if later.Some? then later.value else earlier
  }

  /** Object spread `{ ...base, ...partial }`: the fields `partial` sets, and `base` for the rest. */
  function Merge(base: PacInput, partial: PartialInput): PacInput {
    PacInput(
      Override(partial.periodicContribution, base.periodicContribution),
      Override(partial.frequency, base.frequency),
      Override(partial.durationMonths, base.durationMonths),
      Override(partial.initialCapital, base.initialCapital),
      Override(partial.annualReturnRatePct, base.annualReturnRatePct),
      Override(partial.annualFeePct, base.annualFeePct),
      Override(partial.inflationRatePct, base.inflationRatePct),
      Override(partial.showInflationAdjusted, base.showInflationAdjusted))
  }

  /** A field set by `later` wins over one set by `earlier`. */
  function OverrideOption<T>(later: Option<T>, earlier: Option<T>): Option<T> {
    if later.Some? then later else earlier
  }

  /** The update applying `p` and then `q`: what `q` sets, and what `p` sets for the rest. */
  function Combine(p: PartialInput, q: PartialInput): PartialInput {
    PartialInput(
      OverrideOption(q.periodicContribution, p.periodicContribution),
      OverrideOption(q.frequency, p.frequency),
      OverrideOption(q.durationMonths, p.durationMonths),
      OverrideOption(q.initialCapital, p.initialCapital),
      OverrideOption(q.annualReturnRatePct, p.annualReturnRatePct),
      OverrideOption(q.annualFeePct, p.annualFeePct),
      OverrideOption(q.inflationRatePct, p.inflationRatePct),
      OverrideOption(q.showInflationAdjusted, p.showInflationAdjusted))
  }

  /** An empty update leaves the input as it is. */
  lemma MergeNothing(base: PacInput)
    ensures Merge(base, NoFields) == base
  {
  }

  /** An update that sets every field replaces the input. */
  lemma MergeAll(base: PacInput, x: PacInput)
    ensures Merge(base, AllFields(x)) == x
  {
  }

  /** Applying the same update twice is applying it once. */
  lemma MergeIdempotent(base: PacInput, partial: PartialInput)
    ensures Merge(Merge(base, partial), partial) == Merge(base, partial)
  {
  }

  /** Two updates in a row are the single combined update. */
  lemma MergeCombine(base: PacInput, p: PartialInput, q: PartialInput)
    ensures Merge(Merge(base, p), q) == Merge(base, Combine(p, q))
  {
  }

  /** A field the update does not set keeps its value; a field it sets takes the new one. */
  lemma MergeFields(base: PacInput, partial: PartialInput)
    ensures var r := Merge(base, partial);
      && (partial.periodicContribution.None? ==> r.periodicContribution == base.periodicContribution)
      && (partial.periodicContribution.Some? ==> r.periodicContribution == partial.periodicContribution.value)
      && (partial.frequency.None? ==> r.frequency == base.frequency)
      && (partial.frequency.Some? ==> r.frequency == partial.frequency.value)
      && (partial.durationMonths.None? ==> r.durationMonths == base.durationMonths)
      && (partial.durationMonths.Some? ==> r.durationMonths == partial.durationMonths.value)
      && (partial.initialCapital.None? ==> r.initialCapital == base.initialCapital)
      && (partial.initialCapital.Some? ==> r.initialCapital == partial.initialCapital.value)
      && (partial.annualReturnRatePct.None? ==> r.annualReturnRatePct == base.annualReturnRatePct)
      && (partial.annualReturnRatePct.Some? ==> r.annualReturnRatePct == partial.annualReturnRatePct.value)
      && (partial.annualFeePct.None? ==> r.annualFeePct == base.annualFeePct)
      && (partial.annualFeePct.Some? ==> r.annualFeePct == partial.annualFeePct.value)
      && (partial.inflationRatePct.None? ==> r.inflationRatePct == base.inflationRatePct)
      && (partial.inflationRatePct.Some? ==> r.inflationRatePct == partial.inflationRatePct.value)
      && (partial.showInflationAdjusted.None? ==> r.showInflationAdjusted == base.showInflationAdjusted)
      && (partial.showInflationAdjusted.Some? ==> r.showInflationAdjusted == partial.showInflationAdjusted.value)
  {
  }

  /** The store: the current input and the result of simulating it. */
  class Store {
    var input: PacInput
    var result: PacResult
    /** The month the last simulation started from. */
    ghost var startDate: YearMonth
    /** The monthly return root for an annual rate. */
    const monthlyReturnOf: real -> real

    /** The result is always the simulation of the input. */
    ghost predicate Valid()
      reads this
    {
      result == Simulate(input, monthlyReturnOf(input.annualReturnRatePct), startDate)
    }

    /** A fresh store holds the default plan and its simulation from the current month. */
    constructor (monthlyReturnOf: real -> real, today: YearMonth)
      ensures this.monthlyReturnOf == monthlyReturnOf
      ensures input == DefaultInput()
      ensures startDate == today
      ensures Valid()
    {
      var initialResult := SimulatePac(DefaultInput(), monthlyReturnOf(DefaultInput().annualReturnRatePct), today);
      this.monthlyReturnOf := monthlyReturnOf;
      input := DefaultInput();
      result := initialResult;
      startDate := today;
    }

    /** Merges a partial update into the input and re-simulates the merged input. */
    method SetInput(partial: PartialInput, today: YearMonth)
      modifies this
      ensures input == Merge(old(input), partial)
      ensures startDate == today
      ensures Valid()
    {
      var next := Merge(input, partial);
      var nextResult := SimulatePac(next, monthlyReturnOf(next.annualReturnRatePct), today);
      input := next;
      result := nextResult;
      startDate := today;
    }

    /** Re-simulates the current input; in the same month as the last simulation the result does not change. */
    method Recompute(today: YearMonth)
      modifies this
      ensures input == old(input)
      ensures startDate == today
      ensures Valid()
      ensures old(Valid()) && today == old(startDate) ==> result == old(result)
    {
      var current := input;
      var nextResult := SimulatePac(current, monthlyReturnOf(current.annualReturnRatePct), today);
      result := nextResult;
      startDate := today;
    }
  }

  /** An empty update followed by nothing else changes neither input nor result within a month. */
  method SetNothingKeepsState(store: Store, today: YearMonth)
    requires store.Valid()
    requires store.startDate == today
    modifies store
    ensures store.input == old(store.input)
    ensures store.result == old(store.result)
  {
    store.SetInput(NoFields, today);
    MergeNothing(old(store.input));
  }
}
