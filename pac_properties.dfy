/**
 * What the accumulation-plan engine guarantees about the series and the
 * summary it returns: the shape of the series, the contribution schedule, the
 * running total, the ordering of the gross and net tracks, the degenerate
 * cases and the month labels.
 */
module PacProperties {
  import opened PacTypes
  import opened MonthLabel
  import opened Wrappers
  import opened Pac

  // ---------------------------------------------------------------------------
  // Shape of the series

  /** One point per month, numbered 1, 2, ... in strictly increasing order. */
  lemma SeriesShape(input: PacInput, monthlyReturn: real, startDate: YearMonth)
    ensures var ps := Series(input, monthlyReturn, startDate);
      && |ps| == input.durationMonths
      && (forall i :: 0 <= i < |ps| ==> ps[i].monthIndex == i + 1)
      && (forall i, j :: 0 <= i < j < |ps| ==> ps[i].monthIndex < ps[j].monthIndex)
  {
  }

  /** The point of the 0-based month `i` holds the values after that month. */
  lemma PointValues(input: PacInput, monthlyReturn: real, startDate: YearMonth, i: nat)
    requires i < input.durationMonths
    ensures var p := Series(input, monthlyReturn, startDate)[i];
      var s := TracksAfter(input, monthlyReturn, i + 1);
      && p.totalContributed == s.totalContributed
      && p.estimatedValueGross == s.gross
      && p.estimatedValueNet == s.net
  {
  }

  // ---------------------------------------------------------------------------
  // Contribution schedule

  /** Month `i` pays in the periodic amount exactly when `i` is a multiple of the interval. */
  lemma ContributionSchedule(input: PacInput, monthlyReturn: real, startDate: YearMonth, i: nat)
    requires i < input.durationMonths
    ensures var p := Series(input, monthlyReturn, startDate)[i];
      p.contribution == if i % ContributionInterval(input.frequency) == 0 then input.periodicContribution else 0.0
  {
  }

  /** The number of contribution months among the first `k`, counted one month at a time. */
  function ContributionMonths(interval: nat, k: nat): nat
    requires interval >= 1
  {
    if k == 0 then 0
    else ContributionMonths(interval, k - 1) + (if (k - 1) % interval == 0 then 1 else 0)
  }

  /** ceil(k / interval), the number of multiples of the interval below `k`, for the two intervals in use. */
  function CeilMonths(frequency: Frequency, k: nat): (r: nat)
    ensures (r - 1) * ContributionInterval(frequency) < k <= r * ContributionInterval(frequency)
  {
    if frequency == Monthly then k else (k + 2) / 3
  }

  /** Among the first `k` months, ceil(k / interval) pay a contribution. */
  lemma {:induction false} ContributionMonthsClosedForm(frequency: Frequency, k: nat)
    ensures ContributionMonths(ContributionInterval(frequency), k) == CeilMonths(frequency, k)
  {
    if k > 0 {
      ContributionMonthsClosedForm(frequency, k - 1);
    }
  }

  /** The sum of the contributions of the first `k` months. */
  function ContributedBy(input: PacInput, k: nat): real {
    if k == 0 then 0.0 else ContributedBy(input, k - 1) + Contribution(input, k - 1)
  }

  /** Each contribution month pays the periodic amount, so the first `k` months pay it ceil(k / interval) times. */
  lemma ContributedByClosedForm(input: PacInput, k: nat)
    ensures ContributedBy(input, k) == input.periodicContribution * (CeilMonths(input.frequency, k) as real)
  {
    ContributedByCount(input, k);
    ContributionMonthsClosedForm(input.frequency, k);
  }

  lemma {:induction false} ContributedByCount(input: PacInput, k: nat)
    ensures ContributedBy(input, k)
         == input.periodicContribution * (ContributionMonths(ContributionInterval(input.frequency), k) as real)
  {
    if k > 0 {
      ContributedByCount(input, k - 1);
    }
  }

  // ---------------------------------------------------------------------------
  // Running total

  /** The running total is the initial capital plus everything contributed so far. */
  lemma {:induction false} TotalAfter(input: PacInput, monthlyReturn: real, k: nat)
    ensures TracksAfter(input, monthlyReturn, k).totalContributed == input.initialCapital + ContributedBy(input, k)
  {
    if k > 0 {
      TotalAfter(input, monthlyReturn, k - 1);
      TracksAfterSucc(input, monthlyReturn, k - 1);
    }
  }

  /** The sum of the `contribution` fields of a series. */
  function SumOfContributions(ps: seq<PacPoint>): real {
    if ps == [] then 0.0 else SumOfContributions(ps[..|ps| - 1]) + ps[|ps| - 1].contribution
  }

  lemma {:induction false} SumOfPointContributions(input: PacInput, monthlyReturn: real, startDate: YearMonth, n: nat, k: nat)
    requires k <= n
    ensures SumOfContributions(Points(input, monthlyReturn, startDate, n)[..k]) == ContributedBy(input, k)
  {
    if k > 0 {
      var ps := Points(input, monthlyReturn, startDate, n);
      assert ps[..k][..k - 1] == ps[..k - 1];
      SumOfPointContributions(input, monthlyReturn, startDate, n, k - 1);
    }
  }

  /** At every point the total is the initial capital plus the contributions of the points up to it. */
  lemma TotalIsRunningSum(input: PacInput, monthlyReturn: real, startDate: YearMonth, i: nat)
    requires i < input.durationMonths
    ensures var ps := Series(input, monthlyReturn, startDate);
      ps[i].totalContributed == input.initialCapital + SumOfContributions(ps[..i + 1])
  {
    var ps := Series(input, monthlyReturn, startDate);
    assert ps[i].totalContributed == input.initialCapital + ContributedBy(input, i + 1) by {
      TotalAfter(input, monthlyReturn, i + 1);
    }
    assert SumOfContributions(ps[..i + 1]) == ContributedBy(input, i + 1) by {
      SumOfPointContributions(input, monthlyReturn, startDate, input.durationMonths, i + 1);
    }
  }

  /** In closed form: after `k` months the total is the initial capital plus ceil(k / interval) contributions. */
  lemma TotalAfterClosedForm(input: PacInput, monthlyReturn: real, k: nat)
    ensures TracksAfter(input, monthlyReturn, k).totalContributed
         == input.initialCapital + input.periodicContribution * (CeilMonths(input.frequency, k) as real)
  {
    TotalAfter(input, monthlyReturn, k);
    ContributedByClosedForm(input, k);
  }

  lemma {:induction false} ContributedByMonotone(input: PacInput, j: nat, k: nat)
    requires input.periodicContribution >= 0.0
    requires j <= k
    ensures ContributedBy(input, j) <= ContributedBy(input, k)
    decreases k - j
  {
    if j < k {
      ContributedByMonotone(input, j, k - 1);
    }
  }

  /** With non-negative contributions the running total never decreases. */
  lemma TotalNonDecreasing(input: PacInput, monthlyReturn: real, startDate: YearMonth, i: nat, j: nat)
    requires input.periodicContribution >= 0.0
    requires i <= j < input.durationMonths
    ensures var ps := Series(input, monthlyReturn, startDate);
      ps[i].totalContributed <= ps[j].totalContributed
  {
    PointValues(input, monthlyReturn, startDate, i);
    PointValues(input, monthlyReturn, startDate, j);
    assert TracksAfter(input, monthlyReturn, i + 1).totalContributed <= TracksAfter(input, monthlyReturn, j + 1).totalContributed by {
      TotalAfter(input, monthlyReturn, i + 1);
      TotalAfter(input, monthlyReturn, j + 1);
      ContributedByMonotone(input, i + 1, j + 1);
    }
  }

  /** With no periodic contribution the total stays at the initial capital. */
  lemma TotalWithoutContributions(input: PacInput, monthlyReturn: real, startDate: YearMonth, i: nat)
    requires input.periodicContribution == 0.0
    requires i < input.durationMonths
    ensures Series(input, monthlyReturn, startDate)[i].totalContributed == input.initialCapital
  {
    TotalAfterClosedForm(input, monthlyReturn, i + 1);
  }

  // ---------------------------------------------------------------------------
  // Summary

  /** An empty plan: no points, every final value is the initial capital and there is no gain. */
  lemma ZeroDuration(input: PacInput, monthlyReturn: real, startDate: YearMonth)
    requires input.durationMonths == 0
    ensures var r := Simulate(input, monthlyReturn, startDate);
      && r.points == []
      && r.summary.totalContributed == input.initialCapital
      && r.summary.finalGross == input.initialCapital
      && r.summary.finalNet == input.initialCapital
      && r.summary.absoluteGainGross == 0.0 && r.summary.absoluteGainNet == 0.0
      && r.summary.percentGainGross == 0.0 && r.summary.percentGainNet == 0.0
  {
  }

  // ---------------------------------------------------------------------------
  // Gross and net tracks

  /** Without a fee the net track is the gross track. */
  lemma {:induction false} NoFeeTracksAgree(input: PacInput, monthlyReturn: real, k: nat)
    requires input.annualFeePct == 0.0
    ensures TracksAfter(input, monthlyReturn, k).net == TracksAfter(input, monthlyReturn, k).gross
  {
    if k > 0 {
      NoFeeTracksAgree(input, monthlyReturn, k - 1);
      TracksAfterSucc(input, monthlyReturn, k - 1);
    }
  }

  lemma NoFeeNetEqualsGross(input: PacInput, monthlyReturn: real, startDate: YearMonth, i: nat)
    requires input.annualFeePct == 0.0
    requires i < input.durationMonths
    ensures var p := Series(input, monthlyReturn, startDate)[i];
      p.estimatedValueNet == p.estimatedValueGross
  {
    NoFeeTracksAgree(input, monthlyReturn, i + 1);
  }

  /** The fee touches the net track only: the gross track and the total do not depend on it. */
  lemma {:induction false} GrossIgnoresFee(input: PacInput, monthlyReturn: real, fee: real, k: nat)
    ensures var charged := TracksAfter(input, monthlyReturn, k);
      var other := TracksAfter(input.(annualFeePct := fee), monthlyReturn, k);
      other.gross == charged.gross && other.totalContributed == charged.totalContributed
  {
    if k > 0 {
      var otherFeeInput := input.(annualFeePct := fee);
      GrossIgnoresFee(input, monthlyReturn, fee, k - 1);
      TracksAfterSucc(input, monthlyReturn, k - 1);
      TracksAfterSucc(otherFeeInput, monthlyReturn, k - 1);
      assert Contribution(otherFeeInput, k - 1) == Contribution(input, k - 1);
      assert Step(otherFeeInput, monthlyReturn, TracksAfter(otherFeeInput, monthlyReturn, k - 1), k - 1).gross
          == Step(input, monthlyReturn, TracksAfter(input, monthlyReturn, k - 1), k - 1).gross;
    }
  }

  /** At every point, changing the fee changes neither the gross value, nor the total, nor the contribution. */
  lemma FeeOnlyOnNet(input: PacInput, monthlyReturn: real, startDate: YearMonth, fee: real, i: nat)
    requires i < input.durationMonths
    ensures var p := Series(input, monthlyReturn, startDate)[i];
      var q := Series(input.(annualFeePct := fee), monthlyReturn, startDate)[i];
      && q.estimatedValueGross == p.estimatedValueGross
      && q.totalContributed == p.totalContributed
      && q.contribution == p.contribution
      && q.dateLabel == p.dateLabel
  {
    PointValues(input, monthlyReturn, startDate, i);
    PointValues(input.(annualFeePct := fee), monthlyReturn, startDate, i);
    GrossIgnoresFee(input, monthlyReturn, fee, i + 1);
  }

  /** Growing and then charging a fee keeps values in order and non-negative. */
  lemma ScaleKeepsOrder(a: real, b: real, growth: real, keep: real)
    requires 0.0 <= a <= b
    requires growth >= 0.0
    requires 0.0 <= keep <= 1.0
    ensures 0.0 <= a * growth * keep <= b * growth
  {
    assert a * growth <= b * growth;
    assert 0.0 <= a * growth;
    assert a * growth * keep <= a * growth;
  }

  /** The ranges under which the fee can only lower the net track. */
  predicate FeeDragRanges(input: PacInput, monthlyReturn: real) {
    && input.initialCapital >= 0.0
    && input.periodicContribution >= 0.0
    && 0.0 <= input.annualFeePct <= 100.0
    && monthlyReturn >= -1.0
  }

  lemma {:induction false} TracksOrdered(input: PacInput, monthlyReturn: real, k: nat)
    requires FeeDragRanges(input, monthlyReturn)
    ensures var s := TracksAfter(input, monthlyReturn, k);
      0.0 <= s.net <= s.gross
  {
    if k > 0 {
      TracksOrdered(input, monthlyReturn, k - 1);
      TracksAfterSucc(input, monthlyReturn, k - 1);
      var s := TracksAfter(input, monthlyReturn, k - 1);
      var c := Contribution(input, k - 1);
      ScaleKeepsOrder(s.net + c, s.gross + c, 1.0 + monthlyReturn, 1.0 - MonthlyFeeRate(input.annualFeePct));
    }
  }

  /** Under these ranges the gross value is never below the net value, which is never negative. */
  lemma GrossAtLeastNet(input: PacInput, monthlyReturn: real, startDate: YearMonth)
    requires FeeDragRanges(input, monthlyReturn)
    ensures var ps := Series(input, monthlyReturn, startDate);
      forall i :: 0 <= i < |ps| ==> 0.0 <= ps[i].estimatedValueNet <= ps[i].estimatedValueGross
  {
    var ps := Series(input, monthlyReturn, startDate);
    forall i | 0 <= i < |ps|
      ensures 0.0 <= ps[i].estimatedValueNet <= ps[i].estimatedValueGross
    {
      var s := TracksAfter(input, monthlyReturn, i + 1);
      assert 0.0 <= s.net <= s.gross by {
        TracksOrdered(input, monthlyReturn, i + 1);
      }
      PointValues(input, monthlyReturn, startDate, i);
    }
  }

  /** The same order holds for the final values of the summary. */
  lemma FinalGrossAtLeastNet(input: PacInput, monthlyReturn: real, startDate: YearMonth)
    requires FeeDragRanges(input, monthlyReturn)
    ensures var r := Simulate(input, monthlyReturn, startDate);
      0.0 <= r.summary.finalNet <= r.summary.finalGross
  {
    TracksOrdered(input, monthlyReturn, input.durationMonths);
  }

  /** Every input the form accepts, with a return root of at least -1, meets those ranges. */
  lemma FormRangesBoundFeeDrag(input: PacInput, monthlyReturn: real)
    requires FormRanges(input)
    requires monthlyReturn >= -1.0
    ensures FeeDragRanges(input, monthlyReturn)
  {
  }

  /** Without growth and without a fee, both tracks are exactly the money paid in. */
  lemma {:induction false} FlatTracks(input: PacInput, k: nat)
    requires input.annualFeePct == 0.0
    ensures var s := TracksAfter(input, 0.0, k);
      s.gross == s.totalContributed && s.net == s.totalContributed
  {
    if k > 0 {
      FlatTracks(input, k - 1);
      TracksAfterSucc(input, 0.0, k - 1);
    }
  }

  lemma NoGrowthNoFee(input: PacInput, startDate: YearMonth, i: nat)
    requires input.annualFeePct == 0.0
    requires i < input.durationMonths
    ensures var p := Series(input, 0.0, startDate)[i];
      p.estimatedValueGross == p.totalContributed && p.estimatedValueNet == p.totalContributed
  {
    FlatTracks(input, i + 1);
  }

  /** 100 a month for 12 months from no capital, flat and free of fees, ends at 1200 on every track. */
  lemma MonthlyExample(startDate: YearMonth)
    ensures var input := PacInput(100.0, Monthly, 12, 0.0, 0.0, 0.0, 0.0, false);
      var p := Series(input, 0.0, startDate)[11];
      && p.totalContributed == 1200.0
      && p.estimatedValueGross == 1200.0
      && p.estimatedValueNet == 1200.0
  {
    var input := PacInput(100.0, Monthly, 12, 0.0, 0.0, 0.0, 0.0, false);
    TotalAfterClosedForm(input, 0.0, 12);
    NoGrowthNoFee(input, startDate, 11);
  }

  /** Its summary: 1200 paid in, 1200 on both tracks, no gain. */
  lemma MonthlyExampleSummary(startDate: YearMonth)
    ensures var input := PacInput(100.0, Monthly, 12, 0.0, 0.0, 0.0, 0.0, false);
      var r := Simulate(input, 0.0, startDate);
      && r.summary.totalContributed == 1200.0
      && r.summary.finalGross == 1200.0 && r.summary.finalNet == 1200.0
      && r.summary.absoluteGainGross == 0.0 && r.summary.absoluteGainNet == 0.0
      && r.summary.percentGainGross == 0.0 && r.summary.percentGainNet == 0.0
  {
    MonthlyExample(startDate);
  }

  // ---------------------------------------------------------------------------
  // Compounding

  function Pow(x: real, n: nat): real {
    if n == 0 then 1.0 else x * Pow(x, n - 1)
  }

  /** `capital` grown by `rate` a month for `months` months: capital * (1 + rate)^months. */
  function Compounded(capital: real, rate: real, months: nat): real {
    capital * Pow(1.0 + rate, months)
  }

  /** The gross half of a Step without contribution, regrouped: (capital * power + 0) * growth == capital * (growth * power). */
  lemma Regroup(a: real, p: real, g: real)
    ensures (a * p + 0.0) * g == a * (g * p)
  {
  }

  /** Without contributions the gross track compounds the initial capital: capital * (1 + monthlyReturn)^k. */
  lemma {:induction false} GrossCompounds(input: PacInput, monthlyReturn: real, k: nat)
    requires input.periodicContribution == 0.0
    ensures TracksAfter(input, monthlyReturn, k).gross == Compounded(input.initialCapital, monthlyReturn, k)
  {
    if k > 0 {
      GrossCompounds(input, monthlyReturn, k - 1);
      TracksAfterSucc(input, monthlyReturn, k - 1);
      Regroup(input.initialCapital, Pow(1.0 + monthlyReturn, k - 1), 1.0 + monthlyReturn);
    }
  }

  /** Without contributions the point of the 0-based month `i` holds the capital grown i + 1 times. */
  lemma PointCompounds(input: PacInput, monthlyReturn: real, startDate: YearMonth, i: nat)
    requires input.periodicContribution == 0.0
    requires i < input.durationMonths
    ensures Series(input, monthlyReturn, startDate)[i].estimatedValueGross
         == Compounded(input.initialCapital, monthlyReturn, i + 1)
  {
    PointValues(input, monthlyReturn, startDate, i);
    GrossCompounds(input, monthlyReturn, i + 1);
  }

  // ---------------------------------------------------------------------------
  // Month labels

  /** The label of point `i` names the start month shifted by i + 1 months. */
  lemma PointLabel(input: PacInput, monthlyReturn: real, startDate: YearMonth, i: nat)
    requires i < input.durationMonths
    ensures var p := Series(input, monthlyReturn, startDate)[i];
      ParseMonthLabel(p.dateLabel) == Some(AddMonths(startDate, i + 1))
  {
    LabelRoundTrip(startDate, i + 1);
  }

  /** Consecutive points are labelled with consecutive calendar months. */
  lemma ConsecutiveLabels(input: PacInput, monthlyReturn: real, startDate: YearMonth, i: nat)
    requires i + 1 < input.durationMonths
    ensures var ps := Series(input, monthlyReturn, startDate);
      var a := ParseMonthLabel(ps[i].dateLabel);
      var b := ParseMonthLabel(ps[i + 1].dateLabel);
      a.Some? && b.Some? && MonthNumber(b.value) == MonthNumber(a.value) + 1
  {
    PointLabel(input, monthlyReturn, startDate, i);
    PointLabel(input, monthlyReturn, startDate, i + 1);
  }
}
