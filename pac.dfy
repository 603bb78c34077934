/**
 * The accumulation-plan engine (simulatePac in src/lib/pac.ts).
 *
 * Month by month a contribution (on contribution months) is added to a gross
 * track, a net track and the running total; both tracks then grow by
 * `1 + monthlyReturn`, and the net track alone loses a linear monthly fee.
 * The functions below define the series and summary the engine produces;
 * SimulatePac is the engine's loop, proved to produce exactly that.
 *
 * The monthly return is the twelfth root (1 + annualReturnRatePct / 100)^(1/12) - 1,
 * computed in floating point by the source; here it is a parameter.
 */
module Pac {
  import opened PacTypes
  import opened MonthLabel

  /** The parameter ranges the input form accepts before it hands a value to the store. */
  predicate FormRanges(input: PacInput) {
    && input.periodicContribution >= 0.0
    && input.frequency in {Monthly, Quarterly}
    && input.durationMonths >= 1
    && input.initialCapital >= 0.0
    && -100.0 <= input.annualReturnRatePct <= 100.0
    && 0.0 <= input.annualFeePct <= 100.0
  }

  /** The fee is a flat twelfth of the annual percentage, not a compounding root. */
  function MonthlyFeeRate(annualFeePct: real): (r: real)
    ensures r * 1200.0 == annualFeePct
    ensures 0.0 <= annualFeePct <= 100.0 ==> 0.0 <= r <= 1.0 / 12.0
  {
    annualFeePct / 100.0 / 12.0
  }

  /** Months between contributions: 1 for monthly, 3 for every other frequency (biweekly included). */
  function ContributionInterval(frequency: Frequency): (r: nat)
    ensures r == 1 || r == 3
    ensures r == 1 <==> frequency == Monthly
  {
    if frequency == Monthly then 1 else 3
  }

  /** The amount paid in during the 0-based month `m`. */
  function Contribution(input: PacInput, m: nat): real {
    if m % ContributionInterval(input.frequency) == 0 then input.periodicContribution else 0.0
  }

  /** The engine's three running values. */
  datatype Tracks = Tracks(gross: real, net: real, totalContributed: real)

  /** One month: contribute at the start, grow both tracks, charge the fee on the net track. */
  function Step(input: PacInput, monthlyReturn: real, s: Tracks, m: nat): Tracks {
    var c := Contribution(input, m);
    var fee := MonthlyFeeRate(input.annualFeePct);
    Tracks((s.gross + c) * (1.0 + monthlyReturn),
           (s.net + c) * (1.0 + monthlyReturn) * (1.0 - fee),
           s.totalContributed + c)
  }

  /** The values all three tracks hold before the first month. */
  function Initial(input: PacInput): Tracks {
    Tracks(input.initialCapital, input.initialCapital, input.initialCapital)
  }

  /** The running values after `k` more months, starting from values `s` at the 0-based month `m`. */
  function TracksFrom(input: PacInput, monthlyReturn: real, s: Tracks, m: nat, k: nat): Tracks
    decreases k
  {
    if k == 0 then s else TracksFrom(input, monthlyReturn, Step(input, monthlyReturn, s, m), m + 1, k - 1)
  }

  /** The running values after the first `months` months. */
  function TracksAfter(input: PacInput, monthlyReturn: real, months: nat): Tracks {
    TracksFrom(input, monthlyReturn, Initial(input), 0, months)
  }

  /** Running one month more is one more Step at the end. */
  lemma {:induction false} TracksFromSucc(input: PacInput, monthlyReturn: real, s: Tracks, m: nat, k: nat)
    ensures TracksFrom(input, monthlyReturn, s, m, k + 1)
         == Step(input, monthlyReturn, TracksFrom(input, monthlyReturn, s, m, k), m + k)
    decreases k
  {
    if k > 0 {
      TracksFromSucc(input, monthlyReturn, Step(input, monthlyReturn, s, m), m + 1, k - 1);
    }
  }

  /** The values after month `months` are one Step from the values before it. */
  lemma TracksAfterSucc(input: PacInput, monthlyReturn: real, months: nat)
    ensures TracksAfter(input, monthlyReturn, months + 1)
         == Step(input, monthlyReturn, TracksAfter(input, monthlyReturn, months), months)
  {
    TracksFromSucc(input, monthlyReturn, Initial(input), 0, months);
  }

  /** The point emitted for the 0-based month `m`: its values after that month. */
  function PointAt(input: PacInput, monthlyReturn: real, startDate: YearMonth, m: nat): PacPoint {
    var s := TracksAfter(input, monthlyReturn, m + 1);
    PacPoint(m + 1, FormatMonthLabel(startDate, m + 1), Contribution(input, m),
             s.totalContributed, s.gross, s.net)
  }

  /** The series pushed by the first `n` months, one point per month in order. */
  function Points(input: PacInput, monthlyReturn: real, startDate: YearMonth, n: nat): (ps: seq<PacPoint>)
    ensures |ps| == n
  {
    seq(n, i requires 0 <= i < n => PointAt(input, monthlyReturn, startDate, i))
  }

  /** Pushing the next month's point extends the series by that point. */
  lemma PointsSnoc(input: PacInput, monthlyReturn: real, startDate: YearMonth, n: nat)
    ensures Points(input, monthlyReturn, startDate, n + 1)
         == Points(input, monthlyReturn, startDate, n) + [PointAt(input, monthlyReturn, startDate, n)]
  {
  }

  /** Percentage gain, 0 instead of a division when nothing was contributed. */
  function PercentGain(absoluteGain: real, totalContributed: real): real {
    if totalContributed > 0.0 then (absoluteGain / totalContributed) * 100.0 else 0.0
  }

  /** The percentage gain is the gain per hundred contributed, and 0 when nothing positive was contributed. */
  lemma PercentGainMeaning(absoluteGain: real, totalContributed: real)
    ensures totalContributed > 0.0 ==> PercentGain(absoluteGain, totalContributed) * totalContributed == absoluteGain * 100.0
    ensures totalContributed <= 0.0 ==> PercentGain(absoluteGain, totalContributed) == 0.0
  {
    if totalContributed > 0.0 {
      calc {
        PercentGain(absoluteGain, totalContributed) * totalContributed;
        (absoluteGain / totalContributed) * 100.0 * totalContributed;
        (absoluteGain / totalContributed) * totalContributed * 100.0;
        absoluteGain * 100.0;
      }
    }
  }

  /**
   * The summary of a run: the final values are the last point's, or the loop's
   * values when there is no point, and the gains are measured against the total.
   */
  function Summarize(points: seq<PacPoint>, final: Tracks): (r: PacSummary)
    ensures r.totalContributed == final.totalContributed
    ensures r.finalGross == if |points| > 0 then points[|points| - 1].estimatedValueGross else final.gross
    ensures r.finalNet == if |points| > 0 then points[|points| - 1].estimatedValueNet else final.net
    ensures r.absoluteGainGross + r.totalContributed == r.finalGross
    ensures r.absoluteGainNet + r.totalContributed == r.finalNet
    ensures r.totalContributed > 0.0 ==>
      && r.percentGainGross == r.absoluteGainGross / r.totalContributed * 100.0
      && r.percentGainNet == r.absoluteGainNet / r.totalContributed * 100.0
    ensures r.totalContributed <= 0.0 ==> r.percentGainGross == 0.0 && r.percentGainNet == 0.0
  {
    var finalGross := if |points| > 0 then points[|points| - 1].estimatedValueGross else final.gross;
    var finalNet := if |points| > 0 then points[|points| - 1].estimatedValueNet else final.net;
    var absoluteGainGross := finalGross - final.totalContributed;
    var absoluteGainNet := finalNet - final.totalContributed;
    PacSummary(final.totalContributed, finalGross, finalNet, absoluteGainGross, absoluteGainNet,
               PercentGain(absoluteGainGross, final.totalContributed),
               PercentGain(absoluteGainNet, final.totalContributed))
  }

  /** The whole series of a run: one point for each of the `durationMonths` months. */
  function Series(input: PacInput, monthlyReturn: real, startDate: YearMonth): (ps: seq<PacPoint>)
    ensures |ps| == input.durationMonths
    ensures forall i :: 0 <= i < |ps| ==> ps[i].monthIndex == i + 1
  {
    Points(input, monthlyReturn, startDate, input.durationMonths)
  }

  /**
   * The result of simulating `input` from `startDate`: one point per month, and
   * a summary that repeats the last point, or the initial capital when there is
   * no point, and measures the gains against the total paid in.
   */
  function Simulate(input: PacInput, monthlyReturn: real, startDate: YearMonth): (r: PacResult)
    ensures r.points == Series(input, monthlyReturn, startDate)
    ensures |r.points| == input.durationMonths
    ensures var d := input.durationMonths;
      && r.summary.totalContributed == (if d > 0 then r.points[d - 1].totalContributed else input.initialCapital)
      && r.summary.finalGross == (if d > 0 then r.points[d - 1].estimatedValueGross else input.initialCapital)
      && r.summary.finalNet == (if d > 0 then r.points[d - 1].estimatedValueNet else input.initialCapital)
    ensures r.summary.absoluteGainGross == r.summary.finalGross - r.summary.totalContributed
    ensures r.summary.absoluteGainNet == r.summary.finalNet - r.summary.totalContributed
    ensures r.summary.totalContributed > 0.0 ==>
      && r.summary.percentGainGross == r.summary.absoluteGainGross / r.summary.totalContributed * 100.0
      && r.summary.percentGainNet == r.summary.absoluteGainNet / r.summary.totalContributed * 100.0
    ensures r.summary.totalContributed <= 0.0 ==> r.summary.percentGainGross == 0.0 && r.summary.percentGainNet == 0.0
  {
    var points := Series(input, monthlyReturn, startDate);
    PacResult(points, Summarize(points, TracksAfter(input, monthlyReturn, input.durationMonths)))
  }

  /** The engine: one loop over the months updating the three running values and pushing a point each time. */
  method SimulatePac(input: PacInput, monthlyReturn: real, startDate: YearMonth) returns (result: PacResult)
    ensures result == Simulate(input, monthlyReturn, startDate)
  {
    var monthlyFee := MonthlyFeeRate(input.annualFeePct);
    var contributionInterval := ContributionInterval(input.frequency);
    var points: seq<PacPoint> := [];
    var valueGross := input.initialCapital;
    var valueNet := input.initialCapital;
    var totalContributed := input.initialCapital;
    for m := 0 to input.durationMonths
      invariant Tracks(valueGross, valueNet, totalContributed) == TracksAfter(input, monthlyReturn, m)
      invariant points == Points(input, monthlyReturn, startDate, m)
    {
      ghost var before := Tracks(valueGross, valueNet, totalContributed);
      var isContributionMonth := m % contributionInterval == 0;
      var contribution := if isContributionMonth then input.periodicContribution else 0.0;

      valueGross := valueGross + contribution;
      valueNet := valueNet + contribution;
      totalContributed := totalContributed + contribution;

      valueGross := valueGross * (1.0 + monthlyReturn);
      valueNet := valueNet * (1.0 + monthlyReturn);

      valueNet := valueNet * (1.0 - monthlyFee);

      assert Tracks(valueGross, valueNet, totalContributed) == Step(input, monthlyReturn, before, m);
      TracksAfterSucc(input, monthlyReturn, m);
      var point := PacPoint(m + 1, FormatMonthLabel(startDate, m + 1), contribution,
                            totalContributed, valueGross, valueNet);
      PointsSnoc(input, monthlyReturn, startDate, m);
      points := points + [point];
    }
    result := PacResult(points, Summarize(points, Tracks(valueGross, valueNet, totalContributed)));
  }
}
