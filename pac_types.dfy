/**
 * The records exchanged by the accumulation-plan engine and its callers
 * (src/types/pac.ts). The input has the eight fields the store's default plan
 * sets; the engine ignores two of them, the inflation rate and the
 * inflation-display flag. A point and the summary have the fields the engine
 * fills. The contribution window, age and inflation-adjusted fields the
 * declarations also list are neither read nor filled by the engine, and are
 * left out.
 */
module PacTypes {

  /** How often a contribution is paid in. */
  datatype Frequency = Monthly | Biweekly | Quarterly

  /** The plan parameters. Amounts and percentages are exact reals. */
  datatype PacInput = PacInput(
    periodicContribution: real,
    frequency: Frequency,
    durationMonths: nat,
    initialCapital: real,
    annualReturnRatePct: real,
    annualFeePct: real,
    inflationRatePct: real,
    showInflationAdjusted: bool)

  /** The account state emitted for one simulated month. */
  datatype PacPoint = PacPoint(
    monthIndex: nat,
    dateLabel: string,
    contribution: real,
    totalContributed: real,
    estimatedValueGross: real,
    estimatedValueNet: real)

  /** Headline figures derived once the simulation is over. */
  datatype PacSummary = PacSummary(
    totalContributed: real,
    finalGross: real,
    finalNet: real,
    absoluteGainGross: real,
    absoluteGainNet: real,
    percentGainGross: real,
    percentGainNet: real)

  datatype PacResult = PacResult(points: seq<PacPoint>, summary: PacSummary)
}
