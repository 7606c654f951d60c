/** The KPI calculator: `calculate_kpis` compares a baseline with an adjusted series. */
module KpiCalculator {
  import opened Series
  import opened RealMath

  /** The record `calculate_kpis` returns. */
  datatype Kpis = Kpis(
    baselinePeak: real,
    adjustedPeak: real,
    peakReductionKw: real,
    peakReductionPct: real,
    totalEnergyShifted: real)

  /** Five-minute samples per hour: the literal divisor that turns summed kW into kWh. */
  const SamplesPerHour: real := 12.0

  /** `df['demand_kw'].max()`: the largest demand, held by some sample. */
  function PeakDemand(s: seq<Sample>): (m: real)
    requires |s| > 0
    ensures forall i :: 0 <= i < |s| ==> s[i].demandKw <= m
    ensures exists i :: 0 <= i < |s| && s[i].demandKw == m
  {
    if |s| == 1 then s[0].demandKw
    else
      var rest := PeakDemand(s[1..]);
      assert forall i :: 1 <= i < |s| ==> s[i] == s[1..][i - 1];
      if s[0].demandKw >= rest then s[0].demandKw else rest
  }

  /**
   * `(adjusted - baseline).abs().sum()`: the summed absolute change, pairing the
   * samples position by position.
   */
  function AbsChangeSum(baseline: seq<Sample>, adjusted: seq<Sample>): (r: real)
    ensures r >= 0.0
    decreases |baseline|
  {
    if |baseline| == 0 || |adjusted| == 0 then 0.0
    else Abs(adjusted[0].demandKw - baseline[0].demandKw) + AbsChangeSum(baseline[1..], adjusted[1..])
  }

  /** The summed absolute change is zero exactly when no paired sample changed. */
  lemma {:induction false} AbsChangeSumZeroIffUnchanged(baseline: seq<Sample>, adjusted: seq<Sample>)
    ensures AbsChangeSum(baseline, adjusted) == 0.0 <==>
      forall i :: 0 <= i < |baseline| && i < |adjusted| ==> adjusted[i].demandKw == baseline[i].demandKw
    decreases |baseline|
  {
    if |baseline| > 0 && |adjusted| > 0 {
      AbsChangeSumZeroIffUnchanged(baseline[1..], adjusted[1..]);
      assert forall i :: 1 <= i < |baseline| && i < |adjusted| ==>
        baseline[i] == baseline[1..][i - 1] && adjusted[i] == adjusted[1..][i - 1];
    }
  }

  /**
   * `calculate_kpis`. Both peaks are the series' maxima; the reduction is not
   * clamped; the percentage falls back to zero on a zero baseline peak; the
   * energy is the summed absolute change over 12 samples per hour.
   */
  function CalculateKpis(baseline: seq<Sample>, adjusted: seq<Sample>): (k: Kpis)
    requires |baseline| > 0 && |adjusted| > 0
    ensures k.baselinePeak == PeakDemand(baseline) && k.adjustedPeak == PeakDemand(adjusted)
    ensures k.adjustedPeak + k.peakReductionKw == k.baselinePeak
    ensures k.baselinePeak != 0.0 ==> k.peakReductionPct == k.peakReductionKw / k.baselinePeak * 100.0
    ensures k.baselinePeak == 0.0 ==> k.peakReductionPct == 0.0
    ensures k.totalEnergyShifted >= 0.0
  {
    var baselinePeak := PeakDemand(baseline);
    var adjustedPeak := PeakDemand(adjusted);
    var reductionKw := baselinePeak - adjustedPeak;
    var reductionPct := if baselinePeak != 0.0 then reductionKw / baselinePeak * 100.0 else 0.0;
    Kpis(baselinePeak, adjustedPeak, reductionKw, reductionPct, AbsChangeSum(baseline, adjusted) / SamplesPerHour)
  }

  lemma EnergyIsChangePerHour(baseline: seq<Sample>, adjusted: seq<Sample>)
    requires |baseline| > 0 && |adjusted| > 0
    ensures CalculateKpis(baseline, adjusted).totalEnergyShifted == AbsChangeSum(baseline, adjusted) / SamplesPerHour
  {
  }

  /** The reported energy is zero exactly when no paired sample's demand changed. */
  lemma EnergyZeroIffUnchanged(baseline: seq<Sample>, adjusted: seq<Sample>)
    requires |baseline| > 0 && |adjusted| > 0
    ensures CalculateKpis(baseline, adjusted).totalEnergyShifted == 0.0 <==>
      forall i :: 0 <= i < |baseline| && i < |adjusted| ==> adjusted[i].demandKw == baseline[i].demandKw
  {
    AbsChangeSumZeroIffUnchanged(baseline, adjusted);
  }

  /** Comparing a series with itself reports no reduction and no shifted energy. */
  lemma SelfComparisonIsZero(s: seq<Sample>)
    requires |s| > 0
    ensures var k := CalculateKpis(s, s);
      k.baselinePeak == k.adjustedPeak && k.peakReductionKw == 0.0
      && k.peakReductionPct == 0.0 && k.totalEnergyShifted == 0.0
  {
    AbsChangeSumZeroIffUnchanged(s, s);
  }

  /** With a positive baseline peak the percentage has the sign of the reduction in kW. */
  lemma ReductionPctHasSignOfKw(baseline: seq<Sample>, adjusted: seq<Sample>)
    requires |baseline| > 0 && |adjusted| > 0
    ensures var k := CalculateKpis(baseline, adjusted);
      k.baselinePeak > 0.0 ==> (k.peakReductionPct > 0.0 <==> k.peakReductionKw > 0.0)
  {
  }
}
