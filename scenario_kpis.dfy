/** What the KPIs report for each scenario: the two halves of the simulator composed. */
module ScenarioKpis {
  import opened Wrappers
  import opened Series
  import opened ScenarioEngine
  import opened KpiCalculator
  import opened RealMath

  /** The number of samples in exactly one of the two `ev_shift` windows. */
  function SwitchedCount(s: seq<Sample>, shift: int): nat {
    if s == [] then 0
    else
      var t := s[0].timestamp;
      var inOriginal := InHours(t, OriginalChargingStartHour, OriginalChargingEndHour);
      var inShifted := InHours(t, OriginalChargingStartHour + shift, OriginalChargingEndHour + shift);
      (if inOriginal != inShifted then 1 else 0) + SwitchedCount(s[1..], shift)
  }

  /** The summed absolute demand of the samples whose hour is in `[start, end)`. */
  function WindowAbsDemand(s: seq<Sample>, start: int, end: int): real {
    if s == [] then 0.0
    else (if InHours(s[0].timestamp, start, end) then Abs(s[0].demandKw) else 0.0) + WindowAbsDemand(s[1..], start, end)
  }

  lemma Distribute(a: real, b: real, c: real)
    ensures a * (b + c) == a * b + a * c
  {
  }

  /** The absolute change a scenario makes to one sample's demand. */
  function SampleChange(x: Sample, sc: Scenario): real {
    Abs(AdjustedDemand(x, sc) - x.demandKw)
  }

  /** The absolute changes a scenario makes, summed over the series. */
  function ScenarioChange(s: seq<Sample>, sc: Scenario): real {
    if s == [] then 0.0 else SampleChange(s[0], sc) + ScenarioChange(s[1..], sc)
  }

  /** Comparing a series with its own adjustment sums the per-sample changes. */
  lemma {:induction false} AbsChangeSumOfAdjusted(s: seq<Sample>, sc: Scenario)
    ensures AbsChangeSum(s, Adjusted(s, sc)) == ScenarioChange(s, sc)
  {
    if s != [] {
      assert Adjusted(s, sc)[1..] == Adjusted(s[1..], sc);
      AbsChangeSumOfAdjusted(s[1..], sc);
    }
  }

  lemma EvShiftSampleChange(x: Sample, shift: Option<int>, magnitude: Option<real>)
    ensures var t, sh := x.timestamp, shift.GetOr(0);
      SampleChange(x, EvShift(shift, magnitude))
      == if InHours(t, OriginalChargingStartHour, OriginalChargingEndHour)
            != InHours(t, OriginalChargingStartHour + sh, OriginalChargingEndHour + sh)
         then Abs(magnitude.GetOr(0.0)) else 0.0
  {
  }

  /** The energy moved by `ev_shift`, sample by sample: the magnitude wherever exactly one window holds. */
  function SwitchedEnergy(s: seq<Sample>, shift: int, magnitude: real): real {
    if s == [] then 0.0
    else
      var t := s[0].timestamp;
      var inOriginal := InHours(t, OriginalChargingStartHour, OriginalChargingEndHour);
      var inShifted := InHours(t, OriginalChargingStartHour + shift, OriginalChargingEndHour + shift);
      (if inOriginal != inShifted then Abs(magnitude) else 0.0) + SwitchedEnergy(s[1..], shift, magnitude)
  }

  lemma {:induction false} SwitchedEnergyIsCount(s: seq<Sample>, shift: int, magnitude: real)
    ensures SwitchedEnergy(s, shift, magnitude) == Abs(magnitude) * SwitchedCount(s, shift) as real
  {
    if s != [] {
      SwitchedEnergyIsCount(s[1..], shift, magnitude);
      var n := SwitchedCount(s[1..], shift);
      var f := SwitchedCount(s, shift) - n;
      Distribute(Abs(magnitude), f as real, n as real);
    }
  }

  lemma {:induction false} EvShiftChangeIsSwitchedEnergy(s: seq<Sample>, shift: Option<int>, magnitude: Option<real>)
    ensures ScenarioChange(s, EvShift(shift, magnitude)) == SwitchedEnergy(s, shift.GetOr(0), magnitude.GetOr(0.0))
  {
    if s != [] {
      EvShiftChangeIsSwitchedEnergy(s[1..], shift, magnitude);
      EvShiftSampleChange(s[0], shift, magnitude);
    }
  }

  /** The summed absolute change of `ev_shift`: the magnitude once per sample in exactly one window. */
  lemma EvShiftAbsChange(s: seq<Sample>, shift: Option<int>, magnitude: Option<real>)
    ensures AbsChangeSum(s, Adjusted(s, EvShift(shift, magnitude)))
      == Abs(magnitude.GetOr(0.0)) * SwitchedCount(s, shift.GetOr(0)) as real
  {
    AbsChangeSumOfAdjusted(s, EvShift(shift, magnitude));
    EvShiftChangeIsSwitchedEnergy(s, shift, magnitude);
    SwitchedEnergyIsCount(s, shift.GetOr(0), magnitude.GetOr(0.0));
  }

  /**
   * The energy `ev_shift` reports: the magnitude for each sample that sits in
   * exactly one of the two windows, over 12 samples per hour.
   */
  lemma EvShiftEnergy(s: seq<Sample>, shift: Option<int>, magnitude: Option<real>)
    requires |s| > 0
    ensures CalculateKpis(s, Adjusted(s, EvShift(shift, magnitude))).totalEnergyShifted
      == Abs(magnitude.GetOr(0.0)) * SwitchedCount(s, shift.GetOr(0)) as real / SamplesPerHour
  {
    EnergyIsChangePerHour(s, Adjusted(s, EvShift(shift, magnitude)));
    EvShiftAbsChange(s, shift, magnitude);
  }

  lemma AbsOfScaledChange(d: real, r: real)
    ensures Abs(d * (1.0 - r) - d) == Abs(r) * Abs(d)
  {
    assert d * (1.0 - r) - d == -(r * d);
    if r >= 0.0 && d >= 0.0 {
      assert r * d >= 0.0;
    } else if r >= 0.0 {
      assert r * d <= 0.0;
      assert Abs(d) == -d;
    } else if d >= 0.0 {
      assert r * d <= 0.0;
    } else {
      assert r * d == (-r) * (-d);
      assert (-r) * (-d) >= 0.0;
    }
  }

  lemma PeakReductionSampleChange(x: Sample, start: Option<int>, end: Option<int>, pct: Option<real>)
    ensures SampleChange(x, PeakReduction(start, end, pct))
      == Abs(pct.GetOr(0.0) / 100.0) * (if InHours(x.timestamp, start.GetOr(0), end.GetOr(24)) then Abs(x.demandKw) else 0.0)
  {
    AbsOfScaledChange(x.demandKw, pct.GetOr(0.0) / 100.0);
  }

  /** The demand removed by `peak_reduction`, sample by sample, in absolute value. */
  function ReducedDemand(s: seq<Sample>, start: int, end: int, fraction: real): real {
    if s == [] then 0.0
    else
      Abs(fraction) * (if InHours(s[0].timestamp, start, end) then Abs(s[0].demandKw) else 0.0)
      + ReducedDemand(s[1..], start, end, fraction)
  }

  /** The removed demand is the reduced fraction of the absolute demand inside the window. */
  lemma {:induction false} ReducedDemandFactors(s: seq<Sample>, start: int, end: int, fraction: real)
    ensures ReducedDemand(s, start, end, fraction) == Abs(fraction) * WindowAbsDemand(s, start, end)
  {
    if s != [] {
      ReducedDemandFactors(s[1..], start, end, fraction);
      var a := Abs(fraction);
      var first := if InHours(s[0].timestamp, start, end) then Abs(s[0].demandKw) else 0.0;
      var rest := WindowAbsDemand(s[1..], start, end);
      assert ReducedDemand(s, start, end, fraction) == a * first + a * rest;
      assert WindowAbsDemand(s, start, end) == first + rest;
      Distribute(a, first, rest);
    }
  }

  lemma {:induction false} PeakReductionChangeIsReduced(s: seq<Sample>, start: Option<int>, end: Option<int>, pct: Option<real>)
    ensures ScenarioChange(s, PeakReduction(start, end, pct))
      == ReducedDemand(s, start.GetOr(0), end.GetOr(24), pct.GetOr(0.0) / 100.0)
  {
    if s != [] {
      PeakReductionChangeIsReduced(s[1..], start, end, pct);
      PeakReductionSampleChange(s[0], start, end, pct);
    }
  }

  /** The summed absolute change of `peak_reduction` is the demand it removes inside the window. */
  lemma PeakReductionAbsChange(s: seq<Sample>, start: Option<int>, end: Option<int>, pct: Option<real>)
    ensures AbsChangeSum(s, Adjusted(s, PeakReduction(start, end, pct)))
      == ReducedDemand(s, start.GetOr(0), end.GetOr(24), pct.GetOr(0.0) / 100.0)
  {
    AbsChangeSumOfAdjusted(s, PeakReduction(start, end, pct));
    PeakReductionChangeIsReduced(s, start, end, pct);
  }

  /**
   * The energy `peak_reduction` reports: the demand removed inside the window
   * (the reduced fraction of its absolute demand), over 12 samples per hour.
   */
  lemma PeakReductionEnergy(s: seq<Sample>, start: Option<int>, end: Option<int>, pct: Option<real>)
    requires |s| > 0
    ensures CalculateKpis(s, Adjusted(s, PeakReduction(start, end, pct))).totalEnergyShifted
      == ReducedDemand(s, start.GetOr(0), end.GetOr(24), pct.GetOr(0.0) / 100.0) / SamplesPerHour
  {
    EnergyIsChangePerHour(s, Adjusted(s, PeakReduction(start, end, pct)));
    PeakReductionAbsChange(s, start, end, pct);
  }

  /**
   * On a non-negative baseline, `peak_reduction` with a non-negative percentage
   * never raises the peak: the reported reduction in kW is never negative.
   */
  lemma PeakReductionNeverRaisesPeak(s: seq<Sample>, start: Option<int>, end: Option<int>, pct: Option<real>)
    requires |s| > 0
    requires forall i :: 0 <= i < |s| ==> s[i].demandKw >= 0.0
    requires pct.GetOr(0.0) >= 0.0
    ensures CalculateKpis(s, Adjusted(s, PeakReduction(start, end, pct))).peakReductionKw >= 0.0
  {
    var r := Adjusted(s, PeakReduction(start, end, pct));
    var p := pct.GetOr(0.0) / 100.0;
    forall i | 0 <= i < |s|
      ensures r[i].demandKw <= s[i].demandKw
    {
      assert s[i].demandKw * p >= 0.0;
      assert s[i].demandKw * (1.0 - p) == s[i].demandKw - s[i].demandKw * p;
    }
    var j :| 0 <= j < |r| && r[j].demandKw == PeakDemand(r);
    assert s[j].demandKw <= PeakDemand(s);
  }

  /** An all-zero baseline has a zero peak, so the percentage falls back to zero instead of dividing by it. */
  lemma ZeroBaselineHasZeroPct(s: seq<Sample>, sc: Scenario)
    requires |s| > 0
    requires forall i :: 0 <= i < |s| ==> s[i].demandKw == 0.0
    ensures var k := CalculateKpis(s, Adjusted(s, sc));
      k.baselinePeak == 0.0 && k.peakReductionPct == 0.0
  {
    var j :| 0 <= j < |s| && s[j].demandKw == PeakDemand(s);
  }

  /** A day of hourly samples at `demand`, starting at midnight. */
  function HourlyDay(demand: real): (s: seq<Sample>)
    ensures |s| == HoursPerDay
    ensures forall i :: 0 <= i < HoursPerDay ==> HourOf(s[i].timestamp) == i
  {
    seq(HoursPerDay, i requires 0 <= i < HoursPerDay => Sample(i * MinutesPerHour, demand))
  }

  /** Hours 18 to 20 of a flat day drop to 80% under a 20% reduction; the other hours keep their demand. */
  lemma EveningReductionSamples(level: real)
    ensures var r := Adjusted(HourlyDay(level), PeakReduction(Some(18), Some(21), Some(20.0)));
      forall i :: 0 <= i < HoursPerDay ==> r[i].demandKw == if 18 <= i < 21 then 0.8 * level else level
  {
  }

  /** The peak of a series is any demand that bounds every sample and is held by one of them. */
  lemma PeakIs(s: seq<Sample>, c: real, j: nat)
    requires j < |s| && s[j].demandKw == c
    requires forall i :: 0 <= i < |s| ==> s[i].demandKw <= c
    ensures PeakDemand(s) == c
  {
  }

  /** Under that reduction a flat day at a non-negative level and its adjustment both peak at that level. */
  lemma EveningPeaks(level: real)
    requires level >= 0.0
    ensures PeakDemand(HourlyDay(level)) == level
    ensures PeakDemand(Adjusted(HourlyDay(level), PeakReduction(Some(18), Some(21), Some(20.0)))) == level
  {
    var s := HourlyDay(level);
    var r := Adjusted(s, PeakReduction(Some(18), Some(21), Some(20.0)));
    assert PeakDemand(s) == level by { PeakIs(s, level, 0); }
    assert PeakDemand(r) == level by { EveningReductionSamples(level); PeakIs(r, level, 0); }
  }

  /** Under that reduction a sample of a day at a non-zero level changes, so energy is shifted. */
  lemma EveningEnergy(level: real)
    requires level != 0.0
    ensures CalculateKpis(HourlyDay(level), Adjusted(HourlyDay(level), PeakReduction(Some(18), Some(21), Some(20.0)))).totalEnergyShifted > 0.0
  {
    var s := HourlyDay(level);
    var r := Adjusted(s, PeakReduction(Some(18), Some(21), Some(20.0)));
    EveningReductionSamples(level);
    EnergyZeroIffUnchanged(s, r);
    assert r[18].demandKw != s[18].demandKw;
  }

  /**
   * Twenty-four hourly samples at a positive level under a 20% reduction in
   * hours 18 to 20: the peak is held outside the window, so the reported peak
   * reduction is zero while energy is still shifted.
   */
  lemma EveningReductionExample(level: real)
    requires level > 0.0
    ensures var s := HourlyDay(level);
      var k := CalculateKpis(s, Adjusted(s, PeakReduction(Some(18), Some(21), Some(20.0))));
      && k.baselinePeak == level && k.adjustedPeak == level
      && k.peakReductionKw == 0.0 && k.peakReductionPct == 0.0
      && k.totalEnergyShifted > 0.0
  {
    EveningPeaks(level);
    EveningEnergy(level);
  }
}
