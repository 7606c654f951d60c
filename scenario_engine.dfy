/**
 * The scenario engine: `apply_dr_scenario` copies the baseline frame and
 * updates the copy's demand column in place under hour-of-day masks.
 */
module ScenarioEngine {
  import opened Wrappers
  import opened Series

  /**
   * A scenario dictionary. Its `type` key selects the variant (a missing or
   * unrecognised type is `Unknown`); each parameter key may be absent.
   */
  datatype Scenario =
    | PeakReduction(startHour: Option<int>, endHour: Option<int>, reductionPercent: Option<real>)
    | EvShift(shiftHours: Option<int>, magnitudeKw: Option<real>)
    | Unknown

  /** The fixed EV charging window that `ev_shift` relocates: hours 17 to 20. */
  const OriginalChargingStartHour: int := 17
  const OriginalChargingEndHour: int := 21

  /** The hour mask `start <= hour < end`; bounds outside 0..24 simply match fewer hours. */
  predicate InHours(t: Minutes, start: int, end: int) {
    start <= HourOf(t) < end
  }

  /** The magnitude where the mask holds and zero elsewhere: one entry of a load profile. */
  function ProfileEntry(t: Minutes, start: int, end: int, magnitude: real): real {
    if InHours(t, start, end) then magnitude else 0.0
  }

  /** The demand of one sample once the scenario has been applied, parameters defaulted as `dict.get` does. */
  function AdjustedDemand(x: Sample, sc: Scenario): real {
    match sc
    case PeakReduction(start, end, pct) =>
      if InHours(x.timestamp, start.GetOr(0), end.GetOr(24))
      then x.demandKw * (1.0 - pct.GetOr(0.0) / 100.0)
      else x.demandKw
    case EvShift(shift, magnitude) =>
      var sh, m := shift.GetOr(0), magnitude.GetOr(0.0);
      x.demandKw
        - ProfileEntry(x.timestamp, OriginalChargingStartHour, OriginalChargingEndHour, m)
        + ProfileEntry(x.timestamp, OriginalChargingStartHour + sh, OriginalChargingEndHour + sh, m)
    case Unknown =>
      x.demandKw
  }

  /**
   * What a scenario can do to one sample: a peak reduction by a percentage in
   * 0..100 keeps a non-negative demand between zero and its old value, and an
   * EV shift moves it by exactly the magnitude, either way, or not at all.
   */
  lemma AdjustedDemandBounds(x: Sample, sc: Scenario)
    ensures sc.PeakReduction? && 0.0 <= sc.reductionPercent.GetOr(0.0) <= 100.0 && x.demandKw >= 0.0
      ==> 0.0 <= AdjustedDemand(x, sc) <= x.demandKw
    ensures sc.EvShift? ==> var m := sc.magnitudeKw.GetOr(0.0);
      AdjustedDemand(x, sc) in {x.demandKw - m, x.demandKw, x.demandKw + m}
  {
    if sc.PeakReduction? && 0.0 <= sc.reductionPercent.GetOr(0.0) <= 100.0 && x.demandKw >= 0.0 {
      var f := 1.0 - sc.reductionPercent.GetOr(0.0) / 100.0;
      assert 0.0 <= f <= 1.0;
      assert 0.0 <= x.demandKw * f <= x.demandKw * 1.0;
    }
  }

  /** The adjusted series: every sample keeps its timestamp and gets its adjusted demand. */
  function Adjusted(s: seq<Sample>, sc: Scenario): (r: seq<Sample>)
    ensures |r| == |s| && Timestamps(r) == Timestamps(s)
  {
    seq(|s|, i requires 0 <= i < |s| => Sample(s[i].timestamp, AdjustedDemand(s[i], sc)))
  }

  /**
   * `adjusted_df.loc[mask, 'demand_kw'] *= factor`: scales the demand of the
   * samples whose hour is in `[start, end)` and leaves the rest alone.
   */
  method ScaleWhere(a: array<Sample>, start: int, end: int, factor: real)
    modifies a
    ensures forall i :: 0 <= i < a.Length ==>
      a[i] == if InHours(old(a[i]).timestamp, start, end)
              then Sample(old(a[i]).timestamp, old(a[i]).demandKw * factor)
              else old(a[i])
  {
    for i := 0 to a.Length
      invariant forall k :: 0 <= k < i ==>
        a[k] == if InHours(old(a[k]).timestamp, start, end)
                then Sample(old(a[k]).timestamp, old(a[k]).demandKw * factor)
                else old(a[k])
      invariant forall k :: i <= k < a.Length ==> a[k] == old(a[k])
    {
      if InHours(a[i].timestamp, start, end) {
        a[i] := Sample(a[i].timestamp, a[i].demandKw * factor);
      }
    }
  }

  /**
   * `np.zeros(len(df))` followed by `profile[mask] = magnitude`: a fresh load
   * profile holding `magnitude` at the samples whose hour is in `[start, end)`.
   */
  method MaskedProfile(a: array<Sample>, start: int, end: int, magnitude: real) returns (p: array<real>)
    ensures fresh(p) && p.Length == a.Length
    ensures forall i :: 0 <= i < a.Length ==> p[i] == ProfileEntry(a[i].timestamp, start, end, magnitude)
  {
    p := new real[a.Length](_ => 0.0);
    for i := 0 to a.Length
      invariant forall k :: 0 <= k < i ==> p[k] == ProfileEntry(a[k].timestamp, start, end, magnitude)
      invariant forall k :: i <= k < a.Length ==> p[k] == 0.0
    {
      if InHours(a[i].timestamp, start, end) {
        p[i] := magnitude;
      }
    }
  }

  /** `df['demand_kw'] -= profile` (when `subtract`) or `df['demand_kw'] += profile`, element by element. */
  method AddProfile(a: array<Sample>, p: array<real>, subtract: bool)
    requires p.Length == a.Length
    modifies a
    ensures forall i :: 0 <= i < a.Length ==>
      a[i] == Sample(old(a[i]).timestamp, if subtract then old(a[i]).demandKw - p[i] else old(a[i]).demandKw + p[i])
  {
    for i := 0 to a.Length
      invariant forall k :: 0 <= k < i ==>
        a[k] == Sample(old(a[k]).timestamp, if subtract then old(a[k]).demandKw - p[k] else old(a[k]).demandKw + p[k])
      invariant forall k :: i <= k < a.Length ==> a[k] == old(a[k])
    {
      a[i] := Sample(a[i].timestamp, if subtract then a[i].demandKw - p[i] else a[i].demandKw + p[i]);
    }
  }

  /**
   * `apply_dr_scenario`: a fresh copy of the baseline, adjusted under the
   * scenario. The baseline is read only, so it is left as it was.
   */
  method ApplyDrScenario(baseline: array<Sample>, sc: Scenario) returns (adjusted: array<Sample>)
    ensures fresh(adjusted)
    ensures adjusted[..] == Adjusted(baseline[..], sc)
  {
    adjusted := new Sample[baseline.Length](i reads baseline => if 0 <= i < baseline.Length then baseline[i] else Sample(0, 0.0));
    assert adjusted[..] == baseline[..];
    match sc {
      case PeakReduction(start, end, pct) =>
        var reduction := pct.GetOr(0.0) / 100.0;
        ScaleWhere(adjusted, start.GetOr(0), end.GetOr(24), 1.0 - reduction);
      case EvShift(shift, magnitude) =>
        var sh, m := shift.GetOr(0), magnitude.GetOr(0.0);
        var originalLoad := MaskedProfile(adjusted, OriginalChargingStartHour, OriginalChargingEndHour, m);
        var shiftedLoad := MaskedProfile(adjusted, OriginalChargingStartHour + sh, OriginalChargingEndHour + sh, m);
        AddProfile(adjusted, originalLoad, true);
        AddProfile(adjusted, shiftedLoad, false);
      case Unknown =>
    }
    assert forall i :: 0 <= i < adjusted.Length ==> adjusted[i] == Adjusted(baseline[..], sc)[i];
  }

  /** A missing or unrecognised scenario type returns an unchanged copy. */
  lemma UnknownIsIdentity(s: seq<Sample>)
    ensures Adjusted(s, Unknown) == s
  {
  }

  /**
   * `peak_reduction` changes a sample exactly when its hour is in `[start, end)`,
   * the percentage is non-zero and the sample's demand is non-zero.
   */
  lemma PeakReductionChangesOnlyWindow(s: seq<Sample>, start: Option<int>, end: Option<int>, pct: Option<real>, i: nat)
    requires i < |s|
    ensures var r := Adjusted(s, PeakReduction(start, end, pct));
      r[i].demandKw != s[i].demandKw
      <==> InHours(s[i].timestamp, start.GetOr(0), end.GetOr(24)) && pct.GetOr(0.0) != 0.0 && s[i].demandKw != 0.0
  {
    var d, p := s[i].demandKw, pct.GetOr(0.0);
    assert d * (1.0 - p / 100.0) == d - d * p / 100.0;
  }

  /** `peak_reduction` with a zero or missing percentage is the identity. */
  lemma PeakReductionZeroIsIdentity(s: seq<Sample>, start: Option<int>, end: Option<int>, pct: Option<real>)
    requires pct.GetOr(0.0) == 0.0
    ensures Adjusted(s, PeakReduction(start, end, pct)) == s
  {
  }

  /** `peak_reduction` whose start hour is not below its end hour matches no sample. */
  lemma PeakReductionEmptyWindowIsIdentity(s: seq<Sample>, start: Option<int>, end: Option<int>, pct: Option<real>)
    requires start.GetOr(0) >= end.GetOr(24)
    ensures Adjusted(s, PeakReduction(start, end, pct)) == s
  {
  }

  /**
   * `ev_shift` moves each sample by the magnitude times the difference of the two
   * window indicators: samples in both windows, or in neither, are unchanged.
   */
  lemma EvShiftNetChange(s: seq<Sample>, shift: Option<int>, magnitude: Option<real>, i: nat)
    requires i < |s|
    ensures var r := Adjusted(s, EvShift(shift, magnitude));
      var t, sh, m := s[i].timestamp, shift.GetOr(0), magnitude.GetOr(0.0);
      var inOriginal := InHours(t, OriginalChargingStartHour, OriginalChargingEndHour);
      var inShifted := InHours(t, OriginalChargingStartHour + sh, OriginalChargingEndHour + sh);
      && (inOriginal && !inShifted ==> r[i].demandKw == s[i].demandKw - m)
      && (!inOriginal && inShifted ==> r[i].demandKw == s[i].demandKw + m)
      && (inOriginal == inShifted ==> r[i].demandKw == s[i].demandKw)
  {
  }

  /** `ev_shift` with a zero or missing magnitude, or a zero or missing shift, is the identity. */
  lemma EvShiftIdentity(s: seq<Sample>, shift: Option<int>, magnitude: Option<real>)
    requires magnitude.GetOr(0.0) == 0.0 || shift.GetOr(0) == 0
    ensures Adjusted(s, EvShift(shift, magnitude)) == s
  {
  }

  /**
   * The shifted window does not wrap past midnight: with a shift of seven hours
   * or more it starts at hour 24 or later and matches no sample, so only the
   * subtraction in hours 17 to 20 takes effect.
   */
  lemma EvShiftDoesNotWrap(s: seq<Sample>, shift: Option<int>, magnitude: Option<real>, i: nat)
    requires i < |s| && shift.GetOr(0) >= HoursPerDay - OriginalChargingStartHour
    ensures Adjusted(s, EvShift(shift, magnitude))[i].demandKw
      == s[i].demandKw - ProfileEntry(s[i].timestamp, OriginalChargingStartHour, OriginalChargingEndHour, magnitude.GetOr(0.0))
  {
  }

  /** Both transforms look only at the hour of day: a sample one or more whole days later is adjusted alike. */
  lemma ScenarioRepeatsDaily(x: Sample, days: int, sc: Scenario)
    ensures AdjustedDemand(Sample(x.timestamp + days * MinutesPerDay, x.demandKw), sc) == AdjustedDemand(x, sc)
  {
    HourOfRepeatsDaily(x.timestamp, days);
  }
}
