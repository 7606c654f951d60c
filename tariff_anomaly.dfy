/**
 * The rules applied to predicted demand after the gradient-boosting
 * regressor: a three-band tariff on the prediction, and an anomaly flag when
 * the actual demand strays more than 20% of the prediction from it.
 */
module TariffAnomaly {
  import opened RealMath

  datatype Tariff = Low | Normal | High

  const HighAbove: real := 0.7
  const NormalAbove: real := 0.4
  /** The tolerated deviation, as a fraction of the prediction. */
  const AnomalyFraction: real := 0.2

  /** The tariff band of a demand value. */
  function AssignTariff(demand: real): (t: Tariff)
    ensures t == High <==> demand > HighAbove
    ensures t == Normal <==> NormalAbove < demand <= HighAbove
    ensures t == Low <==> demand <= NormalAbove
  {
    if demand > HighAbove then High
    else if demand > NormalAbove then Normal
    else Low
  }

  /** The text shown for a tariff band. */
  function TariffLabel(t: Tariff): string {
    match t
    case High => "High Tariff \U{26A0}"
    case Normal => "Normal Tariff"
    case Low => "Low Tariff \U{1F4A1}"
  }

  /** Tariff bands in increasing price order. */
  function Level(t: Tariff): (n: nat)
    ensures n <= 2
  {
    match t
    case Low => 0
    case Normal => 1
    case High => 2
  }

  /** A higher demand never gets a cheaper tariff. */
  lemma TariffMonotone(d1: real, d2: real)
    requires d1 <= d2
    ensures Level(AssignTariff(d1)) <= Level(AssignTariff(d2))
  {
  }

  /** The three labels are distinct, so each demand gets exactly one of them. */
  lemma TariffLabelsDistinct(d: real)
    ensures forall t :: t != AssignTariff(d) ==> TariffLabel(t) != TariffLabel(AssignTariff(d))
  {
    assert TariffLabel(High)[0] == 'H' && TariffLabel(Normal)[0] == 'N' && TariffLabel(Low)[0] == 'L';
  }

  /** The absolute prediction error. */
  function AbsError(actual: real, predicted: real): (e: real)
    ensures e >= 0.0
    ensures e == actual - predicted || e == predicted - actual
  {
    Abs(actual - predicted)
  }

  /** A row is anomalous when its error exceeds a fifth of the prediction. */
  predicate IsAnomaly(actual: real, predicted: real) {
    AbsError(actual, predicted) > AnomalyFraction * predicted
  }

  /** The text shown for a row's anomaly flag. */
  function AnomalyLabel(actual: real, predicted: real): (l: string)
    ensures l == "Normal" <==> !IsAnomaly(actual, predicted)
  {
    if IsAnomaly(actual, predicted) then "\U{26A0} Anomaly" else "Normal"
  }

  /** The flag in band form: outside the interval from 80% to 120% of the prediction. */
  lemma AnomalyOutsideBand(actual: real, predicted: real)
    ensures IsAnomaly(actual, predicted) <==> actual > 1.2 * predicted || actual < 0.8 * predicted
  {
  }

  /** A negative prediction flags every row, whatever the actual demand. */
  lemma NegativePredictionIsAnomaly(actual: real, predicted: real)
    requires predicted < 0.0
    ensures IsAnomaly(actual, predicted)
  {
  }

  /** An exact, non-negative prediction is never flagged. */
  lemma ExactPredictionIsNormal(predicted: real)
    requires predicted >= 0.0
    ensures !IsAnomaly(predicted, predicted)
    ensures AnomalyLabel(predicted, predicted) == "Normal"
  {
  }

  /** The tariff column: one band per predicted value. */
  function TariffColumn(predicted: seq<real>): (c: seq<Tariff>)
    ensures |c| == |predicted|
    ensures forall i :: 0 <= i < |predicted| ==> c[i] == AssignTariff(predicted[i])
  {
    seq(|predicted|, i requires 0 <= i < |predicted| => AssignTariff(predicted[i]))
  }

  /** Tariffs follow the predictions across rows: a row with a higher prediction never gets a cheaper tariff. */
  lemma TariffColumnFollowsDemand(predicted: seq<real>, i: nat, j: nat)
    requires i < |predicted| && j < |predicted| && predicted[i] <= predicted[j]
    ensures Level(TariffColumn(predicted)[i]) <= Level(TariffColumn(predicted)[j])
  {
    TariffMonotone(predicted[i], predicted[j]);
  }

  /** The error and anomaly columns, row by row over equally long actual and predicted columns. */
  function AnomalyColumn(actual: seq<real>, predicted: seq<real>): (c: seq<bool>)
    requires |actual| == |predicted|
    ensures |c| == |actual|
    ensures forall i :: 0 <= i < |actual| ==> (c[i] <==> Abs(actual[i] - predicted[i]) > AnomalyFraction * predicted[i])
  {
    seq(|actual|, i requires 0 <= i < |actual| => IsAnomaly(actual[i], predicted[i]))
  }

  /** Row by row, the anomaly column flags exactly the actual demands outside 80% to 120% of the prediction. */
  lemma AnomalyColumnFlagsOutsideBand(actual: seq<real>, predicted: seq<real>, i: nat)
    requires |actual| == |predicted| && i < |actual|
    ensures AnomalyColumn(actual, predicted)[i] <==> actual[i] > 1.2 * predicted[i] || actual[i] < 0.8 * predicted[i]
  {
    AnomalyOutsideBand(actual[i], predicted[i]);
  }
}
