/**
 * The data handling around the recurrent forecaster: sliding training
 * windows, the 80/20 train/test split, the rolling input window of the
 * day-ahead forecast and its five-minute timestamp grid. The network itself
 * is an opaque `predict` function.
 */
module LstmWindows {
  import opened Wrappers
  import opened Series
  import opened ForecastWriter

  const StepMinutes: int := 5
  /** Twenty-four hours of five-minute steps. */
  const StepsPerDay: nat := 24 * 12

  /**
   * Sliding windows for training: for every start `i` with a value after the
   * window, the `seqLength` values from `i` as input and the next value as
   * target. A series no longer than the window yields no pairs.
   */
  method CreateSequences(data: seq<real>, seqLength: nat) returns (xs: seq<seq<real>>, ys: seq<real>)
    ensures |xs| == |ys| == if |data| > seqLength then |data| - seqLength else 0
    ensures forall i :: 0 <= i < |xs| ==> xs[i] == data[i..i + seqLength]
    ensures forall i :: 0 <= i < |ys| ==> ys[i] == data[i + seqLength]
    ensures seqLength > 0 ==> forall i :: 0 <= i < |ys| - 1 ==> ys[i] == xs[i + 1][seqLength - 1]
  {
    xs, ys := [], [];
    var count := if |data| > seqLength then |data| - seqLength else 0;
    var i := 0;
    while i < count
      invariant 0 <= i <= count
      invariant |xs| == |ys| == i
      invariant forall k :: 0 <= k < i ==> xs[k] == data[k..k + seqLength]
      invariant forall k :: 0 <= k < i ==> ys[k] == data[k + seqLength]
    {
      xs := xs + [data[i..i + seqLength]];
      ys := ys + [data[i + seqLength]];
      i := i + 1;
    }
    forall k | 0 <= k < |ys| - 1 && seqLength > 0
      ensures ys[k] == xs[k + 1][seqLength - 1]
    {
      assert xs[k + 1][seqLength - 1] == data[k + 1 + seqLength - 1];
    }
  }

  /** The number of pairs used for training: 80% of `n`, rounded down. */
  function SplitIndex(n: nat): (k: nat)
    ensures k == (4 * n) / 5
    ensures k <= n
  {
    var k := (n as real * 0.8).Floor;
    assert k as real <= n as real * 0.8 < k as real + 1.0;
    assert 4 * n - 5 < 5 * k <= 4 * n;
    k
  }

  /** Training pairs first, test pairs after: a prefix and a suffix at the split index. */
  function TrainTestSplit<T>(s: seq<T>): (r: (seq<T>, seq<T>))
    ensures |r.0| == SplitIndex(|s|)
    ensures r.0 + r.1 == s
  {
    (s[..SplitIndex(|s|)], s[SplitIndex(|s|)..])
  }

  /** Inputs and targets split at the same place stay paired, in training and in test. */
  lemma SplitKeepsPairs<T, U>(xs: seq<T>, ys: seq<U>)
    requires |xs| == |ys|
    ensures |TrainTestSplit(xs).0| == |TrainTestSplit(ys).0| && |TrainTestSplit(xs).1| == |TrainTestSplit(ys).1|
    ensures forall i :: 0 <= i < |TrainTestSplit(xs).1| ==>
      TrainTestSplit(xs).1[i] == xs[SplitIndex(|xs|) + i] && TrainTestSplit(ys).1[i] == ys[SplitIndex(|xs|) + i]
  {
    var (tx, sx) := TrainTestSplit(xs);
    var (ty, sy) := TrainTestSplit(ys);
    forall i | 0 <= i < |sx|
      ensures sx[i] == xs[SplitIndex(|xs|) + i] && sy[i] == ys[SplitIndex(|xs|) + i]
    {
      assert xs == tx + sx && ys == ty + sy;
    }
  }

  /** The last `seqLength` values; a zero length or one longer than the history selects all of it. */
  function LastWindow(history: seq<real>, seqLength: nat): (w: seq<real>)
    ensures 0 < seqLength <= |history| ==> |w| == seqLength
    ensures seqLength == 0 || seqLength > |history| ==> w == history
    ensures |w| <= |history|
    ensures history == history[..|history| - |w|] + w
  {
    if seqLength == 0 || seqLength > |history| then history else history[|history| - seqLength..]
  }

  /** The window without its oldest value; an empty window stays empty. */
  function DropOldest(w: seq<real>): seq<real> {
    if w == [] then [] else w[1..]
  }

  /** `steps` predictions, each fed back as the newest value of the window that yields the next. */
  function Rollout(w: seq<real>, predict: seq<real> -> real, steps: nat): (f: seq<real>)
    ensures |f| == steps
    decreases steps
  {
    if steps == 0 then []
    else
      var p := predict(w);
      [p] + Rollout(DropOldest(w) + [p], predict, steps - 1)
  }

  /**
   * The day-ahead loop: predicts from the window, records the prediction,
   * then drops the window's oldest value and appends the prediction.
   */
  method RollingForecast(history: seq<real>, seqLength: nat, predict: seq<real> -> real, steps: nat)
    returns (forecast: seq<real>)
    ensures forecast == Rollout(LastWindow(history, seqLength), predict, steps)
  {
    var window := LastWindow(history, seqLength);
    forecast := [];
    var i := 0;
    while i < steps
      invariant 0 <= i <= steps
      invariant forecast + Rollout(window, predict, steps - i) == Rollout(LastWindow(history, seqLength), predict, steps)
    {
      var pred := predict(window);
      forecast := forecast + [pred];
      window := DropOldest(window) + [pred];
      i := i + 1;
    }
  }

  /**
   * With a non-empty starting window, every prediction is made from the
   * `|w|` values just before it in the history-then-forecast series: the
   * window keeps its length and slides by one each step.
   */
  lemma {:induction false} EachPredictionSeesLastWindow(w: seq<real>, predict: seq<real> -> real, steps: nat)
    requires |w| > 0
    ensures forall i :: 0 <= i < steps ==>
      Rollout(w, predict, steps)[i] == predict((w + Rollout(w, predict, steps))[i..i + |w|])
    decreases steps
  {
    if steps > 0 {
      var f := Rollout(w, predict, steps);
      var p := predict(w);
      var w' := w[1..] + [p];
      var f' := Rollout(w', predict, steps - 1);
      assert f == [p] + f';
      EachPredictionSeesLastWindow(w', predict, steps - 1);
      assert w' + f' == (w + f)[1..];
      forall i | 0 <= i < steps
        ensures f[i] == predict((w + f)[i..i + |w|])
      {
        if i == 0 {
          assert (w + f)[0..|w|] == w;
        } else {
          assert f[i] == f'[i - 1];
          assert (w' + f')[i - 1..i - 1 + |w'|] == (w + f)[i..i + |w|];
        }
      }
    }
  }

  /** Timestamps of `periods` steps of five minutes, the first one step after `last`. */
  function ForecastTimestamps(last: Minutes, periods: nat): (ts: seq<Minutes>)
    ensures |ts| == periods
    ensures periods > 0 ==> ts[0] == last + StepMinutes
    ensures forall i :: 0 <= i < periods - 1 ==> ts[i + 1] == ts[i] + StepMinutes
  {
    seq(periods, i requires 0 <= i < periods => last + StepMinutes * (i + 1))
  }

  /** The grid is strictly after `last` and strictly increasing. */
  lemma {:induction false} TimestampsIncrease(last: Minutes, periods: nat)
    ensures forall i, j :: 0 <= i < j < periods ==>
      last < ForecastTimestamps(last, periods)[i] < ForecastTimestamps(last, periods)[j]
  {
    var ts := ForecastTimestamps(last, periods);
    forall i, j | 0 <= i < j < periods
      ensures last < ts[i] < ts[j]
    {
      StepsAccumulate(ts, last, i);
      StepsAccumulate(ts, last, j);
    }
  }

  lemma {:induction false} StepsAccumulate(ts: seq<Minutes>, last: Minutes, k: nat)
    requires |ts| > k && ts[0] == last + StepMinutes
    requires forall i :: 0 <= i < |ts| - 1 ==> ts[i + 1] == ts[i] + StepMinutes
    ensures ts[k] == last + StepMinutes * (k + 1)
  {
    if k > 0 {
      StepsAccumulate(ts, last, k - 1);
    }
  }

  /**
   * The day-ahead five-minute forecast frame: one row per rolling prediction,
   * mapped back to demand units by `unscale`, stamped on the grid after the
   * last observed timestamp.
   */
  method ForecastDay(history: seq<real>, lastObserved: Minutes, seqLength: nat,
                     predict: seq<real> -> real, unscale: real -> real)
    returns (frame: ForecastFrame)
    ensures frame.columns == {"ds", "yhat"}
    ensures |frame.rows| == StepsPerDay
    ensures forall i :: 0 <= i < StepsPerDay ==>
      frame.rows[i].ds == ForecastTimestamps(lastObserved, StepsPerDay)[i] &&
      frame.rows[i].yhat == unscale(Rollout(LastWindow(history, seqLength), predict, StepsPerDay)[i])
  {
    var scaled := RollingForecast(history, seqLength, predict, StepsPerDay);
    var ts := ForecastTimestamps(lastObserved, StepsPerDay);
    var rows := seq(StepsPerDay, i requires 0 <= i < StepsPerDay => ForecastRow(ts[i], unscale(scaled[i])));
    frame := ForecastFrame({"ds", "yhat"}, rows);
  }

  /** Saving a day-ahead frame with the last 288 rows keeps every row of it. */
  lemma SavingDayKeepsEveryRow(frame: ForecastFrame, format: Minutes -> string)
    requires frame.columns == {"ds", "yhat"} && |frame.rows| == StepsPerDay
    ensures SaveForecastJson(frame, Some(StepsPerDay), format).Success?
    ensures Tail(frame.rows, Some(StepsPerDay)) == frame.rows
    ensures |SaveForecastJson(frame, Some(StepsPerDay), format).value.forecast| == StepsPerDay
  {
    assert frame.rows == frame.rows[..0] + Tail(frame.rows, Some(StepsPerDay));
  }
}
