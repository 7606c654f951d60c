/**
 * The forecast artifact writer: checks the frame's columns, keeps the last
 * rows, takes the 0.95 quantile of the predictions over the kept rows and
 * lists the timestamps at or above it. The artifact is built as a value;
 * writing it to disk is not part of this model.
 */
module ForecastWriter {
  import opened Wrappers
  import opened Series
  import opened Sorting
  import opened JsonValue

  /** One row of a forecast frame: a timestamp and the predicted demand. */
  datatype ForecastRow = ForecastRow(ds: Minutes, yhat: real)

  /** A frame: the column names it carries and its rows, in order. */
  datatype ForecastFrame = ForecastFrame(columns: set<string>, rows: seq<ForecastRow>)

  /** A saved record: the timestamp rendered as text and the prediction unchanged. */
  datatype Record = Record(ds: string, yhat: real)

  /** The saved artifact: every kept row, then the timestamps of the peak rows. */
  datatype Artifact = Artifact(forecast: seq<Record>, peaks: seq<string>)

  datatype WriteError = MissingColumns

  const PeakQuantile: real := 0.95

  /** How many rows a frame of `len` rows keeps when asked for its last `n`; a negative `n` drops the first `-n`. */
  function TailCount(len: nat, n: int): (k: nat)
    ensures k <= len
    ensures n >= 0 ==> k == if n <= len then n else len
    ensures n < 0 ==> k == if -n <= len then len + n else 0
  {
    if n >= 0 then (if n <= len then n else len)
    else (if -n <= len then len + n else 0)
  }

  /** The rows kept for `lastN`: all of them when it is absent, otherwise the last `TailCount` of them. */
  function Tail(rows: seq<ForecastRow>, lastN: Option<int>): (r: seq<ForecastRow>)
    ensures lastN.None? ==> r == rows
    ensures lastN.Some? ==> |r| == TailCount(|rows|, lastN.value)
    ensures |r| <= |rows| && rows == rows[..|rows| - |r|] + r
  {
    match lastN
    case None => rows
    case Some(n) => rows[|rows| - TailCount(|rows|, n)..]
  }

  function Predictions(rows: seq<ForecastRow>): (v: seq<real>)
    ensures |v| == |rows| && forall i :: 0 <= i < |rows| ==> v[i] == rows[i].yhat
  {
    seq(|rows|, i requires 0 <= i < |rows| => rows[i].yhat)
  }

  lemma ScaleAtMost(f: real, m: real)
    requires 0.0 <= f <= 1.0 && 0.0 <= m
    ensures 0.0 <= f * m <= m && m * f == f * m
  {
  }

  /** Linear interpolation between two values: stays between them. */
  function Lerp(a: real, b: real, f: real): (r: real)
    requires a <= b && 0.0 <= f <= 1.0
    ensures a <= r <= b
  {
    var d := b - a;
    ScaleAtMost(f, d);
    a + d * f
  }

  /**
   * The `q`-quantile of a sorted, non-empty sample: linear interpolation
   * between the two order statistics around position `q * (n - 1)`.
   */
  function SortedQuantile(sv: seq<real>, q: real): (t: real)
    requires |sv| > 0 && Sorted(sv) && 0.0 <= q <= 1.0
    ensures sv[0] <= t <= sv[|sv| - 1]
  {
    var n := |sv|;
    ScaleAtMost(q, (n - 1) as real);
    var pos := q * (n - 1) as real;
    var lo := pos.Floor;
    var hi := if lo + 1 < n then lo + 1 else n - 1;
    Lerp(sv[lo], sv[hi], pos - lo as real)
  }

  /**
   * The `q`-quantile of a sample, read off its sorted copy; the quantile of
   * an empty sample is undefined. It lies between two of the sample's values.
   */
  function Quantile(v: seq<real>, q: real): (t: Option<real>)
    requires 0.0 <= q <= 1.0
    ensures t.None? <==> |v| == 0
    ensures t.Some? ==> (exists i :: 0 <= i < |v| && v[i] <= t.value)
    ensures t.Some? ==> (exists j :: 0 <= j < |v| && t.value <= v[j])
  {
    if |v| == 0 then None
    else
      SortEndsOccur(v);
      SortedQuantileOccursBetween(v, Sort(v), q);
      Some(SortedQuantile(Sort(v), q))
  }

  /** A quantile read off a sorted copy lies between two values of the original sample. */
  lemma SortedQuantileOccursBetween(v: seq<real>, sv: seq<real>, q: real)
    requires |sv| == |v| > 0 && Sorted(sv) && 0.0 <= q <= 1.0
    requires exists i :: 0 <= i < |v| && v[i] == sv[0]
    requires exists j :: 0 <= j < |v| && v[j] == sv[|v| - 1]
    ensures exists i :: 0 <= i < |v| && v[i] <= SortedQuantile(sv, q)
    ensures exists j :: 0 <= j < |v| && SortedQuantile(sv, q) <= v[j]
  {
    var t := SortedQuantile(sv, q);
    var i :| 0 <= i < |v| && v[i] == sv[0];
    var j :| 0 <= j < |v| && v[j] == sv[|v| - 1];
    assert v[i] <= t <= v[j];
  }

  /** The rows whose prediction is at or above the threshold, in frame order; none when there is no threshold. */
  function PeakRows(rows: seq<ForecastRow>, threshold: Option<real>): (p: seq<ForecastRow>)
    ensures |p| <= |rows|
    ensures forall x :: x in p <==> x in rows && threshold.Some? && x.yhat >= threshold.value
  {
    if rows == [] || threshold.None? then []
    else if rows[0].yhat >= threshold.value then [rows[0]] + PeakRows(rows[1..], threshold)
    else PeakRows(rows[1..], threshold)
  }

  /** `p` appears in `s` in the same order, possibly with gaps. */
  predicate IsSubsequence<T(==)>(p: seq<T>, s: seq<T>)
    decreases |s|
  {
    p == [] || (s != [] && ((p[0] == s[0] && IsSubsequence(p[1..], s[1..])) || IsSubsequence(p, s[1..])))
  }

  function Records(rows: seq<ForecastRow>, format: Minutes -> string): (r: seq<Record>)
    ensures |r| == |rows|
    ensures forall i :: 0 <= i < |rows| ==> r[i] == Record(format(rows[i].ds), rows[i].yhat)
  {
    seq(|rows|, i requires 0 <= i < |rows| => Record(format(rows[i].ds), rows[i].yhat))
  }

  function Labels(rows: seq<ForecastRow>, format: Minutes -> string): (l: seq<string>)
    ensures |l| == |rows| && forall i :: 0 <= i < |rows| ==> l[i] == format(rows[i].ds)
  {
    seq(|rows|, i requires 0 <= i < |rows| => format(rows[i].ds))
  }

  /** The artifact for a frame whose columns have been checked: records of the kept rows and their peak timestamps. */
  function BuildArtifact(kept: seq<ForecastRow>, format: Minutes -> string): (a: Artifact)
    ensures |a.forecast| == |kept|
    ensures forall i :: 0 <= i < |kept| ==> a.forecast[i] == Record(format(kept[i].ds), kept[i].yhat)
    ensures forall k :: 0 <= k < |a.peaks| ==>
      (exists r :: r in kept && a.peaks[k] == format(r.ds)
        && Quantile(Predictions(kept), PeakQuantile).Some? && r.yhat >= Quantile(Predictions(kept), PeakQuantile).value)
    ensures forall r ::
      (r in kept && Quantile(Predictions(kept), PeakQuantile).Some?
        && r.yhat >= Quantile(Predictions(kept), PeakQuantile).value) ==> format(r.ds) in a.peaks
  {
    var threshold := Quantile(Predictions(kept), PeakQuantile);
    QualifyingRowsAreLabelled(kept, threshold, format);
    Artifact(Records(kept, format), Labels(PeakRows(kept, threshold), format))
  }

  /** Every row at or above a defined threshold has its rendered timestamp among the peak labels. */
  lemma QualifyingRowsAreLabelled(rows: seq<ForecastRow>, threshold: Option<real>, format: Minutes -> string)
    ensures forall r ::
      (r in rows && threshold.Some? && r.yhat >= threshold.value) ==> format(r.ds) in Labels(PeakRows(rows, threshold), format)
  {
    var p := PeakRows(rows, threshold);
    forall r | r in rows && threshold.Some? && r.yhat >= threshold.value
      ensures format(r.ds) in Labels(p, format)
    {
      assert r in p;
      var m :| 0 <= m < |p| && p[m] == r;
      assert Labels(p, format)[m] == format(r.ds);
    }
  }

  /**
   * Saving a forecast frame: fails when `ds` or `yhat` is missing, before any
   * truncation; otherwise the artifact of the last `lastN` rows, with the
   * peak threshold taken over those rows only.
   */
  function SaveForecastJson(frame: ForecastFrame, lastN: Option<int>, format: Minutes -> string): (r: Result<Artifact, WriteError>)
    ensures r.Failure? <==> "ds" !in frame.columns || "yhat" !in frame.columns
    ensures r.Success? ==> |r.value.forecast| == |Tail(frame.rows, lastN)|
    ensures r.Success? ==> forall i :: 0 <= i < |r.value.forecast| ==>
      r.value.forecast[i].yhat == Tail(frame.rows, lastN)[i].yhat &&
      r.value.forecast[i].ds == format(Tail(frame.rows, lastN)[i].ds)
  {
    if "ds" !in frame.columns || "yhat" !in frame.columns then Failure(MissingColumns)
    else Success(BuildArtifact(Tail(frame.rows, lastN), format))
  }

  /** The peak rows appear in the frame in frame order. */
  lemma {:induction false} PeakRowsInOrder(rows: seq<ForecastRow>, threshold: Option<real>)
    ensures IsSubsequence(PeakRows(rows, threshold), rows)
  {
    if rows != [] && threshold.Some? {
      PeakRowsInOrder(rows[1..], threshold);
      if rows[0].yhat >= threshold.value {
        assert PeakRows(rows, threshold)[1..] == PeakRows(rows[1..], threshold);
      }
    }
  }

  /** Labelling keeps a subsequence a subsequence. */
  lemma {:induction false} LabelsInOrder(p: seq<ForecastRow>, s: seq<ForecastRow>, format: Minutes -> string)
    requires IsSubsequence(p, s)
    ensures IsSubsequence(Labels(p, format), Labels(s, format))
    decreases |s|
  {
    if p != [] {
      assert Labels(s[1..], format) == Labels(s, format)[1..];
      if p[0] == s[0] && IsSubsequence(p[1..], s[1..]) {
        LabelsInOrder(p[1..], s[1..], format);
        assert Labels(p[1..], format) == Labels(p, format)[1..];
      } else {
        LabelsInOrder(p, s[1..], format);
      }
    }
  }

  /** A record as the JSON object written for it. */
  function RecordJson(r: Record): Json {
    JObject(map["ds" := JString(r.ds), "yhat" := JNumber(r.yhat)])
  }

  /** The artifact as the JSON document written to the output file. */
  function ArtifactJson(a: Artifact): (j: Json)
    ensures Truthy(j) && j.JObject? && "forecast" in j.fields && "peaks" in j.fields
    ensures j.fields["forecast"].JArray? && |j.fields["forecast"].items| == |a.forecast|
    ensures Truthy(j.fields["forecast"]) <==> a.forecast != []
  {
    var fields := map[
      "forecast" := JArray(seq(|a.forecast|, i requires 0 <= i < |a.forecast| => RecordJson(a.forecast[i]))),
      "peaks" := JArray(seq(|a.peaks|, i requires 0 <= i < |a.peaks| => JString(a.peaks[i])))];
    assert "forecast" in fields;
    JObject(fields)
  }

  /** Every element of a subsequence is an element of the whole. */
  lemma {:induction false} SubsequenceMembers<T>(p: seq<T>, s: seq<T>)
    requires IsSubsequence(p, s)
    ensures forall x :: x in p ==> x in s
    decreases |s|
  {
    if p != [] {
      if p[0] == s[0] && IsSubsequence(p[1..], s[1..]) {
        SubsequenceMembers(p[1..], s[1..]);
        assert p == [p[0]] + p[1..];
      } else {
        SubsequenceMembers(p, s[1..]);
      }
      assert s == [s[0]] + s[1..];
    }
  }

  function RecordTimestamps(forecast: seq<Record>): (ts: seq<string>)
    ensures |ts| == |forecast| && forall i :: 0 <= i < |forecast| ==> ts[i] == forecast[i].ds
  {
    seq(|forecast|, i requires 0 <= i < |forecast| => forecast[i].ds)
  }

  /** The peaks are timestamps of saved records, listed in the order the records are saved. */
  lemma PeaksFollowForecastOrder(frame: ForecastFrame, lastN: Option<int>, format: Minutes -> string)
    requires "ds" in frame.columns && "yhat" in frame.columns
    ensures IsSubsequence(SaveForecastJson(frame, lastN, format).value.peaks,
                          RecordTimestamps(SaveForecastJson(frame, lastN, format).value.forecast))
    ensures forall p :: p in SaveForecastJson(frame, lastN, format).value.peaks ==>
              p in RecordTimestamps(SaveForecastJson(frame, lastN, format).value.forecast)
  {
    var kept := Tail(frame.rows, lastN);
    var a := SaveForecastJson(frame, lastN, format).value;
    var threshold := Quantile(Predictions(kept), PeakQuantile);
    PeakRowsInOrder(kept, threshold);
    LabelsInOrder(PeakRows(kept, threshold), kept, format);
    assert RecordTimestamps(a.forecast) == Labels(kept, format);
    SubsequenceMembers(a.peaks, RecordTimestamps(a.forecast));
  }

  /** Among the kept rows, a row holding the greatest prediction is a peak of their artifact. */
  lemma MaximumIsPeakRow(kept: seq<ForecastRow>, format: Minutes -> string, k: nat)
    requires k < |kept|
    requires forall i :: 0 <= i < |kept| ==> kept[i].yhat <= kept[k].yhat
    ensures format(kept[k].ds) in BuildArtifact(kept, format).peaks
  {
    var v := Predictions(kept);
    var threshold := Quantile(v, PeakQuantile);
    var j :| 0 <= j < |v| && threshold.value <= v[j];
    assert kept[k] in PeakRows(kept, threshold);
    var p := PeakRows(kept, threshold);
    var m :| 0 <= m < |p| && p[m] == kept[k];
    assert Labels(p, format)[m] == format(kept[k].ds);
  }

  /** On a non-empty kept slice, any row holding the greatest prediction is a peak, so there is at least one peak. */
  lemma MaximumIsPeak(frame: ForecastFrame, lastN: Option<int>, format: Minutes -> string, k: nat)
    requires "ds" in frame.columns && "yhat" in frame.columns
    requires k < |Tail(frame.rows, lastN)|
    requires forall i :: 0 <= i < |Tail(frame.rows, lastN)| ==> Tail(frame.rows, lastN)[i].yhat <= Tail(frame.rows, lastN)[k].yhat
    ensures format(Tail(frame.rows, lastN)[k].ds) in SaveForecastJson(frame, lastN, format).value.peaks
    ensures |SaveForecastJson(frame, lastN, format).value.peaks| > 0
  {
    var kept := Tail(frame.rows, lastN);
    MaximumIsPeakRow(kept, format, k);
    assert SaveForecastJson(frame, lastN, format) == Success(BuildArtifact(kept, format));
  }

  /** Truncation happens before the threshold is taken: saving equals saving the kept rows untruncated. */
  lemma ThresholdOverKeptRows(frame: ForecastFrame, lastN: Option<int>, format: Minutes -> string)
    ensures SaveForecastJson(frame, lastN, format)
         == SaveForecastJson(frame.(rows := Tail(frame.rows, lastN)), None, format)
  {
  }

  /** The quantile can be read off any ascending rearrangement of the sample. */
  lemma QuantileOfSortedCopy(v: seq<real>, r: seq<real>, q: real)
    requires |v| > 0 && 0.0 <= q <= 1.0
    requires Sorted(r) && multiset(r) == multiset(v)
    ensures |r| == |v|
    ensures Quantile(v, q) == Some(SortedQuantile(r, q))
  {
    assert |r| == |multiset(r)| == |multiset(v)| == |v|;
    SortIsTheSortedPermutation(v, r);
  }

  /** Four predictions of 1 and one of 10: the 0.95 quantile is 1 + 0.8 * 9 = 8.2. */
  lemma QuantileExample(v: seq<real>)
    requires v == [1.0, 1.0, 1.0, 1.0, 10.0]
    ensures Quantile(v, PeakQuantile) == Some(8.2)
  {
    assert SortedQuantile(v, PeakQuantile) == 8.2 && Sorted(v) by {
      assert (0.95 * 4.0).Floor == 3;
    }
    QuantileOfSortedCopy(v, v, PeakQuantile);
  }

  /** The artifact of a checked frame, given the threshold over the kept rows and the rows at or above it. */
  lemma ArtifactFromThreshold(rows: seq<ForecastRow>, lastN: Option<int>, format: Minutes -> string, t: real, peakRows: seq<ForecastRow>)
    requires Quantile(Predictions(Tail(rows, lastN)), PeakQuantile) == Some(t)
    requires PeakRows(Tail(rows, lastN), Some(t)) == peakRows
    ensures SaveForecastJson(ForecastFrame({"ds", "yhat"}, rows), lastN, format)
         == Success(Artifact(Records(Tail(rows, lastN), format), Labels(peakRows, format)))
  {
  }

  lemma PeakRowsExample(rows: seq<ForecastRow>)
    requires rows == [ForecastRow(0, 1.0), ForecastRow(5, 1.0), ForecastRow(10, 1.0), ForecastRow(15, 1.0), ForecastRow(20, 10.0)]
    ensures PeakRows(rows, Some(8.2)) == [rows[4]]
  {
    var t := Some(8.2);
    assert PeakRows(rows[4..], t) == [rows[4]] by { assert rows[4..][1..] == []; }
    assert PeakRows(rows[3..], t) == [rows[4]] by { assert rows[3..][1..] == rows[4..]; }
    assert PeakRows(rows[2..], t) == [rows[4]] by { assert rows[2..][1..] == rows[3..]; }
    assert PeakRows(rows[1..], t) == [rows[4]] by { assert rows[1..][1..] == rows[2..]; }
  }

  /** The same values as a frame saved whole: only the row predicting 10 is a peak. */
  lemma PeakExample(rows: seq<ForecastRow>, format: Minutes -> string)
    requires rows == [ForecastRow(0, 1.0), ForecastRow(5, 1.0), ForecastRow(10, 1.0), ForecastRow(15, 1.0), ForecastRow(20, 10.0)]
    ensures SaveForecastJson(ForecastFrame({"ds", "yhat"}, rows), None, format).Success?
    ensures SaveForecastJson(ForecastFrame({"ds", "yhat"}, rows), None, format).value.peaks == [format(20)]
  {
    assert Quantile(Predictions(rows), PeakQuantile) == Some(8.2) by {
      assert Predictions(rows) == [1.0, 1.0, 1.0, 1.0, 10.0];
      QuantileExample(Predictions(rows));
    }
    assert PeakRows(rows, Some(8.2)) == [rows[4]] by { PeakRowsExample(rows); }
    var peakRows := [rows[4]];
    assert Labels(peakRows, format) == [format(20)];
    ArtifactFromThreshold(rows, None, format, 8.2, peakRows);
  }

  lemma KeptSliceQuantile(v: seq<real>)
    requires v == [2.0, 1.0]
    ensures Quantile(v, PeakQuantile) == Some(1.95)
  {
    var r := [1.0, 2.0];
    assert multiset(r) == multiset(v) && Sorted(r);
    assert SortedQuantile(r, PeakQuantile) == 1.95 by { assert (0.95 * 1.0).Floor == 0; }
    QuantileOfSortedCopy(v, r, PeakQuantile);
  }

  lemma WholeSeriesQuantile(v: seq<real>)
    requires v == [100.0, 2.0, 1.0]
    ensures Quantile(v, PeakQuantile) == Some(90.2)
  {
    var r := [1.0, 2.0, 100.0];
    assert multiset(r) == multiset(v) && Sorted(r);
    assert SortedQuantile(r, PeakQuantile) == 90.2 by { assert (0.95 * 2.0).Floor == 1; }
    QuantileOfSortedCopy(v, r, PeakQuantile);
  }

  /**
   * A falling series 100, 2, 1 kept to its last two rows: the threshold over
   * the kept rows is 1.95, so the row predicting 2 is a peak, although the
   * threshold over all three rows is 90.2.
   */
  lemma KeptSliceExample(rows: seq<ForecastRow>, format: Minutes -> string)
    requires rows == [ForecastRow(0, 100.0), ForecastRow(5, 2.0), ForecastRow(10, 1.0)]
    ensures SaveForecastJson(ForecastFrame({"ds", "yhat"}, rows), Some(2), format).Success?
    ensures SaveForecastJson(ForecastFrame({"ds", "yhat"}, rows), Some(2), format).value.peaks == [format(5)]
    ensures Quantile(Predictions(rows), PeakQuantile) == Some(90.2)
  {
    KeptSliceThreshold(rows);
    assert Quantile(Predictions(rows), PeakQuantile) == Some(90.2) by {
      assert Predictions(rows) == [100.0, 2.0, 1.0];
      WholeSeriesQuantile(Predictions(rows));
    }
    var peakRows := [rows[1]];
    assert Labels(peakRows, format) == [format(5)];
    ArtifactFromThreshold(rows, Some(2), format, 1.95, peakRows);
  }

  /** The threshold over the last two rows of the example, and the one row it selects. */
  lemma KeptSliceThreshold(rows: seq<ForecastRow>)
    requires rows == [ForecastRow(0, 100.0), ForecastRow(5, 2.0), ForecastRow(10, 1.0)]
    ensures Quantile(Predictions(Tail(rows, Some(2))), PeakQuantile) == Some(1.95)
    ensures PeakRows(Tail(rows, Some(2)), Some(1.95)) == [rows[1]]
  {
    var kept := Tail(rows, Some(2));
    assert kept == rows[1..];
    assert Predictions(kept) == [2.0, 1.0];
    KeptSliceQuantile(Predictions(kept));
    assert kept[1..] == rows[2..] && rows[2..][1..] == [];
  }
}
