/**
 * Loading a saved forecast back as a load series: the document must be an
 * object whose `forecast` entry is a non-empty list of records; each record's
 * `ds` becomes the timestamp and its `yhat` the demand. Every failure,
 * including a missing file, yields no series.
 */
module ForecastLoader {
  import opened Wrappers
  import opened Series
  import opened JsonValue
  import opened ForecastWriter

  /** The outcome of opening and decoding the file. */
  datatype FileRead = FileNotFound | Undecodable | Parsed(document: Json)

  /**
   * One record as a sample: an object with a `ds` text that the timestamp
   * parser accepts and a numeric `yhat`.
   */
  function ParseRecord(j: Json, parseTimestamp: string -> Option<Minutes>): (r: Option<Sample>)
    ensures r.Some? <==>
      j.JObject? && "ds" in j.fields && j.fields["ds"].JString? && parseTimestamp(j.fields["ds"].s).Some?
      && "yhat" in j.fields && j.fields["yhat"].JNumber?
    ensures r.Some? ==> r.value.timestamp == parseTimestamp(j.fields["ds"].s).value
    ensures r.Some? ==> r.value.demandKw == j.fields["yhat"].n
  {
    match j
    case JObject(f) =>
      if "ds" in f && f["ds"].JString? && "yhat" in f && f["yhat"].JNumber? then
        match parseTimestamp(f["ds"].s)
        case Some(t) => Some(Sample(t, f["yhat"].n))
        case None => None
      else None
    case _ => None
  }

  /** All records as samples, in their order, or nothing when any record fails. */
  function ParseRecords(items: seq<Json>, parseTimestamp: string -> Option<Minutes>): (r: Option<seq<Sample>>)
    ensures r.Some? <==> forall i :: 0 <= i < |items| ==> ParseRecord(items[i], parseTimestamp).Some?
    ensures r.Some? ==> |r.value| == |items|
    ensures r.Some? ==> forall i :: 0 <= i < |items| ==> ParseRecord(items[i], parseTimestamp) == Some(r.value[i])
  {
    if items == [] then Some([])
    else
      match ParseRecord(items[0], parseTimestamp)
      case None => None
      case Some(x) =>
        match ParseRecords(items[1..], parseTimestamp)
        case None =>
          assert exists i :: 1 <= i < |items| && ParseRecord(items[i], parseTimestamp).None? by {
            var k :| 0 <= k < |items[1..]| && ParseRecord(items[1..][k], parseTimestamp).None?;
            assert items[1..][k] == items[k + 1];
          }
          None
        case Some(rest) =>
          assert forall i :: 1 <= i < |items| ==> items[i] == items[1..][i - 1];
          Some([x] + rest)
  }

  /**
   * Loading a forecast file. A missing or undecodable file, a document that
   * is not an object, an absent, empty or non-list `forecast` entry, and any
   * record that is not an object with a parseable `ds` and a numeric `yhat`
   * all give `None`; otherwise the samples in record order.
   */
  function LoadPregeneratedForecast(file: FileRead, parseTimestamp: string -> Option<Minutes>): (r: Option<seq<Sample>>)
    ensures !file.Parsed? ==> r.None?
    ensures r.Some? ==> |r.value| > 0
    ensures r.Some? <==>
      file.Parsed? && file.document.JObject? && "forecast" in file.document.fields
      && file.document.fields["forecast"].JArray? && |file.document.fields["forecast"].items| > 0
      && ParseRecords(file.document.fields["forecast"].items, parseTimestamp).Some?
    ensures r.Some? ==> r == ParseRecords(file.document.fields["forecast"].items, parseTimestamp)
  {
    match file
    case FileNotFound => None
    case Undecodable => None
    case Parsed(document) =>
      match document
      case JObject(fields) =>
        var forecastData := Get(fields, "forecast", JArray([]));
        if !Truthy(forecastData) then None
        else if forecastData.JArray? then ParseRecords(forecastData.items, parseTimestamp)
        else None
      case _ => None
  }

  /** An artifact document loads as the samples its records describe, unless it has no records. */
  lemma ArtifactLoadsBack(a: Artifact, parseTimestamp: string -> Option<Minutes>, expected: seq<Sample>)
    requires |expected| == |a.forecast|
    requires forall i :: 0 <= i < |a.forecast| ==>
      parseTimestamp(a.forecast[i].ds) == Some(expected[i].timestamp) && a.forecast[i].yhat == expected[i].demandKw
    ensures |a.forecast| == 0 ==> LoadPregeneratedForecast(Parsed(ArtifactJson(a)), parseTimestamp).None?
    ensures |a.forecast| > 0 ==> LoadPregeneratedForecast(Parsed(ArtifactJson(a)), parseTimestamp) == Some(expected)
  {
    var items := ArtifactJson(a).fields["forecast"].items;
    assert |items| == |a.forecast|;
    forall i | 0 <= i < |items|
      ensures ParseRecord(items[i], parseTimestamp) == Some(expected[i])
    {
      assert items[i] == RecordJson(a.forecast[i]);
    }
    if |items| > 0 {
      assert ParseRecords(items, parseTimestamp).value == expected;
    }
  }

  /** The samples a frame's kept rows stand for: timestamp from `ds`, demand from `yhat`. */
  function KeptSamples(kept: seq<ForecastRow>): (s: seq<Sample>)
    ensures |s| == |kept|
    ensures forall i :: 0 <= i < |kept| ==> s[i] == Sample(kept[i].ds, kept[i].yhat)
  {
    seq(|kept|, i requires 0 <= i < |kept| => Sample(kept[i].ds, kept[i].yhat))
  }

  /**
   * Writing then loading: when the timestamp parser reads back what the
   * formatter wrote, a saved artifact with at least one kept row loads as the
   * kept rows, in order, with their predictions as demands; an artifact with
   * no kept rows is rejected.
   */
  lemma SavedForecastLoadsBack(frame: ForecastFrame, lastN: Option<int>, format: Minutes -> string,
                               parseTimestamp: string -> Option<Minutes>)
    requires "ds" in frame.columns && "yhat" in frame.columns
    requires forall i :: 0 <= i < |Tail(frame.rows, lastN)| ==>
      parseTimestamp(format(Tail(frame.rows, lastN)[i].ds)) == Some(Tail(frame.rows, lastN)[i].ds)
    ensures |Tail(frame.rows, lastN)| == 0 ==>
      LoadPregeneratedForecast(Parsed(ArtifactJson(SaveForecastJson(frame, lastN, format).value)), parseTimestamp).None?
    ensures |Tail(frame.rows, lastN)| > 0 ==>
      LoadPregeneratedForecast(Parsed(ArtifactJson(SaveForecastJson(frame, lastN, format).value)), parseTimestamp)
        == Some(KeptSamples(Tail(frame.rows, lastN)))
  {
    var kept := Tail(frame.rows, lastN);
    var a := SaveForecastJson(frame, lastN, format).value;
    var expected := KeptSamples(kept);
    assert |a.forecast| == |expected|;
    forall i | 0 <= i < |a.forecast|
      ensures parseTimestamp(a.forecast[i].ds) == Some(expected[i].timestamp) && a.forecast[i].yhat == expected[i].demandKw
    {
      assert a.forecast[i].ds == format(kept[i].ds);
    }
    ArtifactLoadsBack(a, parseTimestamp, expected);
  }

  /** Saving only the last zero rows gives a document the loader rejects. */
  lemma ZeroRowsSavedIsRejected(frame: ForecastFrame, format: Minutes -> string, parseTimestamp: string -> Option<Minutes>)
    requires "ds" in frame.columns && "yhat" in frame.columns
    ensures LoadPregeneratedForecast(Parsed(ArtifactJson(SaveForecastJson(frame, Some(0), format).value)), parseTimestamp).None?
  {
    SavedForecastLoadsBack(frame, Some(0), format, parseTimestamp);
  }
}
