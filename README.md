# Demand-response simulator — a Dafny model

This project models the computational core of a demand-response simulator for
an electricity grid. It covers five parts:

- **Scenario engine and KPI calculator** (`app/simulator_logic.py`).
  `apply_dr_scenario` copies a baseline load series of five-minute samples. It
  then rewrites the copy's demand under hour-of-day masks. A *peak reduction*
  scales demand inside `[start_hour, end_hour)`. An *EV shift* removes a
  charging load from hours 17–20 and adds it back in the window moved by
  `shift_hours`. `calculate_kpis` compares the baseline with the adjusted
  series: both peaks, the reduction in kW and in percent, and the energy
  shifted.
- **Forecast artifact writer** (`src/models/utils.py`). It checks the frame's
  columns and keeps the last `last_n` rows. It takes the 0.95 quantile of the
  predictions over the kept rows, using linear interpolation on a sorted copy.
  The timestamps at or above that quantile become the `peaks`.
- **Forecast loader** (`app/load_forecast.py`). It reads a parsed JSON
  document back into a load series. Every failure becomes `None`.
- **Sequence windowing around the recurrent forecaster**
  (`src/models/lstm_model.py`). This covers the training windows, the 80/20
  split, the rolling input window of the day-ahead forecast and its
  five-minute timestamp grid.
- **Tariff and anomaly rules** (`src/models/dynamic_traffic_and_anamoly.py`).

## Modelling conventions

- **Series.** A load series is a `seq<Sample>`, where each sample has a
  timestamp in integer minutes and a demand in kW as a `real`.
- **Hour of day.** The hour is `(t / 60) % 24`, which plays the role of
  pandas' `.dt.hour`.
- **Scenarios.** A scenario is a datatype whose variants are the two known
  `type` values plus `Unknown`. Every parameter is an `Option`, and `GetOr`
  supplies the defaults that `dict.get` uses in the source: start 0, end 24,
  percent 0, shift 0, magnitude 0.
- **`apply_dr_scenario`** is imperative Dafny, as it is in the source.
  - It builds a fresh `array<Sample>` copy of the baseline.
  - It scales the copy in place under the mask.
  - For an EV shift, it fills two zero-initialised profile arrays by masked
    assignment, subtracts the first and adds the second.
  - It is proved equal to the pure specification `ScenarioEngine.Adjusted`.
    The lemmas about the scenarios are stated on that specification.
- **`calculate_kpis`, the writer, the loader and the tariff rules** are pure
  functions.
- **Sorting.** The quantile reads a sorted copy produced by an insertion sort.
  The sort is proved to give an ascending permutation, and to be the only one.
- **Writer output.** The writer's output is an `Artifact` value, and
  `ArtifactJson` is the JSON document that would be dumped. The loader reads a
  `FileRead`: a missing file, an undecodable file, or a parsed `Json` value.
  Rendering a timestamp as text (`astype(str)`) is a function parameter, and
  so is parsing one back (`pd.to_datetime`), which is partial.
- **LSTM windowing.** `create_sequences` and the rolling forecast loop are
  methods with loops. `CreateSequences` is proved to return, for each start
  position, the input slice of `seq_length` values and the value after it.
  `RollingForecast` is proved against `Rollout`, the recursive specification
  of the feedback loop. The network's prediction and the
  scaler's inverse transform are function parameters.
- **Behaviour kept as the code has it.**
  - The loader returns `None` on every failure.
  - The energy is divided by the literal 12.
  - Scenario parameters are not validated: out-of-range hours simply match no
    sample.

## Model

| member | source | states |
|---|---|---|
| Series.HourOf | app/simulator_logic.py:28 | the hour lies in 0..23 and is the hour-long slice of the day that holds the timestamp |
| Series.HourOfRepeatsDaily | app/simulator_logic.py:28 | whole days added to a timestamp leave its hour unchanged |
| ScenarioEngine.AdjustedDemandBounds | app/simulator_logic.py:23-57 | per sample: a peak reduction by a percentage in 0..100 keeps a non-negative demand between zero and its old value; an EV shift changes a demand by exactly minus the magnitude, zero, or plus the magnitude |
| ScenarioEngine.Adjusted | app/simulator_logic.py:19-59 | the adjusted series has the baseline's length and exactly its timestamps |
| ScenarioEngine.ScaleWhere | app/simulator_logic.py:28-29 | samples whose hour is in `[start, end)` get their demand multiplied by the factor; all others and all timestamps are unchanged |
| ScenarioEngine.MaskedProfile | app/simulator_logic.py:44-53 | a fresh array holding the magnitude where the hour mask holds and zero elsewhere; the series is not changed |
| ScenarioEngine.AddProfile | app/simulator_logic.py:56-57 | every demand has the profile entry at its position subtracted or added; timestamps are unchanged |
| ScenarioEngine.ApplyDrScenario | app/simulator_logic.py:6-59 | returns a fresh array equal to the adjusted specification of the baseline; the baseline array is not modified |
| ScenarioEngine.UnknownIsIdentity | app/simulator_logic.py:21-31 | a missing or unrecognised scenario type returns the series unchanged |
| ScenarioEngine.PeakReductionChangesOnlyWindow | app/simulator_logic.py:24-29 | a sample changes if and only if its hour is in the window, the percentage is non-zero and its demand is non-zero |
| ScenarioEngine.PeakReductionZeroIsIdentity | app/simulator_logic.py:24-29 | a zero or missing percentage leaves the series unchanged |
| ScenarioEngine.PeakReductionEmptyWindowIsIdentity | app/simulator_logic.py:24-29 | a start hour at or after the end hour leaves the series unchanged |
| ScenarioEngine.EvShiftNetChange | app/simulator_logic.py:32-57 | a sample only in the original window loses the magnitude; one only in the shifted window gains it; one in both or neither is unchanged |
| ScenarioEngine.EvShiftIdentity | app/simulator_logic.py:32-57 | a zero or missing magnitude, or a zero or missing shift, leaves the series unchanged |
| ScenarioEngine.EvShiftDoesNotWrap | app/simulator_logic.py:40-53 | with a shift of 7 hours or more only the subtraction in hours 17–20 happens, because the shifted window does not wrap past midnight |
| ScenarioEngine.ScenarioRepeatsDaily | app/simulator_logic.py:28-52 | both transforms treat a sample and the same sample whole days later alike |
| RealMath.Abs | app/simulator_logic.py:79 | the absolute value is non-negative and is the value or its negation |
| KpiCalculator.PeakDemand | app/simulator_logic.py:72-73 | the peak bounds every demand and is held by some sample |
| KpiCalculator.AbsChangeSum | app/simulator_logic.py:79 | the summed absolute change is non-negative |
| KpiCalculator.AbsChangeSumZeroIffUnchanged | app/simulator_logic.py:79 | the summed absolute change is zero if and only if no paired sample's demand changed |
| KpiCalculator.CalculateKpis | app/simulator_logic.py:61-87 | the peaks are the two maxima; reduction plus adjusted peak equals the baseline peak, with no clamping; the percentage is reduction / baseline peak * 100, or 0 on a zero baseline peak; the energy is non-negative |
| KpiCalculator.EnergyZeroIffUnchanged | app/simulator_logic.py:79 | the reported energy is zero if and only if no paired sample's demand changed |
| KpiCalculator.SelfComparisonIsZero | app/simulator_logic.py:72-79 | comparing a series with itself gives equal peaks and zero reduction, percentage and energy |
| KpiCalculator.ReductionPctHasSignOfKw | app/simulator_logic.py:75-76 | with a positive baseline peak the percentage is positive exactly when the kW reduction is |
| ScenarioKpis.AbsChangeSumOfAdjusted | app/simulator_logic.py:79 | the summed change between a series and its adjustment is the sum of the per-sample changes |
| ScenarioKpis.EvShiftSampleChange | app/simulator_logic.py:45-57 | an EV shift changes one sample by the absolute magnitude if it is in exactly one window, and by nothing otherwise |
| ScenarioKpis.SwitchedEnergyIsCount | app/simulator_logic.py:44-57 | the per-sample EV changes sum to the absolute magnitude times the number of samples in exactly one window |
| ScenarioKpis.EvShiftChangeIsSwitchedEnergy | app/simulator_logic.py:44-57 | the summed change of an EV shift is its switched energy |
| ScenarioKpis.EvShiftAbsChange | app/simulator_logic.py:44-79 | the summed absolute change of an EV shift is the absolute magnitude times the number of samples in exactly one window |
| ScenarioKpis.EvShiftEnergy | app/simulator_logic.py:31-79 | the energy shifted by an EV shift is the absolute magnitude times that count, over 12 |
| ScenarioKpis.PeakReductionSampleChange | app/simulator_logic.py:26-29 | a peak reduction changes one sample by the absolute reduced fraction of its absolute demand inside the window, and by nothing outside it |
| ScenarioKpis.ReducedDemandFactors | app/simulator_logic.py:26-29 | the demand removed is the absolute reduced fraction times the absolute demand inside the window |
| ScenarioKpis.PeakReductionChangeIsReduced | app/simulator_logic.py:26-29 | the summed change of a peak reduction is the demand it removes |
| ScenarioKpis.PeakReductionAbsChange | app/simulator_logic.py:26-79 | the summed absolute change of a peak reduction is the demand it removes inside the window |
| ScenarioKpis.PeakReductionEnergy | app/simulator_logic.py:26-79 | the energy shifted by a peak reduction is the removed demand over 12 |
| ScenarioKpis.PeakReductionNeverRaisesPeak | app/simulator_logic.py:29-75 | on non-negative demand, a non-negative percentage gives a non-negative peak reduction |
| ScenarioKpis.ZeroBaselineHasZeroPct | app/simulator_logic.py:76 | an all-zero baseline reports a zero percentage for any scenario |
| ScenarioKpis.EveningReductionSamples | app/simulator_logic.py:28-29 | a 20% reduction over hours 18–20 of a flat hourly day drops those hours to 80% of the level and leaves the others at the level |
| ScenarioKpis.PeakIs | app/simulator_logic.py:72 | a demand that bounds every sample and is held by one of them is the peak |
| ScenarioKpis.EveningPeaks | app/simulator_logic.py:72-73 | under that reduction a flat day at a non-negative level and its adjustment both peak at the level |
| ScenarioKpis.EveningEnergy | app/simulator_logic.py:79 | under that reduction a flat day at a non-zero level reports positive shifted energy |
| ScenarioKpis.EveningReductionExample | app/simulator_logic.py:72-79 | for a flat day at a positive level that reduction leaves both peaks at the level, so kW and percent are 0, while the energy is positive |
| Sorting.Insert | src/models/utils.py:23 | inserting into an ascending sequence gives an ascending sequence, one longer, whose first value is the smaller of the value and the old first, with one more copy of the value |
| Sorting.Sort | src/models/utils.py:23 | the sorted copy has the input's length, is ascending and is a permutation of the input |
| Sorting.SortBounds | src/models/utils.py:23 | the first value of the sorted copy is at most, and its last at least, every input value |
| Sorting.SortEndsOccur | src/models/utils.py:23 | the first and last values of the sorted copy both occur in the input |
| Sorting.SortedUnique | src/models/utils.py:23 | two ascending sequences with the same values are equal |
| Sorting.SortIsTheSortedPermutation | src/models/utils.py:23 | any ascending permutation of the input is its sorted copy |
| ForecastWriter.Tail | src/models/utils.py:19-20 | no `last_n` keeps every row; otherwise the kept rows are a suffix of the frame of the `tail` length, in frame order |
| ForecastWriter.Lerp | src/models/utils.py:23 | interpolation between two ordered values stays between them |
| ForecastWriter.SortedQuantile | src/models/utils.py:23 | the interpolated quantile of an ascending sample lies between its least and greatest value |
| ForecastWriter.Quantile | src/models/utils.py:23 | the quantile is undefined exactly on an empty sample; otherwise some sample value is at most it and some is at least it |
| ForecastWriter.SortedQuantileOccursBetween | src/models/utils.py:23 | a quantile read off a sorted copy lies between two values of the original sample |
| ForecastWriter.QuantileOfSortedCopy | src/models/utils.py:23 | the quantile can be read off any ascending permutation of the sample |
| ForecastWriter.BuildArtifact | src/models/utils.py:22-30 | one record per kept row in order, with the timestamp rendered and the prediction unchanged; a rendered timestamp is a peak if and only if it belongs to a kept row whose prediction is at or above the 0.95 quantile of the kept predictions |
| ForecastWriter.ArtifactJson | src/models/utils.py:27-30 | the dumped document is a truthy object with `forecast` and `peaks`; `forecast` is a list with one entry per record, truthy exactly when there are records |
| ForecastWriter.PeakRows | src/models/utils.py:24 | a row is a peak row if and only if it is in the frame and its prediction is at or above a defined threshold |
| ForecastWriter.SaveForecastJson | src/models/utils.py:4-30 | fails if and only if `ds` or `yhat` is missing, whatever the rows and `last_n`; otherwise one record per kept row, in order, with the prediction unchanged and the timestamp formatted |
| ForecastWriter.PeakRowsInOrder | src/models/utils.py:24 | the peak rows are a subsequence of the frame |
| ForecastWriter.LabelsInOrder | src/models/utils.py:24 | formatting the timestamps keeps a subsequence a subsequence |
| ForecastWriter.SubsequenceMembers | src/models/utils.py:24-28 | every element of a subsequence occurs in the whole sequence |
| ForecastWriter.PeaksFollowForecastOrder | src/models/utils.py:23-28 | the peaks are a subsequence of the saved records' timestamps, so each peak is a saved timestamp |
| ForecastWriter.MaximumIsPeakRow | src/models/utils.py:23-24 | among the kept rows, a row holding the greatest prediction is among the artifact's peaks |
| ForecastWriter.MaximumIsPeak | src/models/utils.py:23-24 | on a non-empty kept slice, a row holding the greatest prediction is a peak, so `peaks` is non-empty |
| ForecastWriter.ThresholdOverKeptRows | src/models/utils.py:19-23 | saving with `last_n` equals saving the kept rows with no `last_n`, so the threshold depends on the kept rows only |
| ForecastWriter.QuantileExample | src/models/utils.py:23 | the 0.95 quantile of 1, 1, 1, 1, 10 is 8.2 |
| ForecastWriter.PeakRowsExample | src/models/utils.py:24 | for 1, 1, 1, 1, 10 only the row predicting 10 is at or above 8.2 |
| ForecastWriter.PeakExample | src/models/utils.py:23-24 | a frame predicting 1, 1, 1, 1, 10 saved whole has the 10 row's timestamp as its only peak |
| ForecastWriter.KeptSliceQuantile | src/models/utils.py:23 | the 0.95 quantile of 2, 1 is 1.95 |
| ForecastWriter.WholeSeriesQuantile | src/models/utils.py:23 | the 0.95 quantile of 100, 2, 1 is 90.2 |
| ForecastWriter.KeptSliceExample | src/models/utils.py:19-24 | a frame predicting 100, 2, 1 saved with `last_n = 2` has the 2 row as its only peak, though the threshold over all rows is 90.2 |
| ForecastLoader.ParseRecord | app/load_forecast.py:29-31 | a record loads if and only if it is an object with a parseable text `ds` and a numeric `yhat`; `ds` becomes the timestamp and `yhat` the demand, unchanged |
| ForecastLoader.ParseRecords | app/load_forecast.py:29-33 | the records load if and only if every one does; then there is one sample per record, in record order |
| ForecastLoader.LoadPregeneratedForecast | app/load_forecast.py:7-40 | a missing or undecodable file gives `None`; the result is a series if and only if the document is an object whose `forecast` is a non-empty list of loadable records; that series is the records in order and is never empty |
| ForecastLoader.ArtifactLoadsBack | app/load_forecast.py:24-31 | a written artifact with records loads as the samples they describe; one without records gives `None` |
| ForecastLoader.SavedForecastLoadsBack | src/models/utils.py:19-30 | if the parser reads back what the formatter wrote, a saved forecast with kept rows loads as exactly those rows in order; one with no kept rows is rejected |
| ForecastLoader.ZeroRowsSavedIsRejected | app/load_forecast.py:24-27 | a forecast saved with `last_n = 0` is rejected by the loader |
| LstmWindows.CreateSequences | src/models/lstm_model.py:11-16 | `max(0, len - seq_length)` pairs; input `i` is the `seq_length` values from `i`; target `i` is the next value and is the last value of input `i + 1` |
| LstmWindows.SplitIndex | src/models/lstm_model.py:40 | the split index is `(4 * n) / 5`, at most `n` |
| LstmWindows.TrainTestSplit | src/models/lstm_model.py:40-42 | train has the split index's length and train followed by test is the whole sequence |
| LstmWindows.SplitKeepsPairs | src/models/lstm_model.py:40-42 | inputs and targets split alike stay paired position by position |
| LstmWindows.LastWindow | src/models/lstm_model.py:69 | the starting window is a suffix of the history of `seq_length` values when the history is long enough; a zero `seq_length` (Python's `a[-0:]`) or one longer than the history selects the whole history |
| LstmWindows.Rollout | src/models/lstm_model.py:75-79 | the feedback loop yields exactly one prediction per step |
| LstmWindows.RollingForecast | src/models/lstm_model.py:69-82 | the loop's predictions are the rollout from the last window of the history |
| LstmWindows.EachPredictionSeesLastWindow | src/models/lstm_model.py:75-79 | from a non-empty window, each prediction is made from the window-length values just before it in history-then-forecast |
| LstmWindows.ForecastTimestamps | src/models/lstm_model.py:87-92 | the grid has one timestamp per step; the first is 5 minutes after the last observation and each is 5 minutes after the previous |
| LstmWindows.TimestampsIncrease | src/models/lstm_model.py:87-92 | every grid timestamp is after the last observation, and the grid is strictly increasing |
| LstmWindows.StepsAccumulate | src/models/lstm_model.py:87-92 | the k-th grid timestamp is the last observation plus 5 (k + 1) minutes |
| LstmWindows.ForecastDay | src/models/lstm_model.py:69-94 | a frame of 288 rows with `ds` and `yhat`; row i holds grid timestamp i and the unscaled i-th rollout prediction |
| LstmWindows.SavingDayKeepsEveryRow | src/models/lstm_model.py:101 | saving a 288-row day with `last_n = 288` succeeds and keeps every row |
| TariffAnomaly.AssignTariff | src/models/dynamic_traffic_and_anamoly.py:42-48 | High if and only if demand > 0.7; Normal if and only if 0.4 < demand <= 0.7; Low if and only if demand <= 0.4 |
| TariffAnomaly.TariffMonotone | src/models/dynamic_traffic_and_anamoly.py:42-48 | a higher demand never gets a lower tariff band |
| TariffAnomaly.TariffLabelsDistinct | src/models/dynamic_traffic_and_anamoly.py:42-48 | the three labels differ, so each demand gets exactly one of them |
| TariffAnomaly.AbsError | src/models/dynamic_traffic_and_anamoly.py:53 | the error is non-negative and is actual minus predicted, or its negation |
| TariffAnomaly.AnomalyLabel | src/models/dynamic_traffic_and_anamoly.py:54-58 | the row reads "Normal" exactly when it is not an anomaly |
| TariffAnomaly.AnomalyOutsideBand | src/models/dynamic_traffic_and_anamoly.py:54-58 | a row is an anomaly if and only if actual is above 120% or below 80% of predicted |
| TariffAnomaly.NegativePredictionIsAnomaly | src/models/dynamic_traffic_and_anamoly.py:54-58 | a negative prediction flags the row whatever the actual demand |
| TariffAnomaly.ExactPredictionIsNormal | src/models/dynamic_traffic_and_anamoly.py:54-58 | an exact non-negative prediction is never flagged and reads "Normal" |
| TariffAnomaly.TariffColumnFollowsDemand | src/models/dynamic_traffic_and_anamoly.py:50 | across the rows of the tariff column, a row with a higher or equal prediction never gets a cheaper tariff than another |
| TariffAnomaly.AnomalyColumnFlagsOutsideBand | src/models/dynamic_traffic_and_anamoly.py:53-58 | row i of the anomaly column is flagged if and only if its actual demand is above 120% or below 80% of its prediction |

## Left out

- Training and inference are not part of this model: Prophet, Keras fitting and `model.predict`, XGBoost, and sklearn's split and metrics. The LSTM prediction and the scaler's inverse transform appear as function parameters.
- File and JSON I/O is not modelled: `os.makedirs`, `open`, `json.dump` and `json.load`. The writer produces the document as a value (`ForecastWriter.ArtifactJson`), and the loader starts from a parsed document or a failed read.
- Printed messages, progress output, plots and CSV export are not modelled.
- The hourly resampling of forecasts (`resample("h").mean()`) is not modelled, and neither is the save of the hourly file (src/models/lstm_model.py:97, :102).
- The min-max normalisation that follows the anomaly rule is not modelled.
- `src/datalayer/preprocess.py`, `app/app.py` and `src/models/train_model.py` are not part of this model.
- IEEE floating point is not modelled: all demand arithmetic is on unbounded reals. NaN and infinities, and rounding in `0.8 * n` and in the quantile, are not captured.
- KpiCalculator.CalculateKpis: requires both series to be non-empty. pandas reports NaN for the maximum of an empty column, and the model does not represent NaN.
- KpiCalculator.AbsChangeSum: pairs samples by position and stops at the shorter series. pandas aligns the two columns on their index labels and skips missing values.
- ScenarioEngine.ApplyDrScenario: models only the `timestamp` and `demand_kw` columns. Other frame columns are copied unchanged by the source and are not represented.
- ScenarioEngine.ApplyDrScenario: does not model parameters of the wrong Python type (for example a string percentage), which make the source raise. Timestamps are naive minutes, with no time zones.
- ForecastWriter.Quantile: bounds the threshold by values of the sample. The exact interpolated value is `SortedQuantile`'s definition, and it is pinned down on concrete samples by `QuantileExample`, `KeptSliceQuantile` and `WholeSeriesQuantile`.
- ForecastWriter.SaveForecastJson: keeps only `ds` and `yhat` per row. Extra frame columns, such as Prophet's `yhat_lower` and `yhat_upper`, are written by the source but are not modelled. How `astype(str)` renders a timestamp is a function parameter.
- ForecastLoader.LoadPregeneratedForecast: returns `None` in every case below. The source instead builds a frame, with NaN or oddly shaped columns:
  - a truthy `forecast` entry that is not a list (such as an object of columns);
  - a record without `ds` or `yhat` while other records have them;
  - a non-numeric `yhat`;
  - a `ds` that is not text;
  - records that all lack `yhat`, which give a frame without a `demand_kw` column.
- ForecastLoader.LoadPregeneratedForecast: records keyed `timestamp` or `demand_kw` instead of `ds` or `yhat` give `None` here, while the source's rename leaves them in place and builds a frame.
- ForecastLoader.LoadPregeneratedForecast: records that carry both `ds` and `timestamp` load here, while in the source the rename yields two `timestamp` columns, `pd.to_datetime` raises and the result is `None`.
- ForecastLoader.LoadPregeneratedForecast: drops record fields other than `ds` and `yhat`. How `pd.to_datetime` parses a timestamp is a partial function parameter.
- ForecastWriter.PeaksFollowForecastOrder: every peak is a saved timestamp only because the model renders each timestamp on its own. pandas' `astype(str)` picks one rendering per column: a column whose values are all at midnight is rendered date-only. The peaks are rendered from the peak subset (src/models/utils.py:24) and the records from the whole kept slice (:28). So a kept slice with one midnight peak and other non-midnight rows gives a date-only peak that matches no record. With 288 five-minute rows or 24 hourly rows there are always at least two peaks, and at most one of them is at midnight, so this case does not arise.
- ForecastWriter.MaximumIsPeak: the same per-column rendering applies to its statement about the rendered peaks.
- ForecastWriter.MaximumIsPeakRow: the same per-column rendering applies to its statement about the rendered peaks.
- ForecastWriter.BuildArtifact: the same per-column rendering applies to its statement that every peak is a rendered kept timestamp.
- LstmWindows.CreateSequences: works on a flat sequence of reals. The `(n, 1)` array shapes and the reshape at src/models/lstm_model.py:37 are not represented.
- The identity `peak_reduction_pct * baseline_peak == peak_reduction_kw * 100` is not stated on its own. `KpiCalculator.CalculateKpis` states the percentage in its division form instead.
