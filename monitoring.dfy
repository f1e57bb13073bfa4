/**
 * The monitoring notebook's control flow once the data is loaded: the required-column
 * gate, then the statistics, the hourly analysis (which moves the timestamps into the
 * frame's index) and the health advisory for the value the user enters.
 */
module Monitoring {
  import opened Wrappers
  import opened Frames
  import opened Statistics
  import opened Hourly
  import opened Advisory

  /** The columns the monitoring view needs before it computes anything. */
  const MonitorRequired: seq<string> := [TimestampColumn, AqiColumn, Pm25Column, Pm10Column]

  /** The hourly section: a bar chart of the counts, or the "generally safe" message. */
  datatype HourlyView = GenerallySafe | HighAqiChart(counts: seq<(int, int)>)

  datatype Report =
    | MissingColumns
    | Computed(stats: Stats, hourly: HourlyView, tip: string)

  /** `if not high_aqi_counts.empty: plot ... else: "generally safe"` */
  function View(counts: seq<(int, int)>): (v: HourlyView)
    ensures v.GenerallySafe? <==> counts == []
    ensures v.HighAqiChart? ==> v.counts == counts
  {
    if counts == [] then GenerallySafe else HighAqiChart(counts)
  }

  /**
   * `analyze_hourly_aqi(df)`: moves the timestamp column into the index of `f` (in place)
   * and counts, per hour of day, the calendar hours whose mean AQIH exceeds 150.
   */
  method AnalyzeHourlyAqi(f: Frame) returns (counts: seq<(int, int)>)
    requires f.Valid() && TimestampColumn in f.columns && AqiColumn in f.columns
    modifies f
    ensures f.Valid() && f.rows == old(f.rows)
    ensures f.index == Some(old(f.columns[TimestampColumn].times))
    ensures f.columns == old(f.columns) - {TimestampColumn}
    ensures counts == Histogram(old(f.columns[TimestampColumn].times), old(f.columns[AqiColumn].values))
  {
    f.SetIndex();
    counts := HourlyCounts(f.index.value, f.columns[AqiColumn].values);
  }

  /**
   * One pass of the monitoring view over a loaded frame, with `query` the value entered in
   * the AQI number input (which accepts nothing below 0).
   */
  method Monitor(f: Frame, query: nat) returns (r: Report)
    requires f.Valid()
    modifies f
    ensures f.Valid() && f.rows == old(f.rows)
    ensures r.MissingColumns? <==> !HasAll(old(f.columns).Keys, MonitorRequired)
    ensures r.MissingColumns? ==> f.columns == old(f.columns) && f.index == old(f.index)
    ensures r.Computed? ==>
      && TimestampColumn in old(f.columns) && TimestampColumn !in f.columns
      && f.columns == old(f.columns) - {TimestampColumn}
      && f.index == Some(old(f.columns[TimestampColumn].times))
    ensures r.Computed? ==>
      && MonitorRequired[0] in old(f.columns) && MonitorRequired[1] in old(f.columns)
      && MonitorRequired[2] in old(f.columns) && MonitorRequired[3] in old(f.columns)
      && r.stats == CalculateStatistics(old(f.columns[AqiColumn].values),
           old(f.columns[Pm25Column].values), old(f.columns[Pm10Column].values))
      && r.hourly == View(Histogram(old(f.columns[TimestampColumn].times), old(f.columns[AqiColumn].values)))
      && r.tip == HealthTips(query as real)
  {
    if !(forall i :: 0 <= i < |MonitorRequired| ==> MonitorRequired[i] in f.columns) {
      return MissingColumns;
    }
    assert MonitorRequired[0] in f.columns && MonitorRequired[1] in f.columns;
    assert MonitorRequired[2] in f.columns && MonitorRequired[3] in f.columns;
    var stats := CalculateStatistics(f.columns[AqiColumn].values, f.columns[Pm25Column].values,
                                     f.columns[Pm10Column].values);
    var counts := AnalyzeHourlyAqi(f);
    r := Computed(stats, View(counts), HealthTips(query as real));
  }

  /** The required-column gate: nothing is computed unless all four columns are present. */
  lemma GateNeedsAllFour(present: set<string>)
    ensures HasAll(present, MonitorRequired) <==>
      "timestamp" in present && "AQIH" in present && "PM2.5" in present && "PM10" in present
  {
    if "timestamp" in present && "AQIH" in present && "PM2.5" in present && "PM10" in present {
      forall i | 0 <= i < |MonitorRequired| ensures MonitorRequired[i] in present {
      }
    }
    if HasAll(present, MonitorRequired) {
      assert MonitorRequired[0] in present && MonitorRequired[1] in present;
      assert MonitorRequired[2] in present && MonitorRequired[3] in present;
    }
  }
}
