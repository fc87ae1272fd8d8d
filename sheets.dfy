/** The Google Sheets row of one day (`_map_metrics_to_row`): the ISO date,
    35 rendered fields in the order of `HEADERS`, and three activity slots. */
module Sheets {
  import opened PyValues
  import opened Dates
  import opened Metrics
  import Activities

  /** `HEADERS`: the sheet's 39 column titles. */
  const Headers: seq<string> := [
    "Date", "Weight (kg)", "BMI", "Body Fat (%)",
    "Sleep Score", "Sleep Need (min)", "Sleep Efficiency (%)", "Sleep Duration (min)",
    "Sleep Start", "Sleep End",
    "Deep Sleep (min)", "Light Sleep (min)", "REM Sleep (min)", "Awake (min)",
    "Respiration (brpm)", "SpO2 (%)",
    "Resting HR", "Avg Stress",
    "Rest Stress (min)", "Low Stress (min)", "Medium Stress (min)", "High Stress (min)",
    "Overnight HRV (ms)", "HRV Status",
    "VO2 Max (Run)", "VO2 Max (Cycle)",
    "Lactate Threshold HR", "Lactate Threshold Pace",
    "Training Status",
    "BP Systolic", "BP Diastolic",
    "Active Calories", "Resting Calories", "Intensity Minutes",
    "Steps", "Floors Climbed",
    "Activity 1", "Activity 2", "Activity 3"]

  /** Which test decides whether a field is rendered: `if v` or `if v is not None`. */
  datatype Guard = WhenTruthy | WhenPresent

  /** The columns guarded by `is not None`: sleep score, need, efficiency and
      duration, the four sleep stages and the four stress durations. Every
      other field is guarded by truthiness. */
  const PresentColumns: set<nat> := {4, 5, 6, 7, 10, 11, 12, 13, 18, 19, 20, 21}

  function GuardOf(column: nat): Guard
  {
    if column in PresentColumns then WhenPresent else WhenTruthy
  }

  /** The fields shown in columns 1 to 35, in `HEADERS` order. */
  function Fields(m: DailyRecord): (fs: seq<Json>)
    ensures |fs| == 35
  {
    [ m.body.weight, m.body.bmi, m.body.bodyFat,
      m.sleep.score, m.sleep.need, m.sleep.efficiency, m.sleep.length,
      m.sleep.start, m.sleep.end,
      m.sleep.deep, m.sleep.light, m.sleep.rem, m.sleep.awake,
      m.sleep.respiration, m.sleep.pulseOx,
      m.summary.restingHeartRate, m.summary.averageStress,
      m.summary.restStress, m.summary.lowStress, m.summary.mediumStress, m.summary.highStress,
      m.hrv.overnight, m.hrv.status,
      m.training.vo2maxRunning, m.training.vo2maxCycling,
      m.lactateThresholdBpm, m.lactateThresholdPace,
      m.training.status,
      m.pressure.systolic, m.pressure.diastolic,
      m.summary.activeCalories, m.summary.restingCalories, m.summary.intensityMinutes,
      m.summary.steps, m.summary.floorsClimbed ]
  }

  /** `str(v) if v else ""`, or `str(v) if v is not None else ""`. */
  function Render(v: Json, g: Guard, fmt: Format): string
  {
    match g
    case WhenTruthy => if Truthy(v) then Show(v, fmt) else ""
    case WhenPresent => if v != JNull then Show(v, fmt) else ""
  }

  /** The date cell and the 35 rendered fields. */
  function Cells(m: DailyRecord, fmt: Format): (cs: seq<string>)
    ensures |cs| == 36 && cs[0] == Iso(m.date)
  {
    var fs := Fields(m);
    [Iso(m.date)] + seq(|fs|, i requires 0 <= i < |fs| => Render(fs[i], GuardOf(i + 1), fmt))
  }

  /** The summary of one activity entry; a missing key is a KeyError. */
  function Summary(a: Dict, fmt: Format): (r: Result<string>)
    ensures r.Ok? <==> forall k :: k in SummaryKeys ==> k in Keys(a)
    ensures r.Ok? ==> (r.value ==
      Show(Lookup(a, "Type").value, fmt) + " - " + Show(Lookup(a, "Name").value, fmt) + ": "
      + Show(Lookup(a, "Distance (km)").value, fmt) + "km in " + Show(Lookup(a, "Duration (min)").value, fmt)
      + "m (" + Show(Lookup(a, "Avg Pace (min/km)").value, fmt) + "/km)")
  {
    var kind :- Index(JObj(a), "Type");
    var name :- Index(JObj(a), "Name");
    var dist :- Index(JObj(a), "Distance (km)");
    var dur :- Index(JObj(a), "Duration (min)");
    var pace :- Index(JObj(a), "Avg Pace (min/km)");
    Ok(Show(kind, fmt) + " - " + Show(name, fmt) + ": " + Show(dist, fmt) + "km in "
      + Show(dur, fmt) + "m (" + Show(pace, fmt) + "/km)")
  }

  const SummaryKeys: set<string> := {"Type", "Name", "Distance (km)", "Duration (min)", "Avg Pace (min/km)"}

  /** `f` applied to each item in order; the first failing item raises. */
  function MapAll(items: seq<Dict>, f: Dict -> Result<string>): (r: Result<seq<string>>)
    ensures r.Ok? ==> |r.value| == |items|
  {
    if items == [] then Ok([])
    else
      var init :- MapAll(items[..|items| - 1], f);
      var last :- f(items[|items| - 1]);
      Ok(init + [last])
  }

  /** Result `i` is that of item `i`. */
  lemma {:induction false} MapAllInOrder(items: seq<Dict>, f: Dict -> Result<string>, i: nat)
    requires MapAll(items, f).Ok? && i < |items|
    ensures f(items[i]) == Ok(MapAll(items, f).value[i])
  {
    var init := items[..|items| - 1];
    if i < |init| {
      MapAllInOrder(init, f, i);
      assert init[i] == items[i];
    }
  }

  /** Every item is mapped: one failing item makes the whole map raise. */
  lemma {:induction false} MapAllRaises(items: seq<Dict>, f: Dict -> Result<string>)
    ensures MapAll(items, f).Raised? <==> exists i :: 0 <= i < |items| && f(items[i]).Raised?
  {
    if items != [] {
      var init := items[..|items| - 1];
      MapAllRaises(init, f);
      assert forall i :: 0 <= i < |init| ==> init[i] == items[i];
    }
  }

  /** The summaries of all the activities, in order. */
  function Summaries(acts: seq<Dict>, fmt: Format): Result<seq<string>>
  {
    MapAll(acts, a => Summary(a, fmt))
  }

  /** Every activity is summarised, not only the three shown: one entry
      missing a key raises for the whole row. */
  lemma SummariesRaise(acts: seq<Dict>, fmt: Format)
    ensures Summaries(acts, fmt).Raised? <==> exists i :: 0 <= i < |acts| && Summary(acts[i], fmt).Raised?
  {
    MapAllRaises(acts, a => Summary(a, fmt));
  }

  /** The three activity slots: the first three summaries, padded with "". */
  function Slots(strs: seq<string>): (r: seq<string>)
    ensures |r| == 3
    ensures forall i :: 0 <= i < 3 ==> r[i] == if i < |strs| then strs[i] else ""
    decreases 3 - |strs|
  {
    if |strs| >= 3 then strs[..3] else Slots(strs + [""])
  }

  /** The row `_map_metrics_to_row` returns. */
  function SheetRow(m: DailyRecord, fmt: Format): Result<seq<string>>
  {
    var strs :- Summaries(m.activities, fmt);
    Ok(Cells(m, fmt) + Slots(strs))
  }

  /** `_map_metrics_to_row`. */
  method MapMetricsToRow(m: DailyRecord, fmt: Format) returns (r: Result<seq<string>>)
    ensures r == SheetRow(m, fmt)
  {
    var strs: seq<string> := [];
    ghost var f := a => Summary(a, fmt);
    for i := 0 to |m.activities|
      invariant MapAll(m.activities[..i], f) == Ok(strs)
    {
      assert m.activities[..i + 1][..i] == m.activities[..i];
      var s := Summary(m.activities[i], fmt);
      assert s == f(m.activities[..i + 1][i]);
      if s.Raised? {
        SummariesRaise(m.activities, fmt);
        return Raised;
      }
      strs := strs + [s.value];
    }
    assert m.activities[..|m.activities|] == m.activities;
    ghost var all := strs;
    while |strs| < 3
      invariant |all| <= |strs| && strs[..|all|] == all
      invariant forall j :: |all| <= j < |strs| ==> strs[j] == ""
      invariant |all| < 3 ==> |strs| <= 3
      decreases 3 - |strs|
    {
      strs := strs + [""];
    }
    assert strs[..3] == Slots(all);
    return Ok(Cells(m, fmt) + strs[..3]);
  }

  /** The row has one cell per header, the first being the ISO date and the
      last three the first three activity summaries (`SummaryInSlot`), padded
      with "". */
  lemma SheetRowShape(m: DailyRecord, fmt: Format)
    requires SheetRow(m, fmt).Ok?
    ensures var row, strs := SheetRow(m, fmt).value, Summaries(m.activities, fmt).value;
      && |row| == |Headers| == 39
      && row[0] == Iso(m.date)
      && forall i :: 0 <= i < 3 ==> row[36 + i] == if i < |m.activities| then strs[i] else ""
  {
  }

  /** An activity entry built by the parser carries every key the summary
      reads, so the summary of a parsed activity never raises. */
  lemma ParsedEntrySummarises(a: Json, d: CalendarDate, zones: Dict, fmt: Format)
    requires a.JObj? && Activities.ActivityEntry(a, d, zones).Ok?
    ensures Summary(Activities.ActivityEntry(a, d, zones).value, fmt).Ok?
  {
    var who, ms, dyn := Activities.Identity(a, d).value, Activities.Measures(a).value, Activities.Dynamics(a).value;
    assert Activities.ActivityEntry(a, d, zones) == Ok(Update(who + ms + dyn, zones));
    EntryKeys(who, ms, dyn, zones);
  }

  lemma EntryKeys(who: Dict, ms: Dict, dyn: Dict, zones: Dict)
    requires Keys(who) == Activities.IdentityKeys && Keys(ms) == Activities.MeasureKeys
    ensures forall k :: k in SummaryKeys ==> k in Keys(Update(who + ms + dyn, zones))
  {
    var base := who + ms + dyn;
    assert Keys(base)[3] == "Type" && Keys(base)[4] == "Name";
    assert Keys(base)[5] == "Distance (km)" && Keys(base)[6] == "Duration (min)" && Keys(base)[7] == "Avg Pace (min/km)";
    forall k | k in SummaryKeys ensures k in Keys(Update(base, zones)) {
      assert k in Keys(base);
      LookupUpdate(base, zones, k);
    }
  }

  /** The summary in position `i` is that of activity `i`. */
  lemma SummaryInSlot(m: DailyRecord, fmt: Format, i: nat)
    requires SheetRow(m, fmt).Ok? && i < |m.activities|
    ensures Summary(m.activities[i], fmt) == Ok(Summaries(m.activities, fmt).value[i])
  {
    MapAllInOrder(m.activities, a => Summary(a, fmt), i);
  }

  /** The two blank rules: `None` is blank in every column; zero is blank in a
      truthiness-guarded column and shown in an `is not None` one; any other
      value is shown. */
  lemma BlankCells(m: DailyRecord, fmt: Format, i: nat)
    requires SheetRow(m, fmt).Ok? && 1 <= i < 36
    ensures var v, cell := Fields(m)[i - 1], SheetRow(m, fmt).value[i];
      && (v == JNull ==> cell == "")
      && (v == JNum(0.0) ==> (cell == "" <==> i !in PresentColumns || fmt.number(0.0) == ""))
      && (Truthy(v) ==> cell == Show(v, fmt))
  {
    var v, row := Fields(m)[i - 1], SheetRow(m, fmt).value;
    assert row[i] == Cells(m, fmt)[i] == Render(v, GuardOf(i), fmt);
  }

  /** A record carrying only its date gives the date and 38 blank cells. */
  lemma DateOnlyRow(d: CalendarDate, fmt: Format)
    ensures SheetRow(DateOnly(d), fmt) == Ok([Iso(d)] + seq(38, i => ""))
  {
    var m := DateOnly(d);
    var fs, cs := Fields(m), Cells(m, fmt);
    assert Summaries(m.activities, fmt) == Ok([]);
    assert forall i :: 0 <= i < 35 ==> fs[i] == JNull;
    forall i | 1 <= i < 36 ensures cs[i] == "" {
      assert cs[i] == Render(fs[i - 1], GuardOf(i), fmt);
    }
    assert Slots([]) == ["", "", ""];
    assert cs + Slots([]) == [Iso(d)] + seq(38, i => "");
  }
}
