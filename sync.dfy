/** The Drive branch of `sync`: the historical partition of the records and
    the plan of which CSV file receives which records, run against the files
    stored in the folder. */
module Sync {
  import opened PyValues
  import opened Dates
  import opened Metrics
  import opened Rows
  import opened Drive

  /** `[m for m in metrics_to_write if m.date < today]`. */
  function Historical(ms: seq<DailyRecord>, today: Date): (h: seq<DailyRecord>)
    ensures forall m :: m in h <==> m in ms && Before(m.date, today)
    ensures |h| <= |ms|
  {
    if ms == [] then []
    else (if Before(ms[0].date, today) then [ms[0]] else []) + Historical(ms[1..], today)
  }

  /** The filter keeps every historical record as often as it occurs and drops
      every other one. */
  lemma {:induction false} HistoricalCounts(ms: seq<DailyRecord>, today: Date)
    ensures forall m :: multiset(Historical(ms, today))[m] == if Before(m.date, today) then multiset(ms)[m] else 0
  {
    if ms != [] {
      HistoricalCounts(ms[1..], today);
      assert ms == [ms[0]] + ms[1..];
    }
  }

  /** `idx` picks the elements of `a` out of `b`, at increasing positions. */
  predicate Embeds(idx: seq<nat>, a: seq<DailyRecord>, b: seq<DailyRecord>)
  {
    && |idx| == |a|
    && (forall i :: 0 <= i < |idx| ==> idx[i] < |b| && a[i] == b[idx[i]])
    && (forall i, j :: 0 <= i < j < |idx| ==> idx[i] < idx[j])
  }

  ghost predicate IsSubsequence(a: seq<DailyRecord>, b: seq<DailyRecord>)
  {
    exists idx :: Embeds(idx, a, b)
  }

  /** The filter keeps the input order: the historical records are a
      subsequence of all the records. */
  lemma {:induction false} HistoricalInOrder(ms: seq<DailyRecord>, today: Date)
    ensures IsSubsequence(Historical(ms, today), ms)
  {
    if ms == [] {
      assert Embeds([], [], ms);
    } else {
      var t := Historical(ms[1..], today);
      HistoricalInOrder(ms[1..], today);
      var idx :| Embeds(idx, t, ms[1..]);
      assert ms == [ms[0]] + ms[1..];
      var shifted := EmbedsSkip(idx, t, ms[1..], ms[0]);
      if Before(ms[0].date, today) {
        assert Historical(ms, today) == [ms[0]] + t;
        assert Embeds([0] + shifted, [ms[0]] + t, ms);
      } else {
        assert Historical(ms, today) == t;
      }
    }
  }

  /** An embedding into `b` shifts to one into `[x] + b`, which also embeds
      `[x] + a` by picking `x` first. */
  lemma EmbedsSkip(idx: seq<nat>, a: seq<DailyRecord>, b: seq<DailyRecord>, x: DailyRecord) returns (shifted: seq<nat>)
    requires Embeds(idx, a, b)
    ensures Embeds(shifted, a, [x] + b)
    ensures Embeds([0] + shifted, [x] + a, [x] + b)
  {
    shifted := seq(|idx|, i requires 0 <= i < |idx| => idx[i] + 1);
    var xb, z := [x] + b, [0] + shifted;
    forall i | 0 <= i < |idx|
      ensures shifted[i] < |xb| && a[i] == xb[shifted[i]]
    {
      assert xb[idx[i] + 1] == b[idx[i]];
    }
    forall i | 0 <= i < |z|
      ensures z[i] < |xb| && ([x] + a)[i] == xb[z[i]]
    {
      if i > 0 {
        assert z[i] == shifted[i - 1] && ([x] + a)[i] == a[i - 1];
      }
    }
    forall i, j | 0 <= i < j < |z|
      ensures z[i] < z[j]
    {
      assert z[j] == shifted[j - 1];
      if i > 0 {
        assert z[i] == shifted[i - 1];
      }
    }
  }

  /** `HEADERS`-style column lists of the six daily CSV files (from the
      configuration). */
  datatype Layouts = Layouts(
    sleep: seq<string>,
    bodyComposition: seq<string>,
    bloodPressure: seq<string>,
    generalSummary: seq<string>,
    stress: seq<string>,
    activitySummary: seq<string>)

  /** The seven CSV files of the Drive folder. */
  datatype CsvFile = Sleep | BodyComposition | BloodPressure | GeneralSummary | Stress | ActivitySummary | ActivitiesList
  {
    /** The files given every record, and those given only the historical ones. */
    predicate Live()
    {
      Sleep? || BodyComposition? || BloodPressure?
    }

    predicate HistoricalFile()
    {
      GeneralSummary? || Stress? || ActivitySummary?
    }
  }

  /** The file's name in the folder. */
  function FileName(f: CsvFile): string
  {
    match f
    case Sleep => "garmin_sleep.csv"
    case BodyComposition => "garmin_body_composition.csv"
    case BloodPressure => "garmin_blood_pressure.csv"
    case GeneralSummary => "general_summary.csv"
    case Stress => "garmin_stress.csv"
    case ActivitySummary => "garmin_activity_summary.csv"
    case ActivitiesList => "garmin_activities_list.csv"
  }

  /** Different files have different names, so no two files share a stored table. */
  lemma FileNamesDistinct(f: CsvFile, g: CsvFile)
    ensures FileName(f) == FileName(g) <==> f == g
  {
    if f != g {
      var a, b := FileName(f), FileName(g);
      assert a[|a| - 5] != b[|b| - 5] || a[4] != b[4] || a[7] != b[7] || |a| != |b|;
    }
  }

  /** One `drive_client.update_csv(file, metrics, headers)` call. */
  datatype CsvCall = CsvCall(file: CsvFile, metrics: seq<DailyRecord>, headers: seq<string>)

  /** The `update_csv` calls of the Drive sync, in order: three files with
      every record, then three with the historical records when there are any. */
  function Plan(ms: seq<DailyRecord>, today: Date, l: Layouts): seq<CsvCall>
  {
    var h := Historical(ms, today);
    [ CsvCall(Sleep, ms, l.sleep),
      CsvCall(BodyComposition, ms, l.bodyComposition),
      CsvCall(BloodPressure, ms, l.bloodPressure) ]
    + if h != [] then
        [ CsvCall(GeneralSummary, h, l.generalSummary),
          CsvCall(Stress, h, l.stress),
          CsvCall(ActivitySummary, h, l.activitySummary) ]
      else []
  }

  /** Three files always get every record; three more are planned exactly when
      some record predates today, and they get the historical records. */
  lemma PlanTabs(ms: seq<DailyRecord>, today: Date, l: Layouts)
    ensures var p, h := Plan(ms, today, l), Historical(ms, today);
      && |p| == (if exists m :: m in ms && Before(m.date, today) then 6 else 3)
      && (forall i :: 0 <= i < 3 ==> p[i].file.Live() && p[i].metrics == ms)
      && (forall i :: 3 <= i < |p| ==> p[i].file.HistoricalFile() && p[i].metrics == h)
  {
    var p, h := Plan(ms, today, l), Historical(ms, today);
    if h != [] {
      assert h[0] in h;
      assert |p| == 6;
    } else {
      assert |p| == 3;
      assert forall m :: m in ms && Before(m.date, today) ==> m in h;
    }
  }

  /** No file is planned twice. */
  lemma PlanFilesDistinct(ms: seq<DailyRecord>, today: Date, l: Layouts)
    ensures var p := Plan(ms, today, l);
      forall i, j :: 0 <= i < j < |p| ==> p[i].file != p[j].file
  {
  }

  /** A record dated today or later reaches no historical file. */
  lemma FutureStaysLive(ms: seq<DailyRecord>, today: Date, l: Layouts, m: DailyRecord)
    requires !Before(m.date, today)
    ensures forall c :: c in Plan(ms, today, l) && c.file.HistoricalFile() ==> m !in c.metrics
  {
  }

  /** One call writes a file or not; a raised error ends the run. */
  datatype Write = Write(file: CsvFile, table: Frame)
  datatype Ran = Ran(writes: seq<Write>, raised: bool)

  /** The calls run in order, each giving what `step` says; the first that
      raises stops the rest. */
  function RunCalls(calls: seq<CsvCall>, step: CsvCall -> Result<Upload>): (r: Ran)
    ensures |r.writes| <= |calls|
  {
    if calls == [] then Ran([], false)
    else match step(calls[0])
      case Raised => Ran([], true)
      case Ok(Skipped) => RunCalls(calls[1..], step)
      case Ok(Uploaded(t)) =>
        var rest := RunCalls(calls[1..], step);
        Ran([Write(calls[0].file, t)] + rest.writes, rest.raised)
  }

  /** The run raises exactly when some call raises; every write is the upload
      of one call, the calls before it having all succeeded. */
  lemma {:induction false} RunCallsSpec(calls: seq<CsvCall>, step: CsvCall -> Result<Upload>)
    ensures var r := RunCalls(calls, step);
      && (r.raised <==> exists i :: 0 <= i < |calls| && step(calls[i]).Raised?)
      && (forall w :: w in r.writes ==> exists i :: (0 <= i < |calls| && calls[i].file == w.file
            && step(calls[i]) == Ok(Uploaded(w.table))
            && forall j :: 0 <= j < i ==> step(calls[j]).Ok?))
  {
    if calls != [] {
      var tail := calls[1..];
      RunCallsSpec(tail, step);
      assert forall i :: 0 < i < |calls| ==> calls[i] == tail[i - 1];
      var r, rest := RunCalls(calls, step), RunCalls(tail, step);
      match step(calls[0])
      case Raised =>
      case Ok(u) =>
        assert u.Uploaded? ==> r.writes == [Write(calls[0].file, u.table)] + rest.writes;
        assert u.Skipped? ==> r.writes == rest.writes;
        forall w | w in rest.writes
          ensures exists i :: (0 <= i < |calls| && calls[i].file == w.file
            && step(calls[i]) == Ok(Uploaded(w.table))
            && forall j :: 0 <= j < i ==> step(calls[j]).Ok?)
        {
          var i :| (0 <= i < |tail| && tail[i].file == w.file
            && step(tail[i]) == Ok(Uploaded(w.table))
            && forall j :: 0 <= j < i ==> step(tail[j]).Ok?);
          assert calls[i + 1] == tail[i];
        }
    }
  }

  /** The writes come from the calls: a file no call names is never written. */
  lemma {:induction false} RunCallsFiles(calls: seq<CsvCall>, step: CsvCall -> Result<Upload>)
    ensures forall w :: w in RunCalls(calls, step).writes ==> exists c :: c in calls && c.file == w.file
  {
    RunCallsSpec(calls, step);
    forall w | w in RunCalls(calls, step).writes
      ensures exists c :: c in calls && c.file == w.file
    {
      var i :| 0 <= i < |calls| && calls[i].file == w.file;
      assert calls[i] in calls;
    }
  }

  /** What looking the file up in the folder gives. */
  function StoredIn(folder: map<string, Stored>, name: string): Stored
  {
    if name in folder then folder[name] else NoFile
  }

  /** `update_csv` with the default `sort_date_desc=True`, minus the Drive calls. */
  function CsvStep(folder: map<string, Stored>, attrs: map<string, string>): CsvCall -> Result<Upload>
  {
    (c: CsvCall) => CsvUpload(StoredIn(folder, FileName(c.file)), FrameOf(MetricsDicts(c.metrics, c.headers, attrs)), true)
  }

  /** How the Drive branch ends: another output type, no folder configured, or
      the `except` branch, entered from an `update_csv` that raised or, failing
      that, from the `update_activities_csv` call, which is passed one argument
      too many. */
  datatype Cause = CsvError | ActivitiesCallError
  datatype Outcome = NotDrive | NoFolder | Failed(writes: seq<Write>, cause: Cause) | Completed(writes: seq<Write>)

  /** `profile_data.get('drive_folder_id')`. */
  function FolderId(profile: Dict): Json
  {
    match Lookup(profile, "drive_folder_id")
    case Some(v) => v
    case None => JNull
  }

  /** The Drive branch of `sync`. */
  function DriveSync(outputType: string, profile: Dict, ms: seq<DailyRecord>, today: Date, l: Layouts,
                     attrs: map<string, string>, folder: map<string, Stored>): (o: Outcome)
    ensures o == NotDrive <==> outputType != "drive"
    ensures o == NoFolder <==> outputType == "drive" && !Truthy(FolderId(profile))
  {
    if outputType != "drive" then NotDrive
    else if !Truthy(FolderId(profile)) then NoFolder
    else
      var r := RunCalls(Plan(ms, today, l), CsvStep(folder, attrs));
      Failed(r.writes, if r.raised then CsvError else ActivitiesCallError)
  }

  /** Whatever each call does, the writes of the plan are uploads of planned
      calls, the activities list is never written, and a historical file is
      written only from records that predate today. */
  lemma PlanWrites(ms: seq<DailyRecord>, today: Date, l: Layouts, step: CsvCall -> Result<Upload>)
    ensures var p := Plan(ms, today, l);
      forall w :: w in RunCalls(p, step).writes ==> exists i :: (0 <= i < |p| && p[i].file == w.file
        && step(p[i]) == Ok(Uploaded(w.table))
        && w.file != ActivitiesList
        && (w.file.HistoricalFile() ==> forall m :: m in p[i].metrics ==> Before(m.date, today)))
  {
    var p := Plan(ms, today, l);
    RunCallsSpec(p, step);
    PlanTabs(ms, today, l);
    forall w | w in RunCalls(p, step).writes
      ensures exists i :: (0 <= i < |p| && p[i].file == w.file
        && step(p[i]) == Ok(Uploaded(w.table))
        && w.file != ActivitiesList
        && (w.file.HistoricalFile() ==> forall m :: m in p[i].metrics ==> Before(m.date, today)))
    {
      var i :| 0 <= i < |p| && p[i].file == w.file && step(p[i]) == Ok(Uploaded(w.table));
      assert p[i].file.Live() || p[i].file.HistoricalFile();
    }
  }

  /** With a folder configured the run always ends in the `except` branch: from
      an `update_csv` that raised exactly when a planned call raises, otherwise
      from the activities call; its writes are those of the plan. */
  lemma DriveWrites(outputType: string, profile: Dict, ms: seq<DailyRecord>, today: Date, l: Layouts,
                    attrs: map<string, string>, folder: map<string, Stored>)
    requires outputType == "drive" && Truthy(FolderId(profile))
    ensures var o, p, step := DriveSync(outputType, profile, ms, today, l, attrs, folder),
                              Plan(ms, today, l), CsvStep(folder, attrs);
      && o.Failed?
      && o.writes == RunCalls(p, step).writes
      && (o.cause == CsvError <==> exists i :: 0 <= i < |p| && step(p[i]).Raised?)
  {
    RunCallsSpec(Plan(ms, today, l), CsvStep(folder, attrs));
  }
  /** As written, the activities list is never uploaded and the sync never
      completes: with a folder configured the run ends in the `except` branch
      whatever the records and the stored files, after at most the six
      `update_csv` writes. */
  lemma ActivitiesCallAlwaysFails(outputType: string, profile: Dict, ms: seq<DailyRecord>, today: Date, l: Layouts,
                                  attrs: map<string, string>, folder: map<string, Stored>)
    requires outputType == "drive" && Truthy(FolderId(profile))
    ensures var o := DriveSync(outputType, profile, ms, today, l, attrs, folder);
      && o.Failed? && !o.Completed?
      && |o.writes| <= 6
      && forall w :: w in o.writes ==> w.file != ActivitiesList
  {
    PlanWrites(ms, today, l, CsvStep(folder, attrs));
    PlanTabs(ms, today, l);
  }

  /** The Drive branch with the activities call as intended,
      `update_activities_csv("garmin_activities_list.csv", metrics_to_write)`. */
  function DriveSyncIntended(outputType: string, profile: Dict, ms: seq<DailyRecord>, today: Date, l: Layouts,
                             attrs: map<string, string>, folder: map<string, Stored>): (o: Outcome)
    ensures o == NotDrive <==> outputType != "drive"
    ensures o == NoFolder <==> outputType == "drive" && !Truthy(FolderId(profile))
  {
    if outputType != "drive" then NotDrive
    else if !Truthy(FolderId(profile)) then NoFolder
    else
      Finish(RunCalls(Plan(ms, today, l), CsvStep(folder, attrs)),
             ActivitiesUpload(StoredIn(folder, FileName(ActivitiesList)), FrameOf(AllActivities(ms))))
  }

  /** After the `update_csv` calls: a raised error ends the run, otherwise the
      activities upload, if any, is the last write. */
  function Finish(r: Ran, u: Upload): (o: Outcome)
    ensures o.Failed? <==> r.raised
  {
    if r.raised then Failed(r.writes, CsvError)
    else match u
      case Skipped => Completed(r.writes)
      case Uploaded(t) => Completed(r.writes + [Write(ActivitiesList, t)])
  }

  /** With the intended call, a run in which no `update_csv` raises completes,
      makes the same CSV writes, and then uploads the activities list exactly
      when the activity table is not empty, which needs some record to have
      activities; an upload into a folder without that file holds exactly the
      fresh activity rows. */
  lemma IntendedActivitiesWritten(outputType: string, profile: Dict, ms: seq<DailyRecord>, today: Date, l: Layouts,
                                  attrs: map<string, string>, folder: map<string, Stored>)
    requires outputType == "drive" && Truthy(FolderId(profile))
    requires forall i :: 0 <= i < |Plan(ms, today, l)| ==> CsvStep(folder, attrs)(Plan(ms, today, l)[i]).Ok?
    ensures var o, csv := DriveSyncIntended(outputType, profile, ms, today, l, attrs, folder),
                          DriveSync(outputType, profile, ms, today, l, attrs, folder).writes;
      var batch := FrameOf(AllActivities(ms));
      && o.Completed?
      && o.writes[..|csv|] == csv
      && (|o.writes| == |csv| + 1 <==> !Empty(batch))
      && (|o.writes| == |csv| + 1 ==> o.writes[|csv|].file == ActivitiesList)
      && (!Empty(batch) ==> exists i :: 0 <= i < |ms| && ms[i].activities != [])
      && (!Empty(batch) && FileName(ActivitiesList) !in folder ==> o.writes[|csv|].table == batch)
  {
    var r := RunCalls(Plan(ms, today, l), CsvStep(folder, attrs));
    RunCallsSpec(Plan(ms, today, l), CsvStep(folder, attrs));
    var batch := FrameOf(AllActivities(ms));
    var u := ActivitiesUpload(StoredIn(folder, FileName(ActivitiesList)), batch);
    IntendedIsFinish(outputType, profile, ms, today, l, attrs, folder);
    FinishWrites(r, u);
    AllActivitiesMembers(ms);
  }

  lemma IntendedIsFinish(outputType: string, profile: Dict, ms: seq<DailyRecord>, today: Date, l: Layouts,
                         attrs: map<string, string>, folder: map<string, Stored>)
    requires outputType == "drive" && Truthy(FolderId(profile))
    ensures var r := RunCalls(Plan(ms, today, l), CsvStep(folder, attrs));
      && DriveSyncIntended(outputType, profile, ms, today, l, attrs, folder) ==
           Finish(r, ActivitiesUpload(StoredIn(folder, FileName(ActivitiesList)), FrameOf(AllActivities(ms))))
      && DriveSync(outputType, profile, ms, today, l, attrs, folder).writes == r.writes
  {
  }

  lemma FinishWrites(r: Ran, u: Upload)
    requires !r.raised
    ensures var o := Finish(r, u);
      && o.Completed?
      && o.writes[..|r.writes|] == r.writes
      && (|o.writes| == |r.writes| + 1 <==> u.Uploaded?)
      && (u.Uploaded? ==> o.writes[|r.writes|] == Write(ActivitiesList, u.table))
  {
    if u.Uploaded? {
      assert (r.writes + [Write(ActivitiesList, u.table)])[..|r.writes|] == r.writes;
    }
  }
}
