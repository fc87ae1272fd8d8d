/** The extraction step of `get_metrics`: the seven fetched payloads of one day
    become a `DailyRecord`. A section whose fetch failed is `None` and leaves its
    fields `None`; an activity whose parsing raises is skipped; any other
    exception leaves a record holding only the date. */
module Parser {
  import opened PyValues
  import opened Numeric
  import opened Dates
  import opened Metrics
  import opened Activities

  /** What `float(s)` makes of a string: a finite number, a `ValueError`, or
      an infinity or NaN (which `round` then rejects). */
  datatype FloatText = Finite(x: real) | NotFloat | Infinite | NotANumber

  /** The host environment: `datetime.fromtimestamp(secs).strftime('%H:%M')`
      (`None` where it raises), `float()` on strings, and `str()`. */
  datatype Host = Host(clock: real -> Option<string>, parseFloat: string -> FloatText, fmt: Format)

  /** The results of the seven concurrent fetches, and the per-activity zone fetch. */
  datatype Payloads = Payloads(
    stats: Fetch, sleep: Fetch, activities: Fetch, summary: Fetch,
    training: Fetch, hrv: Fetch, bp: Fetch,
    hrZones: Json -> Fetch)

  /** `results[i] if not isinstance(results[i], Exception) else None`. */
  function Unpack(f: Fetch): (v: Json)
    ensures f.FetchFailed? ==> v == JNull
    ensures f.Fetched? ==> v == f.payload
  {
    match f
    case FetchFailed => JNull
    case Fetched(p) => p
  }

  // ---------------------------------------------------------------- sleep

  /** A local timestamp in milliseconds as `HH:MM`, when it is truthy. */
  function ClockTime(ts: Json, clock: real -> Option<string>): (r: Result<Json>)
    ensures !Truthy(ts) ==> r == Ok(JNull)
    ensures Truthy(ts) ==> (r.Ok? <==> ts.JNum? && clock(ts.n / 1000.0).Some?)
    ensures Truthy(ts) && r.Ok? ==> r.value == JStr(clock(ts.n / 1000.0).value)
  {
    if !Truthy(ts) then Ok(JNull)
    else
      var ms :- Num(ts);
      match clock(ms / 1000.0)
      case Some(s) => Ok(JStr(s))
      case None => Raised
  }

  /** `(dto.get(k) or 0) / 60`. */
  function StageMinutes(dto: Json, k: string): (r: Result<Json>)
    requires dto.JObj?
    ensures r.Ok? ==> r.value.JNum?
  {
    var secs :- Num(Or(Field(dto, k), JNum(0.0)));
    Ok(JNum(secs / 60.0))
  }

  /** `round(((total - awake) / total) * 100)` for a truthy, positive total. */
  function Efficiency(dto: Json, total: Json): Result<Json>
    requires dto.JObj?
  {
    if !Truthy(total) then Ok(JNull)
    else
      var t :- Num(total);
      if !(t > 0.0) then Ok(JNull)
      else
        var awake :- Num(Or(Field(dto, "awakeSleepSeconds"), JNum(0.0)));
        Ok(JNum(RoundHalfEven((t - awake) / t * 100.0) as real))
  }

  /** `round(sleep_time_seconds / 60)` when the total is truthy. */
  function SleepLength(total: Json): Result<Json>
  {
    if Truthy(total) then (var t :- Num(total); Ok(JNum(RoundHalfEven(t / 60.0) as real))) else Ok(JNull)
  }

  /** The sleep fields of a non-empty `dailySleepDTO`. */
  function SleepFromDto(dto: Json, clock: real -> Option<string>): (r: Result<SleepInfo>)
    requires dto.JObj?
    ensures r.Ok? ==>
      var total := Field(dto, "sleepTimeSeconds");
      && SleepLength(total) == Ok(r.value.length)
      && Efficiency(dto, total) == Ok(r.value.efficiency)
      && StageMinutes(dto, "deepSleepSeconds") == Ok(r.value.deep)
      && StageMinutes(dto, "lightSleepSeconds") == Ok(r.value.light)
      && StageMinutes(dto, "remSleepSeconds") == Ok(r.value.rem)
      && StageMinutes(dto, "awakeSleepSeconds") == Ok(r.value.awake)
      && r.value.need == (var need := Field(dto, "sleepNeed"); if need.JObj? then Field(need, "actual") else need)
  {
    var scores := GetOr(dto, "sleepScores", JObj([])).value;
    var overall :- GetOr(scores, "overall", JObj([]));
    var score :- Get(overall, "value");
    var needObj := Field(dto, "sleepNeed");
    var need := if needObj.JObj? then Field(needObj, "actual") else needObj;
    var total := Field(dto, "sleepTimeSeconds");
    var length :- SleepLength(total);
    var start :- ClockTime(Field(dto, "sleepStartTimestampLocal"), clock);
    var end :- ClockTime(Field(dto, "sleepEndTimestampLocal"), clock);
    var deep :- StageMinutes(dto, "deepSleepSeconds");
    var light :- StageMinutes(dto, "lightSleepSeconds");
    var rem :- StageMinutes(dto, "remSleepSeconds");
    var awake :- StageMinutes(dto, "awakeSleepSeconds");
    var efficiency :- Efficiency(dto, total);
    Ok(SleepInfo(score, need, efficiency, length, start, end, deep, light, rem, awake,
                 Field(dto, "averageRespirationValue"), Field(dto, "averageSpO2Value")))
  }

  /** The `dailySleepDTO` of a sleep payload. */
  function SleepDto(sleep: Json): Result<Json>
  {
    GetOr(sleep, "dailySleepDTO", JObj([]))
  }

  /** The sleep section: everything stays `None` without a sleep payload or
      with an empty `dailySleepDTO`. */
  function SleepOf(sleep: Json, clock: real -> Option<string>): (r: Result<SleepInfo>)
    ensures !Truthy(sleep) ==> r == Ok(NoSleep)
    ensures Truthy(sleep) && sleep.JObj? && !Truthy(SleepDto(sleep).value) ==> r == Ok(NoSleep)
  {
    if !Truthy(sleep) then Ok(NoSleep)
    else
      var dto :- SleepDto(sleep);
      if !Truthy(dto) then Ok(NoSleep)
      else if !dto.JObj? then Raised
      else SleepFromDto(dto, clock)
  }

  /** Sleep efficiency is the share of the night not spent awake, rounded to a
      whole percent, with a missing awake time counting as 0: between 0 and 100
      when the awake time is at most the total, and `None` when the total is
      missing or not positive. */
  lemma EfficiencyShare(dto: Json, total: Json)
    requires dto.JObj? && Efficiency(dto, total).Ok?
    ensures var e := Efficiency(dto, total).value;
      var awake := Or(Field(dto, "awakeSleepSeconds"), JNum(0.0));
      && (!Truthy(total) || (total.JNum? && total.n < 0.0) ==> e == JNull)
      && (total.JNum? && total.n > 0.0 ==>
            (awake.JNum?
             && e == JNum(RoundHalfEven((total.n - awake.n) / total.n * 100.0) as real)
             && (0.0 <= awake.n <= total.n ==> 0.0 <= e.n <= 100.0)))
  {
    var awake := Or(Field(dto, "awakeSleepSeconds"), JNum(0.0));
    if total.JNum? && total.n > 0.0 && 0.0 <= awake.n <= total.n {
      EfficiencyBounds(total.n, awake.n);
    }
  }

  lemma EfficiencyBounds(t: real, a: real)
    requires 0.0 <= a <= t && t > 0.0
    ensures 0 <= RoundHalfEven((t - a) / t * 100.0) <= 100
  {
    var e := (t - a) / t * 100.0;
    assert 0.0 <= (t - a) / t <= 1.0;
    assert 0.0 <= e <= 100.0;
  }

  /** Sleep length is the total in whole minutes, within half a minute, and
      stays `None` when the total is falsy. */
  lemma LengthMinutes(total: Json)
    requires SleepLength(total).Ok?
    ensures !Truthy(total) ==> SleepLength(total).value == JNull
    ensures Truthy(total) ==>
      (total.JNum? && SleepLength(total).value == JNum(RoundHalfEven(total.n / 60.0) as real)
       && total.n / 60.0 - 0.5 <= SleepLength(total).value.n <= total.n / 60.0 + 0.5)
  {
  }

  /** A night of 25200 s with 600 s awake: efficiency 98, length 420 min. */
  lemma SleepExample()
    ensures RoundHalfEven((25200.0 - 600.0) / 25200.0 * 100.0) == 98
    ensures RoundHalfEven(25200.0 / 60.0) == 420
  {
    assert (25200.0 - 600.0) / 25200.0 * 100.0 == 2460000.0 / 25200.0;
    assert 97.5 < 2460000.0 / 25200.0 < 98.0;
  }

  // ---------------------------------------------------------------- HRV

  /** `hrvSummary`'s last-night average and status, when the payload has one. */
  function HrvOf(hrv: Json): (r: Result<HrvInfo>)
    ensures !Truthy(hrv) ==> r == Ok(NoHrv)
    ensures hrv.JObj? && "hrvSummary" !in Keys(hrv.members) ==> r == Ok(NoHrv)
    ensures hrv.JObj? && "hrvSummary" in Keys(hrv.members) ==>
      (r.Ok? <==> Index(hrv, "hrvSummary").value.JObj?)
    ensures hrv.JObj? && "hrvSummary" in Keys(hrv.members) && r.Ok? ==>
      var summary := Index(hrv, "hrvSummary").value;
      summary.JObj? && r.value == HrvInfo(Field(summary, "lastNightAvg"), Field(summary, "status"))
  {
    if !Truthy(hrv) then Ok(NoHrv)
    else
      var has :- In("hrvSummary", hrv);
      if !has then Ok(NoHrv)
      else
        var summary :- Index(hrv, "hrvSummary");
        if !summary.JObj? then Raised
        else Ok(HrvInfo(Field(summary, "lastNightAvg"), Field(summary, "status")))
  }

  // ---------------------------------------------------------------- stats and body

  /** Weight in kilograms (from grams) when truthy, body fat and BMI as given. */
  function StatsOf(stats: Json): (r: Result<BodyInfo>)
    ensures !Truthy(stats) ==> r == Ok(NoBody)
    ensures r.Ok? && stats.JObj? && Truthy(stats) ==> r.value.bodyFat == Field(stats, "bodyFat") && r.value.bmi == Field(stats, "bmi")
    ensures r.Ok? && stats.JObj? && Truthy(stats) && Field(stats, "weight").JNum? && Field(stats, "weight").n != 0.0 ==>
      r.value.weight == JNum(Field(stats, "weight").n / 1000.0)
  {
    if !Truthy(stats) then Ok(NoBody)
    else if !stats.JObj? then Raised
    else
      var w := Field(stats, "weight");
      var weight :- if Truthy(w) then (var g :- Num(w); Ok(JNum(g / 1000.0))) else Ok(JNull);
      Ok(BodyInfo(weight, Field(stats, "bodyFat"), Field(stats, "bmi")))
  }

  // ---------------------------------------------------------------- blood pressure

  /** `[r[k]]` when `r.get(k)` is truthy, else nothing. */
  function Kept(x: Json, k: string): seq<Json>
    requires x.JObj?
  {
    if Truthy(Field(x, k)) then [Field(x, k)] else []
  }

  /** `[r[k] for r in readings if r.get(k)]`: raises on a reading that is not a dict. */
  function Readings(rs: seq<Json>, k: string): (r: Result<seq<Json>>)
    ensures r.Ok? <==> forall i :: 0 <= i < |rs| ==> rs[i].JObj?
  {
    if rs == [] then Ok([])
    else
      var init := rs[..|rs| - 1];
      assert forall i :: 0 <= i < |init| ==> init[i] == rs[i];
      var done :- Readings(init, k);
      var x := rs[|rs| - 1];
      if !x.JObj? then Raised
      else if Truthy(Field(x, k)) then Ok(done + [Index(x, k).value])
      else Ok(done)
  }

  /** The truthy values under `k` of a list of reading dicts, front to back. */
  function Qualifying(rs: seq<Json>, k: string): seq<Json>
    requires forall i :: 0 <= i < |rs| ==> rs[i].JObj?
  {
    if rs == [] then [] else Kept(rs[0], k) + Qualifying(rs[1..], k)
  }

  lemma {:induction false} QualifyingSnoc(rs: seq<Json>, k: string)
    requires rs != [] && forall i :: 0 <= i < |rs| ==> rs[i].JObj?
    ensures Qualifying(rs, k) == Qualifying(rs[..|rs| - 1], k) + Kept(rs[|rs| - 1], k)
  {
    if |rs| > 1 {
      assert rs[1..][..|rs[1..]| - 1] == rs[..|rs| - 1][1..];
      QualifyingSnoc(rs[1..], k);
    }
  }

  /** The collected values are exactly the truthy ones, in reading order: a
      zero or missing value is left out. */
  lemma {:induction false} ReadingsQualify(rs: seq<Json>, k: string)
    requires forall i :: 0 <= i < |rs| ==> rs[i].JObj?
    ensures Readings(rs, k) == Ok(Qualifying(rs, k))
  {
    if rs != [] {
      var init, x := rs[..|rs| - 1], rs[|rs| - 1];
      assert forall i :: 0 <= i < |init| ==> init[i] == rs[i];
      ReadingsQualify(init, k);
      QualifyingSnoc(rs, k);
      if Truthy(Field(x, k)) {
        assert Index(x, k).value == Field(x, k);
        assert Readings(rs, k) == Ok(Qualifying(init, k) + Kept(x, k));
      } else {
        assert Qualifying(init, k) + Kept(x, k) == Qualifying(init, k);
      }
    }
  }

  lemma {:induction false} QualifyingTruthy(rs: seq<Json>, k: string)
    requires forall i :: 0 <= i < |rs| ==> rs[i].JObj?
    ensures Qualifying(rs, k) == [] <==> forall i :: 0 <= i < |rs| ==> !Truthy(Field(rs[i], k))
  {
    if rs != [] {
      QualifyingTruthy(rs[1..], k);
      assert forall i :: 1 <= i < |rs| ==> rs[i] == rs[1..][i - 1];
    }
  }

  /** The numbers of a list that must hold only numbers (`statistics.mean`
      raises a TypeError otherwise). */
  function Nums(vs: seq<Json>): (r: Result<seq<real>>)
    ensures r.Ok? <==> forall i :: 0 <= i < |vs| ==> vs[i].JNum?
    ensures r.Ok? ==> |r.value| == |vs| && forall i :: 0 <= i < |vs| ==> r.value[i] == vs[i].n
  {
    if vs == [] then Ok([])
    else
      var init := vs[..|vs| - 1];
      assert forall i :: 0 <= i < |init| ==> init[i] == vs[i];
      var done :- Nums(init);
      var x :- Num(vs[|vs| - 1]);
      Ok(done + [x])
  }

  /** `int(round(mean(values)))` when there are values, else `None`. */
  function MeanCell(vs: seq<Json>): (r: Result<Json>)
    ensures vs == [] ==> r == Ok(JNull)
  {
    if vs == [] then Ok(JNull)
    else
      var xs :- Nums(vs);
      Ok(JNum(RoundHalfEven(Mean(xs)) as real))
  }

  /** The mean of whole-number readings between `lo` and `hi`, rounded, stays
      between `lo` and `hi`. */
  lemma MeanCellBounds(vs: seq<Json>, lo: int, hi: int)
    requires vs != []
    requires forall i :: 0 <= i < |vs| ==> vs[i].JNum? && lo as real <= vs[i].n <= hi as real
    ensures MeanCell(vs).Ok? && MeanCell(vs).value.JNum?
    ensures lo as real <= MeanCell(vs).value.n <= hi as real
  {
    var xs := Nums(vs).value;
    MeanBetween(xs, lo as real, hi as real);
    RoundWithin(Mean(xs), lo, hi);
  }

  lemma RoundWithin(x: real, lo: int, hi: int)
    requires lo as real <= x <= hi as real
    ensures lo <= RoundHalfEven(x) <= hi
  {
  }

  /** The blood-pressure section: systolic and diastolic means of the day's
      readings, each over its own truthy values. */
  function BpOf(bp: Json): (r: Result<PressureInfo>)
    ensures !Truthy(bp) ==> r == Ok(NoPressure)
  {
    if !Truthy(bp) then Ok(NoPressure)
    else
      var has :- In("userDailyBloodPressureDTOList", bp);
      if !has then Ok(NoPressure)
      else
        var readings :- Index(bp, "userDailyBloodPressureDTOList");
        if !Truthy(readings) then Ok(NoPressure)
        else
          var rs :- Iter(readings);
          Means(rs)
  }

  /** The two means over the readings `rs`. */
  function Means(rs: seq<Json>): Result<PressureInfo>
  {
    var sys :- Readings(rs, "systolic");
    var dia :- Readings(rs, "diastolic");
    var systolic :- MeanCell(sys);
    var diastolic :- MeanCell(dia);
    Ok(PressureInfo(systolic, diastolic))
  }

  lemma BpOfList(bp: Json, rs: seq<Json>)
    requires bp.JObj? && Lookup(bp.members, "userDailyBloodPressureDTOList") == Some(JArr(rs)) && rs != []
    ensures BpOf(bp) == Means(rs)
  {
    assert In("userDailyBloodPressureDTOList", bp) == Ok(true);
    assert Index(bp, "userDailyBloodPressureDTOList") == Ok(JArr(rs));
  }

  lemma MeansQualifying(rs: seq<Json>)
    requires forall i :: 0 <= i < |rs| ==> rs[i].JObj?
    ensures Means(rs) ==
      var sys :- MeanCell(Qualifying(rs, "systolic"));
      var dia :- MeanCell(Qualifying(rs, "diastolic"));
      Ok(PressureInfo(sys, dia))
  {
    ReadingsQualify(rs, "systolic");
    ReadingsQualify(rs, "diastolic");
  }

  /** For a non-empty list of reading dicts whose truthy values are numbers
      between `lo` and `hi`, each figure is `None` exactly when no reading has a
      truthy value for it, and otherwise the rounded mean of those values
      (`MeansQualifying`), which stays between `lo` and `hi`. */
  lemma BpMeans(bp: Json, rs: seq<Json>, lo: int, hi: int)
    requires bp.JObj? && Lookup(bp.members, "userDailyBloodPressureDTOList") == Some(JArr(rs))
    requires rs != [] && forall i :: 0 <= i < |rs| ==> rs[i].JObj?
    requires forall i :: 0 <= i < |rs| ==> InRange(Field(rs[i], "systolic"), lo, hi)
    requires forall i :: 0 <= i < |rs| ==> InRange(Field(rs[i], "diastolic"), lo, hi)
    ensures BpOf(bp).Ok?
    ensures var p := BpOf(bp).value;
      && (p.systolic == JNull <==> forall i :: 0 <= i < |rs| ==> !Truthy(Field(rs[i], "systolic")))
      && (p.diastolic == JNull <==> forall i :: 0 <= i < |rs| ==> !Truthy(Field(rs[i], "diastolic")))
      && (p.systolic != JNull ==> p.systolic.JNum? && lo as real <= p.systolic.n <= hi as real)
      && (p.diastolic != JNull ==> p.diastolic.JNum? && lo as real <= p.diastolic.n <= hi as real)
  {
    BpOfList(bp, rs);
    MeansQualifying(rs);
    QualifyingInRange(rs, "systolic", lo, hi);
    QualifyingInRange(rs, "diastolic", lo, hi);
    BpFigure(rs, "systolic", lo, hi);
    BpFigure(rs, "diastolic", lo, hi);
  }

  /** A falsy value, or a number between `lo` and `hi`. */
  predicate InRange(v: Json, lo: int, hi: int)
  {
    Truthy(v) ==> v.JNum? && lo as real <= v.n <= hi as real
  }

  lemma {:induction false} QualifyingInRange(rs: seq<Json>, k: string, lo: int, hi: int)
    requires forall i :: 0 <= i < |rs| ==> rs[i].JObj?
    requires forall i :: 0 <= i < |rs| ==> InRange(Field(rs[i], k), lo, hi)
    ensures forall i :: 0 <= i < |Qualifying(rs, k)| ==>
      Qualifying(rs, k)[i].JNum? && lo as real <= Qualifying(rs, k)[i].n <= hi as real
  {
    if rs != [] {
      QualifyingInRange(rs[1..], k, lo, hi);
      assert InRange(Field(rs[0], k), lo, hi);
      var head, q := Kept(rs[0], k), Qualifying(rs, k);
      forall i | 0 <= i < |q| ensures q[i].JNum? && lo as real <= q[i].n <= hi as real {
        if i >= |head| {
          assert q[i] == Qualifying(rs[1..], k)[i - |head|];
        }
      }
    }
  }

  lemma BpFigure(rs: seq<Json>, k: string, lo: int, hi: int)
    requires forall i :: 0 <= i < |rs| ==> rs[i].JObj?
    requires forall i :: 0 <= i < |Qualifying(rs, k)| ==>
      Qualifying(rs, k)[i].JNum? && lo as real <= Qualifying(rs, k)[i].n <= hi as real
    ensures MeanCell(Qualifying(rs, k)).Ok?
    ensures var cell := MeanCell(Qualifying(rs, k)).value;
      && (cell == JNull <==> forall i :: 0 <= i < |rs| ==> !Truthy(Field(rs[i], k)))
      && (cell != JNull ==> cell.JNum? && lo as real <= cell.n <= hi as real)
  {
    QualifyingTruthy(rs, k);
    if Qualifying(rs, k) != [] {
      MeanCellBounds(Qualifying(rs, k), lo, hi);
    }
  }

  // ---------------------------------------------------------------- daily summary

  /** `round(float(raw_floors))`, keeping the raw value where `float` raises a
      ValueError or TypeError (or `round` meets a NaN); an infinity makes
      `round` raise an OverflowError, which nothing here catches. */
  function Floors(raw: Json, parseFloat: string -> FloatText): (r: Result<Json>)
    ensures raw == JNull ==> r == Ok(JNull)
    ensures raw.JNum? ==> r == Ok(JNum(RoundHalfEven(raw.n) as real))
    ensures raw.JArr? || raw.JObj? ==> r == Ok(raw)
  {
    match raw
    case JNull => Ok(JNull)
    case JNum(x) => Ok(JNum(RoundHalfEven(x) as real))
    case JStr(s) =>
      (match parseFloat(s)
       case Finite(x) => Ok(JNum(RoundHalfEven(x) as real))
       case NotFloat => Ok(raw)
       case NotANumber => Ok(raw)
       case Infinite => Raised)
    case _ => Ok(raw)
  }

  /** `(summary.get(k, 0) or 0)`, which must be a number. */
  function Minutes(summary: Json, k: string): Result<real>
    requires summary.JObj?
  {
    Num(Or(GetOr(summary, k, JNum(0.0)).value, JNum(0.0)))
  }

  /** The user summary section, with the body-battery extremes. */
  function SummaryOf(summary: Json, parseFloat: string -> FloatText): (r: Result<SummaryInfo>)
    ensures !Truthy(summary) ==> r == Ok(NoSummary)
    ensures r.Ok? && summary.JObj? && Truthy(summary) ==>
      && r.value.intensityMinutes.JNum?
      && r.value.bodyBatteryMax == Field(summary, "bodyBatteryHighestValue")
      && r.value.bodyBatteryMin == Field(summary, "bodyBatteryLowestValue")
    ensures r.Ok? && summary.JObj? && Truthy(summary) ==>
      && r.value.activeCalories == Field(summary, "activeKilocalories")
      && r.value.restingCalories == Field(summary, "bmrKilocalories")
      && r.value.restingHeartRate == Field(summary, "restingHeartRate")
      && r.value.averageStress == Field(summary, "averageStressLevel")
      && r.value.steps == Field(summary, "totalSteps")
    ensures r.Ok? && summary.JObj? && Truthy(summary) ==>
      && r.value.restStress == Field(summary, "restStressDuration")
      && r.value.lowStress == Field(summary, "lowStressDuration")
      && r.value.mediumStress == Field(summary, "mediumStressDuration")
      && r.value.highStress == Field(summary, "highStressDuration")
  {
    if !Truthy(summary) then Ok(NoSummary)
    else if !summary.JObj? then Raised
    else
      var moderate :- Minutes(summary, "moderateIntensityMinutes");
      var vigorous :- Minutes(summary, "vigorousIntensityMinutes");
      var floors :- Floors(Or(Field(summary, "floorsAscended"), Field(summary, "floorsClimbed")), parseFloat);
      Ok(SummaryInfo(
        Field(summary, "activeKilocalories"), Field(summary, "bmrKilocalories"),
        JNum(moderate + 2.0 * vigorous),
        Field(summary, "restingHeartRate"), Field(summary, "averageStressLevel"),
        Field(summary, "totalSteps"), floors,
        Field(summary, "restStressDuration"), Field(summary, "lowStressDuration"),
        Field(summary, "mediumStressDuration"), Field(summary, "highStressDuration"),
        Field(summary, "bodyBatteryHighestValue"), Field(summary, "bodyBatteryLowestValue")))
  }

  /** Intensity minutes count vigorous minutes double, a missing or `None`
      figure counting as 0. */
  lemma Intensity(summary: Json, parseFloat: string -> FloatText, moderate: Json, vigorous: Json)
    requires summary.JObj? && Truthy(summary) && SummaryOf(summary, parseFloat).Ok?
    requires moderate == Field(summary, "moderateIntensityMinutes") && vigorous == Field(summary, "vigorousIntensityMinutes")
    requires (moderate == JNull || moderate.JNum?) && (vigorous == JNull || vigorous.JNum?)
    ensures SummaryOf(summary, parseFloat).value.intensityMinutes ==
      JNum((if moderate == JNull then 0.0 else moderate.n) + 2.0 * (if vigorous == JNull then 0.0 else vigorous.n))
  {
    IntensityOf(summary, parseFloat, Minutes(summary, "moderateIntensityMinutes"), Minutes(summary, "vigorousIntensityMinutes"));
    MinutesOf(summary, "moderateIntensityMinutes");
    MinutesOf(summary, "vigorousIntensityMinutes");
  }

  lemma IntensityOf(summary: Json, parseFloat: string -> FloatText, a: Result<real>, b: Result<real>)
    requires summary.JObj? && Truthy(summary) && SummaryOf(summary, parseFloat).Ok?
    requires a == Minutes(summary, "moderateIntensityMinutes") && b == Minutes(summary, "vigorousIntensityMinutes")
    ensures a.Ok? && b.Ok? && SummaryOf(summary, parseFloat).value.intensityMinutes == JNum(a.value + 2.0 * b.value)
  {
    SummaryParts(summary, parseFloat);
  }

  /** `floorsAscended` wins when truthy; otherwise `floorsClimbed` is used. */
  lemma FloorsSource(summary: Json, parseFloat: string -> FloatText)
    requires summary.JObj? && Truthy(summary) && SummaryOf(summary, parseFloat).Ok?
    ensures var up := Field(summary, "floorsAscended");
      SummaryOf(summary, parseFloat).value.floorsClimbed ==
        Floors(if Truthy(up) then up else Field(summary, "floorsClimbed"), parseFloat).value
  {
    SummaryParts(summary, parseFloat);
  }

  /** The parts of a summary that parses: both minute counts and the floors. */
  lemma SummaryParts(summary: Json, parseFloat: string -> FloatText)
    requires summary.JObj? && Truthy(summary) && SummaryOf(summary, parseFloat).Ok?
    ensures var moderate, vigorous := Minutes(summary, "moderateIntensityMinutes"), Minutes(summary, "vigorousIntensityMinutes");
      var floors := Floors(Or(Field(summary, "floorsAscended"), Field(summary, "floorsClimbed")), parseFloat);
      && moderate.Ok? && vigorous.Ok? && floors.Ok?
      && SummaryOf(summary, parseFloat).value.intensityMinutes == JNum(moderate.value + 2.0 * vigorous.value)
      && SummaryOf(summary, parseFloat).value.floorsClimbed == floors.value
  {
  }

  /** A minute count that is a number or `None` counts as itself or 0. */
  lemma MinutesOf(summary: Json, k: string)
    requires summary.JObj? && (Field(summary, k) == JNull || Field(summary, k).JNum?)
    ensures Minutes(summary, k) == Ok(if Field(summary, k) == JNull then 0.0 else Field(summary, k).n)
  {
  }

  // ---------------------------------------------------------------- training status

  /** The feedback phrase of the first device in `latestTrainingStatusData`. */
  function FirstPhrase(ts: Json): (r: Result<Json>)
    ensures ts.JObj? && ts.members != [] ==> r == Get(ts.members[0].value, "trainingStatusFeedbackPhrase")
  {
    var devices :- ValuesOf(ts);
    if devices == [] then Ok(JNull) else Get(devices[0], "trainingStatusFeedbackPhrase")
  }

  /** `d['k'].get('vo2MaxValue')` when `d.get('k')` is truthy. */
  function Vo2Max(mr: Json, k: string): (r: Result<Json>)
    requires mr.JObj?
    ensures !Truthy(Field(mr, k)) ==> r == Ok(JNull)
    ensures Truthy(Field(mr, k)) ==> (r.Ok? <==> Field(mr, k).JObj?)
    ensures r.Ok? && Truthy(Field(mr, k)) ==>
      r.value == match Lookup(Field(mr, k).members, "vo2MaxValue") case Some(x) => x case None => JNull
  {
    var entry := Field(mr, k);
    if Truthy(entry) then Get(entry, "vo2MaxValue") else Ok(JNull)
  }

  /** The training-status section. */
  function TrainingOf(training: Json): (r: Result<TrainingInfo>)
    ensures !Truthy(training) ==> r == Ok(NoTraining)
    ensures r.Ok? && Truthy(training) ==>
      training.JObj? && GetOr(training, "mostRecentVO2Max", JObj([])).value.JObj?
    ensures r.Ok? && Truthy(training) ==> var mr := GetOr(training, "mostRecentVO2Max", JObj([])).value;
      && (if Truthy(Field(mr, "generic")) then Get(Field(mr, "generic"), "vo2MaxValue") == Ok(r.value.vo2maxRunning)
          else r.value.vo2maxRunning == JNull)
      && (if Truthy(Field(mr, "cycling")) then Get(Field(mr, "cycling"), "vo2MaxValue") == Ok(r.value.vo2maxCycling)
          else r.value.vo2maxCycling == JNull)
  {
    if !Truthy(training) then Ok(NoTraining)
    else if !training.JObj? then Raised
    else
      var mr := GetOr(training, "mostRecentVO2Max", JObj([])).value;
      if !mr.JObj? then Raised
      else
        var run :- Vo2Max(mr, "generic");
        var cycle :- Vo2Max(mr, "cycling");
        var mrs := GetOr(training, "mostRecentTrainingStatus", JObj([])).value;
        var ts :- GetOr(mrs, "latestTrainingStatusData", JObj([]));
        var phrase :- if Truthy(ts) then FirstPhrase(ts) else Ok(JNull);
        Ok(TrainingInfo(run, cycle, phrase))
  }

  /** The status is read from the first device only, whatever the others say. */
  lemma FirstDevicePhrase(training: Json, ts: Json)
    requires training.JObj? && TrainingOf(training).Ok?
    requires ts == GetOr(GetOr(training, "mostRecentTrainingStatus", JObj([])).value, "latestTrainingStatusData", JObj([])).value
    requires ts.JObj? && ts.members != [] && ts.members[0].value.JObj?
    ensures TrainingOf(training).value.status == Field(ts.members[0].value, "trainingStatusFeedbackPhrase")
  {
    assert Truthy(training) && Truthy(ts);
    assert TrainingOf(training).value.status == FirstPhrase(ts).value;
  }

  // ---------------------------------------------------------------- the whole day

  /** The body of the outer `try`: every section, or `Raised`. */
  function Fields(d: CalendarDate, p: Payloads, host: Host): Result<DailyRecord>
  {
    Assemble(d, SleepOf(Unpack(p.sleep), host.clock), HrvOf(Unpack(p.hrv)),
             ActivitiesOf(Unpack(p.activities), d, p.hrZones, host.fmt),
             StatsOf(Unpack(p.stats)), BpOf(Unpack(p.bp)),
             SummaryOf(Unpack(p.summary), host.parseFloat), TrainingOf(Unpack(p.training)))
  }

  /** The sections taken in the order of the source, the first that raised
      ending the `try`. */
  function Assemble(d: CalendarDate, sleep: Result<SleepInfo>, hrv: Result<HrvInfo>, activities: Result<seq<Dict>>,
                    body: Result<BodyInfo>, pressure: Result<PressureInfo>, summary: Result<SummaryInfo>,
                    training: Result<TrainingInfo>): (r: Result<DailyRecord>)
    ensures r.Raised? <==> sleep.Raised? || hrv.Raised? || activities.Raised? || body.Raised?
                           || pressure.Raised? || summary.Raised? || training.Raised?
    ensures r.Ok? ==> r.value == DailyRecord(d, sleep.value, hrv.value, body.value, pressure.value,
                                             summary.value, training.value, JNull, JNull, activities.value)
  {
    var s :- sleep;
    var h :- hrv;
    var a :- activities;
    var b :- body;
    var bp :- pressure;
    var su :- summary;
    var t :- training;
    Ok(DailyRecord(d, s, h, b, bp, su, t, JNull, JNull, a))
  }

  /** `get_metrics(target_date)` after the fetch: the record of the day, or
      the date-only record when something raised. */
  function Extract(d: CalendarDate, p: Payloads, host: Host): (m: DailyRecord)
    ensures m.date == d
  {
    match Fields(d, p, host)
    case Ok(m) => m
    case Raised => DateOnly(d)
  }

  /** The extraction, section by section, with the activities loop. */
  method GetMetrics(d: CalendarDate, p: Payloads, host: Host) returns (m: DailyRecord)
    ensures m == Extract(d, p, host)
  {
    m := DateOnly(d);
    var sleep := SleepOf(Unpack(p.sleep), host.clock);
    if sleep.Raised? { return; }
    var hrv := HrvOf(Unpack(p.hrv));
    if hrv.Raised? { return; }
    var activities := ProcessActivities(Unpack(p.activities), d, p.hrZones, host.fmt);
    if activities.Raised? { return; }
    var body := StatsOf(Unpack(p.stats));
    if body.Raised? { return; }
    var pressure := BpOf(Unpack(p.bp));
    if pressure.Raised? { return; }
    var summary := SummaryOf(Unpack(p.summary), host.parseFloat);
    if summary.Raised? { return; }
    var training := TrainingOf(Unpack(p.training));
    if training.Raised? { return; }
    m := DailyRecord(d, sleep.value, hrv.value, body.value, pressure.value, summary.value, training.value,
                     JNull, JNull, activities.value);
  }

  /** A section whose fetch failed leaves its fields `None` in the record,
      whether or not another part of the day raised. */
  lemma FailedSectionStaysNone(d: CalendarDate, p: Payloads, host: Host)
    ensures p.sleep.FetchFailed? ==> Extract(d, p, host).sleep == NoSleep
    ensures p.hrv.FetchFailed? ==> Extract(d, p, host).hrv == NoHrv
    ensures p.stats.FetchFailed? ==> Extract(d, p, host).body == NoBody
    ensures p.bp.FetchFailed? ==> Extract(d, p, host).pressure == NoPressure
    ensures p.summary.FetchFailed? ==> Extract(d, p, host).summary == NoSummary
    ensures p.training.FetchFailed? ==> Extract(d, p, host).training == NoTraining
    ensures p.activities.FetchFailed? ==> Extract(d, p, host).activities == []
  {
    if Fields(d, p, host).Ok? {
      FieldsSections(d, p, host);
    }
  }

  /** A day whose sections all parse keeps each parsed section. */
  lemma FieldsSections(d: CalendarDate, p: Payloads, host: Host)
    requires Fields(d, p, host).Ok?
    ensures var m := Extract(d, p, host);
      && m.sleep == SleepOf(Unpack(p.sleep), host.clock).value
      && m.hrv == HrvOf(Unpack(p.hrv)).value
      && m.body == StatsOf(Unpack(p.stats)).value
      && m.pressure == BpOf(Unpack(p.bp)).value
      && m.summary == SummaryOf(Unpack(p.summary), host.parseFloat).value
      && m.training == TrainingOf(Unpack(p.training)).value
      && m.activities == ActivitiesOf(Unpack(p.activities), d, p.hrZones, host.fmt).value
  {
  }

  /** When some section raises, the record is date-only; the sections taken
      together raise exactly when one of them does; otherwise the record keeps
      what the sections computed. */
  lemma RaisingSectionGivesDateOnly(d: CalendarDate, p: Payloads, host: Host)
    ensures Fields(d, p, host).Raised? ==> Extract(d, p, host) == DateOnly(d)
    ensures Fields(d, p, host).Raised? <==>
      || SleepOf(Unpack(p.sleep), host.clock).Raised?
      || HrvOf(Unpack(p.hrv)).Raised?
      || ActivitiesOf(Unpack(p.activities), d, p.hrZones, host.fmt).Raised?
      || StatsOf(Unpack(p.stats)).Raised?
      || BpOf(Unpack(p.bp)).Raised?
      || SummaryOf(Unpack(p.summary), host.parseFloat).Raised?
      || TrainingOf(Unpack(p.training)).Raised?
    ensures Fields(d, p, host).Ok? ==>
      && Extract(d, p, host).sleep == SleepOf(Unpack(p.sleep), host.clock).value
      && Extract(d, p, host).activities == ActivitiesOf(Unpack(p.activities), d, p.hrZones, host.fmt).value
  {
  }
}
