/** The canonical per-day record (`GarminMetrics`), grouped by the payload
    section each field comes from. Every field is a Python value; `JNull` is
    `None`, the value of a field the source did not provide. */
module Metrics {
  import opened PyValues
  import opened Dates

  /** From the sleep payload's `dailySleepDTO`. */
  datatype SleepInfo = SleepInfo(
    score: Json, need: Json, efficiency: Json, length: Json,
    start: Json, end: Json,
    deep: Json, light: Json, rem: Json, awake: Json,
    respiration: Json, pulseOx: Json)

  /** From the HRV payload's `hrvSummary`. */
  datatype HrvInfo = HrvInfo(overnight: Json, status: Json)

  /** From the stats-and-body payload. */
  datatype BodyInfo = BodyInfo(weight: Json, bodyFat: Json, bmi: Json)

  /** From the blood-pressure payload. */
  datatype PressureInfo = PressureInfo(systolic: Json, diastolic: Json)

  /** From the user summary payload. */
  datatype SummaryInfo = SummaryInfo(
    activeCalories: Json, restingCalories: Json, intensityMinutes: Json,
    restingHeartRate: Json, averageStress: Json, steps: Json, floorsClimbed: Json,
    restStress: Json, lowStress: Json, mediumStress: Json, highStress: Json,
    bodyBatteryMax: Json, bodyBatteryMin: Json)

  /** From the training-status payload. */
  datatype TrainingInfo = TrainingInfo(vo2maxRunning: Json, vo2maxCycling: Json, status: Json)

  datatype DailyRecord = DailyRecord(
    date: CalendarDate,
    sleep: SleepInfo,
    hrv: HrvInfo,
    body: BodyInfo,
    pressure: PressureInfo,
    summary: SummaryInfo,
    training: TrainingInfo,
    lactateThresholdBpm: Json,
    lactateThresholdPace: Json,
    activities: seq<Dict>)

  const NoSleep := SleepInfo(JNull, JNull, JNull, JNull, JNull, JNull, JNull, JNull, JNull, JNull, JNull, JNull)
  const NoHrv := HrvInfo(JNull, JNull)
  const NoBody := BodyInfo(JNull, JNull, JNull)
  const NoPressure := PressureInfo(JNull, JNull)
  const NoSummary := SummaryInfo(JNull, JNull, JNull, JNull, JNull, JNull, JNull, JNull, JNull, JNull, JNull, JNull, JNull)
  const NoTraining := TrainingInfo(JNull, JNull, JNull)

  /** `GarminMetrics(date=d)`: every other field keeps its default, `None`
      (and no activities). */
  function DateOnly(d: CalendarDate): DailyRecord
  {
    DailyRecord(d, NoSleep, NoHrv, NoBody, NoPressure, NoSummary, NoTraining, JNull, JNull, [])
  }

  /** What `getattr(m, name, None)` yields: the date object itself for `date`,
      otherwise a Python value. */
  datatype Attribute = DateValue(d: CalendarDate) | PlainValue(v: Json)

  function Attr(m: DailyRecord, name: string): (r: Attribute)
    ensures r.DateValue? <==> name == "date"
    ensures r.DateValue? ==> r.d == m.date
  {
    match name
    case "date" => DateValue(m.date)
    case "sleep_score" => PlainValue(m.sleep.score)
    case "sleep_need" => PlainValue(m.sleep.need)
    case "sleep_efficiency" => PlainValue(m.sleep.efficiency)
    case "sleep_length" => PlainValue(m.sleep.length)
    case "sleep_start_time" => PlainValue(m.sleep.start)
    case "sleep_end_time" => PlainValue(m.sleep.end)
    case "sleep_deep" => PlainValue(m.sleep.deep)
    case "sleep_light" => PlainValue(m.sleep.light)
    case "sleep_rem" => PlainValue(m.sleep.rem)
    case "sleep_awake" => PlainValue(m.sleep.awake)
    case "overnight_respiration" => PlainValue(m.sleep.respiration)
    case "overnight_pulse_ox" => PlainValue(m.sleep.pulseOx)
    case "overnight_hrv" => PlainValue(m.hrv.overnight)
    case "hrv_status" => PlainValue(m.hrv.status)
    case "weight" => PlainValue(m.body.weight)
    case "body_fat" => PlainValue(m.body.bodyFat)
    case "bmi" => PlainValue(m.body.bmi)
    case "blood_pressure_systolic" => PlainValue(m.pressure.systolic)
    case "blood_pressure_diastolic" => PlainValue(m.pressure.diastolic)
    case "active_calories" => PlainValue(m.summary.activeCalories)
    case "resting_calories" => PlainValue(m.summary.restingCalories)
    case "intensity_minutes" => PlainValue(m.summary.intensityMinutes)
    case "resting_heart_rate" => PlainValue(m.summary.restingHeartRate)
    case "average_stress" => PlainValue(m.summary.averageStress)
    case "steps" => PlainValue(m.summary.steps)
    case "floors_climbed" => PlainValue(m.summary.floorsClimbed)
    case "rest_stress_duration" => PlainValue(m.summary.restStress)
    case "low_stress_duration" => PlainValue(m.summary.lowStress)
    case "medium_stress_duration" => PlainValue(m.summary.mediumStress)
    case "high_stress_duration" => PlainValue(m.summary.highStress)
    case "body_battery_max" => PlainValue(m.summary.bodyBatteryMax)
    case "body_battery_min" => PlainValue(m.summary.bodyBatteryMin)
    case "vo2max_running" => PlainValue(m.training.vo2maxRunning)
    case "vo2max_cycling" => PlainValue(m.training.vo2maxCycling)
    case "training_status" => PlainValue(m.training.status)
    case "lactate_threshold_bpm" => PlainValue(m.lactateThresholdBpm)
    case "lactate_threshold_pace" => PlainValue(m.lactateThresholdPace)
    case "activities" => PlainValue(JArr(seq(|m.activities|, i requires 0 <= i < |m.activities| => JObj(m.activities[i]))))
    case _ => PlainValue(JNull)
  }
}
