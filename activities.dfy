/** Per-activity parsing inside `get_metrics`: start time, pace, cadence and
    power fallbacks, the heart-rate-zone map, and the loop that skips an
    activity whose parsing raises. */
module Activities {
  import opened PyValues
  import opened Numeric
  import opened Text
  import opened Dates

  // ---------------------------------------------------------------- start time and pace

  /** The `Time` cell: `start.split(' ')[1][:5]` when the start time is a
      string holding a space, `""` when it is missing or holds none. */
  function TimeOfDay(start: Json): (r: Result<string>)
    ensures !Truthy(start) ==> r == Ok("")
    ensures start.JStr? && ' ' !in start.s ==> r == Ok("")
    ensures start.JStr? && ' ' in start.s ==> r == Ok(Prefix(SecondField(start.s), 5))
  {
    if !Truthy(start) then Ok("")
    else
      var hasSpace :- In(" ", start);
      if !hasSpace then Ok("")
      else match start
        case JStr(s) => Ok(Prefix(SecondField(s), 5))
        case _ => Raised
  }

  /** `int(pace)`: whole minutes per kilometre. */
  function PaceMinutes(pace: real): (m: nat)
    requires pace > 0.0
    ensures m as real <= pace < m as real + 1.0
  {
    Trunc(pace)
  }

  /** `int((pace - int(pace)) * 60)`: the remaining whole seconds. */
  function PaceSeconds(pace: real): (sec: nat)
    requires pace > 0.0
    ensures sec < 60
    ensures PaceMinutes(pace) * 60 + sec == (pace * 60.0).Floor
  {
    var m := PaceMinutes(pace);
    var f := pace - m as real;
    var sec := Trunc(f * 60.0);
    assert 0.0 <= f < 1.0;
    assert sec as real <= f * 60.0 < sec as real + 1.0;
    assert (m * 60 + sec) as real <= pace * 60.0 < (m * 60 + sec) as real + 1.0;
    sec
  }

  /** The `Avg Pace (min/km)` cell, `M:SS`, produced only for a positive
      distance and a positive duration. It shows the pace truncated to whole
      seconds. */
  function Pace(durMin: real, distKm: real): (r: string)
    ensures r != "" <==> distKm > 0.0 && durMin > 0.0
    ensures distKm > 0.0 && durMin > 0.0 ==>
      r == NatToString(PaceMinutes(durMin / distKm)) + ":" + Digits(PaceSeconds(durMin / distKm), 2)
  {
    if distKm > 0.0 && durMin > 0.0 then
      var p := durMin / distKm;
      assert Pow10(2) == 100;
      ZeroPadFits(PaceSeconds(p), 2);
      NatToString(PaceMinutes(p)) + ":" + ZeroPad(PaceSeconds(p), 2)
    else ""
  }

  /** Five kilometres in 25 minutes is a pace of 5:00. */
  lemma PaceExample()
    ensures Pace(25.0, 5.0) == "5:00"
  {
    assert PaceMinutes(5.0) == 5;
    assert PaceSeconds(5.0) == 0;
    assert NatToString(5) == "5";
    assert Digits(0, 2) == "00";
  }

  // ---------------------------------------------------------------- heart-rate zones

  /** The outcome of one API call: what it returned, or that it raised. */
  datatype Fetch = FetchFailed | Fetched(payload: Json)

  const ZoneKeys: seq<string> := ["Zone 1 (min)", "Zone 2 (min)", "Zone 3 (min)", "Zone 4 (min)", "Zone 5 (min)"]

  /** `zones_dict` before any entry: the five zones at 0. */
  const EmptyZones: Dict := [
    Member("Zone 1 (min)", JNum(0.0)), Member("Zone 2 (min)", JNum(0.0)), Member("Zone 3 (min)", JNum(0.0)),
    Member("Zone 4 (min)", JNum(0.0)), Member("Zone 5 (min)", JNum(0.0))]

  /** `f"Zone {z_num} (min)"`; a fractional zone number is rendered by the host. */
  function ZoneKey(n: real, fmt: Format): (k: string)
    ensures |k| >= 5 && k[..5] == "Zone "
  {
    if n == 1.0 then ZoneKeys[0]
    else if n == 2.0 then ZoneKeys[1]
    else if n == 3.0 then ZoneKeys[2]
    else if n == 4.0 then ZoneKeys[3]
    else if n == 5.0 then ZoneKeys[4]
    else "Zone " + fmt.number(n) + " (min)"
  }

  /** One pass of `for z in hr_zones`; `Raised` stops the loop, and the zone
      handler keeps the dict as it stood. */
  function ZoneStep(zones: Dict, z: Json, fmt: Format): Result<Dict>
  {
    if !z.JObj? then Raised
    else
    var num := Get(z, "zoneNumber").value;
    var secs := GetOr(z, "secsInZone", JNum(0.0)).value;
    if !Truthy(num) then Ok(zones)
    else
      var n :- Num(num);
      if !(1.0 <= n <= 5.0) then Ok(zones)
      else
        var s :- Num(secs);
        Ok(Set(zones, ZoneKey(n, fmt), ZoneMinutes(s)))
  }

  /** `round(z_secs / 60, 2)`. */
  function ZoneMinutes(secs: real): Json
  {
    JNum(RoundTo(secs / 60.0, 2))
  }

  function ZonesFrom(zones: Dict, zs: seq<Json>, fmt: Format): Dict
    decreases |zs|
  {
    if zs == [] then zones
    else match ZoneStep(zones, zs[0], fmt)
      case Ok(next) => ZonesFrom(next, zs[1..], fmt)
      case Raised => zones
  }

  /** The zone map of one activity. */
  function ZonesOf(fetch: Fetch, fmt: Format): Dict
  {
    match fetch
    case FetchFailed => EmptyZones
    case Fetched(p) =>
      if !Truthy(p) then EmptyZones
      else match Iter(p)
        case Ok(zs) => ZonesFrom(EmptyZones, zs, fmt)
        case Raised => EmptyZones
  }

  /** The loop over `hr_zones`, updating `zones_dict` in place. */
  method ParseZones(fetch: Fetch, fmt: Format) returns (zones: Dict)
    ensures zones == ZonesOf(fetch, fmt)
  {
    zones := EmptyZones;
    if fetch.FetchFailed? || !Truthy(fetch.payload) {
      return;
    }
    var it := Iter(fetch.payload);
    if it.Raised? {
      return;
    }
    var zs := it.value;
    var i := 0;
    while i < |zs|
      invariant 0 <= i <= |zs|
      invariant ZonesFrom(zones, zs[i..], fmt) == ZonesOf(fetch, fmt)
    {
      var step := ZoneStep(zones, zs[i], fmt);
      if step.Raised? {
        return;
      }
      assert zs[i..][1..] == zs[i + 1..];
      zones := step.value;
      i := i + 1;
    }
  }

  /** A zone entry as the API sends it: a dict whose zone number, when
      present, is a whole number and whose seconds, when present, are a number. */
  predicate PlainZoneEntry(z: Json)
  {
    z.JObj?
    && (match Lookup(z.members, "zoneNumber")
        case None => true
        case Some(v) => v == JNull || (v.JNum? && v.n == v.n.Floor as real))
    && (match Lookup(z.members, "secsInZone")
        case None => true
        case Some(v) => v.JNum?)
  }

  predicate NamesZone(z: Json, k: int)
    requires z.JObj?
  {
    Lookup(z.members, "zoneNumber") == Some(JNum(k as real))
  }

  /** The minutes an entry assigns to zone `k`, when it names zone `k`. */
  function EntryFor(z: Json, k: int): Option<Json>
    requires PlainZoneEntry(z)
  {
    var secs := match Lookup(z.members, "secsInZone") case Some(v) => v.n case None => 0.0;
    if NamesZone(z, k) then Some(ZoneMinutes(secs)) else None
  }

  /** The value the last entry naming zone `k` assigns, if any entry does. */
  function LastFor(zs: seq<Json>, k: int): Option<Json>
    requires forall i :: 0 <= i < |zs| ==> PlainZoneEntry(zs[i])
  {
    if zs == [] then None
    else match LastFor(zs[1..], k)
      case Some(v) => Some(v)
      case None => EntryFor(zs[0], k)
  }


  lemma ZoneKeysDistinct(i: int, j: int)
    requires 0 <= i < 5 && 0 <= j < 5
    ensures ZoneKeys[i] == ZoneKeys[j] <==> i == j
  {
    if i != j {
      assert ZoneKeys[i][5] == "12345"[i] && ZoneKeys[j][5] == "12345"[j];
    }
  }

  lemma ZoneKeyWhole(j: int, fmt: Format)
    requires 1 <= j <= 5
    ensures ZoneKey(j as real, fmt) == ZoneKeys[j - 1]
  {
  }

  lemma StepUnfold(zones: Dict, z: Json, fmt: Format, j: int)
    requires z.JObj? && 1 <= j <= 5
    requires Get(z, "zoneNumber").value == JNum(j as real) && GetOr(z, "secsInZone", JNum(0.0)).value.JNum?
    ensures ZoneStep(zones, z, fmt) == Ok(Set(zones, ZoneKey(j as real, fmt), ZoneMinutes(GetOr(z, "secsInZone", JNum(0.0)).value.n)))
  {
    var num, secs := Get(z, "zoneNumber").value, GetOr(z, "secsInZone", JNum(0.0)).value;
    assert Truthy(num) && Num(num) == Ok(j as real) && 1.0 <= j as real <= 5.0;
    assert Num(secs) == Ok(secs.n);
  }

  /** An entry naming zone `j`, a whole number from 1 to 5, sets that zone. */
  lemma StepHit(zones: Dict, z: Json, fmt: Format, j: int)
    requires PlainZoneEntry(z) && 1 <= j <= 5
    requires NamesZone(z, j)
    ensures ZoneStep(zones, z, fmt) == Ok(Set(zones, ZoneKeys[j - 1], EntryFor(z, j).value))
  {
    var secs := GetOr(z, "secsInZone", JNum(0.0)).value;
    assert secs.JNum?;
    StepUnfold(zones, z, fmt, j);
    ZoneKeyWhole(j, fmt);
    assert EntryFor(z, j) == Some(ZoneMinutes(secs.n));
  }

  /** Any other plain entry leaves the map as it was. */
  lemma StepMiss(zones: Dict, z: Json, fmt: Format)
    requires PlainZoneEntry(z)
    requires forall j :: 1 <= j <= 5 ==> !NamesZone(z, j)
    ensures ZoneStep(zones, z, fmt) == Ok(zones)
  {
    var num := Get(z, "zoneNumber").value;
    if Truthy(num) && num.JNum? && 1.0 <= num.n <= 5.0 {
      var j := num.n.Floor;
      assert num.n == j as real;
      assert NamesZone(z, j);
    }
  }

  /** A plain entry never raises, keeps the five keys, and rewrites zone `k`
      exactly when it names zone `k`. */
  lemma PlainStep(zones: Dict, z: Json, fmt: Format, k: int)
    requires PlainZoneEntry(z) && Keys(zones) == ZoneKeys && 1 <= k <= 5
    ensures ZoneStep(zones, z, fmt).Ok?
    ensures Keys(ZoneStep(zones, z, fmt).value) == ZoneKeys
    ensures Lookup(ZoneStep(zones, z, fmt).value, ZoneKeys[k - 1]) ==
      match EntryFor(z, k) case Some(v) => Some(v) case None => Lookup(zones, ZoneKeys[k - 1])
  {
    if j :| 1 <= j <= 5 && NamesZone(z, j) {
      PlainHitKeys(zones, z, fmt, j);
      PlainHitLookup(zones, z, fmt, j, k);
    } else {
      StepMiss(zones, z, fmt);
    }
  }

  lemma PlainHitKeys(zones: Dict, z: Json, fmt: Format, j: int)
    requires PlainZoneEntry(z) && Keys(zones) == ZoneKeys && 1 <= j <= 5 && NamesZone(z, j)
    ensures ZoneStep(zones, z, fmt).Ok?
    ensures Keys(ZoneStep(zones, z, fmt).value) == ZoneKeys
  {
    StepHit(zones, z, fmt, j);
    assert ZoneKeys[j - 1] in Keys(zones);
  }

  lemma PlainHitLookup(zones: Dict, z: Json, fmt: Format, j: int, k: int)
    requires PlainZoneEntry(z) && 1 <= k <= 5 && 1 <= j <= 5 && NamesZone(z, j)
    ensures ZoneStep(zones, z, fmt).Ok?
    ensures Lookup(ZoneStep(zones, z, fmt).value, ZoneKeys[k - 1]) ==
      match EntryFor(z, k) case Some(v) => Some(v) case None => Lookup(zones, ZoneKeys[k - 1])
  {
    StepHit(zones, z, fmt, j);
    ZoneKeysDistinct(k - 1, j - 1);
  }

  /** With the entries the API sends, zone `k` ends up with the minutes of the
      last entry naming it; entries that name no zone or another zone leave it
      as it was, and the map keeps exactly its five keys. */
  lemma {:induction false} ZonesFromPlain(zones: Dict, zs: seq<Json>, fmt: Format, k: int)
    requires forall i :: 0 <= i < |zs| ==> PlainZoneEntry(zs[i])
    requires Keys(zones) == ZoneKeys && 1 <= k <= 5
    ensures Keys(ZonesFrom(zones, zs, fmt)) == ZoneKeys
    ensures Lookup(ZonesFrom(zones, zs, fmt), ZoneKeys[k - 1]) ==
      match LastFor(zs, k) case Some(v) => Some(v) case None => Lookup(zones, ZoneKeys[k - 1])
    decreases |zs|
  {
    if zs != [] {
      PlainStep(zones, zs[0], fmt, k);
      var next := ZoneStep(zones, zs[0], fmt).value;
      assert ZonesFrom(zones, zs, fmt) == ZonesFrom(next, zs[1..], fmt);
      ZonesFromPlain(next, zs[1..], fmt, k);
    }
  }

  /** The zone map of an activity whose zone fetch returned a list of plain
      entries: zone `k` holds the minutes of the last entry naming it, or 0; a
      failed or empty fetch leaves every zone at 0. */
  lemma ZonesOfPlainList(fetch: Fetch, fmt: Format, k: int)
    requires 1 <= k <= 5
    requires fetch.Fetched? && Truthy(fetch.payload) ==>
      fetch.payload.JArr? && forall i :: 0 <= i < |fetch.payload.items| ==> PlainZoneEntry(fetch.payload.items[i])
    ensures Keys(ZonesOf(fetch, fmt)) == ZoneKeys
    ensures Lookup(ZonesOf(fetch, fmt), ZoneKeys[k - 1]) ==
      if fetch.FetchFailed? || !Truthy(fetch.payload) then Some(JNum(0.0))
      else match LastFor(fetch.payload.items, k) case Some(v) => Some(v) case None => Some(JNum(0.0))
  {
    EmptyZonesLookup(k);
    if fetch.Fetched? && Truthy(fetch.payload) {
      assert ZonesOf(fetch, fmt) == ZonesFrom(EmptyZones, fetch.payload.items, fmt);
      ZonesFromPlain(EmptyZones, fetch.payload.items, fmt, k);
    } else {
      assert ZonesOf(fetch, fmt) == EmptyZones;
    }
  }

  /** Before any entry every zone is bound once, to 0. */
  lemma EmptyZonesLookup(k: int)
    requires 1 <= k <= 5
    ensures Keys(EmptyZones) == ZoneKeys
    ensures Lookup(EmptyZones, ZoneKeys[k - 1]) == Some(JNum(0.0))
  {
    assert forall j :: 0 <= j < 5 ==> EmptyZones[j].key == ZoneKeys[j];
    forall j | k <= j < 5 ensures EmptyZones[j].key != ZoneKeys[k - 1] {
      ZoneKeysDistinct(j, k - 1);
    }
    LookupBefore(EmptyZones, k, ZoneKeys[k - 1]);
  }

  // ---------------------------------------------------------------- one activity

  /** `int(v) if v else ""`. */
  function IntOrBlank(v: Json): Result<Json>
  {
    if Truthy(v) then IntOf(v) else Ok(JStr(""))
  }

  /** `round(v / scale, digits) if v else ""`. */
  function RoundOrBlank(v: Json, scale: real, digits: nat): Result<Json>
    requires scale > 0.0
  {
    if Truthy(v) then (var x :- Num(v); Ok(JNum(RoundTo(x / scale, digits)))) else Ok(JStr(""))
  }

  /** `avg_power`: `avgPower`, or `averageRunningPower` only when `avgPower` is None. */
  function AvgPower(a: Json): Json
    requires a.JObj?
  {
    var p := Field(a, "avgPower");
    if p == JNull then Field(a, "averageRunningPower") else p
  }

  /** `avg_cadence`: running cadence, or biking cadence when that is falsy. */
  function Cadence(a: Json): Json
    requires a.JObj?
  {
    var run := Field(a, "averageRunningCadenceInStepsPerMinute");
    if Truthy(run) then run else Field(a, "averageBikingCadenceInRevPerMinute")
  }

  function ActivityId(a: Json): Json
  {
    match Get(a, "activityId") case Ok(v) => v case Raised => JNull
  }

  /** The activity entry's column names. */
  const IdCol := "Activity ID"
  const DateCol := "Date"
  const TimeCol := "Time"
  const TypeCol := "Type"
  const NameCol := "Name"
  const DistanceCol := "Distance (km)"
  const DurationCol := "Duration (min)"
  const PaceCol := "Avg Pace (min/km)"
  const AvgHrCol := "Avg HR"
  const MaxHrCol := "Max HR"
  const CaloriesCol := "Calories"
  const CadenceCol := "Avg Cadence (spm)"
  const ElevationCol := "Elevation Gain (m)"
  const AerobicCol := "Aerobic TE"
  const AnaerobicCol := "Anaerobic TE"
  const PowerCol := "Avg Power"
  const GctCol := "GCT (ms)"
  const VertOscCol := "Vert Osc (cm)"
  const StrideCol := "Stride Len (m)"

  const IdentityKeys: seq<string> := [IdCol, DateCol, TimeCol, TypeCol, NameCol]
  const MeasureKeys: seq<string> := [
    DistanceCol, DurationCol, PaceCol, AvgHrCol, MaxHrCol, CaloriesCol, CadenceCol, ElevationCol, AerobicCol, AnaerobicCol]
  const DynamicsKeys: seq<string> := [PowerCol, GctCol, VertOscCol, StrideCol]

  /** `activityType.get('typeKey', 'Unknown')`, where a missing `activityType`
      stands for `{}`; an `activityType` that is present but not a dict has no
      `get` and raises. */
  function TypeKey(a: Json): (r: Result<Json>)
    requires a.JObj?
    ensures "activityType" !in Keys(a.members) ==> r == Ok(JStr("Unknown"))
    ensures "activityType" in Keys(a.members) ==> (r.Ok? <==> Field(a, "activityType").JObj?)
    ensures Field(a, "activityType").JObj? ==> var t := Field(a, "activityType");
      r == Ok(if "typeKey" in Keys(t.members) then Field(t, "typeKey") else JStr("Unknown"))
  {
    var atype := GetOr(a, "activityType", JObj([])).value;
    GetOr(atype, "typeKey", JStr("Unknown"))
  }

  /** Who and when: id, the day's ISO date, start time, type and name, in the
      columns `IdentityKeys` names, in that order. */
  function Identity(a: Json, d: CalendarDate): (r: Result<Dict>)
    requires a.JObj?
    ensures r.Ok? <==> TimeOfDay(Field(a, "startTimeLocal")).Ok? && TypeKey(a).Ok?
    ensures r.Ok? ==> Keys(r.value) == IdentityKeys
    ensures r.Ok? ==> (Values(r.value) ==
      [ActivityId(a), JStr(Iso(d)), JStr(TimeOfDay(Field(a, "startTimeLocal")).value), TypeKey(a).value,
       Field(a, "activityName")])
  {
    var time :- TimeOfDay(Field(a, "startTimeLocal"));
    var typeKey :- TypeKey(a);
    Ok(Cells(IdentityKeys, [ActivityId(a), JStr(Iso(d)), JStr(time), typeKey, Field(a, "activityName")]))
  }

  /** `(distance or 0) / 1000`: a falsy distance is 0 km, a number is scaled,
      anything else raises. */
  function DistanceKm(a: Json): (r: Result<real>)
    requires a.JObj?
    ensures !Truthy(Field(a, "distance")) ==> r == Ok(0.0)
    ensures Field(a, "distance").JNum? ==> r == Ok(Field(a, "distance").n / 1000.0)
    ensures r.Raised? <==> Truthy(Field(a, "distance")) && !Field(a, "distance").JNum?
  {
    var dist :- Num(Or(Field(a, "distance"), JNum(0.0)));
    Ok(dist / 1000.0)
  }

  /** `(duration or 0) / 60`, with the same three cases as the distance. */
  function DurationMin(a: Json): (r: Result<real>)
    requires a.JObj?
    ensures !Truthy(Field(a, "duration")) ==> r == Ok(0.0)
    ensures Field(a, "duration").JNum? ==> r == Ok(Field(a, "duration").n / 60.0)
    ensures r.Raised? <==> Truthy(Field(a, "duration")) && !Field(a, "duration").JNum?
  {
    var dur :- Num(Or(Field(a, "duration"), JNum(0.0)));
    Ok(dur / 60.0)
  }

  /** Distance, duration, pace, heart rate, calories, cadence, elevation and
      training effect, in the columns `MeasureKeys` names, in that order. */
  function Measures(a: Json): (r: Result<Dict>)
    requires a.JObj?
    ensures r.Ok? <==>
      && DistanceKm(a).Ok? && DurationMin(a).Ok?
      && IntOrBlank(Field(a, "averageHR")).Ok? && IntOrBlank(Field(a, "maxHR")).Ok?
      && IntOrBlank(Field(a, "calories")).Ok? && IntOrBlank(Cadence(a)).Ok?
      && IntOrBlank(Field(a, "elevationGain")).Ok?
    ensures r.Ok? ==> Keys(r.value) == MeasureKeys
    ensures r.Ok? ==> var km, min := DistanceKm(a).value, DurationMin(a).value;
      Values(r.value) ==
        [JNum(if km != 0.0 then RoundTo(km, 2) else 0.0), JNum(if min != 0.0 then RoundTo(min, 1) else 0.0),
         JStr(Pace(min, km)), IntOrBlank(Field(a, "averageHR")).value, IntOrBlank(Field(a, "maxHR")).value,
         IntOrBlank(Field(a, "calories")).value, IntOrBlank(Cadence(a)).value,
         IntOrBlank(Field(a, "elevationGain")).value, Field(a, "aerobicTrainingEffect"),
         Field(a, "anaerobicTrainingEffect")]
  {
    var distKm :- DistanceKm(a);
    var durMin :- DurationMin(a);
    var avgHrCell :- IntOrBlank(Field(a, "averageHR"));
    var maxHrCell :- IntOrBlank(Field(a, "maxHR"));
    var calCell :- IntOrBlank(Field(a, "calories"));
    var cadenceCell :- IntOrBlank(Cadence(a));
    var elevCell :- IntOrBlank(Field(a, "elevationGain"));
    Ok(Cells(MeasureKeys,
      [JNum(if distKm != 0.0 then RoundTo(distKm, 2) else 0.0), JNum(if durMin != 0.0 then RoundTo(durMin, 1) else 0.0),
       JStr(Pace(durMin, distKm)), avgHrCell, maxHrCell, calCell, cadenceCell, elevCell,
       Field(a, "aerobicTrainingEffect"), Field(a, "anaerobicTrainingEffect")]))
  }

  /** Power and running dynamics: whole watts, ground contact time to 0.1 ms,
      vertical oscillation to 0.01 cm and stride length from cm to metres at
      0.01, each blank when falsy, in the columns `DynamicsKeys` names. */
  function Dynamics(a: Json): (r: Result<Dict>)
    requires a.JObj?
    ensures r.Ok? <==>
      && IntOrBlank(AvgPower(a)).Ok?
      && RoundOrBlank(Field(a, "avgGroundContactTime"), 1.0, 1).Ok?
      && RoundOrBlank(Field(a, "avgVerticalOscillation"), 1.0, 2).Ok?
      && RoundOrBlank(Field(a, "avgStrideLength"), 100.0, 2).Ok?
    ensures r.Ok? ==> Keys(r.value) == DynamicsKeys
    ensures r.Ok? ==> (Values(r.value) ==
      [IntOrBlank(AvgPower(a)).value, RoundOrBlank(Field(a, "avgGroundContactTime"), 1.0, 1).value,
       RoundOrBlank(Field(a, "avgVerticalOscillation"), 1.0, 2).value,
       RoundOrBlank(Field(a, "avgStrideLength"), 100.0, 2).value])
  {
    var powerCell :- IntOrBlank(AvgPower(a));
    var gctCell :- RoundOrBlank(Field(a, "avgGroundContactTime"), 1.0, 1);
    var vertOscCell :- RoundOrBlank(Field(a, "avgVerticalOscillation"), 1.0, 2);
    var strideCell :- RoundOrBlank(Field(a, "avgStrideLength"), 100.0, 2);
    Ok(Cells(DynamicsKeys, [powerCell, gctCell, vertOscCell, strideCell]))
  }

  /** The dict binding `ks[i]` to `vs[i]`, in order. */
  function Cells(ks: seq<string>, vs: seq<Json>): (r: Dict)
    requires |ks| == |vs|
    ensures Keys(r) == ks && Values(r) == vs
  {
    seq(|ks|, i requires 0 <= i < |ks| => Member(ks[i], vs[i]))
  }

  /** No column name repeats within a group. */
  lemma IdentityKeysDistinct()
    ensures forall i, j :: 0 <= i < j < |IdentityKeys| ==> IdentityKeys[i] != IdentityKeys[j]
  {
  }

  lemma MeasureKeysDistinct()
    ensures forall i, j :: 0 <= i < j < |MeasureKeys| ==> MeasureKeys[i] != MeasureKeys[j]
  {
  }

  lemma DynamicsKeysDistinct()
    ensures forall i, j :: 0 <= i < j < |DynamicsKeys| ==> DynamicsKeys[i] != DynamicsKeys[j]
  {
  }

  /** In a dict whose keys are `ks`, all distinct, each key finds its own value. */
  lemma CellLookups(d: Dict, ks: seq<string>)
    requires Keys(d) == ks
    requires forall i, j :: 0 <= i < j < |ks| ==> ks[i] != ks[j]
    ensures forall j :: 0 <= j < |ks| ==> Lookup(d, ks[j]) == Some(Values(d)[j])
  {
    forall j | 0 <= j < |ks| ensures Lookup(d, ks[j]) == Some(Values(d)[j]) {
      LookupBefore(d, j + 1, ks[j]);
    }
  }

  /** The body of the per-activity `try`: the activity entry with the zone map
      merged in, or `Raised` when some field cannot be converted (the order in
      which Python evaluates the fields decides only which error is logged). */
  function ActivityEntry(a: Json, d: CalendarDate, zones: Dict): (r: Result<Dict>)
    requires a.JObj?
    ensures r.Ok? <==> Identity(a, d).Ok? && Measures(a).Ok? && Dynamics(a).Ok?
  {
    var who :- Identity(a, d);
    var measures :- Measures(a);
    var dynamics :- Dynamics(a);
    Ok(Update(who + measures + dynamics, zones))
  }

  /** One activity with its own zone fetch. */
  function ParseActivity(a: Json, d: CalendarDate, fetch: Json -> Fetch, fmt: Format): (r: Result<Dict>)
    ensures !a.JObj? ==> r == Raised
    ensures r.Ok? <==> a.JObj? && Identity(a, d).Ok? && Measures(a).Ok? && Dynamics(a).Ok?
  {
    if a.JObj? then ActivityEntry(a, d, ZonesOf(fetch(ActivityId(a)), fmt)) else Raised
  }

  /** The activities loop over `items` with the per-item parser `parse`: an item
      that is not a dict raises out of the loop (its `activityType` lookup sits
      outside the `try`); an item whose parsing raises is skipped. */
  function ActivitiesFrom(items: seq<Json>, parse: Json -> Result<Dict>): Result<seq<Dict>>
  {
    if items == [] then Ok([])
    else
      var done :- ActivitiesFrom(items[..|items| - 1], parse);
      var a := items[|items| - 1];
      if !a.JObj? then Raised
      else match parse(a)
        case Ok(e) => Ok(done + [e])
        case Raised => Ok(done)
  }

  /** `processed_activities` for the activities payload. */
  function ActivitiesOf(activities: Json, d: CalendarDate, fetch: Json -> Fetch, fmt: Format): Result<seq<Dict>>
  {
    if !Truthy(activities) then Ok([])
    else
      var items :- Iter(activities);
      ActivitiesFrom(items, a => ParseActivity(a, d, fetch, fmt))
  }

  /** The activities loop with its per-item `try`/`continue`. */
  method ProcessActivities(activities: Json, d: CalendarDate, fetch: Json -> Fetch, fmt: Format)
    returns (processed: Result<seq<Dict>>)
    ensures processed == ActivitiesOf(activities, d, fetch, fmt)
  {
    if !Truthy(activities) {
      return Ok([]);
    }
    var it := Iter(activities);
    if it.Raised? {
      return Raised;
    }
    var items := it.value;
    ghost var parse := a => ParseActivity(a, d, fetch, fmt);
    var acc: seq<Dict> := [];
    var i := 0;
    while i < |items|
      invariant 0 <= i <= |items|
      invariant ActivitiesFrom(items[..i], parse) == Ok(acc)
    {
      var a := items[i];
      assert items[..i + 1][..i] == items[..i];
      if !a.JObj? {
        RaisedPrefix(items, i + 1, parse);
        return Raised;
      }
      var zones := ParseZones(fetch(ActivityId(a)), fmt);
      var entry := ActivityEntry(a, d, zones);
      assert entry == parse(a);
      if entry.Ok? {
        acc := acc + [entry.value];
      }
      i := i + 1;
    }
    assert items[..i] == items;
    processed := Ok(acc);
  }

  /** Once a prefix of the items raises, so does every longer prefix. */
  lemma {:induction false} RaisedPrefix(items: seq<Json>, k: nat, parse: Json -> Result<Dict>)
    requires k <= |items|
    requires ActivitiesFrom(items[..k], parse) == Raised
    ensures ActivitiesFrom(items, parse) == Raised
    decreases |items| - k
  {
    if k < |items| {
      assert items[..k + 1][..k] == items[..k];
      RaisedPrefix(items, k + 1, parse);
    } else {
      assert items[..k] == items;
    }
  }

  /** The successfully parsed items, read front to back. */
  function Parsed(items: seq<Json>, parse: Json -> Result<Dict>): seq<Dict>
  {
    if items == [] then [] else Picked(items[0], parse) + Parsed(items[1..], parse)
  }

  /** The entry of one item, or nothing when it does not parse. */
  function Picked(item: Json, parse: Json -> Result<Dict>): seq<Dict>
  {
    match parse(item) case Ok(e) => [e] case Raised => []
  }

  lemma {:induction false} ParsedSnoc(items: seq<Json>, parse: Json -> Result<Dict>)
    requires items != []
    ensures Parsed(items, parse) == Parsed(items[..|items| - 1], parse) + Picked(items[|items| - 1], parse)
  {
    var n := |items|;
    if n == 1 {
      assert items[..0] == [] && items[1..] == [];
    } else {
      var t, init := items[1..], items[..n - 1];
      ParsedSnoc(t, parse);
      assert t[..|t| - 1] == init[1..] && t[|t| - 1] == items[n - 1] && init[0] == items[0];
      assert Parsed(items, parse) == Picked(items[0], parse) + Parsed(t, parse);
      assert Parsed(init, parse) == Picked(items[0], parse) + Parsed(init[1..], parse);
    }
  }

  /** The loop raises exactly when some item is not a dict; otherwise it yields
      the entries of the items that parse, in input order, skipping the rest. */
  lemma {:induction false} ActivitiesSkipFailures(items: seq<Json>, parse: Json -> Result<Dict>)
    ensures ActivitiesFrom(items, parse).Raised? <==> exists i :: 0 <= i < |items| && !items[i].JObj?
    ensures ActivitiesFrom(items, parse).Ok? ==> ActivitiesFrom(items, parse).value == Parsed(items, parse)
  {
    if items != [] {
      var init := items[..|items| - 1];
      ActivitiesSkipFailures(init, parse);
      ParsedSnoc(items, parse);
      if exists i :: 0 <= i < |init| && !init[i].JObj? {
        var i :| 0 <= i < |init| && !init[i].JObj?;
        assert !items[i].JObj?;
      } else if items[|items| - 1].JObj? {
        forall i | 0 <= i < |items| ensures items[i].JObj? {
          if i < |init| { assert items[i] == init[i]; }
        }
      }
    }
  }

  /** In the entry of an activity that parses, every identity, measure and
      dynamics column keeps the value its group computed, whatever the zone
      map, and every zone column takes the zone map's value. */
  lemma EntryFields(a: Json, d: CalendarDate, zones: Dict)
    requires a.JObj? && ActivityEntry(a, d, zones).Ok?
    requires forall i :: 0 <= i < |zones| ==> |zones[i].key| >= 5 && zones[i].key[..5] == "Zone "
    ensures var who, m, dyn := Identity(a, d).value, Measures(a).value, Dynamics(a).value;
      ActivityEntry(a, d, zones).value == Update(who + m + dyn, zones)
    ensures forall k :: k in Keys(zones) ==> Lookup(ActivityEntry(a, d, zones).value, k) == Lookup(zones, k)
  {
    var who, m, dyn := Identity(a, d).value, Measures(a).value, Dynamics(a).value;
    MergedLookups(who, m, dyn, zones);
  }

  /** The merged dict reads each group's cells at that group's positions. */
  lemma MergedCells(who: Dict, m: Dict, dyn: Dict, zones: Dict)
    requires Keys(who) == IdentityKeys && Keys(m) == MeasureKeys && Keys(dyn) == DynamicsKeys
    requires forall i :: 0 <= i < |zones| ==> |zones[i].key| >= 5 && zones[i].key[..5] == "Zone "
    ensures forall j :: 0 <= j < |IdentityKeys| ==> Lookup(Update(who + m + dyn, zones), IdentityKeys[j]) == Some(Values(who)[j])
    ensures forall j :: 0 <= j < |MeasureKeys| ==> Lookup(Update(who + m + dyn, zones), MeasureKeys[j]) == Some(Values(m)[j])
    ensures forall j :: 0 <= j < |DynamicsKeys| ==> Lookup(Update(who + m + dyn, zones), DynamicsKeys[j]) == Some(Values(dyn)[j])
  {
    MergedLookups(who, m, dyn, zones);
    IdentityKeysDistinct();
    CellLookups(who, IdentityKeys);
    MeasureKeysDistinct();
    CellLookups(m, MeasureKeys);
    DynamicsKeysDistinct();
    CellLookups(dyn, DynamicsKeys);
  }

  /** The identity columns of the entry hold `Identity`'s cells: id, ISO date,
      start time, type and name. */
  lemma EntryIdentityCells(a: Json, d: CalendarDate, zones: Dict)
    requires a.JObj? && ActivityEntry(a, d, zones).Ok?
    requires forall i :: 0 <= i < |zones| ==> |zones[i].key| >= 5 && zones[i].key[..5] == "Zone "
    ensures forall j :: 0 <= j < |IdentityKeys| ==>
      Lookup(ActivityEntry(a, d, zones).value, IdentityKeys[j]) == Some(Values(Identity(a, d).value)[j])
  {
    var who, m, dyn := Identity(a, d).value, Measures(a).value, Dynamics(a).value;
    EntryFields(a, d, zones);
    MergedCells(who, m, dyn, zones);
  }

  /** The measure columns of the entry hold `Measures`' cells: distance,
      duration, pace, heart rate, calories, cadence, elevation, training effect. */
  lemma EntryMeasureCells(a: Json, d: CalendarDate, zones: Dict)
    requires a.JObj? && ActivityEntry(a, d, zones).Ok?
    requires forall i :: 0 <= i < |zones| ==> |zones[i].key| >= 5 && zones[i].key[..5] == "Zone "
    ensures forall j :: 0 <= j < |MeasureKeys| ==>
      Lookup(ActivityEntry(a, d, zones).value, MeasureKeys[j]) == Some(Values(Measures(a).value)[j])
  {
    var who, m, dyn := Identity(a, d).value, Measures(a).value, Dynamics(a).value;
    EntryFields(a, d, zones);
    MergedCells(who, m, dyn, zones);
  }

  /** The power and running-dynamics columns of the entry hold `Dynamics`' cells. */
  lemma EntryDynamicsCells(a: Json, d: CalendarDate, zones: Dict)
    requires a.JObj? && ActivityEntry(a, d, zones).Ok?
    requires forall i :: 0 <= i < |zones| ==> |zones[i].key| >= 5 && zones[i].key[..5] == "Zone "
    ensures forall j :: 0 <= j < |DynamicsKeys| ==>
      Lookup(ActivityEntry(a, d, zones).value, DynamicsKeys[j]) == Some(Values(Dynamics(a).value)[j])
  {
    var who, m, dyn := Identity(a, d).value, Measures(a).value, Dynamics(a).value;
    EntryFields(a, d, zones);
    MergedCells(who, m, dyn, zones);
  }

  /** The entry's `Time` is `HH:MM` of the start (or ""), and its `Type` is
      `typeKey` with the default "Unknown". */
  lemma EntryTimeAndType(a: Json, d: CalendarDate, zones: Dict)
    requires a.JObj? && ActivityEntry(a, d, zones).Ok?
    requires forall i :: 0 <= i < |zones| ==> |zones[i].key| >= 5 && zones[i].key[..5] == "Zone "
    ensures Lookup(ActivityEntry(a, d, zones).value, TimeCol) == Some(JStr(TimeOfDay(Field(a, "startTimeLocal")).value))
    ensures Lookup(ActivityEntry(a, d, zones).value, TypeCol) == Some(TypeKey(a).value)
  {
    EntryIdentityCells(a, d, zones);
    assert IdentityKeys[2] == TimeCol && IdentityKeys[3] == TypeCol;
  }

  /** The entry's `Avg Power` is `int(avg_power)` when truthy and "" otherwise. */
  lemma EntryPower(a: Json, d: CalendarDate, zones: Dict)
    requires a.JObj? && ActivityEntry(a, d, zones).Ok?
    requires forall i :: 0 <= i < |zones| ==> |zones[i].key| >= 5 && zones[i].key[..5] == "Zone "
    ensures Lookup(ActivityEntry(a, d, zones).value, PowerCol) == Some(IntOrBlank(AvgPower(a)).value)
  {
    EntryDynamicsCells(a, d, zones);
    assert DynamicsKeys[0] == PowerCol;
  }

  lemma MergedLookups(who: Dict, m: Dict, dyn: Dict, zones: Dict)
    requires Keys(who) == IdentityKeys && Keys(m) == MeasureKeys && Keys(dyn) == DynamicsKeys
    requires forall i :: 0 <= i < |zones| ==> |zones[i].key| >= 5 && zones[i].key[..5] == "Zone "
    ensures forall k :: k in IdentityKeys ==> Lookup(Update(who + m + dyn, zones), k) == Lookup(who, k)
    ensures forall k :: k in MeasureKeys ==> Lookup(Update(who + m + dyn, zones), k) == Lookup(m, k)
    ensures forall k :: k in DynamicsKeys ==> Lookup(Update(who + m + dyn, zones), k) == Lookup(dyn, k)
    ensures forall k :: k in Keys(zones) ==> Lookup(Update(who + m + dyn, zones), k) == Lookup(zones, k)
  {
    var base := who + m + dyn;
    forall k | k in Keys(zones) ensures Lookup(Update(base, zones), k) == Lookup(zones, k) {
      LookupUpdate(base, zones, k);
    }
    KeyGroups();
    forall k | k in IdentityKeys ensures Lookup(Update(base, zones), k) == Lookup(who, k) {
      NotZoneKey(zones, k);
      LookupUpdate(base, zones, k);
      LookupAppend(who + m, dyn, k);
      LookupAppend(who, m, k);
    }
    forall k | k in MeasureKeys ensures Lookup(Update(base, zones), k) == Lookup(m, k) {
      NotZoneKey(zones, k);
      LookupUpdate(base, zones, k);
      LookupAppend(who + m, dyn, k);
      LookupAppend(who, m, k);
    }
    forall k | k in DynamicsKeys ensures Lookup(Update(base, zones), k) == Lookup(dyn, k) {
      NotZoneKey(zones, k);
      LookupUpdate(base, zones, k);
      LookupAppend(who + m, dyn, k);
    }
  }

  /** The three groups of columns are disjoint, and none starts like a zone column. */
  lemma KeyGroups()
    ensures forall k :: k in IdentityKeys ==> k !in MeasureKeys && k !in DynamicsKeys && k != [] && k[0] != 'Z'
    ensures forall k :: k in MeasureKeys ==> k !in DynamicsKeys && k != [] && k[0] != 'Z'
    ensures forall k :: k in DynamicsKeys ==> k != [] && k[0] != 'Z'
  {
  }

  lemma NotZoneKey(zones: Dict, k: string)
    requires forall i :: 0 <= i < |zones| ==> |zones[i].key| >= 5 && zones[i].key[..5] == "Zone "
    requires k != [] && k[0] != 'Z'
    ensures k !in Keys(zones)
  {
    forall i | 0 <= i < |zones| ensures zones[i].key != k {
      assert zones[i].key[0] == zones[i].key[..5][0] == 'Z';
    }
  }

  /** Bindings past position `n` that do not bind `k` leave its lookup alone. */
  lemma LookupBefore(d: Dict, n: nat, k: string)
    requires 0 < n <= |d| && d[n - 1].key == k
    requires forall j :: n <= j < |d| ==> d[j].key != k
    ensures Lookup(d, k) == Some(d[n - 1].value)
  {
    var head, tail := d[..n], d[n..];
    assert d == head + tail;
    forall j | 0 <= j < |tail| ensures Keys(tail)[j] != k {
      assert tail[j] == d[n + j];
    }
    LookupAppend(head, tail, k);
    assert head[n - 1] == d[n - 1];
  }

  /** Power falls back to `averageRunningPower` only when `avgPower` is None:
      a zero `avgPower` is kept, and then shows as a blank `Avg Power` cell. */
  lemma PowerFallback(a: Json)
    requires a.JObj?
    ensures Field(a, "avgPower") == JNull ==> AvgPower(a) == Field(a, "averageRunningPower")
    ensures Field(a, "avgPower") != JNull ==> AvgPower(a) == Field(a, "avgPower")
    ensures Field(a, "avgPower") == JNum(0.0) ==> IntOrBlank(AvgPower(a)) == Ok(JStr(""))
  {
  }

  /** A `startTimeLocal` of the form `<date> <time>` yields the first five
      characters of the time part (`"2024-03-01 07:30:00"` gives `"07:30"`). */
  lemma TimeOfDayParts(date: string, time: string)
    requires ' ' !in date && ' ' !in time
    ensures TimeOfDay(JStr(date + " " + time)) == Ok(Prefix(time, 5))
  {
    var s := date + " " + time;
    assert s[|date|] == ' ';
    FirstAt(s, ' ', |date|);
    assert s[|date| + 1..] == time;
    FirstAt(time, ' ', |time|);
    assert time[..|time|] == time;
    assert SecondField(s) == time;
    assert IsSubstring(" ", s);
  }

  /** The first `c` in `s` sits at `i`. */
  lemma FirstAt(s: string, c: char, i: nat)
    requires i <= |s| && (i < |s| ==> s[i] == c)
    requires forall j :: 0 <= j < i ==> s[j] != c
    ensures IndexOf(s, c) == i
  {
  }
}
