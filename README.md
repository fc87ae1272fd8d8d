# Garmin-to-Sheets: normalisation and merge core, in Dafny

This project models the part of the Garmin-to-Sheets sync that turns one day's
Garmin Connect payloads into a daily record, and then turns those records into
rows: a Google Sheets row, the tables of the daily CSV files on Google Drive,
and the activities table. It also models how a fresh table is merged into the
CSV already stored in the Drive folder, and which file receives which records.

The modules follow the program:

- `Parser` and `Activities` (`parser.dfy`, `activities.dfy`) model
  `get_metrics`. Each of the seven fetched payloads is read into its section
  of a `DailyRecord` (`record.dfy`). A failed fetch leaves the section `None`.
  An activity whose parsing raises is skipped. Any other exception leaves a
  record holding only the date. `Activities` also covers the part of the
  `garmin_client.py` fragment that adds power, running dynamics and the
  heart-rate-zone map to each activity entry. The body-battery fields come
  from that fragment too.
- `Sheets` (`sheets.dfy`) models `HEADERS` and `_map_metrics_to_row`.
- `Rows` (`rows.dfy`) models `_metrics_to_df` and `_activities_to_df`.
  `Merge` (`merge.dfy`) models the pandas operations they need: concat,
  `drop_duplicates(keep='last')` and `sort_values`.
- `Drive` (`drive.dfy`) models `update_csv` and `update_activities_csv`
  without the Drive API calls.
- `Sync` (`sync.dfy`) models the historical filter of `sync` and its plan of
  Drive calls.
- `PyValues`, `Numeric`, `Text` and `Dates` are the Python values and
  built-ins these need:
  - JSON values;
  - dict lookups where the last binding wins;
  - truthiness;
  - `round` with half-to-even ties;
  - `int()` truncation;
  - string order;
  - `date` order and `isoformat`.

A Python exception is the `Raised` case of `Result`. A pandas table is a
`Frame`: a column list plus rows mapping column names to values, where a
missing cell (NaN) reads as `None`.

The merge is proved correct:

- `update_csv` uploads the upsert of the fresh rows on `Date`. Each date
  appears once, and the fresh row wins over the stored one.
- Its rows are sorted on `Date`, and that sorted order is the only one
  possible.
- Running it again with the same rows on the uploaded table changes nothing.

## Model

| member | source | states |
|---|---|---|
| Numeric.RoundHalfEven | src/parser.py:133 | `round(x)` is within half of `x`, and a tie goes to the even integer |
| Numeric.Trunc | src/parser.py:181-182 | `int(x)` drops the fraction toward zero, on both signs |
| Numeric.RoundTo | src/parser.py:202-203 | `round(x, n)` is within half a unit of the n-th decimal of `x` |
| Numeric.MeanBetween | src/parser.py:239-241 | the mean of a non-empty list lies between any bounds of its elements |
| Numeric.SumBounds | src/parser.py:239-241 | the sum of n elements within bounds lies within n times those bounds |
| Text.Digits | src/parser.py:183 | a fixed-width rendering has exactly that many characters, all decimal digits |
| Text.ZeroPadFits | src/parser.py:183 | zero-padding a number that fits in the width gives exactly its digits at that width (`f"{p_sec:02d}"`) |
| Text.StrLessIrreflexive | src/drive_client.py:97 | no string sorts before itself |
| Text.StrLessAsymmetric | src/drive_client.py:97 | two strings are never each before the other |
| Text.StrLessTransitive | src/drive_client.py:97 | string order is transitive |
| Text.StrLessTotal | src/drive_client.py:97 | of two distinct strings, one sorts before the other |
| Text.StrLessConcat | src/drive_client.py:97 | equal-length prefixes decide the order of the strings they start |
| Text.DigitsOrdered | src/drive_client.py:97 | fixed-width renderings sort like the numbers they render |
| Text.IsSubstring | src/drive_client.py:146 | for a one-character needle, `x in s` holds exactly when that character occurs in `s` |
| Text.IndexOf | src/parser.py:173 | the result is the first occurrence of the character, or the length when it does not occur |
| Text.SecondField | src/parser.py:173 | `s.split(' ')[1]` holds no space |
| Text.Prefix | src/parser.py:173 | `s[:n]` is a prefix of `s` of length `min(n, len(s))` |
| PyValues.Lookup | src/parser.py:118 | a key is missing exactly when it is not among the keys; a found value is bound to the key |
| PyValues.LookupUpdate | src/garmin_client.py:94 | after `d.update(e)`, the keys of `e` take `e`'s values and the other keys keep `d`'s |
| PyValues.LookupAppend | src/drive_client.py:84 | a key bound in the later members is read from them, otherwise from the earlier ones |
| PyValues.GetOr | src/parser.py:118 | `v.get(k, default)` succeeds exactly when `v` is a dict |
| PyValues.Index | src/sheets_client.py:29-31 | `v[k]` succeeds exactly when `v` is a dict holding `k`; otherwise KeyError or TypeError |
| PyValues.Iter | src/parser.py:164 | iterating over a list yields its items |
| PyValues.ValuesOf | src/parser.py:289 | `.values()` succeeds only on a dict, with one value per member |
| PyValues.Num | src/parser.py:175 | arithmetic succeeds exactly on a number |
| PyValues.IntOf | src/parser.py:205 | `int(v)` of a number is its truncation |
| Dates.Iso | src/drive_client.py:48-49 | `isoformat()` has the `YYYY-MM-DD` shape |
| Dates.IsoOrdered | src/drive_client.py:95-97 | an earlier date has the smaller ISO string, so sorting the `Date` column as text sorts by date |
| Dates.IsoOrderIff | src/drive_client.py:95-97 | the ISO text order is the date order in both directions, and distinct dates have distinct strings |
| Parser.Unpack | src/parser.py:95-101 | a failed fetch is `None`; a successful one is its payload |
| Parser.ClockTime | src/parser.py:135-141 | a falsy timestamp gives `None`; a truthy one succeeds exactly when it is a number whose clock reading, taken at the timestamp divided by 1000, exists, and then gives that reading |
| Parser.StageMinutes | src/parser.py:143-146 | a sleep stage is `(seconds or 0) / 60`, always a number when it succeeds |
| Parser.Efficiency | src/parser.py:148-151 | has no contract of its own; Parser.EfficiencyShare and Parser.EfficiencyBounds state that it is the rounded asleep share of the total in percent, between 0 and 100 when the awake time is at most the total, and `None` for a falsy or negative total |
| Parser.SleepLength | src/parser.py:131-133 | has no contract of its own; Parser.LengthMinutes states that it is `None` for a falsy total and otherwise the total in rounded minutes |
| Parser.SleepFromDto | src/parser.py:120-151 | each sleep field is what its own rule computes from the DTO, and the need is `actual` when the need is a dict |
| Parser.SleepOf | src/parser.py:117-119 | with no sleep payload, or an empty `dailySleepDTO`, every sleep field stays `None` |
| Parser.EfficiencyShare | src/parser.py:149-151 | efficiency is the rounded share of the night not awake (missing awake counts 0), within 0..100 when awake is at most the total, and `None` without a positive total |
| Parser.EfficiencyBounds | src/parser.py:151 | the rounded percentage of a share between 0 and 1 lies between 0 and 100 |
| Parser.LengthMinutes | src/parser.py:131-133 | sleep length is `round(total / 60)` with ties to even (so within half a minute of the total), and `None` for a falsy total |
| Parser.SleepExample | src/parser.py:133-151 | 25200 s asleep with 600 s awake gives efficiency 98 and length 420 |
| Parser.HrvOf | src/parser.py:156-159 | HRV fields stay `None` without a payload or without `hrvSummary`; with a dict `hrvSummary` they are its `lastNightAvg` and `status`; any other `hrvSummary` raises |
| Parser.StatsOf | src/parser.py:222-225 | weight is grams / 1000 when truthy; body fat and BMI are as given; all stay `None` without stats |
| Parser.Readings | src/parser.py:235-236 | the comprehension succeeds exactly when every reading is a dict |
| Parser.Qualifying | src/parser.py:235-236 | has no contract of its own; Parser.QualifyingTruthy and Parser.ReadingsQualify state that it keeps the readings whose value under the key is truthy, in order, and is empty exactly when none is |
| Parser.ReadingsQualify | src/parser.py:235-236 | the collected values are exactly the truthy ones, in reading order |
| Parser.QualifyingTruthy | src/parser.py:235-238 | no value is collected exactly when no reading has a truthy value |
| Parser.Nums | src/parser.py:239 | `mean` accepts exactly lists of numbers |
| Parser.MeanCell | src/parser.py:238-241 | with no values the figure stays `None` |
| Parser.MeanCellBounds | src/parser.py:239 | the rounded mean of values within bounds stays within those bounds |
| Parser.RoundWithin | src/parser.py:239 | rounding a value between two integers stays between them |
| Parser.BpOf | src/parser.py:231-241 | without a payload both blood-pressure figures stay `None` |
| Parser.BpOfList | src/parser.py:231-233 | with a non-empty reading list the figures are the means over that list |
| Parser.Means | src/parser.py:235-241 | has no contract of its own; Parser.MeansQualifying and Parser.BpMeans state that each figure is the rounded mean of the truthy readings, `None` exactly when there are none, and lies within any bounds the readings respect |
| Parser.MeansQualifying | src/parser.py:235-241 | each figure is the rounded mean of its own truthy values |
| Parser.BpMeans | src/parser.py:231-241 | each figure is `None` exactly when no reading has a truthy value, and otherwise lies within the readings' bounds |
| Parser.QualifyingInRange | src/parser.py:235-236 | the collected values are numbers within the bounds every reading keeps |
| Parser.BpFigure | src/parser.py:235-241 | one figure is `None` exactly when no value is collected, and otherwise within bounds |
| Parser.Floors | src/parser.py:270-275 | `None` stays `None`, a number is rounded, and a value `float` rejects is kept |
| Parser.SummaryOf | src/parser.py:256-275 | without a summary every field stays `None`; with one, active and resting calories, resting heart rate, average stress, steps and the four stress durations are the values read under their keys, intensity minutes is a number and the body-battery extremes are read as given |
| Parser.Intensity | src/parser.py:259 | intensity minutes count vigorous minutes double, with missing figures counting 0 |
| Parser.FloorsSource | src/parser.py:270 | `floorsAscended` is used when truthy, `floorsClimbed` otherwise |
| Parser.FirstPhrase | src/parser.py:288-291 | the phrase is read from the first device in insertion order |
| Parser.Vo2Max | src/parser.py:283-285 | a falsy entry gives `None`; a truthy entry raises unless it is a dict, and otherwise gives its `vo2MaxValue`, `None` when that key is missing |
| Parser.TrainingOf | src/parser.py:282-291 | without a training payload every training field stays `None`; with one, each VO2 max value is the `vo2MaxValue` of its truthy `generic` or `cycling` entry under `mostRecentVO2Max`, and `None` when that entry is falsy |
| Parser.FirstDevicePhrase | src/parser.py:288-291 | the training status is the first device's phrase, whatever the others say |
| Parser.Extract | src/parser.py:293-333 | the record always carries the requested date |
| Parser.Fields | src/parser.py:110-329 | has no contract of its own; Parser.FieldsSections and Parser.RaisingSectionGivesDateOnly state that it raises exactly when some section raises, and that the record then falls back to the date alone |
| Parser.Assemble | src/parser.py:293-333 | the record raises exactly when one of the seven sections raised; otherwise it carries the date and each section's result, with no lactate-threshold values |
| Parser.GetMetrics | src/parser.py:63-333 | the section-by-section extraction with its activities loop yields `Extract` |
| Parser.FailedSectionStaysNone | src/parser.py:95-101 | every section whose fetch failed is `None` in the record, whatever else happens |
| Parser.RaisingSectionGivesDateOnly | src/parser.py:331-333 | the record is date-only when some section raises, which happens exactly when one of the seven sections raises; otherwise every section is kept |
| Activities.TimeOfDay | src/parser.py:171-173 | the time cell is `""` without a start or without a space, and otherwise the first five characters of the second field |
| Activities.PaceMinutes | src/parser.py:181 | minutes are the whole part of the pace |
| Activities.PaceSeconds | src/parser.py:182 | seconds are below 60 and, with the minutes, make the pace truncated to whole seconds |
| Activities.Pace | src/parser.py:178-183 | the pace is non-empty exactly for a positive distance and a positive duration, and is then `M:SS` |
| Activities.PaceExample | src/parser.py:178-183 | 5 km in 25 min gives `5:00` |
| Activities.ZoneKey | src/garmin_client.py:77 | every zone key starts with `Zone ` |
| Activities.ZoneKeysDistinct | src/garmin_client.py:61 | the five initial zone keys are distinct |
| Activities.ZoneKeyWhole | src/garmin_client.py:76-77 | a zone number from 1 to 5 formats to that zone's key |
| Activities.ZoneStep | src/garmin_client.py:73-77 | has no contract of its own; Activities.StepHit, Activities.StepMiss and Activities.PlainStep state that an entry numbered 1 to 5 sets that zone to its rounded minutes, any other entry leaves the zones alone, and the five zone keys stay in order |
| Activities.StepHit | src/garmin_client.py:74-77 | an entry naming zone 1..5 sets that zone to its seconds / 60, rounded to 2 places |
| Activities.StepMiss | src/garmin_client.py:76 | an entry naming no zone 1..5 leaves the map unchanged |
| Activities.PlainStep | src/garmin_client.py:73-77 | a well-formed entry never raises, keeps the five keys, and rewrites exactly the zone it names |
| Activities.ZonesFrom | src/garmin_client.py:73-77 | has no contract of its own; Activities.ZonesFromPlain states that the five keys stay in order and each zone holds the minutes of the last entry naming it, or keeps its earlier value |
| Activities.ZonesFromPlain | src/garmin_client.py:73-77 | each zone holds the minutes of the last entry naming it, and the map keeps its five keys |
| Activities.ZonesOf | src/garmin_client.py:61-82 | has no contract of its own; Activities.ZonesOfPlainList and Activities.EmptyZonesLookup state that a failed or empty fetch gives five zeros and a list gives each zone the minutes of its last entry |
| Activities.ZonesOfPlainList | src/garmin_client.py:61-82 | each zone holds the last entry's minutes or 0, and a failed or empty zone fetch leaves every zone at 0 |
| Activities.ParseZones | src/garmin_client.py:61-82 | the in-place loop over `hr_zones` yields `ZonesOf` |
| Activities.TypeKey | src/parser.py:165-198 | `Type` is `typeKey` of a dict `activityType`, `'Unknown'` without the key or without `activityType`, and raises on a non-dict `activityType` |
| Activities.Identity | src/parser.py:167-199 | the identity cells are, in order, the id, the ISO date, `TimeOfDay` of the start, the type key and the name |
| Activities.DistanceKm | src/parser.py:175 | distance is `(distance or 0) / 1000`, raising only on a truthy non-number |
| Activities.DurationMin | src/parser.py:176 | duration is `(duration or 0) / 60`, raising only on a truthy non-number |
| Activities.Measures | src/parser.py:175-211 | the ten measure cells are, in order, distance to 0.01 km, duration to 0.1 min (0 when zero), `Pace`, `int` of average and max HR, calories, cadence (running, else biking) and elevation or "", and both training effects as given |
| Activities.Dynamics | src/garmin_client.py:46-91 | the dynamics cells are `int(avg_power)` or "", ground contact to 0.1, vertical oscillation to 0.01 and stride / 100 to 0.01, each "" when falsy |
| Activities.ActivityEntry | src/garmin_client.py:85-94 | an entry is built exactly when its identity, measures and dynamics all convert |
| Activities.EntryFields | src/garmin_client.py:85-94 | the entry is the three groups merged with the zone map, and every zone column takes the zone map's value |
| Activities.ParseActivity | src/garmin_client.py:38-96 | an item that is not a dict raises; a dict is parsed exactly when its identity, measures and dynamics parse |
| Activities.EntryIdentityCells | src/parser.py:195-199 | every identity column of the entry holds the cell `Identity` computed for it |
| Activities.EntryMeasureCells | src/parser.py:200-211 | every measure column of the entry holds the cell `Measures` computed for it |
| Activities.EntryDynamicsCells | src/garmin_client.py:88-94 | every power and running-dynamics column of the entry holds the cell `Dynamics` computed for it, whatever the zone map |
| Activities.EntryTimeAndType | src/parser.py:171-198 | the entry's `Time` is `HH:MM` of the start or "", and its `Type` the type key with default `'Unknown'` |
| Activities.EntryPower | src/garmin_client.py:46-94 | the entry's `Avg Power` is `int(avg_power)` when truthy and "" otherwise, after the zone merge |
| Activities.PowerFallback | src/garmin_client.py:46-48 | power falls back to `averageRunningPower` only when `avgPower` is `None`; a zero power gives a blank cell |
| Activities.TimeOfDayParts | src/parser.py:173 | a `<date> <time>` start gives the first five characters of the time |
| Activities.ProcessActivities | src/parser.py:162-215 | the loop with its per-item `try`/`continue` yields `ActivitiesOf` |
| Activities.ActivitiesFrom | src/parser.py:162-215 | has no contract of its own; Activities.ActivitiesSkipFailures and Activities.RaisedPrefix state that it raises exactly when some item is not a dict and otherwise keeps, in order, the entries of the items that parse |
| Activities.ActivitiesOf | src/parser.py:162-215 | has no contract of its own; Activities.ProcessActivities states that the loop computes it, and a falsy payload gives no activities |
| Activities.RaisedPrefix | src/parser.py:164-165 | once an item raises outside the `try`, the whole loop raises |
| Activities.ActivitiesSkipFailures | src/parser.py:163-215 | the loop raises exactly when some item is not a dict; otherwise it keeps the items that parse, in order |
| Rows.AddNew | src/drive_client.py:84 | new column names are appended in first-seen order after the old ones, each once |
| Rows.AddNewKnown | src/drive_client.py:84 | adding names already present changes nothing |
| Rows.AddNewDistinct | src/drive_client.py:52 | distinct names keep their order |
| Rows.ToRow | src/drive_client.py:52 | a dict row holds exactly the dict's keys, each with its value |
| Rows.ColumnsOfKeys | src/drive_client.py:52 | a column exists exactly when some dict has that key |
| Rows.FrameOf | src/drive_client.py:52 | `pd.DataFrame(list)` has one row per dict, in order, with distinct columns |
| Metrics.Attr | src/drive_client.py:46 | `getattr` yields the date object exactly for `date`, and that object is the record's date |
| Rows.CellRules | src/drive_client.py:44-50 | an unmapped header gives `None`, `date` gives the ISO date, any other attribute its value |
| Rows.Cell | src/drive_client.py:44-50 | has no contract of its own; Rows.CellRules states that an unmapped header gives `None`, the date attribute gives the ISO date and any other attribute gives the record's value |
| Rows.AssignKeys | src/drive_client.py:42-50 | the row dict holds exactly the headers, each bound to its cell; with distinct headers its keys are the headers in order |
| Rows.Assign | src/drive_client.py:42-50 | has no contract of its own; Rows.AssignKeys states that the dict holds exactly the headers, each bound to its cell, in header order when they are distinct |
| Rows.RowDict | src/drive_client.py:41-51 | has no contract of its own; Rows.MetricsDicts and Rows.MetricsRowKeys state that it is the row of one record, keyed by the headers |
| Rows.MetricsDicts | src/drive_client.py:40-51 | one row dict per record, in order |
| Rows.MetricsToDf | src/drive_client.py:38-52 | the nested loops yield the table of the row dicts |
| Rows.MetricsRowKeys | src/drive_client.py:41-51 | each table row holds exactly the headers |
| Rows.MetricsColumns | src/drive_client.py:52 | with distinct headers and some record, the columns are the headers in order |
| Rows.MetricsEmpty | src/drive_client.py:69-71 | the table is empty exactly when there are no records or no headers |
| Rows.MetricsCell | src/drive_client.py:44-50 | row `i` holds, under each header, the record's cell for it |
| Rows.ColumnsSame | src/drive_client.py:52 | dicts with the same distinct keys give those keys as columns |
| Rows.AllActivitiesMembers | src/drive_client.py:56-59 | an entry is flattened exactly when some record holds it, and the list is empty exactly when no record has activities |
| Rows.AllActivitiesAppend | src/drive_client.py:56-59 | flattening keeps record order |
| Rows.AllActivities | src/drive_client.py:56-59 | has no contract of its own; Rows.AllActivitiesMembers states that an entry is listed exactly when some record holds it, and that the list is empty exactly when no record has activities |
| Rows.ActivitiesToDf | src/drive_client.py:54-65 | the flattening loop yields the table of all the records' activities |
| Merge.Concat | src/drive_client.py:84 | `concat` has the columns of both tables, those of the stored table first |
| Merge.KeyOf | src/drive_client.py:86 | has no contract of its own; it reads a cell, a missing one as `None`, and Merge.DedupKeepsLast states the upsert in terms of it |
| Merge.HasKeyAppend | src/drive_client.py:84 | a key value occurs in the concatenation exactly when it occurs in either part |
| Merge.DedupLast | src/drive_client.py:86 | `drop_duplicates` keeps only rows of its input |
| Merge.LastWithFound | src/drive_client.py:86 | a last row with a key value exists exactly when the value occurs |
| Merge.LastWithAppend | src/drive_client.py:84-86 | the last row with a value in `stored + batch` comes from the batch whenever the batch has that value |
| Merge.DedupKeepsLast | src/drive_client.py:86 | after dedup each key value occurs once, the row kept is the last one with it, and every value survives |
| Merge.UniqueKeys | src/drive_client.py:86 | has no contract of its own; Merge.DedupKeepsLast and Merge.SortRowsUnique state that deduplication gives distinct keys and sorting keeps them distinct |
| Merge.MergeLastWins | src/drive_client.py:84-86 | concat then keep-last is an upsert: one row per key, fresh rows win, stored rows without a fresh match stay, nothing else |
| Merge.UpsertKeepsStored | src/drive_client.py:84-86 | a stored row whose key the batch lacks survives the upsert unchanged |
| Merge.LastWithUnique | src/drive_client.py:86 | among rows with distinct keys, the last row with a row's key is that row |
| Merge.Comparable | src/drive_client.py:97 | has no contract of its own; Merge.SortFrame states that the sort succeeds exactly when every pair of cells is comparable |
| Merge.Ahead | src/drive_client.py:97 | has no contract of its own; Merge.AheadTransitive, Merge.AheadTotal and Merge.AheadIrreflexive state that it is a strict order with missing values last |
| Merge.AheadTransitive | src/drive_client.py:97 | the sort order is transitive |
| Merge.AheadTotal | src/drive_client.py:97 | distinct comparable values are ordered one way or the other |
| Merge.AheadIrreflexive | src/drive_client.py:97 | no value is ahead of itself |
| Merge.Insert | src/drive_client.py:97 | insertion adds exactly the one row |
| Merge.InsertSorted | src/drive_client.py:97 | insertion into sorted rows keeps them sorted |
| Merge.SortRows | src/drive_client.py:97 | the sort permutes its rows |
| Merge.SortRowsSorted | src/drive_client.py:97 | the sort returns its rows, sorted on the column |
| Merge.InsertUnique | src/drive_client.py:97 | inserting a row with a new key keeps the keys distinct |
| Merge.SortRowsUnique | src/drive_client.py:97 | sorting keeps distinct keys distinct |
| Merge.SortFrame | src/drive_client.py:97 | `sort_values` raises exactly when two values cannot be compared, and otherwise permutes the rows and keeps the columns |
| Merge.UpsertAgain | src/drive_client.py:84-86 | upserting the same batch into an upsert's outcome keeps the same rows |
| Merge.UpsertedSorted | src/drive_client.py:95-97 | sorting an upsert's outcome leaves an upsert |
| Merge.SortedUnique | src/drive_client.py:97 | rows with distinct comparable keys have only one sorted order |
| Drive.CsvUpload | src/drive_client.py:67-97 | nothing is uploaded exactly when the fresh table is empty |
| Drive.DateMerge | src/drive_client.py:82-93 | has no contract of its own; Drive.CsvMerged and Drive.CsvReplaced state that a stored table with a `Date` column is upserted on `Date` and that otherwise the fresh rows replace it |
| Drive.UpdateCsv | src/drive_client.py:67-97 | the method's steps yield `CsvUpload` of the table `_metrics_to_df` builds |
| Drive.CsvMerged | src/drive_client.py:82-97 | with a stored `Date` column the upload is the upsert on `Date`, sorted, with both tables' columns; it raises exactly when two dates cannot be compared |
| Drive.CsvReplaced | src/drive_client.py:87-97 | with no stored file, an unreadable one, or one without `Date`, the upload is exactly the fresh rows, sorted when they have `Date` |
| Drive.CsvOrderDetermined | src/drive_client.py:95-97 | any sorted, duplicate-free order of the merged rows is the uploaded one |
| Drive.CsvIdempotent | src/drive_client.py:67-97 | re-running `update_csv` with the same rows on the uploaded table uploads it unchanged |
| Drive.SortedMembers | src/drive_client.py:97 | sorting keeps exactly the same rows |
| Drive.FirstDateColumn | src/drive_client.py:146 | the first column whose name contains `Date`, or none when no column does |
| Drive.ActivityMerge | src/drive_client.py:140-148 | has no contract of its own; Drive.ActivitiesMerged states that it upserts on `Activity ID`, sorts descending on the first date column, and raises exactly when that column holds incomparable cells |
| Drive.ActivitiesUpload | src/drive_client.py:127-153 | nothing is uploaded exactly when the fresh table is empty; without a stored file the fresh table is uploaded |
| Drive.UpdateActivitiesCsv | src/drive_client.py:127-153 | the method's steps yield `ActivitiesUpload` of the table `_activities_to_df` builds |
| Drive.ActivitiesMerged | src/drive_client.py:135-151 | merging upserts on `Activity ID`, sorted descending on the first date column, and falls back to the fresh rows exactly when that sort raises |
| Sheets.Fields | src/sheets_client.py:41-75 | 35 fields follow the date, in `HEADERS` order |
| Sheets.GuardOf | src/sheets_client.py:41-75 | has no contract of its own; Sheets.BlankCells states which columns show a zero (the `is not None` ones) and which blank it |
| Sheets.Render | src/sheets_client.py:41-75 | has no contract of its own; Sheets.BlankCells states that `None` gives a blank, a truthy value its text, and zero depends on the column's guard |
| Sheets.Cells | src/sheets_client.py:39-75 | the date cell and the 35 fields, the first being the ISO date |
| Sheets.Summary | src/sheets_client.py:28-32 | the summary raises exactly when the entry lacks one of its five keys; otherwise it is the text "type - name: distance km in duration m (pace/km)" built from those five values |
| Sheets.MapAll | src/sheets_client.py:27-33 | a map that succeeds has one result per item |
| Sheets.MapAllInOrder | src/sheets_client.py:27-33 | result `i` is the summary of item `i` |
| Sheets.MapAllRaises | src/sheets_client.py:27-33 | the map raises exactly when one item does |
| Sheets.SummariesRaise | src/sheets_client.py:27-33 | every activity is summarised, not only the three shown, so any bad entry fails the row |
| Sheets.Slots | src/sheets_client.py:36-37 | three slots: the first three summaries, padded with `""` |
| Sheets.MapMetricsToRow | src/sheets_client.py:24-76 | the method's loops yield `SheetRow` |
| Sheets.SheetRow | src/sheets_client.py:24-76 | has no contract of its own; Sheets.MapMetricsToRow, Sheets.SheetRowShape and Sheets.DateOnlyRow state its 39 cells, its three activity slots and the row of a date-only record |
| Sheets.SheetRowShape | src/sheets_client.py:24-76 | the row has one cell per header (39), starts with the ISO date and ends with the first three summaries padded with `""` |
| Sheets.ParsedEntrySummarises | src/sheets_client.py:28-32 | an entry the activity parser builds never makes the summary raise |
| Sheets.EntryKeys | src/parser.py:196-212 | a parsed entry carries the five keys the summary reads |
| Sheets.SummaryInSlot | src/sheets_client.py:27-33 | slot `i` holds activity `i`'s summary |
| Sheets.BlankCells | src/sheets_client.py:41-75 | `None` is blank everywhere; zero is blank in a truthiness column and shown in an `is not None` one; a truthy value is shown |
| Sheets.DateOnlyRow | src/sheets_client.py:39-76 | a date-only record gives its ISO date and 38 blank cells |
| Sync.Historical | src/main.py:8 | a record is historical exactly when it is in the input and dated before today |
| Sync.HistoricalInOrder | src/main.py:8 | the historical records are a subsequence of the input |
| Sync.HistoricalCounts | src/main.py:8 | each record dated before today is kept as often as it occurs, and every other record is dropped |
| Sync.FileNamesDistinct | src/main.py:22-35 | the seven CSV files have pairwise different names, so no two share a stored table |
| Sync.PlanTabs | src/main.py:22-32 | three files get every record; three more get the historical ones when any record predates today |
| Sync.Plan | src/main.py:22-32 | has no contract of its own; Sync.PlanTabs and Sync.PlanFilesDistinct state that three files get every record and three more get the historical records exactly when there are some |
| Sync.PlanFilesDistinct | src/main.py:22-32 | no file is planned twice |
| Sync.FutureStaysLive | src/main.py:29-32 | a record dated today or later reaches no historical file |
| Sync.RunCalls | src/main.py:19-32 | a run makes at most one write per call |
| Sync.RunCallsSpec | src/main.py:19-39 | the run raises exactly when a call raises; each write is one call's upload, with every earlier call having succeeded |
| Sync.RunCallsFiles | src/main.py:19-39 | only files named by some call are written |
| Sync.CsvStep | src/main.py:22-32 | has no contract of its own; it is `update_csv` with the descending sort on the stored file of the call's name, whose result Drive.UpdateCsv states, and Sync.DriveWrites and Sync.IntendedIsFinish run the plan with it |
| Sync.DriveSync | src/main.py:11-15 | nothing happens for another output type, and without a truthy folder id the branch returns before any write |
| Sync.FolderId | src/main.py:12-13 | has no contract of its own; Sync.DriveSync states that a falsy folder ID ends the Drive branch before any upload |
| Sync.PlanWrites | src/main.py:22-35 | every write is a planned upload, never the activities list, and a historical file is built only from records before today |
| Sync.DriveWrites | src/main.py:19-39 | with a folder the branch always ends in `except`, from an `update_csv` exactly when some planned call raises |
| Sync.ActivitiesCallAlwaysFails | src/main.py:35-39 | as written, the sync never completes and the activities list is never written |
| Sync.DriveSyncIntended | src/main.py:11-15 | the corrected branch has the same early returns |
| Sync.Finish | src/main.py:35-36 | the corrected run fails exactly when an `update_csv` raised |
| Sync.IntendedActivitiesWritten | src/main.py:22-36 | with the corrected call, a run without errors completes after the same CSV writes and uploads the activities list exactly when the activity table is not empty |

## Findings

| source | as written | input that shows it | evidently intended | confidence | as-written member | corrected member |
|---|---|---|---|---|---|---|
| src/main.py:35 | `update_activities_csv` is called with three arguments, but it takes two (src/drive_client.py:127). The call raises a TypeError, which the `except` at lines 37-39 catches and logs as a failed sync. | Any Drive sync with a configured folder and a day with an activity: the activities list is never uploaded, and the success message is never logged. | `update_activities_csv("garmin_activities_list.csv", metrics_to_write)`, uploading the activities and completing the sync | high (not executed) | Sync.ActivitiesCallAlwaysFails | Sync.IntendedActivitiesWritten |

## Left out

- Authentication, MFA handling, the async fetch machinery and logging are left out: they are I/O and control flow on library exception text. The seven fetch results are parameters (`Fetch`), as is the per-activity zone fetch.
- The Google Drive and Sheets API calls, CSV download, parsing and serialisation are not modelled. A stored file is a `Stored` value: no file, unreadable, or its table. An upload is the table that would be sent.
- `datetime.fromtimestamp(...).strftime('%H:%M')`, `float()` on strings and `str()` are host functions and appear as parameters. `str()` of a string is the string itself.
- `date.today()` is the parameter `today`.
- config.py is not part of this model. The header lists of the six CSV files (`Layouts`) and the header-to-attribute map are parameters.
- Floating point is modelled by exact reals. Non-finite floats, int versus float (`Zone 2` versus `Zone 2.0`), and booleans are not distinguished.
- Arithmetic on non-numbers is modelled as raising, and `int()` of a string as raising. Python's string and list `+`/`*` and its parsing of numeric strings are not modelled.
- A NaN cell (a column missing from a row) reads as `None`, and pandas' NaN-versus-None distinctions are not modelled.
- Merge.Comparable: list and dict cells count as incomparable (a TypeError in the sort). Pandas' handling of mixed object columns is only approximated.
- Merge.SortRows: the sort is a stable insertion sort, while `sort_values` defaults to an unstable quicksort. Where keys tie, the model fixes an order the source leaves unspecified. For `update_csv`, Drive.CsvOrderDetermined shows the merged order is unique.
- Drive.UpdateCsv: the branch where a new file has repeated dates in the fresh rows keeps them all, as the source does. Drive.CsvIdempotent is stated for a stored table with a `Date` column.
- Activities.ActivitiesFrom: the per-activity loop follows src/parser.py:163-215, where `activity.get('activityType', {})` sits outside the `try`, so an item that is not a dict makes the whole day date-only. The src/garmin_client.py fragment opens its `try` at the first statement of the loop (lines 38-40), where the same item would only be skipped; the model does not follow the fragment there.
- PyValues.ValuesOf: it yields one value per member, so for a dict whose decoded JSON repeats a key, the shadowed earlier binding is also yielded (Python would keep one entry, at the first position, holding the last value). The model is exact for payloads without repeated keys, which is what Parser.FirstPhrase reads.
- Activities.EntryMeasureCells: the measure values reach the entry by position (`MeasureKeys[j]` holds `Measures`' j-th cell); only `Time`, `Type` and `Avg Power` are also stated by column name.
- Sync.DriveSync: the `update_activities_csv` call at src/main.py:35 always raises, so the model never runs that call (see Findings).
- The monthly aggregation, circular time averaging, serial-date handling, pruning and lactate-threshold extraction do not appear in the modelled files. The lactate fields are carried as given.
