/** `update_csv` and `update_activities_csv` without the Drive calls: what the
    stored CSV table becomes once the freshly built rows are merged into it. */
module Drive {
  import opened PyValues
  import opened Text
  import opened Metrics
  import opened Rows
  import opened Merge

  /** What looking up and reading the stored CSV gives: no such file in the
      folder, a download or parse error, or its table. */
  datatype Stored = NoFile | Unreadable | Csv(table: Frame)

  /** What is sent back to Drive: nothing, or the table to upload. */
  datatype Upload = Skipped | Uploaded(table: Frame)

  /** `combined_df` of `update_csv` before sorting: a stored table with a
      `Date` column is upserted on `Date`; otherwise the fresh rows replace it. */
  function DateMerge(stored: Stored, batch: Frame): Frame
  {
    if stored.Csv? && "Date" in stored.table.columns then
      var c := Concat(stored.table, batch);
      Frame(c.columns, DedupLast(c.rows, "Date"))
    else batch
  }

  /** What `update_csv` uploads for the fresh table `batch`; the sort is outside
      the `try`, so its TypeError escapes. */
  function CsvUpload(stored: Stored, batch: Frame, desc: bool): (r: Result<Upload>)
    ensures r == Ok(Skipped) <==> Empty(batch)
  {
    if Empty(batch) then Ok(Skipped)
    else
      var combined := DateMerge(stored, batch);
      if "Date" in combined.columns then
        var sorted :- SortFrame(combined, "Date", desc);
        Ok(Uploaded(sorted))
      else Ok(Uploaded(combined))
  }

  /** `update_csv(filename, metrics, headers, sort_date_desc)`. */
  method UpdateCsv(stored: Stored, metrics: seq<DailyRecord>, headers: seq<string>, attrs: map<string, string>, desc: bool)
    returns (r: Result<Upload>)
    ensures r == CsvUpload(stored, FrameOf(MetricsDicts(metrics, headers, attrs)), desc)
  {
    var batch := MetricsToDf(metrics, headers, attrs);
    if Empty(batch) {
      return Ok(Skipped);
    }
    var combined := DateMerge(stored, batch);
    if "Date" in combined.columns {
      var sorted :- SortFrame(combined, "Date", desc);
      return Ok(Uploaded(sorted));
    }
    return Ok(Uploaded(combined));
  }

  /** Merging into a stored table with a `Date` column: the upload is the
      upsert of the fresh rows on `Date` (one row per date, the fresh row winning),
      sorted on `Date`, with the columns of both tables; it raises exactly when
      two of its dates cannot be compared. */
  lemma CsvMerged(stored: Stored, batch: Frame, desc: bool)
    requires stored.Csv? && "Date" in stored.table.columns && !Empty(batch)
    ensures var r := CsvUpload(stored, batch, desc);
      var rows := DedupLast(stored.table.rows + batch.rows, "Date");
      && (r.Raised? <==> !AllComparable(rows, "Date"))
      && (r.Ok? ==> (r.value.Uploaded?
          && Upserted(r.value.table.rows, stored.table.rows, batch.rows, "Date")
          && SortedOn(r.value.table.rows, "Date", desc)
          && (forall c :: c in r.value.table.columns <==> c in stored.table.columns || c in batch.columns)))
  {
    var rows := DedupLast(stored.table.rows + batch.rows, "Date");
    MergeLastWins(stored.table.rows, batch.rows, "Date");
    UpsertedSorted(rows, stored.table.rows, batch.rows, "Date", "Date", desc);
    SortRowsSorted(rows, "Date", desc);
  }

  /** With no stored file, an unreadable one, or one without a `Date` column,
      the upload holds exactly the fresh rows, sorted on `Date` when they have
      that column. */
  lemma CsvReplaced(stored: Stored, batch: Frame, desc: bool)
    requires !stored.Csv? || "Date" !in stored.table.columns
    requires !Empty(batch)
    ensures var r := CsvUpload(stored, batch, desc);
      && (r.Raised? <==> "Date" in batch.columns && !AllComparable(batch.rows, "Date"))
      && (r.Ok? ==> (r.value.Uploaded?
          && r.value.table.columns == batch.columns
          && multiset(r.value.table.rows) == multiset(batch.rows)
          && ("Date" in batch.columns ==> SortedOn(r.value.table.rows, "Date", desc))
          && ("Date" !in batch.columns ==> r.value.table == batch)))
  {
    SortRowsSorted(batch.rows, "Date", desc);
  }

  /** The order of a merged upload is the only order sorted on `Date`, so it
      does not depend on the stability of the sorting algorithm. */
  lemma CsvOrderDetermined(stored: Stored, batch: Frame, desc: bool, other: seq<Row>)
    requires stored.Csv? && "Date" in stored.table.columns && !Empty(batch)
    requires CsvUpload(stored, batch, desc).Ok?
    requires forall x :: x in other <==> x in CsvUpload(stored, batch, desc).value.table.rows
    requires UniqueKeys(other, "Date") && SortedOn(other, "Date", desc)
    ensures other == CsvUpload(stored, batch, desc).value.table.rows
  {
    CsvMerged(stored, batch, desc);
    var rows := DedupLast(stored.table.rows + batch.rows, "Date");
    var t := SortRows(rows, "Date", desc);
    assert forall x :: x in t <==> x in multiset(t);
    assert forall x :: x in rows <==> x in multiset(rows);
    SortedUnique(t, other, "Date", desc);
  }

  /** Running `update_csv` again with the same rows on the table it uploaded
      uploads that table unchanged. */
  lemma CsvIdempotent(stored: Stored, batch: Frame, desc: bool)
    requires stored.Csv? && "Date" in stored.table.columns && !Empty(batch)
    requires CsvUpload(stored, batch, desc).Ok?
    ensures var t := CsvUpload(stored, batch, desc).value.table;
      CsvUpload(Csv(t), batch, desc) == Ok(Uploaded(t))
  {
    var t := CsvUpload(stored, batch, desc).value.table;
    CsvMerged(stored, batch, desc);
    MergedComparable(stored, batch, desc);
    AddNewKnown(t.columns, batch.columns);
    UpsertSortedAgain(t.rows, stored.table.rows, batch.rows, "Date", desc);
  }

  /** The dates of a merged upload can all be compared with each other. */
  lemma MergedComparable(stored: Stored, batch: Frame, desc: bool)
    requires stored.Csv? && "Date" in stored.table.columns && !Empty(batch)
    requires CsvUpload(stored, batch, desc).Ok?
    ensures AllComparable(CsvUpload(stored, batch, desc).value.table.rows, "Date")
  {
    var rows := DedupLast(stored.table.rows + batch.rows, "Date");
    assert CsvUpload(stored, batch, desc).value.table.rows == SortRows(rows, "Date", desc);
    SortedMembers(rows, "Date", desc);
  }

  lemma SortedMembers(rs: seq<Row>, k: string, desc: bool)
    ensures forall x :: x in SortRows(rs, k, desc) <==> x in rs
  {
    var s := SortRows(rs, k, desc);
    assert forall x :: x in s <==> x in multiset(s);
    assert forall x :: x in rs <==> x in multiset(rs);
  }

  /** `next((c for c in cols if 'Date' in c), None)`: the first column whose
      name contains "Date". */
  function FirstDateColumn(cols: seq<string>): (c: Option<string>)
    ensures c.None? <==> forall i :: 0 <= i < |cols| ==> !IsSubstring("Date", cols[i])
    ensures c.Some? ==> exists i :: (0 <= i < |cols| && cols[i] == c.value && IsSubstring("Date", cols[i])
      && forall j :: 0 <= j < i ==> !IsSubstring("Date", cols[j]))
  {
    if cols == [] then None
    else if IsSubstring("Date", cols[0]) then Some(cols[0])
    else
      var r := FirstDateColumn(cols[1..]);
      assert forall i :: 0 < i < |cols| ==> cols[i] == cols[1..][i - 1];
      if r.Some? then
        ghost var i :| (0 <= i < |cols[1..]| && cols[1..][i] == r.value && IsSubstring("Date", cols[1..][i])
          && forall j :: 0 <= j < i ==> !IsSubstring("Date", cols[1..][j]));
        assert cols[i + 1] == r.value;
        r
      else r
  }

  /** The body of the `try` in `update_activities_csv`: concatenate, and when
      there is an `Activity ID` column keep the last row per ID and sort
      descending on the first date column. */
  function ActivityMerge(e: Frame, batch: Frame): Result<Frame>
  {
    var c := Concat(e, batch);
    if "Activity ID" in c.columns then
      var d := Frame(c.columns, DedupLast(c.rows, "Activity ID"));
      match FirstDateColumn(d.columns)
      case Some(col) => SortFrame(d, col, true)
      case None => Ok(d)
    else Ok(c)
  }

  /** What `update_activities_csv` uploads for the fresh activity table
      `batch`: any error while merging falls back to the fresh rows alone. */
  function ActivitiesUpload(stored: Stored, batch: Frame): (u: Upload)
    ensures u == Skipped <==> Empty(batch)
    ensures !stored.Csv? && !Empty(batch) ==> u == Uploaded(batch)
  {
    if Empty(batch) then Skipped
    else if stored.Csv? then
      match ActivityMerge(stored.table, batch)
      case Ok(t) => Uploaded(t)
      case Raised => Uploaded(batch)
    else Uploaded(batch)
  }

  /** `update_activities_csv(filename, metrics)`. */
  method UpdateActivitiesCsv(stored: Stored, metrics: seq<DailyRecord>) returns (u: Upload)
    ensures u == ActivitiesUpload(stored, FrameOf(AllActivities(metrics)))
  {
    var batch := ActivitiesToDf(metrics);
    if Empty(batch) {
      return Skipped;
    }
    if stored.Csv? {
      var merged := ActivityMerge(stored.table, batch);
      if merged.Ok? {
        return Uploaded(merged.value);
      }
    }
    return Uploaded(batch);
  }

  /** A re-fetched activity replaces the stored one: merging into a stored
      table, with the fresh rows carrying an `Activity ID` column, uploads the
      upsert on `Activity ID`, sorted descending on the first date column; when
      that sort raises, only the fresh rows are uploaded. */
  lemma ActivitiesMerged(stored: Stored, batch: Frame)
    requires stored.Csv? && !Empty(batch) && "Activity ID" in batch.columns
    ensures var u := ActivitiesUpload(stored, batch);
      var c := Concat(stored.table, batch);
      var rows := DedupLast(c.rows, "Activity ID");
      && u.Uploaded?
      && (ActivityMerge(stored.table, batch).Ok? ==> (
          && u.table.columns == c.columns
          && Upserted(u.table.rows, stored.table.rows, batch.rows, "Activity ID")
          && (FirstDateColumn(c.columns).Some? ==> SortedOn(u.table.rows, FirstDateColumn(c.columns).value, true))))
      && (ActivityMerge(stored.table, batch).Raised? <==>
          FirstDateColumn(c.columns).Some? && !AllComparable(rows, FirstDateColumn(c.columns).value))
      && (ActivityMerge(stored.table, batch).Raised? ==> u.table == batch)
  {
    var c := Concat(stored.table, batch);
    var rows := DedupLast(c.rows, "Activity ID");
    MergeLastWins(stored.table.rows, batch.rows, "Activity ID");
    match FirstDateColumn(c.columns)
    case Some(col) =>
      UpsertedSorted(rows, stored.table.rows, batch.rows, "Activity ID", col, true);
      SortRowsSorted(rows, col, true);
    case None =>
  }
}
