/** Laying daily records out as tables: the rows `_metrics_to_df` builds from a
    header list, the flattened activity list of `_activities_to_df`, and the
    DataFrame a list of dicts becomes. */
module Rows {
  import opened PyValues
  import opened Dates
  import opened Metrics

  /** One table row, column name to cell. A column the row has no entry for
      holds NaN, which every operation modelled here treats like `None`. */
  type Row = map<string, Json>

  /** A DataFrame: column names in order, and the rows. */
  datatype Frame = Frame(columns: seq<string>, rows: seq<Row>)

  /** `df.empty`: no rows, or no columns. */
  predicate Empty(f: Frame)
  {
    f.rows == [] || f.columns == []
  }

  predicate Distinct(xs: seq<string>)
  {
    forall i, j :: 0 <= i < j < |xs| ==> xs[i] != xs[j]
  }

  /** The names in `cols`, followed by those of `ks` not seen before, in the
      order they first appear. */
  function AddNew(cols: seq<string>, ks: seq<string>): (r: seq<string>)
    ensures cols <= r
    ensures forall k :: k in r <==> k in cols || k in ks
    ensures Distinct(cols) ==> Distinct(r)
    decreases |ks|
  {
    if ks == [] then cols
    else if ks[0] in cols then AddNew(cols, ks[1..])
    else
      assert Distinct(cols) ==> Distinct(cols + [ks[0]]);
      AddNew(cols + [ks[0]], ks[1..])
  }

  /** Adding names that are all present already changes nothing. */
  lemma {:induction false} AddNewKnown(cols: seq<string>, ks: seq<string>)
    requires forall k :: k in ks ==> k in cols
    ensures AddNew(cols, ks) == cols
    decreases |ks|
  {
    if ks != [] {
      assert ks[0] in ks;
      AddNewKnown(cols, ks[1..]);
    }
  }

  /** Distinct names, added to nothing, keep their order. */
  lemma {:induction false} AddNewDistinct(cols: seq<string>, ks: seq<string>)
    requires Distinct(cols + ks)
    ensures AddNew(cols, ks) == cols + ks
    decreases |ks|
  {
    if ks != [] {
      assert ks[0] == (cols + ks)[|cols|];
      assert ks[0] !in cols by {
        forall i | 0 <= i < |cols| ensures cols[i] != ks[0] {
          assert cols[i] == (cols + ks)[i];
        }
      }
      assert cols + [ks[0]] + ks[1..] == cols + ks;
      AddNewDistinct(cols + [ks[0]], ks[1..]);
    }
  }

  /** A dict as a row: each key to the value it is bound to. */
  function ToRow(d: Dict): (r: Row)
    ensures forall k :: k in r <==> k in Keys(d)
    ensures forall k :: k in r ==> Lookup(d, k) == Some(r[k])
  {
    map k | k in Keys(d) :: Lookup(d, k).value
  }

  /** The column names of `pd.DataFrame(ds)`: every key of every dict, once,
      in the order first seen. */
  function ColumnsOf(ds: seq<Dict>): (cs: seq<string>)
    ensures Distinct(cs)
  {
    if ds == [] then [] else AddNew(ColumnsOf(ds[..|ds| - 1]), Keys(ds[|ds| - 1]))
  }

  lemma {:induction false} ColumnsOfKeys(ds: seq<Dict>, k: string)
    ensures k in ColumnsOf(ds) <==> exists i :: 0 <= i < |ds| && k in Keys(ds[i])
  {
    if ds != [] {
      var init, last := ds[..|ds| - 1], ds[|ds| - 1];
      ColumnsOfKeys(init, k);
      assert ColumnsOf(ds) == AddNew(ColumnsOf(init), Keys(last));
      SomeKeysSnoc(ds, init, k);
    }
  }

  /** Some dict of `ds` has key `k` exactly when one of the first ones or the
      last one has. */
  lemma SomeKeysSnoc(ds: seq<Dict>, init: seq<Dict>, k: string)
    requires ds != [] && init == ds[..|ds| - 1]
    ensures (exists i :: 0 <= i < |ds| && k in Keys(ds[i])) <==>
      (exists i :: 0 <= i < |init| && k in Keys(init[i])) || k in Keys(ds[|ds| - 1])
  {
    if exists i :: 0 <= i < |ds| && k in Keys(ds[i]) {
      var i :| 0 <= i < |ds| && k in Keys(ds[i]);
      if i < |init| {
        assert init[i] == ds[i];
      }
    }
    if exists i :: 0 <= i < |init| && k in Keys(init[i]) {
      var i :| 0 <= i < |init| && k in Keys(init[i]);
      assert init[i] == ds[i];
    }
  }

  /** `pd.DataFrame(ds)` for a list of dicts: one row per dict, in order. */
  function FrameOf(ds: seq<Dict>): (f: Frame)
    ensures |f.rows| == |ds|
    ensures forall i :: 0 <= i < |ds| ==> f.rows[i] == ToRow(ds[i])
    ensures Distinct(f.columns)
  {
    Frame(ColumnsOf(ds), seq(|ds|, i requires 0 <= i < |ds| => ToRow(ds[i])))
  }

  /** The value `_metrics_to_df` stores under header `h`: the attribute the
      header maps to, with a date rendered as its ISO string; `None` when the
      header maps to nothing or to an empty name. */
  function Cell(m: DailyRecord, h: string, attrs: map<string, string>): Json
  {
    if h in attrs && attrs[h] != "" then
      match Attr(m, attrs[h])
      case DateValue(d) => JStr(Iso(d))
      case PlainValue(x) => x
    else JNull
  }

  /** A header with no attribute gives `None`; the `date` attribute gives the
      record's ISO date; any other attribute gives the record's value for it. */
  lemma CellRules(m: DailyRecord, h: string, attrs: map<string, string>)
    ensures h !in attrs || attrs[h] == "" ==> Cell(m, h, attrs) == JNull
    ensures h in attrs && attrs[h] == "date" ==> Cell(m, h, attrs) == JStr(Iso(m.date))
    ensures h in attrs && attrs[h] != "date" && attrs[h] != "" ==> Cell(m, h, attrs) == Attr(m, attrs[h]).v
  {
  }

  /** The dict built by assigning `d[h] = cell(h)` for the headers `hs` in turn. */
  function Assign(hs: seq<string>, cell: string -> Json): Dict
  {
    if hs == [] then [] else Set(Assign(hs[..|hs| - 1], cell), hs[|hs| - 1], cell(hs[|hs| - 1]))
  }

  /** The assigned dict holds exactly the headers, each bound to its cell; with
      distinct headers its keys are the headers in order. */
  lemma {:induction false} AssignKeys(hs: seq<string>, cell: string -> Json)
    ensures forall h :: h in Keys(Assign(hs, cell)) <==> h in hs
    ensures forall h :: h in hs ==> Lookup(Assign(hs, cell), h) == Some(cell(h))
    ensures Distinct(hs) ==> Keys(Assign(hs, cell)) == hs
  {
    AssignMembers(hs, cell);
    AssignLookups(hs, cell);
    if Distinct(hs) {
      AssignDistinct(hs, cell);
    }
  }

  lemma {:induction false} AssignMembers(hs: seq<string>, cell: string -> Json)
    ensures forall h :: h in Keys(Assign(hs, cell)) <==> h in hs
  {
    if hs != [] {
      var init, h := hs[..|hs| - 1], hs[|hs| - 1];
      AssignMembers(init, cell);
      assert hs == init + [h];
    }
  }

  lemma {:induction false} AssignLookups(hs: seq<string>, cell: string -> Json)
    ensures forall h :: h in hs ==> Lookup(Assign(hs, cell), h) == Some(cell(h))
  {
    if hs != [] {
      var init, h := hs[..|hs| - 1], hs[|hs| - 1];
      AssignLookups(init, cell);
      forall x | x in hs ensures Lookup(Assign(hs, cell), x) == Some(cell(x)) {
        if x != h {
          assert hs == init + [h];
          assert x in init;
        }
      }
    }
  }

  lemma {:induction false} AssignDistinct(hs: seq<string>, cell: string -> Json)
    requires Distinct(hs)
    ensures Keys(Assign(hs, cell)) == hs
  {
    if hs != [] {
      var init, h := hs[..|hs| - 1], hs[|hs| - 1];
      assert Distinct(init);
      AssignDistinct(init, cell);
      assert h !in init;
      assert hs == init + [h];
    }
  }

  /** The `row` dict `_metrics_to_df` builds for record `m`. */
  function RowDict(m: DailyRecord, hs: seq<string>, attrs: map<string, string>): Dict
  {
    Assign(hs, h => Cell(m, h, attrs))
  }

  /** The list of row dicts built for `metrics`, one per record. */
  function MetricsDicts(metrics: seq<DailyRecord>, hs: seq<string>, attrs: map<string, string>): (ds: seq<Dict>)
    ensures |ds| == |metrics|
    ensures forall i :: 0 <= i < |metrics| ==> ds[i] == RowDict(metrics[i], hs, attrs)
  {
    seq(|metrics|, i requires 0 <= i < |metrics| => RowDict(metrics[i], hs, attrs))
  }

  /** `_metrics_to_df`. */
  method MetricsToDf(metrics: seq<DailyRecord>, headers: seq<string>, attrs: map<string, string>) returns (df: Frame)
    ensures df == FrameOf(MetricsDicts(metrics, headers, attrs))
  {
    var data: seq<Dict> := [];
    for i := 0 to |metrics|
      invariant data == MetricsDicts(metrics[..i], headers, attrs)
    {
      var row: Dict := [];
      for j := 0 to |headers|
        invariant row == RowDict(metrics[i], headers[..j], attrs)
      {
        RowDictSnoc(metrics[i], headers, j, attrs);
        row := Set(row, headers[j], Cell(metrics[i], headers[j], attrs));
      }
      assert headers[..|headers|] == headers;
      MetricsDictsSnoc(metrics, i, headers, attrs);
      data := data + [row];
    }
    assert metrics[..|metrics|] == metrics;
    df := FrameOf(data);
  }

  lemma RowDictSnoc(m: DailyRecord, hs: seq<string>, j: nat, attrs: map<string, string>)
    requires j < |hs|
    ensures RowDict(m, hs[..j + 1], attrs) == Set(RowDict(m, hs[..j], attrs), hs[j], Cell(m, hs[j], attrs))
  {
    var cell := h => Cell(m, h, attrs);
    assert hs[..j + 1][..j] == hs[..j];
    assert Assign(hs[..j + 1], cell) == Set(Assign(hs[..j], cell), hs[j], cell(hs[j]));
  }

  lemma MetricsDictsSnoc(metrics: seq<DailyRecord>, i: nat, hs: seq<string>, attrs: map<string, string>)
    requires i < |metrics|
    ensures MetricsDicts(metrics[..i + 1], hs, attrs) == MetricsDicts(metrics[..i], hs, attrs) + [RowDict(metrics[i], hs, attrs)]
  {
    assert metrics[..i + 1][..i] == metrics[..i];
  }

  /** The table of `_metrics_to_df` has a row per record, in order, and each
      row holds exactly the headers (`MetricsCell` gives what it holds under
      each). */
  lemma MetricsRowKeys(metrics: seq<DailyRecord>, hs: seq<string>, attrs: map<string, string>, i: nat, h: string)
    requires i < |metrics|
    ensures var f := FrameOf(MetricsDicts(metrics, hs, attrs));
      |f.rows| == |metrics| && (h in f.rows[i] <==> h in hs)
  {
    AssignKeys(hs, h => Cell(metrics[i], h, attrs));
  }

  /** With distinct headers and at least one record, the columns are the
      headers in order. */
  lemma MetricsColumns(metrics: seq<DailyRecord>, hs: seq<string>, attrs: map<string, string>)
    requires Distinct(hs) && metrics != []
    ensures FrameOf(MetricsDicts(metrics, hs, attrs)).columns == hs
  {
    var ds := MetricsDicts(metrics, hs, attrs);
    forall i | 0 <= i < |metrics| ensures Keys(ds[i]) == hs {
      AssignKeys(hs, h => Cell(metrics[i], h, attrs));
    }
    ColumnsSame(ds, hs);
  }

  /** The table is empty exactly when there are no records or no headers. */
  lemma MetricsEmpty(metrics: seq<DailyRecord>, hs: seq<string>, attrs: map<string, string>)
    ensures Empty(FrameOf(MetricsDicts(metrics, hs, attrs))) <==> metrics == [] || hs == []
  {
    var ds := MetricsDicts(metrics, hs, attrs);
    if metrics != [] && hs != [] {
      AssignKeys(hs, h => Cell(metrics[0], h, attrs));
      assert hs[0] in Keys(ds[0]);
      ColumnsOfKeys(ds, hs[0]);
    }
    if hs == [] && ColumnsOf(ds) != [] {
      ColumnsOfKeys(ds, ColumnsOf(ds)[0]);
    }
  }

  /** Row `i` holds, under header `h`, the record's cell for that header. */
  lemma MetricsCell(metrics: seq<DailyRecord>, hs: seq<string>, attrs: map<string, string>, i: nat, h: string)
    requires i < |metrics| && h in hs
    ensures var row := FrameOf(MetricsDicts(metrics, hs, attrs)).rows[i];
      h in row && row[h] == Cell(metrics[i], h, attrs)
  {
    var cell := h => Cell(metrics[i], h, attrs);
    AssignKeys(hs, cell);
    assert Lookup(Assign(hs, cell), h) == Some(cell(h));
  }

  /** Dicts that all have the same distinct keys give those keys as columns. */
  lemma {:induction false} ColumnsSame(ds: seq<Dict>, hs: seq<string>)
    requires Distinct(hs) && ds != []
    requires forall i :: 0 <= i < |ds| ==> Keys(ds[i]) == hs
    ensures ColumnsOf(ds) == hs
  {
    var init := ds[..|ds| - 1];
    if |ds| == 1 {
      assert hs == [] + hs;
      AddNewDistinct([], hs);
    } else {
      ColumnsSame(init, hs);
      AddNewKnown(hs, hs);
    }
  }

  /** Every record's activities, concatenated in record order. */
  function AllActivities(metrics: seq<DailyRecord>): seq<Dict>
  {
    if metrics == [] then []
    else AllActivities(metrics[..|metrics| - 1]) + metrics[|metrics| - 1].activities
  }

  /** An activity entry is in the flattened list exactly when some record
      holds it; the list is empty exactly when no record has activities. */
  lemma {:induction false} AllActivitiesMembers(metrics: seq<DailyRecord>)
    ensures forall a :: a in AllActivities(metrics) <==> exists i :: 0 <= i < |metrics| && a in metrics[i].activities
    ensures AllActivities(metrics) == [] <==> forall i :: 0 <= i < |metrics| ==> metrics[i].activities == []
  {
    if metrics != [] {
      var init := metrics[..|metrics| - 1];
      AllActivitiesMembers(init);
      assert forall i :: 0 <= i < |init| ==> init[i] == metrics[i];
    }
  }

  /** Flattening two runs of records flattens each, in order. */
  lemma {:induction false} AllActivitiesAppend(a: seq<DailyRecord>, b: seq<DailyRecord>)
    ensures AllActivities(a + b) == AllActivities(a) + AllActivities(b)
    decreases |b|
  {
    if b == [] {
      assert a + b == a;
    } else {
      var n, init := |b|, b[..|b| - 1];
      assert (a + b)[..|a + b| - 1] == a + init && (a + b)[|a + b| - 1] == b[n - 1];
      AllActivitiesAppend(a, init);
      assert AllActivities(a + b) == AllActivities(a + init) + b[n - 1].activities;
      assert AllActivities(b) == AllActivities(init) + b[n - 1].activities;
    }
  }

  /** `_activities_to_df`. */
  method ActivitiesToDf(metrics: seq<DailyRecord>) returns (df: Frame)
    ensures df == FrameOf(AllActivities(metrics))
  {
    var all: seq<Dict> := [];
    for i := 0 to |metrics|
      invariant all == AllActivities(metrics[..i])
    {
      assert metrics[..i + 1][..i] == metrics[..i];
      if metrics[i].activities != [] {
        all := all + metrics[i].activities;
      }
    }
    assert metrics[..|metrics|] == metrics;
    if all == [] {
      return Frame([], []);
    }
    df := FrameOf(all);
  }
}
