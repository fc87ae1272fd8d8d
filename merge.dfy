/** The upsert merge of a stored table with freshly built rows, as
    `update_csv` and `update_activities_csv` do it: concatenate, keep the last
    row for each key (`drop_duplicates(keep='last')`), then sort on a date
    column (`sort_values`). */
module Merge {
  import opened PyValues
  import opened Text
  import opened Metrics
  import opened Rows

  /** A row's value in column `k`; a missing cell (NaN) counts as `None`. */
  function KeyOf(r: Row, k: string): Json
  {
    if k in r then r[k] else JNull
  }

  /** `pd.concat([a, b])`: the rows of `a`, then those of `b`; the columns of
      `a`, then the new ones of `b`. */
  function Concat(a: Frame, b: Frame): (c: Frame)
    ensures forall col :: col in c.columns <==> col in a.columns || col in b.columns
    ensures a.columns <= c.columns
  {
    Frame(AddNew(a.columns, b.columns), a.rows + b.rows)
  }

  predicate HasKey(rs: seq<Row>, k: string, v: Json)
  {
    exists i :: 0 <= i < |rs| && KeyOf(rs[i], k) == v
  }

  lemma HasKeyAppend(a: seq<Row>, b: seq<Row>, k: string, v: Json)
    ensures HasKey(a + b, k, v) <==> HasKey(a, k, v) || HasKey(b, k, v)
  {
    if HasKey(a + b, k, v) {
      var i :| 0 <= i < |a + b| && KeyOf((a + b)[i], k) == v;
      if i >= |a| { assert b[i - |a|] == (a + b)[i]; }
    }
    if HasKey(a, k, v) {
      var i :| 0 <= i < |a| && KeyOf(a[i], k) == v;
      assert (a + b)[i] == a[i];
    }
    if HasKey(b, k, v) {
      var i :| 0 <= i < |b| && KeyOf(b[i], k) == v;
      assert (a + b)[|a| + i] == b[i];
    }
  }

  lemma HasKeyMember(rs: seq<Row>, k: string, x: Row)
    requires x in rs
    ensures HasKey(rs, k, KeyOf(x, k))
  {
    var i :| 0 <= i < |rs| && rs[i] == x;
  }

  /** `drop_duplicates(subset=[k], keep='last')`: of the rows sharing a value in
      column `k` only the last stays; the survivors keep their order. */
  function DedupLast(rs: seq<Row>, k: string): (r: seq<Row>)
    ensures forall x :: x in r ==> x in rs
  {
    if rs == [] then []
    else if HasKey(rs[1..], k, KeyOf(rs[0], k)) then DedupLast(rs[1..], k)
    else [rs[0]] + DedupLast(rs[1..], k)
  }

  predicate UniqueKeys(rs: seq<Row>, k: string)
  {
    forall i, j :: 0 <= i < j < |rs| ==> KeyOf(rs[i], k) != KeyOf(rs[j], k)
  }

  /** The last row of `rs` whose column `k` holds `v`. */
  function LastWith(rs: seq<Row>, k: string, v: Json): (r: Option<Row>)
    ensures r.Some? ==> r.value in rs && KeyOf(r.value, k) == v
  {
    if rs == [] then None
    else if HasKey(rs[1..], k, v) then LastWith(rs[1..], k, v)
    else if KeyOf(rs[0], k) == v then Some(rs[0])
    else None
  }

  lemma {:induction false} LastWithFound(rs: seq<Row>, k: string, v: Json)
    ensures LastWith(rs, k, v).Some? <==> HasKey(rs, k, v)
  {
    if rs != [] {
      LastWithFound(rs[1..], k, v);
      if HasKey(rs, k, v) && !HasKey(rs[1..], k, v) {
        var i :| 0 <= i < |rs| && KeyOf(rs[i], k) == v;
      }
      if HasKey(rs[1..], k, v) {
        var i :| 0 <= i < |rs[1..]| && KeyOf(rs[1..][i], k) == v;
        assert rs[i + 1] == rs[1..][i];
      }
    }
  }

  /** The last row with a value in `a + b` comes from `b` when `b` has one. */
  lemma {:induction false} LastWithAppend(a: seq<Row>, b: seq<Row>, k: string, v: Json)
    ensures LastWith(a + b, k, v) == if HasKey(b, k, v) then LastWith(b, k, v) else LastWith(a, k, v)
  {
    if a == [] {
      assert a + b == b;
      LastWithFound(b, k, v);
    } else {
      assert (a + b)[1..] == a[1..] + b;
      assert (a + b)[0] == a[0];
      HasKeyAppend(a[1..], b, k, v);
      LastWithAppend(a[1..], b, k, v);
      LastWithFound(a[1..], k, v);
    }
  }

  /** After `DedupLast` each key value occurs once, and the row kept for a value
      is the last row that had it; every value of the input survives. */
  lemma {:induction false} DedupKeepsLast(rs: seq<Row>, k: string)
    ensures UniqueKeys(DedupLast(rs, k), k)
    ensures forall x :: x in DedupLast(rs, k) ==> LastWith(rs, k, KeyOf(x, k)) == Some(x)
    ensures forall v :: HasKey(rs, k, v) ==> LastWith(rs, k, v).Some? && LastWith(rs, k, v).value in DedupLast(rs, k)
  {
    if rs != [] {
      var t := rs[1..];
      DedupKeepsLast(t, k);
      var d := DedupLast(t, k);
      forall x | x in d ensures LastWith(rs, k, KeyOf(x, k)) == Some(x) {
        HasKeyMember(t, k, x);
      }
      forall v | HasKey(rs, k, v)
        ensures LastWith(rs, k, v).Some? && LastWith(rs, k, v).value in DedupLast(rs, k)
      {
        LastWithFound(rs, k, v);
        LastWithFound(t, k, v);
      }
      if !HasKey(t, k, KeyOf(rs[0], k)) {
        forall j | 0 <= j < |d| ensures KeyOf(d[j], k) != KeyOf(rs[0], k) {
          HasKeyMember(t, k, d[j]);
        }
        assert forall j :: 0 < j < |[rs[0]] + d| ==> ([rs[0]] + d)[j] == d[j - 1];
      }
    }
  }

  /** `r` is what an upsert of `batch` into `stored` on key column `k` must
      leave: one row per key value; for a value found in `batch`, the last row
      of `batch` with it; for any other value of `stored`, the last row of
      `stored` with it; and no other row. */
  ghost predicate Upserted(r: seq<Row>, stored: seq<Row>, batch: seq<Row>, k: string)
  {
    && UniqueKeys(r, k)
    && (forall v :: HasKey(batch, k, v) ==> LastWith(batch, k, v).Some? && LastWith(batch, k, v).value in r)
    && (forall v :: HasKey(stored, k, v) && !HasKey(batch, k, v) ==> LastWith(stored, k, v).Some? && LastWith(stored, k, v).value in r)
    && (forall x :: x in r && HasKey(batch, k, KeyOf(x, k)) ==> LastWith(batch, k, KeyOf(x, k)) == Some(x))
    && (forall x :: x in r && !HasKey(batch, k, KeyOf(x, k)) ==> LastWith(stored, k, KeyOf(x, k)) == Some(x))
  }

  /** Last write wins: concatenating `batch` after `stored` and keeping the
      last row per key is an upsert. */
  lemma MergeLastWins(stored: seq<Row>, batch: seq<Row>, k: string)
    ensures Upserted(DedupLast(stored + batch, k), stored, batch, k)
  {
    DedupKeepsLast(stored + batch, k);
    forall v ensures LastWith(stored + batch, k, v) == if HasKey(batch, k, v) then LastWith(batch, k, v) else LastWith(stored, k, v) {
      LastWithAppend(stored, batch, k, v);
    }
    forall v | HasKey(batch, k, v) || HasKey(stored, k, v) ensures HasKey(stored + batch, k, v) {
      HasKeyAppend(stored, batch, k, v);
    }
  }

  /** A stored row whose key is unique in the stored table and absent from the
      batch survives the upsert unchanged. */
  lemma UpsertKeepsStored(r: seq<Row>, stored: seq<Row>, batch: seq<Row>, k: string, x: Row)
    requires Upserted(r, stored, batch, k)
    requires UniqueKeys(stored, k) && x in stored && !HasKey(batch, k, KeyOf(x, k))
    ensures x in r
  {
    LastWithUnique(stored, k, x);
    HasKeyMember(stored, k, x);
  }

  /** Among rows with distinct keys, the last row with a row's key is that row. */
  lemma LastWithUnique(rs: seq<Row>, k: string, x: Row)
    requires UniqueKeys(rs, k) && x in rs
    ensures LastWith(rs, k, KeyOf(x, k)) == Some(x)
  {
    HasKeyMember(rs, k, x);
    LastWithFound(rs, k, KeyOf(x, k));
    var y := LastWith(rs, k, KeyOf(x, k)).value;
    var i :| 0 <= i < |rs| && rs[i] == x;
    var j :| 0 <= j < |rs| && rs[j] == y;
    assert i == j;
  }

  /** Python's `<` on two cell values of one kind; other pairs are not ordered. */
  predicate Less(a: Json, b: Json)
  {
    (a.JStr? && b.JStr? && StrLess(a.s, b.s)) || (a.JNum? && b.JNum? && a.n < b.n)
  }

  /** Two cell values `sort_values` can order: one of them missing, or both
      strings, or both numbers. Anything else is a TypeError. */
  predicate Comparable(a: Json, b: Json)
  {
    a.JNull? || b.JNull? || (a.JStr? && b.JStr?) || (a.JNum? && b.JNum?)
  }

  predicate AllComparable(rs: seq<Row>, k: string)
  {
    forall x, y :: x in rs && y in rs ==> Comparable(KeyOf(x, k), KeyOf(y, k))
  }

  /** A row whose column holds `a` goes strictly before one holding `b`:
      missing values go last, the others descending or ascending. */
  predicate Ahead(a: Json, b: Json, desc: bool)
  {
    !a.JNull? && (b.JNull? || (if desc then Less(b, a) else Less(a, b)))
  }

  /** No row is strictly ahead of a row before it. */
  predicate SortedOn(rs: seq<Row>, k: string, desc: bool)
  {
    forall i, j :: 0 <= i < j < |rs| ==> !Ahead(KeyOf(rs[j], k), KeyOf(rs[i], k), desc)
  }

  lemma AheadTransitive(a: Json, b: Json, c: Json, desc: bool)
    requires Ahead(a, b, desc) && Ahead(b, c, desc)
    ensures Ahead(a, c, desc)
  {
    if !c.JNull? {
      if a.JStr? && desc { StrLessTransitive(c.s, b.s, a.s); }
      if a.JStr? && !desc { StrLessTransitive(a.s, b.s, c.s); }
    }
  }

  /** Distinct values that can be compared are ordered one way or the other. */
  lemma AheadTotal(a: Json, b: Json, desc: bool)
    requires Comparable(a, b) && a != b
    ensures Ahead(a, b, desc) || Ahead(b, a, desc)
  {
    if a.JStr? && b.JStr? {
      assert a.s != b.s;
      StrLessTotal(a.s, b.s);
    }
  }

  lemma AheadIrreflexive(a: Json, desc: bool)
    ensures !Ahead(a, a, desc)
  {
    if a.JStr? { StrLessIrreflexive(a.s); }
  }

  /** Puts `x` after every row it is not strictly ahead of. */
  function Insert(s: seq<Row>, x: Row, k: string, desc: bool): (r: seq<Row>)
    ensures multiset(r) == multiset(s) + multiset{x}
  {
    if s == [] then [x]
    else if Ahead(KeyOf(x, k), KeyOf(s[0], k), desc) then [x] + s
    else
      assert s == [s[0]] + s[1..];
      [s[0]] + Insert(s[1..], x, k, desc)
  }

  lemma {:induction false} InsertSorted(s: seq<Row>, x: Row, k: string, desc: bool)
    requires SortedOn(s, k, desc)
    ensures SortedOn(Insert(s, x, k, desc), k, desc)
  {
    if s != [] {
      var kx, k0 := KeyOf(x, k), KeyOf(s[0], k);
      if Ahead(kx, k0, desc) {
        forall y | y in s ensures !Ahead(KeyOf(y, k), kx, desc) {
          var j :| 0 <= j < |s| && s[j] == y;
          AheadIrreflexive(k0, desc);
          if j > 0 { assert !Ahead(KeyOf(s[j], k), k0, desc); }
          if Ahead(KeyOf(y, k), kx, desc) { AheadTransitive(KeyOf(y, k), kx, k0, desc); }
        }
        SortedCons(x, s, k, desc);
      } else {
        InsertSorted(s[1..], x, k, desc);
        var t := Insert(s[1..], x, k, desc);
        forall y | y in t ensures !Ahead(KeyOf(y, k), k0, desc) {
          assert y in multiset(t);
          assert y in s[1..] || y == x;
          if y in s[1..] {
            var m :| 0 <= m < |s[1..]| && s[1..][m] == y;
            assert s[m + 1] == y;
          }
        }
        SortedCons(s[0], t, k, desc);
      }
    }
  }

  /** A row no later row is ahead of can lead a sorted list. */
  lemma SortedCons(h: Row, t: seq<Row>, k: string, desc: bool)
    requires SortedOn(t, k, desc)
    requires forall y :: y in t ==> !Ahead(KeyOf(y, k), KeyOf(h, k), desc)
    ensures SortedOn([h] + t, k, desc)
  {
    var r := [h] + t;
    forall i, j | 0 <= i < j < |r| ensures !Ahead(KeyOf(r[j], k), KeyOf(r[i], k), desc) {
      assert r[j] == t[j - 1];
      if i > 0 {
        assert r[i] == t[i - 1];
      } else {
        assert r[j] in t;
      }
    }
  }

  /** A stable insertion sort on column `k`. */
  function SortRows(rs: seq<Row>, k: string, desc: bool): (r: seq<Row>)
    ensures multiset(r) == multiset(rs)
  {
    if rs == [] then []
    else
      assert rs == rs[..|rs| - 1] + [rs[|rs| - 1]];
      Insert(SortRows(rs[..|rs| - 1], k, desc), rs[|rs| - 1], k, desc)
  }

  /** `SortRows` returns the rows it was given, sorted on the column. */
  lemma {:induction false} SortRowsSorted(rs: seq<Row>, k: string, desc: bool)
    ensures SortedOn(SortRows(rs, k, desc), k, desc)
    ensures multiset(SortRows(rs, k, desc)) == multiset(rs)
  {
    if rs != [] {
      SortRowsSorted(rs[..|rs| - 1], k, desc);
      InsertSorted(SortRows(rs[..|rs| - 1], k, desc), rs[|rs| - 1], k, desc);
    }
  }

  /** Inserting a row whose key `k` is new keeps the keys distinct, whatever the
      sort column. */
  lemma {:induction false} InsertUnique(s: seq<Row>, x: Row, k: string, col: string, desc: bool)
    requires UniqueKeys(s, k) && forall y :: y in s ==> KeyOf(y, k) != KeyOf(x, k)
    ensures UniqueKeys(Insert(s, x, col, desc), k)
  {
    if s == [] {
    } else if Ahead(KeyOf(x, col), KeyOf(s[0], col), desc) {
      UniqueCons(x, s, k);
    } else {
      assert s == [s[0]] + s[1..];
      UniqueTail(s, k);
      InsertUnique(s[1..], x, k, col, desc);
      var t := Insert(s[1..], x, col, desc);
      forall y | y in t ensures KeyOf(y, k) != KeyOf(s[0], k) {
        assert y in multiset(t);
        if y in s[1..] {
          var m :| 0 <= m < |s[1..]| && s[1..][m] == y;
          assert s[m + 1] == y;
        }
      }
      UniqueCons(s[0], t, k);
    }
  }

  lemma UniqueCons(a: Row, t: seq<Row>, k: string)
    requires UniqueKeys(t, k) && forall y :: y in t ==> KeyOf(y, k) != KeyOf(a, k)
    ensures UniqueKeys([a] + t, k)
  {
    var r := [a] + t;
    forall i, j | 0 <= i < j < |r| ensures KeyOf(r[i], k) != KeyOf(r[j], k) {
      assert r[j] == t[j - 1];
      if i > 0 {
        assert r[i] == t[i - 1];
      } else {
        assert t[j - 1] in t;
      }
    }
  }

  lemma UniqueTail(s: seq<Row>, k: string)
    requires s != [] && UniqueKeys(s, k)
    ensures UniqueKeys(s[1..], k) && forall y :: y in s[1..] ==> KeyOf(y, k) != KeyOf(s[0], k)
  {
    var t := s[1..];
    forall i, j | 0 <= i < j < |t| ensures KeyOf(t[i], k) != KeyOf(t[j], k) {
      assert t[i] == s[i + 1] && t[j] == s[j + 1];
    }
    forall y | y in t ensures KeyOf(y, k) != KeyOf(s[0], k) {
      var m :| 0 <= m < |t| && t[m] == y;
      assert s[m + 1] == y;
    }
  }

  /** Sorting on any column keeps the values of column `k` distinct. */
  lemma {:induction false} SortRowsUnique(rs: seq<Row>, k: string, col: string, desc: bool)
    requires UniqueKeys(rs, k)
    ensures UniqueKeys(SortRows(rs, col, desc), k)
  {
    if rs != [] {
      var init, x := rs[..|rs| - 1], rs[|rs| - 1];
      SortRowsUnique(init, k, col, desc);
      var s := SortRows(init, col, desc);
      forall y | y in s ensures KeyOf(y, k) != KeyOf(x, k) {
        assert y in multiset(s);
        var m :| 0 <= m < |init| && init[m] == y;
        assert rs[m] == y;
      }
      InsertUnique(s, x, k, col, desc);
    }
  }

  /** `sort_values(by=k, ascending=not desc)`: a TypeError when two values of
      the column cannot be compared. */
  function SortFrame(f: Frame, k: string, desc: bool): (r: Result<Frame>)
    ensures r.Ok? <==> AllComparable(f.rows, k)
    ensures r.Ok? ==> r.value.columns == f.columns && multiset(r.value.rows) == multiset(f.rows)
  {
    if AllComparable(f.rows, k) then Ok(Frame(f.columns, SortRows(f.rows, k, desc))) else Raised
  }

  lemma SameMembersEmpty(a: seq<Row>, b: seq<Row>)
    requires forall x :: x in a <==> x in b
    ensures a == [] <==> b == []
  {
    if a != [] { assert a[0] in b; }
    if b != [] { assert b[0] in a; }
  }

  /** Upserting the same batch again into the outcome of an upsert keeps exactly
      the same rows. */
  lemma UpsertAgain(t: seq<Row>, stored: seq<Row>, batch: seq<Row>, k: string)
    requires Upserted(t, stored, batch, k)
    ensures forall x :: x in DedupLast(t + batch, k) <==> x in t
  {
    var r := DedupLast(t + batch, k);
    MergeLastWins(t, batch, k);
    forall y | y in t && !HasKey(batch, k, KeyOf(y, k)) ensures y in r {
      UpsertKeepsStored(r, t, batch, k, y);
    }
  }

  /** Upserting a batch again into the sorted outcome of its own upsert, and
      sorting again on the key, gives that outcome back. */
  lemma UpsertSortedAgain(t: seq<Row>, stored: seq<Row>, batch: seq<Row>, k: string, desc: bool)
    requires Upserted(t, stored, batch, k) && SortedOn(t, k, desc) && AllComparable(t, k)
    ensures AllComparable(DedupLast(t + batch, k), k)
    ensures SortRows(DedupLast(t + batch, k), k, desc) == t
  {
    var r := DedupLast(t + batch, k);
    UpsertAgain(t, stored, batch, k);
    DedupKeepsLast(t + batch, k);
    var s := SortRows(r, k, desc);
    SortRowsSorted(r, k, desc);
    SortRowsUnique(r, k, k, desc);
    assert forall x :: x in s <==> x in multiset(s);
    assert forall x :: x in r <==> x in multiset(r);
    SortedUnique(s, t, k, desc);
  }

  /** Sorting the outcome of an upsert, on any column, leaves an upsert. */
  lemma UpsertedSorted(r: seq<Row>, stored: seq<Row>, batch: seq<Row>, k: string, col: string, desc: bool)
    requires Upserted(r, stored, batch, k)
    ensures Upserted(SortRows(r, col, desc), stored, batch, k)
  {
    SortRowsUnique(r, k, col, desc);
    var s := SortRows(r, col, desc);
    assert forall x :: x in s <==> x in multiset(s);
    assert forall x :: x in r <==> x in multiset(r);
  }

  /** Rows with distinct, comparable keys have only one sorted order: any two
      sorted sequences of the same rows are equal, so the order does not depend
      on the sorting algorithm's stability. */
  lemma {:induction false} SortedUnique(a: seq<Row>, b: seq<Row>, k: string, desc: bool)
    requires SortedOn(a, k, desc) && SortedOn(b, k, desc)
    requires UniqueKeys(a, k) && UniqueKeys(b, k) && AllComparable(a, k)
    requires forall x :: x in a <==> x in b
    ensures a == b
  {
    SameMembersEmpty(a, b);
    if a != [] {
      SortedHeads(a, b, k, desc);
      SameTails(a, b, k);
      SortedTail(a, k, desc);
      SortedTail(b, k, desc);
      SortedUnique(a[1..], b[1..], k, desc);
      assert a == [a[0]] + a[1..] && b == [b[0]] + b[1..];
    }
  }

  /** Two sorted lists of the same rows with distinct keys start alike. */
  lemma SortedHeads(a: seq<Row>, b: seq<Row>, k: string, desc: bool)
    requires a != [] && b != []
    requires SortedOn(a, k, desc) && SortedOn(b, k, desc)
    requires UniqueKeys(a, k) && AllComparable(a, k)
    requires forall x :: x in a <==> x in b
    ensures a[0] == b[0]
  {
    assert a[0] in b && b[0] in a;
    if a[0] != b[0] {
      var i :| 0 <= i < |a| && a[i] == b[0];
      var j :| 0 <= j < |b| && b[j] == a[0];
      assert i != 0 && j != 0;
      assert !Ahead(KeyOf(b[0], k), KeyOf(a[0], k), desc);
      assert !Ahead(KeyOf(a[0], k), KeyOf(b[0], k), desc);
      assert KeyOf(a[0], k) != KeyOf(a[i], k);
      AheadTotal(KeyOf(a[0], k), KeyOf(b[0], k), desc);
      assert false;
    }
  }

  /** With the same head and distinct keys, the tails hold the same rows. */
  lemma SameTails(a: seq<Row>, b: seq<Row>, k: string)
    requires a != [] && b != [] && a[0] == b[0]
    requires UniqueKeys(a, k) && UniqueKeys(b, k)
    requires forall x :: x in a <==> x in b
    ensures forall x :: x in a[1..] <==> x in b[1..]
  {
    forall x ensures x in a[1..] <==> x in b[1..] {
      if x in a[1..] {
        var m :| 0 <= m < |a[1..]| && a[1..][m] == x;
        assert a[m + 1] == x && KeyOf(a[m + 1], k) != KeyOf(a[0], k);
        assert x in b && x != b[0];
        var n :| 0 <= n < |b| && b[n] == x;
        assert b[1..][n - 1] == x;
      }
      if x in b[1..] {
        var m :| 0 <= m < |b[1..]| && b[1..][m] == x;
        assert b[m + 1] == x && KeyOf(b[m + 1], k) != KeyOf(b[0], k);
        assert x in a && x != a[0];
        var n :| 0 <= n < |a| && a[n] == x;
        assert a[1..][n - 1] == x;
      }
    }
  }

  lemma SortedTail(a: seq<Row>, k: string, desc: bool)
    requires a != []
    requires SortedOn(a, k, desc) && UniqueKeys(a, k)
    ensures SortedOn(a[1..], k, desc) && UniqueKeys(a[1..], k)
    ensures AllComparable(a, k) ==> AllComparable(a[1..], k)
  {
    var t := a[1..];
    assert forall i :: 0 <= i < |t| ==> t[i] == a[i + 1];
    forall x | x in t ensures x in a {
      var i :| 0 <= i < |t| && t[i] == x;
      assert a[i + 1] == x;
    }
  }
}
