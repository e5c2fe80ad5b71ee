/** The merge fold of `main` in scripts/clean_data.py: every dataset whose raw
    file exists is cleaned, the non-empty results are kept in dataset order,
    and they are folded into one wide table by full outer joins on `date`,
    which is then sorted by date. */
module Merging {
  import opened Tables
  import opened Cleaning

  /** One entry of the dataset table: the series name and the stem of its raw file. */
  datatype Dataset = Dataset(name: string, fileStem: string)

  /** The datasets `main` processes, in the order of its dictionary literal. */
  const Datasets: seq<Dataset> := [
    Dataset("cpi", "CPIAUCSL"),
    Dataset("fedfunds", "FEDFUNDS"),
    Dataset("gdp", "GDP"),
    Dataset("unemployment", "UNRATE")
  ]

  /** The raw file of a dataset, relative to the raw-data directory. */
  function FileName(d: Dataset): string
  {
    d.fileStem + ".csv"
  }

  /** A cleaned series kept for merging: its key in `processed_dfs` and its rows. */
  datatype Series = Series(name: string, points: seq<Point>)

  /** A wide table: the `date` column, then one column per indicator. */
  datatype WideTable = WideTable(indicators: seq<string>, rows: seq<Row>)

  function Names(ss: seq<Series>): seq<string>
  {
    seq(|ss|, j requires 0 <= j < |ss| => ss[j].name)
  }

  /** The series names of a dataset table, in its order. */
  function DatasetNames(ds: seq<Dataset>): seq<string>
  {
    seq(|ds|, j requires 0 <= j < |ds| => ds[j].name)
  }

  /** `n` missing cells. */
  function Missing(n: nat): seq<Option<real>>
  {
    seq(n, _ => None)
  }

  /** Every date of every series. */
  function UnionDates(ss: seq<Series>): set<Date>
  {
    if ss == [] then {} else UnionDates(ss[..|ss| - 1]) + DateSet(ss[|ss| - 1].points)
  }

  /** The sum of the series' lengths. */
  function TotalLength(ss: seq<Series>): nat
  {
    if ss == [] then 0 else TotalLength(ss[..|ss| - 1]) + |ss[|ss| - 1].points|
  }

  /** Every row has one cell per series, and that cell is the series' value at
      the row's date, or missing when the series has no such date. */
  predicate Aligned(rows: seq<Row>, ss: seq<Series>)
  {
    forall i :: 0 <= i < |rows| ==>
      && |rows[i].value| == |ss|
      && forall j :: 0 <= j < |ss| ==> rows[i].value[j] == At(ss[j].points, rows[i].date)
  }

  /** What the fold has built after the series `ss`: before the final sort the
      row order is not yet fixed. */
  predicate Joined(t: WideTable, ss: seq<Series>)
  {
    && t.indicators == Names(ss)
    && DistinctDates(t.rows)
    && DateSet(t.rows) == UnionDates(ss)
    && Aligned(t.rows, ss)
  }

  /** The merged table of the series `ss`: the union of their dates, each once
      and ascending, and one aligned column per series, in order. */
  predicate IsMergeOf(t: WideTable, ss: seq<Series>)
  {
    && t.indicators == Names(ss)
    && StrictlyAscending(t.rows)
    && DateSet(t.rows) == UnionDates(ss)
    && Aligned(t.rows, ss)
  }

  /** The cells a row of `t` has at date `d`: its row there, or all missing. */
  function LeftCells(t: WideTable, d: Date): seq<Option<real>>
  {
    match At(t.rows, d)
    case Some(cells) => cells
    case None => Missing(|t.indicators|)
  }

  /** `merged_df = list(processed_dfs.values())[0]`: the first series alone. */
  function FirstTable(s: Series): (t: WideTable)
    requires DistinctDates(s.points)
    ensures Joined(t, [s])
  {
    var rows := seq(|s.points|, i requires 0 <= i < |s.points| => Entry(s.points[i].date, [Some(s.points[i].value)]));
    AtDistinctAll(s.points);
    assert [s][..0] == [];
    assert DateSet(rows) == DateSet(s.points) by {
      assert forall i :: 0 <= i < |rows| ==> rows[i].date == s.points[i].date;
    }
    WideTable([s.name], rows)
  }

  /** The rows of `ps` whose date is not `known`, each with `n` missing cells
      before its value: what an outer join adds for dates only on its right. */
  function RightOnly(ps: seq<Point>, known: set<Date>, n: nat): (r: seq<Row>)
    requires DistinctDates(ps)
    ensures DistinctDates(r)
    ensures DateSet(r) == DateSet(ps) - known
    ensures forall k :: 0 <= k < |r| ==> r[k].value == Missing(n) + [At(ps, r[k].date)]
  {
    if ps == [] then []
    else
      DateSetCons(ps);
      assert forall i :: 0 < i < |ps| ==> ps[i] == ps[1..][i - 1];
      assert ps[0].date !in DateSet(ps[1..]);
      var rest := RightOnly(ps[1..], known, n);
      if ps[0].date in known then rest
      else
        var row := Entry(ps[0].date, Missing(n) + [Some(ps[0].value)]);
        DateSetCons([row] + rest);
        assert ([row] + rest)[1..] == rest;
        [row] + rest
  }

  /** A row of the outer join of `t` with `s`: the cells of `t` at its date
      (all missing when `t` has no row there), then the value of `s` there. */
  predicate JoinedRow(t: WideTable, s: Series, row: Row)
  {
    && |row.value| == |t.indicators| + 1
    && row.value[..|t.indicators|] == LeftCells(t, row.date)
    && row.value[|t.indicators|] == At(s.points, row.date)
  }

  /** The left rows of the outer join: each row of `t` extended with the value
      of `s` at its date. */
  function ExtendRows(t: WideTable, s: Series): (left: seq<Row>)
    requires DistinctDates(t.rows)
    requires forall i :: 0 <= i < |t.rows| ==> |t.rows[i].value| == |t.indicators|
    ensures DistinctDates(left) && DateSet(left) == DateSet(t.rows)
    ensures forall i :: 0 <= i < |left| ==> JoinedRow(t, s, left[i])
  {
    var left := seq(|t.rows|, i requires 0 <= i < |t.rows| =>
      Entry(t.rows[i].date, t.rows[i].value + [At(s.points, t.rows[i].date)]));
    AtDistinctAll(t.rows);
    assert forall i :: 0 <= i < |left| ==> left[i].date == t.rows[i].date;
    assert forall i :: 0 <= i < |left| ==> left[i].value[..|t.indicators|] == t.rows[i].value;
    left
  }

  /** `pd.merge(merged_df, df, on='date', how='outer')`: every left row gains
      the right series' value at its date, and every date only on the right
      gains a row whose left cells are missing. */
  function OuterJoin(t: WideTable, s: Series): (r: WideTable)
    requires DistinctDates(t.rows) && DistinctDates(s.points)
    requires forall i :: 0 <= i < |t.rows| ==> |t.rows[i].value| == |t.indicators|
    ensures r.indicators == t.indicators + [s.name]
    ensures DistinctDates(r.rows)
    ensures DateSet(r.rows) == DateSet(t.rows) + DateSet(s.points)
    ensures forall i :: 0 <= i < |r.rows| ==> JoinedRow(t, s, r.rows[i])
  {
    var left := ExtendRows(t, s);
    var right := RightOnly(s.points, DateSet(t.rows), |t.indicators|);
    RightOnlyJoined(t, s);
    DateSetConcat(left, right);
    DistinctConcat(left, right);
    JoinedConcat(t, s, left, right);
    WideTable(t.indicators + [s.name], left + right)
  }

  /** The rows an outer join adds for right-only dates are joined rows. */
  lemma RightOnlyJoined(t: WideTable, s: Series)
    requires DistinctDates(t.rows) && DistinctDates(s.points)
    ensures forall i :: 0 <= i < |RightOnly(s.points, DateSet(t.rows), |t.indicators|)| ==>
      JoinedRow(t, s, RightOnly(s.points, DateSet(t.rows), |t.indicators|)[i])
  {
    var n := |t.indicators|;
    var right := RightOnly(s.points, DateSet(t.rows), n);
    forall i | 0 <= i < |right| ensures JoinedRow(t, s, right[i]) {
      assert right[i].date in DateSet(right);
      assert (Missing(n) + [At(s.points, right[i].date)])[..n] == Missing(n);
    }
  }

  lemma JoinedConcat(t: WideTable, s: Series, left: seq<Row>, right: seq<Row>)
    requires forall i :: 0 <= i < |left| ==> JoinedRow(t, s, left[i])
    requires forall i :: 0 <= i < |right| ==> JoinedRow(t, s, right[i])
    ensures forall i :: 0 <= i < |left + right| ==> JoinedRow(t, s, (left + right)[i])
  {
    var rows := left + right;
    assert forall i :: 0 <= i < |rows| ==> rows[i] == if i < |left| then left[i] else right[i - |left|];
  }

  lemma UnionDatesSnoc(ss: seq<Series>, k: nat)
    requires k < |ss|
    ensures UnionDates(ss[..k + 1]) == UnionDates(ss[..k]) + DateSet(ss[k].points)
  {
    assert ss[..k + 1][..k] == ss[..k];
  }

  /** Each series' dates are among the merged dates. */
  lemma {:induction false} UnionDatesCovers(ss: seq<Series>, j: nat)
    requires j < |ss|
    ensures DateSet(ss[j].points) <= UnionDates(ss)
    decreases |ss|
  {
    if j < |ss| - 1 {
      assert ss[..|ss| - 1][j] == ss[j];
      UnionDatesCovers(ss[..|ss| - 1], j);
    }
  }

  /** A cell of an outer-join row that comes from the left table is the
      earlier series' value at the row's date. */
  lemma LeftCellAligned(t: WideTable, ss: seq<Series>, k: nat, row: Row, j: nat)
    requires k < |ss| && j < k && Joined(t, ss[..k]) && JoinedRow(t, ss[k], row)
    ensures row.value[j] == At(ss[j].points, row.date)
  {
    var d := row.date;
    assert row.value[j] == row.value[..k][j];
    assert ss[..k][j] == ss[j];
    match At(t.rows, d)
    case Some(c) =>
      var i :| 0 <= i < |t.rows| && t.rows[i] == Entry(d, c);
      assert c[j] == At(ss[..k][j].points, t.rows[i].date);
    case None =>
      UnionDatesCovers(ss[..k], j);
      assert d !in DateSet(ss[j].points);
  }

  /** An outer-join row holds, in order, every series' value at its date. */
  lemma JoinedRowAligned(t: WideTable, ss: seq<Series>, k: nat, row: Row)
    requires k < |ss| && Joined(t, ss[..k]) && JoinedRow(t, ss[k], row)
    ensures |row.value| == k + 1
    ensures forall j :: 0 <= j <= k ==> row.value[j] == At(ss[j].points, row.date)
  {
    forall j | 0 <= j < k ensures row.value[j] == At(ss[j].points, row.date) {
      LeftCellAligned(t, ss, k, row, j);
    }
  }

  lemma NamesSnoc(ss: seq<Series>, k: nat)
    requires k < |ss|
    ensures Names(ss[..k + 1]) == Names(ss[..k]) + [ss[k].name]
  {
  }

  lemma JoinedAllAligned(t: WideTable, ss: seq<Series>, k: nat, rows: seq<Row>)
    requires k < |ss| && Joined(t, ss[..k])
    requires forall i :: 0 <= i < |rows| ==> JoinedRow(t, ss[k], rows[i])
    ensures Aligned(rows, ss[..k + 1])
  {
    var pre := ss[..k + 1];
    forall i | 0 <= i < |rows|
      ensures |rows[i].value| == |pre|
      ensures forall j :: 0 <= j < |pre| ==> rows[i].value[j] == At(pre[j].points, rows[i].date)
    {
      JoinedRowAligned(t, ss, k, rows[i]);
    }
  }

  /** One step of the fold keeps what has been built a join of the series so far. */
  lemma OuterJoinStep(t: WideTable, ss: seq<Series>, k: nat)
    requires k < |ss| && Joined(t, ss[..k]) && DistinctDates(ss[k].points)
    ensures Joined(OuterJoin(t, ss[k]), ss[..k + 1])
  {
    var r := OuterJoin(t, ss[k]);
    NamesSnoc(ss, k);
    UnionDatesSnoc(ss, k);
    JoinedAllAligned(t, ss, k, r.rows);
  }

  /** Every row of `s` is dated `d` or later (strictly later when `strict`). */
  predicate AllFrom(d: Date, s: seq<Row>, strict: bool)
  {
    forall i :: 0 <= i < |s| ==> if strict then d < s[i].date else d <= s[i].date
  }

  lemma AllFromPermutation(d: Date, a: seq<Row>, b: seq<Row>, x: Row, strict: bool)
    requires multiset(a) == multiset(b) + multiset{x}
    requires AllFrom(d, b, strict) && (if strict then d < x.date else d <= x.date)
    ensures AllFrom(d, a, strict)
  {
    forall i | 0 <= i < |a| ensures if strict then d < a[i].date else d <= a[i].date {
      assert a[i] in multiset(a);
      if a[i] != x {
        assert a[i] in multiset(b);
        var j :| 0 <= j < |b| && b[j] == a[i];
      }
    }
  }

  lemma AscendingCons(y: Row, s: seq<Row>, strict: bool)
    requires AllFrom(y.date, s, strict)
    requires if strict then StrictlyAscending(s) else Ascending(s)
    ensures if strict then StrictlyAscending([y] + s) else Ascending([y] + s)
  {
    var r := [y] + s;
    assert forall i :: 0 < i < |r| ==> r[i] == s[i - 1];
  }

  /** Rows that are a reordering of each other have the same dates. */
  lemma DateSetPermutation(a: seq<Row>, b: seq<Row>)
    requires multiset(a) == multiset(b)
    ensures DateSet(a) == DateSet(b)
  {
    forall d | d in DateSet(a) ensures d in DateSet(b) {
      var i :| 0 <= i < |a| && a[i].date == d;
      assert a[i] in multiset(b);
      var j :| 0 <= j < |b| && b[j] == a[i];
    }
    forall d | d in DateSet(b) ensures d in DateSet(a) {
      var i :| 0 <= i < |b| && b[i].date == d;
      assert b[i] in multiset(a);
      var j :| 0 <= j < |a| && a[j] == b[i];
    }
  }

  /** Inserting `x` into the rows `s`, ascending by date, before the first row
      not dated earlier. */
  function Insert(x: Row, s: seq<Row>): (r: seq<Row>)
    ensures multiset(r) == multiset(s) + multiset{x}
  {
    if s == [] then [x]
    else if x.date <= s[0].date then [x] + s
    else
      assert s == [s[0]] + s[1..];
      [s[0]] + Insert(x, s[1..])
  }

  /** Ascending, or strictly ascending when `strict`. */
  predicate SortedBy(s: seq<Row>, strict: bool)
  {
    if strict then StrictlyAscending(s) else Ascending(s)
  }

  lemma SortedTail(s: seq<Row>, strict: bool)
    requires s != [] && SortedBy(s, strict)
    ensures SortedBy(s[1..], strict) && AllFrom(s[0].date, s[1..], strict)
  {
    assert forall i :: 0 <= i < |s[1..]| ==> s[1..][i] == s[i + 1];
  }

  /** Inserting into ascending rows keeps them ascending; inserting a new date
      into strictly ascending rows keeps them strictly ascending. */
  lemma {:induction false} InsertSorted(x: Row, s: seq<Row>, strict: bool)
    requires SortedBy(s, strict) && (strict ==> x.date !in DateSet(s))
    ensures SortedBy(Insert(x, s), strict)
  {
    if s != [] {
      SortedTail(s, strict);
      assert s[0].date in DateSet(s);
      if x.date <= s[0].date {
        assert AllFrom(x.date, s, strict) by {
          forall i | 0 < i < |s| ensures s[0].date <= s[i].date {
            assert s[1..][i - 1] == s[i];
          }
        }
        AscendingCons(x, s, strict);
      } else {
        DateSetCons(s);
        var rest := Insert(x, s[1..]);
        InsertSorted(x, s[1..], strict);
        AllFromPermutation(s[0].date, rest, s[1..], x, strict);
        AscendingCons(s[0], rest, strict);
      }
    }
  }

  /** `sort_values('date')`: the same rows, ascending by date. */
  function SortByDate(rows: seq<Row>): (r: seq<Row>)
    ensures multiset(r) == multiset(rows)
    ensures Ascending(r)
    ensures DistinctDates(rows) ==> StrictlyAscending(r)
  {
    if rows == [] then []
    else
      var rest := SortByDate(rows[1..]);
      assert rows == [rows[0]] + rows[1..];
      InsertSorted(rows[0], rest, false);
      if DistinctDates(rows) then
        InsertFreshDate(rows, rest);
        Insert(rows[0], rest)
      else
        Insert(rows[0], rest)
  }

  /** The first of rows with distinct dates, inserted into the others sorted
      strictly, keeps them strictly sorted. */
  lemma InsertFreshDate(rows: seq<Row>, rest: seq<Row>)
    requires rows != [] && DistinctDates(rows)
    requires multiset(rest) == multiset(rows[1..]) && StrictlyAscending(rest)
    ensures StrictlyAscending(Insert(rows[0], rest))
  {
    DateSetPermutation(rest, rows[1..]);
    forall i | 0 <= i < |rows[1..]| ensures rows[1..][i].date != rows[0].date {
      assert rows[1..][i] == rows[i + 1];
    }
    InsertSorted(rows[0], rest, true);
  }

  /** Reordering rows keeps them aligned. */
  lemma AlignedPermutation(a: seq<Row>, b: seq<Row>, ss: seq<Series>)
    requires multiset(a) == multiset(b) && Aligned(b, ss)
    ensures Aligned(a, ss)
  {
    forall i | 0 <= i < |a|
      ensures |a[i].value| == |ss|
      ensures forall j :: 0 <= j < |ss| ==> a[i].value[j] == At(ss[j].points, a[i].date)
    {
      assert a[i] in multiset(b);
      var i' :| 0 <= i' < |b| && b[i'] == a[i];
    }
  }

  /** A dataset takes part in the merge when its raw file exists and cleaning
      leaves a non-empty frame. */
  predicate Contributes(d: Dataset, files: map<string, Option<RawTable>>, p: Parsers)
  {
    FileName(d) in files && !IsEmpty(Clean(files[FileName(d)], p, d.name))
  }

  function SeriesOf(d: Dataset, files: map<string, Option<RawTable>>, p: Parsers): Series
    requires FileName(d) in files
  {
    Series(d.name, Clean(files[FileName(d)], p, d.name).points)
  }

  /** The values of `processed_dfs` after the first loop of `main`, in dataset order. */
  function Participating(ds: seq<Dataset>, files: map<string, Option<RawTable>>, p: Parsers): (ss: seq<Series>)
    ensures forall j :: 0 <= j < |ss| ==> DistinctDates(ss[j].points) && ss[j].points != []
    ensures forall s :: s in ss ==> exists d :: d in ds && Contributes(d, files, p) && s == SeriesOf(d, files, p)
    ensures forall d :: d in ds && Contributes(d, files, p) ==> SeriesOf(d, files, p) in ss
    ensures |ss| <= |ds|
  {
    if ds == [] then []
    else
      var init := ds[..|ds| - 1];
      var d := ds[|ds| - 1];
      assert forall e :: e in ds ==> e in init || e == d;
      var prev := Participating(init, files, p);
      if Contributes(d, files, p) then prev + [SeriesOf(d, files, p)] else prev
  }

  /** The series that take part keep the order of the dataset table, so no
      dataset contributes twice and none is moved. */
  lemma {:induction false} ParticipatingInOrder(ds: seq<Dataset>, files: map<string, Option<RawTable>>, p: Parsers)
    ensures IsSubsequence(Names(Participating(ds, files, p)), DatasetNames(ds))
    decreases |ds|
  {
    if ds != [] {
      var init := ds[..|ds| - 1];
      var d := ds[|ds| - 1];
      var prev := Participating(init, files, p);
      ParticipatingInOrder(init, files, p);
      DatasetNamesSnoc(ds);
      if Contributes(d, files, p) {
        NamesAppend(prev, SeriesOf(d, files, p));
        SubsequenceSnocBoth(Names(prev), DatasetNames(init), d.name);
      } else {
        SubsequenceSnoc(Names(prev), DatasetNames(init), d.name);
      }
    }
  }

  lemma NamesAppend(ss: seq<Series>, s: Series)
    ensures Names(ss + [s]) == Names(ss) + [s.name]
  {
  }

  lemma DatasetNamesSnoc(ds: seq<Dataset>)
    requires ds != []
    ensures DatasetNames(ds) == DatasetNames(ds[..|ds| - 1]) + [ds[|ds| - 1].name]
  {
  }

  /** `main`, without its file output: the cleaned series that took part, and
      the merged table, or None when no series had data ("No data available
      to merge"). `files` maps each raw file that exists to what the CSV reader
      made of it. */
  method CleanAndMerge(datasets: seq<Dataset>, files: map<string, Option<RawTable>>, p: Parsers)
    returns (processed: seq<Series>, merged: Option<WideTable>)
    requires forall i, j :: 0 <= i < j < |datasets| ==> datasets[i].name != datasets[j].name
    requires forall d :: d in datasets ==> d.name != "date"
    ensures processed == Participating(datasets, files, p)
    ensures merged.None? <==> processed == []
    ensures merged.Some? ==> IsMergeOf(merged.value, processed)
  {
    processed := [];
    for i := 0 to |datasets|
      invariant processed == Participating(datasets[..i], files, p)
    {
      var d := datasets[i];
      assert datasets[..i + 1][..i] == datasets[..i];
      if FileName(d) in files {
        var cleaned := Clean(files[FileName(d)], p, d.name);
        if !IsEmpty(cleaned) {
          processed := processed + [Series(d.name, cleaned.points)];
        }
      }
    }
    assert datasets[..|datasets|] == datasets;

    if processed == [] {
      merged := None;
    } else {
      var t := MergeSeries(processed);
      merged := Some(t);
    }
  }

  /** The second half of `main`: the first series, outer-joined with each
      following one on `date`, then sorted by date. */
  method MergeSeries(ss: seq<Series>) returns (t: WideTable)
    requires ss != []
    requires forall j :: 0 <= j < |ss| ==> DistinctDates(ss[j].points)
    ensures IsMergeOf(t, ss)
  {
    var acc := FirstTable(ss[0]);
    assert ss[..1] == [ss[0]];
    for k := 1 to |ss|
      invariant Joined(acc, ss[..k])
    {
      OuterJoinStep(acc, ss, k);
      acc := OuterJoin(acc, ss[k]);
    }
    assert ss[..|ss|] == ss;
    var sorted := SortByDate(acc.rows);
    AlignedPermutation(sorted, acc.rows, ss);
    DateSetPermutation(sorted, acc.rows);
    t := WideTable(acc.indicators, sorted);
  }

  /** `main` over its own dataset table: at most the four indicators take
      part, in the table's order, and their merge is built as specified. */
  method CleanAll(files: map<string, Option<RawTable>>, p: Parsers)
    returns (processed: seq<Series>, merged: Option<WideTable>)
    ensures processed == Participating(Datasets, files, p)
    ensures IsSubsequence(Names(processed), ["cpi", "fedfunds", "gdp", "unemployment"])
    ensures merged.None? <==> processed == []
    ensures merged.Some? ==> IsMergeOf(merged.value, processed)
  {
    processed, merged := CleanAndMerge(Datasets, files, p);
    ParticipatingInOrder(Datasets, files, p);
    assert DatasetNames(Datasets) == ["cpi", "fedfunds", "gdp", "unemployment"];
  }
}

/** What the merge promises about the table it builds, from its specification
    `IsMergeOf` alone. */
module MergingProperties {
  import opened Tables
  import opened Merging

  lemma SubsetCard(a: set<Date>, b: set<Date>)
    requires a <= b
    ensures |a| <= |b|
  {
    assert b == a + (b - a);
  }

  lemma {:induction false} UnionDatesCard(ss: seq<Series>)
    requires forall j :: 0 <= j < |ss| ==> DistinctDates(ss[j].points)
    ensures |UnionDates(ss)| <= TotalLength(ss)
    decreases |ss|
  {
    if ss != [] {
      var init := ss[..|ss| - 1];
      var last := ss[|ss| - 1].points;
      assert forall j :: 0 <= j < |init| ==> init[j] == ss[j];
      UnionDatesCard(init);
      DistinctDateCount(last);
      assert |UnionDates(init) + DateSet(last)| <= |UnionDates(init)| + |DateSet(last)| by {
        assert UnionDates(init) + DateSet(last) == UnionDates(init) + (DateSet(last) - UnionDates(init));
        SubsetCard(DateSet(last) - UnionDates(init), DateSet(last));
      }
    }
  }

  /** The merged table has at least as many rows as the longest series and at
      most as many as all series together. */
  lemma MergedRowCount(t: WideTable, ss: seq<Series>)
    requires IsMergeOf(t, ss)
    requires forall j :: 0 <= j < |ss| ==> DistinctDates(ss[j].points)
    ensures forall j :: 0 <= j < |ss| ==> |ss[j].points| <= |t.rows|
    ensures |t.rows| <= TotalLength(ss)
  {
    DistinctDateCount(t.rows);
    UnionDatesCard(ss);
    forall j | 0 <= j < |ss| ensures |ss[j].points| <= |t.rows| {
      DistinctDateCount(ss[j].points);
      UnionDatesCovers(ss, j);
      SubsetCard(DateSet(ss[j].points), UnionDates(ss));
    }
  }

  /** Tables ascending by date with the same dates have the same date column. */
  lemma {:induction false} AscendingSameDates(a: seq<Row>, b: seq<Row>)
    requires StrictlyAscending(a) && StrictlyAscending(b) && DateSet(a) == DateSet(b)
    ensures |a| == |b|
    ensures forall i :: 0 <= i < |a| ==> a[i].date == b[i].date
  {
    DistinctDateCount(a);
    DistinctDateCount(b);
    if a != [] {
      assert a[0].date in DateSet(b);
      assert b[0].date in DateSet(a);
      assert a[0].date == b[0].date;
      DateSetCons(a);
      DateSetCons(b);
      assert a[0].date !in DateSet(a[1..]) by {
        forall i | 0 <= i < |a[1..]| ensures a[1..][i].date != a[0].date { assert a[1..][i] == a[i + 1]; }
      }
      assert b[0].date !in DateSet(b[1..]) by {
        forall i | 0 <= i < |b[1..]| ensures b[1..][i].date != b[0].date { assert b[1..][i] == b[i + 1]; }
      }
      assert DateSet(a[1..]) == DateSet(b[1..]);
      AscendingSameDates(a[1..], b[1..]);
      forall i | 0 < i < |a| ensures a[i].date == b[i].date {
        assert a[i] == a[1..][i - 1] && b[i] == b[1..][i - 1];
      }
    }
  }

  /** The merge's specification leaves no choice: it determines the table. */
  lemma MergeIsUnique(t1: WideTable, t2: WideTable, ss: seq<Series>)
    requires IsMergeOf(t1, ss) && IsMergeOf(t2, ss)
    ensures t1 == t2
  {
    AscendingSameDates(t1.rows, t2.rows);
    forall i | 0 <= i < |t1.rows| ensures t1.rows[i] == t2.rows[i] {
      assert t1.rows[i].value == t2.rows[i].value;
    }
  }

  /** Series `a` on days 1 and 2 and series `b` on days 2 and 3 merge into
      three rows, with `a` missing on day 3 and `b` missing on day 1. */
  lemma MergeExample(t: WideTable)
    requires IsMergeOf(t, [Series("a", [Entry(1, 1.0), Entry(2, 2.0)]), Series("b", [Entry(2, 3.0), Entry(3, 4.0)])])
    ensures t.indicators == ["a", "b"]
    ensures t.rows == [Entry(1, [Some(1.0), None]), Entry(2, [Some(2.0), Some(3.0)]), Entry(3, [None, Some(4.0)])]
  {
    var ss := [Series("a", [Entry(1, 1.0), Entry(2, 2.0)]), Series("b", [Entry(2, 3.0), Entry(3, 4.0)])];
    var expected := WideTable(["a", "b"], [Entry(1, [Some(1.0), None]), Entry(2, [Some(2.0), Some(3.0)]), Entry(3, [None, Some(4.0)])]);
    ExampleDates(ss, expected);
    ExampleAligned(ss, expected);
    assert Names(ss) == ["a", "b"];
    MergeIsUnique(t, expected, ss);
  }

  lemma ExampleDates(ss: seq<Series>, expected: WideTable)
    requires ss == [Series("a", [Entry(1, 1.0), Entry(2, 2.0)]), Series("b", [Entry(2, 3.0), Entry(3, 4.0)])]
    requires expected.rows == [Entry(1, [Some(1.0), None]), Entry(2, [Some(2.0), Some(3.0)]), Entry(3, [None, Some(4.0)])]
    ensures UnionDates(ss) == DateSet(expected.rows) == {1, 2, 3}
    ensures StrictlyAscending(expected.rows)
  {
    assert DateSet(ss[0].points) == {1, 2} by {
      assert ss[0].points[0].date == 1 && ss[0].points[1].date == 2;
    }
    assert DateSet(ss[1].points) == {2, 3} by {
      assert ss[1].points[0].date == 2 && ss[1].points[1].date == 3;
    }
    assert ss[..1][..0] == [] && ss[..1][0] == ss[0];
    assert UnionDates(ss[..1]) == {1, 2};
    assert UnionDates(ss) == {1, 2, 3};
    assert DateSet(expected.rows) == {1, 2, 3} by {
      assert expected.rows[0].date == 1 && expected.rows[1].date == 2 && expected.rows[2].date == 3;
    }
  }

  lemma ExampleAligned(ss: seq<Series>, expected: WideTable)
    requires ss == [Series("a", [Entry(1, 1.0), Entry(2, 2.0)]), Series("b", [Entry(2, 3.0), Entry(3, 4.0)])]
    requires expected.rows == [Entry(1, [Some(1.0), None]), Entry(2, [Some(2.0), Some(3.0)]), Entry(3, [None, Some(4.0)])]
    ensures Aligned(expected.rows, ss)
  {
    var a, b := ss[0].points, ss[1].points;
    assert At(a, 1) == Some(1.0) && At(a, 2) == Some(2.0);
    assert At(b, 2) == Some(3.0) && At(b, 3) == Some(4.0);
    assert At(a, 3) == None by { assert a[1..][1..] == []; }
    assert At(b, 1) == None by { assert b[1..][1..] == []; }
  }
}
