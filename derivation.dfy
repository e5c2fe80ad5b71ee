/** `create_economic_data` and `numeric_columns` of app.py: a contiguous day
    axis, five indicator columns (two of them clamped to a closed interval),
    two year-over-year percent changes added to the frame in place, and a
    forward fill over every column. The generated values before clamping are
    given as inputs. */
module Derivation {
  import opened Tables

  /** 2000-01-01 and 2025-09-20 as days since 1970-01-01. */
  const StartDay: Date := 10957
  const EndDay: Date := 20351

  /** The lag of `pct_change(365)`. */
  const Lag: nat := 365

  /** `[start_date + timedelta(days=i) for i in range(num_days)]` with
      `num_days = (end_date - start_date).days + 1`. */
  function DayAxis(start: Date, end: Date): (dates: seq<Date>)
    ensures |dates| == if end < start then 0 else end - start + 1
    ensures forall i :: 0 <= i < |dates| ==> dates[i] == start + i
    ensures start <= end ==> dates[0] == start && dates[|dates| - 1] == end
    ensures forall i :: 0 < i < |dates| ==> dates[i] == dates[i - 1] + 1
    ensures forall d :: d in dates <==> start <= d <= end
  {
    var n := end - start + 1;
    if n <= 0 then []
    else
      var dates := seq(n, i => start + i);
      assert forall d :: start <= d <= end ==> d in dates by {
        forall d | start <= d <= end ensures d in dates {
          assert dates[d - start] == d;
        }
      }
      dates
  }

  /** `np.clip(x, lo, hi)`, that is `minimum(maximum(x, lo), hi)`. */
  function Clip(x: real, lo: real, hi: real): (r: real)
    ensures r <= hi
    ensures lo <= hi ==> lo <= r
    ensures lo <= x <= hi ==> r == x
    ensures x < lo && lo <= hi ==> r == lo
    ensures hi < x ==> r == hi
  {
    var atLeast := if x < lo then lo else x;
    if atLeast > hi then hi else atLeast
  }

  function ClipColumn(xs: seq<real>, lo: real, hi: real): seq<real>
  {
    seq(|xs|, i requires 0 <= i < |xs| => Clip(xs[i], lo, hi))
  }

  /** The `FEDFUNDS` column: the generated values clamped to [0.1, 10]. */
  function FedFunds(raw: seq<real>): (r: seq<real>)
    ensures |r| == |raw|
    ensures forall i :: 0 <= i < |r| ==> 0.1 <= r[i] <= 10.0
    ensures forall i :: 0 <= i < |r| && 0.1 <= raw[i] <= 10.0 ==> r[i] == raw[i]
  {
    ClipColumn(raw, 0.1, 10.0)
  }

  /** The `UNRATE` column: the generated values clamped to [3.2, 12]. */
  function Unrate(raw: seq<real>): (r: seq<real>)
    ensures |r| == |raw|
    ensures forall i :: 0 <= i < |r| ==> 3.2 <= r[i] <= 12.0
    ensures forall i :: 0 <= i < |r| && 3.2 <= raw[i] <= 12.0 ==> r[i] == raw[i]
  {
    ClipColumn(raw, 3.2, 12.0)
  }

  /** A column with no missing cell. */
  function Present(xs: seq<real>): (r: seq<Option<real>>)
    ensures |r| == |xs| && forall i :: 0 <= i < |r| ==> r[i] == Some(xs[i])
  {
    seq(|xs|, i requires 0 <= i < |xs| => Some(xs[i]))
  }

  /** `xs.pct_change(periods) * 100`: pandas divides each value by the one
      `periods` rows earlier and subtracts one; the first `periods` rows have
      no earlier value and are missing. */
  function PercentChange(xs: seq<real>, periods: nat): (r: seq<Option<real>>)
    requires forall t :: 0 <= t < |xs| - periods ==> xs[t] != 0.0
    ensures |r| == |xs|
    ensures forall t :: 0 <= t < |r| ==> (r[t].None? <==> t < periods)
    ensures forall t :: periods <= t < |r| ==>
      r[t] == Some((xs[t] - xs[t - periods]) / xs[t - periods] * 100.0)
  {
    var r := seq(|xs|, t requires 0 <= t < |xs| =>
      if t < periods then None else Some((xs[t] / xs[t - periods] - 1.0) * 100.0));
    assert forall t :: periods <= t < |r| ==>
      r[t] == Some((xs[t] - xs[t - periods]) / xs[t - periods] * 100.0) by {
      forall t | periods <= t < |r|
        ensures r[t] == Some((xs[t] - xs[t - periods]) / xs[t - periods] * 100.0)
      {
        RelativeChange(xs[t], xs[t - periods]);
      }
    }
    r
  }

  /** pandas' `x / lagged - 1` is the change relative to the lagged value. */
  lemma RelativeChange(x: real, lagged: real)
    requires lagged != 0.0
    ensures (x / lagged - 1.0) * 100.0 == (x - lagged) / lagged * 100.0
  {
    assert lagged / lagged == 1.0;
    assert x / lagged - lagged / lagged == (x - lagged) / lagged;
  }

  /** The most recent non-missing cell at or before row `i`, or missing when
      every cell up to `i` is missing. */
  function LastKnown(col: seq<Option<real>>, i: nat): Option<real>
    requires i < |col|
  {
    if col[i].Some? || i == 0 then col[i] else LastKnown(col, i - 1)
  }

  /** `fillna(method='ffill')` on one column. */
  function FFill(col: seq<Option<real>>): (r: seq<Option<real>>)
    ensures |r| == |col|
    ensures forall i :: 0 <= i < |col| && col[i].Some? ==> r[i] == col[i]
  {
    seq(|col|, i requires 0 <= i < |col| => LastKnown(col, i))
  }

  /** The forward fill as pandas runs it: one pass from the top, carrying the
      last value seen. */
  method FillForward(col: seq<Option<real>>) returns (filled: seq<Option<real>>)
    ensures filled == FFill(col)
  {
    filled := [];
    var last: Option<real> := None;
    for i := 0 to |col|
      invariant |filled| == i
      invariant forall k :: 0 <= k < i ==> filled[k] == LastKnown(col, k)
      invariant i > 0 ==> last == LastKnown(col, i - 1)
      invariant i == 0 ==> last == None
    {
      if col[i].Some? {
        last := col[i];
      }
      filled := filled + [last];
    }
  }

  /** A missing cell takes the most recent earlier value of its column. */
  lemma {:induction false} FFillFromLatest(col: seq<Option<real>>, i: nat, j: nat)
    requires j < i < |col| && col[j].Some?
    requires forall k :: j < k <= i ==> col[k].None?
    ensures FFill(col)[i] == col[j]
    decreases i
  {
    if i - 1 > j {
      FFillFromLatest(col, i - 1, j);
    }
  }

  /** Missing cells before the first value of a column stay missing. */
  lemma {:induction false} FFillLeading(col: seq<Option<real>>, i: nat)
    requires i < |col|
    requires forall k :: 0 <= k <= i ==> col[k].None?
    ensures FFill(col)[i].None?
    decreases i
  {
    if i > 0 {
      FFillLeading(col, i - 1);
    }
  }

  /** Filling forward twice is filling forward once. */
  lemma {:induction false} FFillIdempotent(col: seq<Option<real>>)
    ensures FFill(FFill(col)) == FFill(col)
  {
    var f := FFill(col);
    forall i | 0 <= i < |col| ensures LastKnown(f, i) == f[i] {
      LastKnownOfFilled(col, i);
    }
  }

  lemma {:induction false} LastKnownOfFilled(col: seq<Option<real>>, i: nat)
    requires i < |col|
    ensures LastKnown(FFill(col), i) == FFill(col)[i]
    decreases i
  {
    var f := FFill(col);
    if f[i].None? && i > 0 {
      LastKnownOfFilled(col, i - 1);
    }
  }

  /** After the forward fill the percent-change column is what it was: its
      missing rows all lead, and every later row has a value. */
  lemma FFillOfPercentChange(xs: seq<real>, periods: nat)
    requires forall t :: 0 <= t < |xs| - periods ==> xs[t] != 0.0
    ensures FFill(PercentChange(xs, periods)) == PercentChange(xs, periods)
  {
    var pc := PercentChange(xs, periods);
    forall i | 0 <= i < |pc| ensures FFill(pc)[i] == pc[i] {
      if i < periods {
        FFillLeading(pc, i);
      }
    }
  }

  /** pandas' dtype of a column, as far as `is_numeric_dtype` tells them apart. */
  datatype DType = Numeric | DateTime | Text

  datatype Column = Column(name: string, dtype: DType)

  function Labels(cols: seq<Column>): seq<string>
  {
    seq(|cols|, k requires 0 <= k < |cols| => cols[k].name)
  }

  /** `[col for col in df.columns if col != 'date' and is_numeric_dtype(df[col])]`. */
  function NumericColumns(cols: seq<Column>): (r: seq<string>)
    ensures forall c :: c in r <==>
      exists k :: 0 <= k < |cols| && cols[k].name == c && c != "date" && cols[k].dtype == Numeric
    ensures IsSubsequence(r, Labels(cols))
  {
    if cols == [] then []
    else
      var rest := NumericColumns(cols[1..]);
      assert forall k :: 0 < k < |cols| ==> cols[k] == cols[1..][k - 1];
      assert Labels(cols)[1..] == Labels(cols[1..]);
      if cols[0].name != "date" && cols[0].dtype == Numeric then
        assert ([cols[0].name] + rest)[1..] == rest;
        [cols[0].name] + rest
      else rest
  }

  /** The indicator columns of the dashboard's frame, in the order they are created. */
  const BaseNames: seq<string> := ["GDP", "FEDFUNDS", "UNRATE", "CPIAUCSL", "INDPRO"]
  const IndicatorNames: seq<string> := BaseNames + ["GDP_Growth", "Inflation"]

  /** The first index of `name` in `names`. */
  function IndexOf(names: seq<string>, name: string): (k: nat)
    requires name in names
    ensures k < |names| && names[k] == name
    ensures forall j :: 0 <= j < k ==> names[j] != name
  {
    if names[0] == name then 0
    else
      assert name in names[1..];
      1 + IndexOf(names[1..], name)
  }

  /** The dashboard's DataFrame `df`: the `date` column, and the indicator
      columns under their names, which the app adds and replaces in place. */
  class EconomicFrame {
    var dates: seq<Date>
    var names: seq<string>
    var columns: seq<seq<Option<real>>>

    ghost predicate Valid()
      reads this
    {
      && |names| == |columns|
      && forall j :: 0 <= j < |columns| ==> |columns[j]| == |dates|
    }

    /** `pd.DataFrame({'date': dates, ...})`. */
    constructor (dates: seq<Date>, names: seq<string>, columns: seq<seq<Option<real>>>)
      requires |names| == |columns|
      requires forall j :: 0 <= j < |columns| ==> |columns[j]| == |dates|
      ensures Valid()
      ensures this.dates == dates && this.names == names && this.columns == columns
    {
      this.dates := dates;
      this.names := names;
      this.columns := columns;
    }

    /** `df[name] = values`: replaces the column called `name`, or adds it last. */
    method SetColumn(name: string, values: seq<Option<real>>)
      requires Valid() && |values| == |dates|
      modifies this
      ensures Valid() && dates == old(dates)
      ensures name in old(names) ==>
        names == old(names) && columns == old(columns)[IndexOf(old(names), name) := values]
      ensures name !in old(names) ==>
        names == old(names) + [name] && columns == old(columns) + [values]
    {
      if name in names {
        columns := columns[IndexOf(names, name) := values];
      } else {
        names := names + [name];
        columns := columns + [values];
      }
    }

    /** `df = df.fillna(method='ffill')`: every column filled forward; the
        date column has no missing cell. */
    method FillForwardAll()
      requires Valid()
      modifies this
      ensures Valid() && dates == old(dates) && names == old(names)
      ensures |columns| == |old(columns)|
      ensures forall j :: 0 <= j < |columns| ==> columns[j] == FFill(old(columns)[j])
    {
      var unfilled := columns;
      var filled: seq<seq<Option<real>>> := [];
      for j := 0 to |unfilled|
        invariant dates == old(dates) && names == old(names) && columns == unfilled
        invariant |filled| == j
        invariant forall k :: 0 <= k < j ==> filled[k] == FFill(unfilled[k])
      {
        var c := FillForward(unfilled[j]);
        filled := filled + [c];
      }
      columns := filled;
    }

    /** The columns with their dtypes, `date` first. */
    function Dtypes(): seq<Column>
      reads this
    {
      var ns := names;
      [Column("date", DateTime)] + seq(|ns|, j requires 0 <= j < |ns| => Column(ns[j], Numeric))
    }

    /** The frame row by row, as the dashboard's callback reads it. */
    function Rows(): (rows: seq<Row>)
      reads this
      requires Valid()
      ensures |rows| == |dates|
      ensures forall i :: 0 <= i < |rows| ==> rows[i].date == dates[i] && |rows[i].value| == |columns|
    {
      var ds, cs := dates, columns;
      seq(|ds|, i requires 0 <= i < |ds| =>
        Entry(ds[i], seq(|cs|, j requires 0 <= j < |cs| => cs[j][i])))
    }
  }

  /** The generated values of the five base indicators, one per day, before clamping. */
  datatype Generated = Generated(gdp: seq<real>, fedfunds: seq<real>, unrate: seq<real>, cpi: seq<real>, indpro: seq<real>)

  predicate OnePerDay(g: Generated, days: nat)
  {
    |g.gdp| == |g.fedfunds| == |g.unrate| == |g.cpi| == |g.indpro| == days
  }

  /** The dashboard covers 9395 days. */
  lemma DayAxisLength()
    ensures |DayAxis(StartDay, EndDay)| == 9395
  {
  }

  /** `create_economic_data()`. */
  method CreateEconomicData(g: Generated) returns (df: EconomicFrame)
    requires OnePerDay(g, |DayAxis(StartDay, EndDay)|)
    requires forall t :: 0 <= t < |g.gdp| - Lag ==> g.gdp[t] != 0.0
    requires forall t :: 0 <= t < |g.cpi| - Lag ==> g.cpi[t] != 0.0
    ensures fresh(df) && df.Valid()
    ensures df.dates == DayAxis(StartDay, EndDay)
    ensures df.names == IndicatorNames
    ensures df.columns == [
      Present(g.gdp), Present(FedFunds(g.fedfunds)), Present(Unrate(g.unrate)),
      Present(g.cpi), Present(g.indpro),
      PercentChange(g.gdp, Lag), PercentChange(g.cpi, Lag)]
    ensures NumericColumns(df.Dtypes()) == IndicatorNames
  {
    var dates := DayAxis(StartDay, EndDay);
    var base := [Present(g.gdp), Present(FedFunds(g.fedfunds)), Present(Unrate(g.unrate)), Present(g.cpi), Present(g.indpro)];
    df := new EconomicFrame(dates, BaseNames, base);
    df.SetColumn("GDP_Growth", PercentChange(g.gdp, Lag));
    df.SetColumn("Inflation", PercentChange(g.cpi, Lag));
    assert df.names == BaseNames + ["GDP_Growth"] + ["Inflation"];
    ghost var before := df.columns;
    df.FillForwardAll();
    forall j | 0 <= j < 5 ensures FFill(before[j]) == before[j] {
      assert forall i :: 0 <= i < |before[j]| ==> before[j][i].Some?;
    }
    FFillOfPercentChange(g.gdp, Lag);
    FFillOfPercentChange(g.cpi, Lag);
    NumericColumnsOfFrame(df.Dtypes(), df.names);
  }

  /** `numeric_columns`: for a frame whose first column is `date` and whose
      other columns are numeric, the selection is exactly the other columns, in
      their order. */
  lemma NumericColumnsOfFrame(cols: seq<Column>, names: seq<string>)
    requires "date" !in names
    requires |cols| == |names| + 1 && cols[0] == Column("date", DateTime)
    requires forall j :: 0 <= j < |names| ==> cols[j + 1] == Column(names[j], Numeric)
    ensures NumericColumns(cols) == names
  {
    assert cols[1..] == seq(|names|, j requires 0 <= j < |names| => Column(names[j], Numeric));
    AllNumeric(names);
  }

  lemma {:induction false} AllNumeric(names: seq<string>)
    requires "date" !in names
    ensures NumericColumns(seq(|names|, j requires 0 <= j < |names| => Column(names[j], Numeric))) == names
  {
    if names != [] {
      var cols := seq(|names|, j requires 0 <= j < |names| => Column(names[j], Numeric));
      assert cols[1..] == seq(|names| - 1, j requires 0 <= j < |names| - 1 => Column(names[1..][j], Numeric));
      AllNumeric(names[1..]);
    }
  }
}
