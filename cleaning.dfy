/** `clean_fred_data` of scripts/clean_data.py: one raw two-column series is
    coerced, rows that fail to parse are dropped, repeated dates keep their
    first row, and the value column is renamed after the series. Every failure
    ends in the empty frame; nothing is raised to the caller. */
module Cleaning {
  import opened Tables

  /** A table as the CSV reader hands it over: a header and rows of raw text
      cells, every row as wide as the header. */
  datatype RawData = RawData(header: seq<string>, rows: seq<seq<string>>)

  type RawTable = t: RawData | forall i :: 0 <= i < |t.rows| ==> |t.rows[i]| == |t.header|
    witness RawData([], [])

  /** One observation of a cleaned series. */
  type Point = Entry<real>

  /** A cleaned frame: its column labels and its rows. */
  datatype Frame = Frame(columns: seq<string>, points: seq<Point>)

  /** `pd.DataFrame()`: no columns and no rows. */
  const EmptyFrame: Frame := Frame([], [])

  /** pandas' `DataFrame.empty`: some axis has length zero. */
  predicate IsEmpty(f: Frame)
  {
    |f.columns| == 0 || |f.points| == 0
  }

  /** `pd.to_datetime(..., errors='coerce')` and `pd.to_numeric(..., errors='coerce')`
      on one cell: a parsed value, or missing when the text does not parse. */
  datatype Parsers = Parsers(date: string -> Option<Date>, number: string -> Option<real>)

  /** A row after both coercions. */
  datatype Coerced = Coerced(date: Option<Date>, value: Option<real>)

  predicate Complete(c: Coerced)
  {
    c.date.Some? && c.value.Some?
  }

  /** The coerced row that an observation stands for. */
  function Lift(pt: Point): Coerced
  {
    Coerced(Some(pt.date), Some(pt.value))
  }

  function LiftAll(ps: seq<Point>): seq<Coerced>
  {
    if ps == [] then [] else [Lift(ps[0])] + LiftAll(ps[1..])
  }

  /** How many coerced rows parsed in both columns. */
  function CountComplete(cs: seq<Coerced>): nat
  {
    if cs == [] then 0
    else (if Complete(cs[0]) then 1 else 0) + CountComplete(cs[1..])
  }

  /** Both coercions applied to every row of a two-column table. */
  function Coerce(p: Parsers, rows: seq<seq<string>>): seq<Coerced>
    requires forall i :: 0 <= i < |rows| ==> |rows[i]| == 2
  {
    seq(|rows|, i requires 0 <= i < |rows| => Coerced(p.date(rows[i][0]), p.number(rows[i][1])))
  }

  /** `df.dropna()`: the rows whose date and value both parsed, in their order. */
  function DropMissing(cs: seq<Coerced>): (r: seq<Point>)
    ensures IsSubsequence(LiftAll(r), cs)
    ensures |r| == CountComplete(cs)
    ensures forall i :: 0 <= i < |cs| && Complete(cs[i]) ==> cs[i].date.value in DateSet(r)
  {
    if cs == [] then []
    else if Complete(cs[0]) then
      var pt := Entry(cs[0].date.value, cs[0].value.value);
      var rest := DropMissing(cs[1..]);
      assert forall i :: 0 < i < |cs| ==> cs[i] == cs[1..][i - 1];
      DateSetCons([pt] + rest);
      assert ([pt] + rest)[1..] == rest;
      [pt] + rest
    else
      assert forall i :: 0 < i < |cs| ==> cs[i] == cs[1..][i - 1];
      DropMissing(cs[1..])
  }

  /** The rows of `ps` whose date is not in `seen` and not on an earlier row:
      `drop_duplicates(subset=['date'])` scanning from the top with the dates
      already met in `seen`. */
  function KeepFirst(ps: seq<Point>, seen: set<Date>): (r: seq<Point>)
    ensures IsSubsequence(r, ps)
    ensures DistinctDates(r)
    ensures DateSet(r) == DateSet(ps) - seen
    ensures forall k :: 0 <= k < |r| ==> At(ps, r[k].date) == Some(r[k].value)
    ensures forall k1, k2 :: 0 <= k1 < k2 < |r| ==> FirstIndex(ps, r[k1].date) < FirstIndex(ps, r[k2].date)
  {
    if ps == [] then []
    else
      DateSetCons(ps);
      if ps[0].date in seen then KeepFirst(ps[1..], seen)
      else
        var rest := KeepFirst(ps[1..], seen + {ps[0].date});
        DateSetCons([ps[0]] + rest);
        assert ([ps[0]] + rest)[1..] == rest;
        [ps[0]] + rest
  }

  /** `df.drop_duplicates(subset=['date'])`: one row per date, the first. */
  function DropDuplicates(ps: seq<Point>): (r: seq<Point>)
    ensures IsSubsequence(r, ps)
    ensures DistinctDates(r)
    ensures DateSet(r) == DateSet(ps)
    ensures forall k :: 0 <= k < |r| ==> At(ps, r[k].date) == Some(r[k].value)
    ensures forall k1, k2 :: 0 <= k1 < k2 < |r| ==> FirstIndex(ps, r[k1].date) < FirstIndex(ps, r[k2].date)
  {
    KeepFirst(ps, {})
  }

  /** `clean_fred_data(file_path, series_name)`. `file` is what the CSV reader
      produced, or None when reading raised. */
  function Clean(file: Option<RawTable>, p: Parsers, seriesName: string): (f: Frame)
    ensures file.None? ==> f == EmptyFrame
    ensures file.Some? && |file.value.header| != 2 ==> f == EmptyFrame
    ensures file.Some? && |file.value.header| == 2 ==> f.columns == ["date", seriesName]
    ensures DistinctDates(f.points)
  {
    match file
    case None => EmptyFrame
    case Some(t) =>
      if |t.header| < 2 then
        // insufficient columns
        EmptyFrame
      else if |t.header| > 2 then
        // `df.columns = ['date', 'value']` raises a length mismatch, which is caught
        EmptyFrame
      else
        Frame(["date", seriesName], DropDuplicates(DropMissing(Coerce(p, t.rows))))
  }
}

/** What `clean_fred_data` promises about the rows it returns, stated against
    the raw rows. */
module CleaningProperties {
  import opened Tables
  import opened Cleaning

  lemma {:induction false} LiftAllMembers(ps: seq<Point>)
    ensures forall x :: x in ps ==> Lift(x) in LiftAll(ps)
  {
    if ps != [] {
      LiftAllMembers(ps[1..]);
      assert forall x :: x in ps ==> x == ps[0] || x in ps[1..];
    }
  }

  /** Lifting every observation keeps a subsequence a subsequence. */
  lemma {:induction false} LiftAllSubsequence(a: seq<Point>, b: seq<Point>)
    requires IsSubsequence(a, b)
    ensures IsSubsequence(LiftAll(a), LiftAll(b))
    decreases |b|
  {
    if a != [] {
      assert LiftAll(b)[1..] == LiftAll(b[1..]);
      if a[0] == b[0] && IsSubsequence(a[1..], b[1..]) {
        LiftAllSubsequence(a[1..], b[1..]);
        assert LiftAll(a)[1..] == LiftAll(a[1..]);
      } else {
        LiftAllSubsequence(a, b[1..]);
      }
    }
  }

  /** Cleaning only removes rows: what survives is the raw rows' parse, in the
      raw order, with nothing invented. */
  lemma CleanKeepsOrder(t: RawTable, p: Parsers, seriesName: string)
    requires |t.header| == 2
    ensures IsSubsequence(LiftAll(Clean(Some(t), p, seriesName).points), Coerce(p, t.rows))
  {
    var cs := Coerce(p, t.rows);
    var parsed := DropMissing(cs);
    var f := Clean(Some(t), p, seriesName);
    assert f.points == DropDuplicates(parsed);
    LiftAllSubsequence(f.points, parsed);
    SubsequenceTransitive(LiftAll(f.points), LiftAll(parsed), cs);
  }

  /** Every row of the cleaned series comes from a raw row whose date and value
      both parsed, to exactly that date and value. */
  lemma CleanPointsParsed(t: RawTable, p: Parsers, seriesName: string)
    requires |t.header| == 2
    ensures forall pt :: pt in Clean(Some(t), p, seriesName).points ==>
      exists i :: 0 <= i < |t.rows| && p.date(t.rows[i][0]) == Some(pt.date) && p.number(t.rows[i][1]) == Some(pt.value)
  {
    var f := Clean(Some(t), p, seriesName);
    var cs := Coerce(p, t.rows);
    CleanKeepsOrder(t, p, seriesName);
    SubsequenceMembers(LiftAll(f.points), cs);
    LiftAllMembers(f.points);
    forall pt | pt in f.points
      ensures exists i :: 0 <= i < |t.rows| && p.date(t.rows[i][0]) == Some(pt.date) && p.number(t.rows[i][1]) == Some(pt.value)
    {
      assert Lift(pt) in cs;
      var i :| 0 <= i < |cs| && cs[i] == Lift(pt);
      assert p.date(t.rows[i][0]) == Some(pt.date);
    }
  }

  /** Every date that parsed together with its value is kept, once. */
  lemma CleanKeepsEveryParsedDate(t: RawTable, p: Parsers, seriesName: string, i: nat)
    requires |t.header| == 2 && i < |t.rows|
    requires p.date(t.rows[i][0]).Some? && p.number(t.rows[i][1]).Some?
    ensures p.date(t.rows[i][0]).value in DateSet(Clean(Some(t), p, seriesName).points)
  {
    var cs := Coerce(p, t.rows);
    assert Complete(cs[i]);
  }

  /** The first complete row dated `d` is what the lookup by `d` finds among the
      complete rows. */
  lemma {:induction false} AtDropMissing(cs: seq<Coerced>, d: Date, v: real)
    requires At(DropMissing(cs), d) == Some(v)
    ensures exists i ::
      && 0 <= i < |cs| && cs[i] == Coerced(Some(d), Some(v))
      && (forall j :: 0 <= j < i ==> !(Complete(cs[j]) && cs[j].date == Some(d)))
  {
    assert cs != [];
    var rest := cs[1..];
    if Complete(cs[0]) && cs[0].date == Some(d) {
      assert cs[0] == Coerced(Some(d), Some(v));
    } else {
      if Complete(cs[0]) {
        assert DropMissing(cs) == [Entry(cs[0].date.value, cs[0].value.value)] + DropMissing(rest);
      }
      assert At(DropMissing(rest), d) == Some(v);
      AtDropMissing(rest, d, v);
      var i :| 0 <= i < |rest| && rest[i] == Coerced(Some(d), Some(v)) &&
        (forall j :: 0 <= j < i ==> !(Complete(rest[j]) && rest[j].date == Some(d)));
      assert cs[i + 1] == rest[i];
      assert forall j :: 1 <= j < i + 1 ==> cs[j] == rest[j - 1];
    }
  }

  /** For a repeated date the first raw row whose date and value both parsed is
      the one kept. */
  lemma CleanKeepsFirst(t: RawTable, p: Parsers, seriesName: string, k: nat)
    requires |t.header| == 2
    requires k < |Clean(Some(t), p, seriesName).points|
    ensures var pt := Clean(Some(t), p, seriesName).points[k];
      exists i ::
        && 0 <= i < |t.rows|
        && p.date(t.rows[i][0]) == Some(pt.date) && p.number(t.rows[i][1]) == Some(pt.value)
        && (forall j :: 0 <= j < i ==> !(p.date(t.rows[j][0]) == Some(pt.date) && p.number(t.rows[j][1]).Some?))
  {
    var cs := Coerce(p, t.rows);
    var pts := DropDuplicates(DropMissing(cs));
    CleanPoints(t, p, seriesName);
    var pt := pts[k];
    KeptIsParsed(cs, k);
    AtDropMissing(cs, pt.date, pt.value);
    var i :| 0 <= i < |cs| && cs[i] == Coerced(Some(pt.date), Some(pt.value)) &&
      (forall j :: 0 <= j < i ==> !(Complete(cs[j]) && cs[j].date == Some(pt.date)));
    assert p.date(t.rows[i][0]) == Some(pt.date) && p.number(t.rows[i][1]) == Some(pt.value);
    forall j | 0 <= j < i
      ensures !(p.date(t.rows[j][0]) == Some(pt.date) && p.number(t.rows[j][1]).Some?)
    {
      assert cs[j] == Coerced(p.date(t.rows[j][0]), p.number(t.rows[j][1]));
    }
  }

  lemma CleanPoints(t: RawTable, p: Parsers, seriesName: string)
    requires |t.header| == 2
    ensures Clean(Some(t), p, seriesName).points == DropDuplicates(DropMissing(Coerce(p, t.rows)))
  {
  }

  lemma KeptIsParsed(cs: seq<Coerced>, k: nat)
    requires k < |DropDuplicates(DropMissing(cs))|
    ensures var pt := DropDuplicates(DropMissing(cs))[k];
      At(DropMissing(cs), pt.date) == Some(pt.value)
  {
  }

  /** Dropping duplicates from rows whose dates are distinct, and none of them
      already seen, changes nothing. */
  lemma {:induction false} KeepFirstOfDistinct(ps: seq<Point>, seen: set<Date>)
    requires DistinctDates(ps) && DateSet(ps) !! seen
    ensures KeepFirst(ps, seen) == ps
  {
    if ps != [] {
      DateSetCons(ps);
      assert ps[0].date !in DateSet(ps[1..]) by {
        forall i | 0 <= i < |ps[1..]| ensures ps[1..][i].date != ps[0].date {
          assert ps[1..][i] == ps[i + 1];
        }
      }
      KeepFirstOfDistinct(ps[1..], seen + {ps[0].date});
    }
  }

  /** Dropping duplicates twice is dropping them once. */
  lemma DropDuplicatesIdempotent(ps: seq<Point>)
    ensures DropDuplicates(DropDuplicates(ps)) == DropDuplicates(ps)
  {
    KeepFirstOfDistinct(DropDuplicates(ps), {});
  }
}
