/** The table part of the dashboard's `update_charts` callback in app.py: the
    frame's rows filtered to an inclusive date range, and the last ten of them.
    The start and end dates arrive already parsed. */
module Query {
  import opened Tables
  import opened Derivation

  /** The number of rows the data table shows (`tail(10)`). */
  const TableRows: nat := 10

  /** `df[(df['date'] >= start) & (df['date'] <= end)]`: the rows dated from
      `start` to `end`, both included, in their order in the frame. */
  function InRange<T>(rows: seq<Entry<T>>, start: Date, end: Date): (r: seq<Entry<T>>)
    ensures |r| <= |rows|
    ensures forall i :: 0 <= i < |r| ==> start <= r[i].date <= end
    ensures end < start ==> r == []
  {
    if rows == [] then []
    else
      var rest := InRange(rows[1..], start, end);
      if start <= rows[0].date <= end then [rows[0]] + rest else rest
  }

  /** The filter keeps the frame's order, invents no row and misses no row of
      the range. */
  lemma {:induction false} InRangeKeeps<T>(rows: seq<Entry<T>>, start: Date, end: Date)
    ensures IsSubsequence(InRange(rows, start, end), rows)
    ensures forall i :: 0 <= i < |rows| && start <= rows[i].date <= end ==> rows[i] in InRange(rows, start, end)
    decreases |rows|
  {
    if rows != [] {
      var rest := InRange(rows[1..], start, end);
      InRangeKeeps(rows[1..], start, end);
      assert forall i :: 0 < i < |rows| ==> rows[i] == rows[1..][i - 1];
      if start <= rows[0].date <= end {
        assert ([rows[0]] + rest)[1..] == rest;
      }
    }
  }

  /** `s.tail(n)`: the last `n` elements of `s`, or all of it when it is shorter. */
  function Tail<T>(s: seq<T>, n: nat): (r: seq<T>)
    ensures |r| == if |s| < n then |s| else n
    ensures s[|s| - |r|..] == r
  {
    if |s| < n then s else s[|s| - n..]
  }

  /** `filtered_df.tail(10)`: the rows the data table shows. */
  function TableData<T>(rows: seq<Entry<T>>, start: Date, end: Date): (r: seq<Entry<T>>)
    ensures |r| <= TableRows
    ensures forall i :: 0 <= i < |r| ==> start <= r[i].date <= end
  {
    Tail(InRange(rows, start, end), TableRows)
  }

  /** The table's rows are rows of the frame, in the frame's order. */
  lemma TableDataKeepsOrder<T>(rows: seq<Entry<T>>, start: Date, end: Date)
    ensures IsSubsequence(TableData(rows, start, end), rows)
  {
    var f := InRange(rows, start, end);
    InRangeKeeps(rows, start, end);
    SubsequenceSuffix(f, TableRows);
    SubsequenceTransitive(Tail(f, TableRows), f, rows);
  }

  /** The last elements of a sequence are a subsequence of it. */
  lemma {:induction false} SubsequenceSuffix<T>(s: seq<T>, n: nat)
    ensures IsSubsequence(Tail(s, n), s)
    decreases |s|
  {
    if |s| <= n {
      SubsequenceReflexive(s);
    } else {
      assert Tail(s, n) == Tail(s[1..], n);
      SubsequenceSuffix(s[1..], n);
    }
  }

  /** A subsequence of a table with strictly ascending dates is strictly ascending. */
  lemma {:induction false} SubsequenceStrictlyAscending<T>(sub: seq<Entry<T>>, s: seq<Entry<T>>)
    requires IsSubsequence(sub, s) && StrictlyAscending(s)
    ensures StrictlyAscending(sub)
    decreases |s|
  {
    if sub != [] {
      assert StrictlyAscending(s[1..]) by {
        forall i, j | 0 <= i < j < |s[1..]| ensures s[1..][i].date < s[1..][j].date {
          assert s[1..][i] == s[i + 1] && s[1..][j] == s[j + 1];
        }
      }
      if sub[0] == s[0] && IsSubsequence(sub[1..], s[1..]) {
        SubsequenceStrictlyAscending(sub[1..], s[1..]);
        SubsequenceMembers(sub[1..], s[1..]);
        forall j | 0 < j < |sub| ensures sub[0].date < sub[j].date {
          assert sub[j] == sub[1..][j - 1];
          assert sub[j] in s[1..];
          var k :| 0 <= k < |s[1..]| && s[1..][k] == sub[j];
          assert s[k + 1] == sub[j];
        }
        forall i, j | 0 <= i < j < |sub| ensures sub[i].date < sub[j].date {
          if i > 0 {
            assert sub[i] == sub[1..][i - 1] && sub[j] == sub[1..][j - 1];
          }
        }
      } else {
        SubsequenceStrictlyAscending(sub, s[1..]);
      }
    }
  }

  /** The last rows of a table whose dates ascend strictly are its latest. */
  lemma TailIsLatest<T>(f: seq<Entry<T>>, n: nat)
    requires StrictlyAscending(f)
    ensures StrictlyAscending(Tail(f, n))
    ensures forall i, k :: 0 <= i < |f| && f[i] !in Tail(f, n) && 0 <= k < |Tail(f, n)| ==>
      f[i].date < Tail(f, n)[k].date
  {
    var t := Tail(f, n);
    var skip := |f| - |t|;
    assert forall k :: 0 <= k < |t| ==> t[k] == f[skip + k];
    forall i, k | 0 <= i < |f| && f[i] !in t && 0 <= k < |t| ensures f[i].date < t[k].date {
      assert f[skip..] == t;
    }
  }

  /** When the frame's dates ascend strictly, the data table holds the latest
      rows of the range: every row of the range that the table leaves out is
      older than every row it shows, and the table itself ascends. */
  lemma TableDataIsLatest<T>(rows: seq<Entry<T>>, start: Date, end: Date)
    requires StrictlyAscending(rows)
    ensures StrictlyAscending(TableData(rows, start, end))
    ensures forall i, k ::
      && 0 <= i < |rows| && start <= rows[i].date <= end && rows[i] !in TableData(rows, start, end)
      && 0 <= k < |TableData(rows, start, end)|
      ==> rows[i].date < TableData(rows, start, end)[k].date
  {
    var f := InRange(rows, start, end);
    var t := TableData(rows, start, end);
    assert t == Tail(f, TableRows);
    assert StrictlyAscending(f) by {
      InRangeKeeps(rows, start, end);
      SubsequenceStrictlyAscending(f, rows);
    }
    assert forall i :: 0 <= i < |rows| && start <= rows[i].date <= end ==> rows[i] in f by {
      InRangeKeeps(rows, start, end);
    }
    TailIsLatest(f, TableRows);
    forall i, k | 0 <= i < |rows| && start <= rows[i].date <= end && rows[i] !in t && 0 <= k < |t|
      ensures rows[i].date < t[k].date
    {
      var j :| 0 <= j < |f| && f[j] == rows[i];
    }
  }

  /** The clamped slice bounds of a date range over rows dated `first`,
      `first + 1`, and so on. */
  function SliceStart(n: nat, first: Date, start: Date): (lo: nat)
    ensures lo <= n
  {
    if start <= first then 0 else if start - first >= n then n else start - first
  }

  function SliceEnd(n: nat, first: Date, start: Date, end: Date): (hi: nat)
    ensures SliceStart(n, first, start) <= hi <= n
  {
    var lo := SliceStart(n, first, start);
    var upTo := end - first + 1;
    if upTo <= lo then lo else if upTo >= n then n else upTo
  }

  /** Filtering two tables one after the other is filtering them together. */
  lemma {:induction false} InRangeConcat<T>(a: seq<Entry<T>>, b: seq<Entry<T>>, start: Date, end: Date)
    ensures InRange(a + b, start, end) == InRange(a, start, end) + InRange(b, start, end)
    decreases |a|
  {
    if a == [] {
      assert a + b == b;
    } else {
      assert (a + b)[0] == a[0] && (a + b)[1..] == a[1..] + b;
      InRangeConcat(a[1..], b, start, end);
      var x, y := InRange(a[1..], start, end), InRange(b, start, end);
      if start <= a[0].date <= end {
        assert InRange(a + b, start, end) == [a[0]] + (x + y);
        assert [a[0]] + (x + y) == ([a[0]] + x) + y;
      } else {
        assert InRange(a + b, start, end) == x + y;
      }
    }
  }

  /** The filter keeps a table all of whose rows are in the range, and drops a
      table none of whose rows are. */
  lemma {:induction false} InRangeUniform<T>(s: seq<Entry<T>>, start: Date, end: Date, inside: bool)
    requires forall i :: 0 <= i < |s| ==> (start <= s[i].date <= end <==> inside)
    ensures InRange(s, start, end) == if inside then s else []
    decreases |s|
  {
    if s != [] {
      assert forall i :: 0 <= i < |s[1..]| ==> s[1..][i] == s[i + 1];
      InRangeUniform(s[1..], start, end, inside);
    }
  }

  /** When the rows in the range are exactly those at positions `lo` to
      `hi - 1`, the filter is that slice. */
  lemma InRangeOfBlock<T>(rows: seq<Entry<T>>, start: Date, end: Date, lo: nat, hi: nat)
    requires lo <= hi <= |rows|
    requires forall i :: 0 <= i < |rows| ==> (lo <= i < hi <==> start <= rows[i].date <= end)
    ensures InRange(rows, start, end) == rows[lo..hi]
  {
    assert rows == rows[0..lo] + (rows[lo..hi] + rows[hi..|rows|]);
    InRangeConcat(rows[0..lo], rows[lo..hi] + rows[hi..|rows|], start, end);
    InRangeConcat(rows[lo..hi], rows[hi..|rows|], start, end);
    InRangeOfSlice(rows, start, end, 0, lo, false);
    InRangeOfSlice(rows, start, end, lo, hi, true);
    InRangeOfSlice(rows, start, end, hi, |rows|, false);
  }

  lemma InRangeOfSlice<T>(rows: seq<Entry<T>>, start: Date, end: Date, lo: nat, hi: nat, inside: bool)
    requires lo <= hi <= |rows|
    requires forall i :: lo <= i < hi ==> (start <= rows[i].date <= end <==> inside)
    ensures InRange(rows[lo..hi], start, end) == if inside then rows[lo..hi] else []
  {
    assert forall i :: 0 <= i < hi - lo ==> rows[lo..hi][i] == rows[lo + i];
    InRangeUniform(rows[lo..hi], start, end, inside);
  }

  /** Over rows with one row per day, the date filter is one contiguous slice. */
  lemma InRangeOfContiguous<T>(rows: seq<Entry<T>>, first: Date, start: Date, end: Date)
    requires forall i :: 0 <= i < |rows| ==> rows[i].date == first + i
    ensures InRange(rows, start, end) ==
      rows[SliceStart(|rows|, first, start)..SliceEnd(|rows|, first, start, end)]
  {
    InRangeOfBlock(rows, start, end, SliceStart(|rows|, first, start), SliceEnd(|rows|, first, start, end));
  }

  /** The data table of the dashboard's frame, one row per day from the first
      date on, for a range: the last `min(10, k)` of the `k` days the range
      covers. */
  lemma DashboardTable(df: EconomicFrame, start: Date, end: Date)
    requires df.Valid() && df.dates == DayAxis(StartDay, EndDay)
    ensures
      var rows := df.Rows();
      var lo, hi := SliceStart(|rows|, StartDay, start), SliceEnd(|rows|, StartDay, start, end);
      TableData(rows, start, end) == rows[if hi - lo < TableRows then lo else hi - TableRows..hi]
  {
    InRangeOfContiguous(df.Rows(), StartDay, start, end);
  }

  /** The table before any callback, `df.tail(10)`, shows the ten days up to
      the last date. */
  lemma InitialTable(df: EconomicFrame)
    requires df.Valid() && df.dates == DayAxis(StartDay, EndDay)
    ensures |Tail(df.Rows(), TableRows)| == TableRows
    ensures forall k :: 0 <= k < TableRows ==> Tail(df.Rows(), TableRows)[k].date == EndDay - 9 + k
  {
    var rows := df.Rows();
    assert |rows| == 9395;
    assert forall k :: 0 <= k < TableRows ==> Tail(rows, TableRows)[k] == rows[|rows| - TableRows + k];
  }
}
