/** The values shared by the cleaning script and the dashboard: a cell that may
    be missing, a dated entry of a table, and the sequence predicates that the
    contracts of both are stated with. */
module Tables {

  /** A cell that may be missing (pandas' NaN for numbers, NaT for dates). */
  datatype Option<+T> = None | Some(value: T)

  /** A calendar date as a day number: the next day is one more. */
  type Date = int

  /** One row of a table keyed by date: the `date` column and the rest of the row. */
  datatype Entry<+T> = Entry(date: Date, value: T)

  /** A row of a wide table: its date and one cell per indicator column. */
  type Row = Entry<seq<Option<real>>>

  /** The dates that occur in a table. */
  function DateSet<T>(s: seq<Entry<T>>): set<Date>
  {
    set i | 0 <= i < |s| :: s[i].date
  }

  predicate DistinctDates<T>(s: seq<Entry<T>>)
  {
    forall i, j :: 0 <= i < j < |s| ==> s[i].date != s[j].date
  }

  predicate Ascending<T>(s: seq<Entry<T>>)
  {
    forall i, j :: 0 <= i < j < |s| ==> s[i].date <= s[j].date
  }

  predicate StrictlyAscending<T>(s: seq<Entry<T>>)
  {
    forall i, j :: 0 <= i < j < |s| ==> s[i].date < s[j].date
  }

  /** The value of the first entry dated `d`, or missing when no entry has that
      date: how a column is looked up by date. */
  function At<T>(s: seq<Entry<T>>, d: Date): (r: Option<T>)
    ensures r.Some? <==> d in DateSet(s)
    ensures r.Some? ==> Entry(d, r.value) in s
  {
    if s == [] then None
    else if s[0].date == d then Some(s[0].value)
    else
      assert forall i :: 0 < i < |s| ==> s[i] == s[1..][i - 1];
      At(s[1..], d)
  }

  /** When dates are distinct, looking up the date of an entry finds that entry. */
  lemma {:induction false} AtDistinct<T>(s: seq<Entry<T>>, i: nat)
    requires DistinctDates(s) && i < |s|
    ensures At(s, s[i].date) == Some(s[i].value)
  {
    if i > 0 {
      assert s[0].date != s[i].date;
      assert s[1..][i - 1] == s[i];
      AtDistinct(s[1..], i - 1);
    }
  }

  /** `sub` keeps some of the elements of `s`, in their order in `s`. */
  predicate IsSubsequence<T(==)>(sub: seq<T>, s: seq<T>)
    decreases |s|
  {
    if sub == [] then true
    else if s == [] then false
    else (sub[0] == s[0] && IsSubsequence(sub[1..], s[1..])) || IsSubsequence(sub, s[1..])
  }

  /** A subsequence invents no element. */
  lemma {:induction false} SubsequenceMembers<T>(sub: seq<T>, s: seq<T>)
    requires IsSubsequence(sub, s)
    ensures forall x :: x in sub ==> x in s
    decreases |s|
  {
    if sub != [] {
      if sub[0] == s[0] && IsSubsequence(sub[1..], s[1..]) {
        SubsequenceMembers(sub[1..], s[1..]);
        assert forall x :: x in sub ==> x == sub[0] || x in sub[1..];
      } else {
        SubsequenceMembers(sub, s[1..]);
      }
    }
  }

  lemma {:induction false} SubsequenceTransitive<T>(a: seq<T>, b: seq<T>, c: seq<T>)
    requires IsSubsequence(a, b) && IsSubsequence(b, c)
    ensures IsSubsequence(a, c)
    decreases |c|
  {
    if a != [] {
      assert b != [] && c != [];
      if b[0] == c[0] && IsSubsequence(b[1..], c[1..]) {
        if a[0] == b[0] && IsSubsequence(a[1..], b[1..]) {
          SubsequenceTransitive(a[1..], b[1..], c[1..]);
        } else {
          SubsequenceTransitive(a, b[1..], c[1..]);
        }
      } else {
        SubsequenceTransitive(a, b, c[1..]);
      }
    }
  }

  /** Every sequence is a subsequence of itself. */
  lemma {:induction false} SubsequenceReflexive<T>(s: seq<T>)
    ensures IsSubsequence(s, s)
    decreases |s|
  {
    if s != [] {
      SubsequenceReflexive(s[1..]);
    }
  }

  /** A table whose dates are distinct has as many dates as rows. */
  lemma {:induction false} DistinctDateCount<T>(s: seq<Entry<T>>)
    requires DistinctDates(s)
    ensures |DateSet(s)| == |s|
  {
    if s != [] {
      var rest := s[1..];
      DistinctDateCount(rest);
      DateSetCons(s);
      assert s[0].date !in DateSet(rest) by {
        forall i | 0 <= i < |rest| ensures rest[i].date != s[0].date {
          assert rest[i] == s[i + 1];
        }
      }
    }
  }

  /** The rows after the first carry the rest of a table's dates. */
  lemma DateSetCons<T>(s: seq<Entry<T>>)
    requires s != []
    ensures DateSet(s) == {s[0].date} + DateSet(s[1..])
  {
    forall d | d in DateSet(s) ensures d in {s[0].date} + DateSet(s[1..]) {
      var i :| 0 <= i < |s| && s[i].date == d;
      if i > 0 { assert s[1..][i - 1].date == d; }
    }
    forall d | d in DateSet(s[1..]) ensures d in DateSet(s) {
      var i :| 0 <= i < |s[1..]| && s[1..][i].date == d;
      assert s[i + 1].date == d;
    }
  }

  lemma AtDistinctAll<T>(s: seq<Entry<T>>)
    requires DistinctDates(s)
    ensures forall i :: 0 <= i < |s| ==> At(s, s[i].date) == Some(s[i].value)
  {
    forall i | 0 <= i < |s| ensures At(s, s[i].date) == Some(s[i].value) {
      AtDistinct(s, i);
    }
  }

  lemma DateSetConcat<T>(a: seq<Entry<T>>, b: seq<Entry<T>>)
    ensures DateSet(a + b) == DateSet(a) + DateSet(b)
  {
    var ab := a + b;
    forall i | 0 <= i < |ab| ensures ab[i].date in DateSet(a) + DateSet(b) {
      if i < |a| { assert ab[i] == a[i]; } else { assert ab[i] == b[i - |a|]; }
    }
    forall d | d in DateSet(a) ensures d in DateSet(ab) {
      var k :| 0 <= k < |a| && a[k].date == d;
      assert ab[k] == a[k];
    }
    forall d | d in DateSet(b) ensures d in DateSet(ab) {
      var k :| 0 <= k < |b| && b[k].date == d;
      assert ab[|a| + k] == b[k];
    }
  }

  /** Two tables with distinct dates and no date in common make one with distinct dates. */
  lemma DistinctConcat<T>(a: seq<Entry<T>>, b: seq<Entry<T>>)
    requires DistinctDates(a) && DistinctDates(b) && DateSet(a) !! DateSet(b)
    ensures DistinctDates(a + b)
  {
    var ab := a + b;
    forall i, j | 0 <= i < j < |ab| ensures ab[i].date != ab[j].date {
      if j < |a| {
        assert ab[i] == a[i] && ab[j] == a[j];
      } else if i >= |a| {
        assert ab[i] == b[i - |a|] && ab[j] == b[j - |a|];
      } else {
        assert ab[i] == a[i] && ab[j] == b[j - |a|];
        assert a[i].date in DateSet(a) && b[j - |a|].date in DateSet(b);
      }
    }
  }

  /** The position of the first entry dated `d`, or `|s|` when none is. */
  function FirstIndex<T>(s: seq<Entry<T>>, d: Date): (k: nat)
    ensures k <= |s|
    ensures k < |s| <==> d in DateSet(s)
    ensures k < |s| ==> s[k].date == d
    ensures forall j :: 0 <= j < k ==> s[j].date != d
  {
    if s == [] then 0
    else if s[0].date == d then 0
    else
      DateSetCons(s);
      assert forall j :: 0 < j < |s| ==> s[j] == s[1..][j - 1];
      1 + FirstIndex(s[1..], d)
  }

  /** A subsequence stays one when the sequence grows at its end. */
  lemma {:induction false} SubsequenceSnoc<T>(sub: seq<T>, s: seq<T>, x: T)
    requires IsSubsequence(sub, s)
    ensures IsSubsequence(sub, s + [x])
    decreases |s|
  {
    if sub != [] {
      assert (s + [x])[0] == s[0] && (s + [x])[1..] == s[1..] + [x];
      if sub[0] == s[0] && IsSubsequence(sub[1..], s[1..]) {
        SubsequenceSnoc(sub[1..], s[1..], x);
      } else {
        SubsequenceSnoc(sub, s[1..], x);
      }
    }
  }

  /** Both a sequence and its subsequence may grow by the same last element. */
  lemma {:induction false} SubsequenceSnocBoth<T>(sub: seq<T>, s: seq<T>, x: T)
    requires IsSubsequence(sub, s)
    ensures IsSubsequence(sub + [x], s + [x])
    decreases |s|
  {
    if sub == [] {
      assert sub + [x] == [x];
      SubsequenceBeforeSingleton(s, x);
    } else {
      assert (s + [x])[0] == s[0] && (s + [x])[1..] == s[1..] + [x];
      assert (sub + [x])[0] == sub[0] && (sub + [x])[1..] == sub[1..] + [x];
      if sub[0] == s[0] && IsSubsequence(sub[1..], s[1..]) {
        SubsequenceSnocBoth(sub[1..], s[1..], x);
      } else {
        SubsequenceSnocBoth(sub, s[1..], x);
      }
    }
  }

  /** The last element alone is a subsequence. */
  lemma {:induction false} SubsequenceBeforeSingleton<T>(s: seq<T>, x: T)
    ensures IsSubsequence([x], s + [x])
    decreases |s|
  {
    if s == [] {
      assert [x][1..] == [];
    } else {
      assert (s + [x])[1..] == s[1..] + [x];
      SubsequenceBeforeSingleton(s[1..], x);
    }
  }
}
