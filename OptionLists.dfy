/** The selector option lists of app.py lines 22 and 25:
    `["All"] + sorted(df[column].unique())`. */
module OptionLists {
  import opened Weather
  import opened StringOrder

  /** No value occurs at two positions. */
  predicate NoDuplicates(s: seq<string>)
  {
    forall i, j :: 0 <= i < j < |s| ==> s[i] != s[j]
  }

  /** Every entry is below every later entry in Python's string order. */
  predicate StrictlyAscending(s: seq<string>)
  {
    forall i, j :: 0 <= i < j < |s| ==> Below(s[i], s[j])
  }

  /** `Series.unique()`: every value of `s` once, kept at its first appearance. */
  function Unique(s: seq<string>): (u: seq<string>)
    ensures NoDuplicates(u)
    ensures forall x :: x in u <==> x in s
    decreases |s|
  {
    if |s| == 0 then []
    else
      var u := Unique(s[..|s| - 1]);
      assert s == s[..|s| - 1] + [s[|s| - 1]];
      if s[|s| - 1] in u then u else u + [s[|s| - 1]]
  }

  /** Places `x` before the first element not below it. */
  function Insert(x: string, s: seq<string>): (r: seq<string>)
    ensures multiset(r) == multiset(s) + multiset{x}
    decreases |s|
  {
    if |s| == 0 || !Below(s[0], x) then [x] + s
    else
      assert s == [s[0]] + s[1..];
      [s[0]] + Insert(x, s[1..])
  }

  /** Python's `sorted` on a list of strings (an insertion sort; on strings
      the order of equal elements cannot be observed). */
  function Sorted(s: seq<string>): (r: seq<string>)
    ensures multiset(r) == multiset(s)
    decreases |s|
  {
    if |s| == 0 then []
    else
      assert s == [s[0]] + s[1..];
      Insert(s[0], Sorted(s[1..]))
  }

  /** Inserting a new value into a strictly ascending list keeps it strictly ascending. */
  lemma {:induction false} InsertStrictlyAscending(x: string, s: seq<string>)
    requires StrictlyAscending(s) && x !in s
    ensures StrictlyAscending(Insert(x, s))
    decreases |s|
  {
    StrictTotalOrder();
    if |s| == 0 || !Below(s[0], x) {
    } else {
      assert x !in s[1..];
      InsertStrictlyAscending(x, s[1..]);
      var r := Insert(x, s[1..]);
      forall j | 0 <= j < |r|
        ensures Below(s[0], r[j])
      {
        assert r[j] in multiset(r);
      }
    }
  }

  /** Sorting a list without duplicates gives a strictly ascending list. */
  lemma {:induction false} SortedStrictlyAscending(s: seq<string>)
    requires NoDuplicates(s)
    ensures StrictlyAscending(Sorted(s))
    decreases |s|
  {
    if |s| > 0 {
      SortedStrictlyAscending(s[1..]);
      assert s[0] !in multiset(Sorted(s[1..]));
      InsertStrictlyAscending(s[0], Sorted(s[1..]));
    }
  }

  /** A strictly ascending list holds each value once. */
  lemma StrictlyAscendingHasNoDuplicates(s: seq<string>)
    requires StrictlyAscending(s)
    ensures NoDuplicates(s)
  {
    forall i, j | 0 <= i < j < |s|
      ensures s[i] != s[j]
    {
      BelowIrreflexive(s[i]);
    }
  }

  /** The sorted distinct values of a column are strictly ascending, each
      once, and are exactly the values the column holds. */
  lemma SortedUniqueShape(d: seq<Record>, c: Column)
    ensures StrictlyAscending(Sorted(Unique(ColumnValues(d, c))))
    ensures NoDuplicates(Sorted(Unique(ColumnValues(d, c))))
    ensures forall v :: v in Sorted(Unique(ColumnValues(d, c))) <==> Occurs(d, c, v)
  {
    var col := ColumnValues(d, c);
    var rest := Sorted(Unique(col));
    SortedStrictlyAscending(Unique(col));
    StrictlyAscendingHasNoDuplicates(rest);
    forall v
      ensures v in rest <==> Occurs(d, c, v)
    {
      assert v in rest <==> v in multiset(Unique(col));
      if v in col {
        var i :| 0 <= i < |col| && col[i] == v;
        assert Cell(d[i], c) == v;
      }
      if Occurs(d, c, v) {
        var i :| 0 <= i < |d| && Cell(d[i], c) == v;
        assert col[i] == v;
      }
    }
  }

  /** The option list of the selector for column `c`: "All" first, then the
      column's distinct values, each once, in strictly ascending order. */
  function Options(d: seq<Record>, c: Column): (opts: seq<string>)
    ensures |opts| >= 1 && opts[0] == All
    ensures StrictlyAscending(opts[1..])
    ensures NoDuplicates(opts[1..])
    ensures forall v :: v in opts[1..] <==> Occurs(d, c, v)
  {
    SortedUniqueShape(d, c);
    var opts := [All] + Sorted(Unique(ColumnValues(d, c)));
    assert opts[1..] == Sorted(Unique(ColumnValues(d, c)));
    opts
  }

  /** A non-empty list holds its first entry. */
  lemma FirstIsMember(s: seq<string>)
    ensures |s| > 0 ==> s[0] in s
  {
  }

  /** Two strictly ascending lists with the same values are equal. */
  lemma {:induction false} AscendingDetermined(a: seq<string>, b: seq<string>)
    requires StrictlyAscending(a) && StrictlyAscending(b)
    requires forall x :: x in a <==> x in b
    ensures a == b
    decreases |a|
  {
    if |a| > 0 {
      assert a[0] in a && b[0] in b;
      var j :| 0 <= j < |b| && b[j] == a[0];
      var i :| 0 <= i < |a| && a[i] == b[0];
      BelowIrreflexive(a[0]);
      if j > 0 {
        assert Below(b[0], b[j]);
        if i > 0 {
          BelowTransitive(a[0], a[i], a[0]);
        }
      }
      assert a[0] == b[0];
      forall x
        ensures x in a[1..] <==> x in b[1..]
      {
        if x in a[1..] {
          var k :| 0 <= k < |a| - 1 && a[1..][k] == x;
          assert Below(a[0], a[k + 1]);
          assert x in a;
          var m :| 0 <= m < |b| && b[m] == x;
          assert m != 0 && b[1..][m - 1] == x;
        }
        if x in b[1..] {
          var k :| 0 <= k < |b| - 1 && b[1..][k] == x;
          assert Below(b[0], b[k + 1]);
          assert x in b;
          var m :| 0 <= m < |a| && a[m] == x;
          assert m != 0 && a[1..][m - 1] == x;
        }
      }
      AscendingDetermined(a[1..], b[1..]);
      assert a == [a[0]] + a[1..] && b == [b[0]] + b[1..];
    } else {
      // `a` is empty, so `b` holds no value either.
      FirstIsMember(b);
    }
  }

  /** The entries after "All" are the only strictly ascending list of the
      column's values: `sorted` leaves no choice. */
  lemma OptionsDetermined(d: seq<Record>, c: Column, s: seq<string>)
    requires StrictlyAscending(s)
    requires forall v :: v in s <==> Occurs(d, c, v)
    ensures s == Options(d, c)[1..]
  {
    AscendingDetermined(s, Options(d, c)[1..]);
  }
}
