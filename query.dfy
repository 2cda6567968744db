/**
 * The semantics of the MyBatis-Plus queries the data-access classes build:
 * a WHERE filter that keeps table order, `selectOne` (which throws when
 * more than one row matches), `selectCount`, and ORDER BY a nullable
 * time column DESC, where NULL sorts as the smallest value.
 */
module Query {
  import opened Wrappers

  function Filter<R(!new)>(rows: seq<R>, p: R -> bool): (r: seq<R>)
    ensures |r| <= |rows|
    ensures forall x :: x in r <==> x in rows && p(x)
  {
    if rows == [] then []
    else if p(rows[0]) then [rows[0]] + Filter(rows[1..], p)
    else Filter(rows[1..], p)
  }

  /** Filtering with a condition that holds of every row keeps the rows. */
  lemma {:induction false} FilterAll<R(!new)>(rows: seq<R>, p: R -> bool)
    requires forall x :: x in rows ==> p(x)
    ensures Filter(rows, p) == rows
  {
    if rows != [] {
      FilterAll(rows[1..], p);
    }
  }

  /** Filtering keeps the relative order of the rows it keeps. */
  lemma {:induction false} FilterKeepsOrder<R(!new)>(rows: seq<R>, p: R -> bool, before: (R, R) -> bool)
    requires forall i, j :: 0 <= i < j < |rows| ==> before(rows[i], rows[j])
    ensures forall i, j :: 0 <= i < j < |Filter(rows, p)| ==> before(Filter(rows, p)[i], Filter(rows, p)[j])
  {
    if rows != [] {
      FilterKeepsOrder(rows[1..], p, before);
      var tail := Filter(rows[1..], p);
      if p(rows[0]) {
        var f := [rows[0]] + tail;
        assert Filter(rows, p) == f;
        forall i, j | 0 <= i < j < |f| ensures before(f[i], f[j]) {
          if i == 0 {
            assert f[j] == tail[j - 1];
            assert f[j] in rows[1..];
            var k :| 0 <= k < |rows[1..]| && rows[1..][k] == f[j];
            assert rows[k + 1] == f[j];
            assert before(rows[0], rows[k + 1]);
          } else {
            assert f[i] == tail[i - 1] && f[j] == tail[j - 1];
            assert before(tail[i - 1], tail[j - 1]);
          }
        }
      }
    }
  }

  /** Filtering distributes over concatenation. */
  lemma {:induction false} FilterAppend<R(!new)>(a: seq<R>, b: seq<R>, p: R -> bool)
    ensures Filter(a + b, p) == Filter(a, p) + Filter(b, p)
  {
    if a == [] {
      assert a + b == b;
    } else {
      assert (a + b)[1..] == a[1..] + b;
      FilterAppend(a[1..], b, p);
    }
  }

  /** An UPDATE ... WHERE: rows satisfying `p` are replaced by `f` of themselves, in place. */
  function UpdateWhere<R(!new)>(rows: seq<R>, p: R -> bool, f: R -> R): (r: seq<R>)
    ensures |r| == |rows|
    ensures forall i :: 0 <= i < |rows| ==> r[i] == if p(rows[i]) then f(rows[i]) else rows[i]
  {
    if rows == [] then []
    else [if p(rows[0]) then f(rows[0]) else rows[0]] + UpdateWhere(rows[1..], p, f)
  }

  /** `selectCount`. */
  function Count<R(!new)>(rows: seq<R>, p: R -> bool): (n: nat)
    ensures n == |Filter(rows, p)|
    ensures n == 0 <==> forall x :: x in rows ==> !p(x)
  {
    var m := Filter(rows, p);
    assert |m| > 0 ==> m[0] in m;
    |m|
  }

  datatype One<R> = NoRow | OneRow(row: R) | TooMany

  /** `selectOne`: the single matching row, none, or a TooManyResultsException. */
  function SelectOne<R(!new)>(rows: seq<R>, p: R -> bool): (r: One<R>)
    ensures r.NoRow? <==> forall x :: x in rows ==> !p(x)
    ensures r.OneRow? ==> Filter(rows, p) == [r.row] && r.row in rows && p(r.row)
    ensures r.TooMany? <==> |Filter(rows, p)| >= 2
  {
    var m := Filter(rows, p);
    if |m| == 0 then NoRow
    else if |m| == 1 then
      assert m[0] in m;
      OneRow(m[0])
    else TooMany
  }

  /** When no two rows both match (a key), `selectOne` never throws. */
  lemma {:induction false} SelectOneUnique<R(!new)>(rows: seq<R>, p: R -> bool)
    requires forall i, j :: 0 <= i < j < |rows| && p(rows[i]) ==> !p(rows[j])
    ensures !SelectOne(rows, p).TooMany?
  {
    if rows != [] {
      SelectOneUnique(rows[1..], p);
      if p(rows[0]) {
        assert forall x :: x in rows[1..] ==> !p(x) by {
          forall x | x in rows[1..] ensures !p(x) {
            var j :| 0 <= j < |rows[1..]| && rows[1..][j] == x;
            assert rows[j + 1] == x;
          }
        }
        assert Filter(rows[1..], p) == [];
      }
    }
  }

  /** The first row satisfying `p`: a lookup by primary key. */
  function FindFirst<R(!new)>(rows: seq<R>, p: R -> bool): (r: Option<R>)
    ensures r.None? <==> forall x :: x in rows ==> !p(x)
    ensures r.Some? ==> r.value in rows && p(r.value)
  {
    if rows == [] then None
    else if p(rows[0]) then Some(rows[0])
    else FindFirst(rows[1..], p)
  }

  /** `a` may come before `b` under ORDER BY ... DESC with NULL as the smallest value. */
  predicate NotBefore(a: Option<int>, b: Option<int>) {
    b.None? || (a.Some? && a.value >= b.value)
  }

  predicate SortedDesc<R(!new)>(s: seq<R>, key: R -> Option<int>) {
    forall i, j :: 0 <= i < j < |s| ==> NotBefore(key(s[i]), key(s[j]))
  }

  function InsertDesc<R(!new)>(x: R, s: seq<R>, key: R -> Option<int>): (r: seq<R>)
  {
    if s == [] || NotBefore(key(x), key(s[0])) then [x] + s
    else [s[0]] + InsertDesc(x, s[1..], key)
  }

  lemma {:induction false} InsertDescSorted<R(!new)>(x: R, s: seq<R>, key: R -> Option<int>)
    requires SortedDesc(s, key)
    ensures SortedDesc(InsertDesc(x, s, key), key)
    ensures multiset(InsertDesc(x, s, key)) == multiset(s) + multiset{x}
  {
    if s == [] || NotBefore(key(x), key(s[0])) {
    } else {
      InsertDescSorted(x, s[1..], key);
      var t := InsertDesc(x, s[1..], key);
      assert s == [s[0]] + s[1..];
      assert multiset(t) == multiset(s[1..]) + multiset{x};
      forall k | 0 <= k < |t| ensures NotBefore(key(s[0]), key(t[k])) {
        assert t[k] in multiset(t);
        assert t[k] == x || t[k] in multiset(s[1..]);
        if t[k] != x {
          var m :| 0 <= m < |s[1..]| && s[1..][m] == t[k];
          assert s[m + 1] == t[k];
        }
      }
    }
  }

  /** The rows ordered newest first (an insertion sort; ties keep table order). */
  function SortDesc<R(!new)>(s: seq<R>, key: R -> Option<int>): (r: seq<R>)
  {
    if s == [] then [] else InsertDesc(s[0], SortDesc(s[1..], key), key)
  }

  /** ORDER BY ... DESC returns the same rows, newest first. */
  lemma {:induction false} SortDescCorrect<R(!new)>(s: seq<R>, key: R -> Option<int>)
    ensures SortedDesc(SortDesc(s, key), key)
    ensures multiset(SortDesc(s, key)) == multiset(s)
  {
    if s != [] {
      SortDescCorrect(s[1..], key);
      InsertDescSorted(s[0], SortDesc(s[1..], key), key);
      assert s == [s[0]] + s[1..];
    }
  }
}
