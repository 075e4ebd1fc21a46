/**
 * Row filtering as `DataFrame.dropna(subset=...)` performs it: rows that pass
 * are kept, in their original order, and nothing else about them changes.
 */
module Tables {

  function Filter<T(==,!new)>(rows: seq<T>, keep: T -> bool): (kept: seq<T>)
    ensures |kept| <= |rows|
    ensures forall x :: x in kept <==> x in rows && keep(x)
  {
    if rows == [] then []
    else (if keep(rows[0]) then [rows[0]] else []) + Filter(rows[1..], keep)
  }

  /** Filtering works row by row: it distributes over concatenation, so order is kept. */
  lemma {:induction false} FilterAppend<T(!new)>(a: seq<T>, b: seq<T>, keep: T -> bool)
    ensures Filter(a + b, keep) == Filter(a, keep) + Filter(b, keep)
  {
    if a == [] {
      assert a + b == b;
    } else {
      assert (a + b)[1..] == a[1..] + b;
      FilterAppend(a[1..], b, keep);
    }
  }

  /** A table whose every row passes is returned unchanged. */
  lemma {:induction false} FilterAllKept<T(!new)>(rows: seq<T>, keep: T -> bool)
    requires forall i :: 0 <= i < |rows| ==> keep(rows[i])
    ensures Filter(rows, keep) == rows
  {
    if rows != [] {
      FilterAllKept(rows[1..], keep);
    }
  }

  /** Filtering twice with the same test is filtering once. */
  lemma {:induction false} FilterIdempotent<T(!new)>(rows: seq<T>, keep: T -> bool)
    ensures Filter(Filter(rows, keep), keep) == Filter(rows, keep)
  {
    var kept := Filter(rows, keep);
    forall i | 0 <= i < |kept| ensures keep(kept[i]) {
      assert kept[i] in kept;
    }
    FilterAllKept(kept, keep);
  }

  /** A row that fails the test leaves no trace, wherever it stands. */
  lemma {:induction false} FilterDropsRejected<T(!new)>(a: seq<T>, x: T, b: seq<T>, keep: T -> bool)
    requires !keep(x)
    ensures Filter(a + [x] + b, keep) == Filter(a + b, keep)
  {
    FilterAppend(a + [x], b, keep);
    FilterAppend(a, [x], keep);
    assert Filter([x], keep) == [] by {
      assert [x][1..] == [];
    }
    FilterAppend(a, b, keep);
  }
}
