/** A stable sort by descending key: what Array.prototype.sort does with a (b - a) comparison. */
module StableSort {

  /** Insertion from the right: a row goes before the later rows with its key. */
  function InsertDesc<T>(row: T, key: T -> int, rows: seq<T>): seq<T> {
    if rows == [] || key(row) >= key(rows[0]) then [row] + rows
    else [rows[0]] + InsertDesc(row, key, rows[1..])
  }

  function SortDesc<T>(rows: seq<T>, key: T -> int): seq<T> {
    if rows == [] then [] else InsertDesc(rows[0], key, SortDesc(rows[1..], key))
  }

  ghost predicate Descending<T>(rows: seq<T>, key: T -> int) {
    forall i, j :: 0 <= i < j < |rows| ==> key(rows[i]) >= key(rows[j])
  }

  ghost predicate AllAtMost<T>(rows: seq<T>, key: T -> int, bound: int) {
    forall i :: 0 <= i < |rows| ==> key(rows[i]) <= bound
  }

  lemma DescendingCons<T>(row: T, key: T -> int, rows: seq<T>)
    ensures Descending([row] + rows, key) <==> Descending(rows, key) && AllAtMost(rows, key, key(row))
  {
    var all := [row] + rows;
    assert forall i :: 0 <= i < |rows| ==> all[i + 1] == rows[i];
    if Descending(all, key) {
      forall i, j | 0 <= i < j < |rows| ensures key(rows[i]) >= key(rows[j]) {
        assert key(all[i + 1]) >= key(all[j + 1]);
      }
      forall i | 0 <= i < |rows| ensures key(rows[i]) <= key(row) {
        assert key(all[0]) >= key(all[i + 1]);
      }
    }
    if Descending(rows, key) && AllAtMost(rows, key, key(row)) {
      forall i, j | 0 <= i < j < |all| ensures key(all[i]) >= key(all[j]) {
        assert all[j] == rows[j - 1];
      }
    }
  }

  lemma {:induction false} InsertDescBound<T>(row: T, key: T -> int, rows: seq<T>, bound: int)
    requires key(row) <= bound && AllAtMost(rows, key, bound)
    ensures AllAtMost(InsertDesc(row, key, rows), key, bound)
    decreases |rows|
  {
    if rows != [] && key(row) < key(rows[0]) {
      InsertDescBound(row, key, rows[1..], bound);
    }
  }

  lemma {:induction false} InsertDescSorted<T>(row: T, key: T -> int, rows: seq<T>)
    requires Descending(rows, key)
    ensures Descending(InsertDesc(row, key, rows), key)
    ensures multiset(InsertDesc(row, key, rows)) == multiset(rows) + multiset{row}
    decreases |rows|
  {
    if rows == [] {
    } else {
      assert rows == [rows[0]] + rows[1..];
      DescendingCons(rows[0], key, rows[1..]);
      if key(row) >= key(rows[0]) {
        assert AllAtMost(rows, key, key(row));
        DescendingCons(row, key, rows);
      } else {
        InsertDescSorted(row, key, rows[1..]);
        InsertDescBound(row, key, rows[1..], key(rows[0]));
        DescendingCons(rows[0], key, InsertDesc(row, key, rows[1..]));
      }
    }
  }

  /** The result is a rearrangement of the rows with keys going down. */
  lemma {:induction false} SortDescSorted<T>(rows: seq<T>, key: T -> int)
    ensures Descending(SortDesc(rows, key), key)
    ensures multiset(SortDesc(rows, key)) == multiset(rows)
    decreases |rows|
  {
    if rows == [] {
    } else {
      SortDescSorted(rows[1..], key);
      InsertDescSorted(rows[0], key, SortDesc(rows[1..], key));
      assert rows == [rows[0]] + rows[1..];
    }
  }

  /** Rows with one key, in their order. */
  function WithKey<T>(rows: seq<T>, key: T -> int, k: int): seq<T> {
    if rows == [] then [] else (if key(rows[0]) == k then [rows[0]] else []) + WithKey(rows[1..], key, k)
  }

  lemma WithKeyCons<T>(row: T, key: T -> int, rows: seq<T>, k: int)
    ensures WithKey([row] + rows, key, k) == (if key(row) == k then [row] else []) + WithKey(rows, key, k)
  {
    assert ([row] + rows)[1..] == rows;
  }

  lemma {:induction false} InsertDescStable<T>(row: T, key: T -> int, rows: seq<T>, k: int)
    requires Descending(rows, key)
    ensures WithKey(InsertDesc(row, key, rows), key, k) == (if key(row) == k then [row] else []) + WithKey(rows, key, k)
    decreases |rows|
  {
    if rows == [] || key(row) >= key(rows[0]) {
      WithKeyCons(row, key, rows, k);
    } else {
      var rest := InsertDesc(row, key, rows[1..]);
      assert rows == [rows[0]] + rows[1..];
      DescendingCons(rows[0], key, rows[1..]);
      InsertDescStable(row, key, rows[1..], k);
      WithKeyCons(rows[0], key, rest, k);
      assert key(row) == k ==> key(rows[0]) != k;
    }
  }

  /** Rows with equal keys keep their order. */
  lemma {:induction false} SortDescStable<T>(rows: seq<T>, key: T -> int, k: int)
    ensures WithKey(SortDesc(rows, key), key, k) == WithKey(rows, key, k)
    decreases |rows|
  {
    if rows == [] {
    } else {
      SortDescSorted(rows[1..], key);
      SortDescStable(rows[1..], key, k);
      InsertDescStable(rows[0], key, SortDesc(rows[1..], key), k);
    }
  }
}
