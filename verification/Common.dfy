/** Small datatypes and collection facts shared by the other modules. */
module Common {

  datatype Option<+T> = None | Some(value: T)

  datatype Result<+T> = Ok(value: T) | Err(error: string)

  ghost predicate Distinct<T>(s: seq<T>) {
    forall i, j :: 0 <= i < j < |s| ==> s[i] != s[j]
  }

  function Elements<T(==)>(s: seq<T>): set<T> {
    set x | x in s
  }

  function Max(a: int, b: int): int {
    if a < b then b else a
  }

  function Min(a: int, b: int): int {
    if a < b then a else b
  }

  /** Sum of the values of a finite map. */
  ghost function SumValues<K(!new)>(m: map<K, nat>): nat
    decreases |m|
  {
    if m == map[] then 0
    else
      var k :| k in m;
      m[k] + SumValues(m - {k})
  }

  lemma {:induction false} SumValuesRemove<K(!new)>(m: map<K, nat>, k: K)
    requires k in m
    ensures SumValues(m) == m[k] + SumValues(m - {k})
    decreases |m|
  {
    var c :| c in m && SumValues(m) == m[c] + SumValues(m - {c});
    if c != k {
      SumValuesRemove(m - {c}, k);
      SumValuesRemove(m - {k}, c);
      assert m - {c} - {k} == m - {k} - {c};
    }
  }

  lemma SumValuesUpdate<K(!new)>(m: map<K, nat>, k: K, v: nat)
    requires k in m
    ensures SumValues(m[k := v]) == SumValues(m) - m[k] + v
  {
    SumValuesRemove(m, k);
    SumValuesRemove(m[k := v], k);
    assert m[k := v] - {k} == m - {k};
  }

  lemma {:induction false} SumValuesZero<K(!new)>(m: map<K, nat>)
    requires SumValues(m) == 0
    ensures forall k :: k in m ==> m[k] == 0
  {
    forall k | k in m ensures m[k] == 0 {
      SumValuesRemove(m, k);
    }
  }

  lemma {:induction false} Least(s: set<nat>) returns (m: nat)
    requires s != {}
    ensures m in s && forall x :: x in s ==> m <= x
    decreases |s|
  {
    m :| m in s;
    if s != {m} {
      assert s == (s - {m}) + {m};
      var other := Least(s - {m});
      m := Min(m, other);
    }
  }

  function MinOf(s: set<nat>): (m: nat)
    requires s != {}
    ensures m in s && forall x :: x in s ==> m <= x
  {
    assert exists m :: m in s && forall x :: x in s ==> m <= x by { var least := Least(s); }
    var m :| m in s && forall x :: x in s ==> m <= x;
    m
  }

  /** The members in increasing order: the order of an index scan over one index key. */
  function SortedIds(s: set<nat>): (ids: seq<nat>)
    ensures forall i :: 0 <= i < |ids| ==> ids[i] in s
    ensures forall i, j :: 0 <= i < j < |ids| ==> ids[i] < ids[j]
    decreases |s|
  {
    if s == {} then []
    else
      var m := MinOf(s);
      [m] + SortedIds(s - {m})
  }

  lemma {:induction false} SortedElements(s: set<nat>)
    ensures Elements(SortedIds(s)) == s
    decreases |s|
  {
    if s != {} {
      var m := MinOf(s);
      SortedElements(s - {m});
      var rest := SortedIds(s - {m});
      assert SortedIds(s) == [m] + rest;
      assert Elements([m] + rest) == {m} + Elements(rest);
    }
  }
}
