/** Sequence operations shared by the table pipelines. */
module Seqs {

  predicate NoDuplicates<T(==)>(s: seq<T>) {
    forall i, j :: 0 <= i < j < |s| ==> s[i] != s[j]
  }

  /** pandas `Series.unique()`: the distinct values, in the order they first appear. */
  function Unique<T(==, !new)>(s: seq<T>): (r: seq<T>)
    ensures NoDuplicates(r)
    ensures forall x :: x in r <==> x in s
  {
    if |s| == 0 then []
    else
      var u := Unique(s[..|s| - 1]);
      assert s == s[..|s| - 1] + [s[|s| - 1]];
      if s[|s| - 1] in u then u else u + [s[|s| - 1]]
  }

  /** The position of the first occurrence of `x` in `s`. */
  function FirstIndex<T(==)>(s: seq<T>, x: T): (k: nat)
    requires x in s
    ensures k < |s| && s[k] == x && x !in s[..k]
  {
    if s[0] == x then 0
    else
      assert s == [s[0]] + s[1..];
      var k := 1 + FirstIndex(s[1..], x);
      assert s[..k] == [s[0]] + s[1..][..k - 1];
      k
  }

  /** Only the first occurrence has no earlier occurrence. */
  lemma FirstIndexIsUnique<T>(s: seq<T>, x: T, k: nat)
    requires k < |s| && s[k] == x && x !in s[..k]
    ensures FirstIndex(s, x) == k
  {
  }

  /** Occurrences in a prefix come first in the whole sequence too. */
  lemma FirstIndexInPrefix<T>(s: seq<T>, n: nat, x: T)
    requires n <= |s| && x in s[..n]
    ensures FirstIndex(s[..n], x) == FirstIndex(s, x)
  {
    var k := FirstIndex(s[..n], x);
    assert s[..n][..k] == s[..k];
    FirstIndexIsUnique(s, x, k);
  }

  /** `Unique` lists the values in the order of their first appearance in `s`. */
  lemma {:induction false} UniqueInFirstAppearanceOrder<T(!new)>(s: seq<T>)
    ensures forall i, j :: 0 <= i < j < |Unique(s)| ==>
      FirstIndex(s, Unique(s)[i]) < FirstIndex(s, Unique(s)[j])
  {
    if |s| > 0 {
      var n := |s| - 1;
      var p := s[..n];
      UniqueInFirstAppearanceOrder(p);
      var u := Unique(p);
      assert s[..n] == p;
      forall x | x in u
        ensures FirstIndex(s, x) == FirstIndex(p, x) && FirstIndex(p, x) < n
      {
        FirstIndexInPrefix(s, n, x);
      }
      if s[n] !in u {
        assert s[n] !in s[..n];
        FirstIndexIsUnique(s, s[n], n);
      }
    }
  }

  /**
   * `df[df[column] == value]`: the rows whose `cell` equals `value`, in sheet
   * order, each as often as it occurs in `rows`.
   */
  function RowsWhere<R(==, !new), K(==)>(rows: seq<R>, cell: R -> K, value: K): (r: seq<R>)
    ensures forall x :: x in r <==> x in rows && cell(x) == value
    ensures forall x :: multiset(r)[x] == if cell(x) == value then multiset(rows)[x] else 0
  {
    if |rows| == 0 then []
    else
      assert rows == [rows[0]] + rows[1..];
      (if cell(rows[0]) == value then [rows[0]] else []) + RowsWhere(rows[1..], cell, value)
  }

  /** `pd.concat(groups)`: the groups one after another. */
  function Flatten<T>(groups: seq<seq<T>>): seq<T> {
    if |groups| == 0 then [] else Flatten(groups[..|groups| - 1]) + groups[|groups| - 1]
  }

  lemma FlattenSnoc<T>(groups: seq<seq<T>>, g: seq<T>)
    ensures Flatten(groups + [g]) == Flatten(groups) + g
  {
    assert (groups + [g])[..|groups|] == groups;
  }
}
