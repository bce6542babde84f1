/** Python's `list.sort(key=...)` for the keys the data preparation uses:
    pairs of a number of minutes and a string, compared as Python compares
    tuples. The sort is an insertion sort that is stable, as Python's is. */
module Sorting {
  import opened Text

  datatype SortKey = SortKey(minutes: int, name: string)

  /** Python's `a <= b` on `(int, str)` tuples. */
  predicate KeyLe(a: SortKey, b: SortKey)
  {
    a.minutes < b.minutes || (a.minutes == b.minutes && LexLe(a.name, b.name))
  }

  lemma KeyLeTotal(a: SortKey, b: SortKey)
    ensures KeyLe(a, b) || KeyLe(b, a)
  {
    LexLeTotal(a.name, b.name);
  }

  lemma KeyLeTransitive(a: SortKey, b: SortKey, c: SortKey)
    requires KeyLe(a, b) && KeyLe(b, c)
    ensures KeyLe(a, c)
  {
    if a.minutes == b.minutes == c.minutes {
      LexLeTransitive(a.name, b.name, c.name);
    }
  }

  /** Every element's key is at most every later element's key. */
  predicate Sorted<T>(xs: seq<T>, key: T -> SortKey)
  {
    forall i, j :: 0 <= i < j < |xs| ==> KeyLe(key(xs[i]), key(xs[j]))
  }

  /** No two elements share the string part of their key. */
  predicate DistinctNames<T>(xs: seq<T>, key: T -> SortKey)
  {
    forall i, j :: 0 <= i < j < |xs| ==> key(xs[i]).name != key(xs[j]).name
  }

  /** Puts `x` in front of the first element whose key is not below it. */
  function Insert<T>(x: T, ys: seq<T>, key: T -> SortKey): (r: seq<T>)
    ensures multiset(r) == multiset(ys) + multiset{x}
    ensures Sorted(ys, key) ==> Sorted(r, key)
  {
    if ys == [] then [x]
    else if KeyLe(key(x), key(ys[0])) then
      var r := [x] + ys;
      assert Sorted(ys, key) ==> Sorted(r, key) by {
        if Sorted(ys, key) {
          forall i, j | 0 <= i < j < |r| ensures KeyLe(key(r[i]), key(r[j])) {
            if i == 0 && j > 1 {
              KeyLeTransitive(key(x), key(ys[0]), key(ys[j - 1]));
            }
          }
        }
      }
      r
    else
      var rest := Insert(x, ys[1..], key);
      var r := [ys[0]] + rest;
      assert ys == [ys[0]] + ys[1..];
      assert Sorted(ys, key) ==> Sorted(r, key) by {
        if Sorted(ys, key) {
          KeyLeTotal(key(x), key(ys[0]));
          forall j | 0 < j < |r| ensures KeyLe(key(ys[0]), key(r[j])) {
            assert r[j] in multiset(rest);
            if r[j] != x {
              assert r[j] in ys[1..];
            }
          }
        }
      }
      r
  }

  /** The list sorted by `key`, a permutation of its input. */
  function SortBy<T>(xs: seq<T>, key: T -> SortKey): (r: seq<T>)
    ensures multiset(r) == multiset(xs) && |r| == |xs|
    ensures Sorted(r, key)
  {
    if xs == [] then []
    else
      assert xs == [xs[0]] + xs[1..];
      Insert(xs[0], SortBy(xs[1..], key), key)
  }

  /** Inserting an element whose name is new keeps the names distinct. */
  lemma {:induction false} InsertKeepsDistinct<T>(x: T, ys: seq<T>, key: T -> SortKey)
    requires DistinctNames(ys, key)
    requires forall y :: y in ys ==> key(y).name != key(x).name
    ensures DistinctNames(Insert(x, ys, key), key)
  {
    if ys != [] && !KeyLe(key(x), key(ys[0])) {
      var rest := Insert(x, ys[1..], key);
      InsertKeepsDistinct(x, ys[1..], key);
      var r := [ys[0]] + rest;
      forall j | 0 < j < |r| ensures key(ys[0]).name != key(r[j]).name {
        assert r[j] in multiset(rest);
        if r[j] != x {
          var k :| 0 <= k < |ys[1..]| && ys[1..][k] == r[j];
          assert ys[k + 1] == r[j];
        }
      }
    }
  }

  /** Sorting keeps the names distinct. */
  lemma {:induction false} SortByKeepsDistinct<T>(xs: seq<T>, key: T -> SortKey)
    requires DistinctNames(xs, key)
    ensures DistinctNames(SortBy(xs, key), key)
  {
    if xs != [] {
      var rest := SortBy(xs[1..], key);
      SortByKeepsDistinct(xs[1..], key);
      forall y | y in rest ensures key(y).name != key(xs[0]).name {
        assert y in multiset(xs[1..]);
        var k :| 0 <= k < |xs[1..]| && xs[1..][k] == y;
        assert xs[k + 1] == y;
      }
      InsertKeepsDistinct(xs[0], rest, key);
    }
  }
}
