/**
 * Ordering by a numeric key, largest key first.  The same sort serves the
 * descending count order of the type distribution and the newest-first
 * order of the upload history.
 */
module Sorting {

  /** Keys never increase from left to right. */
  predicate NonIncreasing<T>(s: seq<T>, key: T -> int) {
    forall i, j :: 0 <= i < j < |s| ==> key(s[i]) >= key(s[j])
  }

  /** No element occurs twice. */
  predicate NoDup<T(==)>(s: seq<T>) {
    forall i, j :: 0 <= i < j < |s| ==> s[i] != s[j]
  }

  /** Inserts x in front of the first element whose key is not larger. */
  function Insert<T(==)>(x: T, s: seq<T>, key: T -> int): (r: seq<T>)
    ensures multiset(r) == multiset(s) + multiset{x}
    ensures |r| == |s| + 1
  {
    if s == [] || key(s[0]) <= key(x) then [x] + s
    else
      assert s == [s[0]] + s[1..];
      [s[0]] + Insert(x, s[1..], key)
  }

  /** Every element of Insert(x, s) is x or an element of s. */
  lemma InsertFrom<T>(x: T, s: seq<T>, key: T -> int, i: nat)
    requires i < |Insert(x, s, key)|
    ensures Insert(x, s, key)[i] == x || Insert(x, s, key)[i] in s
  {
    var y := Insert(x, s, key)[i];
    assert y in multiset(Insert(x, s, key));
  }

  lemma {:induction false} InsertSorted<T>(x: T, s: seq<T>, key: T -> int)
    requires NonIncreasing(s, key)
    ensures NonIncreasing(Insert(x, s, key), key)
  {
    if s != [] && key(s[0]) > key(x) {
      var rest := Insert(x, s[1..], key);
      InsertSorted(x, s[1..], key);
      forall i | 0 <= i < |rest| ensures key(s[0]) >= key(rest[i]) {
        InsertFrom(x, s[1..], key, i);
      }
    }
  }

  lemma {:induction false} InsertNoDup<T>(x: T, s: seq<T>, key: T -> int)
    requires x !in s && NoDup(s)
    ensures NoDup(Insert(x, s, key))
  {
    if s != [] && key(s[0]) > key(x) {
      var rest := Insert(x, s[1..], key);
      InsertNoDup(x, s[1..], key);
      forall i | 0 <= i < |rest| ensures s[0] != rest[i] {
        InsertFrom(x, s[1..], key, i);
      }
    }
  }

  /** Insertion sort, largest key first; of equal keys the earlier one stays first. */
  function SortDesc<T(==)>(s: seq<T>, key: T -> int): (r: seq<T>)
    ensures multiset(r) == multiset(s)
    ensures |r| == |s|
  {
    if s == [] then []
    else
      assert s == [s[0]] + s[1..];
      Insert(s[0], SortDesc(s[1..], key), key)
  }

  /** The sort's result is ordered by key, largest first, and keeps distinct elements distinct. */
  lemma {:induction false} SortDescOrdered<T>(s: seq<T>, key: T -> int)
    ensures NonIncreasing(SortDesc(s, key), key)
    ensures NoDup(s) ==> NoDup(SortDesc(s, key))
  {
    if s != [] {
      var rest := SortDesc(s[1..], key);
      SortDescOrdered(s[1..], key);
      InsertSorted(s[0], rest, key);
      if NoDup(s) {
        assert NoDup(s[1..]);
        assert s[0] !in s[1..];
        assert multiset(rest)[s[0]] == 0;
        InsertNoDup(s[0], rest, key);
      }
    }
  }
}
