/** Sorting by a numeric key: Python's `sorted(xs, key=...)` and pandas'
    `sort_values(by=...)`. */
module Sorting {

  predicate SortedBy<T>(s: seq<T>, key: T -> real) {
    forall i, j | 0 <= i < j < |s| :: key(s[i]) <= key(s[j])
  }

  /** Where `x` goes in the sorted `s`: after every element whose key is not
      greater than its own, before every element whose key is. */
  function Position<T>(x: T, s: seq<T>, key: T -> real): (p: nat)
    requires SortedBy(s, key)
    ensures p <= |s|
    ensures forall i | 0 <= i < p :: key(s[i]) <= key(x)
    ensures forall i | p <= i < |s| :: key(x) < key(s[i])
  {
    if s == [] || key(x) < key(s[0]) then 0 else 1 + Position(x, s[1..], key)
  }

  /** Putting `x` between the elements whose keys do not exceed its own and
      those whose keys do keeps the sequence sorted. */
  lemma InsertSorted<T>(x: T, s: seq<T>, key: T -> real, p: nat)
    requires SortedBy(s, key) && p <= |s|
    requires forall i | 0 <= i < p :: key(s[i]) <= key(x)
    requires forall i | p <= i < |s| :: key(x) < key(s[i])
    ensures SortedBy(s[..p] + [x] + s[p..], key)
  {
    var r := s[..p] + [x] + s[p..];
    forall i, j | 0 <= i < j < |r| ensures key(r[i]) <= key(r[j]) {
      if j < p {
        assert r[i] == s[i] && r[j] == s[j];
      } else if j == p {
        assert r[i] == s[i] && r[j] == x;
      } else if i < p {
        assert r[i] == s[i] && r[j] == s[j - 1];
      } else if i == p {
        assert r[i] == x && r[j] == s[j - 1];
      } else {
        assert r[i] == s[i - 1] && r[j] == s[j - 1];
      }
    }
  }

  lemma SplitMultiset<T>(x: T, s: seq<T>, p: nat)
    requires p <= |s|
    ensures multiset(s[..p] + [x] + s[p..]) == multiset(s) + multiset{x}
  {
    assert s == s[..p] + s[p..];
  }

  /** Inserts `x` at its position in the sorted `s`. */
  function Insert<T>(x: T, s: seq<T>, key: T -> real): (r: seq<T>)
    requires SortedBy(s, key)
    ensures SortedBy(r, key)
    ensures multiset(r) == multiset(s) + multiset{x}
  {
    var p := Position(x, s, key);
    InsertSorted(x, s, key, p);
    SplitMultiset(x, s, p);
    s[..p] + [x] + s[p..]
  }

  /** The elements of `s` in ascending key order. */
  function SortBy<T>(s: seq<T>, key: T -> real): (r: seq<T>)
    ensures SortedBy(r, key)
    ensures multiset(r) == multiset(s)
    ensures |r| == |s|
  {
    if s == [] then []
    else
      var init, last := s[..|s| - 1], s[|s| - 1];
      assert s == init + [last];
      var r := Insert(last, SortBy(init, key), key);
      assert |r| == |multiset(r)|;
      r
  }
}
