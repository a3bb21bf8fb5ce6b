/** Python's `sorted(xs, key=...)`: a stable sort. It is modelled as an insertion
    sort that places an element before every element it is not greater than, so
    that equal elements keep their input order. */
module Sorting {

  /** `le` orders every two values one way or the other. */
  ghost predicate Total<T(!new)>(le: (T, T) -> bool) {
    forall a, b :: le(a, b) || le(b, a)
  }

  /** Every element is `le` the one after it. */
  predicate SortedBy<T>(s: seq<T>, le: (T, T) -> bool) {
    forall i :: 0 < i < |s| ==> le(s[i - 1], s[i])
  }

  function Insert<T>(x: T, t: seq<T>, le: (T, T) -> bool): (r: seq<T>)
    ensures |r| == |t| + 1
    ensures multiset(r) == multiset{x} + multiset(t)
    ensures r[0] == x || (|t| > 0 && r[0] == t[0])
  {
    if t == [] || le(x, t[0]) then [x] + t
    else
      assert t == [t[0]] + t[1..];
      [t[0]] + Insert(x, t[1..], le)
  }

  function SortBy<T>(s: seq<T>, le: (T, T) -> bool): (r: seq<T>)
  {
    if s == [] then [] else Insert(s[0], SortBy(s[1..], le), le)
  }

  /** Sorting permutes its input. */
  lemma {:induction false} SortByPermutes<T>(s: seq<T>, le: (T, T) -> bool)
    ensures |SortBy(s, le)| == |s|
    ensures multiset(SortBy(s, le)) == multiset(s)
  {
    if s != [] {
      SortByPermutes(s[1..], le);
      assert s == [s[0]] + s[1..];
    }
  }

  lemma {:induction false} InsertSorted<T(!new)>(x: T, t: seq<T>, le: (T, T) -> bool)
    requires Total(le)
    requires SortedBy(t, le)
    ensures SortedBy(Insert(x, t, le), le)
  {
    if t != [] && !le(x, t[0]) {
      assert le(t[0], x);
      InsertSorted(x, t[1..], le);
      var rest := Insert(x, t[1..], le);
      assert Insert(x, t, le) == [t[0]] + rest;
      if |t| > 1 {
        assert le(t[0], t[1]);
      }
    }
  }

  /** Under a total order, sorting yields a sorted sequence. */
  lemma {:induction false} SortBySorted<T(!new)>(s: seq<T>, le: (T, T) -> bool)
    requires Total(le)
    ensures SortedBy(SortBy(s, le), le)
  {
    if s != [] {
      SortBySorted(s[1..], le);
      InsertSorted(s[0], SortBy(s[1..], le), le);
    }
  }

  /** No two elements have the same key. */
  predicate DistinctBy<T, K(==)>(s: seq<T>, key: T -> K) {
    forall i, j :: 0 <= i < j < |s| ==> key(s[i]) != key(s[j])
  }

  lemma ConsKeepsDistinct<T, K>(a: T, r: seq<T>, key: T -> K)
    requires DistinctBy(r, key) && forall e :: e in r ==> key(e) != key(a)
    ensures DistinctBy([a] + r, key)
  {
    var s := [a] + r;
    forall i, j | 0 <= i < j < |s| ensures key(s[i]) != key(s[j]) {
      assert s[j] == r[j - 1] && s[j] in r;
      if i > 0 {
        assert s[i] == r[i - 1];
      }
    }
  }

  lemma {:induction false} InsertKeepsDistinct<T, K>(x: T, t: seq<T>, le: (T, T) -> bool, key: T -> K)
    requires DistinctBy(t, key) && forall e :: e in t ==> key(e) != key(x)
    ensures DistinctBy(Insert(x, t, le), key)
    decreases |t|
  {
    if t == [] || le(x, t[0]) {
      ConsKeepsDistinct(x, t, key);
    } else {
      var rest := t[1..];
      assert forall i :: 0 <= i < |rest| ==> rest[i] == t[i + 1];
      InsertKeepsDistinct(x, rest, le, key);
      var ins := Insert(x, rest, le);
      forall e | e in ins ensures key(e) != key(t[0]) {
        assert multiset(ins)[e] > 0;
        if e != x {
          assert e in multiset(rest);
          var i :| 0 <= i < |rest| && rest[i] == e;
        }
      }
      ConsKeepsDistinct(t[0], ins, key);
    }
  }

  /** Sorting keeps distinct keys distinct. */
  lemma {:induction false} SortByKeepsDistinct<T, K>(s: seq<T>, le: (T, T) -> bool, key: T -> K)
    requires DistinctBy(s, key)
    ensures DistinctBy(SortBy(s, le), key)
  {
    if s != [] {
      var rest := s[1..];
      assert forall i :: 0 <= i < |rest| ==> rest[i] == s[i + 1];
      SortByKeepsDistinct(rest, le, key);
      SortByPermutes(rest, le);
      var sorted := SortBy(rest, le);
      forall e | e in sorted ensures key(e) != key(s[0]) {
        assert e in multiset(rest);
        var i :| 0 <= i < |rest| && rest[i] == e;
      }
      InsertKeepsDistinct(s[0], sorted, le, key);
    }
  }
}
