/** An insertion sort under a total preorder: the model of the
    database's `sort` of a query result. */
module Sorting {

  ghost predicate IsTotalPreorder<T(!new)>(le: (T, T) -> bool) {
    && (forall a, b :: le(a, b) || le(b, a))
    && (forall a, b, c :: le(a, b) && le(b, c) ==> le(a, c))
  }

  predicate SortedBy<T>(le: (T, T) -> bool, s: seq<T>) {
    forall i, j :: 0 <= i < j < |s| ==> le(s[i], s[j])
  }

  /** Every element of `s` comes after (or ties with) `a`. */
  predicate Below<T>(le: (T, T) -> bool, a: T, s: seq<T>) {
    forall j :: 0 <= j < |s| ==> le(a, s[j])
  }

  /** An element below every element of `s` is below every element of a
      sequence drawn from `s`. */
  lemma BelowSubset<T>(le: (T, T) -> bool, a: T, s: seq<T>, t: seq<T>)
    requires Below(le, a, s)
    requires multiset(t) <= multiset(s)
    ensures Below(le, a, t)
  {
    forall k | 0 <= k < |t| ensures le(a, t[k]) {
      assert t[k] in multiset(t);
      assert t[k] in s;
    }
  }

  /** Putting in front of a sorted sequence an element below all of it
      keeps it sorted. */
  lemma ConsSorted<T>(le: (T, T) -> bool, a: T, t: seq<T>)
    requires SortedBy(le, t) && Below(le, a, t)
    ensures SortedBy(le, [a] + t)
  {
    var r := [a] + t;
    forall i, j | 0 <= i < j < |r| ensures le(r[i], r[j]) {
      assert r[j] == t[j - 1];
      if i > 0 { assert r[i] == t[i - 1]; }
    }
  }

  /** Puts `x` before the first element it is not after. */
  function Insert<T(!new)>(le: (T, T) -> bool, x: T, s: seq<T>): (r: seq<T>)
    requires IsTotalPreorder(le)
    requires SortedBy(le, s)
    ensures SortedBy(le, r)
    ensures multiset(r) == multiset(s) + multiset{x}
  {
    if s == [] then [x]
    else if le(x, s[0]) then
      assert Below(le, x, s) by {
        forall j | 0 <= j < |s| ensures le(x, s[j]) {
          if j > 0 { assert le(s[0], s[j]); }
        }
      }
      ConsSorted(le, x, s);
      [x] + s
    else
      var tail := s[1..];
      var rest := Insert(le, x, tail);
      assert s == [s[0]] + tail;
      assert Below(le, s[0], tail + [x]);
      assert multiset(rest) == multiset(tail + [x]);
      BelowSubset(le, s[0], tail + [x], rest);
      ConsSorted(le, s[0], rest);
      [s[0]] + rest
  }

  function Sort<T(!new)>(le: (T, T) -> bool, s: seq<T>): (r: seq<T>)
    requires IsTotalPreorder(le)
    ensures SortedBy(le, r)
    ensures multiset(r) == multiset(s)
  {
    if s == [] then []
    else
      assert s == [s[0]] + s[1..];
      Insert(le, s[0], Sort(le, s[1..]))
  }
}
