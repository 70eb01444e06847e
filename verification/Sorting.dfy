/** The stable sort behind the two `sort_by_key` calls of the pipelines. */
module Sorting {

  ghost predicate TotalPreorder<T(!new)>(le: (T, T) -> bool) {
    && (forall x, y :: le(x, y) || le(y, x))
    && (forall x, y, z :: le(x, y) && le(y, z) ==> le(x, z))
  }

  predicate SortedBy<T>(s: seq<T>, le: (T, T) -> bool) {
    forall i, j :: 0 <= i < j < |s| ==> le(s[i], s[j])
  }

  /** Put `x` before the first element it is not above, so earlier equals stay earlier. */
  function Insert<T>(x: T, s: seq<T>, le: (T, T) -> bool): seq<T> {
    if s == [] || le(x, s[0]) then [x] + s
    else [s[0]] + Insert(x, s[1..], le)
  }

  function Sort<T>(s: seq<T>, le: (T, T) -> bool): seq<T> {
    if s == [] then [] else Insert(s[0], Sort(s[1..], le), le)
  }

  lemma {:induction false} InsertKeeps<T(!new)>(x: T, s: seq<T>, le: (T, T) -> bool)
    requires TotalPreorder(le) && SortedBy(s, le)
    ensures SortedBy(Insert(x, s, le), le)
    ensures multiset(Insert(x, s, le)) == multiset{x} + multiset(s)
    ensures |Insert(x, s, le)| == |s| + 1
  {
    if s != [] && !le(x, s[0]) {
      var rest := s[1..];
      var t := Insert(x, rest, le);
      InsertKeeps(x, rest, le);
      assert s == [s[0]] + rest;
      assert le(s[0], x);
      forall y | y in t ensures le(s[0], y) {
        FromInsert(x, rest, t, y);
      }
      HeadSorted(s[0], t, le);
    } else {
      assert multiset([x] + s) == multiset{x} + multiset(s);
      if s != [] { HeadIsLeast(x, s, le); }
      HeadSorted(x, s, le);
    }
  }

  lemma FromInsert<T>(x: T, s: seq<T>, t: seq<T>, y: T)
    requires multiset(t) == multiset{x} + multiset(s) && y in t
    ensures y == x || y in s
  {
    assert y in multiset(t);
  }

  lemma HeadIsLeast<T(!new)>(x: T, s: seq<T>, le: (T, T) -> bool)
    requires TotalPreorder(le) && SortedBy(s, le) && s != [] && le(x, s[0])
    ensures forall y :: y in s ==> le(x, y)
  {
    forall y | y in s ensures le(x, y) {
      var k :| 0 <= k < |s| && s[k] == y;
      assert k == 0 || le(s[0], s[k]);
    }
  }

  lemma HeadSorted<T>(x: T, s: seq<T>, le: (T, T) -> bool)
    requires SortedBy(s, le) && forall y :: y in s ==> le(x, y)
    ensures SortedBy([x] + s, le)
  {
    var t := [x] + s;
    forall i, j | 0 <= i < j < |t| ensures le(t[i], t[j]) {
      assert t[j] == s[j - 1];
    }
  }

  /** Sorting orders the list and loses, adds or duplicates nothing. */
  lemma {:induction false} SortSorts<T(!new)>(s: seq<T>, le: (T, T) -> bool)
    requires TotalPreorder(le)
    ensures SortedBy(Sort(s, le), le)
    ensures multiset(Sort(s, le)) == multiset(s)
    ensures |Sort(s, le)| == |s|
  {
    if s != [] {
      SortSorts(s[1..], le);
      InsertKeeps(s[0], Sort(s[1..], le), le);
      assert s == [s[0]] + s[1..];
    }
  }

  lemma {:induction false} InsertClass<T(!new)>(x: T, s: seq<T>, le: (T, T) -> bool, c: T)
    requires TotalPreorder(le) && SortedBy(s, le)
    ensures Class(Insert(x, s, le), le, c) == Class([x] + s, le, c)
  {
    if s != [] && !le(x, s[0]) {
      InsertClass(x, s[1..], le, c);
      assert ([x] + s)[1..] == s && ([x] + s[1..])[1..] == s[1..];
      assert Insert(x, s, le)[1..] == Insert(x, s[1..], le);
    }
  }

  /** The elements of `s` that `le` ranks level with `c`, in their order. */
  function Class<T>(s: seq<T>, le: (T, T) -> bool, c: T): seq<T> {
    if s == [] then []
    else (if le(s[0], c) && le(c, s[0]) then [s[0]] else []) + Class(s[1..], le, c)
  }

  /** Sorting is stable: elements of equal rank keep their order. */
  lemma {:induction false} SortIsStable<T(!new)>(s: seq<T>, le: (T, T) -> bool, c: T)
    requires TotalPreorder(le)
    ensures Class(Sort(s, le), le, c) == Class(s, le, c)
  {
    if s != [] {
      var t := Sort(s[1..], le);
      SortSorts(s[1..], le);
      SortIsStable(s[1..], le, c);
      InsertClass(s[0], t, le, c);
      assert ([s[0]] + t)[1..] == t;
    }
  }
}
