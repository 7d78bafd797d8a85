/**
 The stable sort by key that Python's list.sort and sorted provide.
 */
module StableSort {

  // Insert x after every element that may stand before it.
  function Insert<T>(s: seq<T>, x: T, le: (T, T) -> bool): (r: seq<T>)
    ensures |r| == |s| + 1
  {
    if s == [] || le(s[|s| - 1], x) then s + [x]
    else Insert(s[..|s| - 1], x, le) + [s[|s| - 1]]
  }

  function Sort<T>(s: seq<T>, le: (T, T) -> bool): (r: seq<T>)
    ensures |r| == |s|
  {
    if s == [] then [] else Insert(Sort(s[..|s| - 1], le), s[|s| - 1], le)
  }

  lemma {:induction false} InsertPermutes<T>(s: seq<T>, x: T, le: (T, T) -> bool)
    ensures multiset(Insert(s, x, le)) == multiset(s) + multiset{x}
  {
    if s != [] && !le(s[|s| - 1], x) {
      InsertPermutes(s[..|s| - 1], x, le);
      assert s == s[..|s| - 1] + [s[|s| - 1]];
    }
  }

  lemma {:induction false} SortPermutes<T>(s: seq<T>, le: (T, T) -> bool)
    ensures multiset(Sort(s, le)) == multiset(s)
  {
    if s != [] {
      SortPermutes(s[..|s| - 1], le);
      InsertPermutes(Sort(s[..|s| - 1], le), s[|s| - 1], le);
      assert s == s[..|s| - 1] + [s[|s| - 1]];
    }
  }

  lemma {:induction false} SortMembers<T>(s: seq<T>, x: T, le: (T, T) -> bool)
    ensures x in Sort(s, le) <==> x in s
  {
    SortPermutes(s, le);
    assert x in multiset(Sort(s, le)) <==> x in multiset(s);
  }

  ghost predicate Sorted<T>(s: seq<T>, le: (T, T) -> bool) {
    forall i, j :: 0 <= i < j < |s| ==> le(s[i], s[j])
  }

  // Equal keys.
  ghost predicate Ties<T>(a: T, b: T, le: (T, T) -> bool) { le(a, b) && le(b, a) }

  // The elements of s that tie with y, in order.
  ghost function Tied<T>(s: seq<T>, y: T, le: (T, T) -> bool): seq<T> {
    if s == [] then []
    else
      var front, last := s[..|s| - 1], s[|s| - 1];
      if Ties(last, y, le) then Tied(front, y, le) + [last] else Tied(front, y, le)
  }

  lemma {:induction false} TiedAppend<T>(s: seq<T>, x: T, y: T, le: (T, T) -> bool)
    ensures Tied(s + [x], y, le) == if Ties(x, y, le) then Tied(s, y, le) + [x] else Tied(s, y, le)
  {
    assert (s + [x])[..|s|] == s;
  }

  lemma {:induction false} InsertSorts<T>(s: seq<T>, x: T, le: (T, T) -> bool)
    requires forall a, b :: le(a, b) || le(b, a)
    requires forall a, b, c :: le(a, b) && le(b, c) ==> le(a, c)
    requires Sorted(s, le)
    ensures Sorted(Insert(s, x, le), le)
  {
    if s != [] && !le(s[|s| - 1], x) {
      var front, last := s[..|s| - 1], s[|s| - 1];
      var r := Insert(front, x, le);
      InsertSorts(front, x, le);
      InsertPermutes(front, x, le);
      forall i | 0 <= i < |r| ensures le(r[i], last) {
        assert r[i] in multiset(r);
        assert r[i] in front || r[i] == x;
      }
    }
  }

  lemma {:induction false} InsertTies<T>(s: seq<T>, x: T, y: T, le: (T, T) -> bool)
    requires forall a, b :: le(a, b) || le(b, a)
    requires forall a, b, c :: le(a, b) && le(b, c) ==> le(a, c)
    ensures Tied(Insert(s, x, le), y, le) == Tied(s + [x], y, le)
  {
    if s != [] && !le(s[|s| - 1], x) {
      var front, last := s[..|s| - 1], s[|s| - 1];
      InsertTies(front, x, y, le);
      TiedAppend(front, x, y, le);
      TiedAppend(Insert(front, x, le), last, y, le);
      TiedAppend(s, x, y, le);
      assert le(last, y) && le(y, x) ==> le(last, x);
    }
  }

  // The result is in order, and elements with equal keys stay in the order they had.
  lemma {:induction false} SortIsStable<T>(s: seq<T>, le: (T, T) -> bool)
    requires forall a, b :: le(a, b) || le(b, a)
    requires forall a, b, c :: le(a, b) && le(b, c) ==> le(a, c)
    ensures Sorted(Sort(s, le), le)
    ensures forall y :: Tied(Sort(s, le), y, le) == Tied(s, y, le)
  {
    if s != [] {
      var front, last := s[..|s| - 1], s[|s| - 1];
      SortIsStable(front, le);
      InsertSorts(Sort(front, le), last, le);
      forall y ensures Tied(Sort(s, le), y, le) == Tied(s, y, le) {
        InsertTies(Sort(front, le), last, y, le);
        TiedAppend(Sort(front, le), last, y, le);
      }
    }
  }

  // What is in order stays as it is.
  lemma {:induction false} SortedStays<T>(s: seq<T>, le: (T, T) -> bool)
    requires Sorted(s, le)
    ensures Sort(s, le) == s
  {
    if s != [] {
      var front, last := s[..|s| - 1], s[|s| - 1];
      SortedStays(front, le);
      assert s == front + [last];
    }
  }
}
