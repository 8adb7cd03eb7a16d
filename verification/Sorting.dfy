/** Insertion sort by any order, and that there is one way to sort. */
module Sorting {
  import opened Permutations

  predicate InOrder<T>(before: (T, T) -> bool, s: seq<T>) {
    forall i, j :: 0 <= i < j < |s| ==> before(s[i], s[j])
  }

  function InsertBy<T>(before: (T, T) -> bool, x: T, s: seq<T>): seq<T> {
    if s == [] || before(x, s[0]) then [x] + s else [s[0]] + InsertBy(before, x, s[1..])
  }

  function SortBy<T>(before: (T, T) -> bool, s: seq<T>): seq<T> {
    if s == [] then [] else InsertBy(before, s[0], SortBy(before, s[1..]))
  }

  ghost predicate Transitive<T(!new)>(before: (T, T) -> bool) {
    forall x, y, z :: before(x, y) && before(y, z) ==> before(x, z)
  }

  ghost predicate Antisymmetric<T(!new)>(before: (T, T) -> bool) {
    forall x, y :: before(x, y) && before(y, x) ==> x == y
  }

  /** Any two of the elements are ordered one way or the other. */
  predicate Comparable<T>(before: (T, T) -> bool, s: seq<T>) {
    forall i, j :: 0 <= i < j < |s| ==> before(s[i], s[j]) || before(s[j], s[i])
  }

  lemma {:induction false} InsertKeeps<T>(before: (T, T) -> bool, x: T, s: seq<T>)
    ensures multiset(InsertBy(before, x, s)) == multiset{x} + multiset(s)
  {
    if s == [] || before(x, s[0]) {
    } else {
      InsertKeeps(before, x, s[1..]);
      assert s == [s[0]] + s[1..];
    }
  }

  lemma {:induction false} SortKeeps<T>(before: (T, T) -> bool, s: seq<T>)
    ensures multiset(SortBy(before, s)) == multiset(s)
  {
    if s == [] {
    } else {
      SortKeeps(before, s[1..]);
      InsertKeeps(before, s[0], SortBy(before, s[1..]));
      assert s == [s[0]] + s[1..];
    }
  }

  lemma ConsInOrder<T>(before: (T, T) -> bool, x: T, s: seq<T>)
    requires InOrder(before, s) && forall p :: p in s ==> before(x, p)
    ensures InOrder(before, [x] + s)
  {
    forall j | 0 <= j < |s| ensures before(x, s[j]) { assert s[j] in s; }
  }

  lemma {:induction false} InsertInOrder<T(!new)>(before: (T, T) -> bool, x: T, s: seq<T>)
    requires Transitive(before) && InOrder(before, s)
    requires forall p :: p in s ==> before(x, p) || before(p, x)
    ensures InOrder(before, InsertBy(before, x, s))
  {
    if s == [] {
    } else if before(x, s[0]) {
      forall p | p in s ensures before(x, p) {
        var i :| 0 <= i < |s| && s[i] == p;
        assert i == 0 || before(s[0], s[i]);
      }
      ConsInOrder(before, x, s);
    } else {
      var tl := s[1..];
      assert s[0] in s && forall p :: p in tl ==> p in s;
      InsertInOrder(before, x, tl);
      InsertKeeps(before, x, tl);
      forall p | p in InsertBy(before, x, tl) ensures before(s[0], p) {
        assert p in multiset(InsertBy(before, x, tl));
        assert p == x || p in tl;
        if p in tl {
          var j :| 0 <= j < |tl| && tl[j] == p;
          assert s[j + 1] == p;
        }
      }
      ConsInOrder(before, s[0], InsertBy(before, x, tl));
    }
  }

  lemma {:induction false} SortInOrder<T(!new)>(before: (T, T) -> bool, s: seq<T>)
    requires Transitive(before) && Comparable(before, s)
    ensures InOrder(before, SortBy(before, s))
  {
    if s == [] {
    } else {
      var tl := s[1..];
      assert forall i :: 0 <= i < |tl| ==> tl[i] == s[i + 1];
      SortInOrder(before, tl);
      SortKeeps(before, tl);
      forall p | p in SortBy(before, tl) ensures before(s[0], p) || before(p, s[0]) {
        assert p in multiset(SortBy(before, tl)) && p in multiset(tl);
        var i :| 0 <= i < |tl| && tl[i] == p;
        assert s[i + 1] == p;
      }
      InsertInOrder(before, s[0], SortBy(before, tl));
    }
  }

  lemma SameHead<T(!new)>(before: (T, T) -> bool, a: seq<T>, b: seq<T>)
    requires Antisymmetric(before) && InOrder(before, a) && InOrder(before, b)
    requires multiset(a) == multiset(b) && a != []
    ensures b != [] && a[0] == b[0] && multiset(a[1..]) == multiset(b[1..])
  {
    SameLength(a, b);
    assert a[0] in multiset(b) && b[0] in multiset(a);
    var i :| 0 <= i < |b| && b[i] == a[0];
    var j :| 0 <= j < |a| && a[j] == b[0];
    if i > 0 && j > 0 {
      assert before(b[0], b[i]) && before(a[0], a[j]);
    }
    TailMultiset(a);
    TailMultiset(b);
  }

  /** Two ordered arrangements of the same elements are one. */
  lemma {:induction false} InOrderUnique<T(!new)>(before: (T, T) -> bool, a: seq<T>, b: seq<T>)
    requires Antisymmetric(before) && InOrder(before, a) && InOrder(before, b) && multiset(a) == multiset(b)
    ensures a == b
  {
    if a == [] {
      assert |multiset(b)| == |multiset(a)| == 0;
    } else {
      SameHead(before, a, b);
      InOrderUnique(before, a[1..], b[1..]);
      assert a == [a[0]] + a[1..] && b == [b[0]] + b[1..];
    }
  }
}
