/** Sorting by a total preorder, and the orders the components sort by. */
module Sorting {
  import opened Prelude
  import opened Strings
  import opened MemoryModel

  ghost predicate TotalPreorder<T(!new)>(leq: (T, T) -> bool) {
    && (forall a, b :: leq(a, b) || leq(b, a))
    && (forall a, b, c :: leq(a, b) && leq(b, c) ==> leq(a, c))
  }

  predicate Sorted<T>(s: seq<T>, leq: (T, T) -> bool) {
    forall i, j :: 0 <= i < j < |s| ==> leq(s[i], s[j])
  }

  function Insert<T>(s: seq<T>, x: T, leq: (T, T) -> bool): (r: seq<T>)
    ensures multiset(r) == multiset(s) + multiset{x}
  {
    if s == [] then [x]
    else
      assert s == s[..|s| - 1] + [Last(s)];
      if leq(Last(s), x) then s + [x] else Insert(s[..|s| - 1], x, leq) + [Last(s)]
  }

  function Sort<T>(s: seq<T>, leq: (T, T) -> bool): (r: seq<T>)
    ensures multiset(r) == multiset(s)
  {
    if s == [] then []
    else
      assert s == s[..|s| - 1] + [Last(s)];
      Insert(Sort(s[..|s| - 1], leq), Last(s), leq)
  }

  lemma {:induction false} InsertSorts<T(!new)>(s: seq<T>, x: T, leq: (T, T) -> bool)
    requires TotalPreorder(leq) && Sorted(s, leq)
    ensures Sorted(Insert(s, x, leq), leq)
    decreases |s|
  {
    if s != [] && !leq(Last(s), x) {
      var rest := Insert(s[..|s| - 1], x, leq);
      InsertSorts(s[..|s| - 1], x, leq);
      forall i | 0 <= i < |rest|
        ensures leq(rest[i], Last(s))
      {
        assert rest[i] in multiset(rest);
        assert rest[i] in multiset(s[..|s| - 1]) || rest[i] == x;
      }
    }
  }

  lemma {:induction false} SortSorts<T(!new)>(s: seq<T>, leq: (T, T) -> bool)
    requires TotalPreorder(leq)
    ensures Sorted(Sort(s, leq), leq)
    decreases |s|
  {
    if s != [] {
      SortSorts(s[..|s| - 1], leq);
      InsertSorts(Sort(s[..|s| - 1], leq), Last(s), leq);
    }
  }

  ghost predicate Antisymmetric<T(!new)>(leq: (T, T) -> bool) {
    && (forall a :: leq(a, a))
    && (forall a, b :: leq(a, b) && leq(b, a) ==> a == b)
  }

  lemma LastIsGreatest<T(!new)>(s: seq<T>, x: T, leq: (T, T) -> bool)
    requires leq(x, x) && Sorted(s, leq) && x in multiset(s)
    ensures leq(x, Last(s))
  {
  }

  lemma SameLast<T(!new)>(s: seq<T>, t: seq<T>, leq: (T, T) -> bool)
    requires Antisymmetric(leq) && Sorted(s, leq) && Sorted(t, leq) && multiset(s) == multiset(t) && s != [] && t != []
    ensures Last(s) == Last(t)
  {
    assert Last(s) in multiset(s) && Last(t) in multiset(t);
    LastIsGreatest(s, Last(t), leq);
    LastIsGreatest(t, Last(s), leq);
  }

  lemma MultisetInit<T>(s: seq<T>)
    requires s != []
    ensures multiset(s[..|s| - 1]) == multiset(s) - multiset{Last(s)}
  {
    assert s == s[..|s| - 1] + [Last(s)];
  }

  /** A sorted arrangement is determined by its elements when the order tells different elements apart. */
  lemma {:induction false} SortedIsUnique<T(!new)>(s: seq<T>, t: seq<T>, leq: (T, T) -> bool)
    requires Antisymmetric(leq) && Sorted(s, leq) && Sorted(t, leq) && multiset(s) == multiset(t)
    ensures s == t
    decreases |s|
  {
    assert |s| == |multiset(s)| == |multiset(t)| == |t|;
    if s != [] {
      SameLast(s, t, leq);
      var s0, t0 := s[..|s| - 1], t[..|t| - 1];
      assert multiset(s0) == multiset(t0) by {
        MultisetInit(s);
        MultisetInit(t);
      }
      SortedIsUnique(s0, t0, leq);
      assert s == s0 + [Last(s)] && t == t0 + [Last(t)];
    }
  }

  // ----- Orders -----

  /** Byte-wise lexicographic order. */
  predicate TextLeq(a: Text, b: Text) {
    a == [] || (b != [] && (a[0] < b[0] || (a[0] == b[0] && TextLeq(a[1..], b[1..]))))
  }

  lemma {:induction false} TextLeqTotal(a: Text, b: Text)
    ensures TextLeq(a, b) || TextLeq(b, a)
    decreases |a|
  {
    if a != [] && b != [] && a[0] == b[0] {
      TextLeqTotal(a[1..], b[1..]);
    }
  }

  lemma {:induction false} TextLeqAntisymmetric(a: Text, b: Text)
    requires TextLeq(a, b) && TextLeq(b, a)
    ensures a == b
    decreases |a|
  {
    if a != [] && b != [] {
      TextLeqAntisymmetric(a[1..], b[1..]);
      assert a == [a[0]] + a[1..] && b == [b[0]] + b[1..];
    }
  }

  lemma {:induction false} TextLeqTransitive(a: Text, b: Text, c: Text)
    requires TextLeq(a, b) && TextLeq(b, c)
    ensures TextLeq(a, c)
    decreases |a|
  {
    if a != [] && a[0] == b[0] == c[0] {
      TextLeqTransitive(a[1..], b[1..], c[1..]);
    }
  }

  lemma TextLeqIsTotalOrder()
    ensures TotalPreorder(TextLeq) && Antisymmetric(TextLeq)
  {
    forall a, b
      ensures TextLeq(a, b) || TextLeq(b, a)
      ensures TextLeq(a, b) && TextLeq(b, a) ==> a == b
    {
      TextLeqTotal(a, b);
      if TextLeq(a, b) && TextLeq(b, a) {
        TextLeqAntisymmetric(a, b);
      }
    }
    forall a, b, c | TextLeq(a, b) && TextLeq(b, c)
      ensures TextLeq(a, c)
    {
      TextLeqTransitive(a, b, c);
    }
  }

  /** The first byte in which two texts differ decides; a text that ends there comes first. */
  lemma {:induction false} FirstDifferenceDecides(a: Text, b: Text, n: nat)
    requires n <= |a| && n <= |b| && a[..n] == b[..n] && (n < |a| && n < |b| ==> a[n] != b[n])
    ensures TextLeq(a, b) <==> n == |a| || (n < |b| && a[n] < b[n])
    decreases n
  {
    if n > 0 {
      assert a[0] == a[..n][0] == b[..n][0] == b[0];
      assert a[1..][..n - 1] == a[..n][1..] && b[1..][..n - 1] == b[..n][1..];
      FirstDifferenceDecides(a[1..], b[1..], n - 1);
    }
  }

  /** Oldest first; ties by id. */
  predicate OlderEq(a: Card, b: Card) {
    a.createdAt < b.createdAt || (a.createdAt == b.createdAt && TextLeq(a.id, b.id))
  }

  lemma OlderEqIsTotalPreorder()
    ensures TotalPreorder(OlderEq)
  {
    TextLeqIsTotalOrder();
  }
}
