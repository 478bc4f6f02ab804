/** Sorting by a strict order that is total on the input, and what does not depend on the input's order. */
module Sorting {
  import opened Common

  ghost predicate StrictOrder<T(!new)>(less: (T, T) -> bool) {
    && (forall a :: !less(a, a))
    && (forall a, b, c :: less(a, b) && less(b, c) ==> less(a, c))
  }

  /** Any two different members compare; members that share a sort key must be equal. */
  ghost predicate TotalOn<T>(less: (T, T) -> bool, s: seq<T>) {
    forall a, b :: a in s && b in s ==> a == b || less(a, b) || less(b, a)
  }

  ghost predicate Ascending<T>(less: (T, T) -> bool, s: seq<T>) {
    forall i, j :: 0 <= i < j < |s| ==> !less(s[j], s[i])
  }

  ghost predicate StrictlyAscending<T>(less: (T, T) -> bool, s: seq<T>) {
    forall i, j :: 0 <= i < j < |s| ==> less(s[i], s[j])
  }

  /** Insertion after everything that is not greater, as a stable sort does. */
  function Insert<T>(less: (T, T) -> bool, s: seq<T>, x: T): (r: seq<T>)
    ensures multiset(r) == multiset(s) + multiset{x}
  {
    if |s| == 0 then [x]
    else
      var init, last := s[..|s| - 1], s[|s| - 1];
      assert s == init + [last];
      if less(x, last) then Insert(less, init, x) + [last] else s + [x]
  }

  function Sort<T>(less: (T, T) -> bool, s: seq<T>): (r: seq<T>)
    ensures multiset(r) == multiset(s)
    ensures |r| == |s|
  {
    if |s| == 0 then []
    else
      assert s == s[..|s| - 1] + [s[|s| - 1]];
      var r := Insert(less, Sort(less, s[..|s| - 1]), s[|s| - 1]);
      assert |multiset(r)| == |multiset(s)|;
      r
  }

  lemma MultisetMembers<T>(a: seq<T>, b: seq<T>)
    requires multiset(a) == multiset(b)
    ensures |a| == |b| && forall x :: x in a <==> x in b
  {
    assert forall x :: x in a <==> x in multiset(a);
    assert forall x :: x in b <==> x in multiset(b);
    assert |multiset(a)| == |multiset(b)|;
  }

  lemma {:induction false} InsertAscends<T(!new)>(less: (T, T) -> bool, s: seq<T>, x: T)
    requires StrictOrder(less) && TotalOn(less, s + [x]) && Ascending(less, s)
    ensures Ascending(less, Insert(less, s, x))
  {
    if |s| > 0 && less(x, s[|s| - 1]) {
      var init, last := s[..|s| - 1], s[|s| - 1];
      assert forall y :: y in init + [x] ==> y in s + [x];
      InsertAscends(less, init, x);
      var r := Insert(less, init, x);
      assert s == init + [last];
      forall i | 0 <= i < |r|
        ensures !less(last, r[i])
      {
        assert r[i] in multiset(r);
        if r[i] != x {
          assert r[i] in init;
        }
      }
    }
  }

  lemma {:induction false} SortAscends<T(!new)>(less: (T, T) -> bool, s: seq<T>)
    requires StrictOrder(less) && TotalOn(less, s)
    ensures Ascending(less, Sort(less, s))
  {
    if |s| > 0 {
      var init, last := s[..|s| - 1], s[|s| - 1];
      SortAscends(less, init);
      MultisetMembers(Sort(less, init), init);
      assert last in s && forall y :: y in Sort(less, init) + [last] ==> y in s;
      InsertAscends(less, Sort(less, init), last);
    }
  }

  lemma GreatestIsLast<T(!new)>(less: (T, T) -> bool, a: seq<T>, x: T)
    requires StrictOrder(less) && TotalOn(less, a) && Ascending(less, a) && x in a
    ensures a[|a| - 1] == x || less(x, a[|a| - 1])
  {
    var i :| 0 <= i < |a| && a[i] == x;
    assert i < |a| - 1 ==> !less(a[|a| - 1], a[i]);
  }

  lemma LastAgrees<T(!new)>(less: (T, T) -> bool, a: seq<T>, b: seq<T>)
    requires StrictOrder(less) && TotalOn(less, a) && Ascending(less, a) && Ascending(less, b) && multiset(a) == multiset(b) && |a| > 0
    ensures |b| == |a| && a[|a| - 1] == b[|b| - 1]
  {
    hide Ascending;
    MultisetMembers(a, b);
    assert TotalOn(less, b);
    assert b[|b| - 1] in b && a[|a| - 1] in a;
    GreatestIsLast(less, a, b[|b| - 1]);
    GreatestIsLast(less, b, a[|a| - 1]);
  }

  lemma WithoutLast<T>(less: (T, T) -> bool, a: seq<T>)
    requires Ascending(less, a) && |a| > 0
    ensures var n := |a| - 1;
            a == a[..n] + [a[n]] && multiset(a[..n]) == multiset(a) - multiset{a[n]} && Ascending(less, a[..n])
  {
    assert a == a[..|a| - 1] + [a[|a| - 1]];
  }

  /** Only one arrangement of a multiset ascends. */
  lemma {:induction false} OneAscending<T(!new)>(less: (T, T) -> bool, a: seq<T>, b: seq<T>)
    requires StrictOrder(less) && TotalOn(less, a) && Ascending(less, a) && Ascending(less, b) && multiset(a) == multiset(b)
    ensures a == b
    decreases |a|
  {
    hide StrictOrder, Ascending;
    MultisetMembers(a, b);
    if |a| > 0 {
      var n := |a| - 1;
      LastAgrees(less, a, b);
      WithoutLast(less, a);
      WithoutLast(less, b);
      assert forall y :: y in a[..n] ==> y in a;
      OneAscending(less, a[..n], b[..n]);
    }
  }

  /** Sorting forgets the order of its input. */
  lemma SortForgetsOrder<T(!new)>(less: (T, T) -> bool, a: seq<T>, b: seq<T>)
    requires StrictOrder(less) && TotalOn(less, a) && multiset(a) == multiset(b)
    ensures Sort(less, a) == Sort(less, b)
  {
    MultisetMembers(a, b);
    SortAscends(less, a);
    SortAscends(less, b);
    MultisetMembers(Sort(less, a), a);
    OneAscending(less, Sort(less, a), Sort(less, b));
  }

  lemma {:induction false} SameMembersAscending<T(!new)>(less: (T, T) -> bool, a: seq<T>, b: seq<T>)
    requires StrictOrder(less) && StrictlyAscending(less, a) && StrictlyAscending(less, b)
    requires Elements(a) == Elements(b)
    ensures a == b
  {
    SetOfAscending(less, a);
    SetOfAscending(less, b);
    assert multiset(a) == multiset(Elements(a)) == multiset(b);
    OneAscending(less, a, b);
  }

  lemma AscendingIsTotal<T(!new)>(less: (T, T) -> bool, s: seq<T>)
    requires StrictOrder(less) && StrictlyAscending(less, s)
    ensures Ascending(less, s) && TotalOn(less, s)
  {
    forall a, b | a in s && b in s
      ensures a == b || less(a, b) || less(b, a)
    {
      var i :| 0 <= i < |s| && s[i] == a;
      var j :| 0 <= j < |s| && s[j] == b;
    }
    assert forall i, j :: 0 <= i < j < |s| ==> less(s[i], s[j]);
  }

  lemma {:induction false} SetOfAscending<T(!new)>(less: (T, T) -> bool, s: seq<T>)
    requires StrictOrder(less) && StrictlyAscending(less, s)
    ensures multiset(s) == multiset(Elements(s)) && Ascending(less, s) && TotalOn(less, s)
  {
    AscendingIsTotal(less, s);
    hide Ascending, TotalOn;
    if |s| > 0 {
      var init, last := s[..|s| - 1], s[|s| - 1];
      assert s == init + [last];
      SetOfAscending(less, init);
      assert last !in init;
      assert Elements(s) == Elements(init) + {last};
    }
  }
}
