/** The stable sorts of PHP and JavaScript, by insertion. */
module Sorting {
  /** The element comes behind all those that need not come after it. */
  function Insert<T>(s: seq<T>, t: T, leq: (T, T) -> bool): seq<T> {
    if s == [] || leq(s[|s| - 1], t) then s + [t] else Insert(s[..|s| - 1], t, leq) + [s[|s| - 1]]
  }

  function Sort<T>(s: seq<T>, leq: (T, T) -> bool): seq<T> {
    if s == [] then [] else Insert(Sort(s[..|s| - 1], leq), s[|s| - 1], leq)
  }

  predicate Ordered<T>(s: seq<T>, leq: (T, T) -> bool) {
    |s| < 2 || (leq(s[|s| - 2], s[|s| - 1]) && Ordered(s[..|s| - 1], leq))
  }

  /** Total and transitive. */
  ghost predicate IsOrder<T(!new)>(leq: (T, T) -> bool) {
    (forall x, y :: leq(x, y) || leq(y, x)) && (forall x, y, z :: leq(x, y) && leq(y, z) ==> leq(x, z))
  }

  /** No two different elements are equal in the order. */
  ghost predicate Separates<T(!new)>(leq: (T, T) -> bool, s: seq<T>) {
    forall x, y :: x in s && y in s && leq(x, y) && leq(y, x) ==> x == y
  }

  lemma {:induction false} InsertMembers<T>(s: seq<T>, t: T, leq: (T, T) -> bool)
    ensures |Insert(s, t, leq)| == |s| + 1
    ensures multiset(Insert(s, t, leq)) == multiset(s) + multiset{t}
  {
    if s != [] && !leq(s[|s| - 1], t) {
      InsertMembers(s[..|s| - 1], t, leq);
      assert s == s[..|s| - 1] + [s[|s| - 1]];
    }
  }

  lemma {:induction false} SortMembers<T>(s: seq<T>, leq: (T, T) -> bool)
    ensures |Sort(s, leq)| == |s| && multiset(Sort(s, leq)) == multiset(s)
  {
    if s != [] {
      SortMembers(s[..|s| - 1], leq);
      InsertMembers(Sort(s[..|s| - 1], leq), s[|s| - 1], leq);
      assert s == s[..|s| - 1] + [s[|s| - 1]];
    }
  }

  lemma {:induction false} InsertKeepsOrder<T(!new)>(s: seq<T>, t: T, leq: (T, T) -> bool)
    requires IsOrder(leq) && Ordered(s, leq)
    ensures var inserted := Insert(s, t, leq);
            && Ordered(inserted, leq) && |inserted| == |s| + 1
            && inserted[|s|] == if s == [] || leq(s[|s| - 1], t) then t else s[|s| - 1]
  {
    if s == [] || leq(s[|s| - 1], t) {
      assert (s + [t])[..|s|] == s;
    } else {
      var before, last := s[..|s| - 1], s[|s| - 1];
      InsertKeepsOrder(before, t, leq);
      var inserted := Insert(before, t, leq);
      assert (inserted + [last])[..|inserted|] == inserted;
    }
  }

  lemma {:induction false} SortIsOrdered<T(!new)>(s: seq<T>, leq: (T, T) -> bool)
    requires IsOrder(leq)
    ensures Ordered(Sort(s, leq), leq)
  {
    if s != [] {
      SortIsOrdered(s[..|s| - 1], leq);
      InsertKeepsOrder(Sort(s[..|s| - 1], leq), s[|s| - 1], leq);
    }
  }

  /** What is in order already stays as it is. */
  lemma {:induction false} SortKeeps<T>(s: seq<T>, leq: (T, T) -> bool)
    requires Ordered(s, leq)
    ensures Sort(s, leq) == s
  {
    if s != [] {
      var before, last := s[..|s| - 1], s[|s| - 1];
      assert s == before + [last];
      assert Ordered(before, leq);
      SortKeeps(before, leq);
    }
  }

  lemma {:induction false} OrderedPairs<T(!new)>(s: seq<T>, leq: (T, T) -> bool, i: nat, j: nat)
    requires IsOrder(leq) && Ordered(s, leq) && i <= j < |s|
    ensures leq(s[i], s[j])
  {
    if i < j {
      var before := s[..|s| - 1];
      if j < |s| - 1 {
        OrderedPairs(before, leq, i, j);
      } else {
        OrderedPairs(before, leq, i, j - 1);
        assert leq(before[j - 1], s[j]);
      }
    }
  }

  lemma {:induction false} OrderedPrefix<T>(s: seq<T>, leq: (T, T) -> bool, n: nat)
    requires Ordered(s, leq) && n <= |s|
    ensures Ordered(s[..n], leq)
  {
    if n == |s| {
      assert s[..n] == s;
    } else {
      OrderedPrefix(s[..|s| - 1], leq, n);
      assert s[..|s| - 1][..n] == s[..n];
    }
  }

  lemma LastIsGreatest<T(!new)>(s: seq<T>, leq: (T, T) -> bool, t: T)
    requires IsOrder(leq) && Ordered(s, leq) && t in s
    ensures leq(t, s[|s| - 1])
  {
    var i :| 0 <= i < |s| && s[i] == t;
    OrderedPairs(s, leq, i, |s| - 1);
  }

  lemma SameLast<T(!new)>(a: seq<T>, b: seq<T>, leq: (T, T) -> bool)
    requires IsOrder(leq) && Ordered(a, leq) && Ordered(b, leq) && multiset(a) == multiset(b) && Separates(leq, a)
    requires a != [] && b != []
    ensures a[|a| - 1] == b[|b| - 1]
  {
    var x, y := a[|a| - 1], b[|b| - 1];
    assert x in multiset(b) && y in multiset(a);
    LastIsGreatest(a, leq, y);
    LastIsGreatest(b, leq, x);
  }

  lemma SameRest<T>(x: seq<T>, y: seq<T>, last: T)
    requires multiset(x + [last]) == multiset(y + [last])
    ensures multiset(x) == multiset(y)
  {
    assert multiset(x) == multiset(x + [last]) - multiset{last};
    assert multiset(y) == multiset(y + [last]) - multiset{last};
  }

  lemma SeparatesFewer<T(!new)>(leq: (T, T) -> bool, x: seq<T>, last: T)
    requires Separates(leq, x + [last])
    ensures Separates(leq, x)
  {
    assert forall t :: t in x ==> t in x + [last];
  }

  lemma OrderedFewer<T>(x: seq<T>, last: T, leq: (T, T) -> bool)
    requires Ordered(x + [last], leq)
    ensures Ordered(x, leq)
  {
    assert (x + [last])[..|x|] == x;
  }

  /** Lists in order with the same elements are the same list. */
  lemma {:induction false} OrderedAlike<T(!new)>(a: seq<T>, b: seq<T>, leq: (T, T) -> bool)
    requires IsOrder(leq) && Ordered(a, leq) && Ordered(b, leq) && multiset(a) == multiset(b) && Separates(leq, a)
    ensures a == b
    decreases |a|
  {
    assert |a| == |multiset(a)| == |multiset(b)| == |b|;
    if a != [] {
      var x, y, last := a[..|a| - 1], b[..|b| - 1], a[|a| - 1];
      SameLast(a, b, leq);
      assert a == x + [last] && b == y + [last];
      SameRest(x, y, last);
      SeparatesFewer(leq, x, last);
      OrderedFewer(x, last, leq);
      OrderedFewer(y, last, leq);
      OrderedAlike(x, y, leq);
    }
  }

  /** Sorting forgets the order of the input. */
  lemma SortsAlike<T(!new)>(a: seq<T>, b: seq<T>, leq: (T, T) -> bool)
    requires IsOrder(leq) && multiset(a) == multiset(b) && Separates(leq, a)
    ensures Sort(a, leq) == Sort(b, leq)
  {
    SortMembers(a, leq);
    SortMembers(b, leq);
    SortIsOrdered(a, leq);
    SortIsOrdered(b, leq);
    forall t | t in Sort(a, leq) ensures t in a {
      assert t in multiset(Sort(a, leq));
    }
    OrderedAlike(Sort(a, leq), Sort(b, leq), leq);
  }
}
