/** Optional values and the list operations shared by the modules of the project. */
module Prelude {
  datatype Option<+T> = None | Some(value: T)

  function Max(a: int, b: int): int {
    if a >= b then a else b
  }

  function Min(a: int, b: int): int {
    if a <= b then a else b
  }

  function Mapped<S, T>(s: seq<S>, f: S -> T): (r: seq<T>)
    ensures |r| == |s|
    ensures forall i :: 0 <= i < |s| ==> r[i] == f(s[i])
  {
    seq(|s|, i requires 0 <= i < |s| => f(s[i]))
  }

  lemma MappedConcat<S, T>(a: seq<S>, b: seq<S>, f: S -> T)
    ensures Mapped(a + b, f) == Mapped(a, f) + Mapped(b, f)
  {
  }

  function Filtered<T(!new)>(s: seq<T>, keep: T -> bool): (r: seq<T>)
    ensures forall t :: t in r <==> t in s && keep(t)
    ensures |r| <= |s|
  {
    if s == [] then []
    else
      var before, last := Filtered(s[..|s| - 1], keep), s[|s| - 1];
      assert s == s[..|s| - 1] + [last];
      if keep(last) then before + [last] else before
  }

  lemma FilteredAppend<T(!new)>(s: seq<T>, t: T, keep: T -> bool)
    ensures Filtered(s + [t], keep) == Filtered(s, keep) + if keep(t) then [t] else []
  {
    assert (s + [t])[..|s|] == s;
  }

  lemma FilteredPrefix<T(!new)>(s: seq<T>, n: nat, keep: T -> bool)
    requires n < |s|
    ensures Filtered(s[..n + 1], keep) == if keep(s[n]) then Filtered(s[..n], keep) + [s[n]] else Filtered(s[..n], keep)
  {
    assert s[..n + 1] == s[..n] + [s[n]];
    FilteredAppend(s[..n], s[n], keep);
  }

  lemma ConcatSnoc<T>(a: seq<T>, b: seq<T>, t: T)
    ensures a + (b + [t]) == (a + b) + [t]
  {
  }

  lemma ConcatAssociates<T>(a: seq<T>, b: seq<T>, c: seq<T>)
    ensures (a + b) + c == a + (b + c)
  {
  }

  lemma {:induction false} FilteredConcat<T(!new)>(a: seq<T>, b: seq<T>, keep: T -> bool)
    ensures Filtered(a + b, keep) == Filtered(a, keep) + Filtered(b, keep)
  {
    if b == [] {
      assert a + b == a;
    } else {
      var before, last := b[..|b| - 1], b[|b| - 1];
      var tail := if keep(last) then [last] else [];
      assert b == before + [last];
      FilteredConcat(a, before, keep);
      ConcatSnoc(a, before, last);
      FilteredAppend(a + before, last, keep);
      FilteredAppend(before, last, keep);
      ConcatAssociates(Filtered(a, keep), Filtered(before, keep), tail);
    }
  }

  lemma {:induction false} FilteredTwice<T(!new)>(s: seq<T>, first: T -> bool, second: T -> bool)
    requires forall t :: t in s && second(t) ==> first(t)
    ensures Filtered(Filtered(s, first), second) == Filtered(s, second)
  {
    if s != [] {
      var before, last := s[..|s| - 1], s[|s| - 1];
      assert s == before + [last];
      FilteredTwice(before, first, second);
      FilteredAppend(Filtered(before, first), last, second);
    }
  }

  lemma {:induction false} FilteredKeepsAll<T(!new)>(s: seq<T>, keep: T -> bool)
    requires forall t :: t in s ==> keep(t)
    ensures Filtered(s, keep) == s
  {
    if s != [] {
      var before, last := s[..|s| - 1], s[|s| - 1];
      assert s == before + [last];
      FilteredKeepsAll(before, keep);
    }
  }

  lemma {:induction false} FilteredNone<T(!new)>(s: seq<T>, keep: T -> bool)
    requires forall i :: 0 <= i < |s| ==> !keep(s[i])
    ensures Filtered(s, keep) == []
  {
    if s != [] {
      FilteredNone(s[..|s| - 1], keep);
    }
  }

  /** No element occurs among those before it. */
  predicate Distinct<T(==)>(s: seq<T>) {
    s == [] || (s[|s| - 1] !in s[..|s| - 1] && Distinct(s[..|s| - 1]))
  }

  /** Every first occurrence, in order: array_unique. */
  function Unique<T(==, !new)>(s: seq<T>): (u: seq<T>)
    ensures forall t :: t in u <==> t in s
    ensures Distinct(u)
  {
    if s == [] then []
    else
      var u, last := Unique(s[..|s| - 1]), s[|s| - 1];
      assert s == s[..|s| - 1] + [last];
      assert (u + [last])[..|u|] == u;
      if last in u then u else u + [last]
  }

  lemma {:induction false} UniqueKeepsDistinct<T(!new)>(s: seq<T>)
    requires Distinct(s)
    ensures Unique(s) == s
  {
    if s != [] {
      UniqueKeepsDistinct(s[..|s| - 1]);
    }
  }

  lemma {:induction false} UniqueLength<T(!new)>(s: seq<T>)
    ensures |Unique(s)| <= |s| && (|Unique(s)| == |s| <==> Distinct(s))
  {
    if s != [] {
      UniqueLength(s[..|s| - 1]);
    }
  }

  /** How many elements of a list occur among those before them. */
  function Repeats<T(==, !new)>(s: seq<T>): (n: nat)
    ensures n == 0 <==> Distinct(s)
  {
    UniqueLength(s);
    |s| - |Unique(s)|
  }

  lemma {:induction false} FilteredDistinct<T(!new)>(s: seq<T>, keep: T -> bool)
    requires Distinct(s)
    ensures Distinct(Filtered(s, keep))
  {
    if s != [] {
      var before, last := s[..|s| - 1], s[|s| - 1];
      assert s == before + [last];
      FilteredDistinct(before, keep);
      FilteredAppend(before, last, keep);
      var kept := Filtered(before, keep);
      assert (kept + [last])[..|kept|] == kept;
    }
  }

  /** The lists `f` gives for the elements of `s`, one after the other. */
  function Flattened<S, T>(s: seq<S>, f: S -> seq<T>): seq<T> {
    if s == [] then [] else Flattened(s[..|s| - 1], f) + f(s[|s| - 1])
  }

  lemma FlattenedAppend<S, T>(s: seq<S>, t: S, f: S -> seq<T>)
    ensures Flattened(s + [t], f) == Flattened(s, f) + f(t)
  {
    assert (s + [t])[..|s|] == s;
  }

  lemma FlattenedPrefix<S, T>(s: seq<S>, n: nat, f: S -> seq<T>)
    requires n < |s|
    ensures Flattened(s[..n + 1], f) == Flattened(s[..n], f) + f(s[n])
  {
    assert s[..n + 1] == s[..n] + [s[n]];
    FlattenedAppend(s[..n], s[n], f);
  }

  lemma {:induction false} FlattenedMembers<S, T>(s: seq<S>, f: S -> seq<T>)
    ensures forall t :: t in Flattened(s, f) <==> exists x :: x in s && t in f(x)
  {
    if s != [] {
      var before, last := s[..|s| - 1], s[|s| - 1];
      assert s == before + [last];
      FlattenedMembers(before, f);
    }
  }

  function Count<T>(s: seq<T>, keep: T -> bool): nat {
    if s == [] then 0 else Count(s[..|s| - 1], keep) + if keep(s[|s| - 1]) then 1 else 0
  }

  lemma CountAppend<T>(s: seq<T>, t: T, keep: T -> bool)
    ensures Count(s + [t], keep) == Count(s, keep) + if keep(t) then 1 else 0
  {
    assert (s + [t])[..|s|] == s;
  }

  lemma {:induction false} CountConcat<T>(a: seq<T>, b: seq<T>, keep: T -> bool)
    ensures Count(a + b, keep) == Count(a, keep) + Count(b, keep)
  {
    if b == [] {
      assert a + b == a;
    } else {
      var before, last := b[..|b| - 1], b[|b| - 1];
      CountConcat(a, before, keep);
      assert a + b == (a + before) + [last];
      CountAppend(a + before, last, keep);
    }
  }

  lemma {:induction false} CountFiltered<T(!new)>(s: seq<T>, keep: T -> bool, counted: T -> bool)
    requires forall t :: counted(t) ==> keep(t)
    ensures Count(Filtered(s, keep), counted) == Count(s, counted)
  {
    if s != [] {
      CountFiltered(s[..|s| - 1], keep, counted);
      CountAppend(Filtered(s[..|s| - 1], keep), s[|s| - 1], counted);
    }
  }

  lemma {:induction false} CountIsLength<T(!new)>(s: seq<T>, keep: T -> bool)
    ensures Count(s, keep) == |Filtered(s, keep)|
  {
    if s != [] {
      CountIsLength(s[..|s| - 1], keep);
    }
  }

  /** Two conditions of which every element meets exactly one split the list. */
  lemma {:induction false} CountSplit<T>(s: seq<T>, p: T -> bool, q: T -> bool)
    requires forall i :: 0 <= i < |s| ==> (p(s[i]) <==> !q(s[i]))
    ensures Count(s, p) + Count(s, q) == |s|
  {
    if s != [] {
      CountSplit(s[..|s| - 1], p, q);
    }
  }

  lemma {:induction false} CountSame<S, T>(s: seq<S>, t: seq<T>, p: S -> bool, q: T -> bool)
    requires |s| == |t| && forall i :: 0 <= i < |s| ==> (p(s[i]) <==> q(t[i]))
    ensures Count(s, p) == Count(t, q)
  {
    if s != [] {
      CountSame(s[..|s| - 1], t[..|t| - 1], p, q);
    }
  }

  /** A list of distinct elements meets one more value at most once. */
  lemma {:induction false} CountOneMore<T(!new)>(s: seq<T>, values: seq<T>, value: T, known: T -> bool, more: T -> bool)
    requires Distinct(s) && value !in values
    requires forall t :: known(t) <==> t in values
    requires forall t :: more(t) <==> t in values || t == value
    ensures Count(s, more) == Count(s, known) + if value in s then 1 else 0
  {
    if s != [] {
      CountOneMore(s[..|s| - 1], values, value, known, more);
      assert s == s[..|s| - 1] + [s[|s| - 1]];
    }
  }

  function MemberOf<T(==)>(values: seq<T>): T -> bool {
    t => t in values
  }

  function NotMemberOf<T(==)>(values: seq<T>): T -> bool {
    t => t !in values
  }

  /** The elements two lists without repetitions share can be counted in either. */
  lemma {:induction false} CommonMembers<T(!new)>(a: seq<T>, b: seq<T>)
    requires Distinct(a) && Distinct(b)
    ensures Count(a, MemberOf(b)) == Count(b, MemberOf(a))
  {
    if a == [] {
      CountNone(b, MemberOf(a));
    } else {
      var before, last := a[..|a| - 1], a[|a| - 1];
      assert a == before + [last];
      CommonMembers(before, b);
      CountOneMore(b, before, last, MemberOf(before), MemberOf(a));
    }
  }

  lemma {:induction false} CountNone<T>(s: seq<T>, keep: T -> bool)
    requires forall i :: 0 <= i < |s| ==> !keep(s[i])
    ensures Count(s, keep) == 0
  {
    if s != [] {
      CountNone(s[..|s| - 1], keep);
    }
  }

  lemma {:induction false} DistinctOccursOnce<T(!new)>(s: seq<T>, t: T)
    requires Distinct(s)
    ensures multiset(s)[t] <= 1
  {
    if s != [] {
      var before, last := s[..|s| - 1], s[|s| - 1];
      assert s == before + [last];
      DistinctOccursOnce(before, t);
      assert last !in before && multiset(before)[last] == 0;
    }
  }

  lemma {:induction false} DistinctWithin<T(!new)>(s: seq<T>, t: seq<T>)
    requires multiset(s) <= multiset(t) && Distinct(t)
    ensures Distinct(s)
  {
    if s != [] {
      var before, last := s[..|s| - 1], s[|s| - 1];
      assert s == before + [last];
      DistinctWithin(before, t);
      DistinctOccursOnce(t, last);
      assert multiset(s)[last] == multiset(before)[last] + 1;
    }
  }

  lemma {:induction false} DistinctPrefix<T(!new)>(s: seq<T>, n: nat)
    requires Distinct(s) && n <= |s|
    ensures Distinct(s[..n])
  {
    if n == |s| {
      assert s[..n] == s;
    } else {
      DistinctPrefix(s[..|s| - 1], n);
      assert s[..|s| - 1][..n] == s[..n];
    }
  }

  lemma {:induction false} DistinctConcat<T(!new)>(a: seq<T>, b: seq<T>)
    requires Distinct(a) && Distinct(b) && forall t :: t in a ==> t !in b
    ensures Distinct(a + b)
  {
    if b == [] {
      assert a + b == a;
    } else {
      var before, last := b[..|b| - 1], b[|b| - 1];
      assert b == before + [last];
      DistinctConcat(a, before);
      assert (a + b)[..|a + b| - 1] == a + before;
    }
  }

  lemma {:induction false} FlattenedSame<S, T, U>(s: seq<S>, t: seq<T>, f: S -> seq<U>, g: T -> seq<U>)
    requires |s| == |t| && forall i :: 0 <= i < |s| ==> f(s[i]) == g(t[i])
    ensures Flattened(s, f) == Flattened(t, g)
  {
    if s != [] {
      FlattenedSame(s[..|s| - 1], t[..|t| - 1], f, g);
    }
  }

  lemma {:induction false} FlattenedCountSame<S, T, U, V>(s: seq<S>, t: seq<T>, f: S -> seq<U>, g: T -> seq<V>,
                                                         p: U -> bool, q: V -> bool)
    requires |s| == |t| && forall i :: 0 <= i < |s| ==> Count(f(s[i]), p) == Count(g(t[i]), q)
    ensures Count(Flattened(s, f), p) == Count(Flattened(t, g), q)
  {
    if s != [] {
      var before, earlier := s[..|s| - 1], t[..|t| - 1];
      FlattenedCountSame(before, earlier, f, g, p, q);
      CountConcat(Flattened(before, f), f(s[|s| - 1]), p);
      CountConcat(Flattened(earlier, g), g(t[|t| - 1]), q);
    }
  }

  lemma {:induction false} DistinctAt<T(!new)>(s: seq<T>, i: nat, j: nat)
    requires Distinct(s) && i < j < |s|
    ensures s[i] != s[j]
  {
    if j == |s| - 1 {
      assert s[i] == s[..j][i];
    } else {
      DistinctAt(s[..|s| - 1], i, j);
    }
  }

  lemma MultisetWithout<T>(s: seq<T>, j: nat)
    requires j < |s|
    ensures multiset(s) == multiset(s[..j] + s[j + 1..]) + multiset{s[j]}
  {
    assert s == s[..j] + [s[j]] + s[j + 1..];
  }

  lemma MappedWithout<S, T>(s: seq<S>, j: nat, f: S -> T)
    requires j < |s|
    ensures multiset(Mapped(s, f)) == multiset(Mapped(s[..j] + s[j + 1..], f)) + multiset{f(s[j])}
  {
    var mapped := Mapped(s, f);
    MultisetWithout(mapped, j);
    assert Mapped(s[..j] + s[j + 1..], f) == mapped[..j] + mapped[j + 1..];
  }

  /** What is left of a list when one occurrence of a value is taken out. */
  lemma TakeOut<S, T>(s: seq<S>, x: S, f: S -> T) returns (rest: seq<S>)
    requires x in s
    ensures |rest| == |s| - 1 && multiset(s) == multiset(rest) + multiset{x}
    ensures multiset(Mapped(s, f)) == multiset(Mapped(rest, f)) + multiset{f(x)}
  {
    var j :| 0 <= j < |s| && s[j] == x;
    rest := s[..j] + s[j + 1..];
    MultisetWithout(s, j);
    MappedWithout(s, j, f);
  }

  lemma RestsAgree<T>(a: multiset<T>, b: multiset<T>, t: T)
    requires a + multiset{t} == b + multiset{t}
    ensures a == b
  {
    assert a == (a + multiset{t}) - multiset{t} && b == (b + multiset{t}) - multiset{t};
  }

  lemma {:induction false} MappedMultiset<S, T>(a: seq<S>, b: seq<S>, f: S -> T)
    requires multiset(a) == multiset(b)
    ensures multiset(Mapped(a, f)) == multiset(Mapped(b, f))
    decreases |a|
  {
    if a == [] {
      assert |b| == |multiset(b)| == 0;
    } else {
      assert a[0] in multiset(b);
      var others := TakeOut(a, a[0], f);
      var rest := TakeOut(b, a[0], f);
      RestsAgree(multiset(others), multiset(rest), a[0]);
      MappedMultiset(others, rest, f);
    }
  }

  // ---------- Counting a relation by rows and by columns ----------

  function Total<S>(s: seq<S>, f: S -> nat): nat {
    if s == [] then 0 else Total(s[..|s| - 1], f) + f(s[|s| - 1])
  }

  function Row<S, T>(related: (S, T) -> bool, x: S): T -> bool {
    y => related(x, y)
  }

  function Column<S, T>(related: (S, T) -> bool, y: T): S -> bool {
    x => related(x, y)
  }

  function RowCount<S, T>(related: (S, T) -> bool, b: seq<T>): S -> nat {
    x => Count(b, Row(related, x))
  }

  function ColumnCount<S, T>(related: (S, T) -> bool, a: seq<S>): T -> nat {
    y => Count(a, Column(related, y))
  }

  lemma {:induction false} TotalPlus<T>(s: seq<T>, f: T -> nat, g: T -> nat, p: T -> bool)
    requires forall i :: 0 <= i < |s| ==> f(s[i]) == g(s[i]) + if p(s[i]) then 1 else 0
    ensures Total(s, f) == Total(s, g) + Count(s, p)
  {
    if s != [] {
      TotalPlus(s[..|s| - 1], f, g, p);
    }
  }

  lemma {:induction false} TotalNone<T>(s: seq<T>, f: T -> nat)
    requires forall i :: 0 <= i < |s| ==> f(s[i]) == 0
    ensures Total(s, f) == 0
  {
    if s != [] {
      TotalNone(s[..|s| - 1], f);
    }
  }

  lemma {:induction false} DoubleCount<S, T>(a: seq<S>, b: seq<T>, related: (S, T) -> bool)
    ensures Total(a, RowCount(related, b)) == Total(b, ColumnCount(related, a))
  {
    if a == [] {
      TotalNone(b, ColumnCount(related, a));
    } else {
      var before, last := a[..|a| - 1], a[|a| - 1];
      DoubleCount(before, b, related);
      TotalPlus(b, ColumnCount(related, a), ColumnCount(related, before), Row(related, last));
    }
  }
}
