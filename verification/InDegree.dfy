/** The counts of the link graph are in-degrees, add up to the links, and do not depend on the order of the posts. */
module InDegree {
  import opened Prelude
  import opened AuditModel
  import opened LinkGraph

  function IdOf(item: AuditItem): string {
    item.externalId
  }

  function Ids(items: seq<AuditItem>): seq<string> {
    Mapped(items, IdOf)
  }

  /** The graph itself: another post has a link target that resolves to this post, which has a URL to be found by. */
  predicate LinksToPost(r: Resolver, from: AuditItem, to: AuditItem) {
    && from.externalId != to.externalId && r.key(to.url) != ""
    && exists target :: target in from.outboundUrls && r.target(target, from.url) == r.key(to.url)
  }

  function LinksTo(r: Resolver, to: AuditItem): AuditItem -> bool {
    (from: AuditItem) => LinksToPost(r, from, to)
  }

  function NamesOf(members: set<AuditItem>, keep: AuditItem -> bool): set<string> {
    set item | item in members && keep(item) :: item.externalId
  }

  /** The posts that link to a post. */
  function Linkers(r: Resolver, members: set<AuditItem>, to: AuditItem): set<string> {
    NamesOf(members, LinksTo(r, to))
  }

  function SetOf<T(==)>(s: seq<T>): set<T> {
    set t | t in s
  }

  // ---------- The index leads to the last post with the key ----------

  /** No later post has the same key. */
  predicate IsOwner(r: Resolver, items: seq<AuditItem>, i: nat)
    requires i < |items|
  {
    forall j :: i < j < |items| ==> r.key(items[j].url) != r.key(items[i].url)
  }

  lemma KeyOwner(r: Resolver, items: seq<AuditItem>, i: nat, key: string)
    requires i < |items| && IsOwner(r, items, i)
    ensures key != "" && key in IndexOf(r, items) && IndexOf(r, items)[key] == i
       <==> key != "" && key == r.key(items[i].url)
  {
    IndexIsLast(r, items, key);
  }

  lemma LinksAreLinks(r: Resolver, items: seq<AuditItem>, s: nat, i: nat)
    requires Distinct(Ids(items)) && s < |items| && i < |items| && IsOwner(r, items, i)
    ensures Links(r, IndexOf(r, items), items, s, i) <==> LinksToPost(r, items[s], items[i])
  {
    var from, to := items[s], items[i];
    IdsDiffer(items, s, i);
    if n :| 0 <= n < |from.outboundUrls| && LeadsTo(r, IndexOf(r, items), from.url, from.outboundUrls[n], i) {
      KeyOwner(r, items, i, r.target(from.outboundUrls[n], from.url));
      assert from.outboundUrls[n] in from.outboundUrls;
    }
    if target :| target in from.outboundUrls && r.target(target, from.url) == r.key(to.url) {
      KeyOwner(r, items, i, r.target(target, from.url));
      var n :| 0 <= n < |from.outboundUrls| && from.outboundUrls[n] == target;
      assert r.key(to.url) != "" ==> LeadsTo(r, IndexOf(r, items), from.url, from.outboundUrls[n], i);
    }
  }

  lemma IdsDiffer(items: seq<AuditItem>, i: nat, j: nat)
    requires Distinct(Ids(items)) && i < |items| && j < |items|
    ensures items[i].externalId == items[j].externalId <==> i == j
  {
    if i < j {
      DistinctAt(Ids(items), i, j);
    } else if j < i {
      DistinctAt(Ids(items), j, i);
    }
  }

  lemma SourcesAreLinkers(r: Resolver, items: seq<AuditItem>, i: nat)
    requires Distinct(Ids(items)) && i < |items| && IsOwner(r, items, i)
    ensures Sources(r, items, i) == Linkers(r, SetOf(items), items[i])
  {
    forall s | 0 <= s < |items|
      ensures Links(r, IndexOf(r, items), items, s, i) <==> LinksToPost(r, items[s], items[i])
    {
      LinksAreLinks(r, items, s, i);
    }
    forall id ensures id in Sources(r, items, i) <==> id in Linkers(r, SetOf(items), items[i]) {
      if id in Linkers(r, SetOf(items), items[i]) {
        var from :| from in items && LinksToPost(r, from, items[i]) && from.externalId == id;
        var s :| 0 <= s < |items| && items[s] == from;
        assert Links(r, IndexOf(r, items), items, s, i);
      }
    }
  }

  // ---------- In-degrees ----------

  lemma NamesAppend(items: seq<AuditItem>, last: AuditItem, keep: AuditItem -> bool)
    ensures NamesOf(SetOf(items + [last]), keep)
         == NamesOf(SetOf(items), keep) + if keep(last) then {last.externalId} else {}
  {
    assert SetOf(items + [last]) == SetOf(items) + {last};
  }

  lemma NewName(items: seq<AuditItem>, last: AuditItem, keep: AuditItem -> bool)
    requires last.externalId !in Ids(items)
    ensures last.externalId !in NamesOf(SetOf(items), keep)
  {
    forall item | item in items ensures item.externalId in Ids(items) {
      var i :| 0 <= i < |items| && items[i] == item;
      assert Ids(items)[i] == item.externalId;
    }
  }

  lemma {:induction false} CountNames(items: seq<AuditItem>, keep: AuditItem -> bool)
    requires Distinct(Ids(items))
    ensures |NamesOf(SetOf(items), keep)| == Count(items, keep)
  {
    if items == [] {
      assert NamesOf(SetOf(items), keep) == {};
    } else {
      var before, last := items[..|items| - 1], items[|items| - 1];
      assert items == before + [last];
      assert Ids(items)[..|before|] == Ids(before);
      CountNames(before, keep);
      NewName(before, last, keep);
      NamesAppend(before, last, keep);
    }
  }

  /** The in-degree of a post: how many of the posts link to it. */
  function InDegreeOf(r: Resolver, items: seq<AuditItem>, to: AuditItem): nat {
    Count(items, LinksTo(r, to))
  }

  /** Links to a key lead to the last post that has it: an earlier one has no sources. */
  lemma ShadowedHasNoSources(r: Resolver, items: seq<AuditItem>, i: nat)
    requires i < |items| && !IsOwner(r, items, i)
    ensures Sources(r, items, i) == {}
  {
    forall s | 0 <= s < |items| ensures !Links(r, IndexOf(r, items), items, s, i) {
      forall target ensures !LeadsTo(r, IndexOf(r, items), items[s].url, target, i) {
        IndexIsLast(r, items, r.target(target, items[s].url));
      }
    }
  }

  /** What analysis reports of any post, whatever keys the others have: its in-degree when no later post has its
      key, and 0 otherwise, with an orphan or weak-link finding added exactly at 0 or 1. */
  lemma CountsAreInDegrees(r: Resolver, items: seq<AuditItem>, i: nat)
    requires Distinct(Ids(items)) && i < |items|
    ensures var after := Analyzed(r, items)[i];
            && after.inboundLinkCount == (if IsOwner(r, items, i) then InDegreeOf(r, items, items[i]) else 0)
            && after.findings == items[i].findings
                                 + (if after.inboundLinkCount == 0 then [FindingOf(OrphanContent)] else [])
                                 + (if after.inboundLinkCount == 1 then [FindingOf(WeaklyLinkedContent)] else [])
  {
    if IsOwner(r, items, i) {
      SourcesAreLinkers(r, items, i);
      CountNames(items, LinksTo(r, items[i]));
    } else {
      ShadowedHasNoSources(r, items, i);
    }
  }

  /** The count of a post is its in-degree exactly when no later post has its key or nothing links to it. */
  lemma CountIsRight(r: Resolver, items: seq<AuditItem>, i: nat)
    requires Distinct(Ids(items)) && i < |items|
    ensures Analyzed(r, items)[i].inboundLinkCount == InDegreeOf(r, items, items[i])
       <==> IsOwner(r, items, i) || InDegreeOf(r, items, items[i]) == 0
  {
    CountsAreInDegrees(r, items, i);
  }

  // ---------- The counts add up ----------

  function CountIn(item: AuditItem): nat {
    item.inboundLinkCount
  }

  /** The post is listed where no later post has its key. */
  predicate OwnsKey(r: Resolver, items: seq<AuditItem>, post: AuditItem) {
    exists i :: 0 <= i < |items| && items[i] == post && IsOwner(r, items, i)
  }

  /** The links that analysis sees: to posts that own their key. */
  function LinkRelation(r: Resolver, items: seq<AuditItem>): (AuditItem, AuditItem) -> bool {
    (from: AuditItem, to: AuditItem) => LinksToPost(r, from, to) && OwnsKey(r, items, to)
  }

  lemma {:induction false} TotalSame<S, T>(s: seq<S>, t: seq<T>, f: S -> nat, g: T -> nat)
    requires |s| == |t| && forall i :: 0 <= i < |s| ==> f(s[i]) == g(t[i])
    ensures Total(s, f) == Total(t, g)
  {
    if s != [] {
      TotalSame(s[..|s| - 1], t[..|t| - 1], f, g);
    }
  }

  lemma OwnsWhereListed(r: Resolver, items: seq<AuditItem>, i: nat)
    requires Distinct(Ids(items)) && i < |items|
    ensures OwnsKey(r, items, items[i]) <==> IsOwner(r, items, i)
  {
    if j :| 0 <= j < |items| && items[j] == items[i] && IsOwner(r, items, j) {
      IdsDiffer(items, i, j);
    }
  }

  lemma SeenLinks(r: Resolver, items: seq<AuditItem>, i: nat)
    requires Distinct(Ids(items)) && i < |items|
    ensures CountIn(Analyzed(r, items)[i]) == ColumnCount(LinkRelation(r, items), items)(items[i])
  {
    CountsAreInDegrees(r, items, i);
    OwnsWhereListed(r, items, i);
    var seen := Column(LinkRelation(r, items), items[i]);
    if IsOwner(r, items, i) {
      CountSame(items, items, LinksTo(r, items[i]), seen);
    } else {
      CountNone(items, seen);
    }
  }

  /** All counts together are all links from one post to another that owns its key, each pair counted once. */
  lemma CountsAddUpToLinks(r: Resolver, items: seq<AuditItem>)
    requires Distinct(Ids(items))
    ensures Total(Analyzed(r, items), CountIn) == Total(items, RowCount(LinkRelation(r, items), items))
  {
    DoubleCount(items, items, LinkRelation(r, items));
    forall i | 0 <= i < |items|
      ensures CountIn(Analyzed(r, items)[i]) == ColumnCount(LinkRelation(r, items), items)(items[i])
    {
      SeenLinks(r, items, i);
    }
    TotalSame(Analyzed(r, items), items, CountIn, ColumnCount(LinkRelation(r, items), items));
  }

  // ---------- The order of the posts ----------

  lemma SameMembers<T>(a: seq<T>, b: seq<T>)
    requires multiset(a) == multiset(b)
    ensures SetOf(a) == SetOf(b)
  {
    forall t ensures t in a <==> t in b {
      assert t in multiset(a) <==> t in multiset(b);
    }
  }

  lemma DegreeInAnyOrder(r: Resolver, a: seq<AuditItem>, b: seq<AuditItem>, to: AuditItem)
    requires Distinct(Ids(a)) && multiset(a) == multiset(b)
    ensures Distinct(Ids(b)) && InDegreeOf(r, a, to) == InDegreeOf(r, b, to)
  {
    MappedMultiset(a, b, IdOf);
    DistinctWithin(Ids(b), Ids(a));
    SameMembers(a, b);
    CountNames(a, LinksTo(r, to));
    CountNames(b, LinksTo(r, to));
  }

  /** In another order of the same posts a post is analysed to the same result exactly when it owns its key in
      both orders or in neither, or nothing links to it. */
  lemma OrderMatters(r: Resolver, a: seq<AuditItem>, b: seq<AuditItem>, i: nat, j: nat)
    requires Distinct(Ids(a)) && multiset(a) == multiset(b) && i < |a| && j < |b| && a[i] == b[j]
    ensures Analyzed(r, a)[i] == Analyzed(r, b)[j]
       <==> (IsOwner(r, a, i) <==> IsOwner(r, b, j)) || InDegreeOf(r, a, a[i]) == 0
  {
    DegreeInAnyOrder(r, a, b, a[i]);
    CountsAreInDegrees(r, a, i);
    CountsAreInDegrees(r, b, j);
    SameResult(a[i], |Sources(r, a, i)|, |Sources(r, b, j)|);
  }

  lemma SameResult(item: AuditItem, m: nat, n: nat)
    ensures WithCount(item, m) == WithCount(item, n) <==> m == n
  {
  }

  /** No two posts share a key that anything links to. */
  predicate NoContestedKey(r: Resolver, items: seq<AuditItem>) {
    forall i, j :: 0 <= i < |items| && 0 <= j < |items| && i != j && r.key(items[i].url) == r.key(items[j].url)
      ==> InDegreeOf(r, items, items[i]) == 0
  }

  /** What analysis makes of a post, given the set of all posts. */
  function Annotating(r: Resolver, members: set<AuditItem>): AuditItem -> AuditItem {
    (item: AuditItem) => WithCount(item, |Linkers(r, members, item)|)
  }

  lemma AnalyzedPointwise(r: Resolver, items: seq<AuditItem>)
    requires Distinct(Ids(items)) && NoContestedKey(r, items)
    ensures Analyzed(r, items) == Mapped(items, Annotating(r, SetOf(items)))
  {
    forall i | 0 <= i < |items| ensures Analyzed(r, items)[i] == Annotating(r, SetOf(items))(items[i]) {
      UncontestedCount(r, items, i);
    }
  }

  lemma UncontestedCount(r: Resolver, items: seq<AuditItem>, i: nat)
    requires Distinct(Ids(items)) && NoContestedKey(r, items) && i < |items|
    ensures |Sources(r, items, i)| == |Linkers(r, SetOf(items), items[i])|
  {
    CountNames(items, LinksTo(r, items[i]));
    CountsAreInDegrees(r, items, i);
  }

  lemma ContestedInAnyOrder(r: Resolver, a: seq<AuditItem>, b: seq<AuditItem>)
    requires Distinct(Ids(a)) && multiset(a) == multiset(b) && NoContestedKey(r, a)
    ensures NoContestedKey(r, b)
  {
    forall i, j | 0 <= i < |b| && 0 <= j < |b| && i != j && r.key(b[i].url) == r.key(b[j].url)
      ensures InDegreeOf(r, b, b[i]) == 0
    {
      DegreeInAnyOrder(r, a, b, b[i]);
      IdsDiffer(b, i, j);
      assert b[i] in multiset(a) && b[j] in multiset(a);
      var m :| 0 <= m < |a| && a[m] == b[i];
      var n :| 0 <= n < |a| && a[n] == b[j];
    }
  }

  /** The same posts in another order give the same analysed posts when no key that anything links to is shared. */
  lemma OrderDoesNotMatter(r: Resolver, a: seq<AuditItem>, b: seq<AuditItem>)
    requires Distinct(Ids(a)) && multiset(a) == multiset(b) && NoContestedKey(r, a)
    ensures multiset(Analyzed(r, a)) == multiset(Analyzed(r, b))
  {
    MappedMultiset(a, b, IdOf);
    DistinctWithin(Ids(b), Ids(a));
    ContestedInAnyOrder(r, a, b);
    AnalyzedPointwise(r, a);
    AnalyzedPointwise(r, b);
    SameMembers(a, b);
    MappedMultiset(a, b, Annotating(r, SetOf(a)));
  }
}
