/**
 * The inbound links of audited posts (LocalLinkGraph.php): an index from normalised URL to post, filled
 * and looked up in loops, against the in-degree of the graph of posts.
 */
module LinkGraph {
  import opened Prelude
  import opened AuditModel
  import opened Text
  import opened UrlPath
  import Collector

  // ---------- Normalising URLs ----------

  /** What wp_parse_url returns for a URL it can parse. */
  datatype UrlParts = UrlParts(scheme: Option<string>, host: Option<string>, port: Option<nat>, path: Option<string>)

  type Parser = string -> Option<UrlParts>

  /** empty() of a string. */
  predicate IsEmpty(s: string) {
    s == "" || s == "0"
  }

  function WithoutWww(host: string): string {
    if StartsWith(host, "www.") then host[4..] else host
  }

  function PortText(port: Option<nat>): string {
    if port.Some? then ":" + Collector.Decimal(port.value) else ""
  }

  function OrElse(text: Option<string>, fallback: string): string {
    if text.Some? && !IsEmpty(text.value) then text.value else fallback
  }

  predicate HasHost(parts: UrlParts) {
    parts.host.Some? && !IsEmpty(parts.host.value)
  }

  function PathOf(parts: UrlParts): string {
    if parts.path.Some? then parts.path.value else ""
  }

  /** The key of a parsed URL: host without www, port and normalised path; scheme and query do not count. */
  function PartsKey(parts: UrlParts): string {
    if HasHost(parts) then WithoutWww(Lower(parts.host.value)) + PortText(parts.port) + NormalizedPath(PathOf(parts))
        else ""
  }

  function NormalizeUrl(value: string, parse: Parser): string {
    match parse(Trim(value)) case None => "" case Some(parts) => PartsKey(parts)
  }

  const NO_PARTS := UrlParts(None, None, None, None)

  function Parsed(url: string, parse: Parser): UrlParts {
    match parse(url) case Some(parts) => parts case None => NO_PARTS
  }

  function Authority(source: UrlParts): string
    requires source.host.Some?
  {
    OrElse(source.scheme, "https") + "://" + source.host.value + PortText(source.port)
  }

  /** The key of a link target found in the post at `sourceUrl`. */
  function NormalizeTarget(target: string, sourceUrl: string, parse: Parser): string {
    var link, source := Trim(target), Parsed(sourceUrl, parse);
    if link == "" || StartsWith(link, "#") then ""
    else if StartsWith(link, "//") then NormalizeUrl(OrElse(source.scheme, "https") + ":" + link, parse)
    else if Parsed(link, parse).scheme.Some? && Parsed(link, parse).scheme.value != "" then NormalizeUrl(link, parse)
    else if source.host.None? || source.host.value == "" then ""
    else if StartsWith(link, "/") then NormalizeUrl(Authority(source) + link, parse)
    else NormalizeUrl(Authority(source) + RelativePath(OrElse(source.path, "/"), link), parse)
  }

  /** How URLs and link targets become keys. */
  datatype Resolver = Resolver(key: string -> string, target: (string, string) -> string)

  function UrlResolver(parse: Parser): Resolver {
    Resolver(url => NormalizeUrl(url, parse), (target, source) => NormalizeTarget(target, source, parse))
  }

  // ---------- What analyze computes ----------

  /** The index: a key leads to the last item that has it. */
  function IndexOf(r: Resolver, items: seq<AuditItem>): map<string, nat> {
    if items == [] then map[]
    else
      var before, key := IndexOf(r, items[..|items| - 1]), r.key(items[|items| - 1].url);
      if key == "" then before else before[key := |items| - 1]
  }

  /** A link target in the post at `url` leads to item `i`. */
  predicate LeadsTo(r: Resolver, index: map<string, nat>, url: string, target: string, i: nat) {
    var key := r.target(target, url);
    key != "" && key in index && index[key] == i
  }

  predicate AnyLeadsTo(r: Resolver, index: map<string, nat>, url: string, targets: seq<string>, i: nat) {
    exists n :: 0 <= n < |targets| && LeadsTo(r, index, url, targets[n], i)
  }

  /** Item `s` has a link to item `i`, another one. */
  predicate Links(r: Resolver, index: map<string, nat>, items: seq<AuditItem>, s: nat, i: nat)
    requires s < |items|
  {
    s != i && AnyLeadsTo(r, index, items[s].url, items[s].outboundUrls, i)
  }

  /** The external ids of those of the first `n` items that link to item `i`. */
  function SourcesAmong(r: Resolver, index: map<string, nat>, items: seq<AuditItem>, n: nat, i: nat): set<string>
    requires n <= |items|
  {
    set s | 0 <= s < n && Links(r, index, items, s, i) :: items[s].externalId
  }

  function Sources(r: Resolver, items: seq<AuditItem>, i: nat): set<string> {
    SourcesAmong(r, IndexOf(r, items), items, |items|, i)
  }

  function LinkFindings(count: nat): seq<Finding> {
    if count == 0 then [FindingOf(OrphanContent)]
    else if count == 1 then [FindingOf(WeaklyLinkedContent)]
    else []
  }

  /** No link is a warning, a single one an opportunity, more are fine. */
  lemma LinkFindingsSay(count: nat)
    ensures LinkFindings(count) ==
            match count
            case 0 => [Finding(OrphanContent, Warning, None, false, None, None)]
            case 1 => [Finding(WeaklyLinkedContent, Opportunity, None, false, None, None)]
            case _ => []
  {
  }

  function WithCount(item: AuditItem, count: nat): AuditItem {
    item.(inboundLinkCount := count, outboundUrls := [], findings := item.findings + LinkFindings(count))
  }

  function Analyzed(r: Resolver, items: seq<AuditItem>): seq<AuditItem> {
    seq(|items|, i requires 0 <= i < |items| => WithCount(items[i], |Sources(r, items, i)|))
  }

  // ---------- The loops ----------

  method BuildIndex(r: Resolver, items: seq<AuditItem>)
    returns (index: map<string, nat>, inbound: map<nat, set<string>>)
    ensures index == IndexOf(r, items)
    ensures forall i: nat :: i in inbound <==> i < |items| && r.key(items[i].url) != ""
    ensures forall i: nat :: i in inbound ==> inbound[i] == {}
  {
    index, inbound := map[], map[];
    for n := 0 to |items|
      invariant index == IndexOf(r, items[..n])
      invariant forall i: nat :: i in inbound <==> i < n && r.key(items[i].url) != ""
      invariant forall i: nat :: i in inbound ==> inbound[i] == {}
    {
      assert items[..n + 1][..n] == items[..n];
      var key := r.key(items[n].url);
      if key != "" {
        index := index[key := n];
        inbound := inbound[n := {}];
      }
    }
    assert items[..|items|] == items;
  }

  lemma {:induction false} IndexIsLast(r: Resolver, items: seq<AuditItem>, key: string)
    ensures key in IndexOf(r, items) <==> key != "" && exists i :: 0 <= i < |items| && r.key(items[i].url) == key
    ensures key in IndexOf(r, items) ==>
              var i := IndexOf(r, items)[key];
              && i < |items| && r.key(items[i].url) == key
              && forall j :: i < j < |items| ==> r.key(items[j].url) != key
  {
    if items != [] {
      var before, last := items[..|items| - 1], |items| - 1;
      IndexIsLast(r, before, key);
      if r.key(items[last].url) != key && key in IndexOf(r, items) {
        var i :| 0 <= i < |before| && r.key(before[i].url) == key;
        assert items[i] == before[i];
      }
      if i :| 0 <= i < |items| && r.key(items[i].url) == key && i != last {
        assert before[i] == items[i];
      }
    }
  }

  /** Every index entry leads to an item with a set of sources. */
  predicate Indexed(index: map<string, nat>, inbound: map<nat, set<string>>) {
    forall key :: key in index ==> index[key] in inbound
  }

  lemma {:induction false} IndexIsIndexed(r: Resolver, items: seq<AuditItem>, inbound: map<nat, set<string>>)
    requires forall i: nat :: i in inbound <==> i < |items| && r.key(items[i].url) != ""
    ensures Indexed(IndexOf(r, items), inbound)
  {
    forall key | key in IndexOf(r, items) ensures IndexOf(r, items)[key] in inbound {
      IndexIsLast(r, items, key);
    }
  }

  function One(member: bool, id: string): set<string> {
    if member then {id} else {}
  }

  /** The inner loop: the targets of one item add it to the sources of the items they lead to. */
  method AddLinks(r: Resolver, index: map<string, nat>, item: AuditItem, source: nat, start: map<nat, set<string>>)
    returns (inbound: map<nat, set<string>>)
    requires Indexed(index, start)
    ensures inbound.Keys == start.Keys
    ensures forall i: nat :: i in start ==>
              inbound[i] == start[i] + One(i != source && AnyLeadsTo(r, index, item.url, item.outboundUrls, i),
                                           item.externalId)
  {
    inbound := start;
    var targets := item.outboundUrls;
    for n := 0 to |targets|
      invariant inbound.Keys == start.Keys
      invariant forall i: nat :: i in start ==>
        inbound[i] == start[i] + One(i != source && AnyLeadsTo(r, index, item.url, targets[..n], i), item.externalId)
    {
      forall i: nat
        ensures AnyLeadsTo(r, index, item.url, targets[..n + 1], i)
           <==> AnyLeadsTo(r, index, item.url, targets[..n], i) || LeadsTo(r, index, item.url, targets[n], i)
      {
        AnyLeadsToStep(r, index, item.url, targets, n, i);
      }
      var key := r.target(targets[n], item.url);
      if key != "" && key in index && index[key] != source {
        inbound := inbound[index[key] := inbound[index[key]] + {item.externalId}];
      }
    }
    assert targets[..|targets|] == targets;
  }

  lemma AnyLeadsToStep(r: Resolver, index: map<string, nat>, url: string, targets: seq<string>, n: nat, i: nat)
    requires n < |targets|
    ensures AnyLeadsTo(r, index, url, targets[..n + 1], i)
       <==> AnyLeadsTo(r, index, url, targets[..n], i) || LeadsTo(r, index, url, targets[n], i)
  {
    var longer := targets[..n + 1];
    if k :| 0 <= k < n && LeadsTo(r, index, url, targets[..n][k], i) {
      assert longer[k] == targets[..n][k];
    }
    if LeadsTo(r, index, url, targets[n], i) {
      assert longer[n] == targets[n];
    }
  }

  lemma SourcesStep(r: Resolver, index: map<string, nat>, items: seq<AuditItem>, n: nat, i: nat)
    requires n < |items|
    ensures SourcesAmong(r, index, items, n + 1, i)
         == SourcesAmong(r, index, items, n, i) + One(Links(r, index, items, n, i), items[n].externalId)
  {
  }

  /** The sets hold the sources among the first `n` items. */
  ghost predicate CollectedFrom(inbound: map<nat, set<string>>, r: Resolver, index: map<string, nat>,
                                items: seq<AuditItem>, n: nat)
  {
    n <= |items| && forall i: nat :: i in inbound ==> inbound[i] == SourcesAmong(r, index, items, n, i)
  }

  lemma CollectedStep(inbound: map<nat, set<string>>, after: map<nat, set<string>>, r: Resolver,
                      index: map<string, nat>, items: seq<AuditItem>, n: nat)
    requires n < |items| && CollectedFrom(inbound, r, index, items, n) && after.Keys == inbound.Keys
    requires forall i: nat :: i in inbound ==>
               after[i] == inbound[i] + One(Links(r, index, items, n, i), items[n].externalId)
    ensures CollectedFrom(after, r, index, items, n + 1)
  {
    forall i: nat | i in after ensures after[i] == SourcesAmong(r, index, items, n + 1, i) {
      SourcesStep(r, index, items, n, i);
      assert i in inbound;
    }
  }

  method CollectLinks(r: Resolver, index: map<string, nat>, items: seq<AuditItem>, start: map<nat, set<string>>)
    returns (inbound: map<nat, set<string>>)
    requires Indexed(index, start) && forall i: nat :: i in start ==> start[i] == {}
    ensures inbound.Keys == start.Keys && CollectedFrom(inbound, r, index, items, |items|)
  {
    inbound := start;
    for n := 0 to |items|
      invariant inbound.Keys == start.Keys && CollectedFrom(inbound, r, index, items, n)
    {
      var after := AddLinks(r, index, items[n], n, inbound);
      CollectedStep(inbound, after, r, index, items, n);
      inbound := after;
    }
  }

  /** Nothing leads to an item without a key. */
  lemma NoKeyNoSources(r: Resolver, items: seq<AuditItem>, i: nat)
    requires i < |items| && r.key(items[i].url) == ""
    ensures Sources(r, items, i) == {}
  {
    forall s | 0 <= s < |items| ensures !Links(r, IndexOf(r, items), items, s, i) {
      forall target ensures !LeadsTo(r, IndexOf(r, items), items[s].url, target, i) {
        IndexIsLast(r, items, r.target(target, items[s].url));
      }
    }
  }

  method Annotate(item: AuditItem, count: nat) returns (analyzed: AuditItem)
    ensures analyzed == WithCount(item, count)
  {
    analyzed := item.(inboundLinkCount := count, outboundUrls := []);
    if count == 0 {
      analyzed := analyzed.(findings := analyzed.findings + [FindingOf(OrphanContent)]);
    } else if count == 1 {
      analyzed := analyzed.(findings := analyzed.findings + [FindingOf(WeaklyLinkedContent)]);
    }
  }

  method AnnotateAll(items: seq<AuditItem>, inbound: map<nat, set<string>>, ghost sources: nat -> set<string>)
    returns (analyzed: seq<AuditItem>)
    requires forall i: nat :: sources(i) == if i in inbound then inbound[i] else {}
    ensures |analyzed| == |items|
    ensures forall i: nat :: i < |items| ==> analyzed[i] == WithCount(items[i], |sources(i)|)
  {
    analyzed := items;
    for n := 0 to |items|
      invariant |analyzed| == |items|
      invariant forall i: nat :: i < n ==> analyzed[i] == WithCount(items[i], |sources(i)|)
      invariant forall i: nat :: n <= i < |items| ==> analyzed[i] == items[i]
    {
      var item := Annotate(analyzed[n], if n in inbound then |inbound[n]| else 0);
      analyzed := analyzed[n := item];
    }
  }

  method Analyze(r: Resolver, items: seq<AuditItem>) returns (analyzed: seq<AuditItem>)
    ensures analyzed == Analyzed(r, items)
  {
    var index, inbound := BuildIndex(r, items);
    IndexIsIndexed(r, items, inbound);
    inbound := CollectLinks(r, index, items, inbound);
    ghost var sources := (i: nat) => if i in inbound then inbound[i] else {};
    analyzed := AnnotateAll(items, inbound, sources);
    forall i: nat | i < |items| ensures sources(i) == Sources(r, items, i) {
      if i !in inbound {
        NoKeyNoSources(r, items, i);
      }
    }
  }
}
