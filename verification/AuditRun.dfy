/**
 * Audit runs and rule changes together (LocalAuditRunner.php, AdminPage.php): what is stored after any
 * sequence of them, and when the flags of the stored audit agree with the rule table.
 */
module AuditRun {
  import opened Prelude
  import Collector
  import Sync
  import opened AuditModel
  import opened AuditSummary
  import opened AuditStore
  import opened RuleTable
  import opened LinkGraph

  type Post = Collector.Post

  // ---------- What a run audits ----------

  /** What a runner is constructed with: the engine's inspection of a post at a time, the URL resolution of
      the link graph, and the batch size. */
  datatype Site = Site(inspect: (Post, int) -> seq<Finding>, resolver: Resolver, batchSize: int)

  /** The inspection is that of the audit engine. */
  ghost predicate UsesEngine(site: Site, sameUrl: UrlComparison) {
    forall post, now :: site.inspect(post, now) == Inspected(post, now, sameUrl)
  }

  function AuditItemOf(site: Site, item: Collector.CollectedItem, now: int): AuditItem {
    AuditItem(item.externalId, item.post.url, item.post.title, item.post.outboundUrls, 0,
              site.inspect(item.post, now))
  }

  /** The published ones among collected items, inspected. */
  function Inspecting(site: Site, items: seq<Collector.CollectedItem>, now: int): seq<AuditItem> {
    if items == [] then []
    else
      var before, last := Inspecting(site, items[..|items| - 1], now), items[|items| - 1];
      if last.post.published then before + [AuditItemOf(site, last, now)] else before
  }

  function Ruling(item: AuditItem, ignored: seq<Fingerprint>): Finding -> Finding {
    (finding: Finding) => finding.(ignored := FingerprintOf(item.externalId, finding.code) in ignored)
  }

  function RuledItem(ignored: seq<Fingerprint>): AuditItem -> AuditItem {
    (item: AuditItem) => item.(findings := Mapped(item.findings, Ruling(item, ignored)))
  }

  /** The items with the flags the rule table demands. */
  function Ruled(items: seq<AuditItem>, ignored: seq<Fingerprint>): seq<AuditItem> {
    Mapped(items, RuledItem(ignored))
  }

  /** All that a run hands to the store. */
  function RunItems(site: Site, rows: seq<Post>, rules: seq<Rule>, now: int): seq<AuditItem> {
    Ruled(Analyzed(site.resolver, Inspecting(site, Sync.Mappable(rows), now)), Keys(rules))
  }

  function Audited(site: Site, stored: Option<Audit>, rules: seq<Rule>, rows: seq<Post>, now: int): Audit {
    var items := RunItems(site, rows, rules, now);
    Completed(stored, items, Summarized(items), now)
  }

  // ---------- The loops of a run ----------

  lemma {:induction false} InspectingConcat(site: Site, a: seq<Collector.CollectedItem>,
                                            b: seq<Collector.CollectedItem>, now: int)
    ensures Inspecting(site, a + b, now) == Inspecting(site, a, now) + Inspecting(site, b, now)
  {
    if b == [] {
      assert a + b == a;
    } else {
      InspectingConcat(site, a, b[..|b| - 1], now);
      assert (a + b)[..|a + b| - 1] == a + b[..|b| - 1];
    }
  }

  /** One page: its published posts are inspected. */
  method InspectPage(site: Site, page: seq<Collector.CollectedItem>, now: int) returns (items: seq<AuditItem>)
    ensures items == Inspecting(site, page, now)
  {
    items := [];
    for n := 0 to |page|
      invariant items == Inspecting(site, page[..n], now)
    {
      assert page[..n + 1][..n] == page[..n];
      if page[n].post.published {
        var item := page[n];
        items := items + [AuditItem(item.externalId, item.post.url, item.post.title, item.post.outboundUrls, 0,
                                    site.inspect(item.post, now))];
      }
    }
    assert page[..|page|] == page;
  }

  method RuleItem(item: AuditItem, ignored: seq<Fingerprint>) returns (ruled: AuditItem)
    ensures ruled == RuledItem(ignored)(item)
  {
    var findings := item.findings;
    for n := 0 to |findings|
      invariant |findings| == |item.findings|
      invariant forall k :: 0 <= k < n ==> findings[k] == Ruling(item, ignored)(item.findings[k])
      invariant forall k :: n <= k < |findings| ==> findings[k] == item.findings[k]
    {
      var fingerprint := FingerprintOf(item.externalId, findings[n].code);
      findings := findings[n := findings[n].(ignored := fingerprint in ignored)];
    }
    assert findings == Mapped(item.findings, Ruling(item, ignored));
    ruled := item.(findings := findings);
  }

  method ApplyIgnoredRules(items: seq<AuditItem>, ignored: seq<Fingerprint>) returns (ruled: seq<AuditItem>)
    ensures ruled == Ruled(items, ignored)
  {
    ruled := items;
    for n := 0 to |items|
      invariant |ruled| == |items|
      invariant forall k :: 0 <= k < n ==> ruled[k] == RuledItem(ignored)(items[k])
      invariant forall k :: n <= k < |items| ==> ruled[k] == items[k]
    {
      var item := RuleItem(ruled[n], ignored);
      ruled := ruled[n := item];
    }
    assert ruled == Ruled(items, ignored);
  }

  /** Where batch `batch` starts: `batch` times the batch size. */
  function Offset(batch: nat, batchSize: int): int {
    if batch == 0 then 0 else Offset(batch - 1, batchSize) + batchSize
  }

  lemma {:induction false} OffsetIsProduct(batch: nat, batchSize: int)
    ensures Offset(batch, batchSize) == batch * batchSize
  {
    if batch > 0 {
      OffsetIsProduct(batch - 1, batchSize);
    }
  }

  ghost predicate AuditedSoFar(items: seq<AuditItem>, site: Site, visited: seq<Post>, now: int) {
    items == Inspecting(site, Sync.Mappable(visited), now)
  }

  lemma AuditedStep(items: seq<AuditItem>, page: seq<AuditItem>, site: Site, visited: seq<Post>, rows: seq<Post>,
                    now: int)
    requires AuditedSoFar(items, site, visited, now) && AuditedSoFar(page, site, rows, now)
    ensures AuditedSoFar(items + page, site, visited + rows, now)
  {
    Sync.MappableConcat(visited, rows);
    InspectingConcat(site, Sync.Mappable(visited), Sync.Mappable(rows), now);
  }

  /** `page` holds the inspected items of batch `batch`, whose query came back full or not. */
  ghost predicate IsBatch(page: seq<AuditItem>, full: bool, site: Site, inventory: seq<Post>, batch: nat, now: int) {
    var offset := Offset(batch, site.batchSize);
    && AuditedSoFar(page, site, Collector.Rows(inventory, offset, site.batchSize), now)
    && full == Collector.HasMore(inventory, offset, site.batchSize)
  }

  method InspectBatch(site: Site, inventory: seq<Post>, batch: nat, now: int)
    returns (items: seq<AuditItem>, full: bool)
    ensures IsBatch(items, full, site, inventory, batch, now)
  {
    var offset := batch * site.batchSize;
    OffsetIsProduct(batch, site.batchSize);
    var page := Collector.CollectBatch(inventory, offset, site.batchSize);
    items := InspectPage(site, page.items, now);
    full := page.hasMore;
  }

  /** What is still to be visited from an offset on. */
  ghost predicate Remaining(all: seq<Post>, visited: seq<Post>, pending: Sync.Inventories, batchSize: int, offset: int,
                            more: bool)
  {
    if more then pending != [] && all == visited + Sync.Visited(pending, batchSize, offset) else all == visited
  }

  lemma RemainingStep(all: seq<Post>, visited: seq<Post>, pending: Sync.Inventories, batchSize: int, offset: int)
    requires Remaining(all, visited, pending, batchSize, offset, true)
    ensures Remaining(all, visited + Collector.Rows(pending[0], offset, batchSize), pending[1..], batchSize,
                      offset + batchSize, Collector.HasMore(pending[0], offset, batchSize) && |pending| > 1)
  {
    Sync.VisitedStep(pending, batchSize, offset, visited);
  }

  /** The items of the visited rows were collected, and what remains is still to be visited. */
  ghost predicate Progress(items: seq<AuditItem>, site: Site, all: seq<Post>, visited: seq<Post>,
                           pending: Sync.Inventories, batch: nat, more: bool, now: int)
  {
    && AuditedSoFar(items, site, visited, now)
    && Remaining(all, visited, pending, site.batchSize, Offset(batch, site.batchSize), more)
  }

  lemma ProgressStarts(site: Site, inventories: Sync.Inventories, now: int)
    requires inventories != []
    ensures Progress([], site, Sync.Visited(inventories, site.batchSize, 0), [], inventories, 0, true, now)
  {
    var all := Sync.Visited(inventories, site.batchSize, 0);
    assert [] + all == all;
  }

  /** After one more batch, `rows` being what it read. */
  lemma ProgressStep(items: seq<AuditItem>, page: seq<AuditItem>, site: Site, all: seq<Post>, visited: seq<Post>,
                     pending: Sync.Inventories, batch: nat, full: bool, now: int)
    returns (rows: seq<Post>)
    requires pending != [] && Progress(items, site, all, visited, pending, batch, true, now)
    requires IsBatch(page, full, site, pending[0], batch, now)
    ensures Progress(items + page, site, all, visited + rows, pending[1..], batch + 1, full && |pending| > 1, now)
  {
    var offset := Offset(batch, site.batchSize);
    rows := Collector.Rows(pending[0], offset, site.batchSize);
    RemainingStep(all, visited, pending, site.batchSize, offset);
    AuditedStep(items, page, site, visited, rows, now);
  }

  lemma ProgressEnds(items: seq<AuditItem>, site: Site, all: seq<Post>, visited: seq<Post>, pending: Sync.Inventories,
                     batch: nat, now: int)
    requires Progress(items, site, all, visited, pending, batch, false, now)
    ensures AuditedSoFar(items, site, all, now)
  {
  }

  /** The batch loop of run: the same pages as a sync reads. */
  method CollectItems(site: Site, inventories: Sync.Inventories, now: int) returns (items: seq<AuditItem>)
    requires |inventories| == Sync.MAX_SYNC_BATCHES
    ensures AuditedSoFar(items, site, Sync.Visited(inventories, site.batchSize, 0), now)
  {
    items := [];
    ghost var all, visited := Sync.Visited(inventories, site.batchSize, 0), [];
    var pending, batch, more := inventories, 0, true;
    ProgressStarts(site, inventories, now);
    while more
      invariant batch + |pending| == Sync.MAX_SYNC_BATCHES && (more ==> pending != [])
      invariant Progress(items, site, all, visited, pending, batch, more, now)
      decreases more, |pending|
    {
      var page, full := InspectBatch(site, pending[0], batch, now);
      ghost var rows := ProgressStep(items, page, site, all, visited, pending, batch, full, now);
      items := items + page;
      visited := visited + rows;
      more := full && |pending| > 1;
      pending := pending[1..];
      batch := batch + 1;
    }
    ProgressEnds(items, site, all, visited, pending, batch, now);
  }

  class LocalAuditRunner {
    const site: Site
    const store: LocalAuditStore
    const settings: LocalAuditSettings

    constructor (site: Site, store: LocalAuditStore, settings: LocalAuditSettings)
      ensures this.site == site && this.store == store && this.settings == settings
    {
      this.site, this.store, this.settings := site, store, settings;
    }

    /** `failure` is the message of an exception thrown on the way, if there is one. */
    method Run(inventories: Sync.Inventories, failure: Option<string>, now: int)
      requires |inventories| == Sync.MAX_SYNC_BATCHES
      modifies store
      ensures store.option == Some(
        if failure.Some? then Failed(old(store.option), failure.value, now)
        else Audited(site, old(store.option), Normalized(settings.stored),
                     Sync.Visited(inventories, site.batchSize, 0), now))
    {
      if failure.Some? {
        store.Fail(failure.value, now);
        return;
      }
      var items := CollectItems(site, inventories, now);
      items := Analyze(site.resolver, items);
      var rules := settings.Get();
      items := ApplyIgnoredRules(items, Keys(rules));
      var counts := Summarize(items);
      store.Complete(items, counts, now);
    }

    /** handleFindingRule of the admin page: the rule first, then the flags. */
    method HandleFindingRule(fingerprint: Fingerprint, ignored: bool, now: nat)
      requires IsTable(Normalized(settings.stored))
      modifies store, settings
      ensures store.option == WithMark(old(store.option), fingerprint, ignored)
      ensures Normalized(settings.stored) == Changed(Normalized(old(settings.stored)), fingerprint, ignored, now)
    {
      ghost var rules := Normalized(settings.stored);
      settings.SetIgnored(fingerprint, ignored, now);
      ChangedIsTable(rules, fingerprint, ignored, now);
      TableReadsBack(Changed(rules, fingerprint, ignored, now));
      store.SetIgnored(fingerprint, ignored);
    }
  }
}
