/** A run that reads a post twice: its findings are stored twice, and the next run does not balance. */
module BalanceWitness {
  import opened Prelude
  import Collector
  import Sync
  import SyncRepetition
  import opened AuditModel
  import opened AuditSummary
  import opened AuditComparison
  import opened AuditStore
  import opened AuditInvariant
  import opened RuleTable
  import opened LinkGraph
  import opened AuditRun
  import opened AuditHistory

  const NOTHING_YET := State([], None)

  /** The first post is added behind the reader's back after the batch that read the second one. */
  function RepeatingRun(first: Post, second: Post, now: nat): Step {
    Run([[second]] + Sync.Unchanging([first, second], Sync.MAX_SYNC_BATCHES - 1), now)
  }

  lemma RowsOfRepeatingRun(site: Site, first: Post, second: Post, now: nat)
    requires site.batchSize == 1 && first.id < second.id
    ensures RowsRead(site, RepeatingRun(first, second, now)) == [second, second]
  {
    SyncRepetition.InsertionRepeatsARow(first, second);
  }

  /** An item without inbound links. */
  function Orphaned(item: AuditItem): AuditItem {
    WithCount(item, 0)
  }

  /** What a run over this post alone hands to the store when there are no rules and no links to it. */
  function StoredFor(site: Site, post: Post, now: nat): AuditItem {
    RuledItem([])(Orphaned(AuditItemOf(site, Collector.MapPost(post), now)))
  }

  lemma CollectedOnce(post: Post)
    requires Collector.HasUrl(post)
    ensures Sync.Mappable([post]) == [Collector.MapPost(post)]
  {
    FilteredAppend([], post, Collector.HasUrl);
    assert [] + [post] == [post];
  }

  lemma CollectedTwice(post: Post)
    requires Collector.HasUrl(post)
    ensures Sync.Mappable([post, post]) == [Collector.MapPost(post), Collector.MapPost(post)]
  {
    CollectedOnce(post);
    Sync.MappableConcat([post], [post]);
    assert [post] + [post] == [post, post];
  }

  lemma InspectedTwice(site: Site, item: Collector.CollectedItem, now: nat)
    requires item.post.published
    ensures Inspecting(site, [item, item], now) == [AuditItemOf(site, item, now), AuditItemOf(site, item, now)]
  {
    InspectingLast(site, [], item, now);
    InspectingLast(site, [item], item, now);
    assert [] + [item] == [item] && [item] + [item] == [item, item];
  }

  lemma NoLinksNoSources(r: Resolver, items: seq<AuditItem>, i: nat)
    requires i < |items| && forall n :: 0 <= n < |items| ==> items[n].outboundUrls == []
    ensures Sources(r, items, i) == {}
  {
  }

  lemma AnalyzedTwice(r: Resolver, item: AuditItem)
    requires item.outboundUrls == []
    ensures Analyzed(r, [item, item]) == [Orphaned(item), Orphaned(item)]
  {
    NoLinksNoSources(r, [item, item], 0);
    NoLinksNoSources(r, [item, item], 1);
  }

  /** A published post without links that is read twice becomes two equal items without inbound links. */
  lemma ReadTwice(site: Site, post: Post, now: nat)
    requires post.published && Collector.HasUrl(post) && post.outboundUrls == []
    ensures RunItems(site, [post, post], [], now) == [StoredFor(site, post, now), StoredFor(site, post, now)]
  {
    var collected := Collector.MapPost(post);
    CollectedTwice(post);
    InspectedTwice(site, collected, now);
    AnalyzedTwice(site.resolver, AuditItemOf(site, collected, now));
  }

  lemma OrphanIsActive(item: AuditItem)
    ensures EntriesIn(RuledItem([])(Orphaned(item))) != []
  {
    var findings := RuledItem([])(Orphaned(item)).findings;
    assert findings[|findings| - 1].code == OrphanContent && !findings[|findings| - 1].ignored;
  }

  lemma SameItemTwice(item: AuditItem)
    requires EntriesIn(item) != []
    ensures !ActiveDistinct([item, item])
  {
    var entries := EntriesIn(item);
    FlattenedAppend([], item, EntriesIn);
    FlattenedAppend([item], item, EntriesIn);
    assert [] + [item] == [item] && [item] + [item] == [item, item] && [] + entries == entries;
    assert Entries([item, item]) == entries + entries;
    var prints := Prints(entries + entries);
    assert prints[0] == prints[|entries|];
    if Distinct(prints) {
      DistinctAt(prints, 0, |entries|);
    }
  }

  lemma RepeatIsStored(site: Site, post: Post, stored: Audit, now: nat)
    requires post.published && Collector.HasUrl(post) && post.outboundUrls == []
    requires stored == Audited(site, None, [], [post, post], now)
    ensures !ActiveDistinct(stored.items)
  {
    var item := StoredFor(site, post, now);
    ReadTwice(site, post, now);
    OrphanIsActive(AuditItemOf(site, Collector.MapPost(post), now));
    SameItemTwice(item);
    LabelledShape([item, item], Prints(FindingMap([])));
  }

  /** A run that reads such a post twice, and nothing else, stores an active fingerprint twice. */
  lemma RepeatingStep(site: Site, sameUrl: UrlComparison, step: Step, post: Post)
    requires UsesEngine(site, sameUrl) && step.Run? && RowsRead(site, step) == [post, post]
    requires post.published && Collector.HasUrl(post) && post.outboundUrls == []
    ensures var state := After(site, NOTHING_YET, step);
            Invariant(state) && !ActiveDistinct(ItemsOf(state.audit))
  {
    StepKeeps(site, sameUrl, NOTHING_YET, step);
    RepeatIsStored(site, post, After(site, NOTHING_YET, step).audit.value, step.now);
  }

  /** Nothing is audited yet, and the run stores an active fingerprint twice; whatever run follows that reads
      no post twice, its active findings are not those before plus the new minus the resolved ones. */
  lemma RepeatedPostUnbalances(site: Site, sameUrl: UrlComparison, first: Post, second: Post, now: nat, next: Step)
    requires UsesEngine(site, sameUrl) && site.batchSize == 1 && first.id < second.id
    requires second.published && Collector.HasUrl(second) && second.outboundUrls == []
    requires Allowed(site, next) && next.Run?
    ensures var state := After(site, NOTHING_YET, RepeatingRun(first, second, now));
            && Invariant(state) && !ActiveDistinct(ItemsOf(state.audit)) && !RunBalances(site, state, next)
  {
    var step := RepeatingRun(first, second, now);
    RowsOfRepeatingRun(site, first, second, now);
    RepeatingStep(site, sameUrl, step, second);
    ReadOnceBalance(site, sameUrl, After(site, NOTHING_YET, step), next);
  }
}
