/**
 * Whole histories of a site's audits: queuing, running, failing and changing rules in any order. What holds
 * of the stored audit and the rule table in every state, and when the two agree.
 */
module AuditHistory {
  import opened Prelude
  import opened Text
  import Collector
  import Sync
  import SyncCoverage
  import SyncRepetition
  import opened AuditModel
  import opened AuditSummary
  import opened AuditComparison
  import opened AuditStore
  import opened AuditInvariant
  import opened RuleTable
  import opened LinkGraph
  import opened AuditRun

  // ---------- External ids stay apart under trimming ----------

  lemma {:induction false} TrimLeftOfJoin(a: string, b: string)
    requires b != "" && !IsTrimmed(b[0])
    ensures TrimLeft(a + b) == TrimLeft(a) + b
  {
    if a == "" {
      assert a + b == b;
    } else if IsTrimmed(a[0]) {
      assert (a + b)[1..] == a[1..] + b;
      TrimLeftOfJoin(a[1..], b);
    }
  }

  lemma TrimmedId(post: Collector.Post)
    ensures Trim(Collector.ExternalId(post)) == TrimLeft(post.postType) + ":" + Collector.Decimal(post.id)
  {
    var digits := Collector.Decimal(post.id);
    Collector.DecimalIsDigits(post.id);
    TrimLeftOfJoin(post.postType, ":" + digits);
    assert post.postType + ":" + digits == post.postType + (":" + digits);
    var trimmed := TrimLeft(post.postType) + (":" + digits);
    assert trimmed[|trimmed| - 1] == digits[|digits| - 1];
    assert trimmed == TrimLeft(post.postType) + ":" + digits;
  }

  lemma TrimmedIdsDiffer(a: Collector.Post, b: Collector.Post)
    requires a.id != b.id
    ensures Trim(Collector.ExternalId(a)) != Trim(Collector.ExternalId(b))
  {
    TrimmedId(a);
    TrimmedId(b);
    Collector.DecimalIsDigits(a.id);
    Collector.DecimalIsDigits(b.id);
    Collector.AfterColon(TrimLeft(a.postType), Collector.Decimal(a.id));
    Collector.AfterColon(TrimLeft(b.postType), Collector.Decimal(b.id));
    if Collector.Decimal(a.id) == Collector.Decimal(b.id) {
      Collector.DecimalInjective(a.id, b.id);
    }
  }

  // ---------- The findings of a run have distinct fingerprints ----------

  function TrimmedIdOf(item: AuditItem): string {
    Trim(item.externalId)
  }

  function TrimmedIds(items: seq<AuditItem>): seq<string> {
    Mapped(items, TrimmedIdOf)
  }

  predicate CodesDistinct(item: AuditItem) {
    Distinct(Codes(item.findings))
  }

  lemma {:induction false} PrintsInDistinct(item: AuditItem, findings: seq<Finding>)
    requires Distinct(Codes(findings))
    ensures var prints := Mapped(findings, PrintFor(item));
            && Distinct(prints)
            && forall p :: p in prints ==>
                 p.Digest? && p.externalId == Trim(item.externalId) && p.code in Codes(findings)
  {
    if findings != [] {
      var before, last := findings[..|findings| - 1], findings[|findings| - 1];
      assert Codes(findings)[..|before|] == Codes(before);
      PrintsInDistinct(item, before);
      assert Mapped(findings, PrintFor(item))[..|before|] == Mapped(before, PrintFor(item));
      assert Codes(findings) == Codes(before) + [last.code];
      assert Mapped(findings, PrintFor(item)) == Mapped(before, PrintFor(item)) + [PrintFor(item)(last)];
    }
  }

  lemma {:induction false} DistinctPrints(items: seq<AuditItem>)
    requires Distinct(TrimmedIds(items)) && forall n :: 0 <= n < |items| ==> CodesDistinct(items[n])
    ensures Distinct(AllPrints(items))
    ensures forall p :: p in AllPrints(items) ==> p.Digest? && p.externalId in TrimmedIds(items)
  {
    if items != [] {
      var before, last := items[..|items| - 1], items[|items| - 1];
      assert TrimmedIds(items)[..|before|] == TrimmedIds(before);
      DistinctPrints(before);
      PrintsInDistinct(last, last.findings);
      assert TrimmedIds(items) == TrimmedIds(before) + [Trim(last.externalId)];
      DistinctConcat(AllPrints(before), PrintsIn(last));
    }
  }

  lemma MappableOne(rows: seq<Post>, last: Post)
    ensures Sync.Mappable(rows + [last])
         == if Collector.HasUrl(last) then Sync.Mappable(rows) + [Collector.MapPost(last)] else Sync.Mappable(rows)
  {
    FilteredAppend(rows, last, Collector.HasUrl);
    MappedConcat(Filtered(rows, Collector.HasUrl), [last], Collector.MapPost);
  }

  lemma InspectingLast(site: Site, items: seq<Collector.CollectedItem>, last: Collector.CollectedItem, now: int)
    ensures Inspecting(site, items + [last], now)
         == if last.post.published then Inspecting(site, items, now) + [AuditItemOf(site, last, now)]
            else Inspecting(site, items, now)
  {
    assert (items + [last])[..|items|] == items;
  }

  function PostIdText(post: Post): string {
    Trim(Collector.ExternalId(post))
  }

  lemma {:induction false} PostIdTextsDistinct(rows: seq<Post>)
    requires Distinct(Sync.Ids(rows))
    ensures Distinct(Mapped(rows, PostIdText))
  {
    if rows != [] {
      var before, last := rows[..|rows| - 1], rows[|rows| - 1];
      assert Sync.Ids(rows)[..|before|] == Sync.Ids(before);
      PostIdTextsDistinct(before);
      forall n | 0 <= n < |before| ensures PostIdText(before[n]) != PostIdText(last) {
        DistinctAt(Sync.Ids(rows), n, |before|);
        TrimmedIdsDiffer(before[n], last);
      }
      assert Mapped(rows, PostIdText)[..|before|] == Mapped(before, PostIdText);
    }
  }

  lemma OneMoreInspected(site: Site, items: seq<Collector.CollectedItem>, last: Collector.CollectedItem, now: int)
    ensures var ids := TrimmedIds(Inspecting(site, items, now));
            TrimmedIds(Inspecting(site, items + [last], now))
            == if last.post.published then ids + [Trim(last.externalId)] else ids
  {
    InspectingLast(site, items, last, now);
    MappedConcat(Inspecting(site, items, now), [AuditItemOf(site, last, now)], TrimmedIdOf);
  }

  lemma InspectedIdsAppend(site: Site, rows: seq<Post>, last: Post, now: int)
    ensures var ids := TrimmedIds(Inspecting(site, Sync.Mappable(rows), now));
            TrimmedIds(Inspecting(site, Sync.Mappable(rows + [last]), now))
            == if Collector.HasUrl(last) && last.published then ids + [PostIdText(last)] else ids
  {
    MappableOne(rows, last);
    if Collector.HasUrl(last) {
      OneMoreInspected(site, Sync.Mappable(rows), Collector.MapPost(last), now);
    }
  }

  lemma OneMoreWithin(s: seq<string>, t: seq<string>, more: seq<string>, others: seq<string>, last: string)
    requires multiset(s) <= multiset(t)
    requires (more == s || more == s + [last]) && others == t + [last]
    ensures multiset(more) <= multiset(others)
  {
  }

  ghost predicate IdsWithin(site: Site, rows: seq<Post>, now: int) {
    multiset(TrimmedIds(Inspecting(site, Sync.Mappable(rows), now))) <= multiset(Mapped(rows, PostIdText))
  }

  lemma IdsWithinAppend(site: Site, rows: seq<Post>, last: Post, whole: seq<Post>, now: int)
    requires IdsWithin(site, rows, now) && whole == rows + [last]
    ensures IdsWithin(site, whole, now)
  {
    var ids, names := TrimmedIds(Inspecting(site, Sync.Mappable(rows), now)), Mapped(rows, PostIdText);
    InspectedIdsAppend(site, rows, last, now);
    MappedConcat(rows, [last], PostIdText);
    OneMoreWithin(ids, names, TrimmedIds(Inspecting(site, Sync.Mappable(whole), now)), Mapped(whole, PostIdText),
                  PostIdText(last));
  }

  lemma IdsWithinNone(site: Site, now: int)
    ensures IdsWithin(site, [], now)
  {
    assert Sync.Mappable([]) == [];
  }

  lemma {:induction false} InspectedIdsWithin(site: Site, rows: seq<Post>, now: int)
    ensures IdsWithin(site, rows, now)
    decreases |rows|
  {
    if rows == [] {
      IdsWithinNone(site, now);
    } else {
      var before, last := rows[..|rows| - 1], rows[|rows| - 1];
      InspectedIdsWithin(site, before, now);
      IdsWithinAppend(site, before, last, rows, now);
    }
  }

  /** Posts with ids of their own give items with trimmed external ids of their own. */
  lemma InspectedIds(site: Site, rows: seq<Post>, now: int)
    requires Distinct(Sync.Ids(rows))
    ensures Distinct(TrimmedIds(Inspecting(site, Sync.Mappable(rows), now)))
  {
    PostIdTextsDistinct(rows);
    InspectedIdsWithin(site, rows, now);
    DistinctWithin(TrimmedIds(Inspecting(site, Sync.Mappable(rows), now)), Mapped(rows, PostIdText));
  }

  /** A post as the engine leaves it: every code once, no link codes, no labels. */
  predicate FromEngine(findings: seq<Finding>) {
    && Distinct(Codes(findings)) && OrphanContent !in Codes(findings) && WeaklyLinkedContent !in Codes(findings)
    && forall n :: 0 <= n < |findings| ==> findings[n].previousChange == None
  }

  lemma ReportedUnlabelled(detects: Code -> bool, codes: seq<Code>, n: nat)
    requires n < |Reported(detects, codes)|
    ensures Reported(detects, codes)[n].previousChange == None
  {
  }

  lemma EngineFindings(post: Post, now: int, sameUrl: UrlComparison)
    ensures FromEngine(Inspected(post, now, sameUrl))
  {
    InspectedCodesDistinct(post, now, sameUrl);
    var findings := Inspected(post, now, sameUrl);
    forall n | 0 <= n < |findings| ensures findings[n].previousChange == None {
      ReportedUnlabelled(code => Detects(post, now, sameUrl, code), CHECKED_CODES, n);
    }
  }

  lemma {:induction false} InspectedByEngine(site: Site, sameUrl: UrlComparison, items: seq<Collector.CollectedItem>,
                                             now: int)
    requires UsesEngine(site, sameUrl)
    ensures forall n :: 0 <= n < |Inspecting(site, items, now)| ==> FromEngine(Inspecting(site, items, now)[n].findings)
  {
    if items != [] {
      InspectedByEngine(site, sameUrl, items[..|items| - 1], now);
      EngineFindings(items[|items| - 1].post, now, sameUrl);
    }
  }

  lemma LinkedCodes(findings: seq<Finding>, count: nat)
    requires FromEngine(findings)
    ensures Distinct(Codes(findings + LinkFindings(count)))
    ensures forall n :: 0 <= n < |findings + LinkFindings(count)| ==>
              (findings + LinkFindings(count))[n].previousChange == None
  {
    var more := LinkFindings(count);
    MappedConcat(findings, more, CodeOf);
    DistinctConcat(Codes(findings), Codes(more));
  }

  lemma RuledKeeps(item: AuditItem, ignored: seq<Fingerprint>)
    ensures var ruled := RuledItem(ignored)(item);
            Codes(ruled.findings) == Codes(item.findings) && (UnlabelledItem(item) ==> UnlabelledItem(ruled))
  {
    assert Codes(RuledItem(ignored)(item).findings) == Codes(item.findings);
  }

  lemma RunItemsFromEngine(site: Site, sameUrl: UrlComparison, rows: seq<Post>, rules: seq<Rule>, now: int)
    requires UsesEngine(site, sameUrl)
    ensures var items := RunItems(site, rows, rules, now);
            Unlabelled(items) && forall n :: 0 <= n < |items| ==> CodesDistinct(items[n])
  {
    var inspected := Inspecting(site, Sync.Mappable(rows), now);
    var analyzed, items := Analyzed(site.resolver, inspected), RunItems(site, rows, rules, now);
    InspectedByEngine(site, sameUrl, Sync.Mappable(rows), now);
    forall n | 0 <= n < |items| ensures CodesDistinct(items[n]) && UnlabelledItem(items[n]) {
      LinkedCodes(inspected[n].findings, |Sources(site.resolver, inspected, n)|);
      RuledKeeps(analyzed[n], Keys(rules));
    }
  }

  /** Whatever posts a run reads, as long as their ids differ, no two of its findings have the same fingerprint. */
  lemma RunPrintsOnce(site: Site, sameUrl: UrlComparison, rows: seq<Post>, rules: seq<Rule>, now: int)
    requires UsesEngine(site, sameUrl) && Distinct(Sync.Ids(rows))
    ensures PrintsOnce(RunItems(site, rows, rules, now))
  {
    var inspected, items := Inspecting(site, Sync.Mappable(rows), now), RunItems(site, rows, rules, now);
    InspectedIds(site, rows, now);
    assert TrimmedIds(items) == TrimmedIds(inspected);
    RunItemsFromEngine(site, sameUrl, rows, rules, now);
    DistinctPrints(items);
  }

  // ---------- Agreement of the flags with the rule table ----------

  /** Exactly the findings with a rule in the table are flagged. */
  predicate AgreesItem(item: AuditItem, ignored: seq<Fingerprint>) {
    forall n :: 0 <= n < |item.findings| ==>
      (item.findings[n].ignored <==> FingerprintOf(item.externalId, item.findings[n].code) in ignored)
  }

  predicate Agrees(items: seq<AuditItem>, ignored: seq<Fingerprint>) {
    forall n :: 0 <= n < |items| ==> AgreesItem(items[n], ignored)
  }

  /** After a run the stored flags agree with the table, whatever was stored before. */
  lemma RunAgrees(site: Site, stored: Option<Audit>, rules: seq<Rule>, rows: seq<Post>, now: int)
    ensures Agrees(Audited(site, stored, rules, rows, now).items, Keys(rules))
  {
    var analyzed := Analyzed(site.resolver, Inspecting(site, Sync.Mappable(rows), now));
    var items := Audited(site, stored, rules, rows, now).items;
    var known := Prints(FindingMap(ItemsOf(stored)));
    forall n | 0 <= n < |items| ensures AgreesItem(items[n], Keys(rules)) {
      AgreesRuled(analyzed[n], Keys(rules), known);
    }
  }

  lemma AgreesRuled(item: AuditItem, ignored: seq<Fingerprint>, known: seq<Fingerprint>)
    ensures AgreesItem(LabelledItem(known)(RuledItem(ignored)(item)), ignored)
  {
  }

  /** What a rule change does to agreement at one finding. */
  lemma MarkedItemAgrees(item: AuditItem, fingerprint: Fingerprint, ignored: bool, before: seq<Fingerprint>,
                         after: seq<Fingerprint>, evicted: seq<Fingerprint>)
    requires SoundItem(item) && AgreesItem(item, before)
    requires forall p :: p in after <==> if ignored then (p in before || p == fingerprint) && p !in evicted
                                         else p in before && p != fingerprint
    requires forall p :: p in evicted ==> ignored && (p in before || p == fingerprint)
    ensures AgreesItem(MarkedItem(fingerprint, ignored)(item), after)
       <==> forall p :: p in PrintsIn(item) ==> p !in evicted
  {
    var marked := MarkedItem(fingerprint, ignored)(item);
    forall n | 0 <= n < |item.findings|
      ensures (marked.findings[n].ignored <==> FingerprintOf(item.externalId, item.findings[n].code) in after)
         <==> PrintsIn(item)[n] !in evicted
    {
      assert Sound(item, item.findings[n]);
    }
  }

  // ---------- Histories ----------

  datatype State = State(rules: seq<Rule>, audit: Option<Audit>)

  datatype Step =
    | Queue(now: nat)
    | Run(inventories: Sync.Inventories, now: nat)
    | Abort(message: string, now: nat)
    | Toggle(fingerprint: Fingerprint, ignored: bool, now: nat)

  function RowsRead(site: Site, step: Step): seq<Post>
    requires step.Run?
  {
    if step.inventories == [] then [] else Sync.Visited(step.inventories, site.batchSize, 0)
  }

  function After(site: Site, state: State, step: Step): State {
    match step
    case Queue(now) => state.(audit := Some(Started(state.audit, now)))
    case Run(_, now) => state.(audit := Some(Audited(site, state.audit, state.rules, RowsRead(site, step), now)))
    case Abort(message, now) => state.(audit := Some(Failed(state.audit, message, now)))
    case Toggle(fingerprint, ignored, now) =>
      State(Changed(state.rules, fingerprint, ignored, now), WithMark(state.audit, fingerprint, ignored))
  }

  /** A run reads inventories in id order, and no post stands within two batches it reaches; posts may be
      edited, added, deleted or trashed while it reads. Other steps are always allowed. */
  ghost predicate Allowed(site: Site, step: Step) {
    step.Run? ==>
      && |step.inventories| == Sync.MAX_SYNC_BATCHES && SyncCoverage.AllOrdered(step.inventories)
      && SyncRepetition.NoneCaughtTwice(step.inventories, site.batchSize)
  }

  /** A site as the plugin sets it up. */
  ghost predicate IsSite(site: Site, sameUrl: UrlComparison) {
    UsesEngine(site, sameUrl) && 1 <= site.batchSize <= Collector.MAX_BATCH_SIZE
  }

  ghost predicate Invariant(state: State) {
    IsTable(state.rules) && CoherentOption(state.audit)
  }

  predicate InAgreement(state: State) {
    state.audit.Some? ==> Agrees(state.audit.value.items, Keys(state.rules))
  }

  lemma RowsReadOnce(site: Site, step: Step)
    requires step.Run? && Allowed(site, step) && 1 <= site.batchSize <= Collector.MAX_BATCH_SIZE
    ensures Distinct(Sync.Ids(RowsRead(site, step)))
  {
    SyncRepetition.ReadAtMostOnce(step.inventories, site.batchSize);
  }

  /** A run in which no post comes back is allowed. */
  lemma RunIsAllowed(site: Site, inventories: Sync.Inventories, now: nat)
    requires 1 <= site.batchSize <= Collector.MAX_BATCH_SIZE
    requires |inventories| == Sync.MAX_SYNC_BATCHES && SyncCoverage.AllOrdered(inventories)
    requires forall id :: SyncCoverage.NeverComesBack(inventories, site.batchSize, 0, id)
    ensures Allowed(site, Run(inventories, now))
  {
    SyncRepetition.NoneCaughtTwiceUnlessBack(inventories, site.batchSize);
  }

  /** So is one in which posts are only edited or appended. */
  lemma GrowingRunIsAllowed(site: Site, inventories: Sync.Inventories, now: nat)
    requires 1 <= site.batchSize <= Collector.MAX_BATCH_SIZE
    requires |inventories| == Sync.MAX_SYNC_BATCHES && SyncCoverage.AllOrdered(inventories)
    requires Sync.OnlyGrows(inventories, Sync.IdOf)
    ensures Allowed(site, Run(inventories, now))
  {
    forall id ensures SyncCoverage.NeverComesBack(inventories, site.batchSize, 0, id) {
      SyncRepetition.GrowingNeverComesBack(inventories, site.batchSize, 0, id);
    }
    RunIsAllowed(site, inventories, now);
  }

  /** And one in which posts are only edited or taken away. */
  lemma ShrinkingRunIsAllowed(site: Site, inventories: Sync.Inventories, now: nat)
    requires 1 <= site.batchSize <= Collector.MAX_BATCH_SIZE
    requires |inventories| == Sync.MAX_SYNC_BATCHES && SyncCoverage.AllOrdered(inventories)
    requires forall id :: SyncCoverage.OnlyMovesUp(inventories, id)
    ensures Allowed(site, Run(inventories, now))
  {
    forall id ensures SyncCoverage.NeverComesBack(inventories, site.batchSize, 0, id) {
      assert SyncCoverage.OnlyMovesUp(inventories, id);
      SyncCoverage.MovingUpNeverComesBack(inventories, site.batchSize, 0, id);
    }
    RunIsAllowed(site, inventories, now);
  }

  lemma StepKeeps(site: Site, sameUrl: UrlComparison, state: State, step: Step)
    requires UsesEngine(site, sameUrl) && Invariant(state)
    ensures Invariant(After(site, state, step))
  {
    match step
    case Queue(now) => StartKeepsBaseline(state.audit, now);
    case Run(_, now) =>
      RunItemsFromEngine(site, sameUrl, RowsRead(site, step), state.rules, now);
      CompleteKeeps(state.audit, RunItems(site, RowsRead(site, step), state.rules, now), now);
    case Abort(message, now) => FailKeeps(state.audit, message, now);
    case Toggle(fingerprint, ignored, now) =>
      ChangedIsTable(state.rules, fingerprint, ignored, now);
      if state.audit.Some? {
        MarkKeeps(state.audit.value, fingerprint, ignored);
      }
  }

  function Final(site: Site, state: State, steps: seq<Step>): State
    decreases |steps|
  {
    if steps == [] then state else Final(site, After(site, state, steps[0]), steps[1..])
  }

  /** Whatever happens, the counters of the stored audit are those of its items and the rule table is one. */
  lemma {:induction false} HistoryKeeps(site: Site, sameUrl: UrlComparison, state: State, steps: seq<Step>)
    requires UsesEngine(site, sameUrl) && Invariant(state)
    ensures Invariant(Final(site, state, steps))
    decreases |steps|
  {
    if steps != [] {
      StepKeeps(site, sameUrl, state, steps[0]);
      HistoryKeeps(site, sameUrl, After(site, state, steps[0]), steps[1..]);
    }
  }

  // ---------- The balance of a run ----------

  /** The run stores as many active findings as there were, plus the new, minus the resolved ones. */
  predicate RunBalances(site: Site, state: State, step: Step)
    requires step.Run?
  {
    Balanced(ItemsOf(state.audit), After(site, state, step).audit.value)
  }

  /** Whatever is stored and whatever a run reads, it balances exactly when as many fingerprints repeat among
      the findings active before as among those of them that are active again. */
  lemma RunBalance(site: Site, state: State, step: Step)
    requires step.Run?
    ensures var previous := Prints(Entries(ItemsOf(state.audit)));
            var current := Prints(Entries(After(site, state, step).audit.value.items));
            RunBalances(site, state, step) <==> Repeats(previous) == Repeats(Filtered(current, MemberOf(previous)))
  {
    var items := RunItems(site, RowsRead(site, step), state.rules, step.now);
    CompletedBalance(state.audit, items, Summarized(items), step.now);
  }

  /** A run that reads no post twice balances exactly when no two findings active before have the same
      fingerprint. */
  lemma ReadOnceBalance(site: Site, sameUrl: UrlComparison, state: State, step: Step)
    requires IsSite(site, sameUrl) && Allowed(site, step) && step.Run?
    ensures RunBalances(site, state, step) <==> ActiveDistinct(ItemsOf(state.audit))
  {
    var items := RunItems(site, RowsRead(site, step), state.rules, step.now);
    RowsReadOnce(site, step);
    RunPrintsOnce(site, sameUrl, RowsRead(site, step), state.rules, step.now);
    DistinctActive(items);
    CompletedBalance(state.audit, items, Summarized(items), step.now);
  }

  lemma StepKeepsPrintsOnce(site: Site, sameUrl: UrlComparison, state: State, step: Step)
    requires IsSite(site, sameUrl) && Allowed(site, step) && PrintsOnce(ItemsOf(state.audit))
    ensures PrintsOnce(ItemsOf(After(site, state, step).audit))
  {
    match step
    case Queue(now) =>
    case Run(_, now) =>
      RowsReadOnce(site, step);
      RunPrintsOnce(site, sameUrl, RowsRead(site, step), state.rules, now);
      LabelledShape(RunItems(site, RowsRead(site, step), state.rules, now), Prints(FindingMap(ItemsOf(state.audit))));
    case Abort(message, now) =>
    case Toggle(fingerprint, ignored, now) =>
      if state.audit.Some? {
        MarkedPrints(state.audit.value.items, fingerprint, ignored);
      }
  }

  /** As long as no run reads a post twice, no two stored findings have the same fingerprint. */
  lemma {:induction false} HistoryKeepsPrintsOnce(site: Site, sameUrl: UrlComparison, state: State, steps: seq<Step>)
    requires IsSite(site, sameUrl) && forall n :: 0 <= n < |steps| ==> Allowed(site, steps[n])
    requires PrintsOnce(ItemsOf(state.audit))
    ensures PrintsOnce(ItemsOf(Final(site, state, steps).audit))
    decreases |steps|
  {
    if steps != [] {
      StepKeepsPrintsOnce(site, sameUrl, state, steps[0]);
      HistoryKeepsPrintsOnce(site, sameUrl, After(site, state, steps[0]), steps[1..]);
    }
  }

  /** And so every run of such a history balances. */
  lemma HistoryBalances(site: Site, sameUrl: UrlComparison, state: State, steps: seq<Step>, run: Step)
    requires IsSite(site, sameUrl) && forall n :: 0 <= n < |steps| ==> Allowed(site, steps[n])
    requires PrintsOnce(ItemsOf(state.audit)) && Allowed(site, run) && run.Run?
    ensures RunBalances(site, Final(site, state, steps), run)
  {
    var last := Final(site, state, steps);
    HistoryKeepsPrintsOnce(site, sameUrl, state, steps);
    DistinctActive(ItemsOf(last.audit));
    ReadOnceBalance(site, sameUrl, last, run);
  }

  // ---------- When flags and table agree ----------

  lemma EvictedKeys(rules: seq<Rule>, fingerprint: Fingerprint, ignored: bool, now: nat, other: Fingerprint)
    requires IsTable(rules) && fingerprint.Digest? && other in Keys(Evicted(rules, fingerprint, ignored, now))
    ensures ignored && (other in Keys(rules) || other == fingerprint)
  {
    WhatIsEvicted(rules, fingerprint, ignored, now);
  }

  lemma UnknownMark(items: seq<AuditItem>, fingerprint: Fingerprint, ignored: bool)
    requires SoundItems(items) && !fingerprint.Digest?
    ensures MarkedItems(items, fingerprint, ignored) == items
  {
    forall n | 0 <= n < |items| ensures MarkedItem(fingerprint, ignored)(items[n]) == items[n] {
      assert SoundItem(items[n]);
      assert Mapped(items[n].findings, Marking(fingerprint, ignored)) == items[n].findings;
    }
  }

  /** A rule change keeps flags and table in agreement exactly when no rule it drops from the full table is
      about a finding of the stored audit. */
  lemma ToggleAgreement(site: Site, state: State, fingerprint: Fingerprint, ignored: bool, now: nat)
    requires Invariant(state) && InAgreement(state) && state.audit.Some?
    ensures InAgreement(After(site, state, Toggle(fingerprint, ignored, now)))
       <==> forall p :: p in AllPrints(state.audit.value.items) ==>
              p !in Keys(Evicted(state.rules, fingerprint, ignored, now))
  {
    var items, evicted := state.audit.value.items, Keys(Evicted(state.rules, fingerprint, ignored, now));
    if !fingerprint.Digest? {
      UnknownMark(items, fingerprint, ignored);
    } else {
      var after := Keys(Changed(state.rules, fingerprint, ignored, now));
      forall p ensures p in after <==> if ignored then (p in Keys(state.rules) || p == fingerprint) && p !in evicted
                                       else p in Keys(state.rules) && p != fingerprint
      {
        ChangedKeys(state.rules, fingerprint, ignored, now, p);
      }
      forall p | p in evicted ensures ignored && (p in Keys(state.rules) || p == fingerprint) {
        EvictedKeys(state.rules, fingerprint, ignored, now, p);
      }
      ItemsAgree(items, fingerprint, ignored, Keys(state.rules), after, evicted);
    }
  }

  lemma ItemsAgree(items: seq<AuditItem>, fingerprint: Fingerprint, ignored: bool, before: seq<Fingerprint>,
                   after: seq<Fingerprint>, evicted: seq<Fingerprint>)
    requires SoundItems(items) && Agrees(items, before)
    requires forall p :: p in after <==> if ignored then (p in before || p == fingerprint) && p !in evicted
                                         else p in before && p != fingerprint
    requires forall p :: p in evicted ==> ignored && (p in before || p == fingerprint)
    ensures Agrees(MarkedItems(items, fingerprint, ignored), after)
       <==> forall p :: p in AllPrints(items) ==> p !in evicted
  {
    FlattenedMembers(items, PrintsIn);
    var marked := MarkedItems(items, fingerprint, ignored);
    forall n | 0 <= n < |items|
      ensures AgreesItem(marked[n], after) <==> forall p :: p in PrintsIn(items[n]) ==> p !in evicted
    {
      assert SoundItem(items[n]) && AgreesItem(items[n], before);
      MarkedItemAgrees(items[n], fingerprint, ignored, before, after, evicted);
    }
    if !Agrees(marked, after) {
      var n :| 0 <= n < |items| && !AgreesItem(marked[n], after);
      var p :| p in PrintsIn(items[n]) && p in evicted;
      assert items[n] in items;
      assert p in AllPrints(items);
    }
  }

  /** The step adds no rule to a full table. */
  predicate WithinTable(state: State, step: Step) {
    step.Toggle? && step.ignored && step.fingerprint.Digest? ==>
      |state.rules| < MAX_IGNORED || step.fingerprint in Keys(state.rules)
  }

  predicate StaysWithinTable(site: Site, state: State, steps: seq<Step>)
    decreases |steps|
  {
    steps == [] || (WithinTable(state, steps[0]) && StaysWithinTable(site, After(site, state, steps[0]), steps[1..]))
  }

  lemma StepAgrees(site: Site, state: State, step: Step)
    requires Invariant(state) && InAgreement(state) && WithinTable(state, step)
    ensures InAgreement(After(site, state, step))
  {
    match step
    case Queue(now) =>
    case Run(_, now) => RunAgrees(site, state.audit, state.rules, RowsRead(site, step), now);
    case Abort(message, now) =>
    case Toggle(fingerprint, ignored, now) =>
      if state.audit.Some? {
        if fingerprint.Digest? {
          WhatIsEvicted(state.rules, fingerprint, ignored, now);
        }
        ToggleAgreement(site, state, fingerprint, ignored, now);
      }
  }

  /** As long as no rule is added to a full table, the stored flags agree with the rule table. */
  lemma {:induction false} HistoryAgrees(site: Site, sameUrl: UrlComparison, state: State, steps: seq<Step>)
    requires UsesEngine(site, sameUrl)
    requires Invariant(state) && InAgreement(state) && StaysWithinTable(site, state, steps)
    ensures InAgreement(Final(site, state, steps))
    decreases |steps|
  {
    if steps != [] {
      StepKeeps(site, sameUrl, state, steps[0]);
      StepAgrees(site, state, steps[0]);
      HistoryAgrees(site, sameUrl, After(site, state, steps[0]), steps[1..]);
    }
  }

  /** Both from the start: nothing audited yet, and whatever rules the option holds. */
  lemma FromTheStart(site: Site, sameUrl: UrlComparison, stored: seq<StoredRule>, steps: seq<Step>)
    requires UsesEngine(site, sameUrl) && Distinct(Mapped(stored, StoredKey))
    ensures var start := State(Normalized(stored), None);
            && Invariant(Final(site, start, steps))
            && (StaysWithinTable(site, start, steps) ==> InAgreement(Final(site, start, steps)))
  {
    var start := State(Normalized(stored), None);
    NormalizedIsTable(stored);
    HistoryKeeps(site, sameUrl, start, steps);
    if StaysWithinTable(site, start, steps) {
      HistoryAgrees(site, sameUrl, start, steps);
    }
  }
}
