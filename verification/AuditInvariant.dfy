/** What holds of the stored audit after any run of its operations, and what one operation does to it. */
module AuditInvariant {
  import opened Prelude
  import opened AuditModel
  import opened AuditSummary
  import opened AuditComparison
  import opened AuditStore

  function PrintFor(item: AuditItem): Finding -> Fingerprint {
    (finding: Finding) => FingerprintOf(item.externalId, finding.code)
  }

  function PrintsIn(item: AuditItem): seq<Fingerprint> {
    Mapped(item.findings, PrintFor(item))
  }

  /** The fingerprints of all findings, ignored ones included. */
  function AllPrints(items: seq<AuditItem>): seq<Fingerprint> {
    Flattened(items, PrintsIn)
  }

  /** A stored finding carries its own fingerprint, is labelled ignored exactly when it is, and remembers a
      change only while it is ignored. */
  predicate Sound(item: AuditItem, finding: Finding) {
    && finding.fingerprint == Some(FingerprintOf(item.externalId, finding.code))
    && finding.change.Some? && (finding.ignored <==> finding.change == Some(Ignored))
    && (!finding.ignored ==> finding.previousChange == None)
    && finding.previousChange != Some(Ignored)
  }

  predicate SoundItem(item: AuditItem) {
    forall n :: 0 <= n < |item.findings| ==> Sound(item, item.findings[n])
  }

  predicate SoundItems(items: seq<AuditItem>) {
    forall n :: 0 <= n < |items| ==> SoundItem(items[n])
  }

  /** All counters are what recounting the items gives. */
  predicate Counted(audit: Audit) {
    audit == Recounted(audit, audit.items)
    && |audit.changes.resolved| == Min(audit.changes.resolvedCount, MAX_RESOLVED)
  }

  predicate Coherent(audit: Audit) {
    SoundItems(audit.items) && Counted(audit)
  }

  predicate CoherentOption(stored: Option<Audit>) {
    stored.Some? ==> Coherent(stored.value)
  }

  /** Findings as inspection, the link graph and the rule table leave them. */
  predicate UnlabelledItem(item: AuditItem) {
    forall n :: 0 <= n < |item.findings| ==> item.findings[n].previousChange == None
  }

  predicate Unlabelled(items: seq<AuditItem>) {
    forall n :: 0 <= n < |items| ==> UnlabelledItem(items[n])
  }

  /** No two findings, ignored ones included, have the same fingerprint. */
  predicate PrintsOnce(items: seq<AuditItem>) {
    Distinct(AllPrints(items))
  }

  /** The active findings stored are those stored before, plus the new ones, minus the resolved ones. */
  predicate Balanced(before: seq<AuditItem>, after: Audit) {
    CountOf(after.items, IsActive) == CountOf(before, IsActive) + after.changes.newCount - after.changes.resolvedCount
  }

  // ---------- Counters under a relabelling ----------

  /** The items differ in the labels of their findings only. */
  predicate SameShape(a: AuditItem, b: AuditItem) {
    && a.externalId == b.externalId && |a.findings| == |b.findings|
    && forall n :: 0 <= n < |a.findings| ==>
         && a.findings[n].ignored == b.findings[n].ignored && a.findings[n].severity == b.findings[n].severity
         && a.findings[n].code == b.findings[n].code
  }

  lemma CountSameShape(a: seq<AuditItem>, b: seq<AuditItem>, keep: Finding -> bool)
    requires |a| == |b| && forall n :: 0 <= n < |a| ==> SameShape(a[n], b[n])
    requires forall x: Finding, y: Finding :: x.ignored == y.ignored && x.severity == y.severity ==> keep(x) == keep(y)
    ensures CountOf(a, keep) == CountOf(b, keep)
  {
    forall n | 0 <= n < |a| ensures Count(FindingsOf(a[n]), keep) == Count(FindingsOf(b[n]), keep) {
      CountSame(a[n].findings, b[n].findings, keep, keep);
    }
    FlattenedCountSame(a, b, FindingsOf, FindingsOf, keep, keep);
  }

  lemma AffectedSameShape(a: AuditItem, b: AuditItem)
    requires SameShape(a, b)
    ensures IsAffected(a) == IsAffected(b) && IsComplete(a) == IsComplete(b)
  {
    AffectedOrComplete(a);
    AffectedOrComplete(b);
    CountIsLength(a.findings, IsActive);
    CountIsLength(b.findings, IsActive);
    CountSame(a.findings, b.findings, IsActive, IsActive);
  }

  lemma TalliedSameShape(a: seq<AuditItem>, b: seq<AuditItem>)
    requires |a| == |b| && forall n :: 0 <= n < |a| ==> SameShape(a[n], b[n])
    ensures Tallied(AllFindings(a)) == Tallied(AllFindings(b))
  {
    CountSameShape(a, b, IsCritical);
    CountSameShape(a, b, IsWarning);
    CountSameShape(a, b, IsOpportunity);
    CountSameShape(a, b, IsMaintenance);
  }

  lemma SummarizedSameShape(a: seq<AuditItem>, b: seq<AuditItem>)
    requires |a| == |b| && forall n :: 0 <= n < |a| ==> SameShape(a[n], b[n])
    ensures Summarized(a) == Summarized(b)
  {
    TalliedSameShape(a, b);
    CountSameShape(a, b, IsActive);
    CountSameShape(a, b, IsIgnored);
    forall n | 0 <= n < |a| ensures IsAffected(a[n]) == IsAffected(b[n]) && IsComplete(a[n]) == IsComplete(b[n]) {
      AffectedSameShape(a[n], b[n]);
    }
    CountSame(a, b, IsAffected, IsAffected);
    CountSame(a, b, IsComplete, IsComplete);
  }

  /** `labelled` has as many new and unchanged findings as `active` has unknown and known fingerprints. */
  ghost predicate CountsMatch(labelled: seq<Finding>, active: seq<Fingerprint>, known: seq<Fingerprint>) {
    && Count(labelled, HasChange(New)) == Count(active, NotMemberOf(known))
    && Count(labelled, HasChange(Unchanged)) == Count(active, MemberOf(known))
  }

  lemma CountsMatchStep(labelled: seq<Finding>, active: seq<Fingerprint>, known: seq<Fingerprint>,
                        one: Finding, fingerprint: Fingerprint)
    requires CountsMatch(labelled, active, known) && one.change == Some(LabelOf(one, fingerprint, known))
    ensures CountsMatch(labelled + [one], if one.ignored then active else active + [fingerprint], known)
  {
    CountAppend(labelled, one, HasChange(New));
    CountAppend(labelled, one, HasChange(Unchanged));
    SeenAppend(active, fingerprint, known);
  }

  lemma {:induction false} LabelledCountIn(item: AuditItem, findings: seq<Finding>, known: seq<Fingerprint>)
    ensures CountsMatch(Mapped(findings, Labelling(item, known)), Prints(EntriesFrom(item, findings)), known)
  {
    if findings != [] {
      var before, last := findings[..|findings| - 1], findings[|findings| - 1];
      LabelledCountIn(item, before, known);
      var labelled, one, entry := Mapped(before, Labelling(item, known)), Labelling(item, known)(last),
          EntryOf(item, last);
      CountsMatchStep(labelled, Prints(EntriesFrom(item, before)), known, one, entry.fingerprint);
      assert Mapped(findings, Labelling(item, known)) == labelled + [one];
      PrintsAppend(EntriesFrom(item, before), entry);
    }
  }

  /** What compareFindings counts is what countChange finds in the items it labelled. */
  lemma {:induction false} LabelledCounts(items: seq<AuditItem>, known: seq<Fingerprint>)
    ensures var labelled, active := Labelled(items, known), Prints(Entries(items));
            && CountOf(labelled, HasChange(New)) == Count(active, NotMemberOf(known))
            && CountOf(labelled, HasChange(Unchanged)) == Count(active, MemberOf(known))
  {
    if items != [] {
      var before, last := items[..|items| - 1], items[|items| - 1];
      LabelledCounts(before, known);
      LabelledCountIn(last, last.findings, known);
      assert Labelled(items, known)[..|before|] == Labelled(before, known);
      var findings := LabelledItem(known)(last).findings;
      CountConcat(AllFindings(Labelled(before, known)), findings, HasChange(New));
      CountConcat(AllFindings(Labelled(before, known)), findings, HasChange(Unchanged));
      MappedConcat(Entries(before), EntriesIn(last), PrintOf);
      CountConcat(Prints(Entries(before)), Prints(EntriesIn(last)), NotMemberOf(known));
      CountConcat(Prints(Entries(before)), Prints(EntriesIn(last)), MemberOf(known));
    }
  }

  // ---------- Fingerprints ----------

  lemma {:induction false} PrintsFromWithin(item: AuditItem, findings: seq<Finding>)
    ensures multiset(Prints(EntriesFrom(item, findings))) <= multiset(Mapped(findings, PrintFor(item)))
  {
    if findings != [] {
      var before, last := findings[..|findings| - 1], findings[|findings| - 1];
      PrintsFromWithin(item, before);
      var entry := EntryOf(item, last);
      assert Mapped(findings, PrintFor(item)) == Mapped(before, PrintFor(item)) + [entry.fingerprint];
      if !last.ignored {
        PrintsAppend(EntriesFrom(item, before), entry);
      }
    }
  }

  lemma {:induction false} ActivePrintsWithin(items: seq<AuditItem>)
    ensures multiset(Prints(Entries(items))) <= multiset(AllPrints(items))
  {
    if items != [] {
      var before, last := items[..|items| - 1], items[|items| - 1];
      ActivePrintsWithin(before);
      PrintsFromWithin(last, last.findings);
      MappedConcat(Entries(before), EntriesIn(last), PrintOf);
    }
  }

  lemma DistinctActive(items: seq<AuditItem>)
    requires PrintsOnce(items)
    ensures ActiveDistinct(items)
  {
    ActivePrintsWithin(items);
    DistinctWithin(Prints(Entries(items)), AllPrints(items));
  }

  lemma SamePrints(a: seq<AuditItem>, b: seq<AuditItem>)
    requires |a| == |b|
    requires forall n :: 0 <= n < |a| ==> PrintsIn(a[n]) == PrintsIn(b[n])
    ensures AllPrints(a) == AllPrints(b)
  {
    FlattenedSame(a, b, PrintsIn, PrintsIn);
  }

  // ---------- Every operation keeps the stored audit coherent ----------

  /** Queuing changes neither the findings nor the counters of the audit that stays as the baseline. */
  lemma StartKeepsBaseline(stored: Option<Audit>, now: int)
    requires CoherentOption(stored)
    ensures var started := Started(stored, now);
            && Coherent(started) && started.items == ItemsOf(stored)
            && (stored.Some? ==> started.summary == stored.value.summary && started.changes == stored.value.changes)
  {
    if stored == None {
      NoItems(Started(stored, now));
    }
  }

  lemma NoItems(audit: Audit)
    requires audit.items == [] && audit.summary == EMPTY_SUMMARY && audit.changes == EMPTY_CHANGES
    ensures Coherent(audit)
  {
  }

  lemma FailKeeps(stored: Option<Audit>, error: string, now: int)
    ensures Coherent(Failed(stored, error, now)) && ItemsOf(Some(Failed(stored, error, now))) == []
  {
    NoItems(Failed(stored, error, now));
  }

  lemma LabelledSound(items: seq<AuditItem>, known: seq<Fingerprint>)
    requires Unlabelled(items)
    ensures SoundItems(Labelled(items, known))
  {
    forall n | 0 <= n < |items| ensures SoundItem(LabelledItem(known)(items[n])) {
      LabelledItemSound(items[n], known);
    }
  }

  lemma LabelledItemSound(item: AuditItem, known: seq<Fingerprint>)
    requires UnlabelledItem(item)
    ensures SoundItem(LabelledItem(known)(item))
  {
  }

  lemma LabelledShape(items: seq<AuditItem>, known: seq<Fingerprint>)
    ensures Summarized(Labelled(items, known)) == Summarized(items)
    ensures AllPrints(Labelled(items, known)) == AllPrints(items)
    ensures Entries(Labelled(items, known)) == Entries(items)
  {
    var labelled := Labelled(items, known);
    forall n | 0 <= n < |items|
      ensures SameShape(labelled[n], items[n]) && PrintsIn(labelled[n]) == PrintsIn(items[n])
      ensures EntriesIn(labelled[n]) == EntriesIn(items[n])
    {
      LabelledItemShape(items[n], known);
      LabelledEntries(items[n], items[n].findings, known);
    }
    SummarizedSameShape(labelled, items);
    SamePrints(labelled, items);
    FlattenedSame(labelled, items, EntriesIn, EntriesIn);
  }

  lemma {:induction false} LabelledEntries(item: AuditItem, findings: seq<Finding>, known: seq<Fingerprint>)
    ensures EntriesFrom(LabelledItem(known)(item), Mapped(findings, Labelling(item, known)))
         == EntriesFrom(item, findings)
  {
    if findings != [] {
      var before, last := findings[..|findings| - 1], findings[|findings| - 1];
      LabelledEntries(item, before, known);
      var labelled := Mapped(findings, Labelling(item, known));
      assert labelled[..|before|] == Mapped(before, Labelling(item, known));
      assert EntryOf(LabelledItem(known)(item), labelled[|before|]) == EntryOf(item, last);
    }
  }

  lemma LabelledItemShape(item: AuditItem, known: seq<Fingerprint>)
    ensures var labelled := LabelledItem(known)(item);
            SameShape(labelled, item) && PrintsIn(labelled) == PrintsIn(item)
  {
    assert PrintsIn(LabelledItem(known)(item)) == PrintsIn(item);
  }

  /** Completing with the counters of its items gives a coherent audit, whatever was stored before, in which
      every active finding is new or unchanged. */
  lemma CompleteKeeps(stored: Option<Audit>, items: seq<AuditItem>, now: int)
    requires Unlabelled(items)
    ensures var done := Completed(stored, items, Summarized(items), now);
            && Coherent(done) && AllPrints(done.items) == AllPrints(items)
            && done.changes.newCount + done.changes.unchangedCount == done.summary.counts.issueCount
  {
    var before := ItemsOf(stored);
    var known := Prints(FindingMap(before));
    NewOrUnchanged(before, items);
    LabelledSound(items, known);
    LabelledShape(items, known);
    LabelledCounts(items, known);
  }

  lemma ActiveIsCounted(items: seq<AuditItem>, others: seq<AuditItem>)
    requires Entries(items) == Entries(others)
    ensures CountOf(items, IsActive) == CountOf(others, IsActive)
  {
    ActiveCount(items);
    ActiveCount(others);
  }

  /** Its active findings balance exactly when as many fingerprints repeat among those active before as among
      those of them that are active again. */
  lemma CompletedBalance(stored: Option<Audit>, items: seq<AuditItem>, counts: Counts, now: int)
    ensures var done := Completed(stored, items, counts, now);
            var previous, current := Prints(Entries(ItemsOf(stored))), Prints(Entries(done.items));
            Balanced(ItemsOf(stored), done) <==> Repeats(previous) == Repeats(Filtered(current, MemberOf(previous)))
    ensures ActiveDistinct(items) ==>
              (Balanced(ItemsOf(stored), Completed(stored, items, counts, now)) <==> ActiveDistinct(ItemsOf(stored)))
  {
    var before := ItemsOf(stored);
    var known := Prints(FindingMap(before));
    LabelledShape(items, known);
    ActiveIsCounted(Labelled(items, known), items);
    BalanceExactly(before, items);
    if ActiveDistinct(items) {
      ComparisonBalance(before, items);
    }
  }

  lemma MarkedItemSound(item: AuditItem, fingerprint: Fingerprint, ignored: bool)
    requires SoundItem(item)
    ensures SoundItem(MarkedItem(fingerprint, ignored)(item))
  {
  }

  /** Ignoring and restoring keep it coherent too, whatever fingerprint is named. */
  lemma MarkKeeps(audit: Audit, fingerprint: Fingerprint, ignored: bool)
    requires Coherent(audit)
    ensures Coherent(WithMark(Some(audit), fingerprint, ignored).value)
  {
    var marked := MarkedItems(audit.items, fingerprint, ignored);
    forall n | 0 <= n < |audit.items| ensures SoundItem(marked[n]) {
      MarkedItemSound(audit.items[n], fingerprint, ignored);
    }
  }

  /** They change no fingerprint. */
  lemma MarkedPrints(items: seq<AuditItem>, fingerprint: Fingerprint, ignored: bool)
    ensures AllPrints(MarkedItems(items, fingerprint, ignored)) == AllPrints(items)
  {
    var marked := MarkedItems(items, fingerprint, ignored);
    forall n | 0 <= n < |items| ensures PrintsIn(marked[n]) == PrintsIn(items[n]) {
      assert |PrintsIn(marked[n])| == |PrintsIn(items[n])|;
    }
    SamePrints(marked, items);
  }

  lemma {:induction false} EveryChange(findings: seq<Finding>)
    requires forall n :: 0 <= n < |findings| ==> findings[n].change.Some?
    requires forall n :: 0 <= n < |findings| ==> (findings[n].ignored <==> findings[n].change == Some(Ignored))
    ensures Count(findings, HasChange(New)) + Count(findings, HasChange(Unchanged)) == Count(findings, IsActive)
  {
    if findings != [] {
      var last := findings[|findings| - 1];
      assert last.ignored || last.change.value == New || last.change.value == Unchanged;
      EveryChange(findings[..|findings| - 1]);
    }
  }

  lemma {:induction false} EveryChangeOf(items: seq<AuditItem>)
    requires SoundItems(items)
    ensures CountOf(items, HasChange(New)) + CountOf(items, HasChange(Unchanged)) == CountOf(items, IsActive)
  {
    if items != [] {
      var before, last := items[..|items| - 1], items[|items| - 1];
      assert SoundItem(last);
      assert forall n :: 0 <= n < |last.findings| ==> Sound(last, last.findings[n]);
      EveryChangeOf(before);
      EveryChange(last.findings);
      CountConcat(AllFindings(before), last.findings, HasChange(New));
      CountConcat(AllFindings(before), last.findings, HasChange(Unchanged));
      CountConcat(AllFindings(before), last.findings, IsActive);
    }
  }

  /** What the counters of a coherent audit say of its items. */
  lemma CountersAgree(audit: Audit)
    requires Coherent(audit)
    ensures var c, items := audit.summary.counts, audit.items;
            && audit.summary.newFindings + audit.summary.unchangedFindings == c.issueCount
            && audit.summary.newFindings == audit.changes.newCount
            && audit.summary.unchangedFindings == audit.changes.unchangedCount
            && audit.summary.resolvedFindings == audit.changes.resolvedCount
            && c.totalUrls == |items| == c.affectedUrls + c.complete
            && c.issueCount + c.ignoredFindings == |AllFindings(items)|
            && c.severities.critical + c.severities.attention + c.severities.opportunity + c.severities.maintenance
               == c.issueCount
  {
    EveryChangeOf(audit.items);
    CountersAddUp(audit.items);
  }

  // ---------- Ignoring and restoring ----------

  ghost predicate MatchesMeet(item: AuditItem, fingerprint: Fingerprint, meets: Finding -> bool) {
    forall k :: 0 <= k < |item.findings|
        ==> (item.findings[k].fingerprint == Some(fingerprint) ==> meets(item.findings[k]))
  }

  /** Every finding with this fingerprint meets the condition. */
  ghost predicate AllMatching(items: seq<AuditItem>, fingerprint: Fingerprint, meets: Finding -> bool) {
    forall n :: 0 <= n < |items| ==> MatchesMeet(items[n], fingerprint, meets)
  }

  /** The first rule change, then the second, on every finding. */
  function Twice(fingerprint: Fingerprint, first: bool, second: bool): Finding -> Finding {
    (finding: Finding) => Marked(Marked(finding, fingerprint, first), fingerprint, second)
  }

  lemma MarkedTwice(items: seq<AuditItem>, fingerprint: Fingerprint, first: bool, second: bool, n: nat)
    requires n < |items|
    ensures MarkedItems(MarkedItems(items, fingerprint, first), fingerprint, second)[n]
         == items[n].(findings := Mapped(items[n].findings, Twice(fingerprint, first, second)))
  {
    var once := MarkedItem(fingerprint, first)(items[n]);
    assert Mapped(once.findings, Marking(fingerprint, second))
        == Mapped(items[n].findings, Twice(fingerprint, first, second));
  }

  /** Ignoring a fingerprint that is already ignored changes nothing more. */
  lemma IgnoreIsIdempotent(stored: Option<Audit>, fingerprint: Fingerprint)
    ensures WithMark(WithMark(stored, fingerprint, true), fingerprint, true) == WithMark(stored, fingerprint, true)
  {
    if stored.Some? {
      var items := stored.value.items;
      var once := MarkedItems(items, fingerprint, true);
      forall n | 0 <= n < |items| ensures MarkedItems(once, fingerprint, true)[n] == once[n] {
        MarkedTwice(items, fingerprint, true, true, n);
        assert Mapped(items[n].findings, Twice(fingerprint, true, true)) == once[n].findings;
      }
      assert MarkedItems(once, fingerprint, true) == once;
    }
  }

  lemma ItemKeptByMarks(item: AuditItem, fingerprint: Fingerprint, change: Finding -> Finding, meets: Finding -> bool)
    requires forall k :: 0 <= k < |item.findings| ==>
               (change(item.findings[k]) == item.findings[k]
                <==> (item.findings[k].fingerprint == Some(fingerprint) ==> meets(item.findings[k])))
    ensures item.(findings := Mapped(item.findings, change)) == item <==> MatchesMeet(item, fingerprint, meets)
  {
    var changed := Mapped(item.findings, change);
    assert changed == item.findings <==> forall k :: 0 <= k < |changed| ==> changed[k] == item.findings[k];
  }

  lemma MarkedBack(item: AuditItem, finding: Finding, fingerprint: Fingerprint)
    requires Sound(item, finding) && finding.fingerprint == Some(fingerprint)
    ensures Twice(fingerprint, true, false)(finding) == finding <==> !finding.ignored
    ensures Marked(finding, fingerprint, false) == finding <==> HasChange(Unchanged)(finding)
  {
    assert finding.ignored || finding.change.value == New || finding.change.value == Unchanged;
  }

  lemma ItemMarkedBack(item: AuditItem, fingerprint: Fingerprint)
    requires SoundItem(item)
    ensures item.(findings := Mapped(item.findings, Twice(fingerprint, true, false))) == item
       <==> MatchesMeet(item, fingerprint, IsActive)
    ensures MarkedItem(fingerprint, false)(item) == item <==> MatchesMeet(item, fingerprint, HasChange(Unchanged))
  {
    forall k | 0 <= k < |item.findings| && item.findings[k].fingerprint == Some(fingerprint)
      ensures Twice(fingerprint, true, false)(item.findings[k]) == item.findings[k] <==> IsActive(item.findings[k])
      ensures Marking(fingerprint, false)(item.findings[k]) == item.findings[k]
         <==> HasChange(Unchanged)(item.findings[k])
    {
      MarkedBack(item, item.findings[k], fingerprint);
    }
    ItemKeptByMarks(item, fingerprint, Twice(fingerprint, true, false), IsActive);
    ItemKeptByMarks(item, fingerprint, Marking(fingerprint, false), HasChange(Unchanged));
  }

  /** In a coherent audit, ignoring a fingerprint and then restoring it gives the audit back exactly when
      none of its findings was ignored before. */
  lemma IgnoreThenRestore(audit: Audit, fingerprint: Fingerprint)
    requires Coherent(audit)
    ensures WithMark(WithMark(Some(audit), fingerprint, true), fingerprint, false) == Some(audit)
       <==> AllMatching(audit.items, fingerprint, IsActive)
  {
    var items := audit.items;
    var back := MarkedItems(MarkedItems(items, fingerprint, true), fingerprint, false);
    forall n | 0 <= n < |items| ensures back[n] == items[n] <==> MatchesMeet(items[n], fingerprint, IsActive) {
      assert SoundItem(items[n]);
      MarkedTwice(items, fingerprint, true, false, n);
      ItemMarkedBack(items[n], fingerprint);
    }
    assert back == items <==> AllMatching(audit.items, fingerprint, IsActive);
  }

  /** Restoring a fingerprint leaves a coherent audit alone exactly when all its findings are active and
      unchanged: an active finding that is new is relabelled. */
  lemma RestoreAlone(audit: Audit, fingerprint: Fingerprint)
    requires Coherent(audit)
    ensures WithMark(Some(audit), fingerprint, false) == Some(audit)
       <==> AllMatching(audit.items, fingerprint, HasChange(Unchanged))
  {
    var items := audit.items;
    var restored := MarkedItems(items, fingerprint, false);
    forall n | 0 <= n < |items|
      ensures restored[n] == items[n] <==> MatchesMeet(items[n], fingerprint, HasChange(Unchanged))
    {
      assert SoundItem(items[n]);
      ItemMarkedBack(items[n], fingerprint);
    }
    assert restored == items <==> AllMatching(audit.items, fingerprint, HasChange(Unchanged));
  }
}
