/** The counters of an audit (LocalAuditEngine.php, summarize): loops on one side, counts on the other. */
module AuditSummary {
  import opened Prelude
  import opened AuditModel

  datatype Counts = Counts(
    totalUrls: nat,
    affectedUrls: nat,
    issueCount: nat,
    ignoredFindings: nat,
    severities: Tally,
    complete: nat)

  datatype Tally = Tally(critical: nat, attention: nat, opportunity: nat, maintenance: nat)

  predicate IsActive(finding: Finding) {
    !finding.ignored
  }

  predicate IsIgnored(finding: Finding) {
    finding.ignored
  }

  predicate IsCritical(finding: Finding) {
    !finding.ignored && finding.severity == Critical
  }

  predicate IsWarning(finding: Finding) {
    !finding.ignored && finding.severity == Warning
  }

  predicate IsOpportunity(finding: Finding) {
    !finding.ignored && finding.severity == Opportunity
  }

  predicate IsMaintenance(finding: Finding) {
    !finding.ignored && finding.severity == Maintenance
  }

  function FindingsOf(item: AuditItem): seq<Finding> {
    item.findings
  }

  function AllFindings(items: seq<AuditItem>): seq<Finding> {
    Flattened(items, FindingsOf)
  }

  predicate IsAffected(item: AuditItem) {
    exists finding :: finding in item.findings && !finding.ignored
  }

  predicate IsComplete(item: AuditItem) {
    forall finding :: finding in item.findings ==> finding.ignored
  }

  /** How many findings of an audit meet a condition. */
  function CountOf(items: seq<AuditItem>, keep: Finding -> bool): nat {
    Count(AllFindings(items), keep)
  }

  function Tallied(findings: seq<Finding>): Tally {
    Tally(Count(findings, IsCritical), Count(findings, IsWarning), Count(findings, IsOpportunity),
          Count(findings, IsMaintenance))
  }

  function Plus(a: Tally, b: Tally): Tally {
    Tally(a.critical + b.critical, a.attention + b.attention, a.opportunity + b.opportunity,
          a.maintenance + b.maintenance)
  }

  /** What the counters of an audit mean. */
  function Summarized(items: seq<AuditItem>): Counts {
    Counts(|items|, Count(items, IsAffected), CountOf(items, IsActive), CountOf(items, IsIgnored),
           Tallied(AllFindings(items)), Count(items, IsComplete))
  }

  // ---------- The loops ----------

  lemma TalliedAppend(findings: seq<Finding>, finding: Finding)
    ensures Tallied(findings + [finding]) == Plus(Tallied(findings), Tallied([finding]))
  {
    TalliedConcat(findings, [finding]);
  }

  lemma TallyParts(all: Tally, a: Tally, b: Tally)
    requires all.critical == a.critical + b.critical && all.attention == a.attention + b.attention
    requires all.opportunity == a.opportunity + b.opportunity && all.maintenance == a.maintenance + b.maintenance
    ensures all == Plus(a, b)
  {
  }

  lemma TalliedConcat(a: seq<Finding>, b: seq<Finding>)
    ensures Tallied(a + b) == Plus(Tallied(a), Tallied(b))
  {
    var all := a + b;
    CountConcat(a, b, IsCritical);
    CountConcat(a, b, IsWarning);
    CountConcat(a, b, IsOpportunity);
    CountConcat(a, b, IsMaintenance);
    TallyParts(Tallied(all), Tallied(a), Tallied(b));
  }

  lemma TalliedActive(findings: seq<Finding>)
    ensures Tallied(Filtered(findings, IsActive)) == Tallied(findings)
  {
    CountFiltered(findings, IsActive, IsCritical);
    CountFiltered(findings, IsActive, IsWarning);
    CountFiltered(findings, IsActive, IsOpportunity);
    CountFiltered(findings, IsActive, IsMaintenance);
  }

  lemma TalliedOne(finding: Finding)
    requires !finding.ignored
    ensures Tallied([finding]) ==
            match finding.severity
            case Critical => Tally(1, 0, 0, 0)
            case Warning => Tally(0, 1, 0, 0)
            case Opportunity => Tally(0, 0, 1, 0)
            case Maintenance => Tally(0, 0, 0, 1)
  {
    assert [finding] == [] + [finding];
    CountAppend([], finding, IsCritical);
    CountAppend([], finding, IsWarning);
    CountAppend([], finding, IsOpportunity);
    CountAppend([], finding, IsMaintenance);
  }

  /** The inner loop: the severities of the active findings of one item, added to the counters. */
  method TallyActive(active: seq<Finding>, start: Tally) returns (tally: Tally)
    requires forall finding :: finding in active ==> !finding.ignored
    ensures tally == Plus(start, Tallied(active))
  {
    tally := start;
    for n := 0 to |active|
      invariant tally == Plus(start, Tallied(active[..n]))
    {
      assert active[..n + 1] == active[..n] + [active[n]];
      TalliedAppend(active[..n], active[n]);
      TalliedOne(active[n]);
      tally := match active[n].severity
        case Critical => tally.(critical := tally.critical + 1)
        case Warning => tally.(attention := tally.attention + 1)
        case Opportunity => tally.(opportunity := tally.opportunity + 1)
        case Maintenance => tally.(maintenance := tally.maintenance + 1);
    }
    assert active[..|active|] == active;
  }

  /** What one more item adds to the counters, `active` being its active findings. */
  function Adding(counts: Counts, findings: nat, active: seq<Finding>): Counts
    requires |active| <= findings
  {
    Counts(
      counts.totalUrls,
      counts.affectedUrls + if active == [] then 0 else 1,
      counts.issueCount + |active|,
      counts.ignoredFindings + (findings - |active|),
      Plus(counts.severities, Tallied(active)),
      counts.complete + if active == [] then 1 else 0)
  }

  lemma CountsParts(after: Counts, before: Counts, findings: nat, active: seq<Finding>)
    requires |active| <= findings && after.totalUrls == before.totalUrls + 1
    requires after.affectedUrls == before.affectedUrls + if active == [] then 0 else 1
    requires after.issueCount == before.issueCount + |active|
    requires after.ignoredFindings == before.ignoredFindings + (findings - |active|)
    requires after.severities == Plus(before.severities, Tallied(active))
    requires after.complete == before.complete + if active == [] then 1 else 0
    ensures after == Adding(before, findings, active).(totalUrls := before.totalUrls + 1)
  {
  }

  lemma SummarizedAppend(items: seq<AuditItem>, item: AuditItem)
    ensures Summarized(items + [item]) ==
            Adding(Summarized(items), |item.findings|, Filtered(item.findings, IsActive)).(totalUrls := |items| + 1)
  {
    FlattenedAppend(items, item, FindingsOf);
    CountConcat(AllFindings(items), item.findings, IsActive);
    CountConcat(AllFindings(items), item.findings, IsIgnored);
    CountSplit(item.findings, IsActive, IsIgnored);
    CountIsLength(item.findings, IsActive);
    TalliedConcat(AllFindings(items), item.findings);
    TalliedActive(item.findings);
    CountAppend(items, item, IsAffected);
    CountAppend(items, item, IsComplete);
    AffectedOrComplete(item);
    CountsParts(Summarized(items + [item]), Summarized(items), |item.findings|, Filtered(item.findings, IsActive));
  }

  lemma AffectedOrComplete(item: AuditItem)
    ensures IsAffected(item) <==> Filtered(item.findings, IsActive) != []
    ensures IsAffected(item) <==> !IsComplete(item)
  {
    var active := Filtered(item.findings, IsActive);
    if active != [] {
      assert active[0] in active;
    }
  }

  method AddItem(item: AuditItem, start: Counts) returns (counts: Counts)
    ensures counts == Adding(start, |item.findings|, Filtered(item.findings, IsActive))
  {
    var active := Filtered(item.findings, IsActive);
    counts := start.(ignoredFindings := start.ignoredFindings + (|item.findings| - |active|));
    if active == [] {
      counts := counts.(complete := counts.complete + 1);
    } else {
      var severities := TallyActive(active, counts.severities);
      counts := counts.(affectedUrls := counts.affectedUrls + 1, issueCount := counts.issueCount + |active|,
                        severities := severities);
    }
  }

  /** The counters of the items seen so far, the number of items being known from the start. */
  ghost predicate CountsFor(counts: Counts, seen: seq<AuditItem>, total: nat) {
    counts == Summarized(seen).(totalUrls := total)
  }

  lemma CountsForNone(total: nat)
    ensures CountsFor(Counts(total, 0, 0, 0, Tally(0, 0, 0, 0), 0), [], total)
  {
  }

  lemma CountsForAppend(counts: Counts, seen: seq<AuditItem>, item: AuditItem, total: nat)
    requires CountsFor(counts, seen, total)
    ensures CountsFor(Adding(counts, |item.findings|, Filtered(item.findings, IsActive)), seen + [item], total)
  {
    SummarizedAppend(seen, item);
  }

  method Summarize(items: seq<AuditItem>) returns (counts: Counts)
    ensures counts == Summarized(items)
  {
    counts := Counts(|items|, 0, 0, 0, Tally(0, 0, 0, 0), 0);
    CountsForNone(|items|);
    assert items[..0] == [];
    for n := 0 to |items|
      invariant CountsFor(counts, items[..n], |items|)
    {
      assert items[..n + 1] == items[..n] + [items[n]];
      CountsForAppend(counts, items[..n], items[n], |items|);
      counts := AddItem(items[n], counts);
    }
    assert items[..|items|] == items;
  }

  // ---------- What the counters add up to ----------

  lemma {:induction false} TalliedTotal(findings: seq<Finding>)
    ensures var t := Tallied(findings);
            t.critical + t.attention + t.opportunity + t.maintenance == Count(findings, IsActive)
  {
    if findings != [] {
      var before, last := findings[..|findings| - 1], findings[|findings| - 1];
      assert findings == before + [last];
      TalliedTotal(before);
    }
  }

  /** Every URL is either affected or complete, every finding either an issue or ignored, and every issue
      is counted under exactly one severity. */
  lemma CountersAddUp(items: seq<AuditItem>)
    ensures var c := Summarized(items);
            && c.affectedUrls + c.complete == c.totalUrls
            && c.issueCount + c.ignoredFindings == |AllFindings(items)|
            && c.severities.critical + c.severities.attention + c.severities.opportunity + c.severities.maintenance
               == c.issueCount
  {
    forall item | item in items ensures IsAffected(item) <==> !IsComplete(item) {
      AffectedOrComplete(item);
    }
    CountSplit(items, IsAffected, IsComplete);
    CountSplit(AllFindings(items), IsActive, IsIgnored);
    TalliedTotal(AllFindings(items));
  }
}
