/**
 * The stored audit (LocalAuditStore.php): its operations, and what its flags and counters say in every
 * state they can reach.
 */
module AuditStore {
  import opened Prelude
  import opened AuditModel
  import opened AuditSummary
  import opened AuditComparison
  import opened ErrorText

  datatype Status = Queued | Done | Failure

  datatype Summary = Summary(counts: Counts, newFindings: nat, resolvedFindings: nat, unchangedFindings: nat)

  datatype Audit = Audit(
    status: Status,
    startedAt: int,
    completedAt: Option<int>,
    error: Option<string>,
    summary: Summary,
    items: seq<AuditItem>,
    changes: Changes)

  const EMPTY_SUMMARY := Summary(Counts(0, 0, 0, 0, Tally(0, 0, 0, 0), 0), 0, 0, 0)

  const EMPTY_CHANGES := Changes(0, 0, 0, [])

  // ---------- The operations ----------

  function ItemsOf(stored: Option<Audit>): seq<AuditItem> {
    if stored.Some? then stored.value.items else []
  }

  function StartedAt(stored: Option<Audit>, now: int): int {
    if stored.Some? then stored.value.startedAt else now
  }

  /** Queuing an audit keeps the last results as the baseline of the next comparison. */
  function Started(stored: Option<Audit>, now: int): Audit {
    match stored
    case Some(audit) => audit.(status := Queued, startedAt := now, error := None)
    case None => Audit(Queued, now, None, None, EMPTY_SUMMARY, [], EMPTY_CHANGES)
  }

  function Completed(stored: Option<Audit>, items: seq<AuditItem>, counts: Counts, now: int): Audit {
    var changes := ChangesBetween(ItemsOf(stored), items);
    Audit(Done, StartedAt(stored, now), Some(now), None,
          Summary(counts, changes.newCount, changes.resolvedCount, changes.unchangedCount),
          Labelled(items, Prints(FindingMap(ItemsOf(stored)))), changes)
  }

  /** A failed audit keeps no results; of the message only its sanitised text is stored. */
  function Failed(stored: Option<Audit>, message: string, now: int): Audit {
    Audit(Failure, StartedAt(stored, now), Some(now), Some(SanitizedError(message)), EMPTY_SUMMARY, [], EMPTY_CHANGES)
  }

  function Active(change: Option<Change>): Option<Change> {
    if change == Some(New) || change == Some(Unchanged) then change else Some(Unchanged)
  }

  /** A finding under a rule change: ignoring remembers the change shown before, restoring shows it again. */
  function Marked(finding: Finding, fingerprint: Fingerprint, ignored: bool): Finding {
    if finding.fingerprint != Some(fingerprint) then finding
    else if ignored then
      finding.(ignored := true, change := Some(Ignored),
               previousChange := if finding.change != Some(Ignored) then Active(finding.change)
                                 else finding.previousChange)
    else
      finding.(ignored := false, change := Active(finding.previousChange), previousChange := None)
  }

  function Marking(fingerprint: Fingerprint, ignored: bool): Finding -> Finding {
    (finding: Finding) => Marked(finding, fingerprint, ignored)
  }

  function MarkedItem(fingerprint: Fingerprint, ignored: bool): AuditItem -> AuditItem {
    (item: AuditItem) => item.(findings := Mapped(item.findings, Marking(fingerprint, ignored)))
  }

  function MarkedItems(items: seq<AuditItem>, fingerprint: Fingerprint, ignored: bool): seq<AuditItem> {
    Mapped(items, MarkedItem(fingerprint, ignored))
  }

  function HasChange(change: Change): Finding -> bool {
    (finding: Finding) => finding.change == Some(change) && !finding.ignored
  }

  /** The audit with all its counters recomputed from these items; the resolved findings are as before. */
  function Recounted(audit: Audit, items: seq<AuditItem>): Audit {
    var added, kept := CountOf(items, HasChange(New)), CountOf(items, HasChange(Unchanged));
    audit.(items := items,
           summary := Summary(Summarized(items), added, audit.changes.resolvedCount, kept),
           changes := audit.changes.(newCount := added, unchangedCount := kept))
  }

  function WithMark(stored: Option<Audit>, fingerprint: Fingerprint, ignored: bool): Option<Audit> {
    match stored
    case Some(audit) => Some(Recounted(audit, MarkedItems(audit.items, fingerprint, ignored)))
    case None => None
  }

  method CountChange(items: seq<AuditItem>, change: Change) returns (count: nat)
    ensures count == CountOf(items, HasChange(change))
  {
    count := 0;
    for n := 0 to |items|
      invariant count == CountOf(items[..n], HasChange(change))
    {
      assert items[..n + 1] == items[..n] + [items[n]];
      FlattenedAppend(items[..n], items[n], FindingsOf);
      CountConcat(AllFindings(items[..n]), items[n].findings, HasChange(change));
      var more := CountIn(items[n].findings, change);
      count := count + more;
    }
    assert items[..|items|] == items;
  }

  method CountIn(findings: seq<Finding>, change: Change) returns (count: nat)
    ensures count == Count(findings, HasChange(change))
  {
    count := 0;
    for n := 0 to |findings|
      invariant count == Count(findings[..n], HasChange(change))
    {
      assert findings[..n + 1] == findings[..n] + [findings[n]];
      CountAppend(findings[..n], findings[n], HasChange(change));
      if findings[n].change == Some(change) && !findings[n].ignored {
        count := count + 1;
      }
    }
    assert findings[..|findings|] == findings;
  }

  class LocalAuditStore {
    var option: Option<Audit>

    constructor ()
      ensures option == None
    {
      option := None;
    }

    method Start(now: int)
      modifies this
      ensures option == Some(Started(old(option), now))
    {
      var current := option;
      option := Some(Audit(
        Queued,
        now,
        if current.Some? then current.value.completedAt else None,
        None,
        if current.Some? then current.value.summary else EMPTY_SUMMARY,
        if current.Some? then current.value.items else [],
        if current.Some? then current.value.changes else EMPTY_CHANGES));
    }

    method Complete(items: seq<AuditItem>, counts: Counts, now: int)
      modifies this
      ensures option == Some(Completed(old(option), items, counts, now))
    {
      var current := option;
      var labelled, changes := CompareFindings(ItemsOf(current), items);
      var summary := Summary(counts, changes.newCount, changes.resolvedCount, changes.unchangedCount);
      var startedAt := if current.Some? then current.value.startedAt else now;
      option := Some(Audit(Done, startedAt, Some(now), None, summary, labelled, changes));
    }

    method Fail(message: string, now: int)
      modifies this
      ensures option == Some(Failed(old(option), message, now))
    {
      var error := SanitizedError(message);
      var startedAt := if option.Some? then option.value.startedAt else now;
      option := Some(Audit(Failure, startedAt, Some(now), Some(error), EMPTY_SUMMARY, [], EMPTY_CHANGES));
    }

    /** The two nested loops of setIgnored edit the matching findings in place. */
    method MarkItem(item: AuditItem, fingerprint: Fingerprint, ignored: bool) returns (marked: AuditItem)
      ensures marked == MarkedItem(fingerprint, ignored)(item)
    {
      var findings := item.findings;
      for n := 0 to |findings|
        invariant |findings| == |item.findings|
        invariant forall k :: 0 <= k < n ==> findings[k] == Marked(item.findings[k], fingerprint, ignored)
        invariant forall k :: n <= k < |findings| ==> findings[k] == item.findings[k]
      {
        var finding := findings[n];
        if finding.fingerprint == Some(fingerprint) {
          finding := finding.(ignored := ignored);
          if ignored {
            if finding.change != Some(Ignored) {
              finding := finding.(previousChange := Active(finding.change));
            }
            finding := finding.(change := Some(Ignored));
          } else {
            finding := finding.(change := Active(finding.previousChange));
            finding := finding.(previousChange := None);
          }
        }
        findings := findings[n := finding];
      }
      assert findings == Mapped(item.findings, Marking(fingerprint, ignored));
      marked := item.(findings := findings);
    }

    method SetIgnored(fingerprint: Fingerprint, ignored: bool)
      modifies this
      ensures option == WithMark(old(option), fingerprint, ignored)
    {
      if option == None {
        return;
      }
      var audit := option.value;
      var items := audit.items;
      for n := 0 to |items|
        invariant |items| == |audit.items|
        invariant forall k :: 0 <= k < n ==> items[k] == MarkedItem(fingerprint, ignored)(audit.items[k])
        invariant forall k :: n <= k < |items| ==> items[k] == audit.items[k]
      {
        var item := MarkItem(items[n], fingerprint, ignored);
        items := items[n := item];
      }
      assert items == MarkedItems(audit.items, fingerprint, ignored);
      var counts := Summarize(items);
      var newFindings := CountChange(items, New);
      var unchangedFindings := CountChange(items, Unchanged);
      var changes := audit.changes;
      var summary := Summary(counts, newFindings, changes.resolvedCount, unchangedFindings);
      changes := changes.(newCount := newFindings, unchangedCount := unchangedFindings);
      option := Some(audit.(items := items, summary := summary, changes := changes));
    }
  }
}
