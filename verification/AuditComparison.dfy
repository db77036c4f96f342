/**
 * Comparing the findings of an audit with those of the audit before it (LocalAuditStore.php, compareFindings
 * and findingMap).
 */
module AuditComparison {
  import opened Prelude
  import opened AuditModel
  import opened AuditSummary

  /** What the finding map keeps of an active finding; its label is fixed by the code. */
  datatype Entry = Entry(fingerprint: Fingerprint, title: string, code: Code, url: string)

  datatype Changes = Changes(newCount: nat, resolvedCount: nat, unchangedCount: nat, resolved: seq<Entry>)

  const MAX_RESOLVED := 100

  // ---------- The active findings of an audit ----------

  function EntryOf(item: AuditItem, finding: Finding): Entry {
    Entry(FingerprintOf(item.externalId, finding.code), item.title, finding.code, item.url)
  }

  /** The entries of those findings of an item that are not ignored. */
  function EntriesFrom(item: AuditItem, findings: seq<Finding>): seq<Entry> {
    if findings == [] then []
    else
      var before, last := EntriesFrom(item, findings[..|findings| - 1]), findings[|findings| - 1];
      if last.ignored then before else before + [EntryOf(item, last)]
  }

  function EntriesIn(item: AuditItem): seq<Entry> {
    EntriesFrom(item, item.findings)
  }

  function Entries(items: seq<AuditItem>): seq<Entry> {
    Flattened(items, EntriesIn)
  }

  function PrintOf(entry: Entry): Fingerprint {
    entry.fingerprint
  }

  function Prints(entries: seq<Entry>): seq<Fingerprint> {
    Mapped(entries, PrintOf)
  }

  function Replacing(entry: Entry): Entry -> Entry {
    (kept: Entry) => if kept.fingerprint == entry.fingerprint then entry else kept
  }

  /** Assigning a key of an ordered array: an existing key keeps its place. */
  function Put(entries: seq<Entry>, entry: Entry): seq<Entry> {
    if entry.fingerprint in Prints(entries) then Mapped(entries, Replacing(entry)) else entries + [entry]
  }

  function PutAll(start: seq<Entry>, entries: seq<Entry>): seq<Entry> {
    if entries == [] then start else Put(PutAll(start, entries[..|entries| - 1]), entries[|entries| - 1])
  }

  function FindingMap(items: seq<AuditItem>): seq<Entry> {
    PutAll([], Entries(items))
  }

  lemma PutAllAppend(start: seq<Entry>, entries: seq<Entry>, entry: Entry)
    ensures PutAll(start, entries + [entry]) == Put(PutAll(start, entries), entry)
  {
    assert (entries + [entry])[..|entries|] == entries;
  }

  lemma {:induction false} PutAllConcat(start: seq<Entry>, a: seq<Entry>, b: seq<Entry>)
    ensures PutAll(start, a + b) == PutAll(PutAll(start, a), b)
  {
    if b == [] {
      assert a + b == a;
    } else {
      var before, last := b[..|b| - 1], b[|b| - 1];
      PutAllConcat(start, a, before);
      assert a + b == (a + before) + [last];
      PutAllAppend(start, a + before, last);
    }
  }

  /** The keys of a finding map do not repeat. */
  lemma {:induction false} MapKeysDistinct(entries: seq<Entry>)
    ensures Prints(PutAll([], entries)) == Unique(Prints(entries))
  {
    if entries != [] {
      var before, last := entries[..|entries| - 1], entries[|entries| - 1];
      MapKeysDistinct(before);
      assert Prints(entries)[..|before|] == Prints(before);
      var kept := PutAll([], before);
      if last.fingerprint in Prints(kept) {
        assert Prints(Put(kept, last)) == Prints(kept);
      } else {
        assert Prints(Put(kept, last)) == Prints(kept) + [last.fingerprint];
      }
    }
  }

  // ---------- Comparing with the audit before ----------

  function LabelOf(finding: Finding, fingerprint: Fingerprint, known: seq<Fingerprint>): Change {
    if finding.ignored then Ignored else if fingerprint in known then Unchanged else New
  }

  function Labelling(item: AuditItem, known: seq<Fingerprint>): Finding -> Finding {
    (finding: Finding) =>
      var fingerprint := FingerprintOf(item.externalId, finding.code);
      finding.(fingerprint := Some(fingerprint), change := Some(LabelOf(finding, fingerprint, known)))
  }

  function LabelledItem(known: seq<Fingerprint>): AuditItem -> AuditItem {
    (item: AuditItem) => item.(findings := Mapped(item.findings, Labelling(item, known)))
  }

  function Labelled(items: seq<AuditItem>, known: seq<Fingerprint>): seq<AuditItem> {
    Mapped(items, LabelledItem(known))
  }

  function IsResolved(current: seq<Fingerprint>): Entry -> bool {
    (entry: Entry) => entry.fingerprint !in current
  }

  function FirstResolved(resolved: seq<Entry>): seq<Entry> {
    resolved[..Min(|resolved|, MAX_RESOLVED)]
  }

  /** A finding of the audit before is resolved when no active finding has its fingerprint any more. */
  function ChangesBetween(before: seq<AuditItem>, items: seq<AuditItem>): Changes {
    var previous, current := FindingMap(before), Prints(Entries(items));
    var resolved := Filtered(previous, IsResolved(current));
    Changes(Count(current, NotMemberOf(Prints(previous))), |resolved|, Count(current, MemberOf(Prints(previous))),
            FirstResolved(resolved))
  }

  lemma EntriesFromPrefix(item: AuditItem, findings: seq<Finding>, n: nat)
    requires n < |findings|
    ensures var before := EntriesFrom(item, findings[..n]);
            EntriesFrom(item, findings[..n + 1])
            == if findings[n].ignored then before else before + [EntryOf(item, findings[n])]
  {
    assert findings[..n + 1][..n] == findings[..n];
  }

  /** `entries` is `start` with the active ones of the first `n` findings put into it. */
  ghost predicate PutSoFar(entries: seq<Entry>, start: seq<Entry>, item: AuditItem, n: nat) {
    n <= |item.findings| && entries == PutAll(start, EntriesFrom(item, item.findings[..n]))
  }

  lemma PutSoFarStep(entries: seq<Entry>, start: seq<Entry>, item: AuditItem, n: nat)
    requires n < |item.findings| && PutSoFar(entries, start, item, n)
    ensures var finding := item.findings[n];
            PutSoFar(if finding.ignored then entries else Put(entries, EntryOf(item, finding)), start, item, n + 1)
  {
    EntriesFromPrefix(item, item.findings, n);
    PutAllAppend(start, EntriesFrom(item, item.findings[..n]), EntryOf(item, item.findings[n]));
  }

  /** The inner loop of findingMap: one item's active findings are put into the map. */
  method PutItem(start: seq<Entry>, item: AuditItem) returns (entries: seq<Entry>)
    ensures entries == PutAll(start, EntriesIn(item))
  {
    entries := start;
    for n := 0 to |item.findings|
      invariant PutSoFar(entries, start, item, n)
    {
      PutSoFarStep(entries, start, item, n);
      if !item.findings[n].ignored {
        entries := Put(entries, EntryOf(item, item.findings[n]));
      }
    }
    assert item.findings[..|item.findings|] == item.findings;
  }

  method CollectEntries(items: seq<AuditItem>) returns (entries: seq<Entry>)
    ensures entries == FindingMap(items)
  {
    entries := [];
    for n := 0 to |items|
      invariant entries == FindingMap(items[..n])
    {
      assert items[..n + 1] == items[..n] + [items[n]];
      FlattenedAppend(items[..n], items[n], EntriesIn);
      PutAllConcat([], Entries(items[..n]), EntriesIn(items[n]));
      entries := PutItem(entries, items[n]);
    }
    assert items[..|items|] == items;
  }

  /** The counters of a comparison: the active fingerprints met so far, those not known before, those known. */
  datatype Seen = Seen(active: seq<Fingerprint>, newCount: nat, unchangedCount: nat)

  function SeenOf(active: seq<Fingerprint>, known: seq<Fingerprint>): Seen {
    Seen(active, Count(active, NotMemberOf(known)), Count(active, MemberOf(known)))
  }

  lemma SeenAppend(active: seq<Fingerprint>, fingerprint: Fingerprint, known: seq<Fingerprint>)
    ensures var before := SeenOf(active, known);
            SeenOf(active + [fingerprint], known)
            == if fingerprint in known
               then Seen(active + [fingerprint], before.newCount, before.unchangedCount + 1)
               else Seen(active + [fingerprint], before.newCount + 1, before.unchangedCount)
  {
    CountAppend(active, fingerprint, NotMemberOf(known));
    CountAppend(active, fingerprint, MemberOf(known));
  }

  lemma PrintsAppend(entries: seq<Entry>, entry: Entry)
    ensures Prints(entries + [entry]) == Prints(entries) + [entry.fingerprint]
  {
  }

  /** The first `n` findings of an item are labelled, the others as they were. */
  ghost predicate LabelledSoFar(findings: seq<Finding>, item: AuditItem, known: seq<Fingerprint>, n: nat) {
    && n <= |item.findings| == |findings|
    && (forall k :: 0 <= k < n ==> findings[k] == Labelling(item, known)(item.findings[k]))
    && (forall k :: n <= k < |findings| ==> findings[k] == item.findings[k])
  }

  ghost predicate SeenSoFar(seen: Seen, start: seq<Fingerprint>, item: AuditItem, known: seq<Fingerprint>, n: nat) {
    n <= |item.findings| && seen == SeenOf(start + Prints(EntriesFrom(item, item.findings[..n])), known)
  }

  function SeenNext(seen: Seen, fingerprint: Fingerprint, known: seq<Fingerprint>): Seen {
    if fingerprint in known then Seen(seen.active + [fingerprint], seen.newCount, seen.unchangedCount + 1)
    else Seen(seen.active + [fingerprint], seen.newCount + 1, seen.unchangedCount)
  }

  lemma SeenSoFarStep(seen: Seen, start: seq<Fingerprint>, item: AuditItem, known: seq<Fingerprint>, n: nat)
    requires n < |item.findings| && SeenSoFar(seen, start, item, known, n)
    ensures var finding := item.findings[n];
            SeenSoFar(if finding.ignored then seen
                      else SeenNext(seen, FingerprintOf(item.externalId, finding.code), known),
                      start, item, known, n + 1)
  {
    var finding := item.findings[n];
    EntriesFromPrefix(item, item.findings, n);
    var entries, entry := EntriesFrom(item, item.findings[..n]), EntryOf(item, finding);
    if !finding.ignored {
      PrintsAppend(entries, entry);
      ConcatAssociates(start, Prints(entries), [entry.fingerprint]);
      SeenAppend(start + Prints(entries), entry.fingerprint, known);
    }
  }

  /** The inner loop of compareFindings: one item's findings are labelled in place and counted. */
  method LabelItem(item: AuditItem, known: seq<Fingerprint>, start: Seen) returns (labelled: AuditItem, seen: Seen)
    requires start == SeenOf(start.active, known)
    ensures labelled == LabelledItem(known)(item)
    ensures seen == SeenOf(start.active + Prints(EntriesIn(item)), known)
  {
    var findings := item.findings;
    seen := start;
    assert start.active + [] == start.active;
    for n := 0 to |item.findings|
      invariant LabelledSoFar(findings, item, known, n)
      invariant SeenSoFar(seen, start.active, item, known, n)
    {
      SeenSoFarStep(seen, start.active, item, known, n);
      var fingerprint := FingerprintOf(item.externalId, findings[n].code);
      if !findings[n].ignored {
        seen := SeenNext(seen, fingerprint, known);
      }
      findings := findings[n := Labelling(item, known)(findings[n])];
    }
    assert item.findings[..|item.findings|] == item.findings;
    assert findings == Mapped(item.findings, Labelling(item, known));
    labelled := item.(findings := findings);
  }

  /** The first `n` items are labelled, the others as they were. */
  ghost predicate ItemsLabelled(labelled: seq<AuditItem>, items: seq<AuditItem>, known: seq<Fingerprint>, n: nat) {
    && n <= |items| == |labelled|
    && (forall k :: 0 <= k < n ==> labelled[k] == LabelledItem(known)(items[k]))
    && (forall k :: n <= k < |items| ==> labelled[k] == items[k])
  }

  ghost predicate ItemsSeen(seen: Seen, items: seq<AuditItem>, known: seq<Fingerprint>, n: nat) {
    n <= |items| && seen == SeenOf(Prints(Entries(items[..n])), known)
  }

  lemma ItemsSeenStep(seen: Seen, after: Seen, items: seq<AuditItem>, known: seq<Fingerprint>, n: nat)
    requires n < |items| && ItemsSeen(seen, items, known, n)
    requires after == SeenOf(seen.active + Prints(EntriesIn(items[n])), known)
    ensures ItemsSeen(after, items, known, n + 1)
  {
    assert items[..n + 1] == items[..n] + [items[n]];
    FlattenedAppend(items[..n], items[n], EntriesIn);
    MappedConcat(Entries(items[..n]), EntriesIn(items[n]), PrintOf);
  }

  method LabelItems(items: seq<AuditItem>, known: seq<Fingerprint>) returns (labelled: seq<AuditItem>, seen: Seen)
    ensures labelled == Labelled(items, known)
    ensures seen == SeenOf(Prints(Entries(items)), known)
  {
    labelled, seen := items, Seen([], 0, 0);
    for n := 0 to |items|
      invariant ItemsLabelled(labelled, items, known, n)
      invariant ItemsSeen(seen, items, known, n)
    {
      var item, after := LabelItem(labelled[n], known, seen);
      ItemsSeenStep(seen, after, items, known, n);
      seen := after;
      labelled := labelled[n := item];
    }
    assert items[..|items|] == items;
    assert labelled == Mapped(items, LabelledItem(known));
  }

  method CompareFindings(before: seq<AuditItem>, items: seq<AuditItem>)
    returns (labelled: seq<AuditItem>, changes: Changes)
    ensures labelled == Labelled(items, Prints(FindingMap(before)))
    ensures changes == ChangesBetween(before, items)
  {
    var previous := CollectEntries(before);
    var seen;
    labelled, seen := LabelItems(items, Prints(previous));
    var resolved := Resolve(previous, seen.active);
    changes := Changes(seen.newCount, |resolved|, seen.unchangedCount, FirstResolved(resolved));
  }

  method Resolve(previous: seq<Entry>, current: seq<Fingerprint>) returns (resolved: seq<Entry>)
    ensures resolved == Filtered(previous, IsResolved(current))
  {
    resolved := [];
    for n := 0 to |previous|
      invariant resolved == Filtered(previous[..n], IsResolved(current))
    {
      FilteredPrefix(previous, n, IsResolved(current));
      if previous[n].fingerprint !in current {
        resolved := resolved + [previous[n]];
      }
    }
    assert previous[..|previous|] == previous;
  }

  // ---------- The balance of a comparison ----------

  lemma {:induction false} EntriesCount(item: AuditItem, findings: seq<Finding>)
    ensures |EntriesFrom(item, findings)| == Count(findings, IsActive)
  {
    if findings != [] {
      EntriesCount(item, findings[..|findings| - 1]);
    }
  }

  lemma {:induction false} ActiveCount(items: seq<AuditItem>)
    ensures |Entries(items)| == CountOf(items, IsActive)
  {
    if items != [] {
      var before, last := items[..|items| - 1], items[|items| - 1];
      ActiveCount(before);
      EntriesCount(last, last.findings);
      CountConcat(AllFindings(before), last.findings, IsActive);
    }
  }

  /** No two active findings of an audit have the same fingerprint. */
  predicate ActiveDistinct(items: seq<AuditItem>) {
    Distinct(Prints(Entries(items)))
  }

  lemma {:induction false} ResolvedCount(entries: seq<Entry>, current: seq<Fingerprint>)
    ensures |Filtered(entries, IsResolved(current))| == Count(Prints(entries), NotMemberOf(current))
  {
    if entries != [] {
      var before, last := entries[..|entries| - 1], entries[|entries| - 1];
      ResolvedCount(before, current);
      assert Prints(entries)[..|before|] == Prints(before);
    }
  }

  /** The resolved findings are listed, at most 100 of them; what is listed was active before and is not any more. */
  lemma ResolvedListed(before: seq<AuditItem>, items: seq<AuditItem>)
    ensures var changes := ChangesBetween(before, items);
            && |changes.resolved| == (if changes.resolvedCount <= 100 then changes.resolvedCount else 100)
            && forall entry :: entry in changes.resolved ==>
                 && entry.fingerprint in Prints(Entries(before)) && entry.fingerprint !in Prints(Entries(items))
  {
    var previous, current := FindingMap(before), Prints(Entries(items));
    var resolved := Filtered(previous, IsResolved(current));
    MapKeysDistinct(Entries(before));
    forall entry | entry in FirstResolved(resolved)
      ensures entry.fingerprint in Prints(Entries(before)) && entry.fingerprint !in current
    {
      assert entry in resolved;
      var n :| 0 <= n < |previous| && previous[n] == entry;
      assert Prints(previous)[n] == entry.fingerprint;
    }
  }

  /** Every active finding is counted as new or as unchanged. */
  lemma NewOrUnchanged(before: seq<AuditItem>, items: seq<AuditItem>)
    ensures var changes := ChangesBetween(before, items);
            changes.newCount + changes.unchangedCount == CountOf(items, IsActive)
  {
    var known, current := Prints(FindingMap(before)), Prints(Entries(items));
    ActiveCount(items);
    CountSplit(current, MemberOf(known), NotMemberOf(known));
  }

  lemma {:induction false} UnchangedPrints(current: seq<Fingerprint>, known: seq<Fingerprint>,
                                           others: seq<Fingerprint>)
    requires forall p :: p in known <==> p in others
    ensures Count(current, MemberOf(known)) == |Filtered(current, MemberOf(others))|
  {
    CountSame(current, current, MemberOf(known), MemberOf(others));
    CountIsLength(current, MemberOf(others));
  }

  /** Every fingerprint known before is either resolved or met again. */
  lemma ResolvedOrMetAgain(known: seq<Fingerprint>, again: seq<Fingerprint>, current: seq<Fingerprint>)
    requires Distinct(known) && Distinct(again)
    requires forall p :: p in again <==> p in current && p in known
    ensures Count(known, NotMemberOf(current)) == |known| - |again|
  {
    CountSplit(known, MemberOf(current), NotMemberOf(current));
    CountSame(known, known, MemberOf(current), MemberOf(again));
    CommonMembers(known, again);
    CountSplit(again, MemberOf(known), NotMemberOf(known));
    CountNone(again, NotMemberOf(known));
  }

  /** Active findings after a comparison are those before, plus the new ones, minus the resolved ones. */
  predicate Balances(before: seq<AuditItem>, items: seq<AuditItem>) {
    var changes := ChangesBetween(before, items);
    CountOf(items, IsActive) == CountOf(before, IsActive) + changes.newCount - changes.resolvedCount
  }

  /** Whatever is compared, the active findings balance exactly when as many fingerprints repeat among those
      before as among those of them met again. */
  lemma BalanceExactly(before: seq<AuditItem>, items: seq<AuditItem>)
    ensures var previous, current := Prints(Entries(before)), Prints(Entries(items));
            Balances(before, items) <==> Repeats(previous) == Repeats(Filtered(current, MemberOf(previous)))
  {
    var previous, current := Prints(Entries(before)), Prints(Entries(items));
    MapKeysDistinct(Entries(before));
    ActiveCount(before);
    ActiveCount(items);
    NewOrUnchanged(before, items);
    ResolvedCount(FindingMap(before), current);
    ResolvedOrMetAgain(Unique(previous), Unique(Filtered(current, MemberOf(previous))), current);
    UnchangedPrints(current, Unique(previous), previous);
  }

  /** So against an audit without repeated active fingerprints they balance exactly when there were none before. */
  lemma ComparisonBalance(before: seq<AuditItem>, items: seq<AuditItem>)
    requires ActiveDistinct(items)
    ensures Balances(before, items) <==> ActiveDistinct(before)
  {
    BalanceExactly(before, items);
    FilteredDistinct(Prints(Entries(items)), MemberOf(Prints(Entries(before))));
  }
}
