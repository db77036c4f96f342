/** A full rule table whose oldest rule is about a stored finding: the next rule breaks the agreement. */
module AgreementWitness {
  import opened Prelude
  import opened Text
  import Collector
  import opened AuditModel
  import opened AuditStore
  import opened AuditInvariant
  import opened RuleTable
  import opened AuditRun
  import opened AuditHistory

  /** A rule added to a full table evicts the oldest one; when that is about a finding of the stored audit, its
      flag is left behind. */
  lemma LosesAgreement(site: Site, state: State, fingerprint: Fingerprint, now: nat)
    requires Invariant(state) && InAgreement(state) && state.audit.Some? && |state.rules| == MAX_IGNORED
    requires fingerprint.Digest? && fingerprint !in Keys(state.rules) && state.rules[MAX_IGNORED - 1].at < now
    ensures InAgreement(After(site, state, Toggle(fingerprint, true, now)))
       <==> state.rules[MAX_IGNORED - 1].fingerprint !in AllPrints(state.audit.value.items)
  {
    var oldest := state.rules[MAX_IGNORED - 1];
    WhatIsEvicted(state.rules, fingerprint, true, now);
    assert Keys([oldest]) == [oldest.fingerprint];
    ToggleAgreement(site, state, fingerprint, true, now);
  }

  /** The finding with thin content of post number `i`. */
  function PrintOf(i: nat): Fingerprint {
    Digest(Collector.Decimal(i), ThinContent)
  }

  /** The rules of posts 0 up to `n`, post 0 having the newest. */
  function RulesUpTo(n: nat): seq<Rule>
    requires n <= MAX_IGNORED
  {
    seq(n, i requires 0 <= i < n => Rule(PrintOf(i), MAX_IGNORED - i))
  }

  function IgnoredFinding(i: nat): Finding {
    Finding(ThinContent, Opportunity, Some(PrintOf(i)), true, Some(Ignored), None)
  }

  function ThinItem(i: nat): AuditItem {
    AuditItem(Collector.Decimal(i), "", "", [], 0, [IgnoredFinding(i)])
  }

  const NO_AUDIT := Audit(Done, 0, Some(0), None, EMPTY_SUMMARY, [], EMPTY_CHANGES)

  const OLDEST := MAX_IGNORED - 1

  /** 500 rules, and an audit with one finding, about which the oldest of them is. */
  const FULL_STATE := State(RulesUpTo(MAX_IGNORED), Some(Recounted(NO_AUDIT, [ThinItem(OLDEST)])))

  lemma {:induction false} RulesAreTable(n: nat)
    requires n <= MAX_IGNORED
    ensures NewestFirst(RulesUpTo(n)) && Distinct(Keys(RulesUpTo(n)))
    ensures forall i :: i >= n ==> PrintOf(i) !in Keys(RulesUpTo(n))
  {
    if n > 0 {
      RulesAreTable(n - 1);
      var rules := RulesUpTo(n);
      assert rules[..n - 1] == RulesUpTo(n - 1);
      assert Keys(rules) == Keys(RulesUpTo(n - 1)) + [PrintOf(n - 1)];
      forall i | i >= n ensures PrintOf(i) !in Keys(rules) {
        if PrintOf(i) == PrintOf(n - 1) {
          Collector.DecimalInjective(i, n - 1);
        }
      }
    }
  }

  lemma ItemIsSound(i: nat)
    ensures SoundItem(ThinItem(i)) && PrintsIn(ThinItem(i)) == [PrintOf(i)]
  {
    Collector.DecimalIsDigits(i);
    TrimKeeps(Collector.Decimal(i));
  }

  lemma FullStateIsSound()
    ensures Invariant(FULL_STATE) && AllPrints(FULL_STATE.audit.value.items) == [PrintOf(OLDEST)]
  {
    var items := [ThinItem(OLDEST)];
    RulesAreTable(MAX_IGNORED);
    ItemIsSound(OLDEST);
    assert items[..0] == [];
    assert AllPrints(items) == AllPrints([]) + PrintsIn(ThinItem(OLDEST));
  }

  lemma FullStateAgrees()
    ensures InAgreement(FULL_STATE)
  {
    ItemIsSound(OLDEST);
    assert Keys(FULL_STATE.rules)[OLDEST] == PrintOf(OLDEST);
  }

  /** One more rule, and the finding stays flagged without a rule. */
  lemma AgreementIsLost(site: Site)
    ensures Invariant(FULL_STATE) && InAgreement(FULL_STATE)
    ensures !InAgreement(After(site, FULL_STATE, Toggle(PrintOf(MAX_IGNORED), true, MAX_IGNORED)))
  {
    RulesAreTable(MAX_IGNORED);
    FullStateIsSound();
    FullStateAgrees();
    LosesAgreement(site, FULL_STATE, PrintOf(MAX_IGNORED), MAX_IGNORED);
  }

  // ---------- A new finding restored ----------

  function NewFinding(i: nat): Finding {
    Finding(ThinContent, Opportunity, Some(PrintOf(i)), false, Some(New), None)
  }

  function NewItem(i: nat): AuditItem {
    AuditItem(Collector.Decimal(i), "", "", [], 0, [NewFinding(i)])
  }

  lemma NewItemIsSound(i: nat)
    ensures SoundItem(NewItem(i)) && PrintsIn(NewItem(i)) == [PrintOf(i)]
  {
    Collector.DecimalIsDigits(i);
    TrimKeeps(Collector.Decimal(i));
  }

  lemma RecountedIsCoherent(items: seq<AuditItem>)
    requires SoundItems(items)
    ensures Coherent(Recounted(NO_AUDIT, items))
  {
  }

  lemma NewFindingRelabelled(item: AuditItem)
    requires item == NewItem(0)
    ensures MarkedItem(PrintOf(0), false)(item).findings[0].change == Some(Unchanged)
  {
    assert item.findings[0] == NewFinding(0);
  }

  /** Restoring gives another audit, in which the first finding is unchanged. */
  ghost predicate RelabelsFirst(audit: Audit, fingerprint: Fingerprint) {
    var restored := WithMark(Some(audit), fingerprint, false).value;
    && restored != audit && restored.items != [] && restored.items[0].findings != []
    && restored.items[0].findings[0].change == Some(Unchanged)
  }

  lemma RelabelledAlone(audit: Audit, item: AuditItem, fingerprint: Fingerprint)
    requires audit.items == [item] && item.findings != [] && item.findings[0].change != Some(Unchanged)
    requires MarkedItem(fingerprint, false)(item).findings[0].change == Some(Unchanged)
    ensures RelabelsFirst(audit, fingerprint)
  {
    var restored := WithMark(Some(audit), fingerprint, false).value;
    assert restored.items == MarkedItems(audit.items, fingerprint, false);
    assert restored.items[0] == MarkedItem(fingerprint, false)(item);
    assert audit.items[0] == item;
  }

  lemma NewItemRelabels(audit: Audit, item: AuditItem, fingerprint: Fingerprint)
    requires item == NewItem(0) && fingerprint == PrintOf(0) && audit == Recounted(NO_AUDIT, [item])
    ensures Coherent(audit) && RelabelsFirst(audit, fingerprint)
  {
    NewItemIsSound(0);
    RecountedIsCoherent([item]);
    NewFindingRelabelled(item);
    RelabelledAlone(audit, item, fingerprint);
  }

  /** Restoring a finding that is new and not ignored relabels it: the audit stays coherent but is another one. */
  lemma RestoringRelabels(audit: Audit)
    requires audit == Recounted(NO_AUDIT, [NewItem(0)])
    ensures Coherent(audit) && !audit.items[0].findings[0].ignored && audit.items[0].findings[0].change == Some(New)
    ensures RelabelsFirst(audit, PrintOf(0))
  {
    NewItemRelabels(audit, NewItem(0), PrintOf(0));
  }
}
