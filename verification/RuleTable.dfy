/** The table of ignored findings (LocalAuditSettings.php): at most 500 rules, newest first. */
module RuleTable {
  import opened Prelude
  import opened Sorting
  import opened AuditModel

  datatype Rule = Rule(fingerprint: Fingerprint, at: int)

  /** A rule as the stored option may hold it: any key, and a timestamp that may not be a number. */
  datatype StoredRule = StoredRule(key: Fingerprint, timestamp: Option<int>)

  const MAX_IGNORED := 500

  function KeyOf(rule: Rule): Fingerprint {
    rule.fingerprint
  }

  function Keys(rules: seq<Rule>): seq<Fingerprint> {
    Mapped(rules, KeyOf)
  }

  // ---------- Sorting by time, newest first ----------

  predicate NotOlder(x: Rule, y: Rule) {
    x.at >= y.at
  }

  predicate NewestFirst(rules: seq<Rule>) {
    Ordered(rules, NotOlder)
  }

  /** arsort: descending by time, rules of equal age in their order. */
  function Sorted(rules: seq<Rule>): seq<Rule> {
    Sort(rules, NotOlder)
  }

  lemma KeysAppend(rules: seq<Rule>, rule: Rule)
    ensures Keys(rules + [rule]) == Keys(rules) + [rule.fingerprint]
  {
  }

  lemma SortedIsSorted(rules: seq<Rule>)
    ensures NewestFirst(Sorted(rules)) && multiset(Sorted(rules)) == multiset(rules) && |Sorted(rules)| == |rules|
    ensures multiset(Keys(Sorted(rules))) == multiset(Keys(rules))
  {
    SortIsOrdered(rules, NotOlder);
    SortMembers(rules, NotOlder);
    MappedMultiset(Sorted(rules), rules, KeyOf);
  }

  // ---------- Reading the table ----------

  predicate WellFormed(rule: StoredRule) {
    rule.key.Digest?
  }

  function Read(rule: StoredRule): Rule {
    Rule(rule.key, if rule.timestamp.Some? then Max(0, rule.timestamp.value) else 0)
  }

  function Bounded(rules: seq<Rule>): seq<Rule> {
    rules[..Min(|rules|, MAX_IGNORED)]
  }

  function ReadRules(stored: seq<StoredRule>): seq<Rule> {
    if stored == [] then []
    else
      var before, last := ReadRules(stored[..|stored| - 1]), stored[|stored| - 1];
      if WellFormed(last) then before + [Read(last)] else before
  }

  /** A digest is read with its time, or with 0 when that is negative or no number; other keys are left out. */
  lemma RuleRead(stored: seq<StoredRule>, rule: StoredRule)
    ensures var at := if rule.timestamp.Some? && rule.timestamp.value > 0 then rule.timestamp.value else 0;
            ReadRules(stored + [rule]) == ReadRules(stored) + if rule.key.Digest? then [Rule(rule.key, at)] else []
  {
    assert (stored + [rule])[..|stored|] == stored;
  }

  /** Everything well formed in the stored option, before the bound. */
  function ReadAll(stored: seq<StoredRule>): seq<Rule> {
    Sorted(ReadRules(stored))
  }

  function Normalized(stored: seq<StoredRule>): seq<Rule> {
    Bounded(ReadAll(stored))
  }

  // ---------- Changing the table ----------

  function Refreshing(fingerprint: Fingerprint, now: nat): Rule -> Rule {
    (rule: Rule) => if rule.fingerprint == fingerprint then Rule(fingerprint, now) else rule
  }

  /** Assigning a key of an ordered array. */
  function Assigned(rules: seq<Rule>, fingerprint: Fingerprint, now: nat): seq<Rule> {
    if fingerprint in Keys(rules) then Mapped(rules, Refreshing(fingerprint, now)) else rules + [Rule(fingerprint, now)]
  }

  function Without(rules: seq<Rule>, fingerprint: Fingerprint): seq<Rule> {
    if rules == [] then []
    else
      var rest := Without(rules[..|rules| - 1], fingerprint);
      if rules[|rules| - 1].fingerprint == fingerprint then rest else rest + [rules[|rules| - 1]]
  }

  function Changed(rules: seq<Rule>, fingerprint: Fingerprint, ignored: bool, now: nat): seq<Rule> {
    if !fingerprint.Digest? then rules
    else if ignored then Bounded(Sorted(Assigned(rules, fingerprint, now)))
    else Without(rules, fingerprint)
  }

  /** The rules a change drops because of the bound. */
  function Evicted(rules: seq<Rule>, fingerprint: Fingerprint, ignored: bool, now: nat): seq<Rule> {
    if fingerprint.Digest? && ignored then
      BeyondBound(Sorted(Assigned(rules, fingerprint, now)))
    else []
  }

  function BeyondBound(rules: seq<Rule>): seq<Rule> {
    rules[Min(|rules|, MAX_IGNORED)..]
  }

  function Storing(rule: Rule): StoredRule {
    StoredRule(rule.fingerprint, Some(rule.at))
  }

  class LocalAuditSettings {
    var stored: seq<StoredRule>

    constructor (stored: seq<StoredRule>)
      ensures this.stored == stored
    {
      this.stored := stored;
    }

    /** normalizeIgnored: the loop keeps the well formed rules. */
    method Get() returns (rules: seq<Rule>)
      ensures rules == Normalized(stored)
    {
      rules := [];
      for n := 0 to |stored|
        invariant rules == ReadRules(stored[..n])
      {
        assert stored[..n + 1][..n] == stored[..n];
        if stored[n].key.Digest? {
          rules := rules + [Read(stored[n])];
        }
      }
      assert stored[..|stored|] == stored;
      rules := Bounded(Sorted(rules));
    }

    method SetIgnored(fingerprint: Fingerprint, ignored: bool, now: nat)
      modifies this
      ensures stored == if fingerprint.Digest?
                        then Mapped(Changed(Normalized(old(stored)), fingerprint, ignored, now), Storing)
                        else old(stored)
    {
      if !fingerprint.Digest? {
        return;
      }
      var rules := Get();
      if ignored {
        rules := Assigned(rules, fingerprint, now);
        rules := Sorted(rules);
        rules := Bounded(rules);
      } else {
        rules := Without(rules, fingerprint);
      }
      stored := Mapped(rules, Storing);
    }
  }

  // ---------- What every table satisfies ----------

  predicate ValidRule(rule: Rule) {
    rule.fingerprint.Digest? && rule.at >= 0
  }

  predicate IsTable(rules: seq<Rule>) {
    && |rules| <= MAX_IGNORED && NewestFirst(rules) && Distinct(Keys(rules))
    && forall rule :: rule in rules ==> ValidRule(rule)
  }

  lemma BoundedKeepsNewest(rules: seq<Rule>, kept: Rule, dropped: Rule)
    requires NewestFirst(rules) && kept in Bounded(rules) && dropped in rules[|Bounded(rules)|..]
    ensures kept.at >= dropped.at
  {
    var n := |Bounded(rules)|;
    var i :| 0 <= i < n && rules[..n][i] == kept;
    var j :| 0 <= j < |rules| - n && rules[n..][j] == dropped;
    OrderedPairs(rules, NotOlder, i, n + j);
  }

  lemma BoundedIsTable(rules: seq<Rule>)
    requires NewestFirst(rules) && Distinct(Keys(rules)) && forall rule :: rule in rules ==> ValidRule(rule)
    ensures IsTable(Bounded(rules))
  {
    var n := |Bounded(rules)|;
    OrderedPrefix(rules, NotOlder, n);
    assert Keys(rules)[..n] == Keys(rules[..n]);
    DistinctPrefix(Keys(rules), n);
  }

  lemma SortedIsValid(rules: seq<Rule>)
    requires Distinct(Keys(rules)) && forall rule :: rule in rules ==> ValidRule(rule)
    ensures NewestFirst(Sorted(rules)) && Distinct(Keys(Sorted(rules)))
    ensures forall rule :: rule in Sorted(rules) ==> ValidRule(rule)
  {
    SortedIsSorted(rules);
    DistinctWithin(Keys(Sorted(rules)), Keys(rules));
    forall rule | rule in Sorted(rules) ensures ValidRule(rule) {
      assert rule in multiset(Sorted(rules));
      assert rule in rules;
    }
  }

  function StoredKey(rule: StoredRule): Fingerprint {
    rule.key
  }

  lemma {:induction false} ReadKeys(stored: seq<StoredRule>)
    ensures multiset(Keys(ReadRules(stored))) <= multiset(Mapped(stored, StoredKey))
    ensures forall rule :: rule in ReadRules(stored) ==> ValidRule(rule)
  {
    if stored != [] {
      var before, last := stored[..|stored| - 1], stored[|stored| - 1];
      ReadKeys(before);
      assert Mapped(stored, StoredKey) == Mapped(before, StoredKey) + [last.key];
      if WellFormed(last) {
        KeysAppend(ReadRules(before), Read(last));
      }
    }
  }

  /** Whatever the option holds under its (distinct) keys, reading it gives a table, and no rule left out by
      the bound is newer than one that is kept. */
  lemma NormalizedIsTable(stored: seq<StoredRule>)
    requires Distinct(Mapped(stored, StoredKey))
    ensures IsTable(Normalized(stored))
    ensures forall kept, dropped :: kept in Normalized(stored) && dropped in ReadAll(stored)[|Normalized(stored)|..]
              ==> kept.at >= dropped.at
  {
    ReadKeys(stored);
    DistinctWithin(Keys(ReadRules(stored)), Mapped(stored, StoredKey));
    SortedIsValid(ReadRules(stored));
    BoundedIsTable(ReadAll(stored));
    forall kept, dropped | kept in Normalized(stored) && dropped in ReadAll(stored)[|Normalized(stored)|..]
      ensures kept.at >= dropped.at
    {
      BoundedKeepsNewest(ReadAll(stored), kept, dropped);
    }
  }

  lemma {:induction false} RulesReadBack(rules: seq<Rule>)
    requires forall rule :: rule in rules ==> ValidRule(rule)
    ensures ReadRules(Mapped(rules, Storing)) == rules
  {
    if rules != [] {
      var before, last := rules[..|rules| - 1], rules[|rules| - 1];
      RulesReadBack(before);
      assert Mapped(rules, Storing)[..|before|] == Mapped(before, Storing);
      assert ValidRule(last);
    }
  }

  /** Saving a table and reading it gives the table back. */
  lemma TableReadsBack(rules: seq<Rule>)
    requires IsTable(rules)
    ensures Normalized(Mapped(rules, Storing)) == rules
  {
    RulesReadBack(rules);
    SortKeeps(rules, NotOlder);
  }

  // ---------- What a change does ----------

  lemma AssignedIsValid(rules: seq<Rule>, fingerprint: Fingerprint, now: nat)
    requires IsTable(rules) && fingerprint.Digest?
    ensures var all := Assigned(rules, fingerprint, now);
            && Distinct(Keys(all)) && (forall rule :: rule in all ==> ValidRule(rule))
            && Keys(all) == if fingerprint in Keys(rules) then Keys(rules) else Keys(rules) + [fingerprint]
  {
    var all := Assigned(rules, fingerprint, now);
    forall rule | rule in all ensures ValidRule(rule) {
      var i :| 0 <= i < |all| && all[i] == rule;
      assert i < |rules| ==> ValidRule(rules[i]);
    }
    if fingerprint in Keys(rules) {
      assert Keys(all) == Keys(rules);
    } else {
      KeysAppend(rules, Rule(fingerprint, now));
      assert (Keys(rules) + [fingerprint])[..|rules|] == Keys(rules);
    }
  }

  /** A change keeps the table valid. */
  lemma ChangedIsTable(rules: seq<Rule>, fingerprint: Fingerprint, ignored: bool, now: nat)
    requires IsTable(rules)
    ensures IsTable(Changed(rules, fingerprint, ignored, now))
  {
    if fingerprint.Digest? {
      if ignored {
        AssignedIsValid(rules, fingerprint, now);
        SortedIsValid(Assigned(rules, fingerprint, now));
        BoundedIsTable(Sorted(Assigned(rules, fingerprint, now)));
      } else {
        WithoutMembers(rules, fingerprint);
        WithoutKeepsOrder(rules, fingerprint);
        DistinctWithin(Keys(Without(rules, fingerprint)), Keys(rules));
      }
    }
  }

  /** No change drops a rule newer than one it keeps. */
  lemma EvictsOldest(rules: seq<Rule>, fingerprint: Fingerprint, ignored: bool, now: nat, kept: Rule, dropped: Rule)
    requires IsTable(rules)
    requires kept in Changed(rules, fingerprint, ignored, now) && dropped in Evicted(rules, fingerprint, ignored, now)
    ensures kept.at >= dropped.at
  {
    AssignedIsValid(rules, fingerprint, now);
    SortedIsValid(Assigned(rules, fingerprint, now));
    BoundedKeepsNewest(Sorted(Assigned(rules, fingerprint, now)), kept, dropped);
  }

  lemma {:induction false} WithoutMembers(rules: seq<Rule>, fingerprint: Fingerprint)
    ensures forall rule :: rule in Without(rules, fingerprint) <==> rule in rules && rule.fingerprint != fingerprint
    ensures multiset(Keys(Without(rules, fingerprint))) <= multiset(Keys(rules))
    ensures |Without(rules, fingerprint)| <= |rules|
  {
    if rules != [] {
      var before, last := rules[..|rules| - 1], rules[|rules| - 1];
      assert rules == before + [last];
      WithoutMembers(before, fingerprint);
      KeysAppend(before, last);
      KeysAppend(Without(before, fingerprint), last);
    }
  }

  lemma {:induction false} WithoutKeepsOrder(rules: seq<Rule>, fingerprint: Fingerprint)
    requires NewestFirst(rules)
    ensures var rest := Without(rules, fingerprint);
            NewestFirst(rest) && (rest != [] ==> rules != [] && rest[|rest| - 1].at >= rules[|rules| - 1].at)
  {
    if rules != [] {
      var before, last := rules[..|rules| - 1], rules[|rules| - 1];
      WithoutKeepsOrder(before, fingerprint);
      var rest := Without(before, fingerprint);
      assert (rest + [last])[..|rest|] == rest;
      assert before != [] ==> before[|before| - 1].at >= last.at;
    }
  }

  lemma SortedKeys(rules: seq<Rule>, fingerprint: Fingerprint)
    ensures fingerprint in Keys(Sorted(rules)) <==> fingerprint in Keys(rules)
  {
    SortedIsSorted(rules);
    assert fingerprint in multiset(Keys(Sorted(rules))) <==> fingerprint in multiset(Keys(rules));
  }

  lemma {:induction false} DistinctApart(a: seq<Fingerprint>, b: seq<Fingerprint>, fingerprint: Fingerprint)
    requires Distinct(a + b)
    ensures !(fingerprint in a && fingerprint in b)
  {
    DistinctOccursOnce(a + b, fingerprint);
    assert multiset(a + b)[fingerprint] == multiset(a)[fingerprint] + multiset(b)[fingerprint];
  }

  lemma BoundedKeys(rules: seq<Rule>, other: Fingerprint)
    requires Distinct(Keys(rules))
    ensures other in Keys(Bounded(rules)) <==> other in Keys(rules) && other !in Keys(BeyondBound(rules))
  {
    var kept, dropped := Bounded(rules), BeyondBound(rules);
    assert rules == kept + dropped;
    MappedConcat(kept, dropped, KeyOf);
    DistinctApart(Keys(kept), Keys(dropped), other);
  }

  /** Which fingerprints a change leaves in the table. */
  lemma ChangedKeys(rules: seq<Rule>, fingerprint: Fingerprint, ignored: bool, now: nat, other: Fingerprint)
    requires IsTable(rules) && fingerprint.Digest?
    ensures other in Keys(Changed(rules, fingerprint, ignored, now))
       <==> if ignored
            then (other in Keys(rules) || other == fingerprint)
                && other !in Keys(Evicted(rules, fingerprint, ignored, now))
            else other in Keys(rules) && other != fingerprint
  {
    if ignored {
      var unsorted := Assigned(rules, fingerprint, now);
      AssignedIsValid(rules, fingerprint, now);
      SortedIsValid(unsorted);
      SortedKeys(unsorted, other);
      BoundedKeys(Sorted(unsorted), other);
    } else {
      WithoutKeys(rules, fingerprint, other);
    }
  }

  lemma {:induction false} WithoutKeys(rules: seq<Rule>, fingerprint: Fingerprint, other: Fingerprint)
    ensures other in Keys(Without(rules, fingerprint)) <==> other in Keys(rules) && other != fingerprint
  {
    if rules != [] {
      var before, last := rules[..|rules| - 1], rules[|rules| - 1];
      WithoutKeys(before, fingerprint, other);
      assert rules == before + [last];
      KeysAppend(before, last);
      KeysAppend(Without(before, fingerprint), last);
    }
  }

  lemma EvictsNothing(rules: seq<Rule>, fingerprint: Fingerprint, now: nat)
    requires |Assigned(rules, fingerprint, now)| <= MAX_IGNORED
    ensures Evicted(rules, fingerprint, true, now) == []
  {
    SortedLength(Assigned(rules, fingerprint, now));
    NothingBeyond(Sorted(Assigned(rules, fingerprint, now)));
  }

  lemma EvictsOne(rules: seq<Rule>, fingerprint: Fingerprint, now: nat)
    requires |rules| == MAX_IGNORED && NewestFirst(rules) && fingerprint.Digest? && fingerprint !in Keys(rules)
    ensures Evicted(rules, fingerprint, true, now)
         == [if rules[MAX_IGNORED - 1].at >= now then Rule(fingerprint, now) else rules[MAX_IGNORED - 1]]
  {
    AddedToFull(rules, Rule(fingerprint, now));
  }

  lemma SortedLength(rules: seq<Rule>)
    ensures |Sorted(rules)| == |rules|
  {
    SortedIsSorted(rules);
  }

  /** A change drops a rule exactly when it adds one to a full table. It is the oldest, and the new rule
      itself when none in the table is older. */
  lemma WhatIsEvicted(rules: seq<Rule>, fingerprint: Fingerprint, ignored: bool, now: nat)
    requires IsTable(rules) && fingerprint.Digest?
    ensures Evicted(rules, fingerprint, ignored, now) ==
            if !ignored || |rules| < 500 || fingerprint in Keys(rules) then []
            else if rules[499].at >= now then [Rule(fingerprint, now)]
            else [rules[499]]
  {
    if ignored {
      if |rules| < MAX_IGNORED || fingerprint in Keys(rules) {
        EvictsNothing(rules, fingerprint, now);
      } else {
        EvictsOne(rules, fingerprint, now);
      }
    }
  }

  lemma NothingBeyond(rules: seq<Rule>)
    requires |rules| <= MAX_IGNORED
    ensures BeyondBound(rules) == []
  {
  }

  lemma AddedToFull(rules: seq<Rule>, rule: Rule)
    requires NewestFirst(rules) && rules != []
    ensures |Sorted(rules + [rule])| == |rules| + 1
    ensures Sorted(rules + [rule])[|rules|..]
         == [if rules[|rules| - 1].at >= rule.at then rule else rules[|rules| - 1]]
  {
    SortKeeps(rules, NotOlder);
    assert (rules + [rule])[..|rules|] == rules;
    InsertKeepsOrder(rules, rule, NotOlder);
  }
}
