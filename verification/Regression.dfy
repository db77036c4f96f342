/**
 * Regression candidates (regression-engine.ts): five rules over the events of a step, the traffic signal
 * and recent WordPress events. Times are ordered keys.
 */
module Regression {
  import opened Prelude
  import opened Sorting
  import D = Diff
  import T = Traffic

  datatype EventType =
    | Crawled(kind: D.Kind)
    | PluginInstalled | PluginActivated | PluginUpdated | ThemeActivated | ThemeUpdated | CoreUpdated
    | OtherType(name: string)

  datatype EngineEvent = EngineEvent(id: string, eventType: EventType, severity: D.Severity, title: string,
                                     occurredAt: int)

  datatype Input = Input(
    monitoredUrlId: Option<string>,
    events: seq<EngineEvent>,
    traffic: Option<T.Signal>,
    recentWordPressEvents: seq<EngineEvent>)

  datatype Candidate = Candidate(
    fingerprint: string,
    severity: D.Severity,
    title: string,
    eventIds: seq<string>,
    metrics: Option<T.Signal>)

  datatype Rule = Noindex | NotFound | TrackingLost | CanonicalTraffic | WordPressChange

  function RuleName(rule: Rule): string {
    match rule
    case Noindex => "noindex"
    case NotFound => "not_found"
    case TrackingLost => "tracking_lost"
    case CanonicalTraffic => "canonical_traffic"
    case WordPressChange => "wordpress_change"
  }

  function Fingerprint(url: Option<string>, rule: Rule, key: string): string {
    (if url.Some? then url.value else "site") + ":" + RuleName(rule) + ":" + key
  }

  function FindFirst(events: seq<EngineEvent>, wanted: EngineEvent -> bool): Option<EngineEvent> {
    if events == [] then None else if wanted(events[0]) then Some(events[0]) else FindFirst(events[1..], wanted)
  }

  function IdOf(event: EngineEvent): string {
    event.id
  }

  function Ids(events: seq<EngineEvent>): seq<string> {
    Mapped(events, IdOf)
  }

  // ---------- The rules ----------

  predicate IsNoindexEvent(event: EngineEvent) {
    event.eventType == Crawled(D.PageBecameNoindex)
  }

  predicate IsNotFoundEvent(event: EngineEvent) {
    event.eventType == Crawled(D.PageBecame404)
  }

  predicate IsTrackingEvent(event: EngineEvent) {
    event.eventType == Crawled(D.Ga4Missing) || event.eventType == Crawled(D.GtmMissing)
  }

  predicate IsCanonicalEvent(event: EngineEvent) {
    event.eventType == Crawled(D.CanonicalChanged)
  }

  predicate IsRegressionEvent(event: EngineEvent) {
    event.eventType.Crawled? && event.eventType.kind in {
      D.CanonicalChanged, D.RobotsChanged, D.PageBecameNoindex, D.HttpStatusChanged, D.PageBecame404, D.Ga4Missing,
      D.GtmMissing}
  }

  predicate IsWordPressChange(event: EngineEvent) {
    event.eventType in {PluginInstalled, PluginActivated, PluginUpdated, ThemeActivated, ThemeUpdated, CoreUpdated}
  }

  /** A rule about the first event of a kind. */
  function FirstEventRule(input: Input, rule: Rule, wanted: EngineEvent -> bool, title: string): Option<Candidate> {
    match FindFirst(input.events, wanted)
    case None => None
    case Some(event) =>
      Some(Candidate(Fingerprint(input.monitoredUrlId, rule, event.id), D.CRITICAL, title, [event.id], None))
  }

  function NoindexRule(input: Input): Option<Candidate> {
    FirstEventRule(input, Noindex, IsNoindexEvent, "Page became noindex")
  }

  function NotFoundRule(input: Input): Option<Candidate> {
    FirstEventRule(input, NotFound, IsNotFoundEvent, "Page started returning HTTP 404")
  }

  /** The order of strings by code unit. */
  predicate NotAfter(a: string, b: string) {
    a == "" || (b != "" && (a[0] < b[0] || (a[0] == b[0] && NotAfter(a[1..], b[1..]))))
  }

  function Joined(words: seq<string>): string {
    if words == [] then "" else if |words| == 1 then words[0] else words[0] + ":" + Joined(words[1..])
  }

  function TagOf(event: EngineEvent): string {
    if event.eventType == Crawled(D.Ga4Missing) then "GA4" else "GTM"
  }

  function JoinedTags(tags: seq<string>): string {
    if tags == [] then "" else if |tags| == 1 then tags[0] else tags[0] + " and " + JoinedTags(tags[1..])
  }

  function TrackingKey(lost: seq<EngineEvent>): string {
    Joined(Sort(Ids(lost), NotAfter))
  }

  function TrackingLostRule(input: Input): Option<Candidate> {
    var lost := Filtered(input.events, IsTrackingEvent);
    if lost == [] then None
    else
      Some(Candidate(
        Fingerprint(input.monitoredUrlId, TrackingLost, TrackingKey(lost)),
        D.CRITICAL,
        "Tracking regression: " + JoinedTags(Unique(Mapped(lost, TagOf))) + " disappeared",
        Ids(lost),
        None))
  }

  function CanonicalTrafficRule(input: Input): Option<Candidate> {
    match FindFirst(input.events, IsCanonicalEvent)
    case None => None
    case Some(event) =>
      if input.traffic.None? || input.traffic.value.level == T.Quiet then None
      else
        Some(Candidate(
          Fingerprint(input.monitoredUrlId, CanonicalTraffic, event.id),
          if input.traffic.value.level == T.High then D.CRITICAL else D.WARNING,
          "Possible SEO regression", [event.id], input.traffic))
  }

  function Preceding(at: int): EngineEvent -> bool {
    (event: EngineEvent) => IsWordPressChange(event) && event.occurredAt <= at
  }

  predicate NotEarlier(x: EngineEvent, y: EngineEvent) {
    x.occurredAt >= y.occurredAt
  }

  function WordPressChangeRule(input: Input): Option<Candidate> {
    match FindFirst(input.events, IsRegressionEvent)
    case None => None
    case Some(regression) =>
      var preceding := Sort(Filtered(input.recentWordPressEvents, Preceding(regression.occurredAt)), NotEarlier);
      if preceding == [] then None
      else
        Some(Candidate(
          Fingerprint(input.monitoredUrlId, WordPressChange, preceding[0].id + ":" + regression.id),
          if regression.severity == D.CRITICAL then D.CRITICAL else D.WARNING,
          "Possible SEO regression", [preceding[0].id, regression.id], None))
  }

  function Apply(rule: Rule, input: Input): Option<Candidate> {
    match rule
    case Noindex => NoindexRule(input)
    case NotFound => NotFoundRule(input)
    case TrackingLost => TrackingLostRule(input)
    case CanonicalTraffic => CanonicalTrafficRule(input)
    case WordPressChange => WordPressChangeRule(input)
  }

  function Optional(rule: Rule, input: Input): seq<Candidate> {
    var candidate := Apply(rule, input);
    if candidate.Some? then [candidate.value] else []
  }

  /** The candidates of the rules, in their order. */
  function DetectRegressions(input: Input): seq<Candidate> {
    Optional(Noindex, input) + Optional(NotFound, input) + Optional(TrackingLost, input)
    + Optional(CanonicalTraffic, input) + Optional(WordPressChange, input)
  }

  // ---------- No event, no candidate ----------

  lemma {:induction false} FoundIsWanted(events: seq<EngineEvent>, wanted: EngineEvent -> bool)
    ensures FindFirst(events, wanted).Some? <==> exists event :: event in events && wanted(event)
    ensures FindFirst(events, wanted).Some? ==>
              FindFirst(events, wanted).value in events && wanted(FindFirst(events, wanted).value)
  {
    if events != [] {
      FoundIsWanted(events[1..], wanted);
      assert events == [events[0]] + events[1..];
    }
  }

  /** Without events of the step nothing is reported, whatever traffic and WordPress did. */
  lemma NoEventsNoCandidates(input: Input)
    requires input.events == []
    ensures DetectRegressions(input) == []
  {
    assert Filtered(input.events, IsTrackingEvent) == [];
  }

  // ---------- What a candidate cites ----------

  predicate Cites(candidate: Candidate, input: Input) {
    forall id :: id in candidate.eventIds ==> id in Ids(input.events) || id in Ids(input.recentWordPressEvents)
  }

  lemma IdIn(events: seq<EngineEvent>, event: EngineEvent)
    requires event in events
    ensures event.id in Ids(events)
  {
    var i :| 0 <= i < |events| && events[i] == event;
    assert Ids(events)[i] == event.id;
  }

  lemma FirstEventCites(input: Input, rule: Rule, wanted: EngineEvent -> bool, title: string)
    ensures FirstEventRule(input, rule, wanted, title).Some?
            ==> Cites(FirstEventRule(input, rule, wanted, title).value, input)
  {
    FoundIsWanted(input.events, wanted);
    var found := FindFirst(input.events, wanted);
    if found.Some? {
      IdIn(input.events, found.value);
    }
  }

  lemma TrackingCites(input: Input)
    ensures TrackingLostRule(input).Some? ==> Cites(TrackingLostRule(input).value, input)
  {
    var lost := Filtered(input.events, IsTrackingEvent);
    forall id | id in Ids(lost) ensures id in Ids(input.events) {
      var i :| 0 <= i < |lost| && Ids(lost)[i] == id;
      assert lost[i] in lost;
      IdIn(input.events, lost[i]);
    }
  }

  lemma WordPressCites(input: Input)
    ensures WordPressChangeRule(input).Some? ==> Cites(WordPressChangeRule(input).value, input)
  {
    FoundIsWanted(input.events, IsRegressionEvent);
    var found := FindFirst(input.events, IsRegressionEvent);
    if found.Some? {
      var preceding := Filtered(input.recentWordPressEvents, Preceding(found.value.occurredAt));
      SortMembers(preceding, NotEarlier);
      IdIn(input.events, found.value);
      if preceding != [] {
        var first := Sort(preceding, NotEarlier)[0];
        assert first in multiset(Sort(preceding, NotEarlier));
        assert first in preceding;
        IdIn(input.recentWordPressEvents, first);
      }
    }
  }

  lemma RuleCites(rule: Rule, input: Input)
    ensures Apply(rule, input).Some? ==> Cites(Apply(rule, input).value, input)
  {
    match rule
    case Noindex => FirstEventCites(input, Noindex, IsNoindexEvent, "Page became noindex");
    case NotFound => FirstEventCites(input, NotFound, IsNotFoundEvent, "Page started returning HTTP 404");
    case TrackingLost => TrackingCites(input);
    case CanonicalTraffic => FirstEventCites(input, CanonicalTraffic, IsCanonicalEvent, "Possible SEO regression");
    case WordPressChange => WordPressCites(input);
  }

  /** Every candidate is that of a rule and cites only events it was given. */
  lemma CandidatesCiteInput(input: Input, candidate: Candidate)
    ensures candidate in DetectRegressions(input) <==> exists rule :: Apply(rule, input) == Some(candidate)
    ensures candidate in DetectRegressions(input) ==> Cites(candidate, input)
  {
    forall rule ensures candidate in Optional(rule, input) <==> Apply(rule, input) == Some(candidate) {
    }
    assert candidate in DetectRegressions(input) <==>
      candidate in Optional(Noindex, input) || candidate in Optional(NotFound, input)
      || candidate in Optional(TrackingLost, input) || candidate in Optional(CanonicalTraffic, input)
      || candidate in Optional(WordPressChange, input);
    if rule :| Apply(rule, input) == Some(candidate) {
      assert candidate in Optional(rule, input);
      RuleCites(rule, input);
    }
  }

  // ---------- Correlations ----------

  /** A canonical change is a candidate exactly when clicks dropped, critical exactly when they dropped a lot. */
  lemma CanonicalNeedsDrop(input: Input)
    ensures var candidate := CanonicalTrafficRule(input);
            && (candidate.Some? <==> (exists event :: event in input.events && IsCanonicalEvent(event))
                                     && input.traffic.Some? && input.traffic.value.level != T.Quiet)
            && (candidate.Some? ==> (candidate.value.severity == D.CRITICAL <==> input.traffic.value.level == T.High))
  {
    FoundIsWanted(input.events, IsCanonicalEvent);
  }

  predicate Precedes(change: EngineEvent, regression: EngineEvent) {
    IsWordPressChange(change) && change.occurredAt <= regression.occurredAt
  }

  lemma LatestPreceding(events: seq<EngineEvent>, at: int)
    ensures var preceding := Filtered(events, Preceding(at));
            && |Sort(preceding, NotEarlier)| == |preceding|
            && (preceding != [] ==>
                  var latest := Sort(preceding, NotEarlier)[0];
                  latest in preceding && forall other :: other in preceding ==> other.occurredAt <= latest.occurredAt)
  {
    var preceding := Filtered(events, Preceding(at));
    var sorted := Sort(preceding, NotEarlier);
    SortMembers(preceding, NotEarlier);
    SortIsOrdered(preceding, NotEarlier);
    if preceding != [] {
      assert sorted[0] in multiset(sorted);
      forall other | other in preceding ensures other.occurredAt <= sorted[0].occurredAt {
        assert other in multiset(sorted);
        var i :| 0 <= i < |sorted| && sorted[i] == other;
        OrderedPairs(sorted, NotEarlier, 0, i);
      }
    }
  }

  /** The first regression of a step is correlated exactly when a WordPress change precedes it, namely with one
      that no other preceding change comes after; the candidate cites both. */
  lemma WordPressCitesLatest(input: Input, regression: EngineEvent)
    requires FindFirst(input.events, IsRegressionEvent) == Some(regression)
    ensures var candidate := WordPressChangeRule(input);
            && (candidate.Some?
                <==> exists change :: change in input.recentWordPressEvents && Precedes(change, regression))
            && (candidate.Some? ==>
                  && (candidate.value.severity == D.CRITICAL <==> regression.severity == D.CRITICAL)
                  && exists change :: change in input.recentWordPressEvents && Precedes(change, regression)
                       && candidate.value.eventIds == [change.id, regression.id]
                       && forall other :: other in input.recentWordPressEvents && Precedes(other, regression)
                            ==> other.occurredAt <= change.occurredAt)
  {
    var preceding := Filtered(input.recentWordPressEvents, Preceding(regression.occurredAt));
    LatestPreceding(input.recentWordPressEvents, regression.occurredAt);
    forall change
      ensures change in preceding <==> change in input.recentWordPressEvents && Precedes(change, regression)
    {
    }
    if preceding != [] {
      var latest := Sort(preceding, NotEarlier)[0];
      assert latest in input.recentWordPressEvents && Precedes(latest, regression);
    }
  }

  // ---------- Fingerprints ----------

  lemma RuleNamesAreNames(a: Rule, b: Rule)
    ensures ':' !in RuleName(a) && (RuleName(a) == RuleName(b) ==> a == b)
  {
    assert |RuleName(a)| == |RuleName(b)| ==> a == b;
  }

  lemma {:induction false} SplitsAtFirstColon(a: string, x: string, b: string, y: string)
    requires ':' !in a && ':' !in b && a + ":" + x == b + ":" + y
    ensures a == b && x == y
    decreases |a|
  {
    var s := a + ":" + x;
    assert s[0] == if a == "" then ':' else a[0];
    assert s[0] == if b == "" then ':' else b[0];
    if a == "" || b == "" {
      assert s[1..] == x && s[1..] == y;
    } else {
      assert s[1..] == a[1..] + ":" + x && s[1..] == b[1..] + ":" + y;
      SplitsAtFirstColon(a[1..], x, b[1..], y);
      assert a == [a[0]] + a[1..] && b == [b[0]] + b[1..];
    }
  }

  lemma SamePrefix(p: string, a: string, b: string)
    requires p + a == p + b
    ensures a == b
  {
    assert (p + a)[|p|..] == a && (p + b)[|p|..] == b;
  }

  /** The fingerprint of a URL tells the rule and the key. */
  lemma FingerprintTellsRule(url: Option<string>, a: Rule, x: string, b: Rule, y: string)
    requires Fingerprint(url, a, x) == Fingerprint(url, b, y)
    ensures a == b && x == y
  {
    var site := if url.Some? then url.value else "site";
    PrefixedPrint(site, RuleName(a), x);
    PrefixedPrint(site, RuleName(b), y);
    SamePrefix(site + ":", RuleName(a) + ":" + x, RuleName(b) + ":" + y);
    RuleNamesAreNames(a, b);
    RuleNamesAreNames(b, a);
    SplitsAtFirstColon(RuleName(a), x, RuleName(b), y);
  }

  lemma PrefixedPrint(site: string, name: string, key: string)
    ensures site + ":" + name + ":" + key == (site + ":") + (name + ":" + key)
  {
  }

  ghost predicate IsPrintOf(fingerprint: string, url: Option<string>, rule: Rule) {
    exists key :: fingerprint == Fingerprint(url, rule, key)
  }

  lemma PrintHas(url: Option<string>, rule: Rule, key: string)
    ensures IsPrintOf(Fingerprint(url, rule, key), url, rule)
  {
  }

  lemma FirstEventPrint(input: Input, rule: Rule, wanted: EngineEvent -> bool, title: string)
    ensures var candidate := FirstEventRule(input, rule, wanted, title);
            candidate.Some? ==> IsPrintOf(candidate.value.fingerprint, input.monitoredUrlId, rule)
  {
    var found := FindFirst(input.events, wanted);
    if found.Some? {
      PrintHas(input.monitoredUrlId, rule, found.value.id);
    }
  }

  lemma TrackingPrint(input: Input)
    ensures var candidate := TrackingLostRule(input);
            candidate.Some? ==> IsPrintOf(candidate.value.fingerprint, input.monitoredUrlId, TrackingLost)
  {
    PrintHas(input.monitoredUrlId, TrackingLost, TrackingKey(Filtered(input.events, IsTrackingEvent)));
  }

  lemma CanonicalPrint(input: Input)
    ensures var candidate := CanonicalTrafficRule(input);
            candidate.Some? ==> IsPrintOf(candidate.value.fingerprint, input.monitoredUrlId, CanonicalTraffic)
  {
    var found := FindFirst(input.events, IsCanonicalEvent);
    if found.Some? {
      PrintHas(input.monitoredUrlId, CanonicalTraffic, found.value.id);
    }
  }

  lemma WordPressPrint(input: Input)
    ensures var candidate := WordPressChangeRule(input);
            candidate.Some? ==> IsPrintOf(candidate.value.fingerprint, input.monitoredUrlId, WordPressChange)
  {
    var found := FindFirst(input.events, IsRegressionEvent);
    if found.Some? {
      var preceding := Sort(Filtered(input.recentWordPressEvents, Preceding(found.value.occurredAt)), NotEarlier);
      if preceding != [] {
        PrintHas(input.monitoredUrlId, WordPressChange, preceding[0].id + ":" + found.value.id);
      }
    }
  }

  lemma RulePrint(rule: Rule, input: Input)
    ensures Apply(rule, input).Some? ==> IsPrintOf(Apply(rule, input).value.fingerprint, input.monitoredUrlId, rule)
  {
    match rule
    case Noindex => FirstEventPrint(input, Noindex, IsNoindexEvent, "Page became noindex");
    case NotFound => FirstEventPrint(input, NotFound, IsNotFoundEvent, "Page started returning HTTP 404");
    case TrackingLost => TrackingPrint(input);
    case CanonicalTraffic => CanonicalPrint(input);
    case WordPressChange => WordPressPrint(input);
  }

  function PrintIn(candidate: Candidate): string {
    candidate.fingerprint
  }

  function Prints(candidates: seq<Candidate>): seq<string> {
    Mapped(candidates, PrintIn)
  }

  function Offering(input: Input): Rule -> seq<Candidate> {
    (rule: Rule) => Optional(rule, input)
  }

  lemma {:induction false} PrintsOfRules(rules: seq<Rule>, input: Input)
    requires Distinct(rules)
    ensures var prints := Prints(Flattened(rules, Offering(input)));
            && Distinct(prints)
            && forall p :: p in prints ==> exists rule :: rule in rules && IsPrintOf(p, input.monitoredUrlId, rule)
  {
    if rules != [] {
      var before, last := rules[..|rules| - 1], rules[|rules| - 1];
      assert rules == before + [last];
      PrintsOfRules(before, input);
      RulePrint(last, input);
      var earlier, more := Prints(Flattened(before, Offering(input))), Prints(Optional(last, input));
      MappedConcat(Flattened(before, Offering(input)), Optional(last, input), PrintIn);
      forall p | p in earlier ensures p !in more {
        var rule :| rule in before && IsPrintOf(p, input.monitoredUrlId, rule);
        OtherRule(p, input.monitoredUrlId, rule, last);
      }
      DistinctConcat(earlier, more);
    }
  }

  lemma OtherRule(fingerprint: string, url: Option<string>, a: Rule, b: Rule)
    requires IsPrintOf(fingerprint, url, a) && a != b
    ensures !IsPrintOf(fingerprint, url, b)
  {
    var x :| fingerprint == Fingerprint(url, a, x);
    forall y ensures fingerprint != Fingerprint(url, b, y) {
      if Fingerprint(url, a, x) == Fingerprint(url, b, y) {
        FingerprintTellsRule(url, a, x, b, y);
      }
    }
  }

  lemma Unrolled(rules: seq<Rule>, offer: Rule -> seq<Candidate>)
    requires |rules| == 5
    ensures Flattened(rules, offer)
         == offer(rules[0]) + offer(rules[1]) + offer(rules[2]) + offer(rules[3]) + offer(rules[4])
  {
    forall n | 0 <= n < 5 ensures Flattened(rules[..n + 1], offer) == Flattened(rules[..n], offer) + offer(rules[n]) {
      FlattenedPrefix(rules, n, offer);
    }
    assert rules[..0] == [] && rules[..5] == rules;
    assert Flattened(rules[..1], offer) == offer(rules[0]);
  }

  lemma FiveDistinct(rules: seq<Rule>)
    requires rules == [Noindex, NotFound, TrackingLost, CanonicalTraffic, WordPressChange]
    ensures Distinct(rules)
  {
    assert rules[..4][..3] == rules[..3] && rules[..3][..2] == rules[..2];
    assert rules[..2][..1] == rules[..1] && rules[..1][..0] == rules[..0];
    assert Distinct(rules[..1]) && Distinct(rules[..2]) && Distinct(rules[..3]);
  }

  /** No two candidates of one run have the same fingerprint. */
  lemma FingerprintsDistinct(input: Input)
    ensures Distinct(Prints(DetectRegressions(input)))
  {
    var rules := [Noindex, NotFound, TrackingLost, CanonicalTraffic, WordPressChange];
    FiveDistinct(rules);
    Unrolled(rules, Offering(input));
    PrintsOfRules(rules, input);
  }

  // ---------- The tracking fingerprint ----------

  lemma {:induction false} NotAfterTotal(a: string, b: string)
    ensures NotAfter(a, b) || NotAfter(b, a)
    ensures NotAfter(a, b) && NotAfter(b, a) ==> a == b
  {
    if a != "" && b != "" && a[0] == b[0] {
      NotAfterTotal(a[1..], b[1..]);
      assert a == [a[0]] + a[1..] && b == [b[0]] + b[1..];
    }
  }

  lemma {:induction false} NotAfterTransitive(a: string, b: string, c: string)
    requires NotAfter(a, b) && NotAfter(b, c)
    ensures NotAfter(a, c)
  {
    if a != "" && a[0] == b[0] == c[0] {
      NotAfterTransitive(a[1..], b[1..], c[1..]);
    }
  }

  lemma NotAfterIsOrder(ids: seq<string>)
    ensures IsOrder(NotAfter) && Separates(NotAfter, ids)
  {
    forall a, b ensures (NotAfter(a, b) || NotAfter(b, a)) && (NotAfter(a, b) && NotAfter(b, a) ==> a == b) {
      NotAfterTotal(a, b);
    }
    forall a, b, c | NotAfter(a, b) && NotAfter(b, c) ensures NotAfter(a, c) {
      NotAfterTransitive(a, b, c);
    }
  }

  lemma {:induction false} FilteredMultiset<X(!new)>(s: seq<X>, keep: X -> bool, t: X)
    ensures multiset(Filtered(s, keep))[t] == if keep(t) then multiset(s)[t] else 0
  {
    if s != [] {
      FilteredMultiset(s[..|s| - 1], keep, t);
      assert s == s[..|s| - 1] + [s[|s| - 1]];
    }
  }

  /** The tracking candidate has the same fingerprint in whatever order the events are given. */
  lemma TrackingIgnoresOrder(input: Input, others: seq<EngineEvent>)
    requires multiset(input.events) == multiset(others)
    ensures var a, b := TrackingLostRule(input), TrackingLostRule(input.(events := others));
            && (a.Some? <==> b.Some?)
            && (a.Some? ==> a.value.fingerprint == b.value.fingerprint
                            && multiset(a.value.eventIds) == multiset(b.value.eventIds))
  {
    var lost, again := Filtered(input.events, IsTrackingEvent), Filtered(others, IsTrackingEvent);
    forall t ensures multiset(lost)[t] == multiset(again)[t] {
      FilteredMultiset(input.events, IsTrackingEvent, t);
      FilteredMultiset(others, IsTrackingEvent, t);
    }
    assert multiset(lost) == multiset(again);
    assert |lost| == |multiset(lost)| == |multiset(again)| == |again|;
    MappedMultiset(lost, again, IdOf);
    NotAfterIsOrder(Ids(lost));
    SortsAlike(Ids(lost), Ids(again), NotAfter);
  }

  // ---------- Through diff then detect ----------

  /** The stored events are those of the step, each under an id and a time of its own. */
  ghost predicate Records(stored: seq<EngineEvent>, events: seq<D.Event>) {
    |stored| == |events|
    && forall n :: 0 <= n < |events| ==>
         stored[n].eventType == Crawled(events[n].kind) && stored[n].severity == events[n].severity
  }

  lemma FirstOfKind(stored: seq<EngineEvent>, events: seq<D.Event>, kind: D.Kind, wanted: EngineEvent -> bool)
    requires Records(stored, events)
    requires forall event :: wanted(event) <==> event.eventType == Crawled(kind)
    ensures FindFirst(stored, wanted).Some? <==> exists event :: event in events && event.kind == kind
  {
    FoundIsWanted(stored, wanted);
    if event :| event in stored && wanted(event) {
      var n :| 0 <= n < |stored| && stored[n] == event;
      assert events[n] in events && events[n].kind == kind;
    }
    if event :| event in events && event.kind == kind {
      var n :| 0 <= n < |events| && events[n] == event;
      assert stored[n] in stored && wanted(stored[n]);
    }
  }
}
