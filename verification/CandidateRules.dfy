/** When the rules of regression-engine.ts raise a candidate, and which one, told by snapshots and stored events. */
module CandidateRules {
  import opened Prelude
  import opened Sorting
  import D = Diff
  import EventKinds
  import StepDetection
  import opened Regression
  import T = Traffic

  function SiteName(url: Option<string>): string {
    if url.Some? then url.value else "site"
  }

  // ---------- The first event of a kind ----------

  /** Event `n` is the first one of these types. */
  ghost predicate IsFirst(events: seq<EngineEvent>, n: nat, types: set<EventType>) {
    n < |events| && events[n].eventType in types && forall m :: 0 <= m < n ==> events[m].eventType !in types
  }

  ghost predicate NoneOf(events: seq<EngineEvent>, types: set<EventType>) {
    forall n :: 0 <= n < |events| ==> events[n].eventType !in types
  }

  lemma {:induction false} FindFirstFinds(events: seq<EngineEvent>, wanted: EngineEvent -> bool, types: set<EventType>)
    returns (n: nat)
    requires forall event :: wanted(event) <==> event.eventType in types
    ensures if NoneOf(events, types) then FindFirst(events, wanted) == None
            else IsFirst(events, n, types) && FindFirst(events, wanted) == Some(events[n])
  {
    n := 0;
    if events != [] && !wanted(events[0]) {
      var rest := FindFirstFinds(events[1..], wanted, types);
      assert forall m :: 0 < m < |events| ==> events[1..][m - 1] == events[m];
      assert NoneOf(events[1..], types) ==> NoneOf(events, types);
      n := rest + 1;
    }
  }

  // ---------- The candidates about one event ----------

  /** A candidate about event `n` alone. */
  ghost predicate IsAboutFirst(candidate: Option<Candidate>, input: Input, n: nat, types: set<EventType>, rule: string,
                               severity: D.Severity, title: string, metrics: Option<T.Signal>)
  {
    && IsFirst(input.events, n, types)
    && candidate == Some(Candidate(SiteName(input.monitoredUrlId) + ":" + rule + ":" + input.events[n].id, severity,
                                   title, [input.events[n].id], metrics))
  }

  /** The first noindex event is a critical candidate. */
  lemma NoindexRaised(input: Input)
    ensures NoindexRule(input).None? <==> NoneOf(input.events, {Crawled(D.PageBecameNoindex)})
    ensures NoindexRule(input).Some? ==>
              exists n: nat :: IsAboutFirst(NoindexRule(input), input, n, {Crawled(D.PageBecameNoindex)}, "noindex",
                                            D.CRITICAL, "Page became noindex", None)
  {
    var n := FindFirstFinds(input.events, IsNoindexEvent, {Crawled(D.PageBecameNoindex)});
    if NoindexRule(input).Some? {
      assert IsAboutFirst(NoindexRule(input), input, n, {Crawled(D.PageBecameNoindex)}, "noindex", D.CRITICAL,
                          "Page became noindex", None);
    }
  }

  /** So is the first 404 event. */
  lemma NotFoundRaised(input: Input)
    ensures NotFoundRule(input).None? <==> NoneOf(input.events, {Crawled(D.PageBecame404)})
    ensures NotFoundRule(input).Some? ==>
              exists n: nat :: IsAboutFirst(NotFoundRule(input), input, n, {Crawled(D.PageBecame404)}, "not_found",
                                            D.CRITICAL, "Page started returning HTTP 404", None)
  {
    var n := FindFirstFinds(input.events, IsNotFoundEvent, {Crawled(D.PageBecame404)});
    if NotFoundRule(input).Some? {
      assert IsAboutFirst(NotFoundRule(input), input, n, {Crawled(D.PageBecame404)}, "not_found", D.CRITICAL,
                          "Page started returning HTTP 404", None);
    }
  }

  /** The first canonical change is a candidate when clicks dropped, a critical one when they dropped a lot. */
  lemma CanonicalRaised(input: Input)
    ensures CanonicalTrafficRule(input).None?
       <==> NoneOf(input.events, {Crawled(D.CanonicalChanged)}) || input.traffic.None?
            || input.traffic.value.level == T.Quiet
    ensures CanonicalTrafficRule(input).Some? ==>
              exists n: nat ::
                IsAboutFirst(CanonicalTrafficRule(input), input, n, {Crawled(D.CanonicalChanged)}, "canonical_traffic",
                             CanonicalSeverity(input.traffic), "Possible SEO regression", input.traffic)
  {
    var n := FindFirstFinds(input.events, IsCanonicalEvent, {Crawled(D.CanonicalChanged)});
    if CanonicalTrafficRule(input).Some? {
      assert IsAboutFirst(CanonicalTrafficRule(input), input, n, {Crawled(D.CanonicalChanged)}, "canonical_traffic",
                          CanonicalSeverity(input.traffic), "Possible SEO regression", input.traffic);
    }
  }

  function CanonicalSeverity(traffic: Option<T.Signal>): D.Severity {
    match traffic
    case Some(signal) => if signal.level == T.High then D.CRITICAL else D.WARNING
    case None => D.WARNING
  }

  // ---------- The WordPress correlation ----------

  function RegressionTypes(): set<EventType> {
    {Crawled(D.CanonicalChanged), Crawled(D.RobotsChanged), Crawled(D.PageBecameNoindex), Crawled(D.HttpStatusChanged),
     Crawled(D.PageBecame404), Crawled(D.Ga4Missing), Crawled(D.GtmMissing)}
  }

  /** Event `n` is the first regression, `change` a WordPress change before it that no other such change comes after. */
  ghost predicate Correlates(input: Input, n: nat, change: EngineEvent) {
    && IsFirst(input.events, n, RegressionTypes()) && IsEarlierChange(input, n, change)
    && forall other :: IsEarlierChange(input, n, other) ==> other.occurredAt <= change.occurredAt
  }

  ghost predicate IsEarlierChange(input: Input, n: nat, change: EngineEvent)
    requires n < |input.events|
  {
    && change in input.recentWordPressEvents && change.occurredAt <= input.events[n].occurredAt
    && (change.eventType == PluginInstalled || change.eventType == PluginActivated || change.eventType == PluginUpdated
        || change.eventType == ThemeActivated || change.eventType == ThemeUpdated || change.eventType == CoreUpdated)
  }

  /** The candidate names this change and this regression. */
  ghost predicate IsCorrelation(candidate: Option<Candidate>, input: Input, n: nat, change: EngineEvent)
    requires n < |input.events|
  {
    var regression := input.events[n];
    candidate == Some(Candidate(
      SiteName(input.monitoredUrlId) + ":wordpress_change:" + (change.id + ":" + regression.id),
      if regression.severity == D.CRITICAL then D.CRITICAL else D.WARNING,
      "Possible SEO regression", [change.id, regression.id], None))
  }

  lemma EarlierChanges(input: Input, n: nat, change: EngineEvent)
    requires n < |input.events|
    ensures change in Filtered(input.recentWordPressEvents, Preceding(input.events[n].occurredAt))
       <==> IsEarlierChange(input, n, change)
  {
  }

  lemma NamedPrint(url: Option<string>, key: string)
    ensures Fingerprint(url, WordPressChange, key) == SiteName(url) + ":wordpress_change:" + key
  {
    ConcatAssociates(SiteName(url), ":", "wordpress_change");
    ConcatAssociates(SiteName(url), ":" + "wordpress_change", ":");
    assert ":" + "wordpress_change" + ":" == ":wordpress_change:";
  }

  lemma CorrelatesWith(input: Input, n: nat) returns (change: EngineEvent)
    requires IsFirst(input.events, n, RegressionTypes())
    requires FindFirst(input.events, IsRegressionEvent) == Some(input.events[n])
    ensures if WordPressChangeRule(input).Some?
            then Correlates(input, n, change) && IsCorrelation(WordPressChangeRule(input), input, n, change)
            else forall other :: !IsEarlierChange(input, n, other)
  {
    var regression := input.events[n];
    var preceding := Filtered(input.recentWordPressEvents, Preceding(regression.occurredAt));
    LatestPreceding(input.recentWordPressEvents, regression.occurredAt);
    forall other ensures other in preceding <==> IsEarlierChange(input, n, other) {
      EarlierChanges(input, n, other);
    }
    change := regression;
    if preceding != [] {
      change := Sort(preceding, NotEarlier)[0];
      NamedPrint(input.monitoredUrlId, change.id + ":" + regression.id);
    }
  }

  /** The first regression is correlated exactly when a WordPress change is not later; the candidate names a latest
      such change and the regression, and is critical when the regression is. */
  lemma CorrelationRaised(input: Input)
    ensures WordPressChangeRule(input).Some?
       <==> exists n: nat, change :: IsFirst(input.events, n, RegressionTypes()) && IsEarlierChange(input, n, change)
    ensures WordPressChangeRule(input).Some? ==>
              exists n: nat, change ::
                Correlates(input, n, change) && IsCorrelation(WordPressChangeRule(input), input, n, change)
  {
    var n := FindFirstFinds(input.events, IsRegressionEvent, RegressionTypes());
    if !NoneOf(input.events, RegressionTypes()) {
      var change := CorrelatesWith(input, n);
      forall m: nat | IsFirst(input.events, m, RegressionTypes()) ensures m == n {
      }
    }
  }

  // ---------- All candidates ----------

  function Present(candidate: Option<Candidate>): seq<Candidate> {
    match candidate case Some(value) => [value] case None => []
  }

  lemma RuleApplied(rule: Rule, input: Input)
    ensures Optional(rule, input) ==
            match rule
            case Noindex => Present(NoindexRule(input))
            case NotFound => Present(NotFoundRule(input))
            case TrackingLost => Present(TrackingLostRule(input))
            case CanonicalTraffic => Present(CanonicalTrafficRule(input))
            case WordPressChange => Present(WordPressChangeRule(input))
  {
  }

  /** What is detected are the candidates of the five rules that raise one, in their order. */
  lemma DetectedInOrder(input: Input, noindex: Option<Candidate>, notFound: Option<Candidate>,
                        tracking: Option<Candidate>, canonical: Option<Candidate>, correlated: Option<Candidate>)
    requires noindex == NoindexRule(input) && notFound == NotFoundRule(input) && tracking == TrackingLostRule(input)
    requires canonical == CanonicalTrafficRule(input) && correlated == WordPressChangeRule(input)
    ensures DetectRegressions(input)
         == Present(noindex) + Present(notFound) + Present(tracking) + Present(canonical) + Present(correlated)
  {
    RuleApplied(Noindex, input);
    RuleApplied(NotFound, input);
    RuleApplied(TrackingLost, input);
    RuleApplied(CanonicalTraffic, input);
    RuleApplied(WordPressChange, input);
  }
}
