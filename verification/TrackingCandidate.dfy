/** The tracking candidate of a step (diff.ts, then trackingLostRule of regression-engine.ts), told by the snapshots. */
module TrackingCandidate {
  import opened Prelude
  import opened Sorting
  import D = Diff
  import ChangeLog
  import EventKinds
  import StepDetection
  import opened Regression
  import opened CandidateRules

  predicate Lost(before: Option<bool>, after: Option<bool>) {
    before == Some(true) && after == Some(false)
  }

  // ---------- The tracking events of a step ----------

  predicate IsLossKind(kind: D.Kind) {
    kind == D.Ga4Missing || kind == D.GtmMissing
  }

  predicate IsLoss(event: D.Event) {
    IsLossKind(event.kind)
  }

  predicate IsTracked(field: D.Field) {
    field == D.Ga4 || field == D.Gtm
  }

  lemma {:induction false} KeptFields(fields: seq<D.Field>, compare: D.Field -> seq<D.Event>, keep: D.Event -> bool,
                                      holds: D.Field -> bool)
    requires forall field, event :: event in compare(field) ==> (keep(event) <==> holds(field))
    ensures Filtered(Flattened(fields, compare), keep) == Flattened(Filtered(fields, holds), compare)
  {
    if fields != [] {
      var before, last := fields[..|fields| - 1], fields[|fields| - 1];
      KeptFields(before, compare, keep, holds);
      FilteredConcat(Flattened(before, compare), compare(last), keep);
      if holds(last) {
        FilteredKeepsAll(compare(last), keep);
        FlattenedAppend(Filtered(before, holds), last, compare);
      } else {
        FilteredNone(compare(last), keep);
      }
    }
  }

  predicate NoneTracked(fields: seq<D.Field>) {
    forall n :: 0 <= n < |fields| ==> !IsTracked(fields[n])
  }

  lemma TrackedFields(front: seq<D.Field>, back: seq<D.Field>)
    requires NoneTracked(front) && NoneTracked(back)
    ensures Filtered(front + [D.Ga4] + [D.Gtm] + back, IsTracked) == [D.Ga4] + [D.Gtm]
  {
    FilteredNone(front, IsTracked);
    FilteredNone(back, IsTracked);
    FilteredAppend(front, D.Ga4, IsTracked);
    FilteredAppend(front + [D.Ga4], D.Gtm, IsTracked);
    FilteredConcat(front + [D.Ga4] + [D.Gtm], back, IsTracked);
    assert [] + [D.Ga4] == [D.Ga4];
  }

  lemma SplitFields(fields: seq<D.Field>)
    requires D.AllFields(fields)
    ensures NoneTracked(fields[..9]) && NoneTracked(fields[11..])
    ensures fields == fields[..9] + [D.Ga4] + [D.Gtm] + fields[11..]
  {
  }

  lemma ComparedKind(p: D.Snapshot, c: D.Snapshot, field: D.Field, event: D.Event)
    requires event in D.Comparing(p, c)(field)
    ensures IsLoss(event) <==> IsTracked(field)
  {
    assert StepDetection.FieldHas(field, D.ValueOf(p, field), D.ValueOf(c, field), event.kind);
    EventKinds.KindTellsField(field, D.ValueOf(p, field), D.ValueOf(c, field), event.kind);
  }

  lemma FlattenedTwo(a: D.Field, b: D.Field, compare: D.Field -> seq<D.Event>)
    ensures Flattened([a] + [b], compare) == compare(a) + compare(b)
  {
    FlattenedAppend([a], b, compare);
    FlattenedAppend([], a, compare);
    assert [] + [a] == [a] && [] + compare(a) == compare(a);
  }

  lemma LossesOfFields(p: D.Snapshot, c: D.Snapshot, fields: seq<D.Field>, compare: D.Field -> seq<D.Event>)
    requires D.AllFields(fields) && compare == D.Comparing(p, c)
    ensures Filtered(D.Diffed(p, c), IsLoss) == compare(D.Ga4) + compare(D.Gtm)
  {
    forall field, event | event in compare(field) ensures IsLoss(event) <==> IsTracked(field) {
      ComparedKind(p, c, field, event);
    }
    D.InOrderIsFlattened(fields, compare);
    KeptFields(fields, compare, IsLoss, IsTracked);
    SplitFields(fields);
    TrackedFields(fields[..9], fields[11..]);
    FlattenedTwo(D.Ga4, D.Gtm, compare);
  }

  function KindOf(event: D.Event): D.Kind {
    event.kind
  }

  /** The kinds of tracking that are gone, GA4 first. */
  function LossKinds(p: D.Snapshot, c: D.Snapshot): seq<D.Kind> {
    (if Lost(p.hasGa4, c.hasGa4) then [D.Ga4Missing] else [])
    + (if Lost(p.hasGtm, c.hasGtm) then [D.GtmMissing] else [])
  }

  lemma ComparedLoss(field: D.Field, before: Option<bool>, after: Option<bool>, kind: D.Kind)
    requires (field == D.Ga4 && kind == D.Ga4Missing) || (field == D.Gtm && kind == D.GtmMissing)
    ensures Mapped(D.FieldEvents(field, D.Flag(before), D.Flag(after)), KindOf)
         == if Lost(before, after) then [kind] else []
  {
  }

  lemma StepLossesOf(fields: seq<D.Field>, p: D.Snapshot, c: D.Snapshot, compare: D.Field -> seq<D.Event>)
    requires D.AllFields(fields) && compare == D.Comparing(p, c)
    ensures Mapped(Filtered(D.Diffed(p, c), IsLoss), KindOf)
         == Mapped(compare(D.Ga4), KindOf) + Mapped(compare(D.Gtm), KindOf)
  {
    LossesOfFields(p, c, fields, compare);
    MappedConcat(compare(D.Ga4), compare(D.Gtm), KindOf);
  }

  lemma StepLosses(p: D.Snapshot, c: D.Snapshot)
    ensures Mapped(Filtered(D.Diffed(p, c), IsLoss), KindOf) == LossKinds(p, c)
  {
    StepLossesOf([D.Status, D.FinalUrl, D.Title, D.H1, D.MetaDescription, D.Canonical, D.MetaRobots, D.XRobots,
                  D.StructuredData, D.Ga4, D.Gtm, D.ContentHash, D.ResponseTime], p, c, D.Comparing(p, c));
    ComparedLoss(D.Ga4, p.hasGa4, c.hasGa4, D.Ga4Missing);
    ComparedLoss(D.Gtm, p.hasGtm, c.hasGtm, D.GtmMissing);
  }

  // ---------- The stored tracking events ----------

  lemma RecordsSnoc(stored: seq<EngineEvent>, events: seq<D.Event>, one: EngineEvent, event: D.Event)
    requires Records(stored, events) && one.eventType == Crawled(event.kind) && one.severity == event.severity
    ensures Records(stored + [one], events + [event])
  {
  }

  lemma {:induction false} StoredLosses(stored: seq<EngineEvent>, events: seq<D.Event>)
    requires Records(stored, events)
    ensures Records(Filtered(stored, IsTrackingEvent), Filtered(events, IsLoss))
  {
    if stored != [] {
      var n := |stored| - 1;
      var one, event := stored[n], events[n];
      StoredLosses(stored[..n], events[..n]);
      assert IsTrackingEvent(one) <==> IsLoss(event);
      if IsLoss(event) {
        RecordsSnoc(Filtered(stored[..n], IsTrackingEvent), Filtered(events[..n], IsLoss), one, event);
      }
    }
  }

  lemma LostTypes(input: Input, p: D.Snapshot, c: D.Snapshot, lost: seq<EngineEvent>)
    requires Records(input.events, D.Diffed(p, c)) && lost == Filtered(input.events, IsTrackingEvent)
    ensures |lost| == |LossKinds(p, c)|
    ensures forall n :: 0 <= n < |lost| ==> lost[n] in input.events && lost[n].eventType == Crawled(LossKinds(p, c)[n])
  {
    StoredLosses(input.events, D.Diffed(p, c));
    StepLosses(p, c);
    var step := Filtered(D.Diffed(p, c), IsLoss);
    forall n | 0 <= n < |lost| ensures lost[n] in input.events && lost[n].eventType == Crawled(LossKinds(p, c)[n]) {
      assert Mapped(step, KindOf)[n] == step[n].kind;
      assert lost[n] in lost;
    }
  }

  // ---------- Title and key ----------

  lemma TagsOfOne(tag: string)
    ensures JoinedTags(Unique([tag])) == tag
  {
    assert [tag][..0] == [];
  }

  lemma TagsOfTwo(a: string, b: string)
    requires a != b
    ensures JoinedTags(Unique([a, b])) == a + " and " + b
  {
    assert [a, b][..1] == [a] && [a][..0] == [];
    assert Unique([a]) == [a];
    assert [a] + [b] == [a, b] && [a, b][1..] == [b];
  }

  /** `x` does not stand behind `y` in the order of code units. */
  ghost predicate InCodeOrder(x: string, y: string) {
    exists n :: 0 <= n <= |x| && n <= |y| && x[..n] == y[..n] && (n == |x| || (n < |y| && x[n] < y[n]))
  }

  lemma FirstAlike(x: string, y: string, n: nat)
    requires 0 < n <= |x| && n <= |y| && x[..n] == y[..n]
    ensures x[0] == y[0]
  {
    assert x[..n][0] == x[0] && y[..n][0] == y[0];
  }

  lemma {:induction false} NotAfterIsCodeOrder(x: string, y: string)
    ensures NotAfter(x, y) <==> InCodeOrder(x, y)
  {
    if x == "" {
      assert x[..0] == y[..0];
    } else if y != "" && x[0] == y[0] {
      NotAfterIsCodeOrder(x[1..], y[1..]);
      if InCodeOrder(x[1..], y[1..]) {
        var n :| 0 <= n <= |x[1..]| && n <= |y[1..]| && x[1..][..n] == y[1..][..n]
                 && (n == |x[1..]| || (n < |y[1..]| && x[1..][n] < y[1..][n]));
        assert x[..n + 1] == [x[0]] + x[1..][..n] && y[..n + 1] == [y[0]] + y[1..][..n];
      }
      if InCodeOrder(x, y) {
        var n :| 0 <= n <= |x| && n <= |y| && x[..n] == y[..n] && (n == |x| || (n < |y| && x[n] < y[n]));
        assert x[1..][..n - 1] == x[..n][1..] && y[1..][..n - 1] == y[..n][1..];
      }
    } else if y != "" {
      if x[0] < y[0] {
        assert x[..0] == y[..0];
      }
      if n :| 0 <= n <= |x| && n <= |y| && x[..n] == y[..n] && (n == |x| || (n < |y| && x[n] < y[n])) {
        if n > 0 {
          FirstAlike(x, y, n);
        }
      }
    }
  }

  lemma SortedOne(x: string)
    ensures Joined(Sort([x], NotAfter)) == x
  {
    assert [x][..0] == [];
  }

  lemma SortedTwo(x: string, y: string)
    ensures Joined(Sort([x, y], NotAfter)) == if InCodeOrder(x, y) then x + ":" + y else y + ":" + x
  {
    NotAfterIsCodeOrder(x, y);
    assert [x, y][..1] == [x] && [x][..0] == [];
    assert Sort([x], NotAfter) == [x];
    assert Insert([x], y, NotAfter) == if NotAfter(x, y) then [x] + [y] else [y] + [x];
    assert [x] + [y] == [x, y] && [y] + [x] == [y, x] && [x, y][1..] == [y] && [y, x][1..] == [x];
  }

  // ---------- The candidate ----------

  /** A critical candidate with this key about these events. */
  ghost predicate IsTrackingLoss(candidate: Option<Candidate>, input: Input, key: string, tags: string,
                                 ids: seq<string>)
  {
    candidate == Some(Candidate(SiteName(input.monitoredUrlId) + ":" + "tracking_lost" + ":" + key, D.CRITICAL,
                                "Tracking regression: " + tags + " disappeared", ids, None))
  }

  ghost predicate IsStored(input: Input, event: EngineEvent, kind: D.Kind) {
    event in input.events && event.eventType == Crawled(kind)
  }

  /** The candidate is about one stored event of this kind. */
  ghost predicate TellsOne(candidate: Option<Candidate>, input: Input, kind: D.Kind, tag: string) {
    exists event ::
      IsStored(input, event, kind) && IsTrackingLoss(candidate, input, event.id, tag, [event.id])
  }

  /** The candidate is about a stored GA4 and a stored GTM event. */
  ghost predicate TellsBoth(candidate: Option<Candidate>, input: Input) {
    exists a, b ::
      && IsStored(input, a, D.Ga4Missing) && IsStored(input, b, D.GtmMissing)
      && IsTrackingLoss(candidate, input, if InCodeOrder(a.id, b.id) then a.id + ":" + b.id else b.id + ":" + a.id,
                        "GA4" + " and " + "GTM", [a.id, b.id])
  }

  lemma RuleFor(input: Input, lost: seq<EngineEvent>, key: string, tags: string, ids: seq<string>)
    requires lost == Filtered(input.events, IsTrackingEvent) && lost != []
    requires TrackingKey(lost) == key && JoinedTags(Unique(Mapped(lost, TagOf))) == tags && Ids(lost) == ids
    ensures IsTrackingLoss(TrackingLostRule(input), input, key, tags, ids)
  {
  }

  lemma OneLoss(input: Input, event: EngineEvent, tag: string)
    requires Filtered(input.events, IsTrackingEvent) == [event] && tag == TagOf(event)
    ensures IsTrackingLoss(TrackingLostRule(input), input, event.id, tag, [event.id])
  {
    assert Mapped([event], TagOf) == [tag] && Ids([event]) == [event.id];
    TagsOfOne(tag);
    SortedOne(event.id);
    RuleFor(input, [event], event.id, tag, [event.id]);
  }

  lemma PartsOfTwo(a: EngineEvent, b: EngineEvent)
    requires TagOf(a) != TagOf(b)
    ensures Ids([a, b]) == [a.id, b.id] && JoinedTags(Unique(Mapped([a, b], TagOf))) == TagOf(a) + " and " + TagOf(b)
    ensures TrackingKey([a, b]) == if InCodeOrder(a.id, b.id) then a.id + ":" + b.id else b.id + ":" + a.id
  {
    assert Mapped([a, b], TagOf) == [TagOf(a), TagOf(b)] && Ids([a, b]) == [a.id, b.id];
    TagsOfTwo(TagOf(a), TagOf(b));
    SortedTwo(a.id, b.id);
  }

  lemma TwoLosses(input: Input, a: EngineEvent, b: EngineEvent)
    requires Filtered(input.events, IsTrackingEvent) == [a, b] && TagOf(a) != TagOf(b)
    ensures IsTrackingLoss(TrackingLostRule(input), input,
                           if InCodeOrder(a.id, b.id) then a.id + ":" + b.id else b.id + ":" + a.id,
                           TagOf(a) + " and " + TagOf(b), [a.id, b.id])
  {
    PartsOfTwo(a, b);
    RuleFor(input, [a, b], TrackingKey([a, b]), TagOf(a) + " and " + TagOf(b), [a.id, b.id]);
  }

  lemma TagNames(event: EngineEvent)
    ensures event.eventType == Crawled(D.Ga4Missing) ==> TagOf(event) == "GA4"
    ensures event.eventType == Crawled(D.GtmMissing) ==> TagOf(event) == "GTM"
    ensures "GA4" != "GTM"
  {
    assert "GA4"[1] != "GTM"[1];
  }

  lemma LostOne(input: Input, lost: seq<EngineEvent>, kind: D.Kind)
    requires lost == Filtered(input.events, IsTrackingEvent) && |lost| == 1 && IsStored(input, lost[0], kind)
    requires kind == D.Ga4Missing || kind == D.GtmMissing
    ensures TellsOne(TrackingLostRule(input), input, kind, if kind == D.Ga4Missing then "GA4" else "GTM")
  {
    TagNames(lost[0]);
    assert lost == [lost[0]];
    OneLoss(input, lost[0], TagOf(lost[0]));
  }

  lemma LostBoth(input: Input, lost: seq<EngineEvent>)
    requires lost == Filtered(input.events, IsTrackingEvent) && |lost| == 2
    requires IsStored(input, lost[0], D.Ga4Missing) && IsStored(input, lost[1], D.GtmMissing)
    ensures TellsBoth(TrackingLostRule(input), input)
  {
    TagNames(lost[0]);
    TagNames(lost[1]);
    assert lost == [lost[0], lost[1]];
    TwoLosses(input, lost[0], lost[1]);
  }

  /** A tracking candidate is raised exactly when GA4 or GTM is gone after the step; it names what is gone, cites the
      stored events of just these losses, and its key is their ids in order. */
  lemma TrackingRaised(input: Input, p: D.Snapshot, c: D.Snapshot)
    requires Records(input.events, D.Diffed(p, c))
    ensures var candidate, ga4, gtm := TrackingLostRule(input), Lost(p.hasGa4, c.hasGa4), Lost(p.hasGtm, c.hasGtm);
            && (candidate.None? <==> !ga4 && !gtm)
            && (ga4 && gtm ==> TellsBoth(candidate, input))
            && (ga4 && !gtm ==> TellsOne(candidate, input, D.Ga4Missing, "GA4"))
            && (!ga4 && gtm ==> TellsOne(candidate, input, D.GtmMissing, "GTM"))
  {
    var lost := Filtered(input.events, IsTrackingEvent);
    LostTypes(input, p, c, lost);
    if |lost| == 1 {
      LostOne(input, lost, LossKinds(p, c)[0]);
    }
    if |lost| == 2 {
      LostBoth(input, lost);
    }
  }
}
