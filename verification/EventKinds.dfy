/** Which events a step between two snapshots has (diff.ts), kind by kind, told by the fields of the snapshots. */
module EventKinds {
  import opened Prelude
  import opened Diff
  import opened StepDetection
  import ChangeLog
  import T = Text

  /** The kinds a comparison can report. */
  predicate IsAboutField(kind: Kind, field: Field) {
    match kind
    case PageBecame404 => field == Status
    case HttpStatusChanged => field == Status
    case RedirectChanged => field == FinalUrl
    case TitleChanged => field == Title
    case H1Changed => field == H1
    case MetaDescriptionChanged => field == MetaDescription
    case CanonicalChanged => field == Canonical
    case PageBecameNoindex => field == MetaRobots || field == XRobots
    case RobotsChanged => field == MetaRobots || field == XRobots
    case SchemaRemoved => field == StructuredData
    case Ga4Missing => field == Ga4
    case GtmMissing => field == Gtm
    case ContentChanged => field == ContentHash
    case ResponseTimeDegraded => field == ResponseTime
  }

  lemma KindTellsField(field: Field, before: Value, after: Value, kind: Kind)
    requires FieldHas(field, before, after, kind)
    ensures IsAboutField(kind, field)
  {
  }

  /** A kind is met exactly when the comparison of some field reports it. */
  ghost predicate MetByField(has: Kind -> bool, p: Snapshot, c: Snapshot) {
    forall kind :: has(kind) <==> exists field :: FieldHas(field, ValueOf(p, field), ValueOf(c, field), kind)
  }

  lemma OneField(has: Kind -> bool, p: Snapshot, c: Snapshot, kind: Kind, field: Field, before: Value, after: Value)
    requires MetByField(has, p, c) && forall other :: IsAboutField(kind, other) <==> other == field
    requires ValueOf(p, field) == before && ValueOf(c, field) == after
    ensures has(kind) <==> FieldHas(field, before, after, kind)
  {
    if other :| FieldHas(other, ValueOf(p, other), ValueOf(c, other), kind) {
      KindTellsField(other, ValueOf(p, other), ValueOf(c, other), kind);
    }
  }

  lemma TwoFields(has: Kind -> bool, p: Snapshot, c: Snapshot, kind: Kind)
    requires MetByField(has, p, c) && (kind == PageBecameNoindex || kind == RobotsChanged)
    ensures has(kind)
       <==> FieldHas(MetaRobots, Text(p.metaRobots), Text(c.metaRobots), kind)
            || FieldHas(XRobots, Text(p.xRobotsTag), Text(c.xRobotsTag), kind)
  {
    assert ValueOf(p, MetaRobots) == Text(p.metaRobots) && ValueOf(c, MetaRobots) == Text(c.metaRobots);
    assert ValueOf(p, XRobots) == Text(p.xRobotsTag) && ValueOf(c, XRobots) == Text(c.xRobotsTag);
    if other :| FieldHas(other, ValueOf(p, other), ValueOf(c, other), kind) {
      KindTellsField(other, ValueOf(p, other), ValueOf(c, other), kind);
    }
  }

  /** The kinds of events a step has. */
  ghost function KindsOf(p: Snapshot, c: Snapshot): Kind -> bool {
    (kind: Kind) => StepHas(p, c, kind)
  }

  lemma StepKinds(p: Snapshot, c: Snapshot)
    ensures MetByField(KindsOf(p, c), p, c)
  {
    forall kind
      ensures KindsOf(p, c)(kind) <==> exists field :: FieldHas(field, ValueOf(p, field), ValueOf(c, field), kind)
    {
      StepHasField(p, c, kind);
    }
  }

  lemma HasOne(field: Field, before: Value, after: Value, event: Event)
    requires FieldEvents(field, before, after) == [event]
    ensures forall kind :: FieldHas(field, before, after, kind) <==> kind == event.kind
  {
    assert event in FieldEvents(field, before, after);
  }

  lemma HasNone(field: Field, before: Value, after: Value)
    requires FieldEvents(field, before, after) == []
    ensures forall kind :: !FieldHas(field, before, after, kind)
  {
  }

  /** What one comparison reports, as its kinds. */
  lemma FieldKinds(field: Field, before: Value, after: Value, kind: Kind)
    ensures FieldHas(field, before, after, kind)
       <==> FieldEvents(field, before, after) != [] && FieldEvents(field, before, after)[0].kind == kind
  {
    if FieldEvents(field, before, after) != [] {
      HasOne(field, before, after, FieldEvents(field, before, after)[0]);
    } else {
      HasNone(field, before, after);
    }
  }

  // ---------- Losses ----------

  lemma LossKinds(before: Option<bool>, after: Option<bool>)
    ensures var lost := before == Some(true) && after == Some(false);
            && (FieldHas(StructuredData, Flag(before), Flag(after), SchemaRemoved) <==> lost)
            && (FieldHas(Ga4, Flag(before), Flag(after), Ga4Missing) <==> lost)
            && (FieldHas(Gtm, Flag(before), Flag(after), GtmMissing) <==> lost)
  {
    FieldKinds(StructuredData, Flag(before), Flag(after), SchemaRemoved);
    FieldKinds(Ga4, Flag(before), Flag(after), Ga4Missing);
    FieldKinds(Gtm, Flag(before), Flag(after), GtmMissing);
  }

  lemma LossesMet(has: Kind -> bool, p: Snapshot, c: Snapshot)
    requires MetByField(has, p, c)
    ensures has(SchemaRemoved) <==> p.hasStructuredData == Some(true) && c.hasStructuredData == Some(false)
    ensures has(Ga4Missing) <==> p.hasGa4 == Some(true) && c.hasGa4 == Some(false)
    ensures has(GtmMissing) <==> p.hasGtm == Some(true) && c.hasGtm == Some(false)
  {
    OneField(has, p, c, SchemaRemoved, StructuredData, Flag(p.hasStructuredData), Flag(c.hasStructuredData));
    OneField(has, p, c, Ga4Missing, Ga4, Flag(p.hasGa4), Flag(c.hasGa4));
    OneField(has, p, c, GtmMissing, Gtm, Flag(p.hasGtm), Flag(c.hasGtm));
    LossKinds(p.hasStructuredData, c.hasStructuredData);
    LossKinds(p.hasGa4, c.hasGa4);
    LossKinds(p.hasGtm, c.hasGtm);
  }

  /** Structured data, GA4 and GTM are reported exactly when they were there and are known to be gone. */
  lemma LossesReported(p: Snapshot, c: Snapshot)
    ensures KindsOf(p, c)(SchemaRemoved) <==> p.hasStructuredData == Some(true) && c.hasStructuredData == Some(false)
    ensures KindsOf(p, c)(Ga4Missing) <==> p.hasGa4 == Some(true) && c.hasGa4 == Some(false)
    ensures KindsOf(p, c)(GtmMissing) <==> p.hasGtm == Some(true) && c.hasGtm == Some(false)
  {
    StepKinds(p, c);
    LossesMet(KindsOf(p, c), p, c);
  }

  // ---------- Texts and numbers ----------

  lemma TextKinds(before: Option<string>, after: Option<string>)
    ensures FieldHas(Title, Text(before), Text(after), TitleChanged) <==> before != after
    ensures FieldHas(H1, Text(before), Text(after), H1Changed) <==> before != after
    ensures FieldHas(MetaDescription, Text(before), Text(after), MetaDescriptionChanged) <==> before != after
    ensures FieldHas(Canonical, Text(before), Text(after), CanonicalChanged) <==> before != after
  {
    FieldKinds(Title, Text(before), Text(after), TitleChanged);
    FieldKinds(H1, Text(before), Text(after), H1Changed);
    FieldKinds(MetaDescription, Text(before), Text(after), MetaDescriptionChanged);
    FieldKinds(Canonical, Text(before), Text(after), CanonicalChanged);
  }

  lemma TextsMet(has: Kind -> bool, p: Snapshot, c: Snapshot)
    requires MetByField(has, p, c)
    ensures has(TitleChanged) <==> p.title != c.title
    ensures has(H1Changed) <==> p.h1 != c.h1
    ensures has(MetaDescriptionChanged) <==> p.metaDescription != c.metaDescription
    ensures has(CanonicalChanged) <==> p.canonical != c.canonical
  {
    OneField(has, p, c, TitleChanged, Title, Text(p.title), Text(c.title));
    OneField(has, p, c, H1Changed, H1, Text(p.h1), Text(c.h1));
    OneField(has, p, c, MetaDescriptionChanged, MetaDescription, Text(p.metaDescription), Text(c.metaDescription));
    OneField(has, p, c, CanonicalChanged, Canonical, Text(p.canonical), Text(c.canonical));
    TextKinds(p.title, c.title);
    TextKinds(p.h1, c.h1);
    TextKinds(p.metaDescription, c.metaDescription);
    TextKinds(p.canonical, c.canonical);
  }

  /** Four texts are reported whenever they differ, appearing and vanishing included. */
  lemma TextsReported(p: Snapshot, c: Snapshot)
    ensures KindsOf(p, c)(TitleChanged) <==> p.title != c.title
    ensures KindsOf(p, c)(H1Changed) <==> p.h1 != c.h1
    ensures KindsOf(p, c)(MetaDescriptionChanged) <==> p.metaDescription != c.metaDescription
    ensures KindsOf(p, c)(CanonicalChanged) <==> p.canonical != c.canonical
  {
    StepKinds(p, c);
    TextsMet(KindsOf(p, c), p, c);
  }

  /** Known and not empty. */
  predicate IsFilled(text: Option<string>) {
    text.Some? && |text.value| > 0
  }

  /** Both are known and not empty, and they differ. */
  predicate IsReplaced(before: Option<string>, after: Option<string>) {
    IsFilled(before) && IsFilled(after) && before != after
  }

  lemma ReplacedKinds(before: Option<string>, after: Option<string>)
    ensures FieldHas(FinalUrl, Text(before), Text(after), RedirectChanged) <==> IsReplaced(before, after)
    ensures FieldHas(ContentHash, Text(before), Text(after), ContentChanged) <==> IsReplaced(before, after)
  {
    FieldKinds(FinalUrl, Text(before), Text(after), RedirectChanged);
    FieldKinds(ContentHash, Text(before), Text(after), ContentChanged);
  }

  lemma KnownTextsMet(has: Kind -> bool, p: Snapshot, c: Snapshot)
    requires MetByField(has, p, c)
    ensures has(RedirectChanged) <==> IsReplaced(p.finalUrl, c.finalUrl)
    ensures has(ContentChanged) <==> IsReplaced(p.contentHash, c.contentHash)
  {
    OneField(has, p, c, RedirectChanged, FinalUrl, Text(p.finalUrl), Text(c.finalUrl));
    OneField(has, p, c, ContentChanged, ContentHash, Text(p.contentHash), Text(c.contentHash));
    ReplacedKinds(p.finalUrl, c.finalUrl);
    ReplacedKinds(p.contentHash, c.contentHash);
  }

  /** Redirect target and content hash are reported when both are known, not empty, and different. */
  lemma KnownTextsReported(p: Snapshot, c: Snapshot)
    ensures KindsOf(p, c)(RedirectChanged) <==> IsReplaced(p.finalUrl, c.finalUrl)
    ensures KindsOf(p, c)(ContentChanged) <==> IsReplaced(p.contentHash, c.contentHash)
  {
    StepKinds(p, c);
    KnownTextsMet(KindsOf(p, c), p, c);
  }

  /** More than twice as long, and by more than 500 ms. */
  predicate IsSlower(before: Option<int>, after: Option<int>) {
    before.Some? && after.Some? && after.value > 2 * before.value && after.value >= before.value + 501
  }

  /** From a known status under 400 to 404. */
  predicate IsNotFoundNow(before: Option<int>, after: Option<int>) {
    before.Some? && before.value < 400 && after == Some(404)
  }

  lemma NumberKinds(before: Option<int>, after: Option<int>)
    ensures FieldHas(ResponseTime, Number(before), Number(after), ResponseTimeDegraded) <==> IsSlower(before, after)
    ensures FieldHas(Status, Number(before), Number(after), PageBecame404) <==> IsNotFoundNow(before, after)
    ensures FieldHas(Status, Number(before), Number(after), HttpStatusChanged)
       <==> before != after && !IsNotFoundNow(before, after)
  {
    FieldKinds(ResponseTime, Number(before), Number(after), ResponseTimeDegraded);
    FieldKinds(Status, Number(before), Number(after), PageBecame404);
    FieldKinds(Status, Number(before), Number(after), HttpStatusChanged);
  }

  lemma NumbersMet(has: Kind -> bool, p: Snapshot, c: Snapshot)
    requires MetByField(has, p, c)
    ensures has(ResponseTimeDegraded) <==> IsSlower(p.responseTimeMs, c.responseTimeMs)
    ensures has(PageBecame404) <==> IsNotFoundNow(p.httpStatus, c.httpStatus)
    ensures has(HttpStatusChanged) <==> p.httpStatus != c.httpStatus && !IsNotFoundNow(p.httpStatus, c.httpStatus)
  {
    OneField(has, p, c, ResponseTimeDegraded, ResponseTime, Number(p.responseTimeMs), Number(c.responseTimeMs));
    OneField(has, p, c, PageBecame404, Status, Number(p.httpStatus), Number(c.httpStatus));
    OneField(has, p, c, HttpStatusChanged, Status, Number(p.httpStatus), Number(c.httpStatus));
    NumberKinds(p.responseTimeMs, c.responseTimeMs);
    NumberKinds(p.httpStatus, c.httpStatus);
  }

  /** The response time is reported when it more than doubles and grows by more than 500 ms. A change from a known
      status under 400 to 404 is reported as such, any other change of the status as a change. */
  lemma NumbersReported(p: Snapshot, c: Snapshot)
    ensures KindsOf(p, c)(ResponseTimeDegraded) <==> IsSlower(p.responseTimeMs, c.responseTimeMs)
    ensures KindsOf(p, c)(PageBecame404) <==> IsNotFoundNow(p.httpStatus, c.httpStatus)
    ensures KindsOf(p, c)(HttpStatusChanged)
       <==> p.httpStatus != c.httpStatus && !IsNotFoundNow(p.httpStatus, c.httpStatus)
  {
    StepKinds(p, c);
    NumbersMet(KindsOf(p, c), p, c);
  }

  // ---------- Robots directives ----------

  ghost predicate Contains(s: string, piece: string) {
    exists front: string, back: string :: s == front + piece + back
  }

  /** The text contains "noindex" in any case. */
  ghost predicate SaysNoindex(text: Option<string>) {
    text.Some? && Contains(T.Lower(text.value), "noindex")
  }

  lemma MatchIsPiece(s: string, pattern: string, at: nat)
    ensures MatchesAt(s, pattern, at) <==> at + |pattern| <= |s| && T.Lower(s)[at..at + |pattern|] == pattern
  {
    if at + |pattern| <= |s| {
      var piece := T.Lower(s)[at..at + |pattern|];
      assert forall k :: 0 <= k < |pattern| ==> piece[k] == T.LowerChar(s[at + k]);
    }
  }

  lemma PieceIsContained(s: string, piece: string, at: nat)
    requires at + |piece| <= |s| && s[at..at + |piece|] == piece
    ensures Contains(s, piece)
  {
    var front, back := s[..at], s[at + |piece|..];
    assert s == front + piece + back;
  }

  lemma ContainedPiece(s: string, piece: string) returns (at: nat)
    requires Contains(s, piece)
    ensures at + |piece| <= |s| && s[at..at + |piece|] == piece
  {
    var front: string, back: string :| s == front + piece + back;
    at := |front|;
  }

  lemma PatternIsContained(s: string, pattern: string)
    requires pattern != ""
    ensures (exists at :: 0 <= at < |s| && MatchesAt(s, pattern, at)) <==> Contains(T.Lower(s), pattern)
  {
    if at :| 0 <= at < |s| && MatchesAt(s, pattern, at) {
      MatchIsPiece(s, pattern, at);
      PieceIsContained(T.Lower(s), pattern, at);
    }
    if Contains(T.Lower(s), pattern) {
      var at := ContainedPiece(T.Lower(s), pattern);
      MatchIsPiece(s, pattern, at);
    }
  }

  lemma NoindexIsContained(text: Option<string>)
    ensures IsNoindex(Text(text)) <==> SaysNoindex(text)
  {
    if text.Some? {
      PatternIsContained(text.value, "noindex");
    }
  }

  /** The directive of one channel turned to noindex. */
  ghost predicate Turned(before: Option<string>, after: Option<string>) {
    !SaysNoindex(before) && SaysNoindex(after)
  }

  lemma ChannelReported(field: Field, before: Option<string>, after: Option<string>)
    requires field == MetaRobots || field == XRobots
    ensures FieldHas(field, Text(before), Text(after), PageBecameNoindex) <==> Turned(before, after)
    ensures FieldHas(field, Text(before), Text(after), RobotsChanged) <==> before != after && !Turned(before, after)
  {
    NoindexIsContained(before);
    NoindexIsContained(after);
    FieldKinds(field, Text(before), Text(after), PageBecameNoindex);
    FieldKinds(field, Text(before), Text(after), RobotsChanged);
  }

  lemma RobotsMet(has: Kind -> bool, p: Snapshot, c: Snapshot)
    requires MetByField(has, p, c)
    ensures has(PageBecameNoindex) <==> Turned(p.metaRobots, c.metaRobots) || Turned(p.xRobotsTag, c.xRobotsTag)
    ensures has(RobotsChanged)
       <==> (p.metaRobots != c.metaRobots && !Turned(p.metaRobots, c.metaRobots))
            || (p.xRobotsTag != c.xRobotsTag && !Turned(p.xRobotsTag, c.xRobotsTag))
  {
    TwoFields(has, p, c, PageBecameNoindex);
    TwoFields(has, p, c, RobotsChanged);
    ChannelReported(MetaRobots, p.metaRobots, c.metaRobots);
    ChannelReported(XRobots, p.xRobotsTag, c.xRobotsTag);
  }

  /** A channel that turns to noindex is reported as such, any other change of one as a change. */
  lemma RobotsReported(p: Snapshot, c: Snapshot)
    ensures KindsOf(p, c)(PageBecameNoindex)
       <==> Turned(p.metaRobots, c.metaRobots) || Turned(p.xRobotsTag, c.xRobotsTag)
    ensures KindsOf(p, c)(RobotsChanged)
       <==> (p.metaRobots != c.metaRobots && !Turned(p.metaRobots, c.metaRobots))
            || (p.xRobotsTag != c.xRobotsTag && !Turned(p.xRobotsTag, c.xRobotsTag))
  {
    StepKinds(p, c);
    RobotsMet(KindsOf(p, c), p, c);
  }

  // ---------- Severities ----------

  lemma FixedSeverities(field: Field, before: Value, after: Value, event: Event)
    requires event in FieldEvents(field, before, after)
    ensures event.kind in {PageBecame404, CanonicalChanged, PageBecameNoindex, Ga4Missing, GtmMissing}
            ==> event.severity == CRITICAL
    ensures event.kind in {RedirectChanged, RobotsChanged, SchemaRemoved, ResponseTimeDegraded}
            ==> event.severity == WARNING
    ensures event.kind in {TitleChanged, H1Changed, MetaDescriptionChanged, ContentChanged} ==> event.severity == INFO
    ensures event.field == field && event.before == before && event.after == after
  {
  }

  lemma StatusSeverity(before: Option<int>, after: Option<int>, event: Event)
    requires event in FieldEvents(Status, Number(before), Number(after)) && event.kind == HttpStatusChanged
    ensures event.severity == if before.Some? && before.value < 400 && after.Some? && after.value >= 400 then CRITICAL
                              else WARNING
  {
  }

  lemma EventIsOfField(p: Snapshot, c: Snapshot, event: Event)
    requires event in Diffed(p, c)
    ensures event in FieldEvents(event.field, ValueOf(p, event.field), ValueOf(c, event.field))
  {
    ChangeLog.StepAbout(p, c, event.field);
    assert ChangeLog.About(event.field)(event);
  }

  /** The severity tells the kind of event; a changed status is critical when an error replaces a success. An
      event carries the values of its field. */
  lemma SeveritiesReported(p: Snapshot, c: Snapshot, event: Event)
    requires event in Diffed(p, c)
    ensures event.kind in {PageBecame404, CanonicalChanged, PageBecameNoindex, Ga4Missing, GtmMissing}
            ==> event.severity == CRITICAL
    ensures event.kind in {RedirectChanged, RobotsChanged, SchemaRemoved, ResponseTimeDegraded}
            ==> event.severity == WARNING
    ensures event.kind in {TitleChanged, H1Changed, MetaDescriptionChanged, ContentChanged} ==> event.severity == INFO
    ensures event.kind == HttpStatusChanged ==>
              event.severity == if p.httpStatus.Some? && p.httpStatus.value < 400
                                   && c.httpStatus.Some? && c.httpStatus.value >= 400 then CRITICAL else WARNING
    ensures event.before == ValueOf(p, event.field) && event.after == ValueOf(c, event.field)
  {
    EventIsOfField(p, c, event);
    FixedSeverities(event.field, ValueOf(p, event.field), ValueOf(c, event.field), event);
    if event.kind == HttpStatusChanged {
      KindTellsField(event.field, ValueOf(p, event.field), ValueOf(c, event.field), event.kind);
      StatusSeverity(p.httpStatus, c.httpStatus, event);
    }
  }
}
