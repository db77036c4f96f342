/** Change events between two snapshots of a URL (diff.ts), and what the log of a whole sequence of snapshots says. */
module Diff {
  import opened Prelude
  import Text

  datatype Snapshot = Snapshot(
    httpStatus: Option<int>,
    finalUrl: Option<string>,
    title: Option<string>,
    h1: Option<string>,
    metaDescription: Option<string>,
    canonical: Option<string>,
    metaRobots: Option<string>,
    xRobotsTag: Option<string>,
    hasStructuredData: Option<bool>,
    hasGa4: Option<bool>,
    hasGtm: Option<bool>,
    contentHash: Option<string>,
    responseTimeMs: Option<int>)

  /** The comparisons, one a field; the title text of an event names the field it is about. */
  datatype Field =
    | Status | FinalUrl | Title | H1 | MetaDescription | Canonical | MetaRobots | XRobots
    | StructuredData | Ga4 | Gtm | ContentHash | ResponseTime

  datatype Value = Text(text: Option<string>) | Number(number: Option<int>) | Flag(flag: Option<bool>)

  datatype Kind =
    | PageBecame404 | HttpStatusChanged | RedirectChanged | TitleChanged | H1Changed | MetaDescriptionChanged
    | CanonicalChanged | PageBecameNoindex | RobotsChanged | SchemaRemoved | Ga4Missing | GtmMissing
    | ContentChanged | ResponseTimeDegraded

  datatype Severity = INFO | WARNING | CRITICAL

  datatype Event = Event(kind: Kind, severity: Severity, field: Field, before: Value, after: Value)

  function ValueOf(s: Snapshot, field: Field): Value {
    match field
    case Status => Number(s.httpStatus)
    case FinalUrl => Text(s.finalUrl)
    case Title => Text(s.title)
    case H1 => Text(s.h1)
    case MetaDescription => Text(s.metaDescription)
    case Canonical => Text(s.canonical)
    case MetaRobots => Text(s.metaRobots)
    case XRobots => Text(s.xRobotsTag)
    case StructuredData => Flag(s.hasStructuredData)
    case Ga4 => Flag(s.hasGa4)
    case Gtm => Flag(s.hasGtm)
    case ContentHash => Text(s.contentHash)
    case ResponseTime => Number(s.responseTimeMs)
  }

  // ---------- What each comparison reports ----------

  /** The pattern, in any case, starts at `at`. */
  predicate MatchesAt(s: string, pattern: string, at: int) {
    0 <= at <= |s| - |pattern| && forall k :: 0 <= k < |pattern| ==> Text.LowerChar(s[at + k]) == pattern[k]
  }

  predicate Mentions(value: Value, pattern: string) {
    && value.Text? && value.text.Some?
    && exists at :: 0 <= at < |value.text.value| && MatchesAt(value.text.value, pattern, at)
  }

  predicate IsNoindex(value: Value) {
    Mentions(value, "noindex")
  }

  predicate IsOk(value: Value) {
    value.Number? && value.number.Some? && value.number.value < 400
  }

  predicate IsError(value: Value) {
    value.Number? && value.number.Some? && value.number.value >= 400
  }

  /** JavaScript truthiness of a string or null. */
  predicate IsPresent(value: Value) {
    value.Text? && value.text.Some? && value.text.value != ""
  }

  predicate IsLost(before: Value, after: Value) {
    before == Flag(Some(true)) && after == Flag(Some(false))
  }

  predicate IsDegraded(before: Value, after: Value) {
    && before.Number? && before.number.Some? && after.Number? && after.number.Some?
    && after.number.value > before.number.value * 2 && after.number.value - before.number.value > 500
  }

  function StatusEvent(before: Value, after: Value): Event {
    if IsOk(before) && IsError(after) then
      Event(if after.number == Some(404) then PageBecame404 else HttpStatusChanged, CRITICAL, Status, before, after)
    else Event(HttpStatusChanged, WARNING, Status, before, after)
  }

  function RobotsEvent(field: Field, before: Value, after: Value): Event {
    if !IsNoindex(before) && IsNoindex(after) then Event(PageBecameNoindex, CRITICAL, field, before, after)
    else Event(RobotsChanged, WARNING, field, before, after)
  }

  function When(reported: bool, event: Event): seq<Event> {
    if reported then [event] else []
  }

  /** What the comparison of one field reports. */
  function FieldEvents(field: Field, before: Value, after: Value): seq<Event> {
    match field
    case Status => When(before != after, StatusEvent(before, after))
    case FinalUrl => When(IsPresent(before) && IsPresent(after) && before != after,
                          Event(RedirectChanged, WARNING, field, before, after))
    case Title => When(before != after, Event(TitleChanged, INFO, field, before, after))
    case H1 => When(before != after, Event(H1Changed, INFO, field, before, after))
    case MetaDescription => When(before != after, Event(MetaDescriptionChanged, INFO, field, before, after))
    case Canonical => When(before != after, Event(CanonicalChanged, CRITICAL, field, before, after))
    case MetaRobots => When(before != after, RobotsEvent(field, before, after))
    case XRobots => When(before != after, RobotsEvent(field, before, after))
    case StructuredData => When(IsLost(before, after), Event(SchemaRemoved, WARNING, field, before, after))
    case Ga4 => When(IsLost(before, after), Event(Ga4Missing, CRITICAL, field, before, after))
    case Gtm => When(IsLost(before, after), Event(GtmMissing, CRITICAL, field, before, after))
    case ContentHash => When(IsPresent(before) && IsPresent(after) && before != after,
                             Event(ContentChanged, INFO, field, before, after))
    case ResponseTime => When(IsDegraded(before, after), Event(ResponseTimeDegraded, WARNING, field, before, after))
  }

  function Comparing(previous: Snapshot, current: Snapshot): Field -> seq<Event> {
    (field: Field) => FieldEvents(field, ValueOf(previous, field), ValueOf(current, field))
  }

  /** The comparisons in order. */
  function InOrder(compare: Field -> seq<Event>): seq<Event> {
    [] + compare(Status) + compare(FinalUrl) + compare(Title) + compare(H1) + compare(MetaDescription)
    + compare(Canonical) + compare(MetaRobots) + compare(XRobots) + compare(StructuredData) + compare(Ga4)
    + compare(Gtm) + compare(ContentHash) + compare(ResponseTime)
  }

  /** The events of one step. */
  function Diffed(previous: Snapshot, current: Snapshot): seq<Event> {
    InOrder(Comparing(previous, current))
  }

  // ---------- The pushes ----------

  /** One comparison: pushes its event when it reports one. */
  method Compare(events: seq<Event>, field: Field, before: Value, after: Value) returns (more: seq<Event>)
    ensures more == events + FieldEvents(field, before, after)
  {
    more := events;
    match field {
      case Status =>
        if before != after {
          var event := Event(HttpStatusChanged, WARNING, field, before, after);
          if IsOk(before) && IsError(after) {
            event := event.(kind := if after.number == Some(404) then PageBecame404 else HttpStatusChanged,
                            severity := CRITICAL);
          }
          more := more + [event];
        }
      case FinalUrl =>
        if IsPresent(before) && IsPresent(after) && before != after {
          more := more + [Event(RedirectChanged, WARNING, field, before, after)];
        }
      case Title =>
        if before != after {
          more := more + [Event(TitleChanged, INFO, field, before, after)];
        }
      case H1 =>
        if before != after {
          more := more + [Event(H1Changed, INFO, field, before, after)];
        }
      case MetaDescription =>
        if before != after {
          more := more + [Event(MetaDescriptionChanged, INFO, field, before, after)];
        }
      case Canonical =>
        if before != after {
          more := more + [Event(CanonicalChanged, CRITICAL, field, before, after)];
        }
      case MetaRobots | XRobots =>
        if before != after {
          var becameNoindex := !IsNoindex(before) && IsNoindex(after);
          more := more + [Event(if becameNoindex then PageBecameNoindex else RobotsChanged,
                                if becameNoindex then CRITICAL else WARNING, field, before, after)];
        }
      case StructuredData =>
        if IsLost(before, after) {
          more := more + [Event(SchemaRemoved, WARNING, field, before, after)];
        }
      case Ga4 =>
        if IsLost(before, after) {
          more := more + [Event(Ga4Missing, CRITICAL, field, before, after)];
        }
      case Gtm =>
        if IsLost(before, after) {
          more := more + [Event(GtmMissing, CRITICAL, field, before, after)];
        }
      case ContentHash =>
        if IsPresent(before) && IsPresent(after) && before != after {
          more := more + [Event(ContentChanged, INFO, field, before, after)];
        }
      case ResponseTime =>
        if IsDegraded(before, after) {
          more := more + [Event(ResponseTimeDegraded, WARNING, field, before, after)];
        }
    }
  }

  ghost predicate Compares(p: Snapshot, c: Snapshot, compare: Field -> seq<Event>) {
    forall field {:trigger FieldEvents(field, ValueOf(p, field), ValueOf(c, field))} ::
      compare(field) == FieldEvents(field, ValueOf(p, field), ValueOf(c, field))
  }

  method CompareNext(events: seq<Event>, field: Field, before: Value, after: Value,
                     ghost p: Snapshot, ghost c: Snapshot, ghost compare: Field -> seq<Event>)
    returns (more: seq<Event>)
    requires Compares(p, c, compare) && before == ValueOf(p, field) && after == ValueOf(c, field)
    ensures more == events + compare(field)
  {
    more := Compare(events, field, before, after);
  }

  method CompareContent(p: Snapshot, c: Snapshot, ghost compare: Field -> seq<Event>) returns (events: seq<Event>)
    requires Compares(p, c, compare)
    ensures events == [] + compare(Status) + compare(FinalUrl) + compare(Title) + compare(H1) + compare(MetaDescription)
      + compare(Canonical)
  {
    events := [];
    events := CompareNext(events, Status, Number(p.httpStatus), Number(c.httpStatus), p, c, compare);
    events := CompareNext(events, FinalUrl, Text(p.finalUrl), Text(c.finalUrl), p, c, compare);
    events := CompareNext(events, Title, Text(p.title), Text(c.title), p, c, compare);
    events := CompareNext(events, H1, Text(p.h1), Text(c.h1), p, c, compare);
    events := CompareNext(events, MetaDescription, Text(p.metaDescription), Text(c.metaDescription), p, c, compare);
    events := CompareNext(events, Canonical, Text(p.canonical), Text(c.canonical), p, c, compare);
  }

  method CompareDirectives(start: seq<Event>, p: Snapshot, c: Snapshot, ghost compare: Field -> seq<Event>)
    returns (events: seq<Event>)
    requires Compares(p, c, compare)
    ensures events == start + compare(MetaRobots) + compare(XRobots) + compare(StructuredData) + compare(Ga4)
      + compare(Gtm) + compare(ContentHash) + compare(ResponseTime)
  {
    events := start;
    events := CompareNext(events, MetaRobots, Text(p.metaRobots), Text(c.metaRobots), p, c, compare);
    events := CompareNext(events, XRobots, Text(p.xRobotsTag), Text(c.xRobotsTag), p, c, compare);
    events := CompareNext(events, StructuredData, Flag(p.hasStructuredData), Flag(c.hasStructuredData), p, c, compare);
    events := CompareNext(events, Ga4, Flag(p.hasGa4), Flag(c.hasGa4), p, c, compare);
    events := CompareNext(events, Gtm, Flag(p.hasGtm), Flag(c.hasGtm), p, c, compare);
    events := CompareNext(events, ContentHash, Text(p.contentHash), Text(c.contentHash), p, c, compare);
    events := CompareNext(events, ResponseTime, Number(p.responseTimeMs), Number(c.responseTimeMs), p, c, compare);
  }

  /** No previous snapshot, no events. */
  method DiffSnapshots(previous: Option<Snapshot>, current: Snapshot) returns (events: seq<Event>)
    ensures events == if previous.Some? then Diffed(previous.value, current) else []
  {
    if previous == None {
      return [];
    }
    events := CompareContent(previous.value, current, Comparing(previous.value, current));
    events := CompareDirectives(events, previous.value, current, Comparing(previous.value, current));
  }

  // ---------- The event of a field ----------

  lemma Unrolled(fields: seq<Field>, compare: Field -> seq<Event>)
    requires |fields| == 13
    ensures Flattened(fields, compare) == [] + compare(fields[0]) + compare(fields[1]) + compare(fields[2])
      + compare(fields[3]) + compare(fields[4]) + compare(fields[5]) + compare(fields[6]) + compare(fields[7])
      + compare(fields[8]) + compare(fields[9]) + compare(fields[10]) + compare(fields[11]) + compare(fields[12])
  {
    forall n | 0 <= n < 13
      ensures Flattened(fields[..n + 1], compare) == Flattened(fields[..n], compare) + compare(fields[n])
    {
      FlattenedPrefix(fields, n, compare);
    }
    assert fields[..0] == [] && fields[..13] == fields;
    assert Flattened(fields[..1], compare) == [] + compare(fields[0]);
    var seven := Flattened(fields[..7], compare);
    assert seven == [] + compare(fields[0]) + compare(fields[1]) + compare(fields[2]) + compare(fields[3])
      + compare(fields[4]) + compare(fields[5]) + compare(fields[6]);
  }

  predicate AllFields(fields: seq<Field>) {
    fields == [Status, FinalUrl, Title, H1, MetaDescription, Canonical, MetaRobots, XRobots, StructuredData, Ga4, Gtm,
               ContentHash, ResponseTime]
  }

  lemma InOrderIsFlattened(fields: seq<Field>, compare: Field -> seq<Event>)
    requires AllFields(fields)
    ensures InOrder(compare) == Flattened(fields, compare)
  {
    Unrolled(fields, compare);
  }
}
