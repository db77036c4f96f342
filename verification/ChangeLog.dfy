/** The log of the events between the snapshots of a URL, from the baseline to the latest one. */
module ChangeLog {
  import opened Prelude
  import opened Diff

  // ---------- The events about one field ----------

  predicate IsAbout(field: Field, event: Event) {
    event.field == field
  }

  function About(field: Field): Event -> bool {
    (event: Event) => IsAbout(field, event)
  }

  predicate AllAbout(events: seq<Event>, field: Field) {
    forall n :: 0 <= n < |events| ==> events[n].field == field
  }

  lemma EventsOfField(field: Field, before: Value, after: Value)
    ensures var events := FieldEvents(field, before, after);
            && |events| <= 1 && AllAbout(events, field)
            && forall n :: 0 <= n < |events| ==> events[n].before == before && events[n].after == after
  {
  }

  lemma FilteredAll(events: seq<Event>, about: Field, field: Field)
    requires AllAbout(events, about)
    ensures Filtered(events, About(field)) == if field == about then events else []
  {
    if field == about {
      FilteredKeepsAll(events, About(field));
    } else {
      FilteredNone(events, About(field));
    }
  }

  lemma {:induction false} FilteredFields(fields: seq<Field>, compare: Field -> seq<Event>, field: Field)
    requires Distinct(fields) && forall f :: AllAbout(compare(f), f)
    ensures Filtered(Flattened(fields, compare), About(field)) == if field in fields then compare(field) else []
  {
    if fields != [] {
      var before, last := fields[..|fields| - 1], fields[|fields| - 1];
      assert fields == before + [last];
      FilteredFields(before, compare, field);
      FilteredAll(compare(last), last, field);
      FilteredConcat(Flattened(before, compare), compare(last), About(field));
      NothingMore(compare(field));
      assert field in fields <==> field in before || field == last;
    }
  }

  lemma NothingMore<T>(s: seq<T>)
    ensures s + [] == s && [] + s == s
  {
  }

  /** Where a field stands in the order of the comparisons. */
  function Place(field: Field): nat {
    match field
    case Status => 0
    case FinalUrl => 1
    case Title => 2
    case H1 => 3
    case MetaDescription => 4
    case Canonical => 5
    case MetaRobots => 6
    case XRobots => 7
    case StructuredData => 8
    case Ga4 => 9
    case Gtm => 10
    case ContentHash => 11
    case ResponseTime => 12
  }

  lemma {:induction false} PlacedDistinct(fields: seq<Field>)
    requires forall n :: 0 <= n < |fields| ==> Place(fields[n]) == n
    ensures Distinct(fields)
  {
    if fields != [] {
      PlacedDistinct(fields[..|fields| - 1]);
    }
  }

  lemma FieldsDistinct(fields: seq<Field>)
    requires AllFields(fields)
    ensures Distinct(fields) && forall field :: field in fields
  {
    PlacedDistinct(fields);
    forall field ensures field in fields {
      assert fields[Place(field)] == field;
    }
  }

  /** Of the events of a step, those about a field are what the comparison of that field reports. */
  lemma StepAbout(p: Snapshot, c: Snapshot, field: Field)
    ensures Filtered(Diffed(p, c), About(field)) == FieldEvents(field, ValueOf(p, field), ValueOf(c, field))
  {
    var fields := [Status, FinalUrl, Title, H1, MetaDescription, Canonical, MetaRobots, XRobots, StructuredData, Ga4,
                   Gtm, ContentHash, ResponseTime];
    StepAboutOf(fields, p, c, field);
  }

  lemma StepAboutOf(fields: seq<Field>, p: Snapshot, c: Snapshot, field: Field)
    requires AllFields(fields)
    ensures Filtered(Diffed(p, c), About(field)) == FieldEvents(field, ValueOf(p, field), ValueOf(c, field))
  {
    var compare := Comparing(p, c);
    forall f ensures AllAbout(compare(f), f) {
      EventsOfField(f, ValueOf(p, f), ValueOf(c, f));
    }
    FieldsDistinct(fields);
    InOrderIsFlattened(fields, compare);
    FilteredFields(fields, compare, field);
  }

  // ---------- The log of a history ----------

  function LogOf(step: (Snapshot, Snapshot) -> seq<Event>, history: seq<Snapshot>): seq<Event> {
    if |history| < 2 then []
    else LogOf(step, history[..|history| - 1]) + step(history[|history| - 2], history[|history| - 1])
  }

  /** All events, from the first snapshot to the last. */
  function Log(history: seq<Snapshot>): seq<Event> {
    LogOf(Diffed, history)
  }

  /** A comparison of two values of one field. */
  type Comparison = (Value, Value) -> seq<Event>

  function ComparisonOf(field: Field): Comparison {
    (before: Value, after: Value) => FieldEvents(field, before, after)
  }

  function Viewing(field: Field): Snapshot -> Value {
    (s: Snapshot) => ValueOf(s, field)
  }

  function Values(history: seq<Snapshot>, field: Field): seq<Value> {
    Mapped(history, Viewing(field))
  }

  /** What a comparison reports from one value to the next, along a list of values. */
  function Steps(values: seq<Value>, compare: Comparison): seq<Event> {
    if |values| < 2 then []
    else Steps(values[..|values| - 1], compare) + compare(values[|values| - 2], values[|values| - 1])
  }

  lemma {:induction false} LogOfKept(step: (Snapshot, Snapshot) -> seq<Event>, history: seq<Snapshot>,
                                     keep: Event -> bool, view: Snapshot -> Value, compare: Comparison)
    requires forall p, c :: Filtered(step(p, c), keep) == compare(view(p), view(c))
    ensures Filtered(LogOf(step, history), keep) == Steps(Mapped(history, view), compare)
  {
    var values := Mapped(history, view);
    if |history| < 2 {
      assert LogOf(step, history) == [] && Steps(values, compare) == [];
    } else {
      var n := |history| - 1;
      LogOfKept(step, history[..n], keep, view, compare);
      FilteredConcat(LogOf(step, history[..n]), step(history[n - 1], history[n]), keep);
      assert values[..n] == Mapped(history[..n], view);
    }
  }

  /** The part of the log about one field depends on the values of that field only. */
  lemma LogAbout(history: seq<Snapshot>, field: Field)
    ensures Filtered(Log(history), About(field)) == Steps(Values(history, field), ComparisonOf(field))
  {
    forall p, c
      ensures Filtered(Diffed(p, c), About(field)) == ComparisonOf(field)(Viewing(field)(p), Viewing(field)(c))
    {
      StepAbout(p, c, field);
    }
    LogOfKept(Diffed, history, About(field), Viewing(field), ComparisonOf(field));
  }

  // ---------- Replaying ----------

  /** The value after a list of events about one field, from a value before them. */
  function Replayed(events: seq<Event>, start: Value): Value {
    if events == [] then start else events[|events| - 1].after
  }

  /** Every event starts from where the one before it ended, and changes the value. */
  predicate Chained(events: seq<Event>, start: Value) {
    events == [] ||
    var before, last := events[..|events| - 1], events[|events| - 1];
    Chained(before, start) && last.before == Replayed(before, start) && last.before != last.after
  }

  /** The comparison reports every change, and nothing else. */
  ghost predicate ReportsChanges(compare: Comparison) {
    forall before, after ::
      var events := compare(before, after);
      if before == after then events == []
      else |events| == 1 && events[0].before == before && events[0].after == after
  }

  lemma {:induction false} StepsReplay(values: seq<Value>, compare: Comparison)
    requires values != [] && ReportsChanges(compare)
    ensures Replayed(Steps(values, compare), values[0]) == values[|values| - 1]
            && Chained(Steps(values, compare), values[0])
  {
    if |values| >= 2 {
      var n := |values| - 1;
      StepsReplay(values[..n], compare);
      var earlier, step := Steps(values[..n], compare), compare(values[n - 1], values[n]);
      if step == [] {
        assert earlier + step == earlier;
      } else {
        assert (earlier + step)[..|earlier|] == earlier;
      }
    }
  }

  /** The fields of which every change is reported. */
  predicate IsTracked(field: Field) {
    field == Status || field == Title || field == H1 || field == MetaDescription || field == Canonical
    || field == MetaRobots || field == XRobots
  }

  lemma TrackedEvents(field: Field)
    requires IsTracked(field)
    ensures ReportsChanges(ComparisonOf(field))
  {
  }

  /** Replaying the log of a tracked field from the baseline gives the latest value, and its events chain. */
  lemma ReplayGivesLatest(history: seq<Snapshot>, field: Field)
    requires history != [] && IsTracked(field)
    ensures var events, start := Filtered(Log(history), About(field)), ValueOf(history[0], field);
            Replayed(events, start) == ValueOf(history[|history| - 1], field) && Chained(events, start)
  {
    LogAbout(history, field);
    TrackedEvents(field);
    StepsReplay(Values(history, field), ComparisonOf(field));
  }

  // ---------- Alarms ----------

  ghost predicate HasAlarm(events: seq<Event>, alarm: Event -> bool) {
    exists event :: event in events && alarm(event)
  }

  /** An alarm between a value and the next. */
  ghost predicate AlarmAt(values: seq<Value>, compare: Comparison, alarm: Event -> bool, n: int) {
    0 < n < |values| && HasAlarm(compare(values[n - 1], values[n]), alarm)
  }

  lemma AlarmInEither(a: seq<Event>, b: seq<Event>, alarm: Event -> bool)
    ensures HasAlarm(a + b, alarm) <==> HasAlarm(a, alarm) || HasAlarm(b, alarm)
  {
    if event :| event in a && alarm(event) {
      assert event in a + b;
    }
    if event :| event in b && alarm(event) {
      assert event in a + b;
    }
  }

  lemma {:induction false} StepsAlarm(values: seq<Value>, compare: Comparison, alarm: Event -> bool)
    ensures HasAlarm(Steps(values, compare), alarm) <==> exists n :: AlarmAt(values, compare, alarm, n)
  {
    if |values| >= 2 {
      var last := |values| - 1;
      var before := values[..last];
      StepsAlarm(before, compare, alarm);
      AlarmInEither(Steps(before, compare), compare(values[last - 1], values[last]), alarm);
      if n :| AlarmAt(before, compare, alarm, n) {
        assert AlarmAt(values, compare, alarm, n);
      }
      if n :| AlarmAt(values, compare, alarm, n) && n < last {
        assert AlarmAt(before, compare, alarm, n);
      }
      assert HasAlarm(compare(values[last - 1], values[last]), alarm) <==> AlarmAt(values, compare, alarm, last);
    }
  }

  /** The log has such an event about the field. */
  ghost predicate Alarmed(history: seq<Snapshot>, field: Field, alarm: Event -> bool) {
    exists event :: event in Log(history) && event.field == field && alarm(event)
  }

  lemma AlarmedAbout(events: seq<Event>, field: Field, alarm: Event -> bool)
    ensures (exists event :: event in events && event.field == field && alarm(event))
       <==> HasAlarm(Filtered(events, About(field)), alarm)
  {
    if event :| event in events && event.field == field && alarm(event) {
      assert About(field)(event) && event in Filtered(events, About(field));
    }
    if event :| event in Filtered(events, About(field)) && alarm(event) {
      assert About(field)(event) && event in events;
    }
  }

  /** The value turns from `good` to `bad` in one step. */
  predicate Turns(values: seq<Value>, good: Value -> bool, bad: Value -> bool, n: int) {
    0 < n < |values| && good(values[n - 1]) && bad(values[n])
  }

  /** The comparison raises the alarm exactly on turning from good to bad. */
  ghost predicate AlarmsOn(compare: Comparison, alarm: Event -> bool, good: Value -> bool, bad: Value -> bool) {
    forall before, after :: HasAlarm(compare(before, after), alarm) <==> good(before) && bad(after)
  }

  lemma AlarmedOnTurns(history: seq<Snapshot>, field: Field, alarm: Event -> bool, good: Value -> bool,
                       bad: Value -> bool)
    requires AlarmsOn(ComparisonOf(field), alarm, good, bad)
    ensures Alarmed(history, field, alarm) <==> exists n :: Turns(Values(history, field), good, bad, n)
  {
    var values, compare := Values(history, field), ComparisonOf(field);
    AlarmedAbout(Log(history), field, alarm);
    LogAbout(history, field);
    StepsAlarm(values, compare, alarm);
    forall n ensures AlarmAt(values, compare, alarm, n) <==> Turns(values, good, bad, n) {
    }
  }

  /** What is bad at the end and good at the start turned bad in some step, when every value is one or the other. */
  lemma {:induction false} MustTurn(values: seq<Value>, good: Value -> bool, bad: Value -> bool)
    requires values != [] && good(values[0]) && bad(values[|values| - 1])
    requires forall n :: 0 <= n < |values| ==> (good(values[n]) <==> !bad(values[n]))
    ensures exists n :: Turns(values, good, bad, n)
  {
    var last := |values| - 1;
    if bad(values[last - 1]) {
      MustTurn(values[..last], good, bad);
      var n :| Turns(values[..last], good, bad, n);
      assert Turns(values, good, bad, n);
    } else {
      assert Turns(values, good, bad, last);
    }
  }

  predicate IsNoindexAlarm(event: Event) {
    event.kind == PageBecameNoindex && event.severity == CRITICAL
  }

  predicate IsCritical(event: Event) {
    event.severity == CRITICAL
  }

  predicate IsIndexable(value: Value) {
    !IsNoindex(value)
  }

  lemma NoindexAlarms(field: Field)
    requires field == MetaRobots || field == XRobots
    ensures AlarmsOn(ComparisonOf(field), IsNoindexAlarm, IsIndexable, IsNoindex)
  {
    forall before, after
      ensures HasAlarm(ComparisonOf(field)(before, after), IsNoindexAlarm) <==> IsIndexable(before) && IsNoindex(after)
    {
      if IsIndexable(before) && IsNoindex(after) {
        assert RobotsEvent(field, before, after) in FieldEvents(field, before, after);
      }
    }
  }

  lemma StatusAlarms()
    ensures AlarmsOn(ComparisonOf(Status), IsCritical, IsOk, IsError)
  {
    forall before, after
      ensures HasAlarm(ComparisonOf(Status)(before, after), IsCritical) <==> IsOk(before) && IsError(after)
    {
      if IsOk(before) && IsError(after) {
        assert StatusEvent(before, after) in FieldEvents(Status, before, after);
      }
    }
  }

  /** A channel raises a critical noindex event exactly when it turns to noindex between two snapshots. */
  lemma NoindexIsReported(history: seq<Snapshot>, field: Field)
    requires field == MetaRobots || field == XRobots
    ensures Alarmed(history, field, IsNoindexAlarm)
       <==> exists n :: Turns(Values(history, field), IsIndexable, IsNoindex, n)
  {
    NoindexAlarms(field);
    AlarmedOnTurns(history, field, IsNoindexAlarm, IsIndexable, IsNoindex);
  }

  lemma TurnsToNoindex(values: seq<Value>)
    requires values != [] && IsIndexable(values[0]) && IsNoindex(values[|values| - 1])
    ensures exists n :: Turns(values, IsIndexable, IsNoindex, n)
  {
    MustTurn(values, IsIndexable, IsNoindex);
  }

  /** So it does when the page is noindex at the end and was indexable at the start. */
  lemma NoindexAtEndIsReported(history: seq<Snapshot>, field: Field)
    requires (field == MetaRobots || field == XRobots) && history != []
    requires IsIndexable(ValueOf(history[0], field)) && IsNoindex(ValueOf(history[|history| - 1], field))
    ensures Alarmed(history, field, IsNoindexAlarm)
  {
    NoindexIsReported(history, field);
    TurnsToNoindex(Values(history, field));
  }

  /** The status raises a critical event exactly when it goes from a known success to a known error between
      two snapshots. */
  lemma ErrorsAreReported(history: seq<Snapshot>, status: Field)
    requires status == Status
    ensures Alarmed(history, status, IsCritical) <==> exists n :: Turns(Values(history, status), IsOk, IsError, n)
  {
    StatusAlarms();
    AlarmedOnTurns(history, status, IsCritical, IsOk, IsError);
  }

  lemma TurnsToError(values: seq<Value>)
    requires values != [] && IsOk(values[0]) && IsError(values[|values| - 1])
    requires forall n :: 0 <= n < |values| ==> values[n].Number? && values[n].number.Some?
    ensures exists n :: Turns(values, IsOk, IsError, n)
  {
    MustTurn(values, IsOk, IsError);
  }

  /** So it does, with no unknown status, when it starts a success and ends an error. */
  lemma ErrorAtEndIsReported(history: seq<Snapshot>, status: Field)
    requires status == Status && history != [] && forall n :: 0 <= n < |history| ==> history[n].httpStatus.Some?
    requires IsOk(ValueOf(history[0], status)) && IsError(ValueOf(history[|history| - 1], status))
    ensures Alarmed(history, status, IsCritical)
  {
    ErrorsAreReported(history, status);
    TurnsToError(Values(history, status));
  }

  /** An unknown status in between hides the error: the log from 200 over unknown to 500 raises no alarm. */
  lemma UnknownStatusHidesError(history: seq<Snapshot>, status: Field)
    requires status == Status
    requires Values(history, status) == [Number(Some(200)), Number(None), Number(Some(500))]
    ensures IsOk(ValueOf(history[0], status)) && IsError(ValueOf(history[2], status))
    ensures !Alarmed(history, status, IsCritical)
  {
    var values := Values(history, status);
    assert values[0] == ValueOf(history[0], status) && values[2] == ValueOf(history[2], status);
    ErrorsAreReported(history, status);
    forall n ensures !Turns(values, IsOk, IsError, n) {
      assert n == 0 || n == 1 || !(0 <= n < |values| - 1);
    }
  }
}
