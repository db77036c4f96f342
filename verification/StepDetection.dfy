/** From two snapshots through their events to the candidates (diff.ts, then regression-engine.ts). */
module StepDetection {
  import opened Prelude
  import opened Diff
  import ChangeLog
  import R = Regression

  /** Some comparison reports an event of this kind. */
  ghost predicate StepHas(p: Snapshot, c: Snapshot, kind: Kind) {
    exists event :: event in Diffed(p, c) && event.kind == kind
  }

  ghost predicate FieldHas(field: Field, before: Value, after: Value, kind: Kind) {
    exists event :: event in FieldEvents(field, before, after) && event.kind == kind
  }

  /** An event of a step is one of the comparison of its field. */
  lemma EventOfField(p: Snapshot, c: Snapshot, event: Event)
    requires event in Diffed(p, c)
    ensures FieldHas(event.field, ValueOf(p, event.field), ValueOf(c, event.field), event.kind)
  {
    ChangeLog.StepAbout(p, c, event.field);
    assert ChangeLog.About(event.field)(event);
    assert event in FieldEvents(event.field, ValueOf(p, event.field), ValueOf(c, event.field));
  }

  lemma FieldOfStep(p: Snapshot, c: Snapshot, field: Field, kind: Kind)
    requires FieldHas(field, ValueOf(p, field), ValueOf(c, field), kind)
    ensures StepHas(p, c, kind)
  {
    ChangeLog.StepAbout(p, c, field);
    var event :| event in FieldEvents(field, ValueOf(p, field), ValueOf(c, field)) && event.kind == kind;
    assert event in Filtered(Diffed(p, c), ChangeLog.About(field));
  }

  lemma StepHasField(p: Snapshot, c: Snapshot, kind: Kind)
    ensures StepHas(p, c, kind) <==> exists field :: FieldHas(field, ValueOf(p, field), ValueOf(c, field), kind)
  {
    if StepHas(p, c, kind) {
      var event :| event in Diffed(p, c) && event.kind == kind;
      EventOfField(p, c, event);
    }
    if field :| FieldHas(field, ValueOf(p, field), ValueOf(c, field), kind) {
      FieldOfStep(p, c, field, kind);
    }
  }

  predicate TurnedNoindex(before: Value, after: Value) {
    !IsNoindex(before) && IsNoindex(after)
  }

  lemma NoindexFields(field: Field, before: Value, after: Value)
    ensures FieldHas(field, before, after, PageBecameNoindex)
       <==> (field == MetaRobots || field == XRobots) && TurnedNoindex(before, after)
  {
    if (field == MetaRobots || field == XRobots) && TurnedNoindex(before, after) {
      assert RobotsEvent(field, before, after) in FieldEvents(field, before, after);
    }
  }

  lemma NotFoundFields(field: Field, before: Value, after: Value)
    ensures FieldHas(field, before, after, PageBecame404)
       <==> field == Status && IsOk(before) && after == Number(Some(404))
  {
    if field == Status && IsOk(before) && after == Number(Some(404)) {
      assert StatusEvent(before, after) in FieldEvents(field, before, after);
    }
  }

  lemma TwoChannels(p: Snapshot, c: Snapshot, holds: Field -> bool)
    requires forall field :: FieldHas(field, ValueOf(p, field), ValueOf(c, field), PageBecameNoindex) <==> holds(field)
    requires forall field :: holds(field) ==> field == MetaRobots || field == XRobots
    ensures StepHas(p, c, PageBecameNoindex) <==> holds(MetaRobots) || holds(XRobots)
  {
    StepHasField(p, c, PageBecameNoindex);
  }

  function NoindexTurn(p: Snapshot, c: Snapshot): Field -> bool {
    (field: Field) => (field == MetaRobots || field == XRobots) && TurnedNoindex(ValueOf(p, field), ValueOf(c, field))
  }

  lemma NoindexStep(p: Snapshot, c: Snapshot)
    ensures StepHas(p, c, PageBecameNoindex) <==> NoindexTurn(p, c)(MetaRobots) || NoindexTurn(p, c)(XRobots)
  {
    forall field
      ensures FieldHas(field, ValueOf(p, field), ValueOf(c, field), PageBecameNoindex) <==> NoindexTurn(p, c)(field)
    {
      NoindexFields(field, ValueOf(p, field), ValueOf(c, field));
    }
    TwoChannels(p, c, NoindexTurn(p, c));
  }

  /** A noindex candidate is raised exactly when the meta or the header channel turned to noindex in the step. */
  lemma NoindexCandidate(input: R.Input, p: Snapshot, c: Snapshot)
    requires R.Records(input.events, Diffed(p, c))
    ensures R.NoindexRule(input).Some? <==> NoindexTurn(p, c)(MetaRobots) || NoindexTurn(p, c)(XRobots)
  {
    R.FirstOfKind(input.events, Diffed(p, c), PageBecameNoindex, R.IsNoindexEvent);
    NoindexStep(p, c);
  }

  /** A 404 candidate is raised exactly when the status went from a known one under 400 to 404. */
  lemma NotFoundCandidate(input: R.Input, p: Snapshot, c: Snapshot)
    requires R.Records(input.events, Diffed(p, c))
    ensures R.NotFoundRule(input).Some?
       <==> p.httpStatus.Some? && p.httpStatus.value < 400 && c.httpStatus == Some(404)
  {
    R.FirstOfKind(input.events, Diffed(p, c), PageBecame404, R.IsNotFoundEvent);
    StepHasField(p, c, PageBecame404);
    forall field ensures FieldHas(field, ValueOf(p, field), ValueOf(c, field), PageBecame404)
      <==> field == Status && IsOk(ValueOf(p, field)) && ValueOf(c, field) == Number(Some(404))
    {
      NotFoundFields(field, ValueOf(p, field), ValueOf(c, field));
    }
  }
}
