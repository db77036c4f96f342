/** What the fields of a traffic signal (traffic-signal.ts) say about the clicks and positions it was computed from. */
module SignalValues {
  import opened Prelude
  import opened Sorting
  import opened Traffic

  /** The signal tells a change from `previous` to `current` clicks: the share lost and the thresholds it reaches. */
  ghost predicate Tells(signal: Signal, previous: nat, current: nat, high: real, medium: real) {
    && signal.clicksDelta == current - previous
    && (current >= previous ==> signal.dropRatio == 0.0)
    && (current < previous ==> signal.dropRatio * previous as real == (previous - current) as real)
    && (signal.level == High <==> signal.dropRatio >= high)
    && (signal.level == Medium <==> signal.dropRatio < high && signal.dropRatio >= medium)
  }

  lemma BuiltTells(previous: nat, current: nat, before: Option<real>, after: Option<real>, scope: Scope,
                   options: Options)
    ensures Tells(BuildSignal(current, previous, before, after, scope, options), previous, current,
                  if options.highDropRatio.Some? then options.highDropRatio.value else 0.5,
                  if options.mediumDropRatio.Some? then options.mediumDropRatio.value else 0.25)
  {
    if current < previous {
      var lost, all := (previous - current) as real, previous as real;
      assert lost / all * all == lost;
    }
  }

  // ---------- Sums over points and rows ----------

  function Clicks(points: seq<Point>): nat {
    if points == [] then 0 else Clicks(points[..|points| - 1]) + points[|points| - 1].clicks
  }

  /** How many points have a position. */
  function Positioned(points: seq<Point>): nat {
    if points == [] then 0
    else Positioned(points[..|points| - 1]) + if points[|points| - 1].position.Some? then 1 else 0
  }

  /** The positions of the points that have one, added up. */
  function Positions(points: seq<Point>): real {
    if points == [] then 0.0
    else Positions(points[..|points| - 1])
         + if points[|points| - 1].position.Some? then points[|points| - 1].position.value else 0.0
  }

  lemma {:induction false} PointSums(points: seq<Point>)
    ensures Total(points, ClicksOf) == Clicks(points)
    ensures var known := Filtered(points, HasPosition);
            |known| == Positioned(points) && Sum(known, PositionOf) == Positions(points)
  {
    if points != [] {
      var before, last := points[..|points| - 1], points[|points| - 1];
      PointSums(before);
      var known := Filtered(before, HasPosition);
      assert (known + [last])[..|known|] == known;
    }
  }

  /** The mean of the known positions; none when none is known. */
  predicate IsMean(position: Option<real>, points: seq<Point>) {
    if Positioned(points) == 0 then position.None?
    else position.Some? && position.value * Positioned(points) as real == Positions(points)
  }

  lemma AverageOf(points: seq<Point>, count: nat, sum: real)
    requires count == Positioned(points) && sum == Positions(points)
    ensures AveragePosition(points) == if count == 0 then None else Some(sum / count as real)
  {
    PointSums(points);
  }

  lemma AverageIsMean(points: seq<Point>)
    ensures IsMean(AveragePosition(points), points)
  {
    var count, sum := Positioned(points), Positions(points);
    AverageOf(points, count, sum);
    if count > 0 {
      QuotientTimes(sum, count as real);
    }
  }

  // ---------- The site signal ----------

  predicate InDateOrder(points: seq<Point>) {
    forall i, j :: 0 <= i < j < |points| ==> points[i].date <= points[j].date
  }

  lemma {:induction false} DateOrderIsOrder(points: seq<Point>)
    requires InDateOrder(points)
    ensures Ordered(points, NotLater)
  {
    if |points| > 1 {
      DateOrderIsOrder(points[..|points| - 1]);
    }
  }

  /** Points in date order: above the minimum of clicks the signal tells the change from the last window but one
      to the last, and the mean positions of the two. */
  lemma SiteSignalTells(earlier: seq<Point>, previous: seq<Point>, current: seq<Point>, options: Options)
    requires |previous| == |current| == if options.windowDays.Some? then options.windowDays.value else 7
    requires InDateOrder(earlier + previous + current)
    ensures var signal := TrafficSignal(earlier + previous + current, options);
            if Clicks(previous) < if options.minPreviousClicks.Some? then options.minPreviousClicks.value else 20
            then signal == Signal(Quiet, 0, 0.0, None, None, SiteScope)
            else
              && Tells(signal, Clicks(previous), Clicks(current),
                       if options.highDropRatio.Some? then options.highDropRatio.value else 0.5,
                       if options.mediumDropRatio.Some? then options.mediumDropRatio.value else 0.25)
              && IsMean(signal.positionBefore, previous) && IsMean(signal.positionAfter, current)
              && signal.scope == SiteScope
  {
    DateOrderIsOrder(earlier + previous + current);
    SignalOfWindows(earlier, previous, current, options);
    BuiltTells(Clicks(previous), Clicks(current), AveragePosition(previous),
               AveragePosition(current), SiteScope, options);
    PointSums(previous);
    PointSums(current);
    AverageIsMean(previous);
    AverageIsMean(current);
  }

  /** Fewer points than two windows give no signal. */
  lemma TooFewPoints(points: seq<Point>, options: Options)
    requires |points| < 2 * if options.windowDays.Some? then options.windowDays.value else 7
    ensures TrafficSignal(points, options) == Signal(Quiet, 0, 0.0, None, None, SiteScope)
  {
    SortMembers(points, NotLater);
    assert |multiset(Sort(points, NotLater))| == |multiset(points)|;
  }

  // ---------- Page rows ----------

  function ClicksIn(rows: seq<Row>): nat {
    if rows == [] then 0 else ClicksIn(rows[..|rows| - 1]) + rows[|rows| - 1].clicks
  }

  /** The positions of the rows added up, each as often as it was clicked. */
  function PositionsByClicks(rows: seq<Row>): real {
    if rows == [] then 0.0
    else PositionsByClicks(rows[..|rows| - 1]) + rows[|rows| - 1].clicks as real * rows[|rows| - 1].position
  }

  function PositionsIn(rows: seq<Row>): real {
    if rows == [] then 0.0 else PositionsIn(rows[..|rows| - 1]) + rows[|rows| - 1].position
  }

  /** The mean position of the rows, by clicks if there are any. */
  ghost predicate IsRowMean(position: Option<real>, rows: seq<Row>) {
    if rows == [] then position.None?
    else if ClicksIn(rows) > 0 then
      position.Some? && position.value * ClicksIn(rows) as real == PositionsByClicks(rows)
    else position.Some? && position.value * |rows| as real == PositionsIn(rows)
  }

  lemma {:induction false} RowSums(rows: seq<Row>)
    ensures Sum(rows, WeightedPosition) == PositionsByClicks(rows) && Sum(rows, RowPosition) == PositionsIn(rows)
    ensures Total(rows, RowClicks) == ClicksIn(rows)
  {
    if rows != [] {
      RowSums(rows[..|rows| - 1]);
    }
  }

  lemma RowAverageIsMean(rows: seq<Row>)
    ensures IsRowMean(AverageRowPosition(rows), rows)
  {
    RowSums(rows);
    if rows != [] {
      if Total(rows, RowClicks) > 0 {
        QuotientTimes(Sum(rows, WeightedPosition), Total(rows, RowClicks) as real);
      } else {
        QuotientTimes(Sum(rows, RowPosition), |rows| as real);
      }
    }
  }

  /** For page rows: above the minimum of clicks the signal tells the change from the baseline to the current rows. */
  lemma PageSignalTells(current: seq<Row>, baseline: seq<Row>, options: Options)
    ensures var signal := PageTrafficSignal(current, baseline, options);
            if ClicksIn(baseline) < if options.minPreviousClicks.Some? then options.minPreviousClicks.value else 20
            then signal == Signal(Quiet, 0, 0.0, None, None, PageScope)
            else
              && Tells(signal, ClicksIn(baseline), ClicksIn(current),
                       if options.highDropRatio.Some? then options.highDropRatio.value else 0.5,
                       if options.mediumDropRatio.Some? then options.mediumDropRatio.value else 0.25)
              && IsRowMean(signal.positionBefore, baseline) && IsRowMean(signal.positionAfter, current)
              && signal.scope == PageScope
  {
    BuiltTells(ClicksIn(baseline), ClicksIn(current), AverageRowPosition(baseline),
               AverageRowPosition(current), PageScope, options);
    RowSums(baseline);
    RowSums(current);
    RowAverageIsMean(baseline);
    RowAverageIsMean(current);
  }
}
