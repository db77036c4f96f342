/**
 * The traffic signal (traffic-signal.ts): two windows of daily points, or two sets of page rows, compared.
 * Dates are ordered keys, clicks are counts, positions and ratios are reals.
 */
module Traffic {
  import opened Prelude
  import opened Sorting

  datatype Point = Point(date: int, clicks: nat, position: Option<real>)

  datatype Row = Row(clicks: nat, position: real)

  datatype Level = Quiet | Medium | High

  datatype Scope = PageScope | SiteScope

  datatype Signal = Signal(
    level: Level,
    clicksDelta: int,
    dropRatio: real,
    positionBefore: Option<real>,
    positionAfter: Option<real>,
    scope: Scope)

  datatype Options = Options(
    windowDays: Option<nat>,
    minPreviousClicks: Option<int>,
    mediumDropRatio: Option<real>,
    highDropRatio: Option<real>)

  function OrDefault<T>(value: Option<T>, fallback: T): T {
    if value.Some? then value.value else fallback
  }

  function WindowDays(options: Options): nat {
    OrDefault(options.windowDays, 7)
  }

  function MinPreviousClicks(options: Options): int {
    OrDefault(options.minPreviousClicks, 20)
  }

  function MediumRatio(options: Options): real {
    OrDefault(options.mediumDropRatio, 0.25)
  }

  function HighRatio(options: Options): real {
    OrDefault(options.highDropRatio, 0.5)
  }

  // ---------- Sums and averages ----------

  function Sum<T>(s: seq<T>, f: T -> real): real {
    if s == [] then 0.0 else Sum(s[..|s| - 1], f) + f(s[|s| - 1])
  }

  function ClicksOf(point: Point): nat {
    point.clicks
  }

  function RowClicks(row: Row): nat {
    row.clicks
  }

  predicate HasPosition(point: Point) {
    point.position.Some?
  }

  function PositionOf(point: Point): real {
    if point.position.Some? then point.position.value else 0.0
  }

  function AveragePosition(points: seq<Point>): Option<real> {
    var known := Filtered(points, HasPosition);
    if known == [] then None else Some(Sum(known, PositionOf) / |known| as real)
  }

  function RowPosition(row: Row): real {
    row.position
  }

  function WeightedPosition(row: Row): real {
    row.position * row.clicks as real
  }

  function AverageRowPosition(rows: seq<Row>): Option<real> {
    if rows == [] then None
    else
      var clicks := Total(rows, RowClicks);
      if clicks > 0 then Some(Sum(rows, WeightedPosition) / clicks as real)
      else Some(Sum(rows, RowPosition) / |rows| as real)
  }

  // ---------- The signal ----------

  function NoSignal(scope: Scope): Signal {
    Signal(Quiet, 0, 0.0, None, None, scope)
  }

  function DropRatio(current: nat, previous: nat): real {
    if current < previous then (previous - current) as real / previous as real else 0.0
  }

  function LevelOf(ratio: real, options: Options): Level {
    if ratio >= HighRatio(options) then High else if ratio >= MediumRatio(options) then Medium else Quiet
  }

  function BuildSignal(current: nat, previous: nat, before: Option<real>, after: Option<real>, scope: Scope,
                       options: Options): Signal
  {
    var ratio := DropRatio(current, previous);
    Signal(LevelOf(ratio, options), current - previous, ratio, before, after, scope)
  }

  predicate NotLater(x: Point, y: Point) {
    x.date <= y.date
  }

  function CurrentWindow(points: seq<Point>, window: nat): seq<Point>
    requires |points| >= window + window
  {
    points[|points| - window..]
  }

  function PreviousWindow(points: seq<Point>, window: nat): seq<Point>
    requires |points| >= window + window
  {
    points[|points| - (window + window)..|points| - window]
  }

  function CompareWindows(previous: seq<Point>, current: seq<Point>, options: Options): Signal {
    if Total(previous, ClicksOf) < MinPreviousClicks(options) then NoSignal(SiteScope)
    else
      BuildSignal(Total(current, ClicksOf), Total(previous, ClicksOf), AveragePosition(previous),
                  AveragePosition(current), SiteScope, options)
  }

  /** The signal of the last two windows of points in date order. */
  function WindowSignal(points: seq<Point>, options: Options): Signal {
    var window := WindowDays(options);
    if |points| < window + window then NoSignal(SiteScope)
    else CompareWindows(PreviousWindow(points, window), CurrentWindow(points, window), options)
  }

  function TrafficSignal(points: seq<Point>, options: Options): Signal {
    WindowSignal(Sort(points, NotLater), options)
  }

  function PageTrafficSignal(current: seq<Row>, baseline: seq<Row>, options: Options): Signal {
    if Total(baseline, RowClicks) < MinPreviousClicks(options) then NoSignal(PageScope)
    else
      BuildSignal(Total(current, RowClicks), Total(baseline, RowClicks), AverageRowPosition(baseline),
                  AverageRowPosition(current), PageScope, options)
  }

  // ---------- What the signal does not depend on ----------

  function DateOf(point: Point): int {
    point.date
  }

  predicate DistinctDates(points: seq<Point>) {
    Distinct(Mapped(points, DateOf))
  }

  lemma DatesSeparate(points: seq<Point>)
    requires DistinctDates(points)
    ensures Separates(NotLater, points)
  {
    forall x, y | x in points && y in points && NotLater(x, y) && NotLater(y, x) ensures x == y {
      var i :| 0 <= i < |points| && points[i] == x;
      var j :| 0 <= j < |points| && points[j] == y;
      assert Mapped(points, DateOf)[i] == x.date && Mapped(points, DateOf)[j] == y.date;
      SameDateSamePoint(points, i, j);
    }
  }

  lemma SameDateSamePoint(points: seq<Point>, i: nat, j: nat)
    requires DistinctDates(points) && i < |points| && j < |points| && points[i].date == points[j].date
    ensures i == j
  {
    var dates := Mapped(points, DateOf);
    assert dates[i] == dates[j];
    if i < j {
      DistinctAt(dates, i, j);
    } else if j < i {
      DistinctAt(dates, j, i);
    }
  }

  /** Points with distinct dates can be given in any order. */
  lemma OrderOfPointsDoesNotMatter(a: seq<Point>, b: seq<Point>, options: Options)
    requires DistinctDates(a) && multiset(a) == multiset(b)
    ensures TrafficSignal(a, options) == TrafficSignal(b, options)
  {
    DatesSeparate(a);
    SortsAlike(a, b, NotLater);
  }

  lemma {:induction false} InsertBehind<T>(a: seq<T>, b: seq<T>, t: T, leq: (T, T) -> bool)
    requires forall i :: 0 <= i < |a| ==> leq(a[i], t)
    ensures Insert(a + b, t, leq) == a + Insert(b, t, leq)
  {
    if b == [] {
      assert a + b == a;
    } else {
      var before, last := b[..|b| - 1], b[|b| - 1];
      assert (a + b)[..|a + b| - 1] == a + before;
      if !leq(last, t) {
        InsertBehind(a, before, t, leq);
        ConcatAssociates(a, Insert(before, t, leq), [last]);
      } else {
        ConcatSnoc(a, b, t);
      }
    }
  }

  lemma {:induction false} SortBehind<T(!new)>(a: seq<T>, b: seq<T>, leq: (T, T) -> bool)
    requires forall x, y :: x in a && y in b ==> leq(x, y)
    ensures Sort(a + b, leq) == Sort(a, leq) + Sort(b, leq)
  {
    if b == [] {
      assert a + b == a;
    } else {
      var before, last := b[..|b| - 1], b[|b| - 1];
      assert (a + b)[..|a + b| - 1] == a + before;
      SortBehind(a, before, leq);
      SortMembers(a, leq);
      forall i | 0 <= i < |a| ensures leq(Sort(a, leq)[i], last) {
        assert Sort(a, leq)[i] in multiset(Sort(a, leq));
        assert Sort(a, leq)[i] in a;
      }
      InsertBehind(Sort(a, leq), Sort(before, leq), last, leq);
    }
  }

  /** Once there are two windows, points before all others change nothing. */
  lemma OlderPointsDoNotMatter(older: seq<Point>, points: seq<Point>, options: Options)
    requires |points| >= WindowDays(options) + WindowDays(options)
    requires forall x, y :: x in older && y in points ==> x.date <= y.date
    ensures TrafficSignal(older + points, options) == TrafficSignal(points, options)
  {
    SortBehind(older, points, NotLater);
    SortMembers(points, NotLater);
    SuffixSignal(Sort(older, NotLater), Sort(points, NotLater), options);
  }

  lemma SuffixSignal(front: seq<Point>, points: seq<Point>, options: Options)
    requires |points| >= WindowDays(options) + WindowDays(options)
    ensures WindowSignal(front + points, options) == WindowSignal(points, options)
  {
    SameWindows(front, points, WindowDays(options));
  }

  lemma SameWindows(front: seq<Point>, points: seq<Point>, window: nat)
    requires |points| >= window + window
    ensures CurrentWindow(front + points, window) == CurrentWindow(points, window)
    ensures PreviousWindow(front + points, window) == PreviousWindow(points, window)
  {
  }

  // ---------- What the signal says ----------

  lemma SignalOfWindows(earlier: seq<Point>, previous: seq<Point>, current: seq<Point>, options: Options)
    requires |previous| == |current| == WindowDays(options)
    requires Ordered(earlier + previous + current, NotLater)
    ensures TrafficSignal(earlier + previous + current, options) == CompareWindows(previous, current, options)
  {
    var points, window := earlier + previous + current, WindowDays(options);
    SortKeeps(points, NotLater);
    assert CurrentWindow(points, window) == current && PreviousWindow(points, window) == previous;
  }

  /** Points given in date order: the last window is compared with the one directly before it, old against
      new, and a previous window with too few clicks gives no signal. */
  lemma SignalComparesLastWindows(earlier: seq<Point>, previous: seq<Point>, current: seq<Point>, options: Options)
    requires |previous| == |current| == WindowDays(options)
    requires Ordered(earlier + previous + current, NotLater)
    ensures var signal := TrafficSignal(earlier + previous + current, options);
            if Total(previous, ClicksOf) < MinPreviousClicks(options) then signal == NoSignal(SiteScope)
            else
              && signal.clicksDelta == Total(current, ClicksOf) - Total(previous, ClicksOf)
              && signal.positionBefore == AveragePosition(previous) && signal.positionAfter == AveragePosition(current)
              && (signal.level == Quiet
                  <==> signal.dropRatio < HighRatio(options) && signal.dropRatio < MediumRatio(options))
              && (signal.level == High <==> signal.dropRatio >= HighRatio(options))
  {
    SignalOfWindows(earlier, previous, current, options);
  }

  /** The ratio is the part of the previous clicks that was lost: 0 when none were, at most 1. */
  lemma RatioIsAShare(current: nat, previous: nat)
    ensures 0.0 <= DropRatio(current, previous) <= 1.0
    ensures DropRatio(current, previous) > 0.0 <==> current < previous
    ensures DropRatio(current, previous) == 1.0 <==> current == 0 < previous
    ensures current <= previous ==> DropRatio(current, previous) * previous as real == (previous - current) as real
  {
    if current < previous {
      var lost, all := (previous - current) as real, previous as real;
      assert lost / all * all == lost;
      ShareAtMostOne(lost, all);
    }
  }

  lemma ShareAtMostOne(part: real, whole: real)
    requires 0.0 < part <= whole
    ensures 0.0 < part / whole <= 1.0 && (part / whole == 1.0 <==> part == whole)
  {
    var share := part / whole;
    assert share * whole == part;
    if share > 1.0 {
      Larger(share, 1.0, whole);
    }
  }

  lemma Larger(x: real, y: real, factor: real)
    requires x > y && factor > 0.0
    ensures x * factor > y * factor
  {
  }

  function Rank(level: Level): nat {
    match level case Quiet => 0 case Medium => 1 case High => 2
  }

  lemma RatioGrows(fewer: nat, current: nat, previous: nat)
    requires fewer <= current
    ensures DropRatio(fewer, previous) >= DropRatio(current, previous)
  {
    if fewer < current < previous {
      var less, more, all := (previous - current) as real, (previous - fewer) as real, previous as real;
      assert less / all * all == less && more / all * all == more;
      if more / all < less / all {
        Larger(less / all, more / all, all);
      }
    } else if current >= previous {
      RatioIsAShare(fewer, previous);
    }
  }

  /** Fewer current clicks never lower the level, whatever the thresholds are. */
  lemma LevelGrowsAsClicksFall(fewer: nat, current: nat, previous: nat, options: Options)
    requires fewer <= current
    ensures Rank(LevelOf(DropRatio(fewer, previous), options)) >= Rank(LevelOf(DropRatio(current, previous), options))
  {
    RatioGrows(fewer, current, previous);
  }

  /** For page rows: with the same baseline, fewer clicks never lower the level of the signal. */
  lemma PageLevelGrows(fewer: seq<Row>, current: seq<Row>, baseline: seq<Row>, options: Options)
    requires Total(fewer, RowClicks) <= Total(current, RowClicks)
    ensures Rank(PageTrafficSignal(fewer, baseline, options).level)
         >= Rank(PageTrafficSignal(current, baseline, options).level)
    ensures 0.0 <= PageTrafficSignal(current, baseline, options).dropRatio <= 1.0
  {
    LevelGrowsAsClicksFall(Total(fewer, RowClicks), Total(current, RowClicks), Total(baseline, RowClicks), options);
    RatioIsAShare(Total(current, RowClicks), Total(baseline, RowClicks));
  }

  lemma CompareGrows(previous: seq<Point>, current: seq<Point>, fewer: seq<Point>, options: Options)
    requires Total(fewer, ClicksOf) <= Total(current, ClicksOf)
    ensures Rank(CompareWindows(previous, fewer, options).level)
         >= Rank(CompareWindows(previous, current, options).level)
  {
    LevelGrowsAsClicksFall(Total(fewer, ClicksOf), Total(current, ClicksOf), Total(previous, ClicksOf), options);
  }

  /** For daily points: after the same previous window, fewer clicks in the last one never lower the level of
      the signal, whatever comes before the two windows. */
  lemma SiteLevelGrows(earlier: seq<Point>, previous: seq<Point>, current: seq<Point>, others: seq<Point>,
                       fewer: seq<Point>, options: Options)
    requires |previous| == |current| == |fewer| == WindowDays(options)
    requires Ordered(earlier + previous + current, NotLater) && Ordered(others + previous + fewer, NotLater)
    requires Total(fewer, ClicksOf) <= Total(current, ClicksOf)
    ensures Rank(TrafficSignal(others + previous + fewer, options).level)
         >= Rank(TrafficSignal(earlier + previous + current, options).level)
  {
    SignalOfWindows(earlier, previous, current, options);
    SignalOfWindows(others, previous, fewer, options);
    CompareGrows(previous, current, fewer, options);
  }

  // ---------- Averages lie between the extremes ----------

  /** `x` added up `n` times. */
  function Times(x: real, n: nat): real {
    if n == 0 then 0.0 else Times(x, n - 1) + x
  }

  lemma {:induction false} TimesIsProduct(x: real, n: nat)
    ensures Times(x, n) == x * n as real
  {
    if n > 0 {
      TimesIsProduct(x, n - 1);
      assert x * n as real == x * (n - 1) as real + x;
    }
  }

  lemma {:induction false} TimesSum(x: real, a: nat, b: nat)
    ensures Times(x, a + b) == Times(x, a) + Times(x, b)
  {
    if b > 0 {
      TimesSum(x, a, b - 1);
    }
  }

  lemma {:induction false} TimesGrows(low: real, x: real, n: nat)
    requires low <= x
    ensures Times(low, n) <= Times(x, n)
  {
    if n > 0 {
      TimesGrows(low, x, n - 1);
    }
  }

  /** `f` of every element lies between `low` and `high`, taken as often as the element weighs. */
  ghost predicate Bounded<T>(s: seq<T>, f: T -> real, weight: T -> nat, low: real, high: real) {
    forall i :: 0 <= i < |s| ==> Times(low, weight(s[i])) <= f(s[i]) <= Times(high, weight(s[i]))
  }

  lemma {:induction false} SumBounds<T>(s: seq<T>, f: T -> real, weight: T -> nat, low: real, high: real)
    requires Bounded(s, f, weight, low, high)
    ensures Times(low, Total(s, weight)) <= Sum(s, f) <= Times(high, Total(s, weight))
  {
    if s != [] {
      var before, last := s[..|s| - 1], s[|s| - 1];
      SumBounds(before, f, weight, low, high);
      TimesSum(low, Total(before, weight), weight(last));
      TimesSum(high, Total(before, weight), weight(last));
    }
  }

  lemma QuotientTimes(sum: real, count: real)
    requires count > 0.0
    ensures sum / count * count == sum
  {
  }

  lemma QuotientAtLeast(low: real, sum: real, count: real)
    requires count > 0.0 && low * count <= sum
    ensures low <= sum / count
  {
    QuotientTimes(sum, count);
    if sum / count < low {
      Larger(low, sum / count, count);
    }
  }

  lemma QuotientAtMost(sum: real, count: real, high: real)
    requires count > 0.0 && sum <= high * count
    ensures sum / count <= high
  {
    QuotientTimes(sum, count);
    if high < sum / count {
      Larger(sum / count, high, count);
    }
  }

  lemma QuotientBounds(sum: real, count: nat, low: real, high: real)
    requires count > 0 && Times(low, count) <= sum <= Times(high, count)
    ensures Between(low, sum / count as real, high)
  {
    TimesIsProduct(low, count);
    TimesIsProduct(high, count);
    QuotientAtLeast(low, sum, count as real);
    QuotientAtMost(sum, count as real, high);
  }

  /** An average over bounded values is bounded. */
  lemma AverageBounds<T>(s: seq<T>, f: T -> real, weight: T -> nat, low: real, high: real)
    requires Bounded(s, f, weight, low, high) && Total(s, weight) > 0
    ensures Between(low, Sum(s, f) / Total(s, weight) as real, high)
  {
    SumBounds(s, f, weight, low, high);
    QuotientBounds(Sum(s, f), Total(s, weight), low, high);
  }

  function One<T>(t: T): nat {
    1
  }

  lemma {:induction false} TotalOfOnes<T>(s: seq<T>)
    ensures Total(s, One) == |s|
  {
    if s != [] {
      TotalOfOnes(s[..|s| - 1]);
    }
  }

  lemma OnceBounded<T>(s: seq<T>, f: T -> real, low: real, high: real)
    requires forall i :: 0 <= i < |s| ==> Between(low, f(s[i]), high)
    ensures Bounded(s, f, One, low, high)
  {
    forall i | 0 <= i < |s| ensures Times(low, One(s[i])) <= f(s[i]) <= Times(high, One(s[i])) {
      assert Times(low, 1) == Times(low, 0) + low && Times(high, 1) == Times(high, 0) + high;
    }
  }

  predicate Between(low: real, x: real, high: real) {
    low <= x <= high
  }

  /** The average of the known positions lies between any bounds that hold for all of them. */
  lemma AverageIsBetween(points: seq<Point>, low: real, high: real)
    requires forall point :: point in points && point.position.Some? ==> Between(low, point.position.value, high)
    ensures AveragePosition(points).Some? <==> exists point :: point in points && point.position.Some?
    ensures AveragePosition(points).Some? ==> Between(low, AveragePosition(points).value, high)
  {
    var known := Filtered(points, HasPosition);
    if known != [] {
      assert known[0] in known;
      forall i | 0 <= i < |known| ensures Between(low, PositionOf(known[i]), high) {
        assert known[i] in known;
      }
      OnceBounded(known, PositionOf, low, high);
      TotalOfOnes(known);
      AverageBounds(known, PositionOf, One, low, high);
    }
  }

  lemma ClicksBounded(rows: seq<Row>, low: real, high: real)
    requires forall row :: row in rows ==> Between(low, row.position, high)
    ensures Bounded(rows, WeightedPosition, RowClicks, low, high)
  {
    forall i | 0 <= i < |rows|
      ensures Times(low, rows[i].clicks) <= WeightedPosition(rows[i]) <= Times(high, rows[i].clicks)
    {
      assert rows[i] in rows;
      TimesGrows(low, rows[i].position, rows[i].clicks);
      TimesGrows(rows[i].position, high, rows[i].clicks);
      TimesIsProduct(rows[i].position, rows[i].clicks);
    }
  }

  /** So does the average over page rows, weighted by clicks or not. */
  lemma RowAverageIsBetween(rows: seq<Row>, low: real, high: real)
    requires rows != [] && forall row :: row in rows ==> Between(low, row.position, high)
    ensures AverageRowPosition(rows).Some? && Between(low, AverageRowPosition(rows).value, high)
  {
    if Total(rows, RowClicks) > 0 {
      ClicksBounded(rows, low, high);
      AverageBounds(rows, WeightedPosition, RowClicks, low, high);
    } else {
      forall i | 0 <= i < |rows| ensures Between(low, RowPosition(rows[i]), high) {
        assert rows[i] in rows;
      }
      OnceBounded(rows, RowPosition, low, high);
      TotalOfOnes(rows);
      AverageBounds(rows, RowPosition, One, low, high);
    }
  }
}
