/** What the whole area drawing of flot (public/js/plugins/flot/jquery.flot.js, plotLineArea) consists of: where its
    paths begin, that every visible pair of samples is outlined there and back, and that nothing else is. */
module FlotCover {
  import opened Basics
  import opened FlotClip
  import opened FlotLines
  import opened FlotOutline
  import opened FlotSweep
  import opened FlotArea
  import FlotRun

  // --------------------------------------------------------- where paths begin

  /** The foot of a point: on its vertical, at zero or at the border nearest to it. */
  function Foot(yaxis: Axis, p: Point): Point {
    Clamped(yaxis, Point(p.x, 0.0))
  }

  /** A path is opened at the foot of the first point of the outline that follows. */
  ghost predicate BeginsBelow(yaxis: Axis, opening: seq<Command>, path: seq<Command>) {
    |path| >= 2 && OnlyLines(path) && path[0].LineTo? && opening == [BeginPath, MoveTo(Foot(yaxis, path[0].p))]
  }

  lemma OpeningIsBelow(k: Sketch, d: Series, f: int)
    requires Sketches(k, d) && d.yaxis.min <= d.yaxis.max && k.opening(f).Some?
    ensures BeginsBelow(d.yaxis, k.opening(f).value, k.outline(f - 1, f, 1))
  {
    assert k.opening(f) == Opening(d, f);
    assert k.outline(f - 1, f, 1) == PairOutline(d, f - 1, f, 1);
    var clip := PairClip(d, f - 1, f, 1);
    FlotRun.OutlineEnds(d.yaxis, clip.p, clip.q);
    assert Outline(d.yaxis, clip.p, clip.q)[0] in Outline(d.yaxis, clip.p, clip.q);
  }

  /** Every path of the drawing goes from the foot of its first top point straight up to that point. */
  ghost predicate PathsRise(yaxis: Axis, commands: seq<Command>) {
    forall i :: 0 <= i < |commands| && commands[i].BeginPath? ==> Rises(yaxis, commands, i)
  }

  ghost predicate Rises(yaxis: Axis, commands: seq<Command>, i: int)
    requires 0 <= i < |commands|
  {
    i + 2 < |commands| && commands[i + 2].LineTo? && commands[i + 1] == MoveTo(Foot(yaxis, commands[i + 2].p))
  }

  lemma AppendKeepsRising(yaxis: Axis, done: seq<Command>, more: seq<Command>)
    requires PathsRise(yaxis, done) && forall i :: 0 <= i < |more| ==> !more[i].BeginPath?
    ensures PathsRise(yaxis, done + more)
  {
    var all, m := done + more, |done|;
    forall i | m <= i < |all|
      ensures !all[i].BeginPath?
    {
      assert all[i] == more[i - m];
    }
    forall i | 0 <= i < m && all[i].BeginPath?
      ensures Rises(yaxis, all, i)
    {
      assert Rises(yaxis, done, i);
    }
  }

  lemma OpeningRises(yaxis: Axis, done: seq<Command>, opening: seq<Command>, path: seq<Command>)
    requires PathsRise(yaxis, done) && BeginsBelow(yaxis, opening, path)
    ensures PathsRise(yaxis, (done + opening) + path)
  {
    var all, m := (done + opening) + path, |done|;
    forall i | m + 2 <= i < |all|
      ensures !all[i].BeginPath?
    {
      assert all[i] == path[i - m - 2] && path[i - m - 2] in path;
    }
    forall i | 0 <= i < m && all[i].BeginPath?
      ensures Rises(yaxis, all, i)
    {
      assert Rises(yaxis, done, i);
    }
    assert Rises(yaxis, all, m);
  }

  lemma {:induction false} TopKeepsRising(k: Sketch, yaxis: Axis, j: int, e: int, done: seq<Command>)
    requires Extends(k) && PathsRise(yaxis, done)
    ensures PathsRise(yaxis, Top(k, j, e, done))
    decreases e - j
  {
    if j < e {
      LinesBeginNothing(k.outline(j, j + 1, 1));
      AppendKeepsRising(yaxis, done, k.outline(j, j + 1, 1));
      TopKeepsRising(k, yaxis, j + 1, e, done + k.outline(j, j + 1, 1));
    }
  }

  lemma {:induction false} BottomKeepsRising(k: Sketch, yaxis: Axis, j: int, a: int, done: seq<Command>)
    requires Extends(k) && PathsRise(yaxis, done)
    ensures PathsRise(yaxis, Bottom(k, j, a, done))
    decreases j - a
  {
    if j > a {
      LinesBeginNothing(k.outline(j, j - 1, 2));
      AppendKeepsRising(yaxis, done, k.outline(j, j - 1, 2));
      BottomKeepsRising(k, yaxis, j - 1, a, done + k.outline(j, j - 1, 2));
    }
  }

  lemma LinesBeginNothing(path: seq<Command>)
    requires OnlyLines(path)
    ensures forall i :: 0 <= i < |path| ==> !path[i].BeginPath?
  {
    assert forall i :: 0 <= i < |path| ==> path[i] in path;
  }

  lemma {:induction false} SweepRises(k: Sketch, d: Series, a: int, n: int, done: seq<Command>)
    requires Sketches(k, d) && Extends(k) && d.yaxis.min <= d.yaxis.max && PathsRise(d.yaxis, done)
    ensures PathsRise(d.yaxis, Sweep(k, a, n, done))
    decreases n - a
  {
    var f := FirstVisible(k, a, n);
    if a < n && f < n {
      var e := NextGap(k, f, n);
      var begun := (done + k.opening(f).value) + k.outline(f - 1, f, 1);
      OpeningIsBelow(k, d, f);
      OpeningRises(d.yaxis, done, k.opening(f).value, k.outline(f - 1, f, 1));
      TopKeepsRising(k, d.yaxis, f, e, begun);
      var top := Top(k, f, e, begun);
      assert Top(k, f - 1, e, done + k.opening(f).value) == top;
      BottomKeepsRising(k, d.yaxis, e, a, top);
      AppendKeepsRising(d.yaxis, Bottom(k, e, a, top), [Fill]);
      SweepRises(k, d, e + 1, n, Bottom(k, e, a, top) + [Fill]);
    }
  }

  /** Each path the drawing fills begins straight below its first top point, at the clamped zero line. */
  lemma AreaPathsRise(k: Sketch, d: Series, n: nat)
    requires Sketches(k, d) && d.yaxis.min <= d.yaxis.max
    ensures PathsRise(d.yaxis, Sweep(k, 0, n, []))
  {
    SketchExtends(k, d);
    SweepRises(k, d, 0, n, []);
  }

  // -------------------------------------------------------- every pair is drawn

  ghost predicate Includes(commands: seq<Command>, part: seq<Command>) {
    exists i, j :: 0 <= i <= j <= |commands| && commands[i..j] == part
  }

  lemma IncludesAppended(done: seq<Command>, part: seq<Command>, all: seq<Command>)
    requires done + part <= all
    ensures Includes(all, part)
  {
    assert all[|done|..|done| + |part|] == (done + part)[|done|..] == part;
  }

  lemma IncludesLonger(shorter: seq<Command>, part: seq<Command>, all: seq<Command>)
    requires Includes(shorter, part) && shorter <= all
    ensures Includes(all, part)
  {
    var i, j :| 0 <= i <= j <= |shorter| && shorter[i..j] == part;
    assert all[i..j] == shorter[i..j];
  }

  lemma {:induction false} TopDraws(k: Sketch, j: int, e: int, done: seq<Command>, i: int)
    ensures done <= Top(k, j, e, done)
    ensures j <= i < e ==> Includes(Top(k, j, e, done), k.outline(i, i + 1, 1))
    decreases e - j
  {
    if j < e {
      var next := done + k.outline(j, j + 1, 1);
      TopDraws(k, j + 1, e, next, i);
      if i == j {
        IncludesAppended(done, k.outline(j, j + 1, 1), Top(k, j, e, done));
      }
    }
  }

  lemma {:induction false} BottomDraws(k: Sketch, j: int, a: int, done: seq<Command>, i: int)
    ensures done <= Bottom(k, j, a, done)
    ensures a < i <= j ==> Includes(Bottom(k, j, a, done), k.outline(i, i - 1, 2))
    decreases j - a
  {
    if j > a {
      var next := done + k.outline(j, j - 1, 2);
      BottomDraws(k, j - 1, a, next, i);
      if i == j {
        IncludesAppended(done, k.outline(j, j - 1, 2), Bottom(k, j, a, done));
      }
    }
  }

  ghost predicate ThereAndBack(k: Sketch, commands: seq<Command>, i: int) {
    Includes(commands, k.outline(i, i + 1, 1)) && Includes(commands, k.outline(i + 1, i, 2))
  }

  /** One path outlines the pairs of its run there and back. */
  lemma PathDraws(k: Sketch, a: int, f: int, e: int, begun: seq<Command>, i: int)
    ensures var bottom := Bottom(k, e, a, Top(k, f - 1, e, begun));
            begun <= bottom && (a <= i && f - 1 <= i < e ==> ThereAndBack(k, bottom, i))
  {
    var top := Top(k, f - 1, e, begun);
    TopDraws(k, f - 1, e, begun, i);
    BottomDraws(k, e, a, top, i + 1);
    if f - 1 <= i < e {
      IncludesLonger(top, k.outline(i, i + 1, 1), Bottom(k, e, a, top));
    }
  }

  lemma LongerGoesThereAndBack(k: Sketch, shorter: seq<Command>, all: seq<Command>, i: int)
    requires ThereAndBack(k, shorter, i) && shorter <= all
    ensures ThereAndBack(k, all, i)
  {
    IncludesLonger(shorter, k.outline(i, i + 1, 1), all);
    IncludesLonger(shorter, k.outline(i + 1, i, 2), all);
  }

  lemma {:induction false} SweepExtends(k: Sketch, a: int, n: int, done: seq<Command>)
    ensures done <= Sweep(k, a, n, done)
    decreases n - a
  {
    var f := FirstVisible(k, a, n);
    if a < n && f < n {
      var e := NextGap(k, f, n);
      var begun := done + k.opening(f).value;
      PathDraws(k, a, f, e, begun, a - 1);
      SweepExtends(k, e + 1, n, Bottom(k, e, a, Top(k, f - 1, e, begun)) + [Fill]);
    }
  }

  lemma DrawnOnThisPath(k: Sketch, a: int, f: int, e: int, n: int, begun: seq<Command>, i: int)
    requires a <= i && f - 1 <= i < e
    ensures ThereAndBack(k, Sweep(k, e + 1, n, Bottom(k, e, a, Top(k, f - 1, e, begun)) + [Fill]), i)
  {
    var bottom := Bottom(k, e, a, Top(k, f - 1, e, begun));
    PathDraws(k, a, f, e, begun, i);
    SweepExtends(k, e + 1, n, bottom + [Fill]);
    LongerGoesThereAndBack(k, bottom, Sweep(k, e + 1, n, bottom + [Fill]), i);
  }

  lemma VisibleIsNoGap(k: Sketch, n: int, i: int)
    requires Sound(k, n) && k.opening(i).Some?
    ensures i < n && !k.gap(i) && !k.gap(i - 1)
  {
  }

  /** The sweep outlines every visible pair of samples, forward along the top and back along the bottom. */
  lemma {:induction false} SweepDraws(k: Sketch, a: int, n: int, done: seq<Command>, i: int)
    requires Sound(k, n) && a <= i && k.opening(i + 1).Some?
    ensures ThereAndBack(k, Sweep(k, a, n, done), i)
    decreases n - a
  {
    VisibleIsNoGap(k, n, i + 1);
    FirstVisibleNotAfter(k, a, i + 1, n);
    var f := FirstVisible(k, a, n);
    var e := NextGap(k, f, n);
    var begun := done + k.opening(f).value;
    if i < e {
      DrawnOnThisPath(k, a, f, e, n, begun, i);
    } else {
      SweepDraws(k, e + 1, n, Bottom(k, e, a, Top(k, f - 1, e, begun)) + [Fill], i);
    }
  }

  lemma {:induction false} FirstVisibleNotAfter(k: Sketch, a: int, i: int, n: int)
    requires a < i < n && k.opening(i).Some?
    ensures FirstVisible(k, a, n) <= i
    decreases i - a
  {
    if a + 1 < i && k.opening(a + 1).None? {
      FirstVisibleNotAfter(k, a + 1, i, n);
    }
  }

  /** On the point array: whatever the gaps, every pair of neighbouring samples that shows in the x range is
      outlined at its upper height going forward and at its lower height going back. */
  lemma AreaDrawsEveryPair(k: Sketch, d: Series, n: nat, i: nat)
    requires Holds(d.points, d.ps, n) && Sketches(k, d) && PairClip(d, i, i + 1, 1).Keep?
    ensures Includes(Sweep(k, 0, n, []), PairOutline(d, i, i + 1, 1))
    ensures Includes(Sweep(k, 0, n, []), PairOutline(d, i + 1, i, 2))
  {
    SketchIsSound(k, d, n);
    assert k.opening(i + 1) == Opening(d, i + 1);
    assert k.outline(i, i + 1, 1) == PairOutline(d, i, i + 1, 1);
    assert k.outline(i + 1, i, 2) == PairOutline(d, i + 1, i, 2);
    SweepDraws(k, 0, n, [], i);
  }

  // ------------------------------------------------------ and nothing else is

  /** A line of the drawing belongs to the outline of two neighbouring samples, forward at the first height or back
      at the second. */
  ghost predicate FromPair(k: Sketch, c: Command) {
    exists i, j, y :: Neighbours(i, j, y) && c in k.outline(i, j, y)
  }

  predicate Neighbours(i: int, j: int, y: int) {
    (j == i + 1 && y == 1) || (j == i - 1 && y == 2)
  }

  ghost predicate OnlyPairs(k: Sketch, commands: seq<Command>) {
    forall c :: c in commands && c.LineTo? ==> FromPair(k, c)
  }

  lemma OutlineIsOnlyPairs(k: Sketch, done: seq<Command>, i: int, j: int, y: int)
    requires OnlyPairs(k, done) && Neighbours(i, j, y)
    ensures OnlyPairs(k, done + k.outline(i, j, y))
  {
  }

  /** Commands that draw no line add none. */
  lemma NoLinesAdded(k: Sketch, done: seq<Command>, more: seq<Command>)
    requires OnlyPairs(k, done) && forall i :: 0 <= i < |more| ==> !more[i].LineTo?
    ensures OnlyPairs(k, done + more)
  {
  }

  lemma {:induction false} TopIsOnlyPairs(k: Sketch, j: int, e: int, done: seq<Command>)
    requires OnlyPairs(k, done)
    ensures OnlyPairs(k, Top(k, j, e, done))
    decreases e - j
  {
    if j < e {
      OutlineIsOnlyPairs(k, done, j, j + 1, 1);
      TopIsOnlyPairs(k, j + 1, e, done + k.outline(j, j + 1, 1));
    }
  }

  lemma {:induction false} BottomIsOnlyPairs(k: Sketch, j: int, a: int, done: seq<Command>)
    requires OnlyPairs(k, done)
    ensures OnlyPairs(k, Bottom(k, j, a, done))
    decreases j - a
  {
    if j > a {
      OutlineIsOnlyPairs(k, done, j, j - 1, 2);
      BottomIsOnlyPairs(k, j - 1, a, done + k.outline(j, j - 1, 2));
    }
  }

  lemma {:induction false} SweepIsOnlyPairs(k: Sketch, a: int, n: int, done: seq<Command>)
    requires Extends(k) && OnlyPairs(k, done)
    ensures OnlyPairs(k, Sweep(k, a, n, done))
    decreases n - a
  {
    var f := FirstVisible(k, a, n);
    if a < n && f < n {
      var e := NextGap(k, f, n);
      var begun := done + k.opening(f).value;
      NoLinesAdded(k, done, k.opening(f).value);
      TopIsOnlyPairs(k, f - 1, e, begun);
      var top := Top(k, f - 1, e, begun);
      BottomIsOnlyPairs(k, e, a, top);
      var bottom := Bottom(k, e, a, top);
      NoLinesAdded(k, bottom, [Fill]);
      SweepIsOnlyPairs(k, e + 1, n, bottom + [Fill]);
    }
  }

  lemma AreaIsOnlyPairs(k: Sketch, d: Series, n: nat)
    requires Sketches(k, d)
    ensures OnlyPairs(k, Sweep(k, 0, n, []))
  {
    SketchExtends(k, d);
    SweepIsOnlyPairs(k, 0, n, []);
  }
}
