/** What the area drawing of flot (public/js/plugins/flot/jquery.flot.js, plotLineArea) traces over a whole run of
    samples: neighbouring outlines join, so its top and its bottom are the clamped data without further lines. */
module FlotRun {
  import opened FlotClip
  import opened FlotLines
  import opened FlotOutline
  import opened FlotSweep
  import opened FlotArea

  /** A sample that is no gap and lies in the x range. */
  predicate Shown(d: Series, i: int) {
    XAt(d.points, d.ps, i).Num? && d.xaxis.min <= Value(XAt(d.points, d.ps, i)) <= d.xaxis.max
  }

  function Sample(d: Series, i: int, ypos: int): Point {
    SampleAt(d.points, d.ps, i, ypos)
  }

  /** An outline starts and ends where its clamped segment does. */
  lemma OutlineEnds(yaxis: Axis, p: Point, q: Point)
    requires yaxis.min <= yaxis.max
    ensures var path := Outline(yaxis, p, q);
            |path| >= 2 && OnlyLines(path) && path[0].p == Clamped(yaxis, p) && path[|path| - 1].p == Clamped(yaxis, q)
  {
    if !(p.y >= yaxis.max && q.y >= yaxis.max) && !(p.y <= yaxis.min && q.y <= yaxis.min) {
      CutEnds(yaxis, p, q);
    }
  }

  /** Between two shown samples nothing is clipped: the outline is that of the whole segment. */
  lemma ShownOutline(d: Series, i: int, j: int, ypos: int)
    requires Shown(d, i) && Shown(d, j)
    ensures PairOutline(d, i, j, ypos) == Outline(d.yaxis, Sample(d, i, ypos), Sample(d, j, ypos))
  {
  }

  /** A path that lines from `p` continue without adding anything of their own. */
  ghost predicate EndsAt(path: seq<Command>, p: Point) {
    || path == [] || !path[|path| - 1].LineTo?
    || (|path| >= 2 && path[|path| - 2].LineTo? && path[|path| - 1].p == p)
  }

  lemma SameLine(a: seq<Command>, i: int, b: seq<Command>, j: int, r: Point)
    requires 0 < i < |a| && 0 < j < |b| && a[i - 1] == b[j - 1] && a[i] == b[j]
    ensures OnLine(a, i, r) == OnLine(b, j, r)
  {
  }

  /** The line between two joined paths is a point both already have. */
  lemma JoinAddsNothing(path: seq<Command>, more: seq<Command>, r: Point)
    requires path != [] && |more| >= 2 && OnlyLines(more) && EndsAt(path, more[0].p)
    requires OnLine(path + more, |path|, r)
    ensures OnLine(more, 1, r)
  {
    assert more[0] in more && more[1] in more;
    PointOn(more[0].p, more[1].p, r);
  }

  lemma PathsJoin(path: seq<Command>, more: seq<Command>, r: Point)
    requires |more| >= 2 && OnlyLines(more) && EndsAt(path, more[0].p)
    ensures OnPath(path + more, r) <==> OnPath(path, r) || OnPath(more, r)
  {
    var all, m := path + more, |path|;
    if i :| 0 < i < |all| && OnLine(all, i, r) {
      if i < m {
        SameLine(all, i, path, i, r);
      } else if i == m {
        JoinAddsNothing(path, more, r);
      } else {
        SameLine(all, i, more, i - m, r);
      }
    }
    if i :| 0 < i < m && OnLine(path, i, r) {
      SameLine(all, i, path, i, r);
    }
    if i :| 0 < i < |more| && OnLine(more, i, r) {
      SameLine(all, m + i, more, i, r);
    }
  }

  lemma JoinedEnd(path: seq<Command>, more: seq<Command>)
    requires |more| >= 2 && OnlyLines(more)
    ensures EndsAt(path + more, more[|more| - 1].p)
  {
    assert more[|more| - 2] in more && more[|more| - 1] in more;
  }

  /** `r` is on the clamped data of height `ypos` between samples `from` and `to`. */
  ghost predicate OnRun(d: Series, from: int, to: int, ypos: int, r: Point) {
    exists i :: from <= i < to && OnPair(d, i, ypos, r)
  }

  ghost predicate OnPair(d: Series, i: int, ypos: int, r: Point) {
    OnClamped(d.yaxis, Sample(d, i, ypos), Sample(d, i + 1, ypos), r)
  }

  /** One more pair, in either direction, adds its clamped segment. */
  lemma PairJoins(d: Series, i: int, j: int, ypos: int, done: seq<Command>, r: Point)
    requires d.yaxis.min <= d.yaxis.max && Shown(d, i) && Shown(d, j)
    requires EndsAt(done, Clamped(d.yaxis, Sample(d, i, ypos)))
    ensures var longer := done + PairOutline(d, i, j, ypos);
            && EndsAt(longer, Clamped(d.yaxis, Sample(d, j, ypos)))
            && (OnPath(longer, r) <==> OnPath(done, r) || OnClamped(d.yaxis, Sample(d, i, ypos), Sample(d, j, ypos), r))
  {
    var p, q := Sample(d, i, ypos), Sample(d, j, ypos);
    ShownOutline(d, i, j, ypos);
    OutlineEnds(d.yaxis, p, q);
    OutlineIsClamped(d.yaxis, p, q, r);
    PathsJoin(done, Outline(d.yaxis, p, q), r);
    JoinedEnd(done, Outline(d.yaxis, p, q));
  }

  /** Over a run of shown samples up to a gap, the top traces exactly the clamped data. */
  lemma {:induction false} TopIsClamped(k: Sketch, d: Series, j: int, e: int, done: seq<Command>, r: Point)
    requires Sketches(k, d) && d.yaxis.min <= d.yaxis.max && j < e && k.gap(e)
    requires forall i :: j <= i < e ==> Shown(d, i)
    requires EndsAt(done, Clamped(d.yaxis, Sample(d, j, 1)))
    ensures OnPath(Top(k, j, e, done), r) <==> OnPath(done, r) || OnRun(d, j, e - 1, 1, r)
    decreases e - j
  {
    assert k.outline(j, j + 1, 1) == PairOutline(d, j, j + 1, 1);
    if j + 1 == e {
      assert k.gap(e) <==> XAt(d.points, d.ps, e).Null?;
      assert done + [] == done;
      assert Top(k, j, e, done) == Top(k, e, e, done);
    } else {
      var longer := done + PairOutline(d, j, j + 1, 1);
      PairJoins(d, j, j + 1, 1, done, r);
      TopIsClamped(k, d, j + 1, e, longer, r);
      RunFromFront(d, j, e - 1, 1, r);
    }
  }

  lemma RunFromFront(d: Series, from: int, to: int, ypos: int, r: Point)
    requires from < to
    ensures OnRun(d, from, to, ypos, r) <==> OnPair(d, from, ypos, r) || OnRun(d, from + 1, to, ypos, r)
  {
  }

  lemma RunFromBack(d: Series, from: int, to: int, ypos: int, r: Point)
    requires from < to
    ensures OnRun(d, from, to, ypos, r) <==> OnPair(d, to - 1, ypos, r) || OnRun(d, from, to - 1, ypos, r)
  {
  }

  lemma ClampedReversed(yaxis: Axis, p: Point, q: Point, r: Point)
    ensures OnClamped(yaxis, p, q, r) <==> OnClamped(yaxis, q, p, r)
  {
    forall s
      ensures On(s, p, q) <==> On(s, q, p)
    {
      Reversed(s, p, q);
    }
  }

  lemma {:induction false} BottomFrom(k: Sketch, d: Series, j: int, a: int, done: seq<Command>, r: Point)
    requires Sketches(k, d) && d.yaxis.min <= d.yaxis.max && a <= j
    requires forall i :: a <= i <= j ==> Shown(d, i)
    requires EndsAt(done, Clamped(d.yaxis, Sample(d, j, 2)))
    ensures OnPath(Bottom(k, j, a, done), r) <==> OnPath(done, r) || OnRun(d, a, j, 2, r)
    decreases j - a
  {
    if j > a {
      assert k.outline(j, j - 1, 2) == PairOutline(d, j, j - 1, 2);
      PairJoins(d, j, j - 1, 2, done, r);
      ClampedReversed(d.yaxis, Sample(d, j, 2), Sample(d, j - 1, 2), r);
      BottomFrom(k, d, j - 1, a, done + PairOutline(d, j, j - 1, 2), r);
      RunFromBack(d, a, j, 2, r);
    }
  }

  /** Back from the gap, the bottom traces exactly the clamped data of the second height. */
  lemma BottomIsClamped(k: Sketch, d: Series, e: int, a: int, r: Point)
    requires Sketches(k, d) && d.yaxis.min <= d.yaxis.max && a < e && k.gap(e)
    requires forall i :: a <= i < e ==> Shown(d, i)
    ensures OnPath(Bottom(k, e, a, []), r) <==> OnRun(d, a, e - 1, 2, r)
  {
    assert k.outline(e, e - 1, 2) == PairOutline(d, e, e - 1, 2);
    assert k.gap(e) <==> XAt(d.points, d.ps, e).Null?;
    var none: seq<Command> := [];
    assert none + k.outline(e, e - 1, 2) == none;
    assert Bottom(k, e, a, none) == Bottom(k, e - 1, a, none + k.outline(e, e - 1, 2));
    BottomFrom(k, d, e - 1, a, [], r);
  }
}
