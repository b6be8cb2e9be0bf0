/** The outline plotLineArea of flot (public/js/plugins/flot/jquery.flot.js) draws for one pair of samples: the data
    segment within the x range, clamped to the range of the value axis. */
module FlotOutline {
  import opened FlotClip
  import opened FlotLines

  function ClipX(xaxis: Axis, p: Point, q: Point): Clipped {
    match ClipXMin(xaxis.min, p, q)
    case Skip => Skip
    case Keep(p1, q1) => ClipXMax(xaxis.max, p1, q1)
  }

  function CutBelow(min: real, p: Point, q: Point): (Point, Point) {
    if p.y <= q.y && p.y < min && q.y >= min then (CrossY(min, p, q), q)
    else if q.y <= p.y && q.y < min && p.y >= min then (p, CrossY(min, p, q))
    else (p, q)
  }

  function CutAbove(max: real, p: Point, q: Point): (Point, Point) {
    if p.y >= q.y && p.y > max && q.y <= max then (CrossY(max, p, q), q)
    else if q.y >= p.y && q.y > max && p.y <= max then (p, CrossY(max, p, q))
    else (p, q)
  }

  /** The part between the borders; both ends are moved independently, without dropping anything. */
  function Cut(yaxis: Axis, p: Point, q: Point): (Point, Point) {
    var (p1, q1) := CutBelow(yaxis.min, p, q);
    CutAbove(yaxis.max, p1, q1)
  }

  /** The outline between two points in the x range: flat along a border where outside, with the rectangles
      beside a crossing. */
  function Outline(yaxis: Axis, p: Point, q: Point): seq<Command> {
    if p.y >= yaxis.max && q.y >= yaxis.max then [LineTo(Point(p.x, yaxis.max)), LineTo(Point(q.x, yaxis.max))]
    else if p.y <= yaxis.min && q.y <= yaxis.min then [LineTo(Point(p.x, yaxis.min)), LineTo(Point(q.x, yaxis.min))]
    else
      var (p2, q2) := Cut(yaxis, p, q);
      (if p2.x != p.x then [LineTo(Point(p.x, p2.y))] else [])
      + [LineTo(p2), LineTo(q2)]
      + (if q2.x != q.x then [LineTo(q2), LineTo(Point(q.x, q2.y))] else [])
  }

  /** The part of a segment in the x range. */
  lemma ClipXIsExact(xaxis: Axis, p: Point, q: Point, r: Point)
    ensures OnClipped(r, ClipX(xaxis, p, q)) <==> On(r, p, q) && xaxis.min <= r.x <= xaxis.max
  {
    XMinIsExact(xaxis.min, p, q, r);
    var c := ClipXMin(xaxis.min, p, q);
    if c.Keep? {
      XMaxIsExact(xaxis.max, c.p, c.q, r);
    }
  }

  // ------------------------------------------------------------- the clamped data

  function Clamped(yaxis: Axis, s: Point): Point {
    Point(s.x, if s.y < yaxis.min then yaxis.min else if s.y > yaxis.max then yaxis.max else s.y)
  }

  /** `r` is a point of the segment after clamping. */
  ghost predicate OnClamped(yaxis: Axis, p: Point, q: Point, r: Point) {
    exists s :: On(s, p, q) && r == Clamped(yaxis, s)
  }

  /** `r` is on a line of the path. */
  ghost predicate OnPath(path: seq<Command>, r: Point) {
    exists i :: 0 < i < |path| && OnLine(path, i, r)
  }

  ghost predicate OnLine(path: seq<Command>, i: int, r: Point)
    requires 0 < i < |path|
  {
    path[i - 1].LineTo? && path[i].LineTo? && On(r, path[i - 1].p, path[i].p)
  }

  /** A height at or outside the border. */
  predicate Beyond(yaxis: Axis, border: real, y: real) {
    (border == yaxis.min && y <= border) || (border == yaxis.max && y >= border)
  }

  predicate Within(yaxis: Axis, p: Point) {
    yaxis.min <= p.y <= yaxis.max
  }

  lemma ClampedSplit(yaxis: Axis, p: Point, q: Point, n: Point, s: real, r: Point)
    requires At(n, p, q, s)
    ensures OnClamped(yaxis, p, q, r) <==> OnClamped(yaxis, p, n, r) || OnClamped(yaxis, n, q, r)
  {
    forall d
      ensures On(d, p, q) <==> On(d, p, n) || On(d, n, q)
    {
      SplitAt(p, q, n, s, d);
    }
  }

  /** Outside a border, clamping flattens a segment onto it. */
  lemma ClampedFlat(yaxis: Axis, p: Point, q: Point, border: real, r: Point)
    requires yaxis.min <= yaxis.max && Beyond(yaxis, border, p.y) && Beyond(yaxis, border, q.y)
    ensures OnClamped(yaxis, p, q, r) <==> On(r, Point(p.x, border), Point(q.x, border))
  {
    if s, t :| At(s, p, q, t) && r == Clamped(yaxis, s) {
      Convex(s, p, q, t);
      assert At(r, Point(p.x, border), Point(q.x, border), t);
    }
    if t :| At(r, Point(p.x, border), Point(q.x, border), t) {
      var s := Point(r.x, Lerp(p.y, q.y, t));
      assert At(s, p, q, t);
      Convex(s, p, q, t);
    }
  }

  /** Between the borders, clamping changes nothing. */
  lemma ClampedWithin(yaxis: Axis, p: Point, q: Point, r: Point)
    requires Within(yaxis, p) && Within(yaxis, q)
    ensures OnClamped(yaxis, p, q, r) <==> On(r, p, q)
  {
    if s, t :| At(s, p, q, t) && r == Clamped(yaxis, s) {
      Convex(s, p, q, t);
    }
    if t :| At(r, p, q, t) {
      Convex(r, p, q, t);
      assert r == Clamped(yaxis, r);
    }
  }

  lemma PointOn(p: Point, q: Point, r: Point)
    ensures On(p, p, q) && On(q, p, q)
    ensures On(r, p, p) ==> r == p
  {
    assert At(p, p, q, 0.0);
    assert At(q, p, q, 1.0);
  }

  lemma ClampedPoint(yaxis: Axis, p: Point, q: Point, r: Point)
    ensures OnClamped(yaxis, p, p, r) ==> OnClamped(yaxis, p, q, r) && OnClamped(yaxis, q, p, r)
  {
    if s :| On(s, p, p) && r == Clamped(yaxis, s) {
      PointOn(p, q, s);
      PointOn(q, p, s);
    }
  }

  /** `r` is a point of the clamped segment of one of three parts. */
  ghost predicate OnParts(yaxis: Axis, p: Point, p1: Point, q1: Point, q: Point, r: Point) {
    OnClamped(yaxis, p, p1, r) || OnClamped(yaxis, p1, q1, r) || OnClamped(yaxis, q1, q, r)
  }

  lemma OneCut(yaxis: Axis, p: Point, q: Point, y: real, n: Point, r: Point)
    requires p.y < y <= q.y || q.y < y <= p.y || p.y <= y < q.y || q.y <= y < p.y
    requires n == CrossY(y, p, q)
    ensures OnClamped(yaxis, p, q, r) <==> OnParts(yaxis, p, n, q, q, r)
    ensures OnClamped(yaxis, p, q, r) <==> OnParts(yaxis, p, p, n, q, r)
  {
    var s := CrossIsOn(y, p, q);
    ClampedSplit(yaxis, p, q, n, s, r);
    ClampedPoint(yaxis, q, n, r);
    ClampedPoint(yaxis, p, n, r);
  }

  lemma NoCut(yaxis: Axis, p: Point, q: Point, r: Point)
    ensures OnClamped(yaxis, p, q, r) <==> OnParts(yaxis, p, p, q, q, r)
  {
    ClampedPoint(yaxis, p, q, r);
    ClampedPoint(yaxis, q, p, r);
  }

  lemma CutBelowParts(yaxis: Axis, p: Point, q: Point, r: Point)
    ensures var (p1, q1) := CutBelow(yaxis.min, p, q);
            OnClamped(yaxis, p, q, r) <==> OnParts(yaxis, p, p1, q1, q, r)
  {
    if p.y < yaxis.min <= q.y || q.y < yaxis.min <= p.y {
      OneCut(yaxis, p, q, yaxis.min, CrossY(yaxis.min, p, q), r);
    } else {
      NoCut(yaxis, p, q, r);
    }
  }

  lemma CutAboveParts(yaxis: Axis, p: Point, q: Point, r: Point)
    ensures var (p1, q1) := CutAbove(yaxis.max, p, q);
            OnClamped(yaxis, p, q, r) <==> OnParts(yaxis, p, p1, q1, q, r)
  {
    if q.y <= yaxis.max < p.y || p.y <= yaxis.max < q.y {
      OneCut(yaxis, p, q, yaxis.max, CrossY(yaxis.max, p, q), r);
    } else {
      NoCut(yaxis, p, q, r);
    }
  }

  /** An end the cut moved was outside the border it is on now. */
  ghost predicate Moved(yaxis: Axis, from: Point, to: Point) {
    to == from || (Beyond(yaxis, to.y, from.y) && Beyond(yaxis, to.y, to.y))
  }

  lemma CutEnds(yaxis: Axis, p: Point, q: Point)
    requires yaxis.min <= yaxis.max && !(p.y >= yaxis.max && q.y >= yaxis.max) && !(p.y <= yaxis.min && q.y <= yaxis.min)
    ensures var (p1, q1) := CutBelow(yaxis.min, p, q);
            var (p2, q2) := CutAbove(yaxis.max, p1, q1);
            && Within(yaxis, p2) && Within(yaxis, q2)
            && Moved(yaxis, p, p2) && Moved(yaxis, q, q2)
            && (p1 == p || p2 == p1) && (q1 == q || q2 == q1)
  {
  }

  lemma CutParts(yaxis: Axis, p: Point, q: Point, r: Point)
    requires yaxis.min <= yaxis.max && !(p.y >= yaxis.max && q.y >= yaxis.max) && !(p.y <= yaxis.min && q.y <= yaxis.min)
    ensures var (p2, q2) := Cut(yaxis, p, q);
            OnClamped(yaxis, p, q, r) <==> OnParts(yaxis, p, p2, q2, q, r)
  {
    var (p1, q1) := CutBelow(yaxis.min, p, q);
    var (p2, q2) := CutAbove(yaxis.max, p1, q1);
    CutEnds(yaxis, p, q);
    CutBelowParts(yaxis, p, q, r);
    CutAboveParts(yaxis, p1, q1, r);
    ClampedPoint(yaxis, p1, p2, r);
    ClampedPoint(yaxis, p1, p, r);
    ClampedPoint(yaxis, q1, q2, r);
    ClampedPoint(yaxis, q1, q, r);
  }

  /** The flat rectangle beside a crossing is the clamped data there. */
  lemma ClampedMove(yaxis: Axis, from: Point, to: Point, r: Point)
    requires yaxis.min <= yaxis.max && Moved(yaxis, from, to) && Within(yaxis, to)
    ensures OnClamped(yaxis, from, to, r) <==> On(r, Point(from.x, to.y), to)
    ensures OnClamped(yaxis, to, from, r) <==> On(r, to, Point(from.x, to.y))
  {
    if to == from {
      ClampedWithin(yaxis, from, to, r);
    } else {
      ClampedFlat(yaxis, from, to, to.y, r);
      ClampedFlat(yaxis, to, from, to.y, r);
    }
  }

  /** The outline of a pair is exactly its data segment clamped to the value axis. */
  lemma OutlineIsClamped(yaxis: Axis, p: Point, q: Point, r: Point)
    requires yaxis.min <= yaxis.max
    ensures OnPath(Outline(yaxis, p, q), r) <==> OnClamped(yaxis, p, q, r)
  {
    if p.y >= yaxis.max && q.y >= yaxis.max {
      ClampedFlat(yaxis, p, q, yaxis.max, r);
      TwoPointPath(Point(p.x, yaxis.max), Point(q.x, yaxis.max), r);
    } else if p.y <= yaxis.min && q.y <= yaxis.min {
      ClampedFlat(yaxis, p, q, yaxis.min, r);
      TwoPointPath(Point(p.x, yaxis.min), Point(q.x, yaxis.min), r);
    } else {
      var (p2, q2) := Cut(yaxis, p, q);
      CutEnds(yaxis, p, q);
      CutParts(yaxis, p, q, r);
      ClampedMove(yaxis, p, p2, r);
      ClampedWithin(yaxis, p2, q2, r);
      ClampedMove(yaxis, q, q2, r);
      PathPoints(p.x, p2, q2, q.x, r);
    }
  }

  lemma TwoPointPath(a: Point, b: Point, r: Point)
    ensures OnPath([LineTo(a), LineTo(b)], r) <==> On(r, a, b)
  {
    assert OnLine([LineTo(a), LineTo(b)], 1, r) <==> On(r, a, b);
  }

  /** The path of an outline with a crossing: the line between the cut ends and a rectangle's side where one moved. */
  lemma PathPoints(px: real, p2: Point, q2: Point, qx: real, r: Point)
    ensures var path := (if p2.x != px then [LineTo(Point(px, p2.y))] else [])
                        + [LineTo(p2), LineTo(q2)]
                        + (if q2.x != qx then [LineTo(q2), LineTo(Point(qx, q2.y))] else []);
            OnPath(path, r) <==> On(r, Point(px, p2.y), p2) || On(r, p2, q2) || On(r, q2, Point(qx, q2.y))
  {
    var first := if p2.x != px then [LineTo(Point(px, p2.y))] else [];
    var last := if q2.x != qx then [LineTo(q2), LineTo(Point(qx, q2.y))] else [];
    var path := first + [LineTo(p2), LineTo(q2)] + last;
    PointOn(p2, q2, r);
    PointOn(q2, p2, r);
    var m := |first|;
    assert path[m] == LineTo(p2) && path[m + 1] == LineTo(q2);
    assert OnLine(path, m + 1, r) <==> On(r, p2, q2);
    if m > 0 {
      assert OnLine(path, m, r) <==> On(r, Point(px, p2.y), p2);
    }
    if last != [] {
      assert path[m + 2] == LineTo(q2) && path[m + 3] == LineTo(Point(qx, q2.y));
      assert OnLine(path, m + 2, r) <==> On(r, q2, q2);
      assert OnLine(path, m + 3, r) <==> On(r, q2, Point(qx, q2.y));
    }
  }
}
