/** What flot's two drawing loops share, the flat array of points and the canvas commands, and the first of them,
    plotLine (public/js/plugins/flot/jquery.flot.js). Commands are recorded in data coordinates. */
module FlotLines {
  import opened Basics
  import opened FlotClip

  datatype Coord = Null | Num(r: real)

  datatype Command = BeginPath | MoveTo(p: Point) | LineTo(p: Point) | Stroke | Fill

  /** An element of the array, null outside it. */
  function CoordAt(points: seq<Coord>, i: int): Coord {
    if 0 <= i < |points| then points[i] else Null
  }

  /** A null coordinate counts as 0 in arithmetic. */
  function Value(c: Coord): real {
    if c.Num? then c.r else 0.0
  }

  /** The index of sample `k` in an array of samples of `ps` coordinates. */
  function Flat(ps: int, k: int): int
    decreases if k < 0 then -k else k
  {
    if k == 0 then 0 else if k > 0 then Flat(ps, k - 1) + ps else Flat(ps, k + 1) - ps
  }

  lemma {:induction false} FlatIsProduct(ps: int, k: int)
    ensures Flat(ps, k) == ps * k
    decreases if k < 0 then -k else k
  {
    if k > 0 {
      FlatIsProduct(ps, k - 1);
    } else if k < 0 {
      FlatIsProduct(ps, k + 1);
    }
  }

  function XAt(points: seq<Coord>, ps: int, k: int): Coord {
    CoordAt(points, Flat(ps, k))
  }

  /** Sample `k` with its coordinate at offset `ypos` as height. */
  function SampleAt(points: seq<Coord>, ps: int, k: int, ypos: int): Point {
    Point(Value(XAt(points, ps, k)), Value(CoordAt(points, Flat(ps, k) + ypos)))
  }

  /** `points` holds `n` samples of `ps` coordinates, as processData builds them. */
  ghost predicate Holds(points: seq<Coord>, ps: int, n: nat) {
    ps > 0 && |points| == Flat(ps, n)
  }

  lemma {:induction false} FlatLess(ps: int, j: int, k: int)
    requires ps > 0 && j < k
    ensures Flat(ps, j) < Flat(ps, k)
    decreases k - j
  {
    if j + 1 < k {
      FlatLess(ps, j + 1, k);
    }
  }

  /** Flat indices of samples are ordered like the samples. */
  lemma FlatOrder(ps: int, j: int, k: int)
    requires ps > 0
    ensures Flat(ps, j + 1) == Flat(ps, j) + ps && Flat(ps, j - 1) == Flat(ps, j) - ps
    ensures Flat(ps, j) < Flat(ps, k) <==> j < k
    ensures Flat(ps, j) == Flat(ps, k) <==> j == k
  {
    if j < k {
      FlatLess(ps, j, k);
    } else if k < j {
      FlatLess(ps, k, j);
    }
  }

  lemma OutsideIsNull(points: seq<Coord>, ps: int, n: nat, k: int)
    requires Holds(points, ps, n) && (k < 0 || k >= n)
    ensures XAt(points, ps, k).Null?
  {
    FlatOrder(ps, k, n);
    FlatOrder(ps, k, 0);
  }

  // ------------------------------------------------------------------- plotLine

  /** The pen after a list of commands. */
  function Pen(commands: seq<Command>): Option<Point> {
    if commands == [] then None
    else
      match commands[|commands| - 1]
      case MoveTo(p) => Some(p)
      case LineTo(p) => Some(p)
      case BeginPath => None
      case _ => Pen(commands[..|commands| - 1])
  }

  /** The segments a list of commands draws, in order. */
  function Drawn(commands: seq<Command>): seq<(Point, Point)> {
    if commands == [] then []
    else
      var before, last := commands[..|commands| - 1], commands[|commands| - 1];
      Drawn(before) + if last.LineTo? && Pen(before).Some? then [(Pen(before).value, last.p)] else []
  }

  lemma DrawnOneMore(commands: seq<Command>, c: Command)
    ensures Drawn(commands + [c]) ==
            Drawn(commands) + if c.LineTo? && Pen(commands).Some? then [(Pen(commands).value, c.p)] else []
    ensures Pen(commands + [c]) ==
            match c
            case MoveTo(p) => Some(p)
            case LineTo(p) => Some(p)
            case BeginPath => None
            case _ => Pen(commands)
  {
    assert (commands + [c])[..|commands|] == commands;
  }

  /** A segment costs a move only where the pen is not already at its start. */
  lemma SegmentDrawn(ctx: seq<Command>, prev: Option<Point>, p: Point, q: Point)
    requires prev.Some? ==> Pen(ctx) == prev
    ensures var moved := if prev != Some(p) then ctx + [MoveTo(p)] else ctx;
            Drawn(moved + [LineTo(q)]) == Drawn(ctx) + [(p, q)] && Pen(moved + [LineTo(q)]) == Some(q)
  {
    var moved := if prev != Some(p) then ctx + [MoveTo(p)] else ctx;
    DrawnOneMore(ctx, MoveTo(p));
    DrawnOneMore(moved, LineTo(q));
  }

  /** The visible part of the segment between samples `k - 1` and `k`; none next to a gap. */
  function VisiblePart(points: seq<Coord>, ps: int, xaxis: Axis, yaxis: Axis, k: int): Clipped {
    if XAt(points, ps, k - 1).Null? || XAt(points, ps, k).Null? then Skip
    else ClipSegment(xaxis, yaxis, SampleAt(points, ps, k - 1, 1), SampleAt(points, ps, k, 1))
  }

  /** The visible parts of the first `k` samples' segments, in order. */
  function Visible(points: seq<Coord>, ps: int, xaxis: Axis, yaxis: Axis, k: nat): seq<(Point, Point)> {
    if k < 2 then []
    else
      Visible(points, ps, xaxis, yaxis, k - 1)
      + match VisiblePart(points, ps, xaxis, yaxis, k - 1)
        case Skip => []
        case Keep(p, q) => [(p, q)]
  }

  /** Moving the pen only when it is not already there draws exactly the visible parts, in order. */
  method PlotLine(points: seq<Coord>, ps: int, xaxis: Axis, yaxis: Axis, ghost n: nat) returns (ctx: seq<Command>)
    requires Holds(points, ps, n)
    ensures Drawn(ctx) == Visible(points, ps, xaxis, yaxis, n)
  {
    ctx := [BeginPath];
    var prev: Option<Point> := None;
    var i := ps;
    ghost var k := 1;
    FlatOrder(ps, 1, n);
    while i < |points|
      invariant 1 <= k && i == Flat(ps, k) && (k <= n || k == 1)
      invariant prev.Some? ==> Pen(ctx) == prev
      invariant Drawn(ctx) == Visible(points, ps, xaxis, yaxis, k)
      decreases |points| - i
    {
      FlatOrder(ps, k, n);
      var x1, y1 := CoordAt(points, i - ps), CoordAt(points, i - ps + 1);
      var x2, y2 := CoordAt(points, i), CoordAt(points, i + 1);
      i := i + ps;
      k := k + 1;
      if x1 == Null || x2 == Null {
        continue;
      }
      var clipped := ClipSegment(xaxis, yaxis, Point(Value(x1), Value(y1)), Point(Value(x2), Value(y2)));
      assert clipped == VisiblePart(points, ps, xaxis, yaxis, k - 1);
      if clipped.Skip? {
        continue;
      }
      SegmentDrawn(ctx, prev, clipped.p, clipped.q);
      if prev != Some(clipped.p) {
        ctx := ctx + [MoveTo(clipped.p)];
      }
      prev := Some(clipped.q);
      ctx := ctx + [LineTo(clipped.q)];
    }
    FlatOrder(ps, k, n);
    DrawnOneMore(ctx, Stroke);
    ctx := ctx + [Stroke];
  }

  ghost predicate OnData(points: seq<Coord>, ps: int, k: int, r: Point) {
    && XAt(points, ps, k - 1).Num? && XAt(points, ps, k).Num?
    && On(r, SampleAt(points, ps, k - 1, 1), SampleAt(points, ps, k, 1))
  }

  ghost predicate OnSome(segments: seq<(Point, Point)>, r: Point) {
    exists s :: s in segments && On(r, s.0, s.1)
  }

  /** What plotLine draws is exactly the part inside the axis box of the segments between neighbouring samples. */
  lemma {:induction false} PictureIsExact(points: seq<Coord>, ps: int, xaxis: Axis, yaxis: Axis, n: nat, r: Point)
    ensures OnSome(Visible(points, ps, xaxis, yaxis, n), r) <==>
            InBox(xaxis, yaxis, r) && exists k :: 1 <= k < n && OnData(points, ps, k, r)
  {
    if n >= 2 {
      var rest := Visible(points, ps, xaxis, yaxis, n - 1);
      PictureIsExact(points, ps, xaxis, yaxis, n - 1, r);
      var part := VisiblePart(points, ps, xaxis, yaxis, n - 1);
      ClipIsIntersection(xaxis, yaxis, SampleAt(points, ps, n - 2, 1), SampleAt(points, ps, n - 1, 1), r);
      assert OnClipped(r, part) <==> InBox(xaxis, yaxis, r) && OnData(points, ps, n - 1, r);
      if part.Keep? {
        assert (part.p, part.q) in rest + [(part.p, part.q)];
        assert forall s :: s in rest ==> s in rest + [(part.p, part.q)];
      }
    }
  }
}
