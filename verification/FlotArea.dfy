/** plotLineArea of flot (public/js/plugins/flot/jquery.flot.js): the loop that sweeps forward along the top of a
    run of samples, turns at the next gap, and sweeps back along the bottom. */
module FlotArea {
  import opened Basics
  import opened FlotClip
  import opened FlotLines
  import opened FlotOutline
  import opened FlotSweep

  datatype Series = Series(points: seq<Coord>, ps: int, xaxis: Axis, yaxis: Axis)

  function PairClip(d: Series, from: int, to: int, ypos: int): Clipped {
    if XAt(d.points, d.ps, from).Null? || XAt(d.points, d.ps, to).Null? then Skip
    else ClipX(d.xaxis, SampleAt(d.points, d.ps, from, ypos), SampleAt(d.points, d.ps, to, ypos))
  }

  function PairOutline(d: Series, from: int, to: int, ypos: int): seq<Command> {
    match PairClip(d, from, to, ypos)
    case Skip => []
    case Keep(p, q) => Outline(d.yaxis, p, q)
  }

  /** `r` is on the data segment between two samples. */
  ghost predicate OnSamples(d: Series, from: int, to: int, ypos: int, r: Point) {
    && XAt(d.points, d.ps, from).Num? && XAt(d.points, d.ps, to).Num?
    && On(r, SampleAt(d.points, d.ps, from, ypos), SampleAt(d.points, d.ps, to, ypos))
  }

  /** The outline of a pair is exactly its data segment within the x range, clamped to the value axis; nothing
      next to a gap. */
  lemma PairIsClamped(d: Series, from: int, to: int, ypos: int, r: Point)
    requires d.yaxis.min <= d.yaxis.max
    ensures OnPath(PairOutline(d, from, to, ypos), r) <==>
            exists s :: OnSamples(d, from, to, ypos, s) && d.xaxis.min <= s.x <= d.xaxis.max && r == Clamped(d.yaxis, s)
    ensures OnPath(PairOutline(d, from, to, ypos), r) ==> InBox(d.xaxis, d.yaxis, r)
  {
    var clip := PairClip(d, from, to, ypos);
    forall s
      ensures OnClipped(s, clip) <==> OnSamples(d, from, to, ypos, s) && d.xaxis.min <= s.x <= d.xaxis.max
    {
      ClipXIsExact(d.xaxis, SampleAt(d.points, d.ps, from, ypos), SampleAt(d.points, d.ps, to, ypos), s);
    }
    if clip.Keep? {
      OutlineIsClamped(d.yaxis, clip.p, clip.q, r);
    }
  }

  function Baseline(yaxis: Axis): real {
    var above := if yaxis.min > 0.0 then yaxis.min else 0.0;
    if above < yaxis.max then above else yaxis.max
  }

  function Opening(d: Series, f: int): Option<seq<Command>> {
    match PairClip(d, f - 1, f, 1)
    case Skip => None
    case Keep(p, _) => Some([BeginPath, MoveTo(Point(p.x, Baseline(d.yaxis)))])
  }

  ghost function SketchOf(d: Series): Sketch {
    Sketch(i => XAt(d.points, d.ps, i).Null?, i => Opening(d, i), (i, j, y) => PairOutline(d, i, j, y))
  }

  /** `k` is the sketch of the data. */
  ghost predicate Sketches(k: Sketch, d: Series) {
    && (forall i {:trigger XAt(d.points, d.ps, i)} :: k.gap(i) <==> XAt(d.points, d.ps, i).Null?)
    && (forall i {:trigger Opening(d, i)} :: k.opening(i) == Opening(d, i))
    && (forall i, j, y {:trigger PairOutline(d, i, j, y)} :: k.outline(i, j, y) == PairOutline(d, i, j, y))
  }

  lemma EveryDataHasASketch(d: Series)
    ensures Sketches(SketchOf(d), d)
  {
  }

  lemma SketchIsSound(k: Sketch, d: Series, n: nat)
    requires Holds(d.points, d.ps, n) && Sketches(k, d)
    ensures Sound(k, n)
  {
    OutsideIsNull(d.points, d.ps, n, n);
    forall i
      ensures k.opening(i).Some? ==> i < n && !k.gap(i) && !k.gap(i - 1)
    {
      assert k.opening(i) == Opening(d, i);
      assert k.gap(i) <==> XAt(d.points, d.ps, i).Null?;
      assert k.gap(i - 1) <==> XAt(d.points, d.ps, i - 1).Null?;
      if i >= n {
        OutsideIsNull(d.points, d.ps, n, i);
      }
    }
    forall i, j, y
      ensures k.gap(j) ==> k.outline(i, j, y) == []
    {
      assert k.outline(i, j, y) == PairOutline(d, i, j, y);
      assert k.gap(j) <==> XAt(d.points, d.ps, j).Null?;
    }
  }

  function PairAt(d: Series, s: State): Clipped {
    PairClip(d, s.j, To(s), if s.phase.Back? then 2 else 1)
  }

  function Drawing(d: Series, opens: bool, c: Clipped): seq<Command> {
    match c
    case Skip => []
    case Keep(p, q) =>
      (if opens then [BeginPath, MoveTo(Point(p.x, Baseline(d.yaxis)))] else []) + Outline(d.yaxis, p, q)
  }

  /** Away from the turning points, a state draws the pair it moves over, opening a path if none is open. */
  lemma PairEmits(k: Sketch, d: Series, n: int, s: State)
    requires Sketches(k, d) && !Turns(s)
    ensures Emitted(k, s) == Drawing(d, s.phase.Closed?, PairAt(d, s))
    ensures Next(k, n, s).phase.Closed? <==> s.phase.Closed? && PairAt(d, s).Skip?
  {
    assert k.opening(s.j + 1) == Opening(d, s.j + 1);
    assert k.outline(s.j, To(s), if s.phase.Back? then 2 else 1) == PairOutline(d, s.j, To(s), if s.phase.Back? then 2 else 1);
  }

  ghost predicate AreaInvariant(k: Sketch, d: Series, n: nat, s: State, v: Vars, ctx: seq<Command>) {
    Holds(d.points, d.ps, n) && Sketches(k, d) && LoopInvariant(k, n, d.ps, s, v, ctx)
  }

  // The loop's tests: where the data ends, where an open path turns and where it closes.

  predicate AtEnd(d: Series, v: Vars) {
    v.ps > 0 && v.i > |d.points| + v.ps
  }

  predicate AtGap(d: Series, v: Vars) {
    v.areaOpen && v.ps > 0 && CoordAt(d.points, v.i) != Null && CoordAt(d.points, v.i + v.ps) == Null
  }

  predicate AtStart(v: Vars) {
    v.areaOpen && v.ps < 0 && v.i + v.ps == v.segmentStart + v.ps
  }

  lemma Tests(k: Sketch, d: Series, n: nat, s: State, v: Vars, ctx: seq<Command>)
    requires AreaInvariant(k, d, n, s, v, ctx)
    ensures Sound(k, n) && (AtEnd(d, v) <==> s.phase.Closed? && s.j > n + 1)
    ensures AtGap(d, v) <==> s.phase.Forward? && Turns(s)
    ensures AtStart(v) <==> s.phase.Back? && Turns(s)
  {
    SketchIsSound(k, d, n);
    Stops(k, n, d.ps, s, v);
    MovesAlong(d.ps, s, v);
    Decisions(k, n, d.ps, s, v);
    assert k.gap(s.j) <==> XAt(d.points, d.ps, s.j).Null?;
    assert k.gap(s.j + 1) <==> XAt(d.points, d.ps, s.j + 1).Null?;
  }

  lemma Ends(k: Sketch, d: Series, n: nat, s: State, v: Vars, ctx: seq<Command>)
    requires AreaInvariant(k, d, n, s, v, ctx) && AtEnd(d, v)
    ensures ctx == Sweep(k, 0, n, [])
  {
    Tests(k, d, n, s, v, ctx);
    NothingLeft(k, n, s, ctx);
  }

  lemma TurnsAtGap(k: Sketch, d: Series, n: nat, s: State, v: Vars, ctx: seq<Command>) returns (t: State)
    requires AreaInvariant(k, d, n, s, v, ctx) && !AtEnd(d, v) && AtGap(d, v)
    ensures AreaInvariant(k, d, n, t, v.(i := v.i + v.ps, ps := -v.ps, ypos := 2, segmentEnd := v.i + v.ps), ctx)
    ensures Nearer(n, s, t)
  {
    Tests(k, d, n, s, v, ctx);
    t := TurnsBack(k, n, d.ps, s, v, ctx);
  }

  lemma ClosesAtStart(k: Sketch, d: Series, n: nat, s: State, v: Vars, ctx: seq<Command>) returns (t: State)
    requires AreaInvariant(k, d, n, s, v, ctx) && !AtEnd(d, v) && AtStart(v)
    ensures AreaInvariant(k, d, n, t, v.(i := v.segmentEnd - v.ps, ps := -v.ps, ypos := 1, areaOpen := false,
                                         segmentStart := v.segmentEnd - v.ps), ctx + [Fill]) && Nearer(n, s, t)
  {
    Tests(k, d, n, s, v, ctx);
    t := ClosesPath(k, n, d.ps, s, v, ctx);
  }

  lemma DrawsPair(k: Sketch, d: Series, n: nat, s: State, v: Vars, ctx: seq<Command>) returns (t: State)
    requires AreaInvariant(k, d, n, s, v, ctx) && !AtEnd(d, v) && !AtGap(d, v) && !AtStart(v)
    ensures !Turns(s) && v.i == Flat(d.ps, s.j) && v.i + v.ps == Flat(d.ps, To(s))
    ensures AreaInvariant(k, d, n, t, v.(i := v.i + v.ps, areaOpen := !Next(k, n, s).phase.Closed?), ctx + Emitted(k, s))
    ensures Nearer(n, s, t)
  {
    Tests(k, d, n, s, v, ctx);
    MovesAlong(d.ps, s, v);
    t := GoesOn(k, n, d.ps, s, v, ctx);
  }

  /** One pair of samples: nothing if either is a gap or both are off the same side, else its outline, in a new
      path if none is open. */
  method DrawPair(ghost k: Sketch, d: Series, ghost n: nat, ghost s: State, i1: int, i2: int, ypos: int,
                  areaOpen: bool, bottom: real)
    returns (out: seq<Command>, open: bool)
    requires Sketches(k, d) && !Turns(s) && i1 == Flat(d.ps, s.j) && i2 == Flat(d.ps, To(s))
    requires ypos == (if s.phase.Back? then 2 else 1) && (areaOpen <==> !s.phase.Closed?) && bottom == Baseline(d.yaxis)
    ensures out == Emitted(k, s) && (open <==> !Next(k, n, s).phase.Closed?)
  {
    PairEmits(k, d, n, s);
    out, open := [], areaOpen;
    var x1, y1 := CoordAt(d.points, i1), CoordAt(d.points, i1 + ypos);
    var x2, y2 := CoordAt(d.points, i2), CoordAt(d.points, i2 + ypos);
    if x1 == Null || x2 == Null {
      return;
    }
    var clipped := ClipX(d.xaxis, Point(Value(x1), Value(y1)), Point(Value(x2), Value(y2)));
    if clipped.Skip? {
      return;
    }
    if !open {
      out := [BeginPath, MoveTo(Point(clipped.p.x, bottom))];
      open := true;
    }
    out := out + Outline(d.yaxis, clipped.p, clipped.q);
  }

  /** The flag-driven loop terminates on every array of samples, gaps anywhere, and draws what the two-pass
      reference draws. */
  method PlotLineArea(d: Series, ghost n: nat, ghost k: Sketch) returns (ctx: seq<Command>)
    requires Holds(d.points, d.ps, n) && Sketches(k, d)
    ensures ctx == Sweep(k, 0, n, [])
  {
    ctx := [];
    var points := d.points;
    var ps := d.ps;
    var bottom := Baseline(d.yaxis);
    var i, areaOpen, ypos, segmentStart, segmentEnd := 0, false, 1, 0, 0;
    ghost var s := State(Closed, 0, 0, 0);
    while true
      invariant AreaInvariant(k, d, n, s, Vars(i, ps, ypos, areaOpen, segmentStart, segmentEnd), ctx)
      decreases n + 1 - s.a, if s.phase.Back? then 0 else 1, if s.phase.Back? then s.j else n + 3 - s.j
    {
      ghost var v := Vars(i, ps, ypos, areaOpen, segmentStart, segmentEnd);
      if ps > 0 && i > |points| + ps {
        Ends(k, d, n, s, v, ctx);
        break;
      }
      i := i + ps;
      var x1, x2 := CoordAt(points, i - ps), CoordAt(points, i);
      if areaOpen {
        if ps > 0 && x1 != Null && x2 == Null {
          s := TurnsAtGap(k, d, n, s, v, ctx);
          segmentEnd := i;
          ps := -ps;
          ypos := 2;
          continue;
        }
        if ps < 0 && i == segmentStart + ps {
          s := ClosesAtStart(k, d, n, s, v, ctx);
          ctx := ctx + [Fill];
          areaOpen := false;
          ps := -ps;
          ypos := 1;
          segmentStart := segmentEnd + ps;
          i := segmentStart;
          continue;
        }
      }
      ghost var t := DrawsPair(k, d, n, s, v, ctx);
      var out, open := DrawPair(k, d, n, s, i - ps, i, ypos, areaOpen, bottom);
      areaOpen := open;
      ctx := ctx + out;
      s := t;
    }
  }

  lemma SketchExtends(k: Sketch, d: Series)
    requires Sketches(k, d)
    ensures Extends(k)
  {
    forall i
      ensures k.opening(i).Some? ==>
                |k.opening(i).value| == 2 && k.opening(i).value[0].BeginPath? && k.opening(i).value[1].MoveTo?
    {
      assert k.opening(i) == Opening(d, i);
    }
    forall i, j, y
      ensures OnlyLines(k.outline(i, j, y))
    {
      assert k.outline(i, j, y) == PairOutline(d, i, j, y);
    }
  }

  /** Whatever the data and wherever its gaps, every path the drawing opens is filled exactly once. */
  lemma AreaFillsPaths(k: Sketch, d: Series, n: nat)
    requires Sketches(k, d)
    ensures PathsAfter(Sweep(k, 0, n, [])).NoPath?
  {
    SketchExtends(k, d);
    SweepFillsPaths(k, 0, n, []);
  }
}
