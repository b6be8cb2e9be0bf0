/** The line clipper of flot (public/js/plugins/flot/jquery.flot.js, plotLine) over exact reals: four stages, each
    cutting the current segment by one side of the axis box. */
module FlotClip {
  datatype Point = Point(x: real, y: real)

  datatype Axis = Axis(min: real, max: real)

  datatype Clipped = Skip | Keep(p: Point, q: Point)

  // ------------------------------------------------------------------- segments

  function Lerp(a: real, b: real, t: real): real {
    a + t * (b - a)
  }

  ghost predicate At(r: Point, p: Point, q: Point, t: real) {
    0.0 <= t <= 1.0 && r.x == Lerp(p.x, q.x, t) && r.y == Lerp(p.y, q.y, t)
  }

  /** `r` is a point of the segment from `p` to `q`. */
  ghost predicate On(r: Point, p: Point, q: Point) {
    exists t: real :: At(r, p, q, t)
  }

  ghost predicate OnClipped(r: Point, c: Clipped) {
    c.Keep? && On(r, c.p, c.q)
  }

  // ----------------------------------------------------------------- the stages

  /** Where the segment meets the line at height `y`. */
  function CrossY(y: real, p: Point, q: Point): Point
    requires p.y != q.y
  {
    Point((y - p.y) / (q.y - p.y) * (q.x - p.x) + p.x, y)
  }

  function CrossX(x: real, p: Point, q: Point): Point
    requires p.x != q.x
  {
    Point(x, (x - p.x) / (q.x - p.x) * (q.y - p.y) + p.y)
  }

  function ClipYMin(min: real, p: Point, q: Point): Clipped {
    if p.y <= q.y && p.y < min then
      if q.y < min then Skip else Keep(CrossY(min, p, q), q)
    else if q.y <= p.y && q.y < min then
      if p.y < min then Skip else Keep(p, CrossY(min, p, q))
    else Keep(p, q)
  }

  function ClipYMax(max: real, p: Point, q: Point): Clipped {
    if p.y >= q.y && p.y > max then
      if q.y > max then Skip else Keep(CrossY(max, p, q), q)
    else if q.y >= p.y && q.y > max then
      if p.y > max then Skip else Keep(p, CrossY(max, p, q))
    else Keep(p, q)
  }

  function ClipXMin(min: real, p: Point, q: Point): Clipped {
    if p.x <= q.x && p.x < min then
      if q.x < min then Skip else Keep(CrossX(min, p, q), q)
    else if q.x <= p.x && q.x < min then
      if p.x < min then Skip else Keep(p, CrossX(min, p, q))
    else Keep(p, q)
  }

  function ClipXMax(max: real, p: Point, q: Point): Clipped {
    if p.x >= q.x && p.x > max then
      if q.x > max then Skip else Keep(CrossX(max, p, q), q)
    else if q.x >= p.x && q.x > max then
      if p.x > max then Skip else Keep(p, CrossX(max, p, q))
    else Keep(p, q)
  }

  /** The four stages in the order of the source. */
  function ClipSegment(xaxis: Axis, yaxis: Axis, p: Point, q: Point): Clipped {
    match ClipYMin(yaxis.min, p, q)
    case Skip => Skip
    case Keep(p1, q1) =>
      match ClipYMax(yaxis.max, p1, q1)
      case Skip => Skip
      case Keep(p2, q2) =>
        match ClipXMin(xaxis.min, p2, q2)
        case Skip => Skip
        case Keep(p3, q3) => ClipXMax(xaxis.max, p3, q3)
  }

  // ------------------------------------------------------------ one cut is exact

  lemma Sign(a: real, d: real)
    requires d > 0.0
    ensures a > 0.0 ==> a * d > 0.0
    ensures a < 0.0 ==> a * d < 0.0
  {
  }

  lemma Product(a: real, b: real)
    requires a >= 0.0 && b >= 0.0
    ensures a * b >= 0.0
  {
  }

  lemma Quotient(a: real, d: real, s: real)
    requires d != 0.0 && s * d == a
    ensures a / d == s
  {
  }

  lemma UnitRange(s: real, e: real, d: real)
    requires d > 0.0 && 0.0 <= e <= d && s * d == e
    ensures 0.0 <= s <= 1.0
  {
    Sign(s, d);
    Sign(s - 1.0, d);
    assert (s - 1.0) * d == e - d;
  }

  lemma DivideMultiply(e: real, d: real)
    requires d > 0.0
    ensures (e / d) * d == e
  {
  }

  /** How far along from `a` to `b` the value `m` lies. */
  lemma Fraction(m: real, a: real, b: real) returns (s: real)
    requires a < b && a <= m <= b
    ensures s == (m - a) / (b - a) && 0.0 <= s <= 1.0 && Lerp(a, b, s) == m
  {
    s := (m - a) / (b - a);
    DivideMultiply(m - a, b - a);
    UnitRange(s, m - a, b - a);
  }

  lemma Between(a: real, b: real, t: real)
    requires 0.0 <= t <= 1.0 && a <= b
    ensures a <= Lerp(a, b, t) <= b
  {
    Product(t, b - a);
    Product(1.0 - t, b - a);
    assert (1.0 - t) * (b - a) == (b - a) - t * (b - a);
  }

  lemma Ordered(a: real, b: real, s: real, t: real)
    requires a < b && Lerp(a, b, s) <= Lerp(a, b, t)
    ensures s <= t
  {
    LerpDifference(a, b, s, t);
    NotPositive(s - t, b - a, Lerp(a, b, s) - Lerp(a, b, t));
  }

  lemma NotPositive(e: real, d: real, product: real)
    requires d > 0.0 && product == e * d && product <= 0.0
    ensures e <= 0.0
  {
    Sign(e, d);
  }

  lemma LerpDifference(a: real, b: real, s: real, t: real)
    ensures Lerp(a, b, s) - Lerp(a, b, t) == (s - t) * (b - a)
  {
  }

  lemma LerpReversed(a: real, b: real, t: real)
    ensures Lerp(b, a, 1.0 - t) == Lerp(a, b, t)
  {
    assert (1.0 - t) * (a - b) == (a - b) + t * (b - a);
  }

  /** The value at `t` of the part after `s` is the value at Lerp(s, 1, t) of the whole. */
  lemma LerpRest(a: real, b: real, s: real, t: real)
    ensures Lerp(Lerp(a, b, s), b, t) == Lerp(a, b, Lerp(s, 1.0, t))
  {
    var d := b - a;
    assert (s + t * (1.0 - s)) * d == s * d + t * ((1.0 - s) * d);
    assert (1.0 - s) * d == d - s * d;
  }

  lemma ReversedAt(r: Point, p: Point, q: Point, t: real)
    requires At(r, p, q, t)
    ensures At(r, q, p, 1.0 - t)
  {
    LerpReversed(p.x, q.x, t);
    LerpReversed(p.y, q.y, t);
  }

  lemma Reversed(r: Point, p: Point, q: Point)
    ensures On(r, p, q) <==> On(r, q, p)
  {
    if t :| At(r, p, q, t) {
      ReversedAt(r, p, q, t);
    }
    if t :| At(r, q, p, t) {
      ReversedAt(r, q, p, t);
    }
  }

  /** A point of a segment is no lower and no higher than both ends. */
  lemma Convex(r: Point, p: Point, q: Point, t: real)
    requires At(r, p, q, t)
    ensures if p.y <= q.y then p.y <= r.y <= q.y else q.y <= r.y <= p.y
  {
    if p.y <= q.y {
      Between(p.y, q.y, t);
    } else {
      ReversedAt(r, p, q, t);
      Between(q.y, p.y, 1.0 - t);
    }
  }

  lemma CrossReversed(y: real, p: Point, q: Point)
    requires p.y != q.y
    ensures CrossY(y, p, q) == CrossY(y, q, p)
  {
    var s, d := (y - p.y) / (q.y - p.y), q.y - p.y;
    assert s * d == y - p.y;
    assert (1.0 - s) * (p.y - q.y) == (p.y - q.y) + s * d;
    Quotient(y - q.y, p.y - q.y, 1.0 - s);
    LerpReversed(p.x, q.x, s);
  }

  /** Cutting off the start: the points of the rest are the points of the segment on or above the line. */
  lemma CutStart(min: real, p: Point, q: Point, r: Point)
    requires p.y < min <= q.y
    ensures On(r, CrossY(min, p, q), q) <==> On(r, p, q) && r.y >= min
  {
    var n := CrossY(min, p, q);
    var s := Fraction(min, p.y, q.y);
    assert n.x == Lerp(p.x, q.x, s);
    if t :| At(r, n, q, t) {
      RestIsOn(p, q, n, s, r, t);
    }
    if t :| At(r, p, q, t) && r.y >= min {
      OnIsRest(p, q, n, s, r, t);
    }
  }

  lemma RestIsOn(p: Point, q: Point, n: Point, s: real, r: Point, t: real)
    requires p.y < n.y <= q.y && At(n, p, q, s) && At(r, n, q, t)
    ensures On(r, p, q) && r.y >= n.y
  {
    RestWithin(p, q, n, s, r, t);
    Between(n.y, q.y, t);
  }

  lemma OnIsRest(p: Point, q: Point, n: Point, s: real, r: Point, t: real)
    requires p.y < n.y <= q.y && At(n, p, q, s) && At(r, p, q, t) && r.y >= n.y
    ensures On(r, n, q)
  {
    Ordered(p.y, q.y, s, t);
    WithinRest(p, q, n, s, r, t);
  }

  /** A point of the rest of a segment is a point of the segment, and one at or after the cut is a point of the rest. */
  lemma RestWithin(p: Point, q: Point, n: Point, s: real, r: Point, t: real)
    requires At(n, p, q, s) && At(r, n, q, t)
    ensures On(r, p, q)
  {
    LerpRest(p.x, q.x, s, t);
    LerpRest(p.y, q.y, s, t);
    Between(s, 1.0, t);
    assert At(r, p, q, Lerp(s, 1.0, t));
  }

  lemma WithinRest(p: Point, q: Point, n: Point, s: real, r: Point, t: real)
    requires At(n, p, q, s) && At(r, p, q, t) && s <= t
    ensures On(r, n, q)
  {
    var rest := 0.0;
    if s < 1.0 {
      rest := Fraction(t, s, 1.0);
    } else {
      assert Lerp(s, 1.0, rest) == t;
    }
    LerpRest(p.x, q.x, s, rest);
    LerpRest(p.y, q.y, s, rest);
    assert At(r, n, q, rest);
  }

  /** A segment is its part up to any of its points and its part from there on. */
  lemma SplitAt(p: Point, q: Point, n: Point, s: real, r: Point)
    requires At(n, p, q, s)
    ensures On(r, p, q) <==> On(r, p, n) || On(r, n, q)
  {
    ReversedAt(n, p, q, s);
    Reversed(r, p, q);
    Reversed(r, p, n);
    if t :| At(r, n, q, t) {
      RestWithin(p, q, n, s, r, t);
    }
    if t :| At(r, n, p, t) {
      RestWithin(q, p, n, 1.0 - s, r, t);
    }
    if t :| At(r, p, q, t) {
      if s <= t {
        WithinRest(p, q, n, s, r, t);
      } else {
        ReversedAt(r, p, q, t);
        WithinRest(q, p, n, 1.0 - s, r, 1.0 - t);
      }
    }
  }

  /** Where a segment meets a line between its ends is one of its points. */
  lemma CrossIsOn(y: real, p: Point, q: Point) returns (s: real)
    requires p.y < y <= q.y || q.y < y <= p.y || p.y <= y < q.y || q.y <= y < p.y
    ensures At(CrossY(y, p, q), p, q, s)
  {
    if p.y < q.y {
      s := Fraction(y, p.y, q.y);
    } else {
      CrossReversed(y, p, q);
      var t := Fraction(y, q.y, p.y);
      ReversedAt(CrossY(y, q, p), q, p, t);
      s := 1.0 - t;
    }
  }

  lemma YMinIsExact(min: real, p: Point, q: Point, r: Point)
    ensures OnClipped(r, ClipYMin(min, p, q)) <==> On(r, p, q) && r.y >= min
  {
    if p.y < min <= q.y {
      CutStart(min, p, q, r);
    } else if q.y < min <= p.y {
      CutStart(min, q, p, r);
      CrossReversed(min, p, q);
      Reversed(r, p, q);
      Reversed(r, p, CrossY(min, p, q));
    } else if t :| At(r, p, q, t) {
      Convex(r, p, q, t);
    }
  }

  // The other three cuts are the first one seen in a mirror.

  function Flip(p: Point): Point {
    Point(p.x, -p.y)
  }

  function Swap(p: Point): Point {
    Point(p.y, p.x)
  }

  lemma FlippedOn(r: Point, p: Point, q: Point)
    ensures On(r, p, q) <==> On(Flip(r), Flip(p), Flip(q))
  {
    forall t: real
      ensures At(r, p, q, t) <==> At(Flip(r), Flip(p), Flip(q), t)
    {
      LerpFlipped(p.y, q.y, t);
    }
  }

  lemma LerpFlipped(a: real, b: real, t: real)
    ensures Lerp(-a, -b, t) == -Lerp(a, b, t)
  {
    assert t * (-b - -a) == -(t * (b - a));
  }

  lemma SwappedOn(r: Point, p: Point, q: Point)
    ensures On(r, p, q) <==> On(Swap(r), Swap(p), Swap(q))
  {
    forall t: real
      ensures At(r, p, q, t) <==> At(Swap(r), Swap(p), Swap(q), t)
    {
    }
  }

  lemma CrossFlipped(y: real, p: Point, q: Point)
    requires p.y != q.y
    ensures Flip(CrossY(y, p, q)) == CrossY(-y, Flip(p), Flip(q))
  {
    var s := (y - p.y) / (q.y - p.y);
    assert s * (-q.y - -p.y) == -(s * (q.y - p.y));
    Quotient(-y - -p.y, -q.y - -p.y, s);
  }

  lemma YMaxIsExact(max: real, p: Point, q: Point, r: Point)
    ensures OnClipped(r, ClipYMax(max, p, q)) <==> On(r, p, q) && r.y <= max
  {
    YMinIsExact(-max, Flip(p), Flip(q), Flip(r));
    FlippedOn(r, p, q);
    if p.y != q.y {
      CrossFlipped(max, p, q);
      FlippedOn(r, CrossY(max, p, q), q);
      FlippedOn(r, p, CrossY(max, p, q));
    }
  }

  lemma XMinIsExact(min: real, p: Point, q: Point, r: Point)
    ensures OnClipped(r, ClipXMin(min, p, q)) <==> On(r, p, q) && r.x >= min
  {
    YMinIsExact(min, Swap(p), Swap(q), Swap(r));
    SwappedOn(r, p, q);
    if p.x != q.x {
      assert Swap(CrossX(min, p, q)) == CrossY(min, Swap(p), Swap(q));
      SwappedOn(r, CrossX(min, p, q), q);
      SwappedOn(r, p, CrossX(min, p, q));
    }
  }

  lemma XMaxIsExact(max: real, p: Point, q: Point, r: Point)
    ensures OnClipped(r, ClipXMax(max, p, q)) <==> On(r, p, q) && r.x <= max
  {
    YMaxIsExact(max, Swap(p), Swap(q), Swap(r));
    SwappedOn(r, p, q);
    if p.x != q.x {
      assert Swap(CrossX(max, p, q)) == CrossY(max, Swap(p), Swap(q));
      SwappedOn(r, CrossX(max, p, q), q);
      SwappedOn(r, p, CrossX(max, p, q));
    }
  }

  predicate InBox(xaxis: Axis, yaxis: Axis, r: Point) {
    xaxis.min <= r.x <= xaxis.max && yaxis.min <= r.y <= yaxis.max
  }

  /** The clipper emits exactly the part of the segment inside the axis box. */
  lemma ClipIsIntersection(xaxis: Axis, yaxis: Axis, p: Point, q: Point, r: Point)
    ensures OnClipped(r, ClipSegment(xaxis, yaxis, p, q)) <==> On(r, p, q) && InBox(xaxis, yaxis, r)
  {
    YMinIsExact(yaxis.min, p, q, r);
    var c1 := ClipYMin(yaxis.min, p, q);
    if c1.Keep? {
      YMaxIsExact(yaxis.max, c1.p, c1.q, r);
      var c2 := ClipYMax(yaxis.max, c1.p, c1.q);
      if c2.Keep? {
        XMinIsExact(xaxis.min, c2.p, c2.q, r);
        var c3 := ClipXMin(xaxis.min, c2.p, c2.q);
        if c3.Keep? {
          XMaxIsExact(xaxis.max, c3.p, c3.q, r);
        }
      }
    }
  }

  /** It skips a segment exactly when no point of it is inside. */
  lemma SkipsIffOutside(xaxis: Axis, yaxis: Axis, p: Point, q: Point)
    ensures ClipSegment(xaxis, yaxis, p, q).Skip? <==> forall r :: On(r, p, q) ==> !InBox(xaxis, yaxis, r)
  {
    var c := ClipSegment(xaxis, yaxis, p, q);
    if c.Skip? {
      forall r | On(r, p, q)
        ensures !InBox(xaxis, yaxis, r)
      {
        ClipIsIntersection(xaxis, yaxis, p, q, r);
      }
    } else {
      assert At(c.p, c.p, c.q, 0.0);
      ClipIsIntersection(xaxis, yaxis, p, q, c.p);
    }
  }
}
