/** The two-direction sweep of plotLineArea (public/js/plugins/flot/jquery.flot.js), for any way of drawing one
    pair of samples: the two-pass reference, and the state machine of the loop that refines it. */
module FlotSweep {
  import opened Basics
  import opened FlotLines

  /** How samples are drawn: which are gaps, how a path is opened at the pair ending in sample k (None if that
      pair is not visible), and the outline of the pair (from, to) with the height at an offset. */
  datatype Sketch = Sketch(gap: int -> bool, opening: int -> Option<seq<Command>>, outline: (int, int, int) -> seq<Command>)

  /** There are `n` samples; a pair next to a gap is not visible and has no outline. */
  ghost predicate Sound(k: Sketch, n: int) {
    && n >= 0 && k.gap(n)
    && (forall i :: k.opening(i).Some? ==> i < n && !k.gap(i) && !k.gap(i - 1))
    && (forall i, j, y :: k.gap(j) ==> k.outline(i, j, y) == [])
  }

  // ------------------------------------------------------- the two-pass reference

  /** The commands `done`, then the top from sample `j` up to sample `e`, left to right. */
  ghost function Top(k: Sketch, j: int, e: int, done: seq<Command>): seq<Command>
    decreases e - j
  {
    if j >= e then done else Top(k, j + 1, e, done + k.outline(j, j + 1, 1))
  }

  /** The commands `done`, then the bottom from sample `j` down to sample `a`, right to left. */
  ghost function Bottom(k: Sketch, j: int, a: int, done: seq<Command>): seq<Command>
    decreases j - a
  {
    if j <= a then done else Bottom(k, j - 1, a, done + k.outline(j, j - 1, 2))
  }

  /** The first sample after `a` whose pair with its predecessor is visible, `n` if there is none. */
  ghost function FirstVisible(k: Sketch, a: int, n: int): (f: int)
    ensures a <= n ==> a <= f <= n
    ensures a < n ==> a < f && (f < n ==> k.opening(f).Some?)
    decreases n - a
  {
    if a + 1 >= n then n else if k.opening(a + 1).Some? then a + 1 else FirstVisible(k, a + 1, n)
  }

  /** The first gap after sample `j`, at the latest the end of the data. */
  ghost function NextGap(k: Sketch, j: int, n: int): (e: int)
    ensures j < n ==> j < e <= n
    ensures e < n ==> k.gap(e)
    decreases n - j
  {
    if j + 1 >= n then n else if k.gap(j + 1) then j + 1 else NextGap(k, j + 1, n)
  }

  lemma {:induction false} FirstVisibleIsFirst(k: Sketch, a: int, f: int, n: int)
    requires a < f < n && k.opening(f).Some? && forall i :: a < i < f ==> k.opening(i).None?
    ensures FirstVisible(k, a, n) == f
    decreases f - a
  {
    if a + 1 < f {
      FirstVisibleIsFirst(k, a + 1, f, n);
    }
  }

  lemma {:induction false} NoneVisible(k: Sketch, a: int, n: int)
    requires a < n && forall i :: a < i < n ==> k.opening(i).None?
    ensures FirstVisible(k, a, n) == n
    decreases n - a
  {
    if a + 1 < n {
      NoneVisible(k, a + 1, n);
    }
  }

  lemma {:induction false} NoGapBefore(k: Sketch, j: int, n: int)
    ensures forall i :: j < i < NextGap(k, j, n) ==> !k.gap(i)
    decreases n - j
  {
    if j + 1 < n && !k.gap(j + 1) {
      NoGapBefore(k, j + 1, n);
    }
  }

  /** The commands `done`, then the drawing from sample `a` on: for each run up to a gap with anything visible in
      it, one path that is opened, outlined along the top, outlined back along the bottom to where the sweep
      began, and filled. */
  ghost function Sweep(k: Sketch, a: int, n: int, done: seq<Command>): seq<Command>
    decreases n - a
  {
    var f := FirstVisible(k, a, n);
    if a >= n || f >= n then done
    else
      var e := NextGap(k, f, n);
      Sweep(k, e + 1, n, Bottom(k, e, a, Top(k, f - 1, e, done + k.opening(f).value)) + [Fill])
  }

  // ------------------------------------------------------------ the loop's states

  datatype Phase = Closed | Forward | Back

  /** A state of the loop: `j` is the sample at i, `a` the one at segmentStart, `e` the gap the open sweep turns at. */
  datatype State = State(phase: Phase, j: int, a: int, e: int)

  ghost predicate Reachable(k: Sketch, n: int, s: State) {
    && 0 <= s.a <= n + 1
    && match s.phase
       case Closed => s.a <= s.j <= n + 2 && s.e == 0 && forall i :: s.a < i <= s.j ==> k.opening(i).None?
       case Forward => s.a < s.j < s.e <= n && k.gap(s.e) && forall i :: s.j <= i < s.e ==> !k.gap(i)
       case Back => s.a <= s.j <= s.e <= n
  }

  /** What will have been drawn in the end, if `done` is drawn when the loop is in state `s`. */
  ghost function Final(k: Sketch, n: int, s: State, done: seq<Command>): seq<Command> {
    match s.phase
    case Closed => Sweep(k, s.a, n, done)
    case Forward => Sweep(k, s.e + 1, n, Bottom(k, s.e, s.a, Top(k, s.j, s.e, done)) + [Fill])
    case Back => Sweep(k, s.e + 1, n, Bottom(k, s.j, s.a, done) + [Fill])
  }

  ghost function Next(k: Sketch, n: int, s: State): State {
    match s.phase
    case Closed =>
      if k.opening(s.j + 1).Some? then State(Forward, s.j + 1, s.a, NextGap(k, s.j + 1, n)) else s.(j := s.j + 1)
    case Forward => if s.j + 1 == s.e then State(Back, s.e, s.a, s.e) else s.(j := s.j + 1)
    case Back => if s.j == s.a then State(Closed, s.e + 1, s.e + 1, 0) else s.(j := s.j - 1)
  }

  ghost function Emitted(k: Sketch, s: State): seq<Command> {
    match s.phase
    case Closed => if k.opening(s.j + 1).Some? then k.opening(s.j + 1).value + k.outline(s.j, s.j + 1, 1) else []
    case Forward => if s.j + 1 == s.e then [] else k.outline(s.j, s.j + 1, 1)
    case Back => if s.j == s.a then [Fill] else k.outline(s.j, s.j - 1, 2)
  }

  lemma ClosedStep(k: Sketch, n: int, s: State, done: seq<Command>)
    requires Sound(k, n) && s.phase.Closed? && Reachable(k, n, s) && s.j <= n + 1
    ensures Final(k, n, Next(k, n, s), done + Emitted(k, s)) == Final(k, n, s, done)
  {
    var f := s.j + 1;
    if k.opening(f).Some? {
      FirstVisibleIsFirst(k, s.a, f, n);
      Regroup(done, k.opening(f).value, k.outline(s.j, f, 1));
    } else {
      Regroup(done, [], []);
    }
  }

  lemma ForwardStep(k: Sketch, n: int, s: State, done: seq<Command>)
    requires Sound(k, n) && s.phase.Forward? && Reachable(k, n, s)
    ensures Final(k, n, Next(k, n, s), done + Emitted(k, s)) == Final(k, n, s, done)
  {
    if s.j + 1 == s.e {
      assert k.outline(s.j, s.e, 1) == [];
      Regroup(done, [], []);
      assert Top(k, s.j, s.e, done) == Top(k, s.e, s.e, done);
    }
  }

  lemma BackStep(k: Sketch, n: int, s: State, done: seq<Command>)
    requires s.phase.Back? && Reachable(k, n, s)
    ensures Final(k, n, Next(k, n, s), done + Emitted(k, s)) == Final(k, n, s, done)
  {
  }

  lemma StaysReachable(k: Sketch, n: int, s: State)
    requires Sound(k, n) && Reachable(k, n, s) && (s.phase.Closed? ==> s.j <= n + 1)
    ensures Reachable(k, n, Next(k, n, s))
  {
    NoGapBefore(k, s.j + 1, n);
  }

  /** With `done` drawn in state `s`, the loop ends up with the whole drawing. */
  ghost predicate OnCourse(k: Sketch, n: int, s: State, done: seq<Command>) {
    Reachable(k, n, s) && Final(k, n, s, done) == Sweep(k, 0, n, [])
  }

  lemma StaysOnCourse(k: Sketch, n: int, s: State, done: seq<Command>)
    requires Sound(k, n) && OnCourse(k, n, s, done) && (s.phase.Closed? ==> s.j <= n + 1)
    ensures OnCourse(k, n, Next(k, n, s), done + Emitted(k, s))
    ensures Emitted(k, s) == [] ==> OnCourse(k, n, Next(k, n, s), done)
  {
    StaysReachable(k, n, s);
    Regroup(done, [], []);
    match s.phase
    case Closed => ClosedStep(k, n, s, done);
    case Forward => ForwardStep(k, n, s, done);
    case Back => BackStep(k, n, s, done);
  }

  /** The loop stops only with everything drawn, in particular with no path open. */
  lemma NothingLeft(k: Sketch, n: int, s: State, done: seq<Command>)
    requires Sound(k, n) && OnCourse(k, n, s, done) && s.phase.Closed? && s.j > n
    ensures done == Sweep(k, 0, n, [])
  {
    if s.a < n {
      NoneVisible(k, s.a, n);
    }
  }

  /** The measure of the loop: segmentStart advances, or the sweep turns back, or it moves along. */
  ghost predicate Nearer(n: int, s: State, t: State) {
    if t.a != s.a then s.a < t.a && s.a <= n
    else if t.phase.Back? != s.phase.Back? then t.phase.Back?
    else if s.phase.Back? then t.j < s.j && 0 <= s.j
    else s.j < t.j && s.j <= n + 2
  }

  lemma SweepProgress(k: Sketch, n: int, s: State)
    requires Sound(k, n) && Reachable(k, n, s) && (s.phase.Closed? ==> s.j <= n + 1)
    ensures Nearer(n, s, Next(k, n, s))
  {
  }

  // -------------------------------------------------------- the loop's variables

  datatype Vars = Vars(i: int, ps: int, ypos: int, areaOpen: bool, segmentStart: int, segmentEnd: int)

  /** The loop's variables in a state, for points of `size` coordinates. */
  ghost predicate Represents(size: int, s: State, v: Vars) {
    && v.i == Flat(size, s.j) && v.segmentStart == Flat(size, s.a)
    && (s.phase.Back? ==> v.segmentEnd == Flat(size, s.e))
    && v.ps == (if s.phase.Back? then -size else size) && v.ypos == (if s.phase.Back? then 2 else 1)
    && (v.areaOpen <==> !s.phase.Closed?)
  }

  predicate Turns(s: State) {
    (s.phase.Forward? && s.j + 1 == s.e) || (s.phase.Back? && s.j == s.a)
  }

  function To(s: State): int {
    if s.phase.Back? then s.j - 1 else s.j + 1
  }

  ghost predicate LoopInvariant(k: Sketch, n: int, size: int, s: State, v: Vars, done: seq<Command>) {
    Represents(size, s, v) && OnCourse(k, n, s, done)
  }

  lemma DataEnds(size: int, n: nat, j: int)
    requires size > 0
    ensures Flat(size, j) > Flat(size, n) + size <==> j > n + 1
  {
    FlatOrder(size, n, j);
    FlatOrder(size, n + 1, j);
  }

  /** The loop stops where the data ends. */
  lemma Stops(k: Sketch, n: nat, size: int, s: State, v: Vars)
    requires size > 0 && Reachable(k, n, s) && Represents(size, s, v)
    ensures v.ps > 0 && v.i > Flat(size, n) + v.ps <==> s.phase.Closed? && s.j > n + 1
  {
    DataEnds(size, n, s.j);
  }

  /** The next index is that of the neighbouring sample in the direction of the sweep. */
  lemma MovesAlong(size: int, s: State, v: Vars)
    requires size > 0 && Represents(size, s, v)
    ensures v.i + v.ps == Flat(size, To(s))
  {
    FlatOrder(size, s.j, s.j);
  }

  /** An open path turns at a gap and closes where it began. */
  lemma Decisions(k: Sketch, n: int, size: int, s: State, v: Vars)
    requires Sound(k, n) && size > 0 && Reachable(k, n, s) && Represents(size, s, v)
    ensures v.areaOpen && v.ps > 0 && !k.gap(s.j) && k.gap(s.j + 1) <==> s.phase.Forward? && Turns(s)
    ensures v.areaOpen && v.ps < 0 && v.i + v.ps == v.segmentStart + v.ps <==> s.phase.Back? && Turns(s)
  {
    if s.phase.Back? {
      FlatOrder(size, s.j, s.a);
    }
  }

  /** The three ways through the loop's body. */
  lemma GoesOn(k: Sketch, n: nat, size: int, s: State, v: Vars, done: seq<Command>) returns (t: State)
    requires Sound(k, n) && size > 0 && LoopInvariant(k, n, size, s, v, done)
    requires !Turns(s) && (s.phase.Closed? ==> s.j <= n + 1)
    ensures LoopInvariant(k, n, size, t, v.(i := v.i + v.ps, areaOpen := !Next(k, n, s).phase.Closed?), done + Emitted(k, s))
    ensures Nearer(n, s, t)
  {
    t := Next(k, n, s);
    StaysOnCourse(k, n, s, done);
    SweepProgress(k, n, s);
    MovesAlong(size, s, v);
  }

  lemma TurnsBack(k: Sketch, n: nat, size: int, s: State, v: Vars, done: seq<Command>) returns (t: State)
    requires Sound(k, n) && size > 0 && LoopInvariant(k, n, size, s, v, done)
    requires s.phase.Forward? && Turns(s)
    ensures LoopInvariant(k, n, size, t, v.(i := v.i + v.ps, ps := -v.ps, ypos := 2, segmentEnd := v.i + v.ps), done)
    ensures Nearer(n, s, t)
  {
    t := Next(k, n, s);
    StaysOnCourse(k, n, s, done);
    SweepProgress(k, n, s);
    MovesAlong(size, s, v);
  }

  lemma ClosesPath(k: Sketch, n: nat, size: int, s: State, v: Vars, done: seq<Command>) returns (t: State)
    requires Sound(k, n) && size > 0 && LoopInvariant(k, n, size, s, v, done)
    requires s.phase.Back? && Turns(s)
    ensures LoopInvariant(k, n, size, t,
                          v.(i := v.segmentEnd - v.ps, ps := -v.ps, ypos := 1, areaOpen := false,
                             segmentStart := v.segmentEnd - v.ps),
                          done + [Fill])
    ensures Nearer(n, s, t)
  {
    t := Next(k, n, s);
    StaysOnCourse(k, n, s, done);
    SweepProgress(k, n, s);
    FlatOrder(size, s.e, s.e);
  }

  // --------------------------------------------------------- paths and their fills

  datatype PathState = NoPath | Open | Broken

  /** Where a list of commands leaves the canvas: a path is opened when none is open, then only extended, and
      filled once; anything else breaks the discipline for good. */
  function PathsAfter(commands: seq<Command>): PathState {
    if commands == [] then NoPath
    else
      var before := PathsAfter(commands[..|commands| - 1]);
      match commands[|commands| - 1]
      case BeginPath => if before.NoPath? then Open else Broken
      case Fill => if before.Open? then NoPath else Broken
      case Stroke => Broken
      case _ => if before.Open? then Open else Broken
  }

  lemma OneMore(commands: seq<Command>, c: Command)
    ensures PathsAfter(commands + [c]) ==
            match c
            case BeginPath => if PathsAfter(commands).NoPath? then Open else Broken
            case Fill => if PathsAfter(commands).Open? then NoPath else Broken
            case Stroke => Broken
            case _ => if PathsAfter(commands).Open? then Open else Broken
  {
    assert (commands + [c])[..|commands|] == commands;
  }

  ghost predicate OnlyLines(commands: seq<Command>) {
    forall c :: c in commands ==> c.LineTo?
  }

  /** A sketch whose openings begin a path and whose outlines only extend it. */
  ghost predicate Extends(k: Sketch) {
    && (forall i :: k.opening(i).Some? ==>
          |k.opening(i).value| == 2 && k.opening(i).value[0].BeginPath? && k.opening(i).value[1].MoveTo?)
    && (forall i, j, y :: OnlyLines(k.outline(i, j, y)))
  }

  lemma {:induction false} LinesKeepOpen(done: seq<Command>, more: seq<Command>)
    requires PathsAfter(done).Open? && OnlyLines(more)
    ensures PathsAfter(done + more).Open?
    decreases |more|
  {
    if more == [] {
      assert done + more == done;
    } else {
      OneMore(done, more[0]);
      LinesKeepOpen(done + [more[0]], more[1..]);
      assert done + more == (done + [more[0]]) + more[1..];
    }
  }

  lemma {:induction false} TopKeepsOpen(k: Sketch, j: int, e: int, done: seq<Command>)
    requires Extends(k) && PathsAfter(done).Open?
    ensures PathsAfter(Top(k, j, e, done)).Open?
    decreases e - j
  {
    if j < e {
      LinesKeepOpen(done, k.outline(j, j + 1, 1));
      TopKeepsOpen(k, j + 1, e, done + k.outline(j, j + 1, 1));
    }
  }

  lemma {:induction false} BottomKeepsOpen(k: Sketch, j: int, a: int, done: seq<Command>)
    requires Extends(k) && PathsAfter(done).Open?
    ensures PathsAfter(Bottom(k, j, a, done)).Open?
    decreases j - a
  {
    if j > a {
      LinesKeepOpen(done, k.outline(j, j - 1, 2));
      BottomKeepsOpen(k, j - 1, a, done + k.outline(j, j - 1, 2));
    }
  }

  lemma OpeningOpens(done: seq<Command>, opening: seq<Command>)
    requires PathsAfter(done).NoPath? && |opening| == 2 && opening[0].BeginPath? && opening[1].MoveTo?
    ensures PathsAfter(done + opening).Open?
  {
    OneMore(done, opening[0]);
    OneMore(done + [opening[0]], opening[1]);
    assert done + opening == (done + [opening[0]]) + [opening[1]];
  }

  /** The sweep fills every path it opens exactly once, before it opens another and before it ends. */
  lemma {:induction false} SweepFillsPaths(k: Sketch, a: int, n: int, done: seq<Command>)
    requires Extends(k) && PathsAfter(done).NoPath?
    ensures PathsAfter(Sweep(k, a, n, done)).NoPath?
    decreases n - a
  {
    var f := FirstVisible(k, a, n);
    if a < n && f < n {
      var e := NextGap(k, f, n);
      var begun := done + k.opening(f).value;
      OpeningOpens(done, k.opening(f).value);
      TopKeepsOpen(k, f - 1, e, begun);
      var top := Top(k, f - 1, e, begun);
      BottomKeepsOpen(k, e, a, top);
      OneMore(Bottom(k, e, a, top), Fill);
      SweepFillsPaths(k, e + 1, n, Bottom(k, e, a, top) + [Fill]);
    }
  }
}
