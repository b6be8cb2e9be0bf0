/** The deep comparison on graphs with cycles: it answers true exactly of congruent graphs whose loops return to
    the same places on both sides. */
module DeepEqualCycles {
  import opened Basics
  import opened DeepEqual
  import opened DeepEqualMeaning

  datatype Label = Item(i: nat) | Property(k: string)

  function Child(heap: Heap, v: Value, l: Label): Option<Value> {
    if !v.Ref? || v.id !in heap then None
    else
      match (heap[v.id], l)
      case (ArrayObject(xs), Item(i)) => if i < |xs| then Some(xs[i]) else None
      case (PlainObject(p), Property(k)) => if k in p then Some(p[k]) else None
      case _ => None
  }

  /** The value a chain of accesses leads to. */
  function Walk(heap: Heap, v: Value, q: seq<Label>): Option<Value> {
    if q == [] then Some(v)
    else
      match Walk(heap, v, q[..|q| - 1])
      case None => None
      case Some(w) => Child(heap, w, q[|q| - 1])
  }

  /** Both sides can follow `q`; before its end it never meets one object of `a`'s side twice, nor a value
      identical on both sides. */
  ghost predicate Simple(heap: Heap, a: Value, b: Value, q: seq<Label>) {
    && Walk(heap, a, q).Some? && Walk(heap, b, q).Some?
    && (forall i :: 0 <= i < |q| ==> Walk(heap, a, q[..i]) != Walk(heap, b, q[..i]))
    && (forall i, j :: 0 <= i < j < |q| ==> Walk(heap, a, q[..i]) != Walk(heap, a, q[..j]))
  }

  /** Where a simple chain closes a loop on `a`'s side, it closes it at the same place on `b`'s. */
  ghost predicate LoopsReturn(heap: Heap, a: Value, b: Value) {
    forall q, i :: ClosesLoop(heap, a, b, q, i) ==> ClosesAt(heap, b, q, i)
  }

  /** A simple chain, to values not identical, is back at the object it had reached after `i` accesses. */
  ghost predicate ClosesLoop(heap: Heap, a: Value, b: Value, q: seq<Label>, i: int) {
    && Simple(heap, a, b, q) && Walk(heap, a, q) != Walk(heap, b, q)
    && 0 <= i < |q| && ClosesAt(heap, a, q, i)
  }

  ghost predicate ClosesAt(heap: Heap, v: Value, q: seq<Label>, i: int)
    requires 0 <= i < |q|
  {
    Walk(heap, v, q) == Walk(heap, v, q[..i])
  }

  // --------------------------------------------------------- chains and stacks

  lemma {:induction false} WalkIsKnown(heap: Heap, v: Value, q: seq<Label>)
    requires Closed(heap) && Known(heap, v)
    ensures Walk(heap, v, q).Some? ==> Known(heap, Walk(heap, v, q).value)
  {
    if q != [] && Walk(heap, v, q).Some? {
      WalkIsKnown(heap, v, q[..|q| - 1]);
      var w := Walk(heap, v, q[..|q| - 1]).value;
      assert Walk(heap, v, q).value in Children(heap[w.id]);
    }
  }

  /** The objects a chain passes before its end. */
  function Trail(heap: Heap, v: Value, q: seq<Label>): seq<Id> {
    if q == [] then []
    else
      var before := q[..|q| - 1];
      Trail(heap, v, before) + [match Walk(heap, v, before) case Some(Ref(id)) => id case _ => 0]
  }

  lemma {:induction false} TrailAt(heap: Heap, v: Value, q: seq<Label>)
    requires Walk(heap, v, q).Some?
    ensures |Trail(heap, v, q)| == |q|
    ensures forall i :: 0 <= i < |q| ==> Walk(heap, v, q[..i]) == Some(Ref(Trail(heap, v, q)[i]))
  {
    if q != [] {
      var before := q[..|q| - 1];
      TrailAt(heap, v, before);
      assert forall i :: 0 <= i < |before| ==> before[..i] == q[..i];
    }
  }

  lemma {:induction false} PairedAt(aStack: seq<Id>, bStack: seq<Id>, i: int)
    requires |aStack| == |bStack| && NoDuplicates(aStack) && 0 <= i < |aStack|
    ensures Paired(aStack, bStack, aStack[i]) == Some(bStack[i])
  {
    var top := |aStack| - 1;
    if i < top {
      PairedAt(aStack[..top], bStack[..top], i);
    }
  }

  lemma SimpleTrail(heap: Heap, a: Value, b: Value, q: seq<Label>)
    requires Simple(heap, a, b, q)
    ensures |Trail(heap, a, q)| == |Trail(heap, b, q)| == |q| && NoDuplicates(Trail(heap, a, q))
  {
    TrailAt(heap, a, q);
    TrailAt(heap, b, q);
    var trail := Trail(heap, a, q);
    forall i, j | 0 <= i < j < |trail|
      ensures trail[i] != trail[j]
    {
      assert Walk(heap, a, q[..i]) != Walk(heap, a, q[..j]);
    }
  }

  lemma SimpleBefore(heap: Heap, a: Value, b: Value, q: seq<Label>)
    requires Simple(heap, a, b, q) && q != []
    ensures Simple(heap, a, b, q[..|q| - 1])
    ensures var before := q[..|q| - 1];
            Walk(heap, a, before) != Walk(heap, b, before)
            && forall i :: 0 <= i < |before| ==> Walk(heap, a, before[..i]) != Walk(heap, a, before)
  {
    var before := q[..|q| - 1];
    assert forall i :: 0 <= i < |before| ==> before[..i] == q[..i];
  }

  // -------------------------------------------------- equal graphs loop alike

  /** A successful comparison compares the ends of every simple chain, with the chain on the stacks. */
  lemma {:induction false} SameAlong(heap: Heap, a: Value, b: Value, q: seq<Label>)
    requires Closed(heap) && Known(heap, a) && Known(heap, b) && Same(heap, a, b, [], []) && Simple(heap, a, b, q)
    ensures SameAt(heap, a, b, q)
  {
    WalkIsKnown(heap, a, q);
    WalkIsKnown(heap, b, q);
    SimpleTrail(heap, a, b, q);
    if q != [] {
      var before, l := q[..|q| - 1], q[|q| - 1];
      SimpleBefore(heap, a, b, q);
      SameAlong(heap, a, b, before);
      NotOnTrail(heap, a, b, before);
      SameChild(heap, Walk(heap, a, before).value, Walk(heap, b, before).value, l,
                Trail(heap, a, before), Trail(heap, b, before));
    }
  }

  ghost predicate SameAt(heap: Heap, a: Value, b: Value, q: seq<Label>) {
    && Closed(heap) && Simple(heap, a, b, q)
    && |Trail(heap, a, q)| == |Trail(heap, b, q)|
    && Known(heap, Walk(heap, a, q).value) && Known(heap, Walk(heap, b, q).value)
    && Same(heap, Walk(heap, a, q).value, Walk(heap, b, q).value, Trail(heap, a, q), Trail(heap, b, q))
  }

  lemma NotOnTrail(heap: Heap, a: Value, b: Value, q: seq<Label>)
    requires Simple(heap, a, b, q) && forall i :: 0 <= i < |q| ==> Walk(heap, a, q[..i]) != Walk(heap, a, q)
    ensures Walk(heap, a, q).value.Ref? ==> Walk(heap, a, q).value.id !in Trail(heap, a, q)
  {
    TrailAt(heap, a, q);
  }

  lemma SameChild(heap: Heap, x: Value, y: Value, l: Label, aStack: seq<Id>, bStack: seq<Id>)
    requires Closed(heap) && Known(heap, x) && Known(heap, y) && |aStack| == |bStack|
    requires Same(heap, x, y, aStack, bStack) && x != y && (x.Ref? ==> x.id !in aStack)
    requires Child(heap, x, l).Some? && Child(heap, y, l).Some?
    ensures Known(heap, Child(heap, x, l).value) && Known(heap, Child(heap, y, l).value)
    ensures Same(heap, Child(heap, x, l).value, Child(heap, y, l).value, aStack + [x.id], bStack + [y.id])
  {
    assert Child(heap, x, l).value in Children(heap[x.id]) && Child(heap, y, l).value in Children(heap[y.id]);
  }

  lemma SameOnTrail(heap: Heap, x: Value, y: Value, aStack: seq<Id>, bStack: seq<Id>)
    requires Closed(heap) && Known(heap, x) && Known(heap, y) && |aStack| == |bStack|
    requires Same(heap, x, y, aStack, bStack) && x != y && x.Ref? && x.id in aStack
    requires heap[x.id].ArrayObject? || heap[x.id].PlainObject?
    ensures y.Ref? && Paired(aStack, bStack, x.id) == Some(y.id)
  {
  }

  lemma LoopReturns(heap: Heap, a: Value, b: Value, q: seq<Label>, i: int)
    requires SameAt(heap, a, b, q) && ClosesLoop(heap, a, b, q, i)
    ensures ClosesAt(heap, b, q, i)
  {
    var aStack, bStack := Trail(heap, a, q), Trail(heap, b, q);
    TrailAt(heap, a, q);
    TrailAt(heap, b, q);
    SimpleTrail(heap, a, b, q);
    Followed(heap, a, q, i);
    assert aStack[i] in aStack && Walk(heap, a, q) == Some(Ref(aStack[i]));
    SameOnTrail(heap, Ref(aStack[i]), Walk(heap, b, q).value, aStack, bStack);
    PairedAt(aStack, bStack, i);
  }

  lemma EqualMeansLoopsReturn(heap: Heap, a: Value, b: Value)
    requires Closed(heap) && Known(heap, a) && Known(heap, b) && Same(heap, a, b, [], [])
    ensures LoopsReturn(heap, a, b)
  {
    forall q, i | ClosesLoop(heap, a, b, q, i)
      ensures ClosesAt(heap, b, q, i)
    {
      SameAlong(heap, a, b, q);
      LoopReturns(heap, a, b, q, i);
    }
  }

  /** An object a chain goes on from is an array or a plain object. */
  lemma Followed(heap: Heap, v: Value, q: seq<Label>, i: int)
    requires Walk(heap, v, q).Some? && 0 <= i < |q|
    ensures Walk(heap, v, q[..i]).Some? && Walk(heap, v, q[..i]).value.Ref?
    ensures var id := Walk(heap, v, q[..i]).value.id; id in heap && (heap[id].ArrayObject? || heap[id].PlainObject?)
    decreases |q|
  {
    if i < |q| - 1 {
      Followed(heap, v, q[..|q| - 1], i);
      assert q[..|q| - 1][..i] == q[..i];
    }
  }

  // ------------------------------------- congruent graphs that loop alike are equal

  lemma WalkOn(heap: Heap, v: Value, q: seq<Label>, l: Label)
    requires Walk(heap, v, q).Some?
    ensures Walk(heap, v, q + [l]) == Child(heap, Walk(heap, v, q).value, l)
    ensures Walk(heap, v, q).value.Ref? ==> Trail(heap, v, q + [l]) == Trail(heap, v, q) + [Walk(heap, v, q).value.id]
  {
    assert (q + [l])[..|q|] == q;
  }

  /** The pair at the end of `q` differs, and its first object is new on the chain. */
  ghost predicate GoesOn(heap: Heap, a: Value, b: Value, q: seq<Label>) {
    && Simple(heap, a, b, q) && Walk(heap, a, q) != Walk(heap, b, q)
    && Walk(heap, a, q).value.Ref? && Walk(heap, b, q).value.Ref?
    && Walk(heap, a, q).value.id !in Trail(heap, a, q)
  }

  lemma SimpleGoesOn(heap: Heap, a: Value, b: Value, q: seq<Label>, l: Label)
    requires GoesOn(heap, a, b, q) && Walk(heap, a, q + [l]).Some? && Walk(heap, b, q + [l]).Some?
    ensures Simple(heap, a, b, q + [l])
  {
    var longer := q + [l];
    assert longer[..|q|] == q;
    assert forall i :: 0 <= i < |q| ==> longer[..i] == q[..i];
    TrailAt(heap, a, q);
    forall i | 0 <= i < |q|
      ensures Walk(heap, a, q[..i]) != Walk(heap, a, q)
    {
      assert Trail(heap, a, q)[i] in Trail(heap, a, q);
    }
  }

  ghost predicate SameNext(heap: Heap, a: Value, b: Value, q: seq<Label>, l: Label) {
    GoesOn(heap, a, b, q) && SameAt(heap, a, b, q + [l])
  }

  /** What the ends of a chain hold under one label is compared with the ends on the stacks. */
  lemma NextPair(heap: Heap, a: Value, b: Value, q: seq<Label>, l: Label)
    requires SameNext(heap, a, b, q, l)
    ensures |Trail(heap, a, q)| == |Trail(heap, b, q)|
    ensures var x, y := Walk(heap, a, q).value, Walk(heap, b, q).value;
            && Child(heap, x, l).Some? && Child(heap, y, l).Some?
            && Known(heap, Child(heap, x, l).value) && Known(heap, Child(heap, y, l).value)
            && Same(heap, Child(heap, x, l).value, Child(heap, y, l).value,
                    Trail(heap, a, q) + [x.id], Trail(heap, b, q) + [y.id])
  {
    WalkOn(heap, a, q, l);
    WalkOn(heap, b, q, l);
  }

  lemma SameArrays(heap: Heap, a: Id, b: Id, xs: seq<Value>, ys: seq<Value>, aStack: seq<Id>, bStack: seq<Id>)
    requires Closed(heap) && a in heap && b in heap && |aStack| == |bStack| && a !in aStack
    requires heap[a] == ArrayObject(xs) && heap[b] == ArrayObject(ys) && |xs| == |ys|
    requires forall i :: 0 <= i < |xs| ==> Known(heap, xs[i]) && Known(heap, ys[i])
                                           && Same(heap, xs[i], ys[i], aStack + [a], bStack + [b])
    ensures Same(heap, Ref(a), Ref(b), aStack, bStack)
  {
  }

  lemma SamePlain(heap: Heap, a: Id, b: Id, p: map<string, Value>, q: map<string, Value>, aStack: seq<Id>, bStack: seq<Id>)
    requires Closed(heap) && a in heap && b in heap && |aStack| == |bStack| && a !in aStack
    requires heap[a] == PlainObject(p) && heap[b] == PlainObject(q) && p.Keys == q.Keys
    requires OwnConstructor(heap[a]) == OwnConstructor(heap[b])
    requires forall k :: k in p ==> Known(heap, p[k]) && Known(heap, q[k])
                                    && Same(heap, p[k], q[k], aStack + [a], bStack + [b])
    ensures Same(heap, Ref(a), Ref(b), aStack, bStack)
  {
  }

  ghost predicate AllNext(heap: Heap, a: Value, b: Value, q: seq<Label>)
    requires Walk(heap, a, q).Some? && Walk(heap, b, q).Some?
  {
    forall l :: Child(heap, Walk(heap, a, q).value, l).Some? && Child(heap, Walk(heap, b, q).value, l).Some?
      ==> SameNext(heap, a, b, q, l)
  }

  lemma ChildrenAreSame(heap: Heap, a: Value, b: Value, q: seq<Label>, r: set<(Id, Id)>)
    requires Closed(heap) && GoesOn(heap, a, b, q) && AllNext(heap, a, b, q)
    requires Known(heap, Walk(heap, a, q).value) && Known(heap, Walk(heap, b, q).value)
    requires |Trail(heap, a, q)| == |Trail(heap, b, q)|
    requires var x, y := Walk(heap, a, q).value, Walk(heap, b, q).value;
             Matching(heap, r, x.id, y.id) && OwnConstructor(heap[x.id]) == OwnConstructor(heap[y.id])
    ensures SameAt(heap, a, b, q)
  {
    var x, y := Walk(heap, a, q).value, Walk(heap, b, q).value;
    var aStack, bStack := Trail(heap, a, q), Trail(heap, b, q);
    match (heap[x.id], heap[y.id])
    case (ArrayObject(xs), ArrayObject(ys)) =>
      forall i | 0 <= i < |xs|
        ensures Known(heap, xs[i]) && Known(heap, ys[i]) && Same(heap, xs[i], ys[i], aStack + [x.id], bStack + [y.id])
      {
        assert Child(heap, x, Item(i)) == Some(xs[i]) && Child(heap, y, Item(i)) == Some(ys[i]);
        NextPair(heap, a, b, q, Item(i));
      }
      SameArrays(heap, x.id, y.id, xs, ys, aStack, bStack);
    case (PlainObject(p), PlainObject(o)) =>
      forall k | k in p
        ensures Known(heap, p[k]) && Known(heap, o[k]) && Same(heap, p[k], o[k], aStack + [x.id], bStack + [y.id])
      {
        assert Child(heap, x, Property(k)) == Some(p[k]) && Child(heap, y, Property(k)) == Some(o[k]);
        NextPair(heap, a, b, q, Property(k));
      }
      SamePlain(heap, x.id, y.id, p, o, aStack, bStack);
    case _ =>
  }

  /** The end of a chain that closes a loop: the stack search finds the partner the loop returns to. */
  lemma FoundOnTrail(heap: Heap, a: Value, b: Value, q: seq<Label>, i: int)
    requires Closed(heap) && ClosesLoop(heap, a, b, q, i) && ClosesAt(heap, b, q, i)
    requires |Trail(heap, a, q)| == |Trail(heap, b, q)|
    ensures var x, y := Walk(heap, a, q).value, Walk(heap, b, q).value;
            && x.Ref? && y.Ref? && x.id in Trail(heap, a, q)
            && Paired(Trail(heap, a, q), Trail(heap, b, q), x.id) == Some(y.id)
  {
    TrailAt(heap, a, q);
    TrailAt(heap, b, q);
    SimpleTrail(heap, a, b, q);
    PairedAt(Trail(heap, a, q), Trail(heap, b, q), i);
  }

  lemma SameFound(heap: Heap, r: set<(Id, Id)>, a: Id, b: Id, aStack: seq<Id>, bStack: seq<Id>)
    requires Closed(heap) && Matching(heap, r, a, b) && |aStack| == |bStack|
    requires a in aStack && Paired(aStack, bStack, a) == Some(b)
    ensures Same(heap, Ref(a), Ref(b), aStack, bStack)
  {
  }

  lemma {:induction false} LoopsReturnMeansSame(heap: Heap, a: Value, b: Value, r: set<(Id, Id)>, q: seq<Label>)
    requires Closed(heap) && Known(heap, a) && Known(heap, b) && LoopsReturn(heap, a, b) && AllAlike(heap, r, r)
    requires Simple(heap, a, b, q) && Related(r, Walk(heap, a, q).value, Walk(heap, b, q).value)
    ensures SameAt(heap, a, b, q)
    decreases heap.Keys - Elements(Trail(heap, a, q))
  {
    WalkIsKnown(heap, a, q);
    WalkIsKnown(heap, b, q);
    SimpleTrail(heap, a, b, q);
    var x, y := Walk(heap, a, q).value, Walk(heap, b, q).value;
    var aStack := Trail(heap, a, q);
    if x != y {
      assert Matching(heap, r, x.id, y.id);
      if x.id in aStack {
        var i :| 0 <= i < |aStack| && aStack[i] == x.id;
        TrailAt(heap, a, q);
        assert ClosesLoop(heap, a, b, q, i);
        FoundOnTrail(heap, a, b, q, i);
        SameFound(heap, r, x.id, y.id, aStack, Trail(heap, b, q));
      } else {
        Pushed(heap, aStack, x.id);
        forall l | Child(heap, x, l).Some? && Child(heap, y, l).Some?
          ensures SameNext(heap, a, b, q, l)
        {
          WalkOn(heap, a, q, l);
          WalkOn(heap, b, q, l);
          SimpleGoesOn(heap, a, b, q, l);
          ChildrenRelated(heap, r, x, y, l);
          LoopsReturnMeansSame(heap, a, b, r, q + [l]);
        }
        ChildrenAreSame(heap, a, b, q, r);
      }
    }
  }

  lemma ChildrenRelated(heap: Heap, r: set<(Id, Id)>, x: Value, y: Value, l: Label)
    requires x.Ref? && y.Ref? && Matching(heap, r, x.id, y.id)
    requires Child(heap, x, l).Some? && Child(heap, y, l).Some?
    ensures Related(r, Child(heap, x, l).value, Child(heap, y, l).value)
  {
  }

  /** isEqual on every finite graph, cycles included: true if and only if the graphs are congruent and every loop
      of the first returns to the same place in the second. */
  lemma EqualIffLoopsReturn(heap: Heap, a: Value, b: Value)
    requires Closed(heap) && Known(heap, a) && Known(heap, b)
    ensures Same(heap, a, b, [], []) <==> Congruent(heap, a, b) && LoopsReturn(heap, a, b)
  {
    if Same(heap, a, b, [], []) {
      EqualMeansCongruent(heap, a, b);
      EqualMeansLoopsReturn(heap, a, b);
    }
    if Congruent(heap, a, b) && LoopsReturn(heap, a, b) {
      var r :| AllAlike(heap, r, r) && Related(r, a, b);
      LoopsReturnMeansSame(heap, a, b, r, []);
    }
  }
}
