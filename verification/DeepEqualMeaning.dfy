/** What a verdict of the deep comparison means: bisimilar graphs whenever it is true, equal trees
    exactly when it is true of acyclic values, and where it falls short of that. */
module DeepEqualMeaning {
  import opened Basics
  import opened DeepEqual

  // ------------------------------------------------------------ bisimilarity

  ghost predicate Related(r: set<(Id, Id)>, x: Value, y: Value) {
    x == y || (x.Ref? && y.Ref? && (x.id, y.id) in r)
  }

  /** The two objects look alike, and their children are related. */
  ghost predicate Matching(heap: Heap, r: set<(Id, Id)>, a: Id, b: Id) {
    && a in heap && b in heap
    && match (heap[a], heap[b])
       case (DateObject(x), DateObject(y)) => x == y
       case (RegExpObject(_, _, _, _), RegExpObject(_, _, _, _)) => heap[a] == heap[b]
       case (ArrayObject(xs), ArrayObject(ys)) =>
         |xs| == |ys| && forall i :: 0 <= i < |xs| ==> Related(r, xs[i], ys[i])
       case (PlainObject(p), PlainObject(q)) =>
         p.Keys == q.Keys && forall k :: k in p ==> Related(r, p[k], q[k])
       case _ => false
  }

  ghost predicate AllMatch(heap: Heap, s: set<(Id, Id)>, r: set<(Id, Id)>) {
    forall a, b :: (a, b) in s ==> Matching(heap, r, a, b)
  }

  ghost predicate Bisimilar(heap: Heap, a: Value, b: Value) {
    exists r :: AllMatch(heap, r, r) && Related(r, a, b)
  }

  /** The pairs match, and their objects agree on an own property named "constructor". */
  ghost predicate AllAlike(heap: Heap, s: set<(Id, Id)>, r: set<(Id, Id)>) {
    forall a, b :: (a, b) in s ==> Matching(heap, r, a, b) && OwnConstructor(heap[a]) == OwnConstructor(heap[b])
  }

  ghost predicate Congruent(heap: Heap, a: Value, b: Value) {
    exists r :: AllAlike(heap, r, r) && Related(r, a, b)
  }

  lemma AlikeGrows(heap: Heap, s: set<(Id, Id)>, r: set<(Id, Id)>, more: set<(Id, Id)>)
    requires AllAlike(heap, s, r) && r <= more
    ensures AllAlike(heap, s, more)
  {
    forall a, b | (a, b) in s
      ensures Matching(heap, more, a, b) && OwnConstructor(heap[a]) == OwnConstructor(heap[b])
    {
      assert Matching(heap, r, a, b);
    }
  }

  lemma PushedPair(aStack: seq<Id>, bStack: seq<Id>, a: Id, b: Id)
    requires |aStack| == |bStack|
    ensures Pairs(aStack + [a], bStack + [b]) == Pairs(aStack, bStack) + {(a, b)}
  {
    forall p | p in Pairs(aStack, bStack)
      ensures p in Pairs(aStack + [a], bStack + [b])
    {
      var i :| 0 <= i < |aStack| && p == (aStack[i], bStack[i]);
      assert p == ((aStack + [a])[i], (bStack + [b])[i]);
    }
    var top := |aStack|;
    assert (a, b) == ((aStack + [a])[top], (bStack + [b])[top]);
  }

  /** Collects the pairs a successful comparison visits: they match one another, given the pairs on the path. */
  lemma {:induction false} Explore(heap: Heap, a: Value, b: Value, aStack: seq<Id>, bStack: seq<Id>)
    returns (s: set<(Id, Id)>)
    requires Closed(heap) && Known(heap, a) && Known(heap, b) && |aStack| == |bStack|
    requires Same(heap, a, b, aStack, bStack)
    ensures Related(s + Pairs(aStack, bStack), a, b)
    ensures AllAlike(heap, s, s + Pairs(aStack, bStack))
    decreases heap.Keys - Elements(aStack), 1
  {
    s := {};
    if a != b {
      var i, j := a.id, b.id;
      PairedFinds(aStack, bStack, i);
      match (heap[i], heap[j])
      case (ArrayObject(xs), ArrayObject(ys)) =>
        if i !in aStack {
          Pushed(heap, aStack, i);
          s := ExploreAll(heap, xs, ys, aStack + [i], bStack + [j]);
          PushedPair(aStack, bStack, i, j);
          s := s + {(i, j)};
        }
      case (PlainObject(p), PlainObject(q)) =>
        if i !in aStack {
          Pushed(heap, aStack, i);
          s := ExploreProperties(heap, p, q, aStack + [i], bStack + [j]);
          PushedPair(aStack, bStack, i, j);
          s := s + {(i, j)};
        }
      case _ =>
        s := {(i, j)};
    }
  }

  lemma ExploreAll(heap: Heap, xs: seq<Value>, ys: seq<Value>, aStack: seq<Id>, bStack: seq<Id>)
    returns (s: set<(Id, Id)>)
    requires Closed(heap) && |aStack| == |bStack| && |xs| == |ys|
    requires forall i :: 0 <= i < |xs| ==> Known(heap, xs[i]) && Known(heap, ys[i])
    requires forall i :: 0 <= i < |xs| ==> Same(heap, xs[i], ys[i], aStack, bStack)
    ensures forall i :: 0 <= i < |xs| ==> Related(s + Pairs(aStack, bStack), xs[i], ys[i])
    ensures AllAlike(heap, s, s + Pairs(aStack, bStack))
    decreases heap.Keys - Elements(aStack), 2
  {
    s := {};
    var path := Pairs(aStack, bStack);
    for n := 0 to |xs|
      invariant forall i :: 0 <= i < n ==> Related(s + path, xs[i], ys[i])
      invariant AllAlike(heap, s, s + path)
    {
      var t := Explore(heap, xs[n], ys[n], aStack, bStack);
      AlikeGrows(heap, s, s + path, s + t + path);
      AlikeGrows(heap, t, t + path, s + t + path);
      s := s + t;
    }
  }

  lemma ExploreProperties(heap: Heap, p: map<string, Value>, q: map<string, Value>, aStack: seq<Id>, bStack: seq<Id>)
    returns (s: set<(Id, Id)>)
    requires Closed(heap) && |aStack| == |bStack| && p.Keys == q.Keys
    requires forall k :: k in p ==> Known(heap, p[k]) && Known(heap, q[k])
    requires forall k :: k in p ==> Same(heap, p[k], q[k], aStack, bStack)
    ensures forall k :: k in p ==> Related(s + Pairs(aStack, bStack), p[k], q[k])
    ensures AllAlike(heap, s, s + Pairs(aStack, bStack))
    decreases heap.Keys - Elements(aStack), 2
  {
    s := {};
    var path := Pairs(aStack, bStack);
    var todo := p.Keys;
    while todo != {}
      invariant todo <= p.Keys
      invariant forall k :: k in p && k !in todo ==> Related(s + path, p[k], q[k])
      invariant AllAlike(heap, s, s + path)
      decreases todo
    {
      var k :| k in todo;
      var t := Explore(heap, p[k], q[k], aStack, bStack);
      AlikeGrows(heap, s, s + path, s + t + path);
      AlikeGrows(heap, t, t + path, s + t + path);
      s := s + t;
      todo := todo - {k};
    }
  }

  /** isEqual answers true only of graphs that no chain of property accesses can tell apart, and that agree on
      own constructors wherever they differ in identity. */
  lemma EqualMeansCongruent(heap: Heap, a: Value, b: Value)
    requires Closed(heap) && Known(heap, a) && Known(heap, b)
    requires Same(heap, a, b, [], [])
    ensures Congruent(heap, a, b)
  {
    var s := Explore(heap, a, b, [], []);
    assert s + Pairs([], []) == s;
  }

  lemma EqualMeansBisimilar(heap: Heap, a: Value, b: Value)
    requires Closed(heap) && Known(heap, a) && Known(heap, b)
    requires Same(heap, a, b, [], [])
    ensures Bisimilar(heap, a, b)
  {
    EqualMeansCongruent(heap, a, b);
    var r :| AllAlike(heap, r, r) && Related(r, a, b);
    assert AllMatch(heap, r, r);
  }

  // ----------------------------------------------------- acyclic values are trees

  datatype Tree =
    | Leaf(v: Value)
    | DateTree(ms: int)
    | RegExpTree(source: string, global: bool, multiline: bool, ignoreCase: bool)
    | FunctionTree(id: Id)
    | ArrayTree(items: seq<Tree>)
    | ObjectTree(props: map<string, Tree>)

  /** The objects in `rank` hold only lower-ranked objects: from them, no path ever returns. */
  ghost predicate Ranked(heap: Heap, rank: map<Id, nat>) {
    forall i :: i in rank ==> i in heap && forall v :: v in Children(heap[i]) ==> Under(rank, v, rank[i])
  }

  ghost predicate Under(rank: map<Id, nat>, v: Value, bound: nat) {
    v.Ref? ==> v.id in rank && rank[v.id] < bound
  }

  ghost predicate Acyclic(heap: Heap, rank: map<Id, nat>, v: Value) {
    Ranked(heap, rank) && (v.Ref? ==> v.id in rank)
  }

  ghost function Unfold(heap: Heap, rank: map<Id, nat>, v: Value): Tree
    requires Acyclic(heap, rank, v)
    decreases if v.Ref? then 1 + rank[v.id] else 0
  {
    if !v.Ref? then Leaf(v)
    else
      match heap[v.id]
      case DateObject(ms) => DateTree(ms)
      case RegExpObject(source, g, m, i) => RegExpTree(source, g, m, i)
      case FunctionObject => FunctionTree(v.id)
      case ArrayObject(xs) =>
        assert forall i :: 0 <= i < |xs| ==> xs[i] in Children(heap[v.id]) && Under(rank, xs[i], rank[v.id]);
        ArrayTree(seq(|xs|, i requires 0 <= i < |xs| => Unfold(heap, rank, xs[i])))
      case PlainObject(p) =>
        assert forall k :: k in p ==> p[k] in Children(heap[v.id]) && Under(rank, p[k], rank[v.id]);
        ObjectTree(map k | k in p :: Unfold(heap, rank, p[k]))
  }

  /** Wherever the two values both hold plain objects, these agree on an own property named "constructor". */
  ghost predicate ConstructorsAgree(heap: Heap, rank: map<Id, nat>, a: Value, b: Value)
    requires Acyclic(heap, rank, a) && Acyclic(heap, rank, b)
    decreases if a.Ref? then 1 + rank[a.id] else 0
  {
    a == b || !a.Ref? || !b.Ref? ||
    match (heap[a.id], heap[b.id])
    case (ArrayObject(xs), ArrayObject(ys)) =>
      assert forall i :: 0 <= i < |xs| ==> xs[i] in Children(heap[a.id]) && Under(rank, xs[i], rank[a.id]);
      assert forall i :: 0 <= i < |ys| ==> ys[i] in Children(heap[b.id]) && Under(rank, ys[i], rank[b.id]);
      forall i :: 0 <= i < |xs| && i < |ys| ==> ConstructorsAgree(heap, rank, xs[i], ys[i])
    case (PlainObject(p), PlainObject(q)) =>
      assert forall k :: k in p ==> p[k] in Children(heap[a.id]) && Under(rank, p[k], rank[a.id]);
      assert forall k :: k in q ==> q[k] in Children(heap[b.id]) && Under(rank, q[k], rank[b.id]);
      && OwnConstructor(heap[a.id]) == OwnConstructor(heap[b.id])
      && forall k :: k in p && k in q ==> ConstructorsAgree(heap, rank, p[k], q[k])
    case _ => true
  }

  ghost predicate Above(rank: map<Id, nat>, aStack: seq<Id>, v: Value) {
    forall s :: s in aStack && v.Ref? ==> s in rank && v.id in rank && rank[s] > rank[v.id]
  }

  ghost predicate SameTree(heap: Heap, rank: map<Id, nat>, x: Value, y: Value) {
    && Acyclic(heap, rank, x) && Acyclic(heap, rank, y)
    && Unfold(heap, rank, x) == Unfold(heap, rank, y)
  }

  ghost predicate Decides(heap: Heap, rank: map<Id, nat>, a: Value, b: Value, aStack: seq<Id>, bStack: seq<Id>) {
    && Closed(heap) && Acyclic(heap, rank, a) && Acyclic(heap, rank, b) && |aStack| == |bStack|
    && (Same(heap, a, b, aStack, bStack) <==>
        SameTree(heap, rank, a, b) && ConstructorsAgree(heap, rank, a, b))
  }

  /** On acyclic values the comparison decides equality of the trees, given agreeing constructors. */
  lemma {:induction false} DecidesTreeEquality(heap: Heap, rank: map<Id, nat>, a: Value, b: Value,
                                               aStack: seq<Id>, bStack: seq<Id>)
    requires Closed(heap) && Acyclic(heap, rank, a) && Acyclic(heap, rank, b)
    requires |aStack| == |bStack| && Above(rank, aStack, a)
    ensures Decides(heap, rank, a, b, aStack, bStack)
    decreases if a.Ref? then 1 + rank[a.id] else 0
  {
    if a != b && a.Ref? && b.Ref? {
      match (heap[a.id], heap[b.id])
      case (ArrayObject(xs), ArrayObject(ys)) =>
        ItemsEqual(heap, rank, a.id, b.id, xs, ys);
        if |xs| == |ys| {
          forall i | 0 <= i < |xs|
            ensures Decides(heap, rank, xs[i], ys[i], aStack + [a.id], bStack + [b.id])
          {
            assert xs[i] in Children(heap[a.id]) && ys[i] in Children(heap[b.id]);
            DecidesTreeEquality(heap, rank, xs[i], ys[i], aStack + [a.id], bStack + [b.id]);
          }
        }
      case (PlainObject(p), PlainObject(q)) =>
        PropertiesEqual(heap, rank, a.id, b.id, p, q);
        if p.Keys == q.Keys {
          forall k | k in p
            ensures Decides(heap, rank, p[k], q[k], aStack + [a.id], bStack + [b.id])
          {
            assert p[k] in Children(heap[a.id]) && q[k] in Children(heap[b.id]);
            DecidesTreeEquality(heap, rank, p[k], q[k], aStack + [a.id], bStack + [b.id]);
          }
        }
      case _ =>
    }
  }

  lemma ItemsEqual(heap: Heap, rank: map<Id, nat>, a: Id, b: Id, xs: seq<Value>, ys: seq<Value>)
    requires Ranked(heap, rank) && a in rank && b in rank
    requires heap[a] == ArrayObject(xs) && heap[b] == ArrayObject(ys)
    ensures SameTree(heap, rank, Ref(a), Ref(b)) <==>
            |xs| == |ys| && forall i :: 0 <= i < |xs| ==> SameTree(heap, rank, xs[i], ys[i])
  {
    var s, t := Unfold(heap, rank, Ref(a)).items, Unfold(heap, rank, Ref(b)).items;
    assert |s| == |xs| && |t| == |ys|;
    assert forall i :: 0 <= i < |xs| ==> xs[i] in Children(heap[a]) && s[i] == Unfold(heap, rank, xs[i]);
    assert forall i :: 0 <= i < |ys| ==> ys[i] in Children(heap[b]) && t[i] == Unfold(heap, rank, ys[i]);
    assert s == t <==> |xs| == |ys| && forall i :: 0 <= i < |xs| ==> s[i] == t[i];
  }

  lemma PropertiesEqual(heap: Heap, rank: map<Id, nat>, a: Id, b: Id, p: map<string, Value>, q: map<string, Value>)
    requires Ranked(heap, rank) && a in rank && b in rank
    requires heap[a] == PlainObject(p) && heap[b] == PlainObject(q)
    ensures SameTree(heap, rank, Ref(a), Ref(b)) <==>
            p.Keys == q.Keys && forall k :: k in p ==> SameTree(heap, rank, p[k], q[k])
  {
    var s := UnfoldedProperties(heap, rank, a, p);
    var t := UnfoldedProperties(heap, rank, b, q);
    MapsEqual(s, t);
  }

  lemma UnfoldedProperties(heap: Heap, rank: map<Id, nat>, a: Id, p: map<string, Value>) returns (s: map<string, Tree>)
    requires Ranked(heap, rank) && a in rank && heap[a] == PlainObject(p)
    ensures s.Keys == p.Keys && Unfold(heap, rank, Ref(a)) == ObjectTree(s)
    ensures forall k :: k in p ==> Acyclic(heap, rank, p[k]) && s[k] == Unfold(heap, rank, p[k])
  {
    s := Unfold(heap, rank, Ref(a)).props;
    assert forall k :: k in p ==> p[k] in Children(heap[a]);
  }

  lemma MapsEqual(s: map<string, Tree>, t: map<string, Tree>)
    ensures s == t <==> s.Keys == t.Keys && forall k :: k in s && k in t ==> s[k] == t[k]
  {
  }

  ghost predicate NoOwnConstructor(heap: Heap, rank: map<Id, nat>) {
    forall i :: i in rank && i in heap ==> OwnConstructor(heap[i]) == None
  }

  lemma {:induction false} NoOwnConstructorAgrees(heap: Heap, rank: map<Id, nat>, a: Value, b: Value)
    requires Acyclic(heap, rank, a) && Acyclic(heap, rank, b) && NoOwnConstructor(heap, rank)
    ensures ConstructorsAgree(heap, rank, a, b)
    decreases if a.Ref? then 1 + rank[a.id] else 0
  {
    if a != b && a.Ref? && b.Ref? {
      match (heap[a.id], heap[b.id])
      case (ArrayObject(xs), ArrayObject(ys)) =>
        forall i | 0 <= i < |xs| && i < |ys|
          ensures Acyclic(heap, rank, xs[i]) && Acyclic(heap, rank, ys[i]) && ConstructorsAgree(heap, rank, xs[i], ys[i])
        {
          assert xs[i] in Children(heap[a.id]) && ys[i] in Children(heap[b.id]);
          NoOwnConstructorAgrees(heap, rank, xs[i], ys[i]);
        }
      case (PlainObject(p), PlainObject(q)) =>
        forall k | k in p && k in q
          ensures Acyclic(heap, rank, p[k]) && Acyclic(heap, rank, q[k]) && ConstructorsAgree(heap, rank, p[k], q[k])
        {
          assert p[k] in Children(heap[a.id]) && q[k] in Children(heap[b.id]);
          NoOwnConstructorAgrees(heap, rank, p[k], q[k]);
        }
      case _ =>
    }
  }

  /** isEqual on acyclic values without own "constructor" properties is exactly structural equality. */
  lemma EqualIsStructural(heap: Heap, rank: map<Id, nat>, a: Value, b: Value)
    requires Closed(heap) && Acyclic(heap, rank, a) && Acyclic(heap, rank, b) && NoOwnConstructor(heap, rank)
    ensures Same(heap, a, b, [], []) <==> Unfold(heap, rank, a) == Unfold(heap, rank, b)
  {
    DecidesTreeEquality(heap, rank, a, b, [], []);
    NoOwnConstructorAgrees(heap, rank, a, b);
  }

  // ------------------------------------------------------- where it falls short

  /** Two structurally equal objects whose own "constructor" properties are distinct empty objects are told apart. */
  lemma OwnConstructorTellsApart()
    ensures var heap := map[0 := PlainObject(map["constructor" := Ref(2)]), 1 := PlainObject(map["constructor" := Ref(3)]),
                            2 := PlainObject(map[]), 3 := PlainObject(map[])];
            var rank := map[0 := 1, 1 := 1, 2 := 0, 3 := 0];
            && Closed(heap) && Ranked(heap, rank)
            && Unfold(heap, rank, Ref(0)) == Unfold(heap, rank, Ref(1))
            && !Same(heap, Ref(0), Ref(1), [], [])
  {
    var heap := map[0 := PlainObject(map["constructor" := Ref(2)]), 1 := PlainObject(map["constructor" := Ref(3)]),
                    2 := PlainObject(map[]), 3 := PlainObject(map[])];
    var rank: map<Id, nat> := map[0 := 1, 1 := 1, 2 := 0, 3 := 0];
    assert Closed(heap) && Ranked(heap, rank);
    PropertiesEqual(heap, rank, 2, 3, map[], map[]);
    PropertiesEqual(heap, rank, 0, 1, map["constructor" := Ref(2)], map["constructor" := Ref(3)]);
  }

  /** Object 0 is a loop of length one; objects 1 and 2 form a loop of length two. */
  function TwoLoops(): Heap {
    map[0 := PlainObject(map["x" := Ref(0)]), 1 := PlainObject(map["x" := Ref(2)]), 2 := PlainObject(map["x" := Ref(1)])]
  }

  lemma LongLoopEqualsShort()
    ensures Closed(TwoLoops()) && Same(TwoLoops(), Ref(1), Ref(0), [], [])
  {
    var heap := TwoLoops();
    assert heap[0].props["x"] == Ref(0) && heap[1].props["x"] == Ref(2);
    PairedFinds([] + [1] + [2], [] + [0] + [0], 1);
    assert Same(heap, Ref(1), Ref(0), [] + [1] + [2], [] + [0] + [0]);
    assert Same(heap, Ref(2), Ref(0), [] + [1], [] + [0]);
  }

  lemma LoopsAreBisimilar()
    ensures Bisimilar(TwoLoops(), Ref(0), Ref(1))
  {
    assert AllMatch(TwoLoops(), {(0, 1), (0, 2)}, {(0, 1), (0, 2)});
  }

  /** On cyclic graphs the verdict is neither complete for bisimilarity nor symmetric: a one-object cycle
      against a two-object cycle is refused from one side and accepted from the other. */
  lemma CyclesAreOneSided()
    ensures Closed(TwoLoops()) && Bisimilar(TwoLoops(), Ref(0), Ref(1))
    ensures !Same(TwoLoops(), Ref(0), Ref(1), [], []) && Same(TwoLoops(), Ref(1), Ref(0), [], [])
  {
    LongLoopEqualsShort();
    LoopsAreBisimilar();
    var heap := TwoLoops();
    assert heap[0].props["x"] == Ref(0) && heap[1].props["x"] == Ref(2);
    assert !Same(heap, Ref(0), Ref(2), [] + [0], [] + [1]) by { PairedFinds([0], [1], 0); }
  }
}
