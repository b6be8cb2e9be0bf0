/** Underscore's deep comparison (public/bower_components/underscore/underscore.js, `eq`) on
    object graphs that may share and may be cyclic. */
module DeepEqual {
  import opened Basics

  type Id = nat

  datatype Value = Undefined | Null | Boolean(b: bool) | Number(n: real) | String(s: string) | Ref(id: Id)

  /** Objects by their class name; a plain object holds its own enumerable properties. */
  datatype Object =
    | ArrayObject(elems: seq<Value>)
    | PlainObject(props: map<string, Value>)
    | DateObject(ms: int)
    | RegExpObject(source: string, global: bool, multiline: bool, ignoreCase: bool)
    | FunctionObject

  type Heap = map<Id, Object>

  function Children(o: Object): set<Value> {
    match o
    case ArrayObject(elems) => set v | v in elems
    case PlainObject(props) => props.Values
    case _ => {}
  }

  predicate Known(heap: Heap, v: Value) {
    v.Ref? ==> v.id in heap
  }

  ghost predicate Closed(heap: Heap) {
    forall i, v :: i in heap && v in Children(heap[i]) ==> Known(heap, v)
  }

  /** The value of `a.constructor`: an own property of that name hides the inherited function. */
  function OwnConstructor(o: Object): Option<Value> {
    if o.PlainObject? && "constructor" in o.props then Some(o.props["constructor"]) else None
  }

  /** The stacks' linear search, from the top. */
  function Paired(aStack: seq<Id>, bStack: seq<Id>, a: Id): Option<Id>
    requires |aStack| == |bStack|
  {
    if aStack == [] then None
    else
      var top := |aStack| - 1;
      if aStack[top] == a then Some(bStack[top]) else Paired(aStack[..top], bStack[..top], a)
  }

  lemma {:induction false} PairedFinds(aStack: seq<Id>, bStack: seq<Id>, a: Id)
    requires |aStack| == |bStack|
    ensures a in aStack <==> Paired(aStack, bStack, a).Some?
    ensures a in aStack ==> (a, Paired(aStack, bStack, a).value) in Pairs(aStack, bStack)
  {
    if aStack != [] {
      var top := |aStack| - 1;
      assert aStack == aStack[..top] + [aStack[top]];
      PairedFinds(aStack[..top], bStack[..top], a);
      if a in aStack && aStack[top] != a {
        var i :| 0 <= i < top && (aStack[..top][i], bStack[..top][i]) == (a, Paired(aStack, bStack, a).value);
        assert (aStack[i], bStack[i]) == (a, Paired(aStack, bStack, a).value);
      }
    }
  }

  function Pairs(aStack: seq<Id>, bStack: seq<Id>): set<(Id, Id)>
    requires |aStack| == |bStack|
  {
    set i | 0 <= i < |aStack| :: (aStack[i], bStack[i])
  }

  /** The measure of the recursion: objects not yet on the path. */
  lemma Pushed(heap: Heap, aStack: seq<Id>, a: Id)
    requires a in heap && a !in aStack
    ensures heap.Keys - Elements(aStack + [a]) < heap.Keys - Elements(aStack)
  {
    assert a in Elements(aStack + [a]);
    assert a in heap.Keys - Elements(aStack);
  }

  /** What `eq` decides, given the objects on the current path. */
  ghost predicate Same(heap: Heap, a: Value, b: Value, aStack: seq<Id>, bStack: seq<Id>)
    requires Closed(heap) && Known(heap, a) && Known(heap, b) && |aStack| == |bStack|
    decreases heap.Keys - Elements(aStack), 1
  {
    a == b || (a.Ref? && b.Ref? && SameObjects(heap, a.id, b.id, aStack, bStack))
  }

  ghost predicate SameObjects(heap: Heap, a: Id, b: Id, aStack: seq<Id>, bStack: seq<Id>)
    requires Closed(heap) && a in heap && b in heap && |aStack| == |bStack|
    decreases heap.Keys - Elements(aStack), 0
  {
    match (heap[a], heap[b])
    case (DateObject(x), DateObject(y)) => x == y
    case (RegExpObject(_, _, _, _), RegExpObject(_, _, _, _)) => heap[a] == heap[b]
    case (ArrayObject(xs), ArrayObject(ys)) =>
      if a in aStack then Paired(aStack, bStack, a) == Some(b)
      else
        Pushed(heap, aStack, a);
        && |xs| == |ys|
        && forall i :: 0 <= i < |xs| ==> Same(heap, xs[i], ys[i], aStack + [a], bStack + [b])
    case (PlainObject(p), PlainObject(q)) =>
      if a in aStack then Paired(aStack, bStack, a) == Some(b)
      else
        Pushed(heap, aStack, a);
        && OwnConstructor(heap[a]) == OwnConstructor(heap[b])
        && p.Keys == q.Keys
        && forall k :: k in p ==> Same(heap, p[k], q[k], aStack + [a], bStack + [b])
    case _ => false
  }

  // ----------------------------------------------------------- the algorithm

  class Comparison {
    const heap: Heap
    var aStack: seq<Id>
    var bStack: seq<Id>

    constructor (heap: Heap)
      ensures this.heap == heap && aStack == [] && bStack == []
    {
      this.heap, aStack, bStack := heap, [], [];
    }

    ghost predicate Ready()
      reads this
    {
      Closed(heap) && |aStack| == |bStack|
    }

    /** Terminates on every finite graph, cycles included, and leaves both stacks as it found them. */
    method Eq(a: Value, b: Value) returns (result: bool)
      requires Ready() && Known(heap, a) && Known(heap, b)
      modifies this
      ensures aStack == old(aStack) && bStack == old(bStack)
      ensures result == Same(heap, a, b, aStack, bStack)
      decreases heap.Keys - Elements(aStack), 2
    {
      if a == b {
        return true;
      }
      if a in {Undefined, Null} || b in {Undefined, Null} {
        return false;
      }
      if !a.Ref? || !b.Ref? {
        return false;
      }
      match (heap[a.id], heap[b.id])
      case (DateObject(x), DateObject(y)) =>
        return x == y;
      case (RegExpObject(_, _, _, _), RegExpObject(_, _, _, _)) =>
        return heap[a.id] == heap[b.id];
      case (ArrayObject(xs), ArrayObject(ys)) =>
        var found := SearchStack(a.id);
        if found.Some? {
          return found.value == b.id;
        }
        result := EqArrays(a.id, b.id, xs, ys);
      case (PlainObject(p), PlainObject(q)) =>
        var found := SearchStack(a.id);
        if found.Some? {
          return found.value == b.id;
        }
        if OwnConstructor(heap[a.id]) != OwnConstructor(heap[b.id]) {
          return false;
        }
        result := EqProperties(a.id, b.id, p, q);
      case _ =>
        return false;
    }

    /** The loop over aStack, from its last entry down. */
    method SearchStack(a: Id) returns (found: Option<Id>)
      requires |aStack| == |bStack|
      ensures found == Paired(aStack, bStack, a)
      ensures found.Some? <==> a in aStack
    {
      PairedFinds(aStack, bStack, a);
      var length: nat := |aStack|;
      assert aStack[..length] == aStack && bStack[..length] == bStack;
      while length > 0
        invariant length <= |aStack|
        invariant Paired(aStack, bStack, a) == Paired(aStack[..length], bStack[..length], a)
      {
        length := length - 1;
        assert aStack[..length + 1][..length] == aStack[..length];
        assert bStack[..length + 1][..length] == bStack[..length];
        if aStack[length] == a {
          return Some(bStack[length]);
        }
      }
      return None;
    }

    method EqArrays(a: Id, b: Id, xs: seq<Value>, ys: seq<Value>) returns (result: bool)
      requires Ready() && a in heap && b in heap && a !in aStack
      requires heap[a] == ArrayObject(xs) && heap[b] == ArrayObject(ys)
      modifies this
      ensures aStack == old(aStack) && bStack == old(bStack)
      ensures result == SameObjects(heap, a, b, aStack, bStack)
      decreases heap.Keys - Elements(aStack), 1
    {
      Pushed(heap, aStack, a);
      ghost var as0, bs0 := aStack, bStack;
      aStack, bStack := aStack + [a], bStack + [b];
      var size := |xs|;
      result := size == |ys|;
      if result {
        while size > 0 && result
          invariant 0 <= size <= |xs| == |ys|
          invariant aStack == as0 + [a] && bStack == bs0 + [b]
          invariant result ==> forall i :: size <= i < |xs| ==> Same(heap, xs[i], ys[i], as0 + [a], bs0 + [b])
          invariant !result ==> exists i :: 0 <= i < |xs| && !Same(heap, xs[i], ys[i], as0 + [a], bs0 + [b])
          decreases size
        {
          size := size - 1;
          result := Eq(xs[size], ys[size]);
        }
      }
      aStack, bStack := aStack[..|aStack| - 1], bStack[..|bStack| - 1];
    }

    /** The properties of `a` are compared first; the rest of the count then has to come out at zero. */
    method EqProperties(a: Id, b: Id, p: map<string, Value>, q: map<string, Value>) returns (result: bool)
      requires Ready() && a in heap && b in heap && a !in aStack
      requires heap[a] == PlainObject(p) && heap[b] == PlainObject(q)
      requires OwnConstructor(heap[a]) == OwnConstructor(heap[b])
      modifies this
      ensures aStack == old(aStack) && bStack == old(bStack)
      ensures result == SameObjects(heap, a, b, aStack, bStack)
      decreases heap.Keys - Elements(aStack), 1
    {
      Pushed(heap, aStack, a);
      aStack, bStack := aStack + [a], bStack + [b];
      var size;
      result, size := EqEach(p, q);
      if result {
        result := CountMatches(size, p.Keys, q.Keys);
      }
      aStack, bStack := aStack[..|aStack| - 1], bStack[..|bStack| - 1];
    }

    method EqEach(p: map<string, Value>, q: map<string, Value>) returns (result: bool, size: int)
      requires Ready()
      requires forall v :: v in p.Values || v in q.Values ==> Known(heap, v)
      modifies this
      ensures aStack == old(aStack) && bStack == old(bStack)
      ensures result <==> forall k :: k in p ==> k in q && Same(heap, p[k], q[k], aStack, bStack)
      ensures result ==> size == |p|
      decreases heap.Keys - Elements(aStack), 3
    {
      size, result := 0, true;
      var todo := p.Keys;
      while todo != {} && result
        invariant todo <= p.Keys && size == |p.Keys - todo|
        invariant aStack == old(aStack) && bStack == old(bStack)
        invariant result ==> forall k :: k in p && k !in todo ==> k in q && Same(heap, p[k], q[k], aStack, bStack)
        invariant !result ==> exists k :: k in p && (k !in q || !Same(heap, p[k], q[k], aStack, bStack))
        decreases todo
      {
        var key :| key in todo;
        assert p.Keys - (todo - {key}) == (p.Keys - todo) + {key};
        todo := todo - {key};
        size := size + 1;
        result := key in q;
        if result {
          result := Eq(p[key], q[key]);
        }
      }
      if result {
        assert p.Keys - todo == p.Keys;
      }
    }

    /** The key-count trick: counting down over the other object's keys, stopping one past zero. */
    method CountMatches(count: int, ps: set<string>, qs: set<string>) returns (result: bool)
      requires count == |ps| && ps <= qs
      ensures result <==> ps == qs
    {
      var size := count;
      var todo := qs;
      while todo != {}
        invariant todo <= qs && size >= 0 && size == |ps| - (|qs| - |todo|)
        decreases todo
      {
        var key :| key in todo;
        todo := todo - {key};
        size := size - 1;
        if size == -1 {
          break;
        }
      }
      result := size == 0;
      SubsetSize(ps, qs);
    }
  }

  lemma SubsetSize(ps: set<string>, qs: set<string>)
    requires ps <= qs
    ensures |ps| <= |qs| && (|ps| == |qs| <==> ps == qs)
  {
    assert qs == ps + (qs - ps);
  }
}
