// The cache in front of "can an element of this object be found anywhere but in its own dense elements?".
// A row pins two prototypes' shapes; their dense lengths are not part of a shape and are read again on every hit.
module NoExtraIndexed {
  import opened Wrappers

  /** A machine address; 0 is null. */
  type Addr = nat

  const ROWS: nat := 16

  /** What a shape fixes: a native class, whether its class hooks or its indexed flag allow indexed properties
      outside the dense elements, and the prototype. */
  datatype Shape = Shape(native: bool, extra: bool, proto: Addr)

  datatype Object = Object(shape: Addr, denseLength: nat)

  datatype Heap = Heap(shapes: map<Addr, Shape>, objects: map<Addr, Object>)

  ghost predicate Linked(h: Heap) {
    && 0 !in h.objects
    && (forall o :: o in h.objects ==> h.objects[o].shape in h.shapes)
    && (forall s :: s in h.shapes ==> h.shapes[s].proto == 0 || h.shapes[s].proto in h.objects)
  }

  function ShapeOf(h: Heap, o: Addr): Shape
    requires Linked(h) && o in h.objects
  {
    h.shapes[h.objects[o].shape]
  }

  ghost predicate Ranked(h: Heap, rank: map<Addr, nat>)
    requires Linked(h)
  {
    forall o :: o in h.objects ==>
      o in rank && (ShapeOf(h, o).proto in rank ==> rank[ShapeOf(h, o).proto] < rank[o])
  }

  ghost predicate WellFormed(h: Heap) {
    Linked(h) && exists rank :: Ranked(h, rank)
  }

  // ---- the plain question ----------------------------------------------------------------------

  /** The `k`-th object up the chain, `o` itself first; null past the end. */
  function Above(h: Heap, o: Addr, k: nat): (r: Addr)
    requires Linked(h) && o in h.objects
    ensures r == 0 || r in h.objects
  {
    if k == 0 then o
    else
      var p := Above(h, o, k - 1);
      if p == 0 then 0 else ShapeOf(h, p).proto
  }

  predicate CleanShape(s: Shape) {
    s.native && !s.extra
  }

  /** Nothing indexed at this prototype: a clean shape and no dense elements. */
  predicate CleanLevel(h: Heap, p: Addr)
    requires Linked(h)
  {
    p == 0 || (p in h.objects && CleanShape(ShapeOf(h, p)) && h.objects[p].denseLength == 0)
  }

  /** No indexed property outside the object's own dense elements, at any depth. */
  ghost predicate NoExtra(h: Heap, o: Addr)
    requires Linked(h) && o in h.objects
  {
    CleanShape(ShapeOf(h, o)) && forall k: nat :: k > 0 ==> CleanLevel(h, Above(h, o, k))
  }

  /** In the words of the object and its shape: a native class, nothing indexed by hook or flag, no dense elements. */
  predicate NothingIndexed(h: Heap, p: Addr)
    requires Linked(h) && p in h.objects
  {
    h.objects[p].denseLength == 0 && h.shapes[h.objects[p].shape].native && !h.shapes[h.objects[p].shape].extra
  }

  /** The answer yes, level by level. */
  ghost predicate NothingAbove(h: Heap, o: Addr)
    requires Linked(h) && o in h.objects
  {
    && h.shapes[h.objects[o].shape].native && !h.shapes[h.objects[o].shape].extra
    && forall k: nat :: k > 0 && Above(h, o, k) != 0 ==> NothingIndexed(h, Above(h, o, k))
  }

  lemma NoExtraIs(h: Heap, o: Addr)
    requires Linked(h) && o in h.objects
    ensures NoExtra(h, o) <==> NothingAbove(h, o)
  {
    if NoExtra(h, o) {
      forall k: nat | k > 0 && Above(h, o, k) != 0 ensures NothingIndexed(h, Above(h, o, k)) {
        assert CleanLevel(h, Above(h, o, k));
      }
    }
    if NothingAbove(h, o) {
      forall k: nat | k > 0 ensures CleanLevel(h, Above(h, o, k)) {
        assert Above(h, o, k) != 0 ==> NothingIndexed(h, Above(h, o, k));
      }
    }
  }

  lemma {:induction false} PastTheEnd(h: Heap, o: Addr, k: nat, n: nat)
    requires Linked(h) && o in h.objects && Above(h, o, k) == 0 && k <= n
    ensures Above(h, o, n) == 0
    decreases n - k
  {
    if k < n {
      assert Above(h, o, k + 1) == 0;
      PastTheEnd(h, o, k + 1, n);
    }
  }

  /** A chain that ends within two links and is clean there is clean. */
  lemma ShortChain(h: Heap, o: Addr)
    requires Linked(h) && o in h.objects && CleanShape(ShapeOf(h, o))
    requires CleanLevel(h, Above(h, o, 1)) && CleanLevel(h, Above(h, o, 2)) && Above(h, o, 3) == 0
    ensures NoExtra(h, o)
  {
    forall k: nat | k > 0 ensures CleanLevel(h, Above(h, o, k)) {
      if k >= 3 {
        PastTheEnd(h, o, 3, k);
      }
    }
  }

  /** The walk the cache saves. */
  method PrototypeMayHaveIndexed(h: Heap, o: Addr) returns (r: bool)
    requires WellFormed(h) && o in h.objects
    ensures r <==> exists k: nat :: k > 0 && !CleanLevel(h, Above(h, o, k))
  {
    ghost var rank :| Ranked(h, rank);
    var p := o;
    ghost var k: nat := 0;
    while true
      invariant p in h.objects && p == Above(h, o, k)
      invariant forall j: nat :: 0 < j <= k ==> CleanLevel(h, Above(h, o, j))
      decreases rank[p]
    {
      ghost var below := p;
      p, k := ShapeOf(h, p).proto, k + 1;
      assert p == Above(h, o, k);
      if p == 0 {
        forall j: nat | j > 0 ensures CleanLevel(h, Above(h, o, j)) {
          if j > k {
            PastTheEnd(h, o, k, j);
          }
        }
        return false;
      }
      if !CleanShape(ShapeOf(h, p)) || h.objects[p].denseLength != 0 {
        assert !CleanLevel(h, Above(h, o, k));
        return true;
      }
    }
  }

  // ---- the cache -------------------------------------------------------------------------------

  /** What the rest of the engine may do to the heap within one generation: anything to objects - reshape them,
      grow their elements, collect the nursery and move them, reuse their addresses - but a shape's class, flags
      and whether it has a prototype never change, and no shape a row names is freed. */
  ghost predicate SameGeneration(h: Heap, h': Heap) {
    forall s :: s in h.shapes ==>
      && s in h'.shapes
      && h'.shapes[s].native == h.shapes[s].native
      && h'.shapes[s].extra == h.shapes[s].extra
      && (h'.shapes[s].proto == 0 <==> h.shapes[s].proto == 0)
  }

  /** A row's five words: prototype, its shape, the next prototype (or null), its shape, generation. */
  datatype Row = Row(p0: Addr, s0: Addr, p1: Addr, s1: Addr, gen: nat)

  /** What a row of the current generation guarantees. It is about shapes alone: the two addresses it also
      holds may be anyone's by now. */
  ghost predicate RowOk(h: Heap, row: Row, gen: nat) {
    row.p0 == 0 ||
    (row.gen <= gen &&
     (row.gen == gen ==>
        && row.s0 in h.shapes && CleanShape(h.shapes[row.s0])
        && (row.p1 == 0 || (row.s1 in h.shapes && CleanShape(h.shapes[row.s1]) && h.shapes[row.s1].proto == 0))))
  }

  /** The guards of a hit. */
  predicate Hits(h: Heap, o: Addr, row: Row, gen: nat)
    requires Linked(h) && o in h.objects
  {
    var p0 := ShapeOf(h, o).proto;
    && p0 != 0 && row.p0 == p0 && row.gen == gen
    && h.objects[p0].shape == row.s0 && h.objects[p0].denseLength == 0
    && ShapeOf(h, p0).proto == row.p1
    && (row.p1 == 0 || (h.objects[row.p1].shape == row.s1 && h.objects[row.p1].denseLength == 0))
  }

  /** A hit answers what the walk would. */
  lemma HitIsNoExtra(h: Heap, o: Addr, row: Row, gen: nat)
    requires Linked(h) && o in h.objects && CleanShape(ShapeOf(h, o))
    requires RowOk(h, row, gen) && Hits(h, o, row, gen)
    ensures NoExtra(h, o)
  {
    assert Above(h, o, 0) == o && Above(h, o, 1) == row.p0 && Above(h, o, 2) == row.p1 && Above(h, o, 3) == 0;
    ShortChain(h, o);
  }

  /** Whatever happens within the generation, the row's guarantee stands. */
  lemma RowSurvives(h: Heap, h': Heap, row: Row, gen: nat)
    requires RowOk(h, row, gen) && SameGeneration(h, h')
    ensures RowOk(h', row, gen)
  {
  }

  /** A row kept in mind longer than its generation is one nobody hits, in whatever heap. */
  lemma BumpRetires(h: Heap, h': Heap, row: Row, gen: nat)
    requires RowOk(h, row, gen)
    ensures RowOk(h', row, gen + 1)
  {
  }

  /** The sixteen rows and the generation word, with the heap they are asked about. */
  class Cache {
    const e: array<nat>
    var gen: nat
    var h: Heap

    function RowAt(i: nat): Row
      requires e.Length == 5 * ROWS && i < ROWS
      reads e
    {
      Row(e[5 * i], e[5 * i + 1], e[5 * i + 2], e[5 * i + 3], e[5 * i + 4])
    }

    ghost predicate Valid()
      reads this, e
    {
      && e.Length == 5 * ROWS && gen < U32 && WellFormed(h)
      && forall i :: 0 <= i < ROWS ==> RowOk(h, RowAt(i), gen)
    }

    constructor (heap: Heap)
      requires WellFormed(heap)
      ensures Valid() && h == heap && fresh(e)
    {
      e := new nat[5 * ROWS](_ => 0);
      gen, h := 0, heap;
    }

    /** Mutators and minor collections. */
    method Run(heap: Heap)
      requires Valid() && WellFormed(heap) && SameGeneration(h, heap)
      modifies this`h
      ensures Valid() && h == heap
    {
      forall i | 0 <= i < ROWS ensures RowOk(heap, RowAt(i), gen) {
        RowSurvives(h, heap, RowAt(i), gen);
      }
      h := heap;
    }

    /** A major collection may move and free anything, shapes too; its purge bumps the generation word. Unless the
        word wraps, that retires every row. */
    method MajorCollection(heap: Heap)
      requires Valid() && WellFormed(heap)
      modifies this
      ensures h == heap && gen == (old(gen) + 1) % U32 && e[..] == old(e[..])
      ensures old(gen) + 1 < U32 ==> Valid()
    {
      forall i | 0 <= i < ROWS ensures RowOk(heap, RowAt(i), gen + 1) {
        BumpRetires(h, heap, RowAt(i), gen);
      }
      h, gen := heap, (gen + 1) % U32;
    }

    /** The cached question: for every heap, and every content the cache can have come to hold, the answer of the
        full walk. */
    method Ask(o: Addr) returns (r: bool)
      requires Valid() && o in h.objects
      modifies e
      ensures Valid()
      ensures r <==> NoExtra(h, o)
      ensures r <==> NothingAbove(h, o)
      ensures r && Above(h, o, 1) != 0 && Above(h, o, 3) == 0 ==> Hits(h, o, RowAt(Above(h, o, 1) / 16 % ROWS), gen)
      ensures forall i :: 0 <= i < ROWS && i != Above(h, o, 1) / 16 % ROWS ==> RowAt(i) == old(RowAt(i))
    {
      NoExtraIs(h, o);
      if !CleanShape(ShapeOf(h, o)) {
        return false;
      }
      var p0 := ShapeOf(h, o).proto;
      assert Above(h, o, 0) == o && Above(h, o, 1) == p0;
      if p0 == 0 {
        assert Above(h, o, 2) == 0 && Above(h, o, 3) == 0;
        ShortChain(h, o);
        return true;
      }
      var i := p0 / 16 % ROWS;
      if e[5 * i] == p0 && e[5 * i + 4] == gen && e[5 * i + 1] == h.objects[p0].shape {
        if h.objects[p0].denseLength == 0 {
          var p1 := ShapeOf(h, p0).proto;
          if p1 == e[5 * i + 2]
            && (p1 == 0 || (h.objects[p1].shape == e[5 * i + 3] && h.objects[p1].denseLength == 0)) {
            HitIsNoExtra(h, o, RowAt(i), gen);
            return true;
          }
        }
      }
      var extra := PrototypeMayHaveIndexed(h, o);
      if extra {
        return false;
      }
      assert NoExtra(h, o) && CleanLevel(h, Above(h, o, 1)) && CleanLevel(h, Above(h, o, 2));
      var p1 := ShapeOf(h, p0).proto;
      assert Above(h, o, 2) == p1;
      if p1 == 0 || ShapeOf(h, p1).proto == 0 {
        Fill(i, Row(p0, h.objects[p0].shape, p1, if p1 == 0 then 0 else h.objects[p1].shape, gen));
      }
      return true;
    }

    method Fill(i: nat, row: Row)
      requires Valid() && i < ROWS && RowOk(h, row, gen)
      modifies e
      ensures Valid() && RowAt(i) == row
      ensures forall j :: 0 <= j < ROWS && j != i ==> RowAt(j) == old(RowAt(j))
    {
      e[5 * i], e[5 * i + 1], e[5 * i + 2] := row.p0, row.s0, row.p1;
      e[5 * i + 3], e[5 * i + 4] := row.s1, row.gen;
      forall j | 0 <= j < ROWS && j != i ensures RowAt(j) == old(RowAt(j)) {
      }
    }
  }
}
