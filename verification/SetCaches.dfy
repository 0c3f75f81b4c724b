// The write side of the property caches: cached own-slot stores and add-transition rows, against the
// ordinary set (section 10.1.9.2 of ECMA-262) and the engine's memoized shape tree.
module SetCaches {
  import opened Coordinates
  import opened Heap
  import GetCaches
  import opened Wrappers

  // ---- the ordinary set ------------------------------------------------------------------------

  /** What an ordinary set of `k` on `o` with `o` as receiver does. `Ignore`: a typed array swallows it.
      `EngineOnly`: a proxy, a hook or a slotless data property decides, or the engine has someone to notify. */
  datatype SetDecision = StoreOwn(slot: nat) | AddOwn | Refuse | RunSetter | Ignore | EngineOnly

  /** The decision a lookup that left the receiver leads to, on an extensible receiver. */
  ghost function Inherited(h: Heap, found: Lookup, k: Key): SetDecision
    requires WellFormed(h)
  {
    match found
    case At(x) =>
      if x in h.objs && k in ShapeOf(h, x).props then OfHolder(ShapeOf(h, x).props[k]) else EngineOnly
    case Missing => AddOwn
    case Stopped => Ignore
    case Opaque => EngineOnly
  }

  function OfHolder(p: Prop): SetDecision {
    match p
    case Data(_, writable, _, _) => if writable then AddOwn else Refuse
    case Accessor => RunSetter
    case Custom => EngineOnly
  }

  ghost function Decide(h: Heap, o: Addr, k: Key): SetDecision
    requires WellFormed(h) && o in h.objs
  {
    var s := ShapeOf(h, o);
    if Find(h, o, k) == At(o) && k in s.props then
      if s.props[k].Data? && s.props[k].writable then
        if s.watchStore then EngineOnly else StoreOwn(s.props[k].slot)
      else OfHolder(s.props[k])
    else
      var d := Inherited(h, Find(h, o, k), k);
      if d == AddOwn && !s.extensible then Refuse
      else if d == AddOwn && (s.cls.addHook || WatchesAdd(s)) then EngineOnly
      else d
  }

  /** The ordinary set in the terms of the walk. It adds exactly if the receiver takes plain adds and the first object
      that has the key, if any, is another one and has it as a writable data property; it refuses a read-only one,
      wherever it is, and an add to an object that takes none; it runs a setter exactly where the first property found
      is an accessor; and it stores exactly to the receiver's own writable property, if nothing watches. */
  lemma OrdinarySet(h: Heap, o: Addr, k: Key)
    requires WellFormed(h) && o in h.objs && k.Name?
    ensures var s, f := ShapeOf(h, o), Find(h, o, k);
      var p := if f.At? && f.holder in h.objs && k in ShapeOf(h, f.holder).props
        then Some(ShapeOf(h, f.holder).props[k]) else None;
      var inherits := f == Missing || (f != At(o) && p.Some? && p.value.Data? && p.value.writable);
      && (Decide(h, o, k) == AddOwn <==>
            inherits && s.extensible && !s.cls.addHook && !s.usedAsProto && !s.watchAdd)
      && (Decide(h, o, k) == Refuse <==> (p.Some? && p.value.Data? && !p.value.writable) || (inherits && !s.extensible))
      && (Decide(h, o, k) == RunSetter <==> p == Some(Accessor))
      && (Decide(h, o, k) == Ignore <==> f == Stopped)
      && (Decide(h, o, k).StoreOwn? <==> f == At(o) && p.Some? && p.value.Data? && p.value.writable && !s.watchStore)
      && (Decide(h, o, k).StoreOwn? ==> k in s.props && s.props[k].Data? && Decide(h, o, k).slot == s.props[k].slot)
  {
    if Find(h, o, k).At? {
      FindHop(h, o, k, Find(h, o, k).holder);
    }
  }

  /** Two objects have the same values in their first `n` slots. */
  ghost predicate SameSlots(n: nat, a: Object, b: Object) {
    && n <= |a.fixed| + |a.dyn| && n <= |b.fixed| + |b.dyn|
    && forall i: nat :: i < n ==> SlotAt(a, i) == SlotAt(b, i)
  }

  ghost predicate OthersKept(h: Heap, h': Heap, o: Addr) {
    && h'.objs.Keys == h.objs.Keys && h'.nursery == h.nursery
    && (forall x :: x in h.objs && x != o ==> h'.objs[x] == h.objs[x])
    && (forall s :: s in h.shapes ==> s in h'.shapes && h'.shapes[s] == h.shapes[s])
    && (forall t :: t in h.trans ==> t in h'.trans && h'.trans[t] == h.trans[t])
  }

  /** The generic path's plain property add on an unwatched object: the shape tree's child for the key, made
      now if the tree has none yet, and the value in the one new slot. Nothing else changes. */
  ghost predicate Adds(h: Heap, h': Heap, o: Addr, k: Key, v: Value)
    requires WellFormed(h) && WellFormed(h') && o in h.objs && OthersKept(h, h', o)
  {
    && k !in ShapeOf(h, o).props && ShapeOf(h, o).extensible && !ShapeOf(h, o).dictionary
    && !ShapeOf(h, o).cls.addHook && !WatchesAdd(ShapeOf(h, o))
    && (h.objs[o].shape, k) in h'.trans && h'.objs[o].shape == h'.trans[(h.objs[o].shape, k)]
    && ShapeOf(h', o) == Child(ShapeOf(h, o), k)
    && SameSlots(ShapeOf(h, o).span, h'.objs[o], h.objs[o]) && SlotAt(h'.objs[o], ShapeOf(h, o).span) == v
    && h'.objs[o].dense == h.objs[o].dense
  }

  // ---- own-slot stores -------------------------------------------------------------------------

  /** A set way or mega-set entry. */
  datatype SetRow = SetRow(key: Key, recvShape: ShapeId, slotEnc: nat, absSlot: nat)

  ghost predicate SetRowOk(shapes: map<ShapeId, Shape>, row: SetRow) {
    && row.recvShape in shapes
    && var s := shapes[row.recvShape];
    && s.cls.native && !s.watchStore && row.key in s.props
    && s.props[row.key].Data? && s.props[row.key].writable
    && row.absSlot == s.props[row.key].slot
    && row.slotEnc == SlotCoordinate(row.absSlot, s.nfixed)
  }

  /** The set populate: exactly the unwatched objects with an own writable slot for the name are cacheable. */
  method PopulateInlineSetIC(h: Heap, obj: Addr, id: Key) returns (row: Option<SetRow>, reason: nat)
    requires WellFormed(h) && obj in h.objs
    ensures row.Some? ==>
      SetRowOk(h.shapes, row.value) && row.value.key == id && row.value.recvShape == h.objs[obj].shape
    ensures row.None? ==> forall r :: SetRowOk(h.shapes, r) && r.recvShape == h.objs[obj].shape ==> r.key != id
    ensures reason == 3 <==>
      ShapeOf(h, obj).cls.native && !ShapeOf(h, obj).watchStore && id !in ShapeOf(h, obj).props
  {
    var s := ShapeOf(h, obj);
    if !s.cls.native {
      return None, 1;
    }
    if s.watchStore {
      return None, 2;
    }
    if id !in s.props {
      return None, 3;
    }
    if !s.props[id].Data? || !s.props[id].writable {
      return None, 4;
    }
    var slot := s.props[id].slot;
    return Some(SetRow(id, h.objs[obj].shape, SlotCoordinate(slot, s.nfixed), slot)), 0;
  }

  function StoreSlot(ob: Object, slot: nat, v: Value): Object
    requires slot < |ob.fixed| + |ob.dyn|
  {
    if slot < |ob.fixed| then ob.(fixed := ob.fixed[slot := v])
    else ob.(dyn := ob.dyn[slot - |ob.fixed| := v])
  }

  /** The slot store of a set hit. */
  function Stored(h: Heap, o: Addr, slot: nat, v: Value): Heap
    requires o in h.objs && slot < |h.objs[o].fixed| + |h.objs[o].dyn|
  {
    h.(objs := h.objs[o := StoreSlot(h.objs[o], slot, v)])
  }

  /** A set hit on any object of the row's shape is the ordinary set's own-slot store: the name then reads
      the new value, and the coordinate addresses that very slot. */
  lemma SetHitStores(h: Heap, recv: Addr, row: SetRow, v: Value)
    requires WellFormed(h) && SetRowOk(h.shapes, row) && recv in h.objs && h.objs[recv].shape == row.recvShape
    requires v != Uninit
    ensures row.absSlot < |h.objs[recv].fixed| + |h.objs[recv].dyn|
    ensures Decide(h, recv, row.key) == StoreOwn(row.absSlot)
    ensures var h' := Stored(h, recv, row.absSlot, v);
      && EngineStep(h, h')
      && Get(h', recv, row.key) == Some(v)
      && GetCaches.SlotEncRead(h'.objs[recv], row.slotEnc) == Some(v)
  {
    var s := ShapeOf(h, recv);
    assert ShapeOk(s) && ObjectOk(s, h.objs[recv]);
    FindOwn(h, recv, row.key);
    StoreIsStep(h, recv, row.absSlot, v);
    var h' := Stored(h, recv, row.absSlot, v);
    FindOwn(h', recv, row.key);
    GetCaches.CoordinateReads(s, h'.objs[recv], row.absSlot);
  }

  /** Replacing one object without touching the prototype links keeps the heap well formed. */
  lemma ObjectSwapKeeps(h: Heap, o: Addr, ob: Object)
    requires WellFormed(h) && o in h.objs && ob.shape in h.shapes
    requires ObjectOk(h.shapes[ob.shape], ob)
    requires h.shapes[ob.shape].proto == ShapeOf(h, o).proto
    requires ShapeOf(h, o).usedAsProto ==> h.shapes[ob.shape].usedAsProto
    ensures WellFormed(h.(objs := h.objs[o := ob]))
  {
    var h' := h.(objs := h.objs[o := ob]);
    forall s | s in h'.shapes ensures ProtoOk(h', h'.shapes[s]) {
      assert ProtoOk(h, h.shapes[s]);
    }
    forall s, k | (s, k) in h'.trans ensures TransOk(h', s, k) {
      assert TransOk(h, s, k);
    }
    SwapAcyclic(h, o, ob);
  }

  lemma SwapAcyclic(h: Heap, o: Addr, ob: Object)
    requires WellFormed(h) && o in h.objs && ob.shape in h.shapes
    requires h.shapes[ob.shape].proto == ShapeOf(h, o).proto
    ensures Acyclic(h.(objs := h.objs[o := ob]))
  {
    var h' := h.(objs := h.objs[o := ob]);
    var rank := Rank(h);
    forall x, p | Links(h', x, p) && p in h'.objs && p in rank && x in rank ensures rank[p] < rank[x] {
      assert Links(h, x, p);
    }
    assert Ranked(h', rank);
  }

  lemma StoreIsStep(h: Heap, o: Addr, slot: nat, v: Value)
    requires WellFormed(h) && o in h.objs && v != Uninit && slot < |h.objs[o].fixed| + |h.objs[o].dyn|
    ensures EngineStep(h, Stored(h, o, slot, v))
  {
    var ob := StoreSlot(h.objs[o], slot, v);
    assert ObjectOk(ShapeOf(h, o), h.objs[o]);
    assert forall i: nat :: i < ShapeOf(h, o).span ==>
      SlotAt(ob, i) == if i == slot then v else SlotAt(h.objs[o], i);
    ObjectSwapKeeps(h, o, ob);
    SameShapesIsStep(h, Stored(h, o, slot, v));
  }

  lemma SameShapesIsStep(h: Heap, h': Heap)
    requires WellFormed(h) && WellFormed(h') && h'.shapes == h.shapes && h'.trans == h.trans
    requires h'.objs.Keys == h.objs.Keys && forall o :: o in h.objs ==> h'.objs[o].shape == h.objs[o].shape
    ensures EngineStep(h, h')
  {
  }

  // ---- add transitions -------------------------------------------------------------------------

  /** An add-transition row: replay `oldShape` to `newShape` with the value in `slot`, provided the chain is
      still exactly these prototypes with exactly these shapes. */
  datatype AddRow = AddRow(
    key: Key, oldShape: ShapeId, newShape: ShapeId, slot: nat, ptrs: seq<Addr>, shapes: seq<ShapeId>)

  /** The chain from `proto` is exactly the objects `ptrs`, of shapes `shapes`. */
  ghost predicate ChainIs(h: Heap, proto: Proto, ptrs: seq<Addr>, shapes: seq<ShapeId>)
    decreases |ptrs|
  {
    && |ptrs| == |shapes|
    && if ptrs == [] then proto.NoProto? else
       && proto == ProtoObj(ptrs[0])
       && ptrs[0] in h.objs && h.objs[ptrs[0]].shape == shapes[0] && shapes[0] in h.shapes
       && ChainIs(h, h.shapes[shapes[0]].proto, ptrs[1..], shapes[1..])
  }

  predicate WatchesAdd(s: Shape) {
    s.usedAsProto || s.watchAdd
  }

  const MAX_PROTOS: nat := 4

  /** What the populate checks of the receiver after the set: the shape's last property is the key, a plain
      one, in the single slot by which the span grew. */
  predicate AppendedPlain(s: Shape, k: Key, oldSpan: Option<nat>) {
    && s.cls.native && !s.dictionary && !s.cls.addHook && k !in s.cls.resolves && !WatchesAdd(s)
    && oldSpan.Some? && s.span == oldSpan.value + 1
    && s.last == Some(k) && k in s.props && s.props[k].Data?
    && s.props[k].writable && s.props[k].enumerable && s.props[k].configurable
  }

  ghost predicate AddFilled(h: Heap, o: Addr, k: Key, oldShape: ShapeId, oldSpan: Option<nat>, row: AddRow)
    requires WellFormed(h) && o in h.objs
  {
    && AppendedPlain(ShapeOf(h, o), k, oldSpan)
    && row.key == k && row.oldShape == oldShape && row.newShape == h.objs[o].shape
    && row.slot == ShapeOf(h, o).props[k].slot
    && |row.ptrs| <= MAX_PROTOS
    && ChainIs(h, ShapeOf(h, o).proto, row.ptrs, row.shapes) && AllNative(h.shapes, row.shapes)
  }

  ghost predicate AllNative(shapes: map<ShapeId, Shape>, chain: seq<ShapeId>) {
    forall i :: 0 <= i < |chain| ==> chain[i] in shapes && shapes[chain[i]].cls.native
  }

  lemma {:induction false} ChainJoin(
    h: Heap, proto: Proto, p1: seq<Addr>, s1: seq<ShapeId>, mid: Proto, p2: seq<Addr>, s2: seq<ShapeId>)
    requires Reaches(h, proto, p1, s1, mid) && ChainIs(h, mid, p2, s2)
    ensures ChainIs(h, proto, p1 + p2, s1 + s2)
    decreases |p1|
  {
    if p1 == [] {
      assert p1 + p2 == p2 && s1 + s2 == s2;
    } else {
      ChainJoin(h, h.shapes[s1[0]].proto, p1[1..], s1[1..], mid, p2, s2);
      assert (p1 + p2)[1..] == p1[1..] + p2 && (s1 + s2)[1..] == s1[1..] + s2;
    }
  }

  /** From `proto`, the objects `ptrs` of shapes `shapes` lead to the link `mid`. */
  ghost predicate Reaches(h: Heap, proto: Proto, ptrs: seq<Addr>, shapes: seq<ShapeId>, mid: Proto)
    decreases |ptrs|
  {
    && |ptrs| == |shapes|
    && if ptrs == [] then proto == mid else
       && proto == ProtoObj(ptrs[0])
       && ptrs[0] in h.objs && h.objs[ptrs[0]].shape == shapes[0] && shapes[0] in h.shapes
       && Reaches(h, h.shapes[shapes[0]].proto, ptrs[1..], shapes[1..], mid)
  }

  lemma {:induction false} ReachesMore(
    h: Heap, proto: Proto, ptrs: seq<Addr>, shapes: seq<ShapeId>, p: Addr)
    requires Reaches(h, proto, ptrs, shapes, ProtoObj(p)) && WellFormed(h) && p in h.objs
    ensures Reaches(h, proto, ptrs + [p], shapes + [h.objs[p].shape], ShapeOf(h, p).proto)
    decreases |ptrs|
  {
    if ptrs != [] {
      ReachesMore(h, h.shapes[shapes[0]].proto, ptrs[1..], shapes[1..], p);
      assert (ptrs + [p])[1..] == ptrs[1..] + [p];
      assert (shapes + [h.objs[p].shape])[1..] == shapes[1..] + [h.objs[p].shape];
    }
  }

  /** Every chain from `proto` runs through what was walked so far. */
  lemma {:induction false} ReachesForced(
    h: Heap, proto: Proto, ptrs: seq<Addr>, shapes: seq<ShapeId>, mid: Proto, p2: seq<Addr>, s2: seq<ShapeId>)
    requires Reaches(h, proto, ptrs, shapes, mid) && ChainIs(h, proto, p2, s2)
    ensures |ptrs| <= |p2| && ChainIs(h, mid, p2[|ptrs|..], s2[|ptrs|..])
    decreases |ptrs|
  {
    if ptrs != [] {
      ReachesForced(h, h.shapes[shapes[0]].proto, ptrs[1..], shapes[1..], mid, p2[1..], s2[1..]);
      assert p2[1..][|ptrs| - 1..] == p2[|ptrs|..] && s2[1..][|ptrs| - 1..] == s2[|ptrs|..];
    }
  }

  /** The add-transition populate, run after a generic set changed the receiver's shape. It fills exactly
      when the receiver's new shape and its whole static chain admit a row, and says whether the row names a
      nursery prototype. */
  method PopulateAddTransition(h: Heap, obj: Addr, id: Key, oldShape: ShapeId, oldSpan: Option<nat>)
    returns (row: Option<AddRow>, nursery: bool)
    requires WellFormed(h) && obj in h.objs
    ensures row.Some? ==> AddFilled(h, obj, id, oldShape, oldSpan, row.value)
    ensures row.Some? ==> (nursery <==> exists p :: p in row.value.ptrs && p in h.nursery)
    ensures row.None? ==> forall r :: !AddFilled(h, obj, id, oldShape, oldSpan, r)
  {
    var s := ShapeOf(h, obj);
    if !AppendedPlain(s, id, oldSpan) {
      return None, false;
    }
    var ptrs: seq<Addr>, shapes: seq<ShapeId> := [], [];
    var proto := s.proto;
    ghost var below := obj;
    nursery := false;
    while proto.ProtoObj?
      invariant Reaches(h, s.proto, ptrs, shapes, proto) && |ptrs| == |shapes| <= MAX_PROTOS
      invariant below in h.objs && ShapeOf(h, below).proto == proto && ShapeOf(h, below).cls.native
      invariant AllNative(h.shapes, shapes)
      invariant nursery <==> exists p :: p in ptrs && p in h.nursery
      decreases Rank(h)[below]
    {
      Climb(h, below);
      var p := proto.obj;
      if |ptrs| == MAX_PROTOS || !ShapeOf(h, p).cls.native || ShapeOf(h, p).proto.DynamicProto? {
        forall r | AddFilled(h, obj, id, oldShape, oldSpan, r) ensures false {
          ReachesForced(h, s.proto, ptrs, shapes, proto, r.ptrs, r.shapes);
        }
        return None, false;
      }
      if p in h.nursery {
        nursery := true;
      }
      ReachesMore(h, s.proto, ptrs, shapes, p);
      ptrs, shapes := ptrs + [p], shapes + [h.objs[p].shape];
      below, proto := p, ShapeOf(h, p).proto;
    }
    assert ShapeOk(ShapeOf(h, below));
    ChainJoin(h, s.proto, ptrs, shapes, proto, [], []);
    assert ptrs + [] == ptrs && shapes + [] == shapes;
    return Some(AddRow(id, oldShape, h.objs[obj].shape, s.props[id].slot, ptrs, shapes)), nursery;
  }

  // ---- what a filled row says ------------------------------------------------------------------

  /** The span the miss helper reads before it runs the set: none of a dictionary object. */
  function SpanIfShared(s: Shape): Option<nat> {
    if s.dictionary then None else Some(s.span)
  }

  /** What the populate establishes of every row it accepts, whatever the populating set ran: all of it about
      immutable shapes. The span check makes the new shape exactly one slot longer. */
  ghost predicate AddRowSeen(shapes: map<ShapeId, Shape>, row: AddRow) {
    && row.key.Name? && row.oldShape in shapes && row.newShape in shapes
    && var s, n := shapes[row.oldShape], shapes[row.newShape];
    && !s.dictionary && !s.usedAsProto && s.cls == n.cls && s.nfixed == n.nfixed
    && AppendedPlain(n, row.key, Some(s.span)) && row.slot == n.props[row.key].slot
    && |row.ptrs| == |row.shapes| <= MAX_PROTOS && AllNative(shapes, row.shapes)
  }

  /** The set that filled the row may have been any run of engine steps, setters included. */
  lemma FilledIsSeen(h0: Heap, h: Heap, o: Addr, k: Key, row: AddRow)
    requires Grows(h0, h) && o in h0.objs && o in h.objs && k.Name?
    requires AddFilled(h, o, k, h0.objs[o].shape, SpanIfShared(ShapeOf(h0, o)), row)
    ensures AddRowSeen(h.shapes, row)
    ensures var s, n := ShapeOf(h0, o), ShapeOf(h, o);
      && !s.dictionary && !n.dictionary && n.span == s.span + 1 && n.last == Some(k) && k in n.props
      && n.props[k] == Data(row.slot, true, true, true)
      && n.cls == s.cls && n.cls.native && !n.cls.addHook && k !in n.cls.resolves && !n.usedAsProto && !n.watchAdd
  {
    assert Reshapes(h0, h, o);
    ChainLengths(h, ShapeOf(h, o).proto, row.ptrs, row.shapes);
  }

  lemma ChainLengths(h: Heap, proto: Proto, ptrs: seq<Addr>, shapes: seq<ShapeId>)
    requires ChainIs(h, proto, ptrs, shapes)
    ensures |ptrs| == |shapes|
  {
  }

  lemma SeenKept(h: Heap, h': Heap, row: AddRow)
    requires Grows(h, h') && AddRowSeen(h.shapes, row)
    ensures AddRowSeen(h'.shapes, row)
  {
  }

  /** The row is a transition of the shape tree: the old shape takes the key, and the tree leads to the new one. */
  predicate IsTransition(h: Heap, row: AddRow) {
    && (row.oldShape, row.key) in h.trans && h.trans[(row.oldShape, row.key)] == row.newShape
    && row.oldShape in h.shapes && h.shapes[row.oldShape].extensible && row.key !in h.shapes[row.oldShape].props
  }

  lemma TransitionRowOk(h: Heap, row: AddRow)
    requires WellFormed(h) && AddRowSeen(h.shapes, row) && IsTransition(h, row)
    ensures AddRowOk(h, row)
  {
    assert TransOk(h, row.oldShape, row.key);
    assert ShapeOk(h.shapes[row.newShape]);
  }

  // ---- replaying an add ------------------------------------------------------------------------

  /** What a row that is a transition goes on to guarantee, by the immutable shape table alone. */
  ghost predicate AddRowOk(h: Heap, row: AddRow) {
    && row.key.Name? && (row.oldShape, row.key) in h.trans && h.trans[(row.oldShape, row.key)] == row.newShape
    && row.oldShape in h.shapes && row.newShape in h.shapes
    && var s := h.shapes[row.oldShape];
    && s.cls.native && s.extensible && !s.dictionary && !WatchesAdd(s) && !s.cls.addHook
    && row.key !in s.props && row.key !in s.cls.resolves && !(s.cls.typedArray && row.key.numeric)
    && row.slot == s.span
    && |row.ptrs| == |row.shapes| && AllNative(h.shapes, row.shapes)
  }

  /** What the recorded prototype shapes say a set must do: a check on the row alone. */
  function ChainDecision(shapes: map<ShapeId, Shape>, k: Key, chain: seq<ShapeId>): SetDecision
    requires forall i :: 0 <= i < |chain| ==> chain[i] in shapes
    decreases |chain|
  {
    if chain == [] then AddOwn
    else
      var s := shapes[chain[0]];
      if s.cls.typedArray && TypedArrayKey(k) then Ignore
      else if k in s.props then OfHolder(s.props[k])
      else if k in s.cls.resolves then EngineOnly
      else ChainDecision(shapes, k, chain[1..])
  }

  lemma {:induction false} InheritedByChain(h: Heap, x: Addr, k: Key, ptrs: seq<Addr>, chain: seq<ShapeId>)
    requires WellFormed(h) && k.Name? && AllNative(h.shapes, chain)
    requires x in h.objs && ChainIs(h, ProtoObj(x), ptrs, chain)
    ensures Inherited(h, Find(h, x, k), k) == ChainDecision(h.shapes, k, chain)
    decreases |ptrs|
  {
    var s := ShapeOf(h, x);
    if GetCaches.Passes(s, k) && s.proto.ProtoObj? {
      FindPast(h, x, k);
      InheritedByChain(h, s.proto.obj, k, ptrs[1..], chain[1..]);
    }
  }

  /** The guards of a set-flavour replay. */
  ghost predicate AddGuards(h: Heap, o: Addr, row: AddRow) {
    && o in h.objs && h.objs[o].shape == row.oldShape && row.oldShape in h.shapes
    && !WatchesAdd(h.shapes[row.oldShape])
    && ChainIs(h, h.shapes[row.oldShape].proto, row.ptrs, row.shapes)
  }

  /** Where the guards hold, the ordinary set decides exactly what the recorded shapes decide. */
  lemma DecideByRow(h: Heap, o: Addr, row: AddRow)
    requires WellFormed(h) && AddRowOk(h, row) && AddGuards(h, o, row)
    ensures Decide(h, o, row.key) == ChainDecision(h.shapes, row.key, row.shapes)
  {
    var s := ShapeOf(h, o);
    if s.proto.ProtoObj? {
      FindPast(h, o, row.key);
      InheritedByChain(h, s.proto.obj, row.key, row.ptrs, row.shapes);
    } else {
      GetCaches.FindEnd(h, o, row.key);
    }
  }

  /** The new slot is one the object has, or will have once grown. */
  predicate InRange(h: Heap, o: Addr, row: AddRow, capacity: nat)
    requires o in h.objs
  {
    row.slot < |h.objs[o].fixed| + |h.objs[o].dyn| || row.slot < |h.objs[o].fixed| + capacity
  }

  /** The replay: grow the dynamic slots to `capacity` if the new slot needs it, set the shape, write the one
      new slot. */
  function Replayed(h: Heap, o: Addr, row: AddRow, v: Value, capacity: nat): Heap
    requires o in h.objs
    requires InRange(h, o, row, capacity)
  {
    var ob := h.objs[o];
    var dyn := if row.slot >= |ob.fixed| && capacity > |ob.dyn|
               then ob.dyn + seq(capacity - |ob.dyn|, _ => Uninit) else ob.dyn;
    h.(objs := h.objs[o := StoreSlot(ob.(shape := row.newShape, dyn := dyn), row.slot, v)])
  }

  /** `capacity` is what the engine's slot sizing answers: enough dynamic slots for the new span. */
  ghost predicate Fits(h: Heap, row: AddRow, capacity: nat) {
    row.newShape in h.shapes ==> h.shapes[row.newShape].span <= h.shapes[row.newShape].nfixed + capacity
  }

  /** A replay of any accepted row writes inside the object's slots once grown. It leaves every slot of the new
      span initialised if and only if the row's slot is the one the span grew by, or that one already had a
      value. */
  lemma SeenReplay(h: Heap, o: Addr, row: AddRow, v: Value, capacity: nat)
    requires WellFormed(h) && AddRowSeen(h.shapes, row) && o in h.objs && h.objs[o].shape == row.oldShape
    requires v != Uninit && Fits(h, row, capacity)
    ensures InRange(h, o, row, capacity)
    ensures var ob, n := h.objs[o], h.shapes[row.oldShape].span;
      ObjectOk(h.shapes[row.newShape], Replayed(h, o, row, v, capacity).objs[o]) <==>
        row.slot == n || (n < |ob.fixed| + |ob.dyn| && SlotAt(ob, n) != Uninit)
  {
    assert ObjectOk(ShapeOf(h, o), h.objs[o]) && ShapeOk(h.shapes[row.newShape]);
    ReplayedSlots(h.shapes[row.oldShape], h.shapes[row.newShape], h.objs[o],
                  Replayed(h, o, row, v, capacity).objs[o], row.slot, v, capacity);
  }

  lemma ReplayedSlots(s: Shape, n: Shape, was: Object, now: Object, slot: nat, v: Value, capacity: nat)
    requires ObjectOk(s, was) && n.nfixed == s.nfixed && n.span == s.span + 1 && slot < n.span && v != Uninit
    requires n.span <= n.nfixed + capacity
    requires |now.fixed| == |was.fixed|
    requires |now.dyn| == if slot >= |was.fixed| && capacity > |was.dyn| then capacity else |was.dyn|
    requires slot < |now.fixed| + |now.dyn| && SlotAt(now, slot) == v
    requires forall i: nat :: i != slot && i < |now.fixed| + |now.dyn| ==>
      SlotAt(now, i) == if i < |was.fixed| + |was.dyn| then SlotAt(was, i) else Uninit
    ensures ObjectOk(n, now) <==>
      slot == s.span || (s.span < |was.fixed| + |was.dyn| && SlotAt(was, s.span) != Uninit)
  {
    if slot != s.span && ObjectOk(n, now) {
      assert SlotAt(now, s.span) != Uninit;
    }
  }

  /** A replay of a transition on any object of the old shape finds its slot in range and leaves a heap in which every slot of
      the new span is initialised. */
  lemma ReplayedHeap(h: Heap, o: Addr, row: AddRow, v: Value, capacity: nat)
    requires WellFormed(h) && AddRowOk(h, row) && o in h.objs && h.objs[o].shape == row.oldShape
    requires v != Uninit && Fits(h, row, capacity)
    ensures InRange(h, o, row, capacity) && row.newShape in h.shapes
    ensures h.shapes[row.newShape] == Child(h.shapes[row.oldShape], row.key)
    ensures WellFormed(Replayed(h, o, row, v, capacity)) && OthersKept(h, Replayed(h, o, row, v, capacity), o)
  {
    ReplayedObject(h, o, row, v, capacity);
    ObjectSwapKeeps(h, o, Replayed(h, o, row, v, capacity).objs[o]);
  }

  /** That heap is the shape tree's own add. This is all the define flavour needs: a define never looks at the
      chain. */
  lemma ReplayAdds(h: Heap, o: Addr, row: AddRow, v: Value, capacity: nat, r: Heap)
    requires WellFormed(h) && AddRowOk(h, row) && o in h.objs && h.objs[o].shape == row.oldShape
    requires v != Uninit && Fits(h, row, capacity) && InRange(h, o, row, capacity)
    requires r == Replayed(h, o, row, v, capacity) && WellFormed(r) && OthersKept(h, r, o)
    ensures Adds(h, r, o, row.key, v)
  {
    ReplayedObject(h, o, row, v, capacity);
  }

  /** And it is one the engine could have produced, so a replay disturbs no get row. */
  lemma ReplaySteps(h: Heap, o: Addr, row: AddRow, v: Value, capacity: nat)
    requires WellFormed(h) && AddRowOk(h, row) && o in h.objs && h.objs[o].shape == row.oldShape
    requires v != Uninit && Fits(h, row, capacity)
    ensures InRange(h, o, row, capacity) && EngineStep(h, Replayed(h, o, row, v, capacity))
  {
    ReplayedHeap(h, o, row, v, capacity);
    ReplayIsStep(h, o, row, Replayed(h, o, row, v, capacity));
  }

  lemma ReplayedObject(h: Heap, o: Addr, row: AddRow, v: Value, capacity: nat)
    requires WellFormed(h) && AddRowOk(h, row) && o in h.objs && h.objs[o].shape == row.oldShape
    requires v != Uninit && Fits(h, row, capacity)
    ensures h.shapes[row.newShape] == Child(h.shapes[row.oldShape], row.key)
    ensures InRange(h, o, row, capacity)
    ensures var ob := Replayed(h, o, row, v, capacity).objs[o];
      && ob.shape == row.newShape && ob.dense == h.objs[o].dense
      && ObjectOk(h.shapes[row.newShape], ob)
      && SlotAt(ob, row.slot) == v
      && forall i: nat :: i < row.slot ==> SlotAt(ob, i) == SlotAt(h.objs[o], i)
  {
    assert TransOk(h, row.oldShape, row.key);
    assert ObjectOk(ShapeOf(h, o), h.objs[o]);
    var ob := Replayed(h, o, row, v, capacity).objs[o];
    assert forall i: nat :: i < row.slot ==> SlotAt(ob, i) == SlotAt(h.objs[o], i);
  }

  lemma ReplayIsStep(h: Heap, o: Addr, row: AddRow, h': Heap)
    requires WellFormed(h) && WellFormed(h') && AddRowOk(h, row) && o in h.objs && OthersKept(h, h', o)
    requires h.objs[o].shape == row.oldShape && h'.objs[o].shape == row.newShape
    requires h.shapes[row.newShape] == Child(h.shapes[row.oldShape], row.key)
    ensures EngineStep(h, h')
  {
    ReplayGrows(h, o, row, h');
    forall m: Addr, k: Key | m in h.objs && ShapeOf(h, m).usedAsProto && k.Name? ensures ShadowWatched(h, h', m, k) {
      Unwatched(h, h', m, k, m);
    }
    forall m: Addr, x: Addr | m in h.objs && x in h.objs && ShapeOf(h, m).usedAsProto
      ensures ProtoWatched(h, h', m, x)
    {
      Unwatched(h, h', m, row.key, x);
    }
  }

  lemma ReplayGrows(h: Heap, o: Addr, row: AddRow, h': Heap)
    requires WellFormed(h) && WellFormed(h') && AddRowOk(h, row) && o in h.objs && OthersKept(h, h', o)
    requires h.objs[o].shape == row.oldShape && h'.objs[o].shape == row.newShape
    requires h.shapes[row.newShape] == Child(h.shapes[row.oldShape], row.key)
    ensures Grows(h, h')
    ensures forall m :: m in h.objs && ShapeOf(h, m).usedAsProto ==> h'.objs[m].shape == h.objs[m].shape
  {
    forall m | m in h.objs ensures m in h'.objs && Reshapes(h, h', m) {
    }
  }

  /** An object that keeps its shape owes nothing. */
  lemma Unwatched(h: Heap, h': Heap, m: Addr, k: Key, x: Addr)
    requires Grows(h, h') && m in h.objs && x in h.objs && h'.objs[m].shape == h.objs[m].shape
    ensures ShadowWatched(h, h', m, k) && ProtoWatched(h, h', m, x)
  {
  }

  /** The generic add has no choice left: two heaps it may leave agree on the object and on every other. */
  lemma AddsUnique(h: Heap, o: Addr, k: Key, v: Value, h1: Heap, h2: Heap)
    requires WellFormed(h) && WellFormed(h1) && WellFormed(h2) && o in h.objs
    requires OthersKept(h, h1, o) && Adds(h, h1, o, k, v) && (h.objs[o].shape, k) in h.trans
    requires OthersKept(h, h2, o) && Adds(h, h2, o, k, v)
    ensures h1.objs[o].shape == h2.objs[o].shape && SameSlots(ShapeOf(h1, o).span, h1.objs[o], h2.objs[o])
    ensures h1.objs[o].dense == h2.objs[o].dense
    ensures forall x :: x in h.objs && x != o ==> h1.objs[x] == h2.objs[x]
  {
    SlotsUnique(ShapeOf(h, o).span, h.objs[o], h1.objs[o], h2.objs[o]);
  }

  lemma SlotsUnique(n: nat, base: Object, a: Object, b: Object)
    requires SameSlots(n, a, base) && SameSlots(n, b, base)
    requires n < |a.fixed| + |a.dyn| && n < |b.fixed| + |b.dyn| && SlotAt(a, n) == SlotAt(b, n)
    ensures SameSlots(n + 1, a, b)
  {
    forall i: nat | i < n ensures SlotAt(a, i) == SlotAt(b, i) {
      assert SlotAt(a, i) == SlotAt(base, i);
    }
  }

  /** So where a row applies the generic add ends in the same shape, with the same slot values, as the replay. */
  lemma ReplayIsTheAdd(h: Heap, o: Addr, row: AddRow, v: Value, capacity: nat, h': Heap, r: Heap)
    requires WellFormed(h) && AddRowOk(h, row) && o in h.objs && h.objs[o].shape == row.oldShape
    requires v != Uninit && Fits(h, row, capacity)
    requires InRange(h, o, row, capacity) && r == Replayed(h, o, row, v, capacity)
    requires WellFormed(r) && OthersKept(h, r, o)
    requires WellFormed(h') && OthersKept(h, h', o) && Adds(h, h', o, row.key, v)
    ensures r.objs[o].shape == h'.objs[o].shape && SameSlots(ShapeOf(r, o).span, r.objs[o], h'.objs[o])
    ensures r.objs[o].dense == h'.objs[o].dense
    ensures forall x :: x in h.objs && x != o ==> r.objs[x] == h'.objs[x]
  {
    ReplayAdds(h, o, row, v, capacity, r);
    AddsUnique(h, o, row.key, v, r, h');
  }

  /** The replay of a row on an object is what the ordinary set does there. */
  ghost predicate ReplayAgrees(h: Heap, o: Addr, row: AddRow, v: Value, capacity: nat)
    requires WellFormed(h) && o in h.objs
  {
    && Decide(h, o, row.key) == AddOwn
    && InRange(h, o, row, capacity)
    && var h' := Replayed(h, o, row, v, capacity);
    && WellFormed(h') && OthersKept(h, h', o) && Adds(h, h', o, row.key, v)
  }

  /** The set-flavour replay theorem. Where its guards hold, replaying is what the ordinary set would do if
      and only if the row is a shape-tree transition and the recorded prototype shapes decide for an add: the
      first that has the name, if any, has it as a writable data property. The populate checks neither; see
      `SetterRows`. This is for every row it accepts. */
  lemma ReplayRefinesSet(h: Heap, o: Addr, row: AddRow, v: Value, capacity: nat)
    requires WellFormed(h) && AddRowSeen(h.shapes, row) && AddGuards(h, o, row)
    requires v != Uninit && Fits(h, row, capacity)
    ensures ReplayAgrees(h, o, row, v, capacity) <==>
      IsTransition(h, row) && ChainDecision(h.shapes, row.key, row.shapes) == AddOwn
  {
    if IsTransition(h, row) {
      TransitionRowOk(h, row);
      DecideByRow(h, o, row);
      ReplayedHeap(h, o, row, v, capacity);
      ReplayAdds(h, o, row, v, capacity, Replayed(h, o, row, v, capacity));
    }
  }

  /** The guards of a define-flavour replay. */
  predicate InitGuards(h: Heap, o: Addr, row: AddRow) {
    && o in h.objs && h.objs[o].shape == row.oldShape && row.oldShape in h.shapes
    && !WatchesAdd(h.shapes[row.oldShape])
  }

  /** The replay of a row on an object is the plain add a define makes there. */
  ghost predicate ReplayDefines(h: Heap, o: Addr, row: AddRow, v: Value, capacity: nat)
    requires WellFormed(h) && o in h.objs
  {
    && InRange(h, o, row, capacity)
    && var h' := Replayed(h, o, row, v, capacity);
    && WellFormed(h') && OthersKept(h, h', o) && Adds(h, h', o, row.key, v)
  }

  /** The define-flavour replay theorem, for every accepted row. */
  lemma ReplayRefinesDefine(h: Heap, o: Addr, row: AddRow, v: Value, capacity: nat)
    requires WellFormed(h) && AddRowSeen(h.shapes, row) && InitGuards(h, o, row)
    requires v != Uninit && Fits(h, row, capacity)
    ensures ReplayDefines(h, o, row, v, capacity) <==> IsTransition(h, row)
  {
    if IsTransition(h, row) {
      TransitionRowOk(h, row);
      ReplayedHeap(h, o, row, v, capacity);
      ReplayAdds(h, o, row, v, capacity, Replayed(h, o, row, v, capacity));
    }
  }

  /** A row filled after a plain add - by a define, or by a set - is a shape-tree transition. */
  lemma AddFillsTransition(h0: Heap, h: Heap, o: Addr, k: Key, v: Value, row: AddRow)
    requires WellFormed(h0) && WellFormed(h) && o in h0.objs && OthersKept(h0, h, o)
    requires k.Name? && Adds(h0, h, o, k, v)
    requires AddFilled(h, o, k, h0.objs[o].shape, SpanIfShared(ShapeOf(h0, o)), row)
    ensures IsTransition(h, row)
  {
  }

  /** Why the populate refuses a class with an add hook and a watched receiver: whatever row it recorded, on such an
      object a replay would be neither the ordinary set nor the plain add, for nobody would be told. And it refuses. */
  lemma UntoldReplayIsWrong(h: Heap, o: Addr, row: AddRow, v: Value, capacity: nat)
    requires WellFormed(h) && o in h.objs && (ShapeOf(h, o).cls.addHook || WatchesAdd(ShapeOf(h, o)))
    ensures !ReplayAgrees(h, o, row, v, capacity) && !ReplayDefines(h, o, row, v, capacity)
    ensures forall oldShape, oldSpan :: !AddFilled(h, o, row.key, oldShape, oldSpan, row)
  {
  }

  /** A set that ran no setter fills only good rows: if the populating set was itself an ordinary add, the row
      is a shape-tree transition and its recorded shapes decide for adding. */
  lemma OrdinaryAddFills(
    h0: Heap, h: Heap, o: Addr, k: Key, v: Value, row: AddRow)
    requires WellFormed(h0) && WellFormed(h) && o in h0.objs && OthersKept(h0, h, o)
    requires k.Name? && Adds(h0, h, o, k, v) && Decide(h0, o, k) == AddOwn
    requires AddFilled(h, o, k, h0.objs[o].shape, SpanIfShared(ShapeOf(h0, o)), row)
    ensures IsTransition(h, row) && ChainDecision(h.shapes, row.key, row.shapes) == AddOwn
  {
    AddFillsTransition(h0, h, o, k, v, row);
    ChainLengths(h, ShapeOf(h, o).proto, row.ptrs, row.shapes);
    if ShapeOf(h0, o).proto.ProtoObj? {
      Climb(h0, o);
    }
    ChainBefore(h0, h, o, ShapeOf(h0, o).proto, row.ptrs, row.shapes);
    ChainShapesLive(h0, ShapeOf(h0, o).proto, row.ptrs, row.shapes);
    AddingChain(h0, o, k, row.ptrs, row.shapes);
    DecisionKept(h0, h, k, row.shapes);
  }

  lemma AddingChain(h: Heap, o: Addr, k: Key, ptrs: seq<Addr>, chain: seq<ShapeId>)
    requires WellFormed(h) && k.Name? && AllNative(h.shapes, chain) && o in h.objs
    requires Decide(h, o, k) == AddOwn && k !in ShapeOf(h, o).props
    requires ChainIs(h, ShapeOf(h, o).proto, ptrs, chain)
    ensures ChainDecision(h.shapes, k, chain) == AddOwn
  {
    if ShapeOf(h, o).proto.ProtoObj? {
      FindPast(h, o, k);
      InheritedByChain(h, ShapeOf(h, o).proto.obj, k, ptrs, chain);
    }
  }

  /** The chain above an object is untouched by its own add. */
  lemma {:induction false} ChainBefore(
    h0: Heap, h: Heap, o: Addr, proto: Proto, ptrs: seq<Addr>, shapes: seq<ShapeId>)
    requires WellFormed(h0) && WellFormed(h) && o in h0.objs && OthersKept(h0, h, o)
    requires !ShapeOf(h0, o).usedAsProto
    requires proto.ProtoObj? ==> proto.obj in h0.objs && ShapeOf(h0, proto.obj).usedAsProto
    requires ChainIs(h, proto, ptrs, shapes)
    ensures ChainIs(h0, proto, ptrs, shapes)
    decreases |ptrs|
  {
    if ptrs != [] {
      var p := ptrs[0];
      if ShapeOf(h0, p).proto.ProtoObj? {
        Climb(h0, p);
      }
      ChainBefore(h0, h, o, h0.shapes[shapes[0]].proto, ptrs[1..], shapes[1..]);
    }
  }

  lemma {:induction false} ChainShapesLive(h: Heap, proto: Proto, ptrs: seq<Addr>, shapes: seq<ShapeId>)
    requires ChainIs(h, proto, ptrs, shapes)
    ensures forall i :: 0 <= i < |shapes| ==> shapes[i] in h.shapes
    decreases |ptrs|
  {
    if ptrs != [] {
      ChainShapesLive(h, h.shapes[shapes[0]].proto, ptrs[1..], shapes[1..]);
      assert forall i :: 0 < i < |shapes| ==> shapes[i] == shapes[1..][i - 1];
    }
  }

  lemma {:induction false} DecisionKept(h0: Heap, h: Heap, k: Key, chain: seq<ShapeId>)
    requires forall s :: s in h0.shapes ==> s in h.shapes && h.shapes[s] == h0.shapes[s]
    requires forall i :: 0 <= i < |chain| ==> chain[i] in h0.shapes
    ensures forall i :: 0 <= i < |chain| ==> chain[i] in h.shapes
    ensures ChainDecision(h.shapes, k, chain) == ChainDecision(h0.shapes, k, chain)
    decreases |chain|
  {
    if chain != [] {
      DecisionKept(h0, h, k, chain[1..]);
    }
  }

  /** Rows stay good for as long as shapes live, whatever the program does. */
  lemma AddRowKept(h: Heap, h': Heap, row: AddRow)
    requires Grows(h, h') && AddRowOk(h, row)
    ensures AddRowOk(h', row)
    ensures ChainDecision(h'.shapes, row.key, row.shapes) == ChainDecision(h.shapes, row.key, row.shapes)
  {
    DecisionKept(h, h', row.key, row.shapes);
  }

  /** Walk up from an object, comparing every prototype and its shape with the recorded ones. */
  method ChainStillIs(h: Heap, o: Addr, ptrs: seq<Addr>, shapes: seq<ShapeId>) returns (ok: bool)
    requires WellFormed(h) && o in h.objs && |ptrs| == |shapes|
    ensures ok <==> ChainIs(h, ShapeOf(h, o).proto, ptrs, shapes)
  {
    var start := ShapeOf(h, o).proto;
    var proto, i := start, 0;
    ghost var below := o;
    while i < |ptrs|
      invariant 0 <= i <= |ptrs| && Reaches(h, start, ptrs[..i], shapes[..i], proto)
      invariant below in h.objs && ShapeOf(h, below).proto == proto
    {
      if ChainIs(h, start, ptrs, shapes) {
        ReachesForced(h, start, ptrs[..i], shapes[..i], proto, ptrs, shapes);
      }
      if !proto.ProtoObj? || proto.obj != ptrs[i] {
        return false;
      }
      Climb(h, below);
      if h.objs[proto.obj].shape != shapes[i] {
        return false;
      }
      ReachesMore(h, start, ptrs[..i], shapes[..i], proto.obj);
      assert ptrs[..i + 1] == ptrs[..i] + [proto.obj] && shapes[..i + 1] == shapes[..i] + [shapes[i]];
      below, proto, i := proto.obj, ShapeOf(h, proto.obj).proto, i + 1;
    }
    assert ptrs[..i] == ptrs && shapes[..i] == shapes;
    if !proto.NoProto? {
      if ChainIs(h, start, ptrs, shapes) {
        ReachesForced(h, start, ptrs, shapes, proto, ptrs, shapes);
      }
      return false;
    }
    ChainJoin(h, start, ptrs, shapes, proto, [], []);
    assert ptrs + [] == ptrs && shapes + [] == shapes;
    return true;
  }

  /** The replays as the miss helpers run them, on the live heap. */
  class Mutator {
    var heap: Heap

    constructor (h: Heap)
      ensures heap == h
    {
      heap := h;
    }

    /** Set flavour: re-check the receiver's shape and every prototype, then replay. */
    method TryAddPropTransition(o: Addr, row: AddRow, v: Value, capacity: nat) returns (ok: bool)
      requires WellFormed(heap) && AddRowSeen(heap.shapes, row) && o in heap.objs
      requires v != Uninit && Fits(heap, row, capacity)
      modifies this
      ensures ok <==> AddGuards(old(heap), o, row)
      ensures ok ==> InRange(old(heap), o, row, capacity) && heap == Replayed(old(heap), o, row, v, capacity)
      ensures ok ==> (ReplayAgrees(old(heap), o, row, v, capacity) <==>
        IsTransition(old(heap), row) && ChainDecision(old(heap).shapes, row.key, row.shapes) == AddOwn)
      ensures !ok ==> heap == old(heap)
    {
      if heap.objs[o].shape != row.oldShape || WatchesAdd(ShapeOf(heap, o)) {
        return false;
      }
      var guarded := ChainStillIs(heap, o, row.ptrs, row.shapes);
      if !guarded {
        return false;
      }
      SeenReplay(heap, o, row, v, capacity);
      ReplayRefinesSet(heap, o, row, v, capacity);
      heap := Replayed(heap, o, row, v, capacity);
      return true;
    }

    /** Define flavour: the receiver's shape is the only guard. The replay is the define's own add if and only if the
        row is a transition, as every row a plain define filled is. */
    method TryInitAddTransition(o: Addr, row: AddRow, v: Value, capacity: nat) returns (ok: bool)
      requires WellFormed(heap) && AddRowSeen(heap.shapes, row) && o in heap.objs
      requires v != Uninit && Fits(heap, row, capacity)
      modifies this
      ensures ok <==> InitGuards(old(heap), o, row)
      ensures ok ==> InRange(old(heap), o, row, capacity) && heap == Replayed(old(heap), o, row, v, capacity)
      ensures ok ==> (ReplayDefines(old(heap), o, row, v, capacity) <==> IsTransition(old(heap), row))
      ensures !ok ==> heap == old(heap)
    {
      if heap.objs[o].shape != row.oldShape || WatchesAdd(ShapeOf(heap, o)) {
        return false;
      }
      SeenReplay(heap, o, row, v, capacity);
      ReplayRefinesDefine(heap, o, row, v, capacity);
      heap := Replayed(heap, o, row, v, capacity);
      return true;
    }
  }
}
