// The plain JavaScript heap the caches shortcut: an immutable table of shapes, objects that point at a
// shape and hold slots, the prototype-chain lookup (section 10.1.8.1 of ECMA-262), and the contract the
// engine keeps at every step it takes.
module Heap {
  import opened Wrappers

  type Addr = nat
  type ShapeId = nat

  /** `numeric`: a canonical numeric string such as "NaN", which a typed array answers for itself. */
  datatype Key = Name(id: nat, numeric: bool) | Index(i: nat)

  predicate TypedArrayKey(k: Key) {
    k.Index? || k.numeric
  }

  /** `Uninit` is what a slot holds between being grown and being written. */
  datatype Value = Undefined | Bits(raw: nat) | Uninit

  /** `Custom` is a data property with no slot, such as an array's length. */
  datatype Prop =
    | Data(slot: nat, writable: bool, enumerable: bool, configurable: bool)
    | Accessor
    | Custom

  datatype Proto = NoProto | ProtoObj(obj: Addr) | DynamicProto

  /** `resolves`: the keys the class's resolve hook may materialize on a lookup. */
  datatype Class = Class(native: bool, typedArray: bool, addHook: bool, resolves: set<Key>)

  /** `teleportOff` is the flag an object takes when a property of it was shadowed or a prototype below it
      was replaced; it, `usedAsProto` and the two watch flags are part of the shape. */
  datatype Shape = Shape(
    props: map<Key, Prop>,
    last: Option<Key>,
    span: nat,
    nfixed: nat,
    proto: Proto,
    cls: Class,
    dictionary: bool,
    extensible: bool,
    usedAsProto: bool,
    teleportOff: bool,
    watchAdd: bool,
    watchStore: bool)

  datatype Object = Object(shape: ShapeId, fixed: seq<Value>, dyn: seq<Value>, dense: map<nat, Value>)

  /** `trans` is the memoized shape tree. */
  datatype Heap = Heap(
    shapes: map<ShapeId, Shape>,
    objs: map<Addr, Object>,
    trans: map<(ShapeId, Key), ShapeId>,
    nursery: set<Addr>)

  // ---- well-formedness -------------------------------------------------------------------------

  /** The shape one plain property add leads to. */
  function Child(s: Shape, k: Key): Shape {
    s.(props := s.props[k := Data(s.span, true, true, true)], last := Some(k), span := s.span + 1)
  }

  function SlotAt(ob: Object, slot: nat): Value
    requires slot < |ob.fixed| + |ob.dyn|
  {
    if slot < |ob.fixed| then ob.fixed[slot] else ob.dyn[slot - |ob.fixed|]
  }

  ghost predicate ObjectOk(s: Shape, ob: Object) {
    && |ob.fixed| == s.nfixed
    && s.span <= s.nfixed + |ob.dyn|
    && forall i: nat :: i < s.span ==> SlotAt(ob, i) != Uninit
  }

  /** A typed array never stores a property under a numeric key. The engine's slot limit keeps every offset
      inside a word. */
  ghost predicate ShapeOk(s: Shape) {
    && (s.cls.native ==> !s.proto.DynamicProto?)
    && s.span * 8 + 16 < U32
    && (forall k :: k in s.props && s.props[k].Data? ==> s.props[k].slot < s.span)
    && (s.cls.typedArray ==> forall k :: k in s.props ==> !TypedArrayKey(k))
  }

  /** A shape's prototype is an object that carries the used-as-prototype flag. */
  ghost predicate ProtoOk(h: Heap, s: Shape) {
    s.proto.ProtoObj? ==>
      && s.proto.obj in h.objs
      && h.objs[s.proto.obj].shape in h.shapes
      && h.shapes[h.objs[s.proto.obj].shape].usedAsProto
  }

  ghost predicate TransOk(h: Heap, from: ShapeId, k: Key) {
    && (from, k) in h.trans
    && from in h.shapes && h.trans[(from, k)] in h.shapes
    && h.shapes[h.trans[(from, k)]] == Child(h.shapes[from], k)
  }

  /** `p` is the prototype of `o`. */
  ghost predicate Links(h: Heap, o: Addr, p: Addr) {
    && o in h.objs && h.objs[o].shape in h.shapes
    && h.shapes[h.objs[o].shape].proto == ProtoObj(p)
  }

  ghost predicate Ranked(h: Heap, rank: map<Addr, nat>) {
    && (forall o :: o in h.objs ==> o in rank)
    && (forall o, p {:trigger Links(h, o, p)} :: Links(h, o, p) && p in h.objs && p in rank && o in rank ==>
          rank[p] < rank[o])
  }

  /** The engine refuses a prototype change that would make a cycle, so chains always end. */
  ghost predicate Acyclic(h: Heap) {
    exists rank :: Ranked(h, rank)
  }

  /** Address 0 is the null pointer and never a cell. */
  ghost predicate WellFormed(h: Heap) {
    && 0 !in h.objs && 0 !in h.shapes
    && (forall s :: s in h.shapes ==> ShapeOk(h.shapes[s]))
    && (forall s {:trigger ProtoOk(h, h.shapes[s])} :: s in h.shapes ==> ProtoOk(h, h.shapes[s]))
    && (forall o :: o in h.objs ==>
          h.objs[o].shape in h.shapes && ObjectOk(h.shapes[h.objs[o].shape], h.objs[o]))
    && (forall s, k {:trigger TransOk(h, s, k)} :: (s, k) in h.trans ==> TransOk(h, s, k))
    && Acyclic(h)
  }

  ghost function Rank(h: Heap): (rank: map<Addr, nat>)
    requires WellFormed(h)
    ensures Ranked(h, rank)
  {
    var rank :| Ranked(h, rank); rank
  }

  function ShapeOf(h: Heap, o: Addr): Shape
    requires o in h.objs && h.objs[o].shape in h.shapes
  {
    h.shapes[h.objs[o].shape]
  }

  /** One step up a prototype chain stays in the heap, lands on a used-as-prototype object and descends in
      rank. */
  lemma Climb(h: Heap, o: Addr)
    requires WellFormed(h) && o in h.objs && ShapeOf(h, o).proto.ProtoObj?
    ensures var p := ShapeOf(h, o).proto.obj;
      && p in h.objs && p in Rank(h) && o in Rank(h) && Rank(h)[p] < Rank(h)[o]
      && ShapeOf(h, p).usedAsProto
  {
    assert ProtoOk(h, ShapeOf(h, o));
    assert Links(h, o, ShapeOf(h, o).proto.obj);
  }

  // ---- the full lookup -------------------------------------------------------------------------

  /** Where a lookup ends: at a holder, past the end of the chain, at a typed array that answers a numeric
      key itself, or somewhere only the engine can decide (a proxy, a resolve hook). */
  datatype Lookup = At(holder: Addr) | Missing | Stopped | Opaque

  predicate OwnHas(h: Heap, o: Addr, k: Key)
    requires o in h.objs && h.objs[o].shape in h.shapes
  {
    k in ShapeOf(h, o).props || (k.Index? && k.i in h.objs[o].dense)
  }

  ghost function Find(h: Heap, o: Addr, k: Key): Lookup
    requires WellFormed(h) && o in h.objs
    decreases Rank(h)[o]
  {
    var s := ShapeOf(h, o);
    if !s.cls.native then Opaque
    else if s.cls.typedArray && TypedArrayKey(k) then Stopped
    else if OwnHas(h, o, k) then At(o)
    else if k in s.cls.resolves then Opaque
    else match s.proto
      case NoProto => Missing
      case DynamicProto => Opaque
      case ProtoObj(p) => Climb(h, o); Find(h, p, k)
  }

  /** The same walk by stored properties alone, as the populate walks make it: dense elements are not in shapes. */
  ghost function FindStored(h: Heap, o: Addr, k: Key): Lookup
    requires WellFormed(h) && o in h.objs
    decreases Rank(h)[o]
  {
    var s := ShapeOf(h, o);
    if !s.cls.native then Opaque
    else if s.cls.typedArray && TypedArrayKey(k) then Stopped
    else if k in s.props then At(o)
    else if k in s.cls.resolves then Opaque
    else match s.proto
      case NoProto => Missing
      case DynamicProto => Opaque
      case ProtoObj(p) => Climb(h, o); FindStored(h, p, k)
  }

  /** No object the stored walk passes has the key as a dense element. */
  ghost predicate NoneDense(h: Heap, o: Addr, k: Key)
    requires WellFormed(h) && o in h.objs
    decreases Rank(h)[o]
  {
    var s := ShapeOf(h, o);
    !s.cls.native || (s.cls.typedArray && TypedArrayKey(k)) || k in s.props ||
    (!OwnHas(h, o, k) &&
     (k in s.cls.resolves || !s.proto.ProtoObj? || (Climb(h, o); NoneDense(h, s.proto.obj, k))))
  }

  /** What an ordinary get of a data property yields; anything that runs code is `None`. */
  ghost function Get(h: Heap, o: Addr, k: Key): Option<Value>
    requires WellFormed(h) && o in h.objs
  {
    match Find(h, o, k)
    case At(x) =>
      if x in h.objs && k in ShapeOf(h, x).props && ShapeOf(h, x).props[k].Data?
      then Some(SlotAt(h.objs[x], ShapeOf(h, x).props[k].slot))
      else if x in h.objs && k !in ShapeOf(h, x).props && k.Index? && k.i in h.objs[x].dense
      then Some(h.objs[x].dense[k.i]) else None
    case Missing => Some(Undefined)
    case Stopped => None
    case Opaque => None
  }

  // ---- the engine's contract -------------------------------------------------------------------

  /** What no structural change of an object undoes. */
  ghost predicate Sticky(s: Shape, n: Shape) {
    && n.cls == s.cls && n.nfixed == s.nfixed
    && (s.usedAsProto ==> n.usedAsProto)
    && (s.teleportOff ==> n.teleportOff)
    && (s.dictionary ==> n.dictionary)
    && (n.extensible ==> s.extensible)
  }

  /** A structural change gives an object another shape, and a dictionary object one never seen before. */
  ghost predicate Reshapes(h: Heap, h': Heap, o: Addr)
    requires WellFormed(h) && WellFormed(h') && o in h.objs && o in h'.objs
  {
    h'.objs[o].shape != h.objs[o].shape ==>
      && Sticky(ShapeOf(h, o), ShapeOf(h', o))
      && (ShapeOf(h, o).dictionary ==> h'.objs[o].shape !in h.shapes)
  }

  /** Shapes and transitions are never changed or forgotten, and every object follows the reshaping rule. */
  ghost predicate Extends(h: Heap, h': Heap)
    requires WellFormed(h) && WellFormed(h')
  {
    && (forall s :: s in h.shapes ==> s in h'.shapes && h'.shapes[s] == h.shapes[s])
    && (forall t :: t in h.trans ==> t in h'.trans && h'.trans[t] == h.trans[t])
    && (forall o :: o in h.objs ==> o in h'.objs && Reshapes(h, h', o))
  }

  ghost predicate Grows(h: Heap, h': Heap) {
    WellFormed(h) && WellFormed(h') && Extends(h, h')
  }

  /** The first native object from `o` up whose shape holds `k`: the walk the engine's shadowing watch makes. */
  ghost function FirstOwner(h: Heap, o: Addr, k: Key): Option<Addr>
    requires WellFormed(h) && o in h.objs
    decreases Rank(h)[o]
  {
    var s := ShapeOf(h, o);
    if !s.cls.native then None
    else if k in s.props then Some(o)
    else if s.proto.ProtoObj? then Climb(h, o); FirstOwner(h, s.proto.obj, k)
    else None
  }

  /** `x` is `o` or above it, over native objects. */
  ghost predicate Above(h: Heap, o: Addr, x: Addr)
    requires WellFormed(h) && o in h.objs
    decreases Rank(h)[o]
  {
    && ShapeOf(h, o).cls.native
    && (x == o || (ShapeOf(h, o).proto.ProtoObj? && (Climb(h, o); Above(h, ShapeOf(h, o).proto.obj, x))))
  }

  /** The teleporting duties towards one used-as-prototype object `m`. A key it gains switches teleporting
      off on the first holder above; a prototype change switches it off from `m` up; a key it loses turns
      it into a dictionary. */
  ghost predicate GainWatched(h: Heap, h': Heap, m: Addr, k: Key)
    requires Grows(h, h') && m in h.objs
  {
    var s, n := ShapeOf(h, m), ShapeOf(h', m);
    k !in s.props && k in n.props && s.proto.ProtoObj? ==>
      (Climb(h, m);
       var owner := FirstOwner(h, s.proto.obj, k);
       owner.Some? && owner.value in h.objs ==> ShapeOf(h', owner.value).teleportOff)
  }

  ghost predicate ShadowWatched(h: Heap, h': Heap, m: Addr, k: Key)
    requires Grows(h, h') && m in h.objs
  {
    var s, n := ShapeOf(h, m), ShapeOf(h', m);
    && GainWatched(h, h', m, k)
    && (k in s.props && k !in n.props ==> n.dictionary && h'.objs[m].shape !in h.shapes)
  }

  ghost predicate ProtoWatched(h: Heap, h': Heap, m: Addr, x: Addr)
    requires Grows(h, h') && m in h.objs && x in h.objs
  {
    ShapeOf(h', m).proto != ShapeOf(h, m).proto && Above(h, m, x) ==> ShapeOf(h', x).teleportOff
  }

  /** The duties towards every used-as-prototype object at once. */
  ghost predicate Watched(h: Heap, h': Heap)
    requires Grows(h, h')
  {
    && (forall m: Addr, k: Key :: m in h.objs && ShapeOf(h, m).usedAsProto && k.Name? ==> ShadowWatched(h, h', m, k))
    && (forall m: Addr, x: Addr :: m in h.objs && x in h.objs && ShapeOf(h, m).usedAsProto ==> ProtoWatched(h, h', m, x))
  }

  /** One step of the engine: any change it may make to the heap, of any number of objects at once. */
  ghost predicate EngineStep(h: Heap, h': Heap) {
    Grows(h, h') && Watched(h, h')
  }

  // ---- lemmas about the lookup -----------------------------------------------------------------

  /** What is known of an object a lookup by name passes on its way to a holder. */
  lemma FindHop(h: Heap, o: Addr, k: Key, x: Addr)
    requires WellFormed(h) && o in h.objs && k.Name? && Find(h, o, k) == At(x)
    ensures ShapeOf(h, o).cls.native && !(ShapeOf(h, o).cls.typedArray && k.numeric)
    ensures o == x <==> k in ShapeOf(h, o).props
    ensures o != x ==>
      && k !in ShapeOf(h, o).cls.resolves && ShapeOf(h, o).proto.ProtoObj?
      && ShapeOf(h, o).proto.obj in h.objs && Find(h, ShapeOf(h, o).proto.obj, k) == At(x)
      && ShapeOf(h, o).proto.obj in Rank(h) && o in Rank(h) && Rank(h)[ShapeOf(h, o).proto.obj] < Rank(h)[o]
      && ShapeOf(h, ShapeOf(h, o).proto.obj).usedAsProto
  {
    if k !in ShapeOf(h, o).props {
      Climb(h, o);
      FindNotBelow(h, ShapeOf(h, o).proto.obj, k, x);
    }
  }

  lemma {:induction false} FindNotBelow(h: Heap, o: Addr, k: Key, x: Addr)
    requires WellFormed(h) && o in h.objs && k.Name? && Find(h, o, k) == At(x)
    ensures x in h.objs && Rank(h)[x] <= Rank(h)[o]
    decreases Rank(h)[o]
  {
    if k !in ShapeOf(h, o).props {
      Climb(h, o);
      FindNotBelow(h, ShapeOf(h, o).proto.obj, k, x);
    }
  }

  /** One level of the walk past an object without the name. */
  lemma FindPast(h: Heap, o: Addr, k: Key)
    requires WellFormed(h) && o in h.objs && k.Name?
    requires ShapeOf(h, o).cls.native && !(ShapeOf(h, o).cls.typedArray && k.numeric)
    requires k !in ShapeOf(h, o).props && k !in ShapeOf(h, o).cls.resolves
    requires ShapeOf(h, o).proto.ProtoObj?
    ensures ShapeOf(h, o).proto.obj in h.objs && Find(h, o, k) == Find(h, ShapeOf(h, o).proto.obj, k)
  {
    Climb(h, o);
  }

  /** The stored walk ends above or at its start. */
  lemma {:induction false} StoredEnds(h: Heap, o: Addr, k: Key)
    requires WellFormed(h) && o in h.objs && FindStored(h, o, k).At?
    ensures var x := FindStored(h, o, k).holder;
      x in h.objs && k in ShapeOf(h, x).props && Rank(h)[x] <= Rank(h)[o]
    decreases Rank(h)[o]
  {
    if k !in ShapeOf(h, o).props {
      Climb(h, o);
      StoredEnds(h, ShapeOf(h, o).proto.obj, k);
    }
  }

  /** The stored walk is the full walk if and only if no passed object has the key as a dense element. For a name
      it always is. */
  lemma {:induction false} StoredIsFull(h: Heap, o: Addr, k: Key)
    requires WellFormed(h) && o in h.objs
    ensures FindStored(h, o, k) == Find(h, o, k) <==> NoneDense(h, o, k)
    ensures k.Name? ==> NoneDense(h, o, k)
    decreases Rank(h)[o]
  {
    var s := ShapeOf(h, o);
    if s.proto.ProtoObj? {
      Climb(h, o);
      StoredIsFull(h, s.proto.obj, k);
      if FindStored(h, s.proto.obj, k).At? {
        StoredEnds(h, s.proto.obj, k);
      }
    }
  }

  /** A lookup by name that ends at a holder passes only native objects without the name, so the engine's
      watch walk ends at the same holder, and the holder is above the start. */
  lemma {:induction false} FindSeen(h: Heap, o: Addr, k: Key, x: Addr)
    requires WellFormed(h) && o in h.objs && k.Name? && Find(h, o, k) == At(x)
    ensures x in h.objs && k in ShapeOf(h, x).props
    ensures FirstOwner(h, o, k) == Some(x)
    ensures Above(h, o, x)
    ensures ShapeOf(h, o).usedAsProto ==> ShapeOf(h, x).usedAsProto
    decreases Rank(h)[o]
  {
    FindHop(h, o, k, x);
    if o != x {
      FindSeen(h, ShapeOf(h, o).proto.obj, k, x);
    }
  }

  /** A hop below a holder that keeps teleporting cannot take the name. */
  lemma HopLacksStill(h: Heap, h': Heap, o: Addr, k: Key, x: Addr)
    requires EngineStep(h, h') && o in h.objs && k.Name? && ShapeOf(h, o).usedAsProto
    requires o != x && Find(h, o, k) == At(x) && x in h.objs && !ShapeOf(h', x).teleportOff
    ensures k !in ShapeOf(h', o).props
  {
    FindHop(h, o, k, x);
    FindSeen(h, ShapeOf(h, o).proto.obj, k, x);
    assert ShadowWatched(h, h', o, k);
  }

  /** Nor can it move to another chain. */
  lemma HopLinksStill(h: Heap, h': Heap, o: Addr, k: Key, x: Addr)
    requires EngineStep(h, h') && o in h.objs && k.Name? && ShapeOf(h, o).usedAsProto
    requires Find(h, o, k) == At(x) && x in h.objs && !ShapeOf(h', x).teleportOff
    ensures ShapeOf(h', o).proto == ShapeOf(h, o).proto
  {
    FindSeen(h, o, k, x);
    assert ProtoWatched(h, h', o, x);
  }

  lemma ClassKept(h: Heap, h': Heap, o: Addr)
    requires Grows(h, h') && o in h.objs
    ensures o in h'.objs && ShapeOf(h', o).cls == ShapeOf(h, o).cls
  {
    assert Reshapes(h, h', o);
  }

  lemma FindOwn(h: Heap, o: Addr, k: Key)
    requires WellFormed(h) && o in h.objs && k in ShapeOf(h, o).props
    requires ShapeOf(h, o).cls.native && !(ShapeOf(h, o).cls.typedArray && TypedArrayKey(k))
    ensures Find(h, o, k) == At(o)
  {
  }

  /** The teleporting theorem. If a holder above a used-as-prototype object still has the name and has not
      lost teleporting over a step, the whole walk up to it still ends at it. */
  lemma {:induction false} Teleport(h: Heap, h': Heap, o: Addr, k: Key, x: Addr)
    requires EngineStep(h, h') && o in h.objs && k.Name?
    requires ShapeOf(h, o).usedAsProto && Find(h, o, k) == At(x)
    requires x in h.objs && !ShapeOf(h', x).teleportOff && k in ShapeOf(h', x).props
    ensures o in h'.objs && Find(h', o, k) == At(x)
    decreases Rank(h)[o]
  {
    FindHop(h, o, k, x);
    ClassKept(h, h', o);
    if o == x {
      FindOwn(h', o, k);
    } else {
      HopLacksStill(h, h', o, k, x);
      HopLinksStill(h, h', o, k, x);
      Teleport(h, h', ShapeOf(h, o).proto.obj, k, x);
      FindPast(h', o, k);
    }
  }
}
