// The read side of the property caches: the populate walks, the rows they leave behind, and the proof that
// a later hit on such a row reads what the full prototype walk would.
module GetCaches {
  import opened Coordinates
  import opened Heap
  import opened Wrappers

  /** One inline get way or mega-get entry. `holderPtr` 0 means the slot is the receiver's own. */
  datatype GetRow = GetRow(key: Key, recvShape: ShapeId, holderPtr: Addr, holderShape: ShapeId, slotEnc: nat)

  /** One guarded-chain entry: the address and shape of every hop from the first prototype on. `slotEnc`
      ABSENT says the property is missing. */
  datatype ChainRow = ChainRow(key: Key, recvShape: ShapeId, ptrs: seq<Addr>, shapes: seq<ShapeId>, slotEnc: nat)

  /** The slot a coordinate names on an object. */
  function SlotEncRead(ob: Object, enc: nat): Option<Value> {
    var idx := SlotEncIndex(enc);
    if SlotEncIsDynamic(enc) then (if idx < |ob.dyn| then Some(ob.dyn[idx]) else None)
    else (if idx < |ob.fixed| then Some(ob.fixed[idx]) else None)
  }

  lemma CoordinateReads(s: Shape, ob: Object, slot: nat)
    requires ObjectOk(s, ob) && ShapeOk(s) && slot < s.span
    ensures SlotEncRead(ob, SlotCoordinate(slot, s.nfixed)) == Some(SlotAt(ob, slot))
    ensures SlotCoordinate(slot, s.nfixed) != ABSENT
  {
    SlotEncRoundTrip(slot >= s.nfixed, if slot >= s.nfixed then slot - s.nfixed else slot);
  }

  /** A shape whose objects a lookup of `k` passes without stopping. */
  predicate Passes(s: Shape, k: Key) {
    && s.cls.native
    && !(s.cls.typedArray && TypedArrayKey(k))
    && k !in s.props
    && k !in s.cls.resolves
  }

  /** A shape whose objects hold `k` in a plain slot at coordinate `enc`. */
  predicate HoldsAt(s: Shape, k: Key, enc: nat) {
    && s.cls.native
    && !(s.cls.typedArray && TypedArrayKey(k))
    && k in s.props && s.props[k].Data?
    && enc == SlotCoordinate(s.props[k].slot, s.nfixed)
  }

  lemma HoldsReads(h: Heap, o: Addr, k: Key, enc: nat)
    requires WellFormed(h) && o in h.objs && HoldsAt(ShapeOf(h, o), k, enc)
    ensures Find(h, o, k) == At(o)
    ensures Get(h, o, k) == SlotEncRead(h.objs[o], enc) && Get(h, o, k).Some? && enc != ABSENT
  {
    assert ShapeOk(ShapeOf(h, o));
    CoordinateReads(ShapeOf(h, o), h.objs[o], ShapeOf(h, o).props[k].slot);
  }

  // ---- get ways and mega-get entries -----------------------------------------------------------

  /** No object from `o` up to the first holder of `k` has lost teleporting. */
  ghost predicate Trusted(h: Heap, o: Addr, k: Key)
    requires WellFormed(h) && o in h.objs
    decreases Rank(h)[o]
  {
    && !ShapeOf(h, o).teleportOff
    && (k in ShapeOf(h, o).props
        || (ShapeOf(h, o).proto.ProtoObj? ==> (Climb(h, o); Trusted(h, ShapeOf(h, o).proto.obj, k))))
  }

  /** What a successful populate records: the receiver's own slot, or the slot of a tenured holder reached
      over prototypes that all keep teleporting. */
  ghost predicate GetFilled(h: Heap, o: Addr, k: Key, row: GetRow)
    requires WellFormed(h) && o in h.objs
  {
    && row.key == k && row.recvShape == h.objs[o].shape
    && FindStored(h, o, k).At?
    && var x := FindStored(h, o, k).holder;
    && x in h.objs && HoldsAt(ShapeOf(h, x), k, row.slotEnc)
    && row.holderShape == h.objs[x].shape
    && if k in ShapeOf(h, o).props then row.holderPtr == 0 else
       && row.holderPtr == x && x !in h.nursery
       && ShapeOf(h, o).proto.ProtoObj? && (Climb(h, o); Trusted(h, ShapeOf(h, o).proto.obj, k))
  }

  /** The inline get populate. It fills exactly when there is such a row to record. */
  method PopulateInlineGetIC(h: Heap, obj: Addr, id: Key) returns (row: Option<GetRow>)
    requires WellFormed(h) && obj in h.objs
    ensures row.Some? ==> GetFilled(h, obj, id, row.value)
    ensures row.None? ==> forall r :: !GetFilled(h, obj, id, r)
  {
    if !ShapeOf(h, obj).cls.native {
      return None;
    }
    var recvShape := h.objs[obj].shape;
    var holder, hops := obj, 0;
    while true
      invariant holder in h.objs
      invariant hops == 0 ==> holder == obj
      invariant FindStored(h, obj, id) == FindStored(h, holder, id)
      invariant hops > 0 ==> Passes(ShapeOf(h, obj), id) && ShapeOf(h, obj).proto.ProtoObj?
      invariant hops > 0 ==> ShapeOf(h, obj).proto.obj in h.objs
      invariant hops > 0 ==> !ShapeOf(h, holder).teleportOff
      invariant hops > 0 ==> (Trusted(h, ShapeOf(h, obj).proto.obj, id) <==> Trusted(h, holder, id))
      decreases Rank(h)[holder]
    {
      var s := ShapeOf(h, holder);
      if !s.cls.native {
        return None;
      }
      if s.cls.typedArray && TypedArrayKey(id) {
        return None;
      }
      if id in s.props {
        if !s.props[id].Data? {
          return None;
        }
        var enc := SlotCoordinate(s.props[id].slot, s.nfixed);
        if hops == 0 {
          return Some(GetRow(id, recvShape, 0, recvShape, enc));
        }
        if holder in h.nursery {
          return None;
        }
        return Some(GetRow(id, recvShape, holder, h.objs[holder].shape, enc));
      }
      if id in s.cls.resolves {
        return None;
      }
      if s.proto.DynamicProto? {
        return None;
      }
      if s.proto.NoProto? {
        return None;
      }
      Climb(h, holder);
      holder := s.proto.obj;
      if ShapeOf(h, holder).teleportOff {
        return None;
      }
      hops := hops + 1;
    }
  }

  /** Once an object lost teleporting, or became a dictionary of another shape, it can never again have the
      shape a row recorded. */
  ghost predicate NeverAgain(h: Heap, x: Addr, shape: ShapeId)
    requires WellFormed(h) && x in h.objs
  {
    ShapeOf(h, x).teleportOff || (ShapeOf(h, x).dictionary && h.objs[x].shape != shape)
  }

  /** What stays true of a row from its fill on: either its holder guard has failed for good, or the walk
      from the receiver shape's prototype still ends at its holder. */
  ghost predicate RowOk(h: Heap, row: GetRow)
    requires WellFormed(h)
  {
    && row.key.Name?
    && row.recvShape in h.shapes
    && var s := h.shapes[row.recvShape];
    && if row.holderPtr == 0 then HoldsAt(s, row.key, row.slotEnc) else
       && Passes(s, row.key) && s.proto.ProtoObj? && s.proto.obj in h.objs
       && row.holderPtr in h.objs && row.holderShape in h.shapes
       && HoldsAt(h.shapes[row.holderShape], row.key, row.slotEnc)
       && !h.shapes[row.holderShape].teleportOff
       && (NeverAgain(h, row.holderPtr, row.holderShape)
           || Find(h, s.proto.obj, row.key) == At(row.holderPtr))
  }

  lemma {:induction false} TrustedHolder(h: Heap, o: Addr, k: Key, x: Addr)
    requires WellFormed(h) && o in h.objs && k.Name? && Trusted(h, o, k) && Find(h, o, k) == At(x)
    ensures x in h.objs && !ShapeOf(h, x).teleportOff
    decreases Rank(h)[o]
  {
    FindHop(h, o, k, x);
    if o != x {
      TrustedHolder(h, ShapeOf(h, o).proto.obj, k, x);
    }
  }

  lemma FilledIsOk(h: Heap, o: Addr, k: Key, row: GetRow)
    requires WellFormed(h) && o in h.objs && k.Name? && GetFilled(h, o, k, row)
    ensures RowOk(h, row)
  {
    StoredIsFull(h, o, k);
    var x := Find(h, o, k).holder;
    if k !in ShapeOf(h, o).props {
      Climb(h, o);
      TrustedHolder(h, ShapeOf(h, o).proto.obj, k, x);
    }
  }

  /** At its fill a row reads what the full walk reads if and only if no passed object has the key as a dense
      element. That is always so for a name; a row for an integer key the receiver has as an element is recorded
      all the same, and serves the holder's slot in its place. */
  lemma FilledReadsWalk(h: Heap, o: Addr, k: Key, row: GetRow)
    requires WellFormed(h) && o in h.objs && GetFilled(h, o, k, row)
    ensures Hits(h, o, row) && ServedBy(o, row) in h.objs
    ensures Find(h, o, k) == At(ServedBy(o, row)) <==> NoneDense(h, o, k)
    ensures k.Name? ==> NoneDense(h, o, k)
    ensures NoneDense(h, o, k) ==> Get(h, o, k) == SlotEncRead(h.objs[ServedBy(o, row)], row.slotEnc)
    ensures k.Index? && row.holderPtr != 0 && k.i in h.objs[o].dense ==> Get(h, o, k) == Some(h.objs[o].dense[k.i])
  {
    StoredIsFull(h, o, k);
    HoldsReads(h, ServedBy(o, row), k, row.slotEnc);
  }

  lemma NeverAgainKept(h: Heap, h': Heap, x: Addr, shape: ShapeId)
    requires Grows(h, h') && x in h.objs && shape in h.shapes && NeverAgain(h, x, shape)
    ensures NeverAgain(h', x, shape)
  {
    assert Reshapes(h, h', x);
  }

  /** The invariant survives every engine step: adds, deletes, redefinitions and prototype changes anywhere,
      including those that take the holder away from its recorded shape and bring it back. */
  lemma RowKept(h: Heap, h': Heap, row: GetRow)
    requires EngineStep(h, h') && RowOk(h, row)
    ensures RowOk(h', row)
  {
    if row.holderPtr != 0 {
      var x, p := row.holderPtr, h.shapes[row.recvShape].proto.obj;
      if NeverAgain(h, x, row.holderShape) {
        NeverAgainKept(h, h', x, row.holderShape);
      } else if !NeverAgain(h', x, row.holderShape) {
        assert ProtoOk(h, h.shapes[row.recvShape]);
        FindSeen(h, p, row.key, x);
        assert ShadowWatched(h, h', x, row.key);
        Teleport(h, h', p, row.key, x);
      }
    }
  }

  /** The guards of a way or mega-get hit. */
  predicate Hits(h: Heap, recv: Addr, row: GetRow) {
    && recv in h.objs && h.objs[recv].shape == row.recvShape
    && (row.holderPtr != 0 ==> row.holderPtr in h.objs && h.objs[row.holderPtr].shape == row.holderShape)
  }

  function ServedBy(recv: Addr, row: GetRow): Addr {
    if row.holderPtr == 0 then recv else row.holderPtr
  }

  /** A hit reads what the full walk reads. */
  lemma HitReadsWalk(h: Heap, recv: Addr, row: GetRow)
    requires WellFormed(h) && RowOk(h, row) && Hits(h, recv, row)
    ensures Get(h, recv, row.key).Some?
    ensures Get(h, recv, row.key) == SlotEncRead(h.objs[ServedBy(recv, row)], row.slotEnc)
  {
    HoldsReads(h, ServedBy(recv, row), row.key, row.slotEnc);
    if row.holderPtr != 0 {
      FindPast(h, recv, row.key);
    }
  }

  // ---- guarded chains --------------------------------------------------------------------------

  /** The shape guarding level `i`: the receiver's, then each hop's. */
  function Level(row: ChainRow, i: nat): ShapeId
    requires i <= |row.shapes|
  {
    if i == 0 then row.recvShape else row.shapes[i - 1]
  }

  /** The object at level `i` when `recv` is the receiver. */
  function Node(recv: Addr, row: ChainRow, i: nat): Addr
    requires i <= |row.ptrs|
  {
    if i == 0 then recv else row.ptrs[i - 1]
  }

  /** A row whose recorded shapes by themselves spell out the walk: every level below the last passes the
      key on to the next recorded pointer, and the last holds it, or passes it at the end of the chain. */
  ghost predicate ChainOk(shapes: map<ShapeId, Shape>, row: ChainRow) {
    && (row.key.Index? ==> row.slotEnc != ABSENT)
    && |row.ptrs| == |row.shapes| >= 1
    && (forall i: nat :: i <= |row.ptrs| ==> Level(row, i) in shapes)
    && (forall i: nat {:trigger row.ptrs[i]} :: i < |row.ptrs| ==>
          Passes(shapes[Level(row, i)], row.key) && shapes[Level(row, i)].proto == ProtoObj(row.ptrs[i]))
    && var last := shapes[Level(row, |row.ptrs|)];
    && if row.slotEnc == ABSENT then Passes(last, row.key) && last.proto.NoProto?
       else HoldsAt(last, row.key, row.slotEnc)
  }

  /** The guards of a guarded-chain hit: the receiver's shape and every hop's live shape. */
  predicate ChainHits(h: Heap, recv: Addr, row: ChainRow) {
    && |row.ptrs| == |row.shapes|
    && recv in h.objs && h.objs[recv].shape == row.recvShape
    && forall i {:trigger row.ptrs[i]} :: 0 <= i < |row.ptrs| ==>
         row.ptrs[i] in h.objs && h.objs[row.ptrs[i]].shape == row.shapes[i]
  }

  /** What the guards and the recorded shapes say of level `i`. */
  lemma LevelHit(h: Heap, recv: Addr, row: ChainRow, i: nat)
    requires WellFormed(h) && ChainOk(h.shapes, row) && ChainHits(h, recv, row) && i <= |row.ptrs|
    ensures var o := Node(recv, row, i);
      && o in h.objs && h.objs[o].shape == Level(row, i)
      && (i < |row.ptrs| ==>
            Passes(ShapeOf(h, o), row.key) && ShapeOf(h, o).proto == ProtoObj(Node(recv, row, i + 1)))
      && (i == |row.ptrs| && row.slotEnc == ABSENT ==>
            Passes(ShapeOf(h, o), row.key) && ShapeOf(h, o).proto.NoProto?)
      && (i == |row.ptrs| && row.slotEnc != ABSENT ==> HoldsAt(ShapeOf(h, o), row.key, row.slotEnc))
  {
    if i > 0 {
      assert row.ptrs[i - 1] in h.objs;
    }
    if i < |row.ptrs| {
      assert row.ptrs[i] in h.objs;
    }
  }

  lemma FindEnd(h: Heap, o: Addr, k: Key)
    requires WellFormed(h) && o in h.objs && k.Name? && Passes(ShapeOf(h, o), k) && ShapeOf(h, o).proto.NoProto?
    ensures Find(h, o, k) == Missing
  {
  }

  lemma {:induction false} ChainFind(h: Heap, recv: Addr, row: ChainRow, i: nat)
    requires WellFormed(h) && ChainOk(h.shapes, row) && ChainHits(h, recv, row) && i <= |row.ptrs|
    ensures Node(recv, row, i) in h.objs
    ensures FindStored(h, Node(recv, row, i), row.key) ==
            if row.slotEnc == ABSENT then Missing else At(row.ptrs[|row.ptrs| - 1])
    decreases |row.ptrs| - i
  {
    LevelHit(h, recv, row, i);
    if i < |row.ptrs| {
      ChainFind(h, recv, row, i + 1);
      StoredPast(h, Node(recv, row, i), row.key);
    }
  }

  /** One level of the stored walk past an object without the key. */
  lemma StoredPast(h: Heap, o: Addr, k: Key)
    requires WellFormed(h) && o in h.objs && Passes(ShapeOf(h, o), k) && ShapeOf(h, o).proto.ProtoObj?
    ensures ShapeOf(h, o).proto.obj in h.objs && FindStored(h, o, k) == FindStored(h, ShapeOf(h, o).proto.obj, k)
  {
    Climb(h, o);
  }

  /** A guarded-chain hit needs no history at all: matching guards alone prove the cached slot is what the
      full walk reads, or that the walk reaches the end of the chain without the property. For an integer key it
      is if and only if no object on the way has the key as a dense element, which no shape guards. */
  lemma ChainHitReadsWalk(h: Heap, recv: Addr, row: ChainRow)
    requires WellFormed(h) && ChainOk(h.shapes, row) && ChainHits(h, recv, row)
    ensures row.slotEnc == ABSENT ==> Get(h, recv, row.key) == Some(Undefined)
    ensures row.key.Name? ==> NoneDense(h, recv, row.key)
    ensures row.slotEnc != ABSENT ==>
      (Find(h, recv, row.key) == At(row.ptrs[|row.ptrs| - 1]) <==> NoneDense(h, recv, row.key))
    ensures row.slotEnc != ABSENT ==> SlotEncRead(h.objs[row.ptrs[|row.ptrs| - 1]], row.slotEnc).Some?
    ensures row.slotEnc != ABSENT && NoneDense(h, recv, row.key) ==>
      Get(h, recv, row.key) == SlotEncRead(h.objs[row.ptrs[|row.ptrs| - 1]], row.slotEnc)
  {
    ChainFind(h, recv, row, 0);
    StoredIsFull(h, recv, row.key);
    if row.slotEnc != ABSENT {
      HoldsReads(h, row.ptrs[|row.ptrs| - 1], row.key, row.slotEnc);
    }
  }

  lemma ChainKept(h: Heap, h': Heap, row: ChainRow)
    requires Grows(h, h') && ChainOk(h.shapes, row)
    ensures ChainOk(h'.shapes, row)
  {
    forall i: nat | i < |row.ptrs|
      ensures Passes(h'.shapes[Level(row, i)], row.key) && h'.shapes[Level(row, i)].proto == ProtoObj(row.ptrs[i])
    {
      assert Level(row, i) in h.shapes;
      assert h.shapes[Level(row, i)].proto == ProtoObj(row.ptrs[i]);
    }
  }

  ghost predicate ChainFilled(h: Heap, o: Addr, k: Key, maxHops: nat, row: ChainRow) {
    && row.key == k && |row.ptrs| <= maxHops
    && ChainOk(h.shapes, row) && ChainHits(h, o, row)
    && (forall i :: 0 <= i < |row.ptrs| ==> row.ptrs[i] !in h.nursery)
    && (row.slotEnc != ABSENT ==> k !in h.shapes[Level(row, |row.ptrs|)].cls.resolves)
  }

  /** The levels below the walk's current object: their guards hold, none has the key, each links to the
      next. A resolve hook is only remembered, not yet refused. */
  ghost predicate Walked(h: Heap, o: Addr, part: ChainRow)
    requires WellFormed(h)
  {
    && ChainHits(h, o, part)
    && (forall i: nat :: i <= |part.ptrs| ==> Level(part, i) in h.shapes)
    && (forall i: nat {:trigger part.ptrs[i]} :: i < |part.ptrs| ==>
          && h.shapes[Level(part, i)].proto == ProtoObj(part.ptrs[i])
          && h.shapes[Level(part, i)].cls.native && part.key !in h.shapes[Level(part, i)].props
          && !(h.shapes[Level(part, i)].cls.typedArray && TypedArrayKey(part.key)))
    && (forall i :: 0 <= i < |part.ptrs| ==> part.ptrs[i] !in h.nursery)
  }

  ghost predicate HookBelow(h: Heap, part: ChainRow, n: nat)
    requires n <= |part.shapes| && forall i: nat :: i < n ==> Level(part, i) in h.shapes
  {
    exists i: nat :: i < n && part.key in h.shapes[Level(part, i)].cls.resolves
  }

  /** Every fillable row agrees with the levels walked so far. */
  ghost predicate Forced(h: Heap, o: Addr, maxHops: nat, part: ChainRow) {
    forall r :: ChainFilled(h, o, part.key, maxHops, r) ==>
      |part.ptrs| <= |r.ptrs| && part.ptrs == r.ptrs[..|part.ptrs|] && part.shapes == r.shapes[..|part.ptrs|]
  }

  function Extended(part: ChainRow, next: Addr, shape: ShapeId): ChainRow {
    part.(ptrs := part.ptrs + [next], shapes := part.shapes + [shape])
  }

  lemma WalkedOneMore(h: Heap, o: Addr, part: ChainRow, holder: Addr)
    requires WellFormed(h) && Walked(h, o, part) && holder in h.objs && holder == Node(o, part, |part.ptrs|)
    requires var s := ShapeOf(h, holder);
      s.cls.native && !(s.cls.typedArray && TypedArrayKey(part.key)) && part.key !in s.props && s.proto.ProtoObj?
    requires ShapeOf(h, holder).proto.obj in h.objs && ShapeOf(h, holder).proto.obj !in h.nursery
    ensures var next := ShapeOf(h, holder).proto.obj;
      var more := Extended(part, next, h.objs[next].shape);
      Walked(h, o, more) && next == Node(o, more, |more.ptrs|)
  {
    var next := ShapeOf(h, holder).proto.obj;
    var more := Extended(part, next, h.objs[next].shape);
    assert forall i: nat :: i <= |part.ptrs| ==> Level(more, i) == Level(part, i);
    assert Level(more, |part.ptrs|) == h.objs[holder].shape;
    forall i: nat | i < |more.ptrs|
      ensures h.shapes[Level(more, i)].proto == ProtoObj(more.ptrs[i])
      ensures h.shapes[Level(more, i)].cls.native && part.key !in h.shapes[Level(more, i)].props
      ensures !(h.shapes[Level(more, i)].cls.typedArray && TypedArrayKey(part.key))
    {
      if i < |part.ptrs| {
        assert more.ptrs[i] == part.ptrs[i];
      }
    }
  }

  lemma HookOneMore(h: Heap, o: Addr, part: ChainRow, holder: Addr, more: ChainRow)
    requires Shaped(h, part) && |part.ptrs| == |part.shapes| && holder in h.objs && h.objs[holder].shape in h.shapes
    requires Level(part, |part.ptrs|) == h.objs[holder].shape && Shaped(h, more)
    requires |more.shapes| == |part.shapes| + 1 && more.key == part.key
    requires more.recvShape == part.recvShape && more.shapes[..|part.shapes|] == part.shapes
    ensures HookBelow(h, more, |more.shapes|) <==>
      HookBelow(h, part, |part.shapes|) || part.key in ShapeOf(h, holder).cls.resolves
  {
    var n := |part.shapes|;
    assert forall i: nat :: i <= n ==> Level(more, i) == Level(part, i);
    if HookBelow(h, part, n) {
      var i: nat :| i < n && part.key in h.shapes[Level(part, i)].cls.resolves;
      assert more.key in h.shapes[Level(more, i)].cls.resolves;
    }
    if part.key in ShapeOf(h, holder).cls.resolves {
      assert more.key in h.shapes[Level(more, n)].cls.resolves;
    }
  }

  /** Every recorded level is a shape of the heap. */
  ghost predicate Shaped(h: Heap, part: ChainRow) {
    forall i: nat :: i <= |part.shapes| ==> Level(part, i) in h.shapes
  }

  /** A fillable row meets the walk's current object at the same level, so it has to treat it the same way. */
  lemma ForcedHere(h: Heap, o: Addr, maxHops: nat, part: ChainRow, holder: Addr, r: ChainRow)
    requires WellFormed(h) && Walked(h, o, part) && Forced(h, o, maxHops, part)
    requires holder in h.objs && holder == Node(o, part, |part.ptrs|)
    requires ChainFilled(h, o, part.key, maxHops, r)
    ensures |part.ptrs| <= |r.ptrs| && Node(o, r, |part.ptrs|) == holder
    ensures |part.ptrs| < |r.ptrs| ==>
      && Passes(ShapeOf(h, holder), part.key)
      && ShapeOf(h, holder).proto == ProtoObj(r.ptrs[|part.ptrs|])
      && r.ptrs[|part.ptrs|] in h.objs && r.ptrs[|part.ptrs|] !in h.nursery
      && r.shapes[|part.ptrs|] == h.objs[r.ptrs[|part.ptrs|]].shape
    ensures |part.ptrs| == |r.ptrs| && r.slotEnc == ABSENT ==>
      Passes(ShapeOf(h, holder), part.key) && ShapeOf(h, holder).proto.NoProto?
    ensures |part.ptrs| == |r.ptrs| && r.slotEnc != ABSENT ==>
      HoldsAt(ShapeOf(h, holder), part.key, r.slotEnc) && part.key !in ShapeOf(h, holder).cls.resolves
    ensures !HookBelow(h, part, |part.ptrs|)
  {
    var n := |part.ptrs|;
    assert part.ptrs == r.ptrs[..n] && part.shapes == r.shapes[..n];
    LevelHit(h, o, r, n);
    forall i: nat | i < n
      ensures part.key !in h.shapes[Level(part, i)].cls.resolves
    {
      LevelHit(h, o, r, i);
      assert Level(part, i) == Level(r, i);
    }
  }

  lemma ForcedOneMore(h: Heap, o: Addr, maxHops: nat, part: ChainRow, holder: Addr)
    requires WellFormed(h) && Walked(h, o, part) && Forced(h, o, maxHops, part)
    requires holder in h.objs && holder == Node(o, part, |part.ptrs|)
    requires part.key !in ShapeOf(h, holder).props && ShapeOf(h, holder).proto.ProtoObj?
    requires ShapeOf(h, holder).proto.obj in h.objs
    ensures var next := ShapeOf(h, holder).proto.obj;
      Forced(h, o, maxHops, Extended(part, next, h.objs[next].shape))
  {
    var next := ShapeOf(h, holder).proto.obj;
    var more := Extended(part, next, h.objs[next].shape);
    forall r | ChainFilled(h, o, part.key, maxHops, r)
      ensures |more.ptrs| <= |r.ptrs| && more.ptrs == r.ptrs[..|more.ptrs|] && more.shapes == r.shapes[..|more.ptrs|]
    {
      ForcedHere(h, o, maxHops, part, holder, r);
      PrefixGrows(r.ptrs, part.ptrs, next);
      PrefixGrows(r.shapes, part.shapes, h.objs[next].shape);
    }
  }

  lemma PrefixGrows<T>(s: seq<T>, p: seq<T>, x: T)
    requires |p| < |s| && p == s[..|p|] && s[|p|] == x
    ensures p + [x] == s[..|p| + 1]
  {
  }

  /** Why the walk may give up at an object of shape `s`. */
  predicate GivesUp(s: Shape, part: ChainRow, hookBelow: bool, maxHops: nat, nursery: set<Addr>) {
    || hookBelow
    || !s.cls.native
    || (s.cls.typedArray && TypedArrayKey(part.key))
    || s.proto.DynamicProto?
    || (part.key in s.props && (part.ptrs == [] || !s.props[part.key].Data? || part.key in s.cls.resolves))
    || (part.key !in s.props && s.proto.NoProto? && (part.ptrs == [] || part.key.Index? || part.key in s.cls.resolves))
    || (part.key !in s.props && s.proto.ProtoObj? && (|part.ptrs| >= maxHops || s.proto.obj in nursery))
  }

  /** Giving up is always justified: no fillable row can have the object at this level. */
  lemma NothingToFill(h: Heap, o: Addr, maxHops: nat, part: ChainRow, holder: Addr)
    requires WellFormed(h) && Walked(h, o, part) && Forced(h, o, maxHops, part)
    requires holder in h.objs && holder == Node(o, part, |part.ptrs|)
    requires GivesUp(ShapeOf(h, holder), part, HookBelow(h, part, |part.ptrs|), maxHops, h.nursery)
    ensures forall r :: !ChainFilled(h, o, part.key, maxHops, r)
  {
    forall r
      ensures !ChainFilled(h, o, part.key, maxHops, r)
    {
      if ChainFilled(h, o, part.key, maxHops, r) {
        assert ShapeOk(ShapeOf(h, holder));
        ForcedHere(h, o, maxHops, part, holder, r);
      }
    }
  }

  /** Stopping at a holder, or at the end of the chain, leaves a row to fill. */
  lemma EndIsFilled(h: Heap, o: Addr, maxHops: nat, part: ChainRow, holder: Addr, enc: nat)
    requires WellFormed(h) && Walked(h, o, part) && 1 <= |part.ptrs| <= maxHops
    requires holder in h.objs && holder == Node(o, part, |part.ptrs|) && (part.key.Index? ==> enc != ABSENT)
    requires !HookBelow(h, part, |part.ptrs|) && part.key !in ShapeOf(h, holder).cls.resolves
    requires if enc == ABSENT then Passes(ShapeOf(h, holder), part.key) && ShapeOf(h, holder).proto.NoProto?
             else HoldsAt(ShapeOf(h, holder), part.key, enc)
    ensures ChainFilled(h, o, part.key, maxHops, part.(slotEnc := enc))
  {
    var row := part.(slotEnc := enc);
    assert forall i: nat :: i <= |part.ptrs| ==> Level(row, i) == Level(part, i);
    assert Level(part, |part.ptrs|) == h.objs[holder].shape;
    forall i: nat | i < |row.ptrs|
      ensures Passes(h.shapes[Level(row, i)], row.key) && h.shapes[Level(row, i)].proto == ProtoObj(row.ptrs[i])
    {
      assert part.ptrs[i] !in h.nursery;
    }
  }

  lemma SlotNotAbsent(h: Heap, o: Addr, k: Key)
    requires WellFormed(h) && o in h.objs && k in ShapeOf(h, o).props && ShapeOf(h, o).props[k].Data?
    ensures SlotCoordinate(ShapeOf(h, o).props[k].slot, ShapeOf(h, o).nfixed) != ABSENT
  {
    assert ShapeOk(ShapeOf(h, o));
    CoordinateReads(ShapeOf(h, o), h.objs[o], ShapeOf(h, o).props[k].slot);
  }

  /** The guarded-chain populate. It fills exactly when there is such a row to record, and never proves an
      integer key missing. */
  method PopulateGuardedChain(h: Heap, obj: Addr, id: Key, maxHops: nat) returns (row: Option<ChainRow>)
    requires WellFormed(h) && obj in h.objs
    ensures row.Some? ==> ChainFilled(h, obj, id, maxHops, row.value) && (id.Index? ==> row.value.slotEnc != ABSENT)
    ensures row.None? ==> forall r :: !ChainFilled(h, obj, id, maxHops, r)
  {
    var part := ChainRow(id, h.objs[obj].shape, [], [], ABSENT);
    var holder, sawResolveHook := obj, false;
    while true
      invariant part.key == id && part.slotEnc == ABSENT
      invariant holder in h.objs && |part.ptrs| == |part.shapes| && |part.ptrs| <= maxHops
      invariant holder == Node(obj, part, |part.ptrs|)
      invariant Walked(h, obj, part) && Forced(h, obj, maxHops, part)
      invariant sawResolveHook <==> HookBelow(h, part, |part.ptrs|)
      decreases Rank(h)[holder]
    {
      var s := ShapeOf(h, holder);
      if GivesUp(s, part, sawResolveHook, maxHops, h.nursery) {
        NothingToFill(h, obj, maxHops, part, holder);
      }
      if !s.cls.native {
        return None;
      }
      if s.cls.typedArray && TypedArrayKey(id) {
        return None;
      }
      sawResolveHook := sawResolveHook || id in s.cls.resolves;
      if id in s.props {
        if part.ptrs == [] {
          return None;
        }
        if sawResolveHook {
          return None;
        }
        if !s.props[id].Data? {
          return None;
        }
        var enc := SlotCoordinate(s.props[id].slot, s.nfixed);
        SlotNotAbsent(h, holder, id);
        EndIsFilled(h, obj, maxHops, part, holder, enc);
        return Some(part.(slotEnc := enc));
      }
      if s.proto.DynamicProto? {
        return None;
      }
      if s.proto.NoProto? {
        if part.ptrs == [] || sawResolveHook || id.Index? {
          return None;
        }
        EndIsFilled(h, obj, maxHops, part, holder, ABSENT);
        return Some(part);
      }
      Climb(h, holder);
      if |part.ptrs| == maxHops {
        return None;
      }
      if s.proto.obj in h.nursery {
        return None;
      }
      WalkedOneMore(h, obj, part, holder);
      ForcedOneMore(h, obj, maxHops, part, holder);
      HookOneMore(h, obj, part, holder, Extended(part, s.proto.obj, h.objs[s.proto.obj].shape));
      part := Extended(part, s.proto.obj, h.objs[s.proto.obj].shape);
      holder := s.proto.obj;
    }
  }

  // ---- whole runs ------------------------------------------------------------------------------

  /** The heap and every row in the ways, the mega-get table and the guarded-chain table. */
  datatype State = State(heap: Heap, rows: set<GetRow>, chains: set<ChainRow>)

  const MAX_HOPS: nat := 4

  /** An engine step, or the fill of one row. Rows may be overwritten or dropped at any time. */
  ghost predicate Next(s: State, t: State) {
    || (EngineStep(s.heap, t.heap) && t.rows <= s.rows && t.chains <= s.chains)
    || (exists o: Addr, k: Key, row ::
          && WellFormed(s.heap) && t.heap == s.heap && o in s.heap.objs && k.Name?
          && GetFilled(s.heap, o, k, row) && t.rows <= s.rows + {row} && t.chains <= s.chains)
    || (exists o: Addr, k: Key, row ::
          && WellFormed(s.heap) && t.heap == s.heap && o in s.heap.objs
          && ChainFilled(s.heap, o, k, MAX_HOPS, row) && t.rows <= s.rows && t.chains <= s.chains + {row})
  }

  ghost predicate Run(states: seq<State>) {
    && |states| > 0
    && WellFormed(states[0].heap) && states[0].rows == {} && states[0].chains == {}
    && forall i :: 0 <= i < |states| - 1 ==> Next(states[i], states[i + 1])
  }

  ghost predicate StateOk(s: State) {
    && WellFormed(s.heap)
    && (forall row :: row in s.rows ==> RowOk(s.heap, row))
    && (forall row :: row in s.chains ==> ChainOk(s.heap.shapes, row))
  }

  lemma StepKeepsOk(s: State, t: State)
    requires StateOk(s) && Next(s, t)
    ensures StateOk(t)
  {
    if EngineStep(s.heap, t.heap) && t.rows <= s.rows && t.chains <= s.chains {
      forall row | row in t.rows ensures RowOk(t.heap, row) { RowKept(s.heap, t.heap, row); }
      forall row | row in t.chains ensures ChainOk(t.heap.shapes, row) { ChainKept(s.heap, t.heap, row); }
    } else {
      forall o: Addr, k: Key, row | o in s.heap.objs && k.Name? && GetFilled(s.heap, o, k, row)
        ensures RowOk(s.heap, row)
      {
        FilledIsOk(s.heap, o, k, row);
      }
    }
  }

  lemma {:induction false} RunKeepsOk(states: seq<State>, i: nat)
    requires Run(states) && i < |states|
    ensures StateOk(states[i])
  {
    if i > 0 {
      RunKeepsOk(states, i - 1);
      StepKeepsOk(states[i - 1], states[i]);
    }
  }

  /** Every row whose guards pass, on any receiver and over a chain of any length, reads exactly what the full
      walk reads; a chain row for an integer key does wherever no object on the way has the key as an element. */
  ghost predicate Coherent(s: State) {
    && WellFormed(s.heap)
    && (forall row, recv :: row in s.rows && Hits(s.heap, recv, row) ==>
          && Get(s.heap, recv, row.key).Some?
          && Get(s.heap, recv, row.key) == SlotEncRead(s.heap.objs[ServedBy(recv, row)], row.slotEnc))
    && (forall row, recv ::
          row in s.chains && ChainHits(s.heap, recv, row) && (row.key.Name? || NoneDense(s.heap, recv, row.key)) ==>
          Get(s.heap, recv, row.key) ==
            if row.slotEnc == ABSENT then Some(Undefined)
            else if row.ptrs == [] then None
            else SlotEncRead(s.heap.objs[row.ptrs[|row.ptrs| - 1]], row.slotEnc))
  }

  /** Get-cache coherence, at every point of every run. */
  lemma GetCachesCoherent(states: seq<State>, i: nat)
    requires Run(states) && i < |states|
    ensures Coherent(states[i])
  {
    RunKeepsOk(states, i);
    var h := states[i].heap;
    forall row, recv | row in states[i].rows && Hits(h, recv, row)
      ensures Get(h, recv, row.key).Some?
        && Get(h, recv, row.key) == SlotEncRead(h.objs[ServedBy(recv, row)], row.slotEnc)
    {
      HitReadsWalk(h, recv, row);
    }
    forall row, recv |
      row in states[i].chains && ChainHits(h, recv, row) && (row.key.Name? || NoneDense(h, recv, row.key))
      ensures row.ptrs != [] && Get(h, recv, row.key) == if row.slotEnc == ABSENT then Some(Undefined)
        else SlotEncRead(h.objs[row.ptrs[|row.ptrs| - 1]], row.slotEnc)
    {
      ChainHitReadsWalk(h, recv, row);
    }
  }

  /** The leaf probes of the get miss helper: the mega entry first, then the guarded chain. Whatever they
      answer for a name is the full get. `noted` is the coordinate handed on to a free inline way. */
  method TryLeafGetProbes(s: State, recv: Addr, id: Key, mega: Option<GetRow>, chain: Option<ChainRow>)
    returns (hit: Option<Value>, noted: Option<GetRow>)
    requires StateOk(s) && recv in s.heap.objs
    requires mega.Some? ==> mega.value in s.rows
    requires chain.Some? ==> chain.value in s.chains
    ensures hit.Some? && (id.Name? || NoneDense(s.heap, recv, id)) ==> hit == Get(s.heap, recv, id)
    ensures noted == if mega.Some? && mega.value.key == id && Hits(s.heap, recv, mega.value) then mega else None
    ensures hit.Some? <==>
      || (mega.Some? && mega.value.key == id && Hits(s.heap, recv, mega.value))
      || (chain.Some? && chain.value.key == id && ChainHits(s.heap, recv, chain.value))
  {
    var shape := s.heap.objs[recv].shape;
    hit, noted := None, None;
    if mega.Some? && mega.value.recvShape == shape && mega.value.key == id {
      var e := mega.value;
      var holder, holderOk := recv, true;
      if e.holderPtr != 0 {
        holder := e.holderPtr;
        holderOk := s.heap.objs[holder].shape == e.holderShape;
      }
      if holderOk {
        HitReadsWalk(s.heap, recv, e);
        hit, noted := SlotEncRead(s.heap.objs[holder], e.slotEnc), Some(e);
        return;
      }
    }
    if chain.Some? && chain.value.recvShape == shape && chain.value.key == id {
      var g := chain.value;
      var ok, hop := true, 0;
      while hop < |g.ptrs|
        invariant 0 <= hop <= |g.ptrs| && ok
        invariant forall i {:trigger g.ptrs[i]} :: 0 <= i < hop ==>
          g.ptrs[i] in s.heap.objs && s.heap.objs[g.ptrs[i]].shape == g.shapes[i]
      {
        if g.ptrs[hop] !in s.heap.objs || s.heap.objs[g.ptrs[hop]].shape != g.shapes[hop] {
          ok := false;
          break;
        }
        hop := hop + 1;
      }
      if ok {
        ChainHitReadsWalk(s.heap, recv, g);
        if g.slotEnc == ABSENT {
          hit := Some(Undefined);
        } else {
          hit := SlotEncRead(s.heap.objs[g.ptrs[|g.ptrs| - 1]], g.slotEnc);
        }
      }
    }
  }
}
