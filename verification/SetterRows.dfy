// Add-transition rows the populate should not have accepted: the set that filled them ran a setter.
module SetterRows {
  import opened Heap
  import opened SetCaches
  import opened Wrappers

  const ANY_NAME := Name(7, false)

  function PlainShape(proto: Proto): Shape {
    Shape(map[], None, 0, 1, proto, Class(true, false, false, {}), false, true, false, false, false, false)
  }

  /** Objects 10 and 11 share a shape whose prototype, object 20, has a setter for the name. In `ran`, the
      setter has been run on object 10 and has defined the name there as a plain property. */
  function SetterHeap(ran: bool): Heap {
    var plain := PlainShape(ProtoObj(20));
    Heap(
      map[1 := plain, 2 := Child(plain, ANY_NAME),
          3 := PlainShape(NoProto).(props := map[ANY_NAME := Accessor], usedAsProto := true)],
      map[10 := Object(if ran then 2 else 1, [Undefined], [], map[]),
          11 := Object(1, [Undefined], [], map[]),
          20 := Object(3, [Undefined], [], map[])],
      map[(1, ANY_NAME) := 2],
      {})
  }

  lemma SetterShapesOk(ran: bool)
    ensures var h := SetterHeap(ran);
      && (forall s :: s in h.shapes ==> ShapeOk(h.shapes[s]))
      && (forall o :: o in h.objs ==> h.objs[o].shape in h.shapes && ObjectOk(h.shapes[h.objs[o].shape], h.objs[o]))
  {
  }

  lemma SetterLinksOk(ran: bool)
    ensures var h := SetterHeap(ran);
      (forall s {:trigger ProtoOk(h, h.shapes[s])} :: s in h.shapes ==> ProtoOk(h, h.shapes[s])) && Acyclic(h)
  {
    var h := SetterHeap(ran);
    assert ProtoOk(h, h.shapes[1]) && ProtoOk(h, h.shapes[2]) && ProtoOk(h, h.shapes[3]);
    var rank: map<Addr, nat> := map[10 := 1, 11 := 1, 20 := 0];
    forall o, p | Links(h, o, p) && p in h.objs && p in rank && o in rank ensures rank[p] < rank[o] {
      assert o != 20 && p == 20;
    }
    assert Ranked(h, rank);
  }

  lemma SetterHeapOk(ran: bool)
    ensures WellFormed(SetterHeap(ran))
  {
    var h := SetterHeap(ran);
    SetterShapesOk(ran);
    SetterLinksOk(ran);
    forall s, k | (s, k) in h.trans ensures TransOk(h, s, k) {
      assert s == 1 && k == ANY_NAME;
    }
  }

  lemma SetterDecides(ran: bool, o: Addr)
    requires o == if ran then 11 else 10
    ensures WellFormed(SetterHeap(ran)) && Decide(SetterHeap(ran), o, ANY_NAME) == RunSetter
  {
    SetterHeapOk(ran);
    FindPast(SetterHeap(ran), o, ANY_NAME);
    FindOwn(SetterHeap(ran), 20, ANY_NAME);
  }

  const SETTER_ROW := AddRow(ANY_NAME, 1, 2, 0, [20], [3])

  lemma SetterRowFilled(h: Heap)
    requires h == SetterHeap(true) && WellFormed(h)
    ensures AddFilled(h, 10, ANY_NAME, 1, SpanIfShared(PlainShape(ProtoObj(20))), SETTER_ROW)
    ensures AddRowSeen(h.shapes, SETTER_ROW) && IsTransition(h, SETTER_ROW) && AddGuards(h, 11, SETTER_ROW)
  {
    assert ChainIs(h, NoProto, [], []);
    assert ChainIs(h, ProtoObj(20), [20], [3]);
  }

  /** The populate accepts a row although the set that filled it ran a setter: the setter defined the very
      property on its receiver, so the new shape looks like a plain add. The guards then hold on any other
      object of the old shape, where the ordinary set runs the setter and the replay does not. */
  lemma SetterRowAccepted(before: Heap, h: Heap, v: Value, capacity: nat)
    requires before == SetterHeap(false) && h == SetterHeap(true) && v != Uninit && capacity >= 1
    ensures WellFormed(before) && Decide(before, 10, ANY_NAME) == RunSetter
    ensures WellFormed(h) && AddFilled(h, 10, ANY_NAME, 1, SpanIfShared(PlainShape(ProtoObj(20))), SETTER_ROW)
    ensures AddRowSeen(h.shapes, SETTER_ROW) && IsTransition(h, SETTER_ROW) && AddGuards(h, 11, SETTER_ROW)
    ensures Fits(h, SETTER_ROW, capacity)
    ensures Decide(h, 11, ANY_NAME) == RunSetter && !ReplayAgrees(h, 11, SETTER_ROW, v, capacity)
  {
    SetterDecides(false, 10);
    SetterDecides(true, 11);
    SetterRowFilled(h);
  }

  // ---- a setter that removes itself ------------------------------------------------------------

  const LOST := Name(1, false)
  const GAINED := Name(2, false)
  const TWO_SLOTS := PlainShape(ProtoObj(20)).(nfixed := 2)
  const OLD_SHAPE := Child(TWO_SLOTS, LOST)
  const MID_SHAPE := Child(TWO_SLOTS, GAINED)
  const NEW_SHAPE := Child(MID_SHAPE, ANY_NAME)
  const BARE_PROTO := PlainShape(NoProto).(usedAsProto := true)
  const SETTER_PROTO := BARE_PROTO.(props := map[ANY_NAME := Accessor])
  const EMPTIED_PROTO := BARE_PROTO.(dictionary := true)

  /** Objects 10 and 11 share a shape with one property; prototype 20 has a setter for another name. */
  function BeforeRemoval(): Heap {
    Heap(map[1 := OLD_SHAPE, 5 := SETTER_PROTO],
         map[10 := Object(1, [Bits(1), Uninit], [], map[]), 11 := Object(1, [Bits(1), Uninit], [], map[]),
             20 := Object(5, [Undefined], [], map[])],
         map[], {})
  }

  /** A set of that name on object 10 ran the setter, which deleted itself from the prototype, deleted the
      receiver's property, and added a different one and the set's own name. */
  function AfterRemoval(): Heap {
    Heap(map[1 := OLD_SHAPE, 5 := SETTER_PROTO, 2 := MID_SHAPE, 3 := NEW_SHAPE, 6 := EMPTIED_PROTO],
         map[10 := Object(3, [Bits(2), Bits(3)], [], map[]), 11 := Object(1, [Bits(1), Uninit], [], map[]),
             20 := Object(6, [Undefined], [], map[])],
         map[(2, ANY_NAME) := 3], {})
  }

  const REMOVED_ROW := AddRow(ANY_NAME, 1, 3, 1, [20], [6])

  lemma BeforeRemovalOk()
    ensures WellFormed(BeforeRemoval())
  {
    BeforePartsOk();
    RemovalRanked(BeforeRemoval());
  }

  lemma BeforePartsOk()
    ensures var h := BeforeRemoval();
      && (forall s :: s in h.shapes ==> ShapeOk(h.shapes[s]))
      && (forall s {:trigger ProtoOk(h, h.shapes[s])} :: s in h.shapes ==> ProtoOk(h, h.shapes[s]))
      && (forall o :: o in h.objs ==> h.objs[o].shape in h.shapes && ObjectOk(h.shapes[h.objs[o].shape], h.objs[o]))
  {
  }

  lemma AfterRemovalOk()
    ensures WellFormed(AfterRemoval())
  {
    AfterShapesOk();
    AfterObjectsOk();
    AfterProtosOk();
    RemovalRanked(AfterRemoval());
  }

  lemma AfterProtosOk()
    ensures var h := AfterRemoval();
      && (forall s {:trigger ProtoOk(h, h.shapes[s])} :: s in h.shapes ==> ProtoOk(h, h.shapes[s]))
      && (forall s, k {:trigger TransOk(h, s, k)} :: (s, k) in h.trans ==> TransOk(h, s, k))
  {
  }

  lemma AfterShapesOk()
    ensures forall s :: s in AfterRemoval().shapes ==> ShapeOk(AfterRemoval().shapes[s])
  {
  }

  lemma AfterObjectsOk()
    ensures var h := AfterRemoval();
      forall o :: o in h.objs ==> h.objs[o].shape in h.shapes && ObjectOk(h.shapes[h.objs[o].shape], h.objs[o])
  {
  }

  lemma RemovalRanked(h: Heap)
    requires h == BeforeRemoval() || h == AfterRemoval()
    ensures Acyclic(h)
  {
    var rank: map<Addr, nat> := map[10 := 1, 11 := 1, 20 := 0];
    forall o, p | Links(h, o, p) && p in h.objs && p in rank && o in rank ensures rank[p] < rank[o] {
      assert o != 20 && p == 20;
    }
    assert Ranked(h, rank);
  }

  lemma RemovalTables(h0: Heap, h: Heap)
    requires h0 == BeforeRemoval() && h == AfterRemoval()
    ensures TablesGrow(h0, h) && h0.objs.Keys == h.objs.Keys
  {
    assert h0.objs.Keys == {10, 11, 20} && h.objs.Keys == {10, 11, 20};
  }

  lemma RemovalShapes(h0: Heap, h: Heap, o: Addr)
    requires h0 == BeforeRemoval() && h == AfterRemoval() && o in h0.objs
    requires h0.objs[o].shape in h0.shapes && o in h.objs && h.objs[o].shape in h.shapes
    ensures ShapeOf(h, o) == ShapeOf(h0, o) || Stays(ShapeOf(h0, o), ShapeOf(h, o))
    ensures !ShapeOf(h0, o).dictionary
    ensures ShapeOf(h0, o).usedAsProto ==>
      && ShapeOf(h, o).proto == ShapeOf(h0, o).proto && ShapeOf(h, o).props == map[]
      && ShapeOf(h, o).dictionary && h.objs[o].shape !in h0.shapes
  {
    assert o == 10 || o == 11 || o == 20;
  }

  /** All of that is one step the engine's contract allows: the prototype lost a name, so it is a dictionary. */
  lemma RemovalSteps(h0: Heap, h: Heap)
    requires h0 == BeforeRemoval() && h == AfterRemoval() && WellFormed(h0) && WellFormed(h)
    ensures Extends(h0, h) && Watched(h0, h)
  {
    RemovalTables(h0, h);
    forall o | o in h0.objs
      ensures ShapeOf(h, o) == ShapeOf(h0, o) || Stays(ShapeOf(h0, o), ShapeOf(h, o))
      ensures !ShapeOf(h0, o).dictionary
      ensures ShapeOf(h0, o).usedAsProto ==>
        && ShapeOf(h, o).proto == ShapeOf(h0, o).proto && ShapeOf(h, o).props == map[]
        && ShapeOf(h, o).dictionary && h.objs[o].shape !in h0.shapes
    {
      RemovalShapes(h0, h, o);
    }
    StaysExtends(h0, h);
    LossesWatched(h0, h);
  }

  /** A shape that keeps every sticky flag and the prototype, and is not yet a dictionary. */
  predicate Stays(s: Shape, n: Shape) {
    && n.cls == s.cls && n.nfixed == s.nfixed && n.usedAsProto == s.usedAsProto && n.teleportOff == s.teleportOff
    && n.extensible == s.extensible && n.proto == s.proto && !s.dictionary
  }

  ghost predicate TablesGrow(h: Heap, h': Heap) {
    && (forall s :: s in h.shapes ==> s in h'.shapes && h'.shapes[s] == h.shapes[s])
    && (forall t :: t in h.trans ==> t in h'.trans && h'.trans[t] == h.trans[t])
  }

  lemma StaysExtends(h: Heap, h': Heap)
    requires WellFormed(h) && WellFormed(h') && TablesGrow(h, h') && h.objs.Keys == h'.objs.Keys
    requires forall o :: o in h.objs ==> ShapeOf(h', o) == ShapeOf(h, o) || Stays(ShapeOf(h, o), ShapeOf(h', o))
    requires forall o :: o in h.objs && ShapeOf(h, o).dictionary ==> h'.objs[o].shape == h.objs[o].shape
    ensures Extends(h, h')
  {
    forall o | o in h.objs ensures o in h'.objs && Reshapes(h, h', o) {
    }
  }

  /** Losing every name as a fresh dictionary, with the prototype kept, is all the engine owes. */
  lemma LossesWatched(h: Heap, h': Heap)
    requires Grows(h, h')
    requires forall o :: o in h.objs && ShapeOf(h, o).usedAsProto ==>
      && ShapeOf(h', o).proto == ShapeOf(h, o).proto && ShapeOf(h', o).props == map[]
      && ShapeOf(h', o).dictionary && h'.objs[o].shape !in h.shapes
    ensures Watched(h, h')
  {
  }

  lemma SetRanSetter(h: Heap)
    requires h == BeforeRemoval() && WellFormed(h)
    ensures Decide(h, 10, ANY_NAME) == RunSetter
  {
    FindPast(h, 10, ANY_NAME);
    FindOwn(h, 20, ANY_NAME);
  }

  lemma SetNowAdds(h: Heap)
    requires h == AfterRemoval() && WellFormed(h)
    ensures Decide(h, 11, ANY_NAME) == AddOwn
  {
    FindPast(h, 11, ANY_NAME);
    GetCaches.FindEnd(h, 20, ANY_NAME);
  }

  lemma RemovedChain(h: Heap)
    requires h == AfterRemoval()
    ensures ChainIs(h, ProtoObj(20), [20], [6]) && AllNative(h.shapes, [6])
    ensures ChainDecision(h.shapes, ANY_NAME, [6]) == AddOwn
  {
    assert ChainIs(h, NoProto, [], []);
    assert ChainDecision(h.shapes, ANY_NAME, []) == AddOwn;
    assert [6][1..] == [];
  }

  /** The span grew by one and the last property is the set's own, so the populate accepts the row. */
  lemma RemovedRowFilled(h: Heap)
    requires h == AfterRemoval() && WellFormed(h)
    ensures AddFilled(h, 10, ANY_NAME, 1, SpanIfShared(OLD_SHAPE), REMOVED_ROW)
  {
    RemovedChain(h);
  }

  lemma RemovedRowReplays(h: Heap, v: Value, capacity: nat)
    requires h == AfterRemoval() && v != Uninit
    ensures AddGuards(h, 11, REMOVED_ROW) && Fits(h, REMOVED_ROW, capacity) && !IsTransition(h, REMOVED_ROW)
    ensures InRange(h, 11, REMOVED_ROW, capacity)
    ensures SlotAt(Replayed(h, 11, REMOVED_ROW, v, capacity).objs[11], NEW_SHAPE.props[GAINED].slot)
      == SlotAt(h.objs[11], OLD_SHAPE.props[LOST].slot)
  {
    RemovedChain(h);
  }

  /** The second way a setter's row fails. The prototype no longer has the setter, so the recorded chain decides
      for an add, and so does the ordinary set. But the row is no transition: replayed on object 11 it turns the
      value of one property into that of another. */
  lemma RemovedRowDisagrees(h: Heap, v: Value, capacity: nat)
    requires h == AfterRemoval() && WellFormed(h) && v != Uninit
    ensures AddGuards(h, 11, REMOVED_ROW) && InRange(h, 11, REMOVED_ROW, capacity)
    ensures ChainDecision(h.shapes, ANY_NAME, [6]) == AddOwn && Decide(h, 11, ANY_NAME) == AddOwn
    ensures SlotAt(Replayed(h, 11, REMOVED_ROW, v, capacity).objs[11], NEW_SHAPE.props[GAINED].slot)
      == SlotAt(h.objs[11], OLD_SHAPE.props[LOST].slot)
    ensures !IsTransition(h, REMOVED_ROW) && !ReplayAgrees(h, 11, REMOVED_ROW, v, capacity)
  {
    SetNowAdds(h);
    RemovedChain(h);
    RemovedRowReplays(h, v, capacity);
  }

  /** The two heaps are well formed and one legal step apart. */
  lemma RemovalIsStep()
    ensures WellFormed(BeforeRemoval()) && WellFormed(AfterRemoval())
    ensures forall h0, h :: h0 == BeforeRemoval() && h == AfterRemoval() ==> EngineStep(h0, h)
  {
    BeforeRemovalOk();
    AfterRemovalOk();
    RemovalSteps(BeforeRemoval(), AfterRemoval());
  }

  /** A set on object o ran a setter and ended in heap h, a legal step away, and the populate accepts the row left. */
  ghost predicate SetterLeavesRow(h0: Heap, h: Heap, o: Addr, row: AddRow) {
    && WellFormed(h0) && WellFormed(h) && EngineStep(h0, h) && o in h0.objs && o in h.objs
    && Decide(h0, o, row.key) == RunSetter
    && AddFilled(h, o, row.key, h0.objs[o].shape, SpanIfShared(ShapeOf(h0, o)), row)
  }

  /** On object o the row's guards pass and the ordinary set adds, but the replay is no such add. */
  ghost predicate RowMisfires(h: Heap, o: Addr, row: AddRow, v: Value, capacity: nat) {
    && WellFormed(h) && AddGuards(h, o, row) && Decide(h, o, row.key) == AddOwn
    && InRange(h, o, row, capacity) && !ReplayAgrees(h, o, row, v, capacity)
  }

  lemma RemovalLeavesRow()
    ensures forall h0, h :: h0 == BeforeRemoval() && h == AfterRemoval() ==> SetterLeavesRow(h0, h, 10, REMOVED_ROW)
  {
    RemovalIsStep();
    SetRanSetter(BeforeRemoval());
    RemovedRowFilled(AfterRemoval());
  }

  /** The second witness as a whole, on two concrete heaps and for every value set. */
  lemma RemovalDefeatsRow(h0: Heap, h: Heap, v: Value, capacity: nat)
    requires h0 == BeforeRemoval() && h == AfterRemoval() && v != Uninit
    ensures forall t :: t == h0 ==> SetterLeavesRow(t, h, 10, REMOVED_ROW)
    ensures forall t :: t == h ==> RowMisfires(t, 11, REMOVED_ROW, v, capacity)
  {
    RemovalLeavesRow();
    AfterRemovalOk();
    RemovedRowDisagrees(h, v, capacity);
  }
}
