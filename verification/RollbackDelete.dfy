// Why the engine's contract asks that a used-as-prototype object losing a name become a dictionary.
module RollbackDelete {
  import opened Coordinates
  import opened Heap
  import opened GetCaches
  import opened Wrappers

  const NAME := Key.Name(7, false)

  function LinkShape(proto: Proto, used: bool): Shape {
    Shape(map[], None, 0, 1, proto, Class(true, false, false, {}), false, true, used, false, false, false)
  }

  /** Receiver 10 inherits from 20, which inherits from 30. `hop` and `holder` say which of the two has the name. */
  function ChainHeap(hop: bool, holder: bool): Heap {
    Heap(
      map[1 := LinkShape(ProtoObj(20), false),
          2 := LinkShape(ProtoObj(30), true), 3 := Child(LinkShape(ProtoObj(30), true), NAME),
          4 := LinkShape(NoProto, true), 5 := Child(LinkShape(NoProto, true), NAME)],
      map[10 := Object(1, [Undefined], [], map[]),
          20 := Object(if hop then 3 else 2, [Bits(1)], [], map[]),
          30 := Object(if holder then 5 else 4, [Bits(2)], [], map[])],
      map[],
      {})
  }

  lemma ChainShapesOk(hop: bool, holder: bool)
    ensures forall s :: s in ChainHeap(hop, holder).shapes ==> ShapeOk(ChainHeap(hop, holder).shapes[s])
  {
  }

  lemma ChainObjectsOk(hop: bool, holder: bool)
    ensures var h := ChainHeap(hop, holder);
      forall o :: o in h.objs ==> h.objs[o].shape in h.shapes && ObjectOk(h.shapes[h.objs[o].shape], h.objs[o])
  {
  }

  lemma ChainProtosOk(hop: bool, holder: bool)
    ensures var h := ChainHeap(hop, holder);
      forall s {:trigger ProtoOk(h, h.shapes[s])} :: s in h.shapes ==> ProtoOk(h, h.shapes[s])
  {
  }

  lemma ChainRanked(hop: bool, holder: bool)
    ensures Acyclic(ChainHeap(hop, holder))
  {
    var h := ChainHeap(hop, holder);
    var rank: map<Addr, nat> := map[10 := 2, 20 := 1, 30 := 0];
    forall o, p | Links(h, o, p) && p in h.objs && p in rank && o in rank ensures rank[p] < rank[o] {
      assert (o == 10 && p == 20) || (o == 20 && p == 30);
    }
    assert Ranked(h, rank);
  }

  lemma ChainHeapOk(hop: bool, holder: bool)
    ensures WellFormed(ChainHeap(hop, holder))
  {
    ChainShapesOk(hop, holder);
    ChainObjectsOk(hop, holder);
    ChainProtosOk(hop, holder);
    ChainRanked(hop, holder);
  }

  lemma Walks(hop: bool, holder: bool)
    requires hop || holder
    ensures WellFormed(ChainHeap(hop, holder))
    ensures Find(ChainHeap(hop, holder), 10, NAME) == At(if hop then 20 else 30)
    ensures Get(ChainHeap(hop, holder), 10, NAME) == Some(Bits(if hop then 1 else 2))
    ensures !hop ==> Trusted(ChainHeap(hop, holder), 20, NAME)
  {
    ChainHeapOk(hop, holder);
    var h := ChainHeap(hop, holder);
    FindPast(h, 10, NAME);
    if hop {
      FindOwn(h, 20, NAME);
    } else {
      FindPast(h, 20, NAME);
      FindOwn(h, 30, NAME);
      assert Trusted(h, 30, NAME);
    }
  }

  /** The holder loses the name, the hop gains it, the holder gains it again. */
  function Rollback(i: nat): Heap {
    ChainHeap(i >= 2, i == 0 || i >= 3)
  }

  /** The row a get of the name on the receiver fills while the holder has it. */
  const ROW := GetRow(NAME, 1, 30, 5, SlotEnc(false, 0))

  lemma RowIsFilled()
    ensures WellFormed(Rollback(0)) && GetFilled(Rollback(0), 10, NAME, ROW)
  {
    Walks(false, true);
  }

  // ---- the run ---------------------------------------------------------------------------------

  /** The engine's contract without the clause about a lost name. */
  ghost predicate RollbackWatched(h: Heap, h': Heap)
    requires Grows(h, h')
  {
    && (forall m: Addr, k: Key :: m in h.objs && ShapeOf(h, m).usedAsProto && k.Name? ==> GainWatched(h, h', m, k))
    && (forall m: Addr, x: Addr :: m in h.objs && x in h.objs && ShapeOf(h, m).usedAsProto ==> ProtoWatched(h, h', m, x))
  }

  /** Only the shape of `m` changes, to one with the same flags and prototype. */
  ghost predicate OnlyReshapes(h: Heap, h': Heap, m: Addr) {
    && h'.shapes == h.shapes && h'.trans == h.trans && h'.objs.Keys == h.objs.Keys && m in h.objs
    && h.objs[m].shape in h.shapes && h'.objs[m].shape in h.shapes
    && (forall o :: o in h.objs && o != m ==> h'.objs[o].shape == h.objs[o].shape)
    && ShapeOf(h', m) == ShapeOf(h, m).(
         props := ShapeOf(h', m).props, last := ShapeOf(h', m).last, span := ShapeOf(h', m).span)
    && !ShapeOf(h, m).dictionary
  }

  lemma OneReshapeGrows(h: Heap, h': Heap, m: Addr)
    requires WellFormed(h) && WellFormed(h') && OnlyReshapes(h, h', m)
    ensures Extends(h, h')
  {
    forall o | o in h.objs ensures o in h'.objs && Reshapes(h, h', o) {
      if o != m {
        assert h'.objs[o].shape == h.objs[o].shape;
      }
    }
  }

  /** Gaining a name that no object above has leaves the engine nothing else to reshape. */
  lemma OneReshapeWatched(h: Heap, h': Heap, m: Addr)
    requires Grows(h, h') && OnlyReshapes(h, h', m)
    requires forall k: Key ::
      k.Name? && k !in ShapeOf(h, m).props && k in ShapeOf(h', m).props && ShapeOf(h, m).proto.ProtoObj? ==>
        ShapeOf(h, m).proto.obj in h.objs && FirstOwner(h, ShapeOf(h, m).proto.obj, k) == None
    ensures RollbackWatched(h, h')
  {
    forall o: Addr, k: Key | o in h.objs && k.Name? ensures GainWatched(h, h', o, k) {
      if o != m {
        assert h'.objs[o].shape == h.objs[o].shape;
      }
    }
  }

  lemma RollbackHeapOk(i: nat)
    ensures WellFormed(Rollback(i))
  {
    ChainHeapOk(i >= 2, i == 0 || i >= 3);
  }

  function Changed(i: nat): Addr {
    if i == 1 then 20 else 30
  }

  lemma RollbackReshapes(i: nat, h: Heap, h': Heap)
    requires i < 3 && h == Rollback(i) && h' == Rollback(i + 1)
    ensures OnlyReshapes(h, h', Changed(i))
  {
  }

  lemma HolderLacks(h: Heap)
    requires h == Rollback(1) && WellFormed(h)
    ensures FirstOwner(h, 30, NAME) == None
  {
  }

  lemma RollbackAllowed(i: nat, h: Heap, h': Heap)
    requires i < 3 && h == Rollback(i) && h' == Rollback(i + 1) && Grows(h, h') && OnlyReshapes(h, h', Changed(i))
    ensures RollbackWatched(h, h')
  {
    if i == 1 {
      HolderLacks(h);
    }
    OneReshapeWatched(h, h', Changed(i));
  }

  /** One step of the rollback is allowed. The conclusion is under a quantifier to be taken as a whole. */
  lemma RollbackStep(i: nat, h: Heap, h': Heap)
    requires i < 3 && h == Rollback(i) && h' == Rollback(i + 1) && WellFormed(h) && WellFormed(h')
    ensures forall t :: t == h' ==> Grows(h, t) && RollbackWatched(h, t)
  {
    RollbackReshapes(i, h, h');
    OneReshapeGrows(h, h', Changed(i));
    RollbackAllowed(i, h, h');
  }

  /** The rollback is a run of the contract without the clause. */
  lemma RollbackIsRun()
    ensures forall i: nat :: i < 3 ==>
      Grows(Rollback(i), Rollback(i + 1)) && RollbackWatched(Rollback(i), Rollback(i + 1))
  {
    forall i: nat | i < 3 ensures Grows(Rollback(i), Rollback(i + 1)) && RollbackWatched(Rollback(i), Rollback(i + 1)) {
      RollbackHeapOk(i);
      RollbackHeapOk(i + 1);
      RollbackStep(i, Rollback(i), Rollback(i + 1));
    }
  }

  /** If a holder that loses the name could go back to a plain shape, that run defeats a row filled at its start:
      the holder deletes the name, a hop adds it (shadowing nothing, so nothing is reshaped), the holder adds it
      again and is back in the recorded shape. Both guards pass, and the row reads the holder's 2 where the walk
      now finds the hop's 1. */
  lemma RollbackDeleteDefeatsRow()
    ensures WellFormed(Rollback(3)) && Hits(Rollback(3), 10, ROW)
    ensures SlotEncRead(Rollback(3).objs[30], ROW.slotEnc) == Some(Bits(2))
    ensures Get(Rollback(3), 10, NAME) == Some(Bits(1))
  {
    Walks(true, true);
  }
}
