// The read side's rows as they lie in memory. A row is a handful of untraced address words; a hit compares words and
// follows them. Here the heap's objects and shapes die, move and have their addresses used again, while programs run
// and rows are filled, and a hit still reads the full walk.
module LiveCaches {
  import opened Coordinates
  import opened Heap
  import opened GetCaches
  import Gc = GcLifetime
  import opened Wrappers

  /** A tenured object or shape as a cell of the collector. A heap identity is never used twice; its address is. */
  function ObjectCell(o: Addr): Gc.Cell { Gc.Tenured(2 * o) }
  function ShapeCell(s: ShapeId): Gc.Cell { Gc.Tenured(2 * s + 1) }

  lemma CellsDistinct(a: nat, b: nat)
    ensures ObjectCell(a) != ShapeCell(b)
    ensures (ObjectCell(a) == ObjectCell(b) <==> a == b) && (ShapeCell(a) == ShapeCell(b) <==> a == b)
  {
  }

  /** A get way or mega-get entry, and a guarded-chain entry: the words in memory are the addresses in `life`; what
      they named at the fill is `row`. */
  datatype WayWords = WayWords(row: GetRow, life: Gc.Row)
  datatype ChainWords = ChainWords(row: ChainRow, life: Gc.Row)

  function WayCells(row: GetRow): seq<Gc.Cell> {
    if row.holderPtr == 0 then [ShapeCell(row.recvShape)]
    else [ShapeCell(row.recvShape), ObjectCell(row.holderPtr), ShapeCell(row.holderShape)]
  }

  /** The receiver's shape, then every hop, then every hop's shape. */
  function ChainCells(row: ChainRow): (cells: seq<Gc.Cell>)
    ensures |cells| == 1 + |row.ptrs| + |row.shapes|
  {
    [ShapeCell(row.recvShape)] + seq(|row.ptrs|, i requires 0 <= i < |row.ptrs| => ObjectCell(row.ptrs[i]))
    + seq(|row.shapes|, i requires 0 <= i < |row.shapes| => ShapeCell(row.shapes[i]))
  }

  /** The row is unstamped - its region is cleared by every purge -, its words were all read at the fill, and they
      stand for these cells. */
  ghost predicate Records(life: Gc.Row, cells: seq<Gc.Cell>) {
    && !life.stamped && life.sound && |life.refs| == |cells|
    && forall i :: 0 <= i < |cells| ==> life.refs[i].cell == cells[i]
  }

  /** `heap` keeps dead objects and shapes as history; `gc` says what is alive, and where. `near` has the present
      cells of the objects in the nursery. */
  datatype State = State(
    heap: Heap, gc: Gc.State, near: map<Addr, Gc.Cell>, ways: set<WayWords>, chains: set<ChainWords>)

  /** The cell an object is in now. */
  function CellOf(s: State, o: Addr): Gc.Cell {
    if o in s.near then s.near[o] else ObjectCell(o)
  }

  /** An object in a nursery cell has it to itself, has no tenured one, and is what the engine calls in the nursery. */
  ghost predicate NearOk(s: State) {
    && (forall o :: o in s.near ==> s.near[o].Near? && ObjectCell(o) !in s.gc.loc && o in s.heap.nursery)
    && (forall o, p :: o in s.near && p in s.near && s.near[o] == s.near[p] ==> o == p)
  }

  /** The cells a populate finds a row's objects and shapes in. */
  function WayCellsNow(s: State, row: GetRow): seq<Gc.Cell> {
    if row.holderPtr == 0 then [ShapeCell(row.recvShape)]
    else [ShapeCell(row.recvShape), CellOf(s, row.holderPtr), ShapeCell(row.holderShape)]
  }

  function ChainCellsNow(s: State, row: ChainRow): (cells: seq<Gc.Cell>)
    ensures |cells| == 1 + |row.ptrs| + |row.shapes|
  {
    [ShapeCell(row.recvShape)] + seq(|row.ptrs|, i requires 0 <= i < |row.ptrs| => CellOf(s, row.ptrs[i]))
    + seq(|row.shapes|, i requires 0 <= i < |row.shapes| => ShapeCell(row.shapes[i]))
  }

  /** Neither populate records an object in the nursery, so the cells are tenured ones: no minor collection, which leaves
      these rows alone, moves them. */
  lemma FilledTenured(s: State, o: Addr, k: Key, row: GetRow)
    requires WellFormed(s.heap) && o in s.heap.objs && NearOk(s) && GetFilled(s.heap, o, k, row)
    ensures WayCellsNow(s, row) == WayCells(row)
  {
  }

  lemma ChainFilledTenured(s: State, o: Addr, k: Key, row: ChainRow)
    requires WellFormed(s.heap) && o in s.heap.objs && NearOk(s) && ChainFilled(s.heap, o, k, MAX_HOPS, row)
    ensures ChainCellsNow(s, row) == ChainCells(row)
  {
  }

  // ---- the steps -------------------------------------------------------------------------------

  ghost predicate RowsKept(s: State, t: State) {
    && (forall w :: w in t.ways ==> w in s.ways && w.life in t.gc.rows)
    && (forall w :: w in t.chains ==> w in s.chains && w.life in t.gc.rows)
  }

  /** The engine changes objects; it or a minor collection makes tenured cells, at addresses dead ones had. */
  ghost predicate Mutates(s: State, t: State) {
    EngineStep(s.heap, t.heap) && (t.gc == s.gc || Gc.Alloc(s.gc, t.gc)) && RowsKept(s, t)
  }

  /** The collector begins, works for a slice, or ends, with its purges; the nursery is emptied; words are read or
      written for another table; rows are dropped. */
  ghost predicate Elsewhere(s: State, t: State) {
    t.heap == s.heap && RowsKept(s, t) && Gc.Next(s.gc, t.gc)
  }

  /** A populate writes down the addresses its cells have now. */
  ghost predicate FillsWay(s: State, t: State, o: Addr, k: Key, w: WayWords) {
    && WellFormed(s.heap) && t.heap == s.heap && o in s.heap.objs && k.Name?
    && GetFilled(s.heap, o, k, w.row)
    && Records(w.life, WayCellsNow(s, w.row)) && Gc.Fill(s.gc, t.gc, w.life, [], w.life.refs)
    && (forall v :: v in t.ways ==> (v in s.ways || v == w) && v.life in t.gc.rows)
    && (forall v :: v in t.chains ==> v in s.chains && v.life in t.gc.rows)
  }

  ghost predicate FillsChain(s: State, t: State, o: Addr, k: Key, w: ChainWords) {
    && WellFormed(s.heap) && t.heap == s.heap && o in s.heap.objs
    && ChainFilled(s.heap, o, k, MAX_HOPS, w.row)
    && Records(w.life, ChainCellsNow(s, w.row)) && Gc.Fill(s.gc, t.gc, w.life, [], w.life.refs)
    && (forall v :: v in t.ways ==> v in s.ways && v.life in t.gc.rows)
    && (forall v :: v in t.chains ==> (v in s.chains || v == w) && v.life in t.gc.rows)
  }

  ghost predicate Next(s: State, t: State) {
    NearOk(t) &&
    (|| Mutates(s, t)
     || Elsewhere(s, t)
     || (exists o, k, w :: FillsWay(s, t, o, k, w))
     || (exists o, k, w :: FillsChain(s, t, o, k, w)))
  }

  ghost predicate Run(states: seq<State>) {
    && |states| > 0 && WellFormed(states[0].heap) && Gc.Inv(states[0].gc) && NearOk(states[0])
    && states[0].ways == {} && states[0].chains == {}
    && forall i :: 0 <= i < |states| - 1 ==> Next(states[i], states[i + 1])
  }

  // ---- what every step keeps -------------------------------------------------------------------

  ghost predicate WayOk(s: State, w: WayWords)
    requires WellFormed(s.heap)
  {
    w.life in s.gc.rows && Records(w.life, WayCells(w.row)) && RowOk(s.heap, w.row)
  }

  ghost predicate ChainWordsOk(s: State, w: ChainWords) {
    w.life in s.gc.rows && Records(w.life, ChainCells(w.row)) && ChainOk(s.heap.shapes, w.row)
  }

  ghost predicate Inv(s: State) {
    && WellFormed(s.heap) && Gc.Inv(s.gc) && NearOk(s)
    && (forall w :: w in s.ways ==> WayOk(s, w))
    && (forall w :: w in s.chains ==> ChainWordsOk(s, w))
  }

  lemma MutationKeeps(s: State, t: State)
    requires Inv(s) && Mutates(s, t) && NearOk(t)
    ensures Inv(t)
  {
    if t.gc != s.gc {
      Gc.StepKeepsInv(s.gc, t.gc);
    }
    forall w | w in t.ways ensures WayOk(t, w) {
      RowKept(s.heap, t.heap, w.row);
    }
    forall w | w in t.chains ensures ChainWordsOk(t, w) {
      ChainKept(s.heap, t.heap, w.row);
    }
  }

  lemma ElsewhereKeeps(s: State, t: State)
    requires Inv(s) && Elsewhere(s, t) && NearOk(t)
    ensures Inv(t)
  {
    Gc.StepKeepsInv(s.gc, t.gc);
  }

  lemma FillWayKeeps(s: State, t: State, o: Addr, k: Key, w: WayWords)
    requires Inv(s) && FillsWay(s, t, o, k, w) && NearOk(t)
    ensures Inv(t)
  {
    Gc.FillKeepsInv(s.gc, t.gc, w.life, [], w.life.refs);
    FilledTenured(s, o, k, w.row);
    FilledIsOk(s.heap, o, k, w.row);
  }

  lemma FillChainKeeps(s: State, t: State, o: Addr, k: Key, w: ChainWords)
    requires Inv(s) && FillsChain(s, t, o, k, w) && NearOk(t)
    ensures Inv(t)
  {
    Gc.FillKeepsInv(s.gc, t.gc, w.life, [], w.life.refs);
    ChainFilledTenured(s, o, k, w.row);
  }

  lemma StepKeepsInv(s: State, t: State)
    requires Inv(s) && Next(s, t)
    ensures Inv(t)
  {
    if Mutates(s, t) {
      MutationKeeps(s, t);
    } else if Elsewhere(s, t) {
      ElsewhereKeeps(s, t);
    } else if o, k, w :| FillsWay(s, t, o, k, w) {
      FillWayKeeps(s, t, o, k, w);
    } else if o, k, w :| FillsChain(s, t, o, k, w) {
      FillChainKeeps(s, t, o, k, w);
    }
  }

  lemma {:induction false} RunKeepsInv(states: seq<State>, i: nat)
    requires Run(states) && i < |states|
    ensures Inv(states[i])
  {
    if i > 0 {
      RunKeepsInv(states, i - 1);
      StepKeepsInv(states[i - 1], states[i]);
    }
  }

  // ---- such runs exist -------------------------------------------------------------------------

  /** The words that live cells have now. */
  function RefsTo(loc: map<Gc.Cell, Gc.Addr>, cells: seq<Gc.Cell>): (refs: seq<Gc.Ref>)
    requires forall i :: 0 <= i < |cells| ==> cells[i] in loc
    ensures |refs| == |cells|
  {
    seq(|cells|, i requires 0 <= i < |cells| => Gc.Ref(cells[i], loc[cells[i]]))
  }

  function Written(gc: Gc.State, life: Gc.Row): Gc.State {
    gc.(rows := gc.rows + {life}, held := gc.held + Gc.Cells(life.refs))
  }

  /** A row over live cells can be written down at any time. */
  lemma CanWrite(gc: Gc.State, cells: seq<Gc.Cell>, life: Gc.Row)
    requires forall i :: 0 <= i < |cells| ==> cells[i] in gc.loc
    requires life == Gc.Row(false, gc.gen, RefsTo(gc.loc, cells), gc.purges, true)
    ensures Gc.Fill(gc, Written(gc, life), life, [], life.refs) && Records(life, cells)
  {
    assert [] + life.refs == life.refs && Gc.Cells([]) == {};
  }

  lemma RowsStay(s: State, gc: Gc.State)
    requires Inv(s) && s.gc.rows <= gc.rows
    ensures forall v :: v in s.ways ==> v.life in gc.rows
    ensures forall v :: v in s.chains ==> v.life in gc.rows
  {
    assert forall v :: v in s.ways ==> WayOk(s, v);
    assert forall v :: v in s.chains ==> ChainWordsOk(s, v);
  }

  function LifeOf(gc: Gc.State, cells: seq<Gc.Cell>): Gc.Row
    requires forall i :: 0 <= i < |cells| ==> cells[i] in gc.loc
  {
    Gc.Row(false, gc.gen, RefsTo(gc.loc, cells), gc.purges, true)
  }

  /** Whatever a populate accepts can be filled while its cells live. */
  lemma CanFillWay(s: State, o: Addr, k: Key, w: WayWords)
    requires Inv(s) && o in s.heap.objs && k.Name? && GetFilled(s.heap, o, k, w.row)
    requires forall i :: 0 <= i < |WayCells(w.row)| ==> WayCells(w.row)[i] in s.gc.loc
    requires w.life == LifeOf(s.gc, WayCells(w.row))
    ensures FillsWay(s, s.(gc := Written(s.gc, w.life), ways := s.ways + {w}), o, k, w)
  {
    CanWrite(s.gc, WayCells(w.row), w.life);
    RowsStay(s, Written(s.gc, w.life));
    FilledTenured(s, o, k, w.row);
  }

  lemma CanFillChain(s: State, o: Addr, k: Key, w: ChainWords)
    requires Inv(s) && o in s.heap.objs && ChainFilled(s.heap, o, k, MAX_HOPS, w.row)
    requires forall i :: 0 <= i < |ChainCells(w.row)| ==> ChainCells(w.row)[i] in s.gc.loc
    requires w.life == LifeOf(s.gc, ChainCells(w.row))
    ensures FillsChain(s, s.(gc := Written(s.gc, w.life), chains := s.chains + {w}), o, k, w)
  {
    CanWrite(s.gc, ChainCells(w.row), w.life);
    RowsStay(s, Written(s.gc, w.life));
    ChainFilledTenured(s, o, k, w.row);
  }

  // ---- hits, word by word ----------------------------------------------------------------------

  /** The live object's shape word is `word`. */
  predicate ShapeWordIs(s: State, o: Addr, word: Gc.Addr) {
    && o in s.heap.objs && ShapeCell(s.heap.objs[o].shape) in s.gc.loc
    && s.gc.loc[ShapeCell(s.heap.objs[o].shape)] == word
  }

  /** The word is the address of the live object `x`. */
  predicate PointsAt(s: State, word: Gc.Addr, x: Addr) {
    CellOf(s, x) in s.gc.loc && s.gc.loc[CellOf(s, x)] == word
  }

  function HolderWord(w: WayWords): Gc.Addr {
    if |w.life.refs| == 3 then w.life.refs[1].addr else 0
  }

  /** A way hit, as compiled code makes it: the receiver's shape word matches; a zero holder word means the receiver
      serves, any other is followed, and the shape word found there must match. `x` is the object that serves. */
  predicate WayHits(s: State, recv: Addr, w: WayWords, x: Addr) {
    && |w.life.refs| in {1, 3} && ShapeWordIs(s, recv, w.life.refs[0].addr)
    && if HolderWord(w) == 0 then x == recv
       else |w.life.refs| == 3 && PointsAt(s, HolderWord(w), x) && ShapeWordIs(s, x, w.life.refs[2].addr)
  }

  /** A chain hit: the shape words of the receiver and of whatever object each hop word addresses all match. */
  predicate ChainWordsHit(s: State, recv: Addr, w: ChainWords, hops: seq<Addr>) {
    var n := |w.row.ptrs|;
    && |hops| == n && |w.life.refs| == 1 + 2 * n && ShapeWordIs(s, recv, w.life.refs[0].addr)
    && forall i :: 0 <= i < n ==>
         PointsAt(s, w.life.refs[1 + i].addr, hops[i]) && ShapeWordIs(s, hops[i], w.life.refs[1 + n + i].addr)
  }

  /** Equal words mean the same cell: the recorded one is alive where it was, and no other is there. */
  lemma WordNames(s: State, life: Gc.Row, cells: seq<Gc.Cell>, i: nat, c: Gc.Cell)
    requires Gc.Inv(s.gc) && life in s.gc.rows && Records(life, cells) && i < |cells|
    ensures cells[i] in s.gc.loc && s.gc.loc[cells[i]] == life.refs[i].addr != 0
    ensures c in s.gc.loc && s.gc.loc[c] == life.refs[i].addr ==> c == cells[i]
  {
    assert Gc.RowInv(s.gc, life);
    assert Gc.Named(s.gc, life.refs);
  }

  lemma WayHitIsHit(s: State, recv: Addr, w: WayWords, x: Addr)
    requires Inv(s) && w in s.ways && WayHits(s, recv, w, x)
    ensures Hits(s.heap, recv, w.row) && x == ServedBy(recv, w.row)
  {
    assert WayOk(s, w);
    var cells := WayCells(w.row);
    WordNames(s, w.life, cells, 0, ShapeCell(s.heap.objs[recv].shape));
    if w.row.holderPtr != 0 {
      WordNames(s, w.life, cells, 1, CellOf(s, x));
      WordNames(s, w.life, cells, 2, ShapeCell(s.heap.objs[x].shape));
    }
  }

  /** And the words always match where the row's own guards pass: a live row is not lost. */
  lemma HitIsWayHit(s: State, recv: Addr, w: WayWords)
    requires Inv(s) && w in s.ways && Hits(s.heap, recv, w.row)
    ensures WayHits(s, recv, w, ServedBy(recv, w.row))
  {
    assert WayOk(s, w);
    var cells := WayCells(w.row);
    WordNames(s, w.life, cells, 0, ShapeCell(w.row.recvShape));
    if w.row.holderPtr != 0 {
      WordNames(s, w.life, cells, 1, ObjectCell(w.row.holderPtr));
      WordNames(s, w.life, cells, 2, ShapeCell(w.row.holderShape));
    }
  }

  lemma HopIsWordHop(s: State, recv: Addr, w: ChainWords, i: nat)
    requires Inv(s) && w in s.chains && ChainHits(s.heap, recv, w.row) && i < |w.row.ptrs|
    requires |w.life.refs| == 1 + 2 * |w.row.ptrs|
    ensures PointsAt(s, w.life.refs[1 + i].addr, w.row.ptrs[i])
    ensures ShapeWordIs(s, w.row.ptrs[i], w.life.refs[1 + |w.row.ptrs| + i].addr)
  {
    assert ChainWordsOk(s, w);
    ChainCellAt(w.row, i);
    assert w.row.ptrs[i] in s.heap.objs;
    WordNames(s, w.life, ChainCells(w.row), 1 + i, ObjectCell(w.row.ptrs[i]));
    WordNames(s, w.life, ChainCells(w.row), 1 + |w.row.ptrs| + i, ShapeCell(w.row.shapes[i]));
  }

  lemma ChainHitIsWordHit(s: State, recv: Addr, w: ChainWords)
    requires Inv(s) && w in s.chains && ChainHits(s.heap, recv, w.row)
    ensures ChainWordsHit(s, recv, w, w.row.ptrs)
  {
    assert ChainWordsOk(s, w);
    WordNames(s, w.life, ChainCells(w.row), 0, ShapeCell(w.row.recvShape));
    forall i: nat | i < |w.row.ptrs|
      ensures PointsAt(s, w.life.refs[1 + i].addr, w.row.ptrs[i])
      ensures ShapeWordIs(s, w.row.ptrs[i], w.life.refs[1 + |w.row.ptrs| + i].addr)
    {
      HopIsWordHop(s, recv, w, i);
    }
  }

  lemma ChainCellAt(row: ChainRow, i: nat)
    requires |row.ptrs| == |row.shapes| && i < |row.ptrs|
    ensures ChainCells(row)[0] == ShapeCell(row.recvShape)
    ensures ChainCells(row)[1 + i] == ObjectCell(row.ptrs[i])
    ensures ChainCells(row)[1 + |row.ptrs| + i] == ShapeCell(row.shapes[i])
  {
  }

  lemma HopIsHop(s: State, w: ChainWords, hops: seq<Addr>, i: nat)
    requires Inv(s) && w in s.chains && i < |w.row.ptrs| == |hops| && |w.life.refs| == 1 + 2 * |hops|
    requires PointsAt(s, w.life.refs[1 + i].addr, hops[i])
    requires ShapeWordIs(s, hops[i], w.life.refs[1 + |hops| + i].addr)
    ensures hops[i] == w.row.ptrs[i] && s.heap.objs[hops[i]].shape == w.row.shapes[i]
  {
    assert ChainWordsOk(s, w);
    ChainCellAt(w.row, i);
    WordNames(s, w.life, ChainCells(w.row), 1 + i, CellOf(s, hops[i]));
    WordNames(s, w.life, ChainCells(w.row), 1 + |hops| + i, ShapeCell(s.heap.objs[hops[i]].shape));
  }

  lemma ChainHitIsHit(s: State, recv: Addr, w: ChainWords, hops: seq<Addr>)
    requires Inv(s) && w in s.chains && ChainWordsHit(s, recv, w, hops)
    ensures ChainHits(s.heap, recv, w.row) && hops == w.row.ptrs
  {
    ReceiverIs(s, recv, w);
    forall i: nat | i < |hops|
      ensures hops[i] == w.row.ptrs[i] && hops[i] in s.heap.objs && s.heap.objs[hops[i]].shape == w.row.shapes[i]
    {
      HopIsHop(s, w, hops, i);
    }
    HopsMatch(s.heap, recv, w.row, hops);
  }

  lemma ReceiverIs(s: State, recv: Addr, w: ChainWords)
    requires Inv(s) && w in s.chains && |w.life.refs| > 0 && ShapeWordIs(s, recv, w.life.refs[0].addr)
    ensures s.heap.objs[recv].shape == w.row.recvShape && |w.row.ptrs| == |w.row.shapes|
  {
    assert ChainWordsOk(s, w);
    WordNames(s, w.life, ChainCells(w.row), 0, ShapeCell(s.heap.objs[recv].shape));
  }

  lemma HopsMatch(h: Heap, recv: Addr, row: ChainRow, hops: seq<Addr>)
    requires |hops| == |row.ptrs| == |row.shapes| && recv in h.objs && h.objs[recv].shape == row.recvShape
    requires forall i: nat :: i < |hops| ==>
      hops[i] == row.ptrs[i] && hops[i] in h.objs && h.objs[hops[i]].shape == row.shapes[i]
    ensures ChainHits(h, recv, row) && hops == row.ptrs
  {
    forall i: nat | i < |row.ptrs| ensures row.ptrs[i] in h.objs && h.objs[row.ptrs[i]].shape == row.shapes[i] {
      assert hops[i] == row.ptrs[i];
    }
  }

  /** A guarded word hit reads what the full walk reads. */
  ghost predicate WaysRead(s: State)
    requires WellFormed(s.heap)
  {
    forall w, recv, x :: w in s.ways && WayHits(s, recv, w, x) ==>
      Get(s.heap, recv, w.row.key).Some? &&
      Get(s.heap, recv, w.row.key) == SlotEncRead(s.heap.objs[x], w.row.slotEnc)
  }

  /** The walk's answer is the slot of the last hop, or undefined. */
  ghost predicate ChainRead(h: Heap, recv: Addr, row: ChainRow, hops: seq<Addr>)
    requires WellFormed(h)
  {
    recv in h.objs &&
    Get(h, recv, row.key) ==
      if row.slotEnc == ABSENT then Some(Undefined)
      else if hops == [] || hops[|hops| - 1] !in h.objs then None
      else SlotEncRead(h.objs[hops[|hops| - 1]], row.slotEnc)
  }

  ghost predicate ChainsRead(s: State)
    requires WellFormed(s.heap)
  {
    forall w, recv, hops ::
      w in s.chains && ChainWordsHit(s, recv, w, hops) && (w.row.key.Name? || NoneDense(s.heap, recv, w.row.key)) ==>
        ChainRead(s.heap, recv, w.row, hops)
  }

  /** Following a holder word never leaves the live heap, and whatever passes the word guards reads what the full
      walk reads. */
  ghost predicate Coherent(s: State) {
    && WellFormed(s.heap) && WaysRead(s) && ChainsRead(s)
    && forall w :: w in s.ways && HolderWord(w) != 0 ==> PointsAt(s, HolderWord(w), w.row.holderPtr)
  }

  /** Get-cache coherence over real memory: for every interleaving of engine steps, fills, minor collections,
      sliced and compacting major collections with their purges, and reuse of addresses. */
  lemma LiveCachesCoherent(states: seq<State>, i: nat)
    requires Run(states) && i < |states|
    ensures Coherent(states[i])
  {
    RunKeepsInv(states, i);
    InvIsCoherent(states[i]);
  }

  lemma InvIsCoherent(s: State)
    requires Inv(s)
    ensures Coherent(s)
  {
    forall w | w in s.ways && HolderWord(w) != 0 ensures PointsAt(s, HolderWord(w), w.row.holderPtr) {
      assert WayOk(s, w);
      WordNames(s, w.life, WayCells(w.row), 1, ObjectCell(0));
    }
    WaysDoRead(s);
    ChainsDoRead(s);
  }

  lemma WaysDoRead(s: State)
    requires Inv(s)
    ensures WaysRead(s)
  {
    forall w, recv, x | w in s.ways && WayHits(s, recv, w, x)
      ensures Get(s.heap, recv, w.row.key).Some?
      ensures Get(s.heap, recv, w.row.key) == SlotEncRead(s.heap.objs[x], w.row.slotEnc)
    {
      WayHitIsHit(s, recv, w, x);
      HitReadsWalk(s.heap, recv, w.row);
    }
  }

  lemma LiveChainOk(s: State, w: ChainWords)
    requires Inv(s) && w in s.chains
    ensures ChainOk(s.heap.shapes, w.row)
  {
    assert ChainWordsOk(s, w);
  }

  lemma ChainAnswers(h: Heap, recv: Addr, row: ChainRow)
    requires WellFormed(h) && ChainOk(h.shapes, row) && ChainHits(h, recv, row)
    requires row.key.Name? || NoneDense(h, recv, row.key)
    ensures ChainRead(h, recv, row, row.ptrs)
  {
    ChainHitReadsWalk(h, recv, row);
  }

  lemma ChainsDoRead(s: State)
    requires Inv(s)
    ensures ChainsRead(s)
  {
    forall w, recv, hops |
      w in s.chains && ChainWordsHit(s, recv, w, hops) && (w.row.key.Name? || NoneDense(s.heap, recv, w.row.key))
      ensures ChainRead(s.heap, recv, w.row, hops)
    {
      LiveChainOk(s, w);
      ChainHitIsHit(s, recv, w, hops);
      ChainAnswers(s.heap, recv, w.row);
    }
  }
}
