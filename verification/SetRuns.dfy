// Whole runs of the write side, over real memory: sets and defines begin, run any code, and fill rows at their end;
// collections move and free what rows name; rows are used at any later time on whatever object passes their words.
// The runs contain those of LiveCaches.
module SetRuns {
  import opened Heap
  import opened SetCaches
  import Live = LiveCaches
  import Gc = GcLifetime
  import opened Wrappers

  /** What a set or define remembers from before it ran: its receiver, its key, the receiver's shape - as a word in
      `read` - and span. `was`, which is in no memory, is the heap then. */
  datatype Begun = Begun(o: Addr, key: Key, oldShape: ShapeId, oldSpan: Option<nat>, was: Heap, read: Gc.Read)

  /** A set way or mega-set entry. */
  datatype SetWords = SetWords(row: SetRow, life: Gc.Row)

  /** An add row of a site (unstamped) or of a table (stamped). A row of the define family records no prototypes.
      `ptrCells` are the cells its prototypes were in at the fill; `ordinary`, which is not in memory, says whether
      the operation that filled it was the plain add itself. */
  datatype AddWords = AddWords(row: AddRow, define: bool, ordinary: bool, ptrCells: seq<Gc.Cell>, life: Gc.Row)

  datatype State = State(base: Live.State, sets: set<SetWords>, adds: set<AddWords>, begun: set<Begun>)

  /** The old shape, the new shape, the prototypes, their shapes. */
  function AddCells(w: AddWords): (cells: seq<Gc.Cell>)
    ensures |cells| == 2 + |w.ptrCells| + |w.row.shapes|
  {
    [Live.ShapeCell(w.row.oldShape), Live.ShapeCell(w.row.newShape)] + w.ptrCells
    + seq(|w.row.shapes|, i requires 0 <= i < |w.row.shapes| => Live.ShapeCell(w.row.shapes[i]))
  }

  ghost predicate Stands(life: Gc.Row, cells: seq<Gc.Cell>) {
    |life.refs| == |cells| && forall i :: 0 <= i < |cells| ==> life.refs[i].cell == cells[i]
  }

  // ---- the steps -------------------------------------------------------------------------------

  ghost predicate WordsKept(s: State, t: State) {
    && (forall w :: w in t.sets ==> w in s.sets && w.life in t.base.gc.rows)
    && (forall w :: w in t.adds ==> w in s.adds && w.life in t.base.gc.rows)
    && (forall b :: b in t.begun ==> b in s.begun && b.read in t.base.gc.words)
  }

  /** Nursery objects stay where they are between minor collections. */
  ghost predicate NearStays(s: State, t: State) {
    forall o :: o in s.base.near ==> o in t.base.near && t.base.near[o] == s.base.near[o]
  }

  /** An engine step - a replay is one, see `ReplayIsNext` -, a fill on the read side, or collection work. */
  ghost predicate BaseStep(s: State, t: State) {
    Live.Next(s.base, t.base) && (NearStays(s, t) || Gc.Minor(s.base.gc, t.base.gc)) && WordsKept(s, t)
  }

  /** Some other cells' words are read or written; the heap is as it was. */
  ghost predicate Aside(s: State, t: State) {
    Live.Elsewhere(s.base, t.base) && Live.NearOk(t.base) && NearStays(s, t)
  }

  ghost predicate Begins(s: State, t: State, b: Begun) {
    var h := s.base.heap;
    && Aside(s, t) && Gc.Reads(s.base.gc, t.base.gc, b.read)
    && WellFormed(h) && b.was == h && b.o in h.objs && b.key.Name?
    && b.oldShape == h.objs[b.o].shape && b.oldSpan == SpanIfShared(ShapeOf(h, b.o))
    && |b.read.refs| == 1 && b.read.refs[0].cell == Live.ShapeCell(b.oldShape)
    && WordsKept(s, t.(begun := t.begun - {b}))
    && (b in t.begun ==> b.read in t.base.gc.words)
  }

  ghost predicate FillsSet(s: State, t: State, w: SetWords) {
    && Aside(s, t) && SetRowOk(s.base.heap.shapes, w.row)
    && Gc.Fill(s.base.gc, t.base.gc, w.life, [], w.life.refs) && !w.life.stamped
    && Stands(w.life, [Live.ShapeCell(w.row.recvShape)])
    && WordsKept(s, t.(sets := t.sets - {w})) && (w in t.sets ==> w.life in t.base.gc.rows)
  }

  /** The operation was the plain add itself, and if it was a set, it decided to add. */
  ghost predicate WasTheAdd(b: Begun, h: Heap, define: bool)
    requires WellFormed(h)
  {
    && WellFormed(b.was) && b.o in b.was.objs && OthersKept(b.was, h, b.o)
    && (exists v :: Adds(b.was, h, b.o, b.key, v))
    && (!define ==> Decide(b.was, b.o, b.key) == AddOwn)
  }

  /** The row the populate yields, without its prototypes for the define family. */
  ghost predicate Populated(h: Heap, b: Begun, w: AddWords)
    requires WellFormed(h) && b.o in h.objs
  {
    exists full :: AddFilled(h, b.o, b.key, b.oldShape, b.oldSpan, full) &&
      w.row == if w.define then full.(ptrs := [], shapes := []) else full
  }

  /** A set or define that began earlier in the run ends and fills a row: with the old shape's word as it was read
      then, and the other words as they are now. Anything may have happened in between. */
  ghost predicate FillsAdd(s: State, t: State, b: Begun, w: AddWords) {
    var h := s.base.heap;
    && Aside(s, t) && b in s.begun && WellFormed(h) && b.o in h.objs
    && Populated(h, b, w) && (w.ordinary ==> WasTheAdd(b, h, w.define))
    && |w.ptrCells| == |w.row.ptrs|
    && (forall i :: 0 <= i < |w.ptrCells| ==> w.ptrCells[i] == Live.CellOf(s.base, w.row.ptrs[i]))
    && |w.life.refs| > 0 && Stands(w.life, AddCells(w))
    && Gc.Fill(s.base.gc, t.base.gc, w.life, b.read.refs, w.life.refs[1..])
    && WordsKept(s, t.(adds := t.adds - {w})) && (w in t.adds ==> w.life in t.base.gc.rows)
  }

  ghost predicate Next(s: State, t: State) {
    || BaseStep(s, t)
    || (exists b :: Begins(s, t, b))
    || (exists w :: FillsSet(s, t, w))
    || (exists b, w :: FillsAdd(s, t, b, w))
  }

  ghost predicate Run(states: seq<State>) {
    && |states| > 0 && Live.Inv(states[0].base) && states[0].base.ways == {} && states[0].base.chains == {}
    && states[0].sets == {} && states[0].adds == {} && states[0].begun == {}
    && forall i :: 0 <= i < |states| - 1 ==> Next(states[i], states[i + 1])
  }

  // ---- what every step keeps -------------------------------------------------------------------

  /** The receiver is still the object it was, up to structural changes. */
  ghost predicate BegunOk(s: State, b: Begun) {
    var h := s.base.heap;
    && b.key.Name? && b.o in h.objs && h.objs[b.o].shape in h.shapes && b.oldShape in h.shapes
    && b.oldSpan == SpanIfShared(h.shapes[b.oldShape])
    && (h.objs[b.o].shape != b.oldShape ==> Sticky(h.shapes[b.oldShape], ShapeOf(h, b.o)))
    && b.o in b.was.objs && b.was.objs[b.o].shape == b.oldShape && b.oldShape in b.was.shapes
    && b.oldSpan == SpanIfShared(b.was.shapes[b.oldShape])
    && b.read in s.base.gc.words && |b.read.refs| == 1 && b.read.refs[0].cell == Live.ShapeCell(b.oldShape)
  }

  /** What the row says, by the immutable shape table alone. */
  ghost predicate RowMeans(h: Heap, w: AddWords) {
    && AddRowSeen(h.shapes, w.row)
    && (w.ordinary ==> IsTransition(h, w.row))
    && (w.ordinary && !w.define ==> ChainDecision(h.shapes, w.row.key, w.row.shapes) == AddOwn)
  }

  /** A prototype is recorded in its tenured cell, or in the nursery cell it is still in. */
  ghost predicate PtrsStand(s: State, w: AddWords) {
    && |w.ptrCells| == |w.row.ptrs|
    && forall i :: 0 <= i < |w.ptrCells| ==>
         || w.ptrCells[i] == Live.ObjectCell(w.row.ptrs[i])
         || (w.row.ptrs[i] in s.base.near && w.ptrCells[i] == s.base.near[w.row.ptrs[i]])
  }

  ghost predicate AddOk(s: State, w: AddWords) {
    && w.life in s.base.gc.rows && Stands(w.life, AddCells(w)) && PtrsStand(s, w) && RowMeans(s.base.heap, w)
  }

  ghost predicate SetOk(s: State, w: SetWords) {
    && w.life in s.base.gc.rows && Live.Records(w.life, [Live.ShapeCell(w.row.recvShape)])
    && SetRowOk(s.base.heap.shapes, w.row)
  }

  ghost predicate Inv(s: State) {
    && Live.Inv(s.base)
    && (forall w :: w in s.sets ==> SetOk(s, w))
    && (forall w :: w in s.adds ==> AddOk(s, w))
    && (forall b :: b in s.begun ==> BegunOk(s, b))
  }

  lemma BegunKept(s: State, t: State, b: Begun)
    requires BegunOk(s, b) && b.read in t.base.gc.words
    requires t.base.heap == s.base.heap || Grows(s.base.heap, t.base.heap)
    ensures BegunOk(t, b)
  {
    if t.base.heap != s.base.heap {
      assert Reshapes(s.base.heap, t.base.heap, b.o);
    }
  }

  lemma MeaningKept(h: Heap, h': Heap, w: AddWords)
    requires Grows(h, h') && RowMeans(h, w)
    ensures RowMeans(h', w)
  {
    SeenKept(h, h', w.row);
    DecisionKept(h, h', w.row.key, w.row.shapes);
  }

  lemma PtrsKept(s: State, t: State, w: AddWords)
    requires PtrsStand(s, w) && Stands(w.life, AddCells(w))
    requires NearStays(s, t) || (Live.NearOk(s.base) && Gc.AllTenured(w.life.refs))
    ensures PtrsStand(t, w)
  {
    if !NearStays(s, t) {
      forall i | 0 <= i < |w.ptrCells| ensures w.ptrCells[i] == Live.ObjectCell(w.row.ptrs[i]) {
        assert AddCells(w)[2 + i] == w.ptrCells[i] == w.life.refs[2 + i].cell;
      }
    }
  }

  lemma AddKept(s: State, t: State, w: AddWords)
    requires AddOk(s, w) && w.life in t.base.gc.rows
    requires t.base.heap == s.base.heap || Grows(s.base.heap, t.base.heap)
    requires NearStays(s, t) || (Live.NearOk(s.base) && Gc.AllTenured(w.life.refs))
    ensures AddOk(t, w)
  {
    PtrsKept(s, t, w);
    if t.base.heap != s.base.heap {
      MeaningKept(s.base.heap, t.base.heap, w);
    }
  }

  lemma HeapGrows(s: Live.State, t: Live.State)
    requires Live.Next(s, t)
    ensures t.heap == s.heap || Grows(s.heap, t.heap)
  {
  }

  lemma BaseStepKeeps(s: State, t: State)
    requires Inv(s) && BaseStep(s, t)
    ensures Inv(t)
  {
    Live.StepKeepsInv(s.base, t.base);
    HeapGrows(s.base, t.base);
    forall w | w in t.adds ensures AddOk(t, w) {
      AddKept(s, t, w);
    }
    forall w | w in t.sets ensures SetOk(t, w) {
      assert SetOk(s, w);
    }
    forall b | b in t.begun ensures BegunOk(t, b) {
      BegunKept(s, t, b);
    }
  }

  /** What is kept while the heap stands and the words `t` still has are those of `s`. */
  lemma AsideKeeps(s: State, t: State)
    requires Inv(s) && Aside(s, t)
    ensures Live.Inv(t.base)
    ensures forall w :: w in s.adds && w.life in t.base.gc.rows ==> AddOk(t, w)
    ensures forall w :: w in s.sets && w.life in t.base.gc.rows ==> SetOk(t, w)
    ensures forall b :: b in s.begun && b.read in t.base.gc.words ==> BegunOk(t, b)
  {
    Live.ElsewhereKeeps(s.base, t.base);
    forall w | w in s.adds && w.life in t.base.gc.rows ensures AddOk(t, w) {
      AddKept(s, t, w);
    }
    forall w | w in s.sets && w.life in t.base.gc.rows ensures SetOk(t, w) {
      assert SetOk(s, w);
    }
    forall b | b in s.begun && b.read in t.base.gc.words ensures BegunOk(t, b) {
      BegunKept(s, t, b);
    }
  }

  lemma BeginKeeps(s: State, t: State, b: Begun)
    requires Inv(s) && Begins(s, t, b)
    ensures Inv(t)
  {
    AsideKeeps(s, t);
    forall c | c in t.begun ensures BegunOk(t, c) {
      if c != b {
        assert c in s.begun;
      }
    }
  }

  lemma FillSetKeeps(s: State, t: State, w: SetWords)
    requires Inv(s) && FillsSet(s, t, w)
    ensures Inv(t)
  {
    AsideKeeps(s, t);
    forall v | v in t.sets ensures SetOk(t, v) {
      if v != w {
        assert v in s.sets;
      }
    }
  }

  /** Whatever ran, a row's populate establishes what the row means. */
  lemma PopulatedMeans(s: State, b: Begun, w: AddWords)
    requires WellFormed(s.base.heap) && BegunOk(s, b) && Populated(s.base.heap, b, w)
    requires w.ordinary ==> WasTheAdd(b, s.base.heap, w.define)
    ensures RowMeans(s.base.heap, w)
  {
    var h := s.base.heap;
    var full :| AddFilled(h, b.o, b.key, b.oldShape, b.oldSpan, full) &&
      w.row == if w.define then full.(ptrs := [], shapes := []) else full;
    ChainLengths(h, ShapeOf(h, b.o).proto, full.ptrs, full.shapes);
    assert AddRowSeen(h.shapes, full);
    if w.ordinary {
      OrdinaryMeans(h, b, w, full);
    }
  }

  lemma OrdinaryMeans(h: Heap, b: Begun, w: AddWords, full: AddRow)
    requires WellFormed(h) && b.o in h.objs && b.key.Name? && WasTheAdd(b, h, w.define)
    requires b.was.objs[b.o].shape == b.oldShape && b.oldSpan == SpanIfShared(ShapeOf(b.was, b.o))
    requires AddFilled(h, b.o, b.key, b.oldShape, b.oldSpan, full) && AddRowSeen(h.shapes, full)
    requires w.row == if w.define then full.(ptrs := [], shapes := []) else full
    ensures IsTransition(h, w.row)
    ensures !w.define ==> ChainDecision(h.shapes, w.row.key, w.row.shapes) == AddOwn
  {
    var v :| Adds(b.was, h, b.o, b.key, v);
    AddFillsTransition(b.was, h, b.o, b.key, v, full);
    if !w.define {
      OrdinaryAddFills(b.was, h, b.o, b.key, v, full);
    }
  }

  lemma FillAddKeeps(s: State, t: State, b: Begun, w: AddWords)
    requires Inv(s) && FillsAdd(s, t, b, w)
    ensures Inv(t)
  {
    AsideKeeps(s, t);
    NewMeaning(s, t, b, w);
    NewPtrsStand(s, t, b, w);
    AddsKept(s, t, w);
  }

  lemma NewMeaning(s: State, t: State, b: Begun, w: AddWords)
    requires Inv(s) && FillsAdd(s, t, b, w)
    ensures t.base.heap == s.base.heap && RowMeans(s.base.heap, w)
  {
    assert BegunOk(s, b);
    PopulatedMeans(s, b, w);
  }

  lemma NewPtrsStand(s: State, t: State, b: Begun, w: AddWords)
    requires FillsAdd(s, t, b, w)
    ensures Stands(w.life, AddCells(w)) && PtrsStand(t, w)
  {
  }

  lemma AddsKept(s: State, t: State, w: AddWords)
    requires Live.Inv(t.base) && RowMeans(t.base.heap, w) && Stands(w.life, AddCells(w)) && PtrsStand(t, w)
    requires WordsKept(s, t.(adds := t.adds - {w})) && (w in t.adds ==> w.life in t.base.gc.rows)
    requires forall v :: v in s.adds && v.life in t.base.gc.rows ==> AddOk(t, v)
    requires forall v :: v in s.sets && v.life in t.base.gc.rows ==> SetOk(t, v)
    requires forall c :: c in s.begun && c.read in t.base.gc.words ==> BegunOk(t, c)
    ensures Inv(t)
  {
    forall v | v in t.adds ensures AddOk(t, v) {
      if v != w {
        assert v in s.adds;
      }
    }
  }

  lemma StepKeepsInv(s: State, t: State)
    requires Inv(s) && Next(s, t)
    ensures Inv(t)
  {
    if BaseStep(s, t) {
      BaseStepKeeps(s, t);
    } else if b :| Begins(s, t, b) {
      BeginKeeps(s, t, b);
    } else if w :| FillsSet(s, t, w) {
      FillSetKeeps(s, t, w);
    } else if b, w :| FillsAdd(s, t, b, w) {
      FillAddKeeps(s, t, b, w);
    }
  }

  lemma {:induction false} RunKeepsInv(states: seq<State>, i: nat)
    requires Run(states) && i < |states|
    ensures Inv(states[i])
  {
    if i > 0 {
      RunKeepsInv(states, i - 1);
      StepKeepsInv(states[i - 1], states[i]);
    }
  }

  /** The helper could tell: if the generation word is what it was when the operation began, its fill is sound,
      whatever the operation ran. */
  lemma SameGenerationFill(s: State, t: State, b: Begun, w: AddWords)
    requires Inv(s) && FillsAdd(s, t, b, w) && b.read.gen == s.base.gc.gen && s.base.gc.purges < U32
    ensures w.life.sound
  {
    assert BegunOk(s, b);
    Gc.SameGenerationFillIsSound(s.base.gc, t.base.gc, w.life, b.read, w.life.refs[1..]);
  }

  /** The replay of a transition row is itself a step of such a run. */
  lemma ReplayIsNext(s: State, row: AddRow, o: Addr, v: Value, capacity: nat)
    requires Inv(s) && AddRowSeen(s.base.heap.shapes, row) && IsTransition(s.base.heap, row)
    requires InitGuards(s.base.heap, o, row) && v != Uninit && Fits(s.base.heap, row, capacity)
    ensures InRange(s.base.heap, o, row, capacity)
    ensures Next(s, s.(base := s.base.(heap := Replayed(s.base.heap, o, row, v, capacity))))
  {
    TransitionRowOk(s.base.heap, row);
    ReplaySteps(s.base.heap, o, row, v, capacity);
    SteppedIsNext(s, Replayed(s.base.heap, o, row, v, capacity));
  }

  lemma SteppedIsNext(s: State, h: Heap)
    requires Inv(s) && EngineStep(s.base.heap, h) && h.nursery == s.base.heap.nursery
    ensures Next(s, s.(base := s.base.(heap := h)))
  {
    var t := s.(base := s.base.(heap := h));
    assert Live.Mutates(s.base, t.base);
    forall w | w in t.sets ensures w.life in t.base.gc.rows {
      assert SetOk(s, w);
    }
    forall w | w in t.adds ensures w.life in t.base.gc.rows {
      assert AddOk(s, w);
    }
    forall b | b in t.begun ensures b.read in t.base.gc.words {
      assert BegunOk(s, b);
    }
    assert BaseStep(s, t);
  }

  // ---- such runs exist -------------------------------------------------------------------------

  lemma LivesStay(s: State, t: State)
    requires Inv(s) && s.base.gc.rows <= t.base.gc.rows && s.base.gc.words <= t.base.gc.words
    ensures forall v :: v in s.sets ==> v.life in t.base.gc.rows
    ensures forall v :: v in s.adds ==> v.life in t.base.gc.rows
    ensures forall c :: c in s.begun ==> c.read in t.base.gc.words
  {
    assert forall v :: v in s.sets ==> SetOk(s, v);
    assert forall v :: v in s.adds ==> AddOk(s, v);
    assert forall c :: c in s.begun ==> BegunOk(s, c);
  }

  /** The state with its collector's part replaced: the read side's rows are all kept. */
  lemma AsideStep(s: State, gc: Gc.State)
    requires Inv(s) && Gc.Next(s.base.gc, gc) && gc.loc == s.base.gc.loc && s.base.gc.rows <= gc.rows
    ensures Aside(s, s.(base := s.base.(gc := gc)))
  {
    Live.RowsStay(s.base, gc);
  }

  /** A set or define of a name may begin on any object whose shape is live. */
  lemma CanBegin(s: State, b: Begun)
    requires Inv(s) && b.was == s.base.heap && b.o in b.was.objs && b.key.Name?
    requires b.oldShape == b.was.objs[b.o].shape && b.oldSpan == SpanIfShared(ShapeOf(b.was, b.o))
    requires Live.ShapeCell(b.oldShape) in s.base.gc.loc
    requires b.read == Gc.Read(Live.RefsTo(s.base.gc.loc, [Live.ShapeCell(b.oldShape)]), s.base.gc.gen, s.base.gc.purges)
    ensures var gc := s.base.gc.(words := s.base.gc.words + {b.read}, held := s.base.gc.held + Gc.Cells(b.read.refs));
      Begins(s, s.(base := s.base.(gc := gc), begun := s.begun + {b}), b)
  {
    var gc := s.base.gc.(words := s.base.gc.words + {b.read}, held := s.base.gc.held + Gc.Cells(b.read.refs));
    assert Gc.Reads(s.base.gc, gc, b.read);
    AsideStep(s, gc);
    LivesStay(s, s.(base := s.base.(gc := gc)));
  }

  /** A set row may be filled while its shape is live. */
  lemma CanFillSet(s: State, w: SetWords)
    requires Inv(s) && SetRowOk(s.base.heap.shapes, w.row) && Live.ShapeCell(w.row.recvShape) in s.base.gc.loc
    requires w.life == Live.LifeOf(s.base.gc, [Live.ShapeCell(w.row.recvShape)])
    ensures FillsSet(s, s.(base := s.base.(gc := Live.Written(s.base.gc, w.life)), sets := s.sets + {w}), w)
  {
    Live.CanWrite(s.base.gc, [Live.ShapeCell(w.row.recvShape)], w.life);
    AsideStep(s, Live.Written(s.base.gc, w.life));
    LivesStay(s, s.(base := s.base.(gc := Live.Written(s.base.gc, w.life))));
  }

  /** What a begun operation writes down at its end: the old shape's word as it was read, the other cells' as they are.
      It is sound exactly as `Gc.Fill` says. */
  ghost predicate EndRow(s: State, b: Begun, w: AddWords) {
    && |AddCells(w)| > 0 && (forall i :: 1 <= i < |AddCells(w)| ==> AddCells(w)[i] in s.base.gc.loc)
    && w.life.refs == b.read.refs + Live.RefsTo(s.base.gc.loc, AddCells(w)[1..])
    && w.life.gen == s.base.gc.gen && w.life.born == s.base.gc.purges
    && (w.life.sound <==>
          Gc.Kept(s.base.gc.(held := s.base.gc.held + Gc.Cells(w.life.refs[1..])), b.read.refs))
  }

  function EndedGc(gc: Gc.State, life: Gc.Row): Gc.State
    requires |life.refs| > 0
  {
    gc.(rows := gc.rows + {life}, held := gc.held + Gc.Cells(life.refs[1..]))
  }

  lemma EndIsFill(s: State, b: Begun, w: AddWords)
    requires Inv(s) && b in s.begun && EndRow(s, b, w) && w.row.oldShape == b.oldShape
    ensures |w.life.refs| > 0
    ensures Gc.Fill(s.base.gc, EndedGc(s.base.gc, w.life), w.life, b.read.refs, w.life.refs[1..])
  {
    assert BegunOk(s, b);
    EndRefs(s, b, w);
  }

  lemma EndRefs(s: State, b: Begun, w: AddWords)
    requires |b.read.refs| == 1 && EndRow(s, b, w)
    ensures |w.life.refs| > 0 && w.life.refs == b.read.refs + w.life.refs[1..] && Gc.Named(s.base.gc, w.life.refs[1..])
  {
    assert w.life.refs[1..] == Live.RefsTo(s.base.gc.loc, AddCells(w)[1..]);
  }

  /** Whatever its set or define ran, a row the populate accepts may be filled: no check of the old shape's word. */
  lemma CanFillAdd(s: State, b: Begun, w: AddWords)
    requires Inv(s) && b in s.begun && WellFormed(s.base.heap) && Populated(s.base.heap, b, w)
    requires (w.ordinary ==> WasTheAdd(b, s.base.heap, w.define)) && w.row.oldShape == b.oldShape
    requires |w.ptrCells| == |w.row.ptrs| && EndRow(s, b, w)
    requires forall i :: 0 <= i < |w.ptrCells| ==> w.ptrCells[i] == Live.CellOf(s.base, w.row.ptrs[i])
    ensures |w.life.refs| > 0
    ensures FillsAdd(s, s.(base := s.base.(gc := EndedGc(s.base.gc, w.life)), adds := s.adds + {w}), b, w)
  {
    EndIsFill(s, b, w);
    EndRowStands(s, b, w);
    AsideStep(s, EndedGc(s.base.gc, w.life));
    LivesStay(s, s.(base := s.base.(gc := EndedGc(s.base.gc, w.life))));
  }

  lemma EndRowStands(s: State, b: Begun, w: AddWords)
    requires BegunOk(s, b) && EndRow(s, b, w) && w.row.oldShape == b.oldShape
    ensures Stands(w.life, AddCells(w))
  {
    var refs := Live.RefsTo(s.base.gc.loc, AddCells(w)[1..]);
    forall i | 0 <= i < |AddCells(w)| ensures w.life.refs[i].cell == AddCells(w)[i] {
      if i > 0 {
        assert w.life.refs[i] == refs[i - 1] && AddCells(w)[1..][i - 1] == AddCells(w)[i];
      }
    }
  }

  // ---- hits, word by word ----------------------------------------------------------------------

  /** The row may hit, the receiver's shape word is the recorded one, and its class watches nothing. */
  predicate ReceiverHits(s: State, o: Addr, w: AddWords) {
    && w in s.adds && Gc.CanHit(s.base.gc, w.life) && |w.life.refs| > 0
    && Live.ShapeWordIs(s.base, o, w.life.refs[0].addr)
    && s.base.heap.objs[o].shape in s.base.heap.shapes && !WatchesAdd(ShapeOf(s.base.heap, o))
  }

  function ShapesOf(h: Heap, chain: seq<Addr>): seq<ShapeId>
    requires forall i :: 0 <= i < |chain| ==> chain[i] in h.objs
  {
    seq(|chain|, i requires 0 <= i < |chain| => h.objs[chain[i]].shape)
  }

  /** A set-flavour hit: the objects on the receiver's chain are where the recorded words say, and so are their
      shapes, and the chain ends there. */
  ghost predicate SetHits(s: State, o: Addr, w: AddWords, chain: seq<Addr>) {
    var h, n := s.base.heap, |w.row.ptrs|;
    && !w.define && ReceiverHits(s, o, w) && |chain| == n && |w.life.refs| == 2 + 2 * n
    && (forall i :: 0 <= i < n ==> chain[i] in h.objs)
    && ChainIs(h, ShapeOf(h, o).proto, chain, ShapesOf(h, chain))
    && forall i :: 0 <= i < n ==>
         && Live.PointsAt(s.base, w.life.refs[2 + i].addr, chain[i])
         && Live.ShapeWordIs(s.base, chain[i], w.life.refs[2 + n + i].addr)
  }

  /** A word of a sound row that can hit names its cell, and no other cell is there. */
  lemma WordNames(s: State, life: Gc.Row, cells: seq<Gc.Cell>, i: nat, c: Gc.Cell)
    requires Gc.Inv(s.base.gc) && s.base.gc.purges < U32
    requires Gc.CanHit(s.base.gc, life) && life.sound && Stands(life, cells) && i < |cells|
    ensures cells[i] in s.base.gc.loc && s.base.gc.loc[cells[i]] == life.refs[i].addr
    ensures c in s.base.gc.loc && s.base.gc.loc[c] == life.refs[i].addr ==> c == cells[i]
  {
    Gc.SoundIsNamed(s.base.gc, life);
  }

  /** The receiver has the recorded shape, and the new shape's word names the new shape. */
  lemma ReceiverIs(s: State, o: Addr, w: AddWords)
    requires Inv(s) && ReceiverHits(s, o, w) && w.life.sound && s.base.gc.purges < U32
    ensures InitGuards(s.base.heap, o, w.row)
    ensures |w.life.refs| >= 2 && Live.ShapeCell(w.row.newShape) in s.base.gc.loc
    ensures s.base.gc.loc[Live.ShapeCell(w.row.newShape)] == w.life.refs[1].addr
  {
    assert AddOk(s, w);
    WordNames(s, w.life, AddCells(w), 0, Live.ShapeCell(s.base.heap.objs[o].shape));
    WordNames(s, w.life, AddCells(w), 1, Live.ShapeCell(w.row.newShape));
  }

  /** For any row, sound or not: the receiver whose shape word matches has the recorded shape if and only if the word
      still names it. Otherwise the replay is of another shape's object. */
  lemma ReceiverIsExactly(s: State, o: Addr, w: AddWords)
    requires Inv(s) && ReceiverHits(s, o, w)
    ensures s.base.heap.objs[o].shape == w.row.oldShape <==>
      Live.ShapeCell(w.row.oldShape) in s.base.gc.loc &&
      s.base.gc.loc[Live.ShapeCell(w.row.oldShape)] == w.life.refs[0].addr
  {
    assert Gc.Placed(s.base.gc.loc);
  }

  lemma AddCellAt(w: AddWords, i: nat)
    requires |w.ptrCells| == |w.row.shapes| && i < |w.ptrCells|
    ensures AddCells(w)[2 + i] == w.ptrCells[i]
    ensures AddCells(w)[2 + |w.ptrCells| + i] == Live.ShapeCell(w.row.shapes[i])
  {
  }

  /** An object in a recorded prototype's cell is that prototype. */
  lemma CellNames(s: State, w: AddWords, i: nat, x: Addr)
    requires Live.NearOk(s.base) && PtrsStand(s, w) && i < |w.ptrCells| && Live.CellOf(s.base, x) == w.ptrCells[i]
    ensures x == w.row.ptrs[i]
  {
  }

  lemma HopIs(s: State, o: Addr, w: AddWords, chain: seq<Addr>, i: nat)
    requires Inv(s) && SetHits(s, o, w, chain) && w.life.sound && s.base.gc.purges < U32 && i < |chain|
    ensures chain[i] == w.row.ptrs[i] && i < |w.row.shapes| && s.base.heap.objs[chain[i]].shape == w.row.shapes[i]
  {
    assert AddOk(s, w);
    AddCellAt(w, i);
    HopPtrIs(s, w, i, chain[i]);
    HopShapeIs(s, w, i, chain[i]);
  }

  lemma HopPtrIs(s: State, w: AddWords, i: nat, x: Addr)
    requires Inv(s) && AddOk(s, w) && Gc.CanHit(s.base.gc, w.life) && w.life.sound && s.base.gc.purges < U32
    requires i < |w.row.ptrs| && Live.PointsAt(s.base, w.life.refs[2 + i].addr, x)
    ensures x == w.row.ptrs[i]
  {
    AddCellAt(w, i);
    WordNames(s, w.life, AddCells(w), 2 + i, Live.CellOf(s.base, x));
    CellNames(s, w, i, x);
  }

  lemma HopShapeIs(s: State, w: AddWords, i: nat, x: Addr)
    requires Inv(s) && AddOk(s, w) && Gc.CanHit(s.base.gc, w.life) && w.life.sound && s.base.gc.purges < U32
    requires i < |w.row.ptrs| && Live.ShapeWordIs(s.base, x, w.life.refs[2 + |w.row.ptrs| + i].addr)
    ensures s.base.heap.objs[x].shape == w.row.shapes[i]
  {
    AddCellAt(w, i);
    WordNames(s, w.life, AddCells(w), 2 + |w.row.ptrs| + i, Live.ShapeCell(s.base.heap.objs[x].shape));
  }

  /** A word hit on a sound row passes the guards of the row itself. */
  lemma SetHitIsHit(s: State, o: Addr, w: AddWords, chain: seq<Addr>)
    requires Inv(s) && SetHits(s, o, w, chain) && w.life.sound && s.base.gc.purges < U32
    ensures AddGuards(s.base.heap, o, w.row)
  {
    ReceiverIs(s, o, w);
    assert AddOk(s, w);
    forall i: nat | i < |chain|
      ensures chain[i] == w.row.ptrs[i] && s.base.heap.objs[chain[i]].shape == w.row.shapes[i]
    {
      HopIs(s, o, w, chain, i);
    }
    assert chain == w.row.ptrs && ShapesOf(s.base.heap, chain) == w.row.shapes;
  }

  /** And the words of a sound row that can hit match wherever the row's own guards pass. */
  lemma HitIsReceiverHit(s: State, o: Addr, w: AddWords)
    requires Inv(s) && w in s.adds && Gc.CanHit(s.base.gc, w.life) && w.life.sound && s.base.gc.purges < U32
    requires InitGuards(s.base.heap, o, w.row)
    ensures ReceiverHits(s, o, w)
  {
    assert AddOk(s, w);
    WordNames(s, w.life, AddCells(w), 0, Live.ShapeCell(w.row.oldShape));
  }

  lemma HitIsSetHit(s: State, o: Addr, w: AddWords)
    requires Inv(s) && w in s.adds && !w.define && Gc.CanHit(s.base.gc, w.life) && w.life.sound && s.base.gc.purges < U32
    requires AddGuards(s.base.heap, o, w.row)
    ensures SetHits(s, o, w, w.row.ptrs)
  {
    assert AddOk(s, w);
    HitIsReceiverHit(s, o, w);
    ChainOfGuards(s.base.heap, ShapeOf(s.base.heap, o).proto, w.row.ptrs, w.row.shapes);
    forall i: nat | i < |w.row.ptrs|
      ensures Live.PointsAt(s.base, w.life.refs[2 + i].addr, w.row.ptrs[i])
      ensures Live.ShapeWordIs(s.base, w.row.ptrs[i], w.life.refs[2 + |w.row.ptrs| + i].addr)
    {
      HopPointsAt(s, w, i);
      HopShapeWordIs(s, w, i);
    }
    assert ShapesOf(s.base.heap, w.row.ptrs) == w.row.shapes;
  }

  lemma HopPointsAt(s: State, w: AddWords, i: nat)
    requires Inv(s) && AddOk(s, w) && Gc.CanHit(s.base.gc, w.life) && w.life.sound && s.base.gc.purges < U32
    requires i < |w.row.ptrs|
    ensures Live.PointsAt(s.base, w.life.refs[2 + i].addr, w.row.ptrs[i])
  {
    AddCellAt(w, i);
    WordNames(s, w.life, AddCells(w), 2 + i, w.ptrCells[i]);
  }

  lemma HopShapeWordIs(s: State, w: AddWords, i: nat)
    requires Inv(s) && AddOk(s, w) && Gc.CanHit(s.base.gc, w.life) && w.life.sound && s.base.gc.purges < U32
    requires i < |w.row.ptrs| && w.row.ptrs[i] in s.base.heap.objs
    requires s.base.heap.objs[w.row.ptrs[i]].shape == w.row.shapes[i]
    ensures Live.ShapeWordIs(s.base, w.row.ptrs[i], w.life.refs[2 + |w.row.ptrs| + i].addr)
  {
    AddCellAt(w, i);
    WordNames(s, w.life, AddCells(w), 2 + |w.row.ptrs| + i, Live.ShapeCell(w.row.shapes[i]));
  }

  lemma {:induction false} ChainOfGuards(h: Heap, proto: Proto, ptrs: seq<Addr>, shapes: seq<ShapeId>)
    requires ChainIs(h, proto, ptrs, shapes)
    ensures |ptrs| == |shapes|
    ensures forall i :: 0 <= i < |ptrs| ==> ptrs[i] in h.objs && h.objs[ptrs[i]].shape == shapes[i]
    decreases |ptrs|
  {
    if ptrs != [] {
      ChainOfGuards(h, h.shapes[shapes[0]].proto, ptrs[1..], shapes[1..]);
      forall i | 0 <= i < |ptrs| ensures ptrs[i] in h.objs && h.objs[ptrs[i]].shape == shapes[i] {
        assert i > 0 ==> ptrs[i] == ptrs[1..][i - 1] && shapes[i] == shapes[1..][i - 1];
      }
    }
  }

  // ---- coherence -------------------------------------------------------------------------------

  /** A set hit is the ordinary set's store to the receiver's own slot, at the coordinate the row names. */
  ghost predicate StoreAgrees(h: Heap, recv: Addr, row: SetRow, v: Value)
    requires WellFormed(h) && recv in h.objs
  {
    && row.absSlot < |h.objs[recv].fixed| + |h.objs[recv].dyn|
    && Decide(h, recv, row.key) == StoreOwn(row.absSlot)
    && GetCaches.SlotEncRead(Stored(h, recv, row.absSlot, v).objs[recv], row.slotEnc) == Some(v)
  }

  ghost predicate SetRowsAgree(s: State)
    requires WellFormed(s.base.heap)
  {
    forall w, recv, v ::
      w in s.sets && |w.life.refs| == 1 && Live.ShapeWordIs(s.base, recv, w.life.refs[0].addr) && v != Uninit ==>
        StoreAgrees(s.base.heap, recv, w.row, v)
  }

  /** A set-flavour replay whose words match writes the new shape's live word, and is what the ordinary set does if
      and only if the row is a transition and its chain decides for an add; always, if the row's set was an
      ordinary add. */
  ghost predicate SetReplayAgrees(s: State, o: Addr, w: AddWords, v: Value, capacity: nat)
    requires WellFormed(s.base.heap) && o in s.base.heap.objs
  {
    var h := s.base.heap;
    && AddRowSeen(h.shapes, w.row) && AddGuards(h, o, w.row)
    && |w.life.refs| >= 2 && Live.ShapeCell(w.row.newShape) in s.base.gc.loc
    && s.base.gc.loc[Live.ShapeCell(w.row.newShape)] == w.life.refs[1].addr
    && (ReplayAgrees(h, o, w.row, v, capacity) <==>
          IsTransition(h, w.row) && ChainDecision(h.shapes, w.row.key, w.row.shapes) == AddOwn)
    && (w.ordinary ==> ReplayAgrees(h, o, w.row, v, capacity))
  }

  /** The same of a define-flavour replay, which looks at no chain. */
  ghost predicate DefineReplayAgrees(s: State, o: Addr, w: AddWords, v: Value, capacity: nat)
    requires WellFormed(s.base.heap) && o in s.base.heap.objs
  {
    var h := s.base.heap;
    && AddRowSeen(h.shapes, w.row) && InitGuards(h, o, w.row)
    && |w.life.refs| >= 2 && Live.ShapeCell(w.row.newShape) in s.base.gc.loc
    && s.base.gc.loc[Live.ShapeCell(w.row.newShape)] == w.life.refs[1].addr
    && (ReplayDefines(h, o, w.row, v, capacity) <==> IsTransition(h, w.row))
    && (w.ordinary ==> ReplayDefines(h, o, w.row, v, capacity))
  }

  ghost predicate Coherent(s: State) {
    var h := s.base.heap;
    && WellFormed(h) && SetRowsAgree(s)
    && (forall w, o, chain, v, capacity ::
          SetHits(s, o, w, chain) && w.life.sound && v != Uninit && Fits(h, w.row, capacity) ==>
            SetReplayAgrees(s, o, w, v, capacity))
    && (forall w, o, v, capacity ::
          ReceiverHits(s, o, w) && w.define && w.life.sound && v != Uninit && Fits(h, w.row, capacity) ==>
            DefineReplayAgrees(s, o, w, v, capacity))
  }

  lemma SetRowsDoAgree(s: State)
    requires Inv(s)
    ensures SetRowsAgree(s)
  {
    forall w, recv, v |
      w in s.sets && |w.life.refs| == 1 && Live.ShapeWordIs(s.base, recv, w.life.refs[0].addr) && v != Uninit
      ensures StoreAgrees(s.base.heap, recv, w.row, v)
    {
      assert SetOk(s, w);
      Live.WordNames(s.base, w.life, [Live.ShapeCell(w.row.recvShape)], 0,
                     Live.ShapeCell(s.base.heap.objs[recv].shape));
      SetHitStores(s.base.heap, recv, w.row, v);
    }
  }

  lemma SetReplayDoesAgree(s: State, o: Addr, w: AddWords, chain: seq<Addr>, v: Value, capacity: nat)
    requires Inv(s) && SetHits(s, o, w, chain) && w.life.sound && s.base.gc.purges < U32
    requires v != Uninit && Fits(s.base.heap, w.row, capacity)
    ensures SetReplayAgrees(s, o, w, v, capacity)
  {
    ReceiverIs(s, o, w);
    SetHitIsHit(s, o, w, chain);
    assert AddOk(s, w);
    ReplayRefinesSet(s.base.heap, o, w.row, v, capacity);
  }

  lemma DefineReplayDoesAgree(s: State, o: Addr, w: AddWords, v: Value, capacity: nat)
    requires Inv(s) && ReceiverHits(s, o, w) && w.define && w.life.sound && s.base.gc.purges < U32
    requires v != Uninit && Fits(s.base.heap, w.row, capacity)
    ensures DefineReplayAgrees(s, o, w, v, capacity)
  {
    ReceiverIs(s, o, w);
    assert AddOk(s, w);
    ReplayRefinesDefine(s.base.heap, o, w.row, v, capacity);
  }

  /** Set-cache coherence over real memory, at every point of every run with fewer than 2^32 purges, beside the read
      side's: for every set row, and every soundly filled add row. */
  lemma SetCachesCoherent(states: seq<State>, i: nat)
    requires Run(states) && i < |states| && states[i].base.gc.purges < U32
    ensures Coherent(states[i]) && Live.Coherent(states[i].base)
  {
    RunKeepsInv(states, i);
    var s := states[i];
    Live.InvIsCoherent(s.base);
    SetRowsDoAgree(s);
    forall w, o, chain, v, capacity |
      SetHits(s, o, w, chain) && w.life.sound && v != Uninit && Fits(s.base.heap, w.row, capacity)
      ensures SetReplayAgrees(s, o, w, v, capacity)
    {
      SetReplayDoesAgree(s, o, w, chain, v, capacity);
    }
    forall w, o, v, capacity |
      ReceiverHits(s, o, w) && w.define && w.life.sound && v != Uninit && Fits(s.base.heap, w.row, capacity)
      ensures DefineReplayAgrees(s, o, w, v, capacity)
    {
      DefineReplayDoesAgree(s, o, w, v, capacity);
    }
  }
}
