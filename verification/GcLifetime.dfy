// How long a cached address may live. Rows are untraced words: the purges at the ends of a major collection
// and after each slice of a shrinking one, the generation word, and the minor-collection callback are all that keeps
// a row from naming a cell that moved or died. They do not keep a row from being filled with a word that was read
// before a collection.
module GcLifetime {
  import opened Wrappers

  /** A cell's identity, which no program can see; only its address is. A nursery cell that survives a minor
      collection is another cell afterwards. */
  datatype Cell = Tenured(id: nat) | Near(id: nat)
  type Addr = nat

  /** One address word of a row, with the cell that was there when the word was read. */
  datatype Ref = Ref(cell: Cell, addr: Addr)

  /** A row of a region the purge clears, or a row that stays behind under a generation stamp. `born` is the
      number of purges before its fill. `sound`, which is not in memory, says whether at the fill every word that had
      been read earlier still named its cell, and the collection then running, if any, would keep that cell. */
  datatype Row = Row(stamped: bool, gen: nat, refs: seq<Ref>, born: nat, sound: bool)

  /** Words read ahead of a fill, with the generation word and the number of purges at the read. */
  datatype Read = Read(refs: seq<Ref>, gen: nat, at: nat)

  datatype Phase = Idle | Cycle(shrink: bool)

  /** `loc` has every live cell. `held` are the cells whose words were read or written down in this cycle: they were
      live in the mutator's hands, so this cycle's sweep keeps them. */
  datatype State = State(
    loc: map<Cell, Addr>, retired: set<Cell>, phase: Phase, gen: nat, purges: nat, rows: set<Row>, held: set<Cell>,
    words: set<Read>)

  const INITIAL := State(map[], {}, Idle, 0, 0, {}, {}, {})

  /** Drop every row without a stamp; bump the generation word. */
  function Purge(s: State): State {
    s.(gen := (s.gen + 1) % U32, purges := s.purges + 1, rows := set r | r in s.rows && r.stamped)
  }

  ghost predicate Named(s: State, refs: seq<Ref>) {
    forall i :: 0 <= i < |refs| ==> refs[i].cell in s.loc && s.loc[refs[i].cell] == refs[i].addr
  }

  predicate AllTenured(refs: seq<Ref>) {
    forall i :: 0 <= i < |refs| ==> refs[i].cell.Tenured?
  }

  function Cells(refs: seq<Ref>): set<Cell> {
    set i | 0 <= i < |refs| :: refs[i].cell
  }

  /** The words name their cells, and the collection running, unless it purges before the mutator runs again, keeps
      those. */
  ghost predicate Kept(s: State, refs: seq<Ref>) {
    Named(s, refs) && (s.phase == Cycle(false) ==> Cells(refs) <= s.held)
  }

  /** No two live cells share an address, and none is at the null address. */
  ghost predicate Placed(loc: map<Cell, Addr>) {
    && (forall c :: c in loc ==> loc[c] != 0)
    && (forall c, d :: c in loc && d in loc && loc[c] == loc[d] ==> c == d)
  }

  // ---- the steps -------------------------------------------------------------------------------

  /** A new cell, possibly at an address a dead one had. A minor collection's promotions are such steps. */
  ghost predicate Alloc(s: State, t: State) {
    exists c: Cell, a: Addr ::
      c !in s.loc && c !in s.retired && a != 0 && a !in s.loc.Values && t == s.(loc := s.loc[c := a])
  }

  /** A helper reads words it will write down later: a set reads its receiver's shape before it runs. */
  ghost predicate Reads(s: State, t: State, r: Read) {
    && r.gen == s.gen && r.at == s.purges && Named(s, r.refs) && AllTenured(r.refs)
    && t == s.(words := s.words + {r}, held := s.held + Cells(r.refs))
  }

  /** A helper fills a row: with words read at some earlier time, whatever happened since, and words it reads now.
      Rows may be overwritten. */
  ghost predicate Fill(s: State, t: State, row: Row, early: seq<Ref>, now: seq<Ref>) {
    && row.gen == s.gen && row.born == s.purges && row.refs == early + now
    && (early == [] || exists r :: r in s.words && r.refs == early)
    && Named(s, now) && (row.sound <==> Kept(t, early))
    && t.rows <= s.rows + {row}
    && t == s.(rows := t.rows, held := s.held + Cells(now))
  }

  ghost predicate Begin(s: State, t: State, shrink: bool) {
    s.phase.Idle? && t == Purge(s).(phase := Cycle(shrink), held := {})
  }

  /** What major collection work between two mutator windows may do to the tenured cells: free any that are not held,
      and in a shrinking collection alone, move the rest. */
  ghost predicate Collected(s: State, loc: map<Cell, Addr>)
    requires s.phase.Cycle?
  {
    && Placed(loc) && loc.Keys <= s.loc.Keys && s.held * s.loc.Keys <= loc.Keys
    && (forall c :: c in s.loc && c.Near? ==> c in loc && loc[c] == s.loc[c])
    && (!s.phase.shrink ==> forall c :: c in loc ==> loc[c] == s.loc[c])
  }

  function AfterWork(s: State, loc: map<Cell, Addr>): State {
    s.(loc := loc, retired := s.retired + (s.loc.Keys - loc.Keys))
  }

  /** The end of a slice purges in a shrinking collection only. */
  ghost predicate Slice(s: State, t: State, loc: map<Cell, Addr>) {
    && s.phase.Cycle? && Collected(s, loc)
    && t == if s.phase.shrink then Purge(AfterWork(s, loc)) else AfterWork(s, loc)
  }

  ghost predicate End(s: State, t: State, loc: map<Cell, Addr>) {
    s.phase.Cycle? && Collected(s, loc) && t == Purge(AfterWork(s, loc)).(phase := Idle, held := {})
  }

  /** A minor collection empties the nursery; its callback drops every row that names a nursery cell. */
  ghost predicate Minor(s: State, t: State) {
    && t == AfterWork(s, map c | c in s.loc && c.Tenured? :: s.loc[c]).(rows := t.rows)
    && forall row :: row in t.rows ==> row in s.rows && AllTenured(row.refs)
  }

  /** Rows overwritten; words read and not used. */
  ghost predicate Drop(s: State, t: State) {
    t.rows <= s.rows && t.words <= s.words && t == s.(rows := t.rows, words := t.words)
  }

  ghost predicate Next(s: State, t: State) {
    || Alloc(s, t)
    || (exists r :: Reads(s, t, r))
    || (exists row, early, now :: Fill(s, t, row, early, now))
    || (exists shrink :: Begin(s, t, shrink))
    || (exists loc :: Slice(s, t, loc))
    || (exists loc :: End(s, t, loc))
    || Minor(s, t)
    || Drop(s, t)
  }

  ghost predicate Run(states: seq<State>) {
    && |states| > 0 && states[0] == INITIAL
    && forall i :: 0 <= i < |states| - 1 ==> Next(states[i], states[i + 1])
  }

  // ---- safety ----------------------------------------------------------------------------------

  /** A row whose own guards could still let it hit: it is in its table, under the current generation. */
  predicate CanHit(s: State, row: Row) {
    row in s.rows && (row.stamped ==> row.gen == s.gen)
  }

  /** Every row filled soundly that can hit names only live cells, each where it was when its word was read. */
  ghost predicate Safe(s: State) {
    forall row :: CanHit(s, row) && row.sound ==> Named(s, row.refs)
  }

  /** What every step keeps. Sound rows born since the last purge, and words read since then, are kept; older rows
      are all stamped. */
  ghost predicate Inv(s: State) {
    && s.gen == s.purges % U32 && Placed(s.loc)
    && (forall row :: row in s.rows ==> RowInv(s, row))
    && (forall r :: r in s.words ==> ReadInv(s, r))
  }

  ghost predicate RowInv(s: State, row: Row) {
    && row.born <= s.purges && row.gen == row.born % U32
    && (row.stamped || row.born == s.purges)
    && (row.born == s.purges && row.sound ==> Kept(s, row.refs))
  }

  ghost predicate ReadInv(s: State, r: Read) {
    && r.at <= s.purges && r.gen == r.at % U32 && AllTenured(r.refs)
    && (r.at == s.purges ==> Kept(s, r.refs))
  }

  lemma PurgeAges(s: State, t: State)
    requires Inv(s) && t.purges == s.purges + 1 && t.gen == (s.gen + 1) % U32 && Placed(t.loc)
    requires t.rows == (set r | r in s.rows && r.stamped) && t.words == s.words
    ensures Inv(t)
  {
    NextGeneration(s.purges);
    forall row | row in t.rows ensures RowInv(t, row) {
      assert RowInv(s, row);
    }
    forall r | r in t.words ensures ReadInv(t, r) {
      assert ReadInv(s, r);
    }
  }

  lemma NextGeneration(n: nat)
    ensures (n % U32 + 1) % U32 == (n + 1) % U32
  {
  }

  lemma AllocKeepsInv(s: State, t: State)
    requires Inv(s) && Alloc(s, t)
    ensures Inv(t)
  {
    forall row | row in t.rows ensures RowInv(t, row) {
      assert RowInv(s, row);
    }
    forall r | r in t.words ensures ReadInv(t, r) {
      assert ReadInv(s, r);
    }
  }

  lemma ReadsKeepInv(s: State, t: State, r: Read)
    requires Inv(s) && Reads(s, t, r)
    ensures Inv(t)
  {
    forall row | row in t.rows ensures RowInv(t, row) {
      assert RowInv(s, row);
    }
    forall other | other in t.words ensures ReadInv(t, other) {
      assert other == r || ReadInv(s, other);
    }
  }

  /** Words that are kept stay kept over collection work that neither moves nor purges. */
  lemma WorkKeeps(s: State, loc: map<Cell, Addr>, refs: seq<Ref>)
    requires s.phase == Cycle(false) && Collected(s, loc) && Kept(s, refs)
    ensures Kept(AfterWork(s, loc), refs)
  {
    forall i | 0 <= i < |refs| ensures refs[i].cell in loc {
      assert refs[i].cell in Cells(refs);
    }
  }

  lemma WorkKeepsInv(s: State, loc: map<Cell, Addr>)
    requires Inv(s) && s.phase == Cycle(false) && Collected(s, loc)
    ensures Inv(AfterWork(s, loc))
  {
    var t := AfterWork(s, loc);
    forall row | row in t.rows ensures RowInv(t, row) {
      if row.born == t.purges && row.sound {
        WorkKeeps(s, loc, row.refs);
      }
    }
    forall r | r in t.words ensures ReadInv(t, r) {
      if r.at == t.purges {
        WorkKeeps(s, loc, r.refs);
      }
    }
  }

  lemma CellsAppend(early: seq<Ref>, now: seq<Ref>)
    ensures Cells(early + now) == Cells(early) + Cells(now)
  {
    assert forall i :: 0 <= i < |early| ==> (early + now)[i] == early[i];
    assert forall i :: 0 <= i < |now| ==> (early + now)[|early| + i] == now[i];
  }

  lemma FillKeepsInv(s: State, t: State, row: Row, early: seq<Ref>, now: seq<Ref>)
    requires Inv(s) && Fill(s, t, row, early, now)
    ensures Inv(t)
  {
    CellsAppend(early, now);
    forall other | other in t.rows ensures RowInv(t, other) {
      if other !in s.rows {
        assert other == row;
        assert row.sound ==> Named(t, early + now);
      } else {
        assert RowInv(s, other);
      }
    }
  }

  lemma MinorKeepsInv(s: State, t: State)
    requires Inv(s) && Minor(s, t)
    ensures Inv(t)
  {
    forall row | row in t.rows ensures RowInv(t, row) {
      assert RowInv(s, row);
    }
    forall r | r in t.words ensures ReadInv(t, r) {
      assert ReadInv(s, r);
    }
  }

  lemma StepKeepsInv(s: State, t: State)
    requires Inv(s) && Next(s, t)
    ensures Inv(t)
  {
    if Alloc(s, t) {
      AllocKeepsInv(s, t);
    } else if r :| Reads(s, t, r) {
      ReadsKeepInv(s, t, r);
    } else if row, early, now :| Fill(s, t, row, early, now) {
      FillKeepsInv(s, t, row, early, now);
    } else if shrink :| Begin(s, t, shrink) {
      PurgeAges(s, t);
    } else if loc :| Slice(s, t, loc) {
      if s.phase.shrink {
        PurgeAges(s, t);
      } else {
        WorkKeepsInv(s, loc);
      }
    } else if loc :| End(s, t, loc) {
      PurgeAges(s, t);
    } else if Minor(s, t) {
      MinorKeepsInv(s, t);
    }
  }

  lemma {:induction false} RunKeepsInv(states: seq<State>, i: nat)
    requires Run(states) && i < |states|
    ensures Inv(states[i])
  {
    if i > 0 {
      RunKeepsInv(states, i - 1);
      StepKeepsInv(states[i - 1], states[i]);
    }
  }

  /** A stamped row can hit exactly when the purges since its fill are a multiple of 2^32. */
  lemma StampReadsBack(s: State, row: Row)
    requires Inv(s) && row in s.rows && row.stamped
    ensures CanHit(s, row) <==> (s.purges - row.born) % U32 == 0
  {
    var p, b := s.purges, row.born;
    assert p == (p / U32) * U32 + p % U32 && b == (b / U32) * U32 + b % U32;
    assert p - b == (p / U32 - b / U32) * U32 + (p % U32 - b % U32);
  }

  lemma SoundIsNamed(s: State, row: Row)
    requires Inv(s) && CanHit(s, row) && row.sound && s.purges < U32
    ensures Named(s, row.refs)
  {
    assert RowInv(s, row);
    if row.stamped {
      StampReadsBack(s, row);
    }
  }

  /** Safety over whole runs: for any interleaving of allocation, reads, fills, minor collections and sliced major
      collections with fewer than 2^32 purges, no soundly filled row that can hit names a cell that moved or died.
      Every fill whose words are all read at the fill is sound. */
  lemma RowsNeverStale(states: seq<State>, i: nat)
    requires Run(states) && i < |states| && states[i].purges < U32
    ensures Safe(states[i])
  {
    RunKeepsInv(states, i);
    forall row | CanHit(states[i], row) && row.sound ensures Named(states[i], row.refs) {
      SoundIsNamed(states[i], row);
    }
  }

  // ---- words read before a collection ----------------------------------------------------------

  /** Soundness at the fill is exactly what it takes: a row filled unsoundly either names a moved or dead cell at once,
      or one slice of the collection then running makes it, with the row still able to hit. */
  lemma UnsoundGoesStale(s: State, t: State, row: Row, early: seq<Ref>, now: seq<Ref>)
    requires Inv(s) && Fill(s, t, row, early, now) && row in t.rows && !row.sound
    ensures CanHit(t, row)
    ensures !Named(t, row.refs) || exists u :: Next(t, u) && CanHit(u, row) && !Named(u, row.refs)
  {
    if Named(t, row.refs) {
      assert forall i :: 0 <= i < |early| ==> row.refs[i] == early[i];
      assert t.phase == Cycle(false) && Named(t, early);
      var c :| c in Cells(early) && c !in t.held;
      var i :| 0 <= i < |early| && early[i].cell == c;
      var r :| r in s.words && r.refs == early;
      assert ReadInv(s, r) && c.Tenured?;
      var loc := map d | d in t.loc && d != c :: t.loc[d];
      var u := AfterWork(t, loc);
      assert Slice(t, u, loc);
      assert row.refs[i].cell !in u.loc;
      assert Next(t, u) && CanHit(u, row) && !Named(u, row.refs);
    }
  }

  /** What the helper could compare and does not: if the generation word is what it was at the read, the words are
      kept, so a fill with them is sound. */
  lemma SameGenerationIsKept(s: State, r: Read)
    requires Inv(s) && r in s.words && r.gen == s.gen && s.purges < U32
    ensures Kept(s, r.refs)
  {
    assert ReadInv(s, r);
  }

  lemma SameGenerationFillIsSound(s: State, t: State, row: Row, r: Read, now: seq<Ref>)
    requires Inv(s) && r in s.words && r.gen == s.gen && s.purges < U32 && Fill(s, t, row, r.refs, now)
    ensures row.sound
  {
    SameGenerationIsKept(s, r);
  }

  /** The row of a set whose receiver's shape, read at address 8, moved inside the set. */
  const LATE_ROW := Row(true, 2, [Ref(Tenured(1), 8)], 2, false)

  /** The set reads the word; a shrinking collection moves the shape; the set fills; another shape takes the address. */
  function LateFill(): seq<State> {
    var read := Read(LATE_ROW.refs, 0, 0);
    var s1 := INITIAL.(loc := map[Tenured(1) := 8]);
    var s2 := s1.(words := {read}, held := {Tenured(1)});
    var s3 := s2.(phase := Cycle(true), gen := 1, purges := 1, held := {});
    var s4 := s3.(loc := map[Tenured(1) := 16], phase := Idle, gen := 2, purges := 2);
    var s5 := s4.(rows := {LATE_ROW});
    [INITIAL, s1, s2, s3, s4, s5, s5.(loc := s5.loc[Tenured(2) := 8])]
  }

  lemma LateFillReads()
    ensures Next(LateFill()[0], LateFill()[1]) && Next(LateFill()[1], LateFill()[2])
  {
    var r := LateFill();
    assert Tenured(1) !in r[0].loc && 8 !in r[0].loc.Values;
    assert Alloc(r[0], r[1]);
    assert Cells(LATE_ROW.refs) == {Tenured(1)} by {
      assert LATE_ROW.refs[0].cell == Tenured(1);
    }
    assert Reads(r[1], r[2], Read(LATE_ROW.refs, 0, 0));
  }

  lemma LateFillCollects()
    ensures Next(LateFill()[2], LateFill()[3]) && Next(LateFill()[3], LateFill()[4])
  {
    var r := LateFill();
    assert Begin(r[2], r[3], true);
    var moved: map<Cell, Addr> := map[Tenured(1) := 16];
    assert r[3].loc.Keys - moved.Keys == {};
    assert End(r[3], r[4], moved);
  }

  lemma LateFillFills()
    ensures Next(LateFill()[4], LateFill()[5]) && Next(LateFill()[5], LateFill()[6])
  {
    var r := LateFill();
    assert LATE_ROW.refs + [] == LATE_ROW.refs && Cells([]) == {};
    assert LATE_ROW.refs[0].cell == Tenured(1) && !Named(r[5], LATE_ROW.refs);
    assert Read(LATE_ROW.refs, 0, 0) in r[4].words;
    assert Fill(r[4], r[5], LATE_ROW, LATE_ROW.refs, []);
    assert Tenured(2) !in r[5].loc && 8 !in r[5].loc.Values;
    assert Alloc(r[5], r[6]);
  }

  /** A collection inside a set is all it takes: a run of six steps and two purges ends with a row that can hit, whose
      word is the address of a different cell. */
  lemma LateFillIsUnsafe()
    ensures Run(LateFill()) && CanHit(LateFill()[6], LATE_ROW) && LateFill()[6].purges < U32
    ensures LateFill()[6].loc == map[Tenured(1) := 16, Tenured(2) := 8]
    ensures LATE_ROW.refs[0] == Ref(Tenured(1), 8) && !Named(LateFill()[6], LATE_ROW.refs)
  {
    LateFillRuns();
    assert LATE_ROW.refs[0].cell == Tenured(1);
  }

  lemma LateFillRuns()
    ensures Run(LateFill())
  {
    LateFillReads();
    LateFillCollects();
    LateFillFills();
    var r := LateFill();
    forall i | 0 <= i < |r| - 1 ensures Next(r[i], r[i + 1]) {
      assert i == 0 || i == 1 || i == 2 || i == 3 || i == 4 || i == 5;
    }
  }

  // ---- the bound is sharp ----------------------------------------------------------------------

  /** The row of a stamped table filled at the start, naming one cell. */
  const OLD_ROW := Row(true, 0, [Ref(Tenured(1), 8)], 0, true)

  /** The state after the old row's cell was swept and `n` purges went by in all, between collections. */
  function Swept(n: nat): State {
    State(map[], {Tenured(1)}, Idle, n % U32, n, {OLD_ROW}, {}, {})
  }

  /** `n` further whole collections that find nothing to do. */
  ghost function Idling(n: nat): (run: seq<State>)
    ensures |run| == 2 * n + 1 && run[0] == Swept(2) && run[2 * n] == Swept(2 + 2 * n)
    ensures forall i :: 0 <= i < 2 * n ==> Next(run[i], run[i + 1])
  {
    if n == 0 then [Swept(2)] else
      var run := Idling(n - 1);
      var s := run[2 * n - 2];
      var mid := Purge(s).(phase := Cycle(false));
      EmptyCollection(2 * n);
      run + [mid, Swept(2 + 2 * n)]
  }

  lemma EmptyCollection(n: nat)
    ensures var mid := Purge(Swept(n)).(phase := Cycle(false));
      Next(Swept(n), mid) && Next(mid, Swept(n + 2))
  {
    var mid := Purge(Swept(n)).(phase := Cycle(false));
    assert Begin(Swept(n), mid, false);
    assert mid.gen == (n + 1) % U32;
    assert Purge(AfterWork(mid, map[])).(phase := Idle, held := {}) == Swept(n + 2);
    assert End(mid, Swept(n + 2), map[]);
  }

  /** Fill the old row, then one collection that frees its cell. */
  function Opening(): seq<State> {
    var s1 := INITIAL.(loc := map[Tenured(1) := 8]);
    var s2 := s1.(rows := {OLD_ROW}, held := {Tenured(1)});
    var s3 := State(map[Tenured(1) := 8], {}, Cycle(false), 1, 1, {OLD_ROW}, {}, {});
    [INITIAL, s1, s2, s3, Swept(2)]
  }

  lemma OpeningFills()
    ensures Next(Opening()[0], Opening()[1]) && Next(Opening()[1], Opening()[2])
  {
    var r := Opening();
    assert Tenured(1) !in r[0].loc && 8 !in r[0].loc.Values;
    assert Alloc(r[0], r[1]);
    assert Cells(OLD_ROW.refs) == {Tenured(1)} by {
      assert OLD_ROW.refs[0].cell == Tenured(1);
    }
    assert [] + OLD_ROW.refs == OLD_ROW.refs && Cells([]) == {};
    assert Fill(r[1], r[2], OLD_ROW, [], OLD_ROW.refs);
  }

  lemma OpeningCollects()
    ensures Next(Opening()[2], Opening()[3]) && Next(Opening()[3], Opening()[4])
  {
    var r := Opening();
    assert (set row | row in r[2].rows && row.stamped) == {OLD_ROW};
    assert Begin(r[2], r[3], false);
    var none: map<Cell, Addr> := map[];
    assert (set row | row in r[3].rows && row.stamped) == {OLD_ROW};
    assert r[3].loc.Keys - none.Keys == {Tenured(1)};
    assert End(r[3], r[4], none);
  }

  lemma OpeningRuns()
    ensures Run(Opening())
  {
    OpeningFills();
    OpeningCollects();
    var r := Opening();
    forall i | 0 <= i < |r| - 1 ensures Next(r[i], r[i + 1]) {
      assert i == 0 || i == 1 || i == 2 || i == 3;
    }
  }

  /** With 2^32 purges the generation word has come round, and a run exists that ends with a row that can hit
      and names a dead cell. */
  lemma GenerationWrapIsUnsafe()
    ensures exists run: seq<State> :: Run(run) && run[|run| - 1].purges == U32 && !Safe(run[|run| - 1])
  {
    OpeningRuns();
    var n := (U32 - 2) / 2;
    var run := Opening()[..4] + Idling(n);
    assert Opening()[4] == Idling(n)[0];
    forall i | 0 <= i < |run| - 1 ensures Next(run[i], run[i + 1]) {
      if i < 4 {
        assert run[i] == Opening()[i] && run[i + 1] == Opening()[i + 1];
      } else {
        assert run[i] == Idling(n)[i - 4] && run[i + 1] == Idling(n)[i - 3];
      }
    }
    var last := run[|run| - 1];
    assert last == Idling(n)[2 * n] == Swept(U32);
    assert CanHit(last, OLD_ROW) && OLD_ROW.refs[0].cell !in last.loc;
  }
}
