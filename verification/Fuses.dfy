// Global-binding fuses: per binding a cell that caches the global object's own slot while armed, and per
// predicted constant a word that lets compiled code fold reads to the literal while armed. This file is the
// protocol on values; FuseRuntime.dfy runs it on the live regions.
module Fuses {
  import opened Wrappers

  type Name = nat

  const UNARMED: nat := 0
  const ARMED: nat := 1
  const BLOWN: nat := 2

  /** `script` is the predicted callee's script, for cells with a prediction. */
  datatype Cell = Cell(word: nat, bits: nat, script: nat)

  datatype Literal = Literal(name: Name, bits: nat)

  /** The tables the compiler embeds: the binding names, for each the compiled body its value is predicted to
      call (plus one, 0 for none), and the predicted constants. `target` classifies a value's compiled body, `script`
      gives its script. */
  datatype Config = Config(
    names: seq<Name>, expected: seq<nat>, literals: seq<Literal>, target: nat -> nat, script: nat -> nat)

  const FLIP_LIMIT: nat := 1024

  /** `slots` are the global object's own plain data slots. `nursery` are the value bits that point into the
      nursery, `pending` the bindings armed with such a value, `resolved` the slot rows found so far. */
  datatype State = State(
    slots: map<Name, nat>, nursery: set<nat>,
    cells: seq<Cell>, literals: seq<nat>, pending: seq<nat>, armingAllowed: bool,
    flips: seq<nat>, resolved: seq<bool>, epoch: nat)

  predicate Fits(c: Config, s: State) {
    && |c.expected| == |c.names| == |s.cells| == |s.flips| == |s.resolved|
    && |s.literals| == |c.literals|
    && forall i :: 0 <= i < |s.pending| ==> s.pending[i] < |c.names|
  }

  /** The first binding of a name. */
  function FindName(names: seq<Name>, k: Name): (r: Option<nat>)
    ensures r.Some? ==> r.value < |names| && names[r.value] == k && forall j :: 0 <= j < r.value ==> names[j] != k
    ensures r.None? ==> k !in names
  {
    if names == [] then None
    else if names[0] == k then Some(0)
    else match FindName(names[1..], k)
      case None => None
      case Some(i) => Some(i + 1)
  }

  function FindLiteral(ls: seq<Literal>, k: Name): (r: Option<nat>)
    ensures r.Some? ==> r.value < |ls| && ls[r.value].name == k && forall j :: 0 <= j < r.value ==> ls[j].name != k
    ensures r.None? ==> forall j :: 0 <= j < |ls| ==> ls[j].name != k
  {
    if ls == [] then None
    else if ls[0].name == k then Some(0)
    else match FindLiteral(ls[1..], k)
      case None => None
      case Some(i) => Some(i + 1)
  }

  // ---- value fuses -----------------------------------------------------------------------------

  /** Arm an unarmed cell from the global's own slot, unless its value calls another body than the one predicted. */
  function Arm(c: Config, s: State, i: nat): (t: State)
    requires Fits(c, s) && i < |c.names|
    ensures Fits(c, t)
    ensures t.slots == s.slots && t.epoch == s.epoch && t.literals == s.literals
  {
    if !s.armingAllowed || s.cells[i].word != UNARMED || c.names[i] !in s.slots then s
    else
      var bits := s.slots[c.names[i]];
      if c.expected[i] != 0 && c.target(bits) != c.expected[i] - 1 then s
      else s.(cells := s.cells[i := Cell(ARMED, bits, if c.expected[i] != 0 then c.script(bits) else s.cells[i].script)],
              pending := if bits in s.nursery then s.pending + [i] else s.pending)
  }

  /** A value change unarms an armed cell; a rewrite of the same bits leaves it armed. */
  function Change(s: State, i: nat, bits: nat): State
    requires i < |s.cells|
  {
    var t := s.(epoch := s.epoch + 1);
    if s.cells[i].word == ARMED && s.cells[i].bits != bits
    then t.(cells := s.cells[i := s.cells[i].(word := UNARMED)]) else t
  }

  function Blow(s: State, i: nat): State
    requires i < |s.cells|
  {
    if s.cells[i].word == ARMED then s.(cells := s.cells[i := s.cells[i].(word := BLOWN)]) else s
  }

  function ChangeName(c: Config, s: State, k: Name, bits: nat): (t: State)
    requires Fits(c, s)
    ensures Fits(c, t)
    ensures t.slots == s.slots && t.literals == s.literals
    ensures t.epoch == if k in c.names then s.epoch + 1 else s.epoch
  {
    match FindName(c.names, k)
    case None => s
    case Some(i) => Change(s, i, bits)
  }

  function BlowName(c: Config, s: State, k: Name): (t: State)
    requires Fits(c, s)
    ensures Fits(c, t)
    ensures t.slots == s.slots && t.literals == s.literals && t.epoch == s.epoch + 1
  {
    var u := s.(epoch := s.epoch + 1);
    match FindName(c.names, k)
    case None => u
    case Some(i) => Blow(u, i)
  }

  function BlowCell(cell: Cell): Cell {
    if cell.word == ARMED then cell.(word := BLOWN) else cell
  }

  function BlowAll(s: State): State {
    s.(epoch := s.epoch + 1, cells := seq(|s.cells|, i requires 0 <= i < |s.cells| => BlowCell(s.cells[i])))
  }

  function ArmName(c: Config, s: State, k: Name): (t: State)
    requires Fits(c, s)
    ensures Fits(c, t)
    ensures t.slots == s.slots && t.epoch == s.epoch && t.literals == s.literals
  {
    match FindName(c.names, k)
    case None => s
    case Some(i) => Arm(c, s, i)
  }

  /** The leaf behind the inline store: past the flip limit an unarmed cell is blown, before it re-armed. */
  function Written(c: Config, s: State, i: nat): (t: State)
    requires Fits(c, s) && i < |c.names|
    ensures Fits(c, t)
    ensures t.slots == s.slots && t.epoch == s.epoch && t.literals == s.literals
  {
    var u := s.(flips := s.flips[i := s.flips[i] + 1]);
    if u.flips[i] > FLIP_LIMIT then
      if u.cells[i].word == UNARMED then u.(cells := u.cells[i := u.cells[i].(word := BLOWN)]) else u
    else Arm(c, u, i)
  }

  // ---- literal fuses ---------------------------------------------------------------------------

  function LiteralChange(c: Config, s: State, k: Name, bits: nat): (t: State)
    requires Fits(c, s)
    ensures Fits(c, t)
    ensures t == s.(literals := t.literals)
  {
    match FindLiteral(c.literals, k)
    case None => s
    case Some(j) => if bits != c.literals[j].bits then s.(literals := s.literals[j := BLOWN]) else s
  }

  function LiteralBlow(c: Config, s: State, k: Name): (t: State)
    requires Fits(c, s)
    ensures Fits(c, t)
    ensures t == s.(literals := t.literals)
  {
    match FindLiteral(c.literals, k)
    case None => s
    case Some(j) => s.(literals := s.literals[j := BLOWN])
  }

  /** The arm half, after the store: only if the global's own slot now reads the literal back. */
  function LiteralArm(c: Config, s: State, k: Name, bits: nat): (t: State)
    requires Fits(c, s)
    ensures Fits(c, t)
    ensures t == s.(literals := t.literals)
  {
    match FindLiteral(c.literals, k)
    case None => s
    case Some(j) =>
      if bits == c.literals[j].bits && s.literals[j] == UNARMED && k in s.slots && s.slots[k] == bits
      then s.(literals := s.literals[j := ARMED]) else s
  }

  /** What a resumed snapshot arms a literal's word to, from the live global. */
  function LiveWord(c: Config, s: State, j: nat): nat
    requires Fits(c, s) && j < |c.literals|
  {
    var l := c.literals[j];
    if s.literals[j] == UNARMED && l.name in s.slots && s.slots[l.name] == l.bits && l.bits !in s.nursery
    then ARMED else s.literals[j]
  }

  function ArmFromLive(c: Config, s: State): (t: State)
    requires Fits(c, s)
    ensures Fits(c, t)
    ensures t == s.(literals := t.literals)
  {
    s.(literals := seq(|c.literals|, j requires 0 <= j < |c.literals| => LiveWord(c, s, j)))
  }

  // ---- collections -----------------------------------------------------------------------------

  /** Every slot whose bits a collection moved now has the new bits. */
  function Forward(slots: map<Name, nat>, fwd: map<nat, nat>): map<Name, nat> {
    map k | k in slots :: if slots[k] in fwd then fwd[slots[k]] else slots[k]
  }

  /** Unarm and re-arm the listed cells from their slots. */
  function Rearm(c: Config, s: State, list: seq<nat>): (t: State)
    requires Fits(c, s) && forall i :: 0 <= i < |list| ==> list[i] < |c.names|
    ensures Fits(c, t)
    decreases |list|
  {
    if list == [] then s else Rearm(c, RearmOne(c, s, list[0]), list[1..])
  }

  function RearmOne(c: Config, s: State, i: nat): (t: State)
    requires Fits(c, s) && i < |c.names|
    ensures Fits(c, t)
    ensures t.slots == s.slots && t.epoch == s.epoch && t.literals == s.literals
  {
    if s.cells[i].word == ARMED then Arm(c, s.(cells := s.cells[i := s.cells[i].(word := UNARMED)]), i) else s
  }

  /** Try the resolved bindings below `n` that are still unarmed. */
  function Retry(c: Config, s: State, n: nat): (t: State)
    requires Fits(c, s) && n <= |c.names|
    ensures Fits(c, t)
  {
    if n == 0 then s else
      var t := Retry(c, s, n - 1);
      if t.resolved[n - 1] && t.cells[n - 1].word == UNARMED then Arm(c, t, n - 1) else t
  }

  /** The callback at the end of a minor collection: first the listed cells, then the unarmed ones. */
  function MinorEnd(c: Config, s: State): (t: State)
    requires Fits(c, s)
    ensures Fits(c, t)
  {
    Retry(c, Rearm(c, s.(pending := []), s.pending), |c.names|)
  }

  /** The purge clears slot rows and value cells alike, blown ones included; literal words it leaves alone. */
  function PurgeCells(s: State): State {
    s.(cells := seq(|s.cells|, _ => Cell(UNARMED, 0, 0)), resolved := seq(|s.resolved|, _ => false))
  }

  // ---- the protocol ----------------------------------------------------------------------------

  /** Every way a global binding's slot or fuse can change. A store through a compiled helper is
      BeforeStore, any number of other steps, then AfterStore. */
  datatype Op =
    | BeforeStore(name: Name, bits: nat)
    | AfterStore(name: Name, bits: nat)
    | EngineStore(name: Name, bits: nat)              // the engine's store to an existing data slot, with its hook
    | EngineKeyChange(name: Name, slot: Option<nat>)  // the engine's define or delete, with its hook
    | ComputedStore(name: Name)                       // a computed-key store or delete about to run
    | DeleteName(name: Name)                          // a delete by name about to run
    | InlineStore(binding: nat, bits: nat)            // compiled store: unarm on change, store, notify
    | SetGlobal(binding: nat, bits: nat)              // the resolved-slot store helper
    | Resolve(binding: nat, found: bool)
    | FromLive
    | LexicalShadow(name: Name)
    | Distrust
    | NurseryAlloc(bits: nat)
    | MinorCollection(fwd: map<nat, nat>, nursery: set<nat>)
    | MajorPurge(fwd: map<nat, nat>)

  /** A store that does not look at the literal fuses does not contradict an armed one. */
  predicate LiteralAllows(c: Config, s: State, i: nat, bits: nat)
    requires Fits(c, s) && i < |c.names|
  {
    forall j :: 0 <= j < |c.literals| && c.literals[j].name == c.names[i] && s.literals[j] == ARMED ==>
      c.literals[j].bits == bits
  }

  /** What the engine and the embedder promise about each step. Constants are not cells, so no collection moves
      them; tenured bits never become nursery bits; and the two stores that skip the literal fuses never change a
      name whose literal is armed. */
  predicate Enabled(c: Config, s: State, op: Op)
    requires Fits(c, s)
  {
    match op
    case EngineStore(k, _) => k in s.slots
    case InlineStore(i, bits) => i < |c.names| && c.names[i] in s.slots && LiteralAllows(c, s, i, bits)
    case SetGlobal(i, bits) => i < |c.names| && c.names[i] in s.slots && LiteralAllows(c, s, i, bits)
    case Resolve(i, found) => i < |c.names| && (found ==> c.names[i] in s.slots)
    case NurseryAlloc(b) => b !in s.slots.Values && forall j :: 0 <= j < |c.literals| ==> c.literals[j].bits != b
    case MinorCollection(fwd, nursery) =>
      && (forall b :: b in fwd ==> b in s.nursery)
      && (forall k :: k in s.slots ==> (s.slots[k] in s.nursery <==> s.slots[k] in fwd))
      && (forall k :: k in s.slots && s.slots[k] !in s.nursery ==> s.slots[k] !in nursery)
      && (forall j :: 0 <= j < |c.literals| ==> c.literals[j].bits !in nursery)
    case MajorPurge(fwd) =>
      && (forall b :: b in fwd ==> b !in s.nursery && fwd[b] !in s.nursery)
      && (forall j :: 0 <= j < |c.literals| ==> c.literals[j].bits !in fwd)
    case _ => true
  }

  function Step(c: Config, s: State, op: Op): State
    requires Fits(c, s) && Enabled(c, s, op)
  {
    match op
    case BeforeStore(k, bits) => ChangeName(c, LiteralChange(c, s, k, bits), k, bits)
    case AfterStore(k, bits) => ArmName(c, LiteralArm(c, s, k, bits), k)
    case EngineStore(k, bits) => StoreName(c, s, k, bits)
    case EngineKeyChange(k, slot) => KeyChange(c, s, k, slot)
    case ComputedStore(k) => BlowName(c, LiteralBlow(c, s, k), k)
    case DeleteName(k) => DeleteBegins(c, s, k)
    case InlineStore(i, bits) => StoreInline(c, s, i, bits)
    case SetGlobal(i, bits) => StoreResolved(c, s, i, bits)
    case Resolve(i, found) => ResolveRow(c, s, i, found)
    case FromLive => ArmFromLive(c, s)
    case LexicalShadow(k) => Shadowed(c, s, k)
    case Distrust => Distrusted(c, s)
    case NurseryAlloc(b) => s.(nursery := s.nursery + {b})
    case MinorCollection(fwd, nursery) => MinorEnd(c, s.(slots := Forward(s.slots, fwd), nursery := nursery))
    case MajorPurge(fwd) => PurgeCells(s.(slots := Forward(s.slots, fwd)))
  }

  function StoreName(c: Config, s: State, k: Name, bits: nat): (t: State)
    requires Fits(c, s)
    ensures Fits(c, t)
  {
    ChangeName(c, LiteralChange(c, s, k, bits), k, bits).(slots := s.slots[k := bits])
  }

  function KeyChange(c: Config, s: State, k: Name, slot: Option<nat>): (t: State)
    requires Fits(c, s)
    ensures Fits(c, t)
  {
    BlowName(c, LiteralBlow(c, s, k), k).(
      slots := match slot case None => s.slots - {k} case Some(b) => s.slots[k := b])
  }

  function DeleteBegins(c: Config, s: State, k: Name): (t: State)
    requires Fits(c, s)
    ensures Fits(c, t)
  {
    match FindName(c.names, k)
    case None => LiteralBlow(c, s, k)
    case Some(i) => Blow(LiteralBlow(c, s, k), i)
  }

  function StoreInline(c: Config, s: State, i: nat, bits: nat): (t: State)
    requires Fits(c, s) && i < |c.names|
    ensures Fits(c, t)
  {
    var u := Change(s, i, bits).(slots := s.slots[c.names[i] := bits]);
    if s.cells[i].word == ARMED && s.cells[i].bits != bits then Written(c, u, i) else u
  }

  function StoreResolved(c: Config, s: State, i: nat, bits: nat): (t: State)
    requires Fits(c, s) && i < |c.names|
    ensures Fits(c, t)
  {
    Arm(c, Change(s, i, bits).(slots := s.slots[c.names[i] := bits], resolved := s.resolved[i := true]), i)
  }

  function ResolveRow(c: Config, s: State, i: nat, found: bool): (t: State)
    requires Fits(c, s) && i < |c.names|
    ensures Fits(c, t)
  {
    var u := s.(resolved := s.resolved[i := found]);
    if found then Arm(c, u, i) else u
  }

  function Shadowed(c: Config, s: State, k: Name): (t: State)
    requires Fits(c, s)
    ensures Fits(c, t)
  {
    var u := s.(resolved := seq(|c.names|, i requires 0 <= i < |c.names| => s.resolved[i] && c.names[i] != k));
    LiteralBlow(c, BlowName(c, u, k), k)
  }

  function Distrusted(c: Config, s: State): (t: State)
    requires Fits(c, s)
    ensures Fits(c, t)
  {
    BlowAll(s).(literals := seq(|s.literals|, _ => BLOWN), armingAllowed := false)
  }

  ghost predicate Distinct(c: Config) {
    && (forall i, j :: 0 <= i < j < |c.names| ==> c.names[i] != c.names[j])
    && (forall i, j :: 0 <= i < j < |c.literals| ==> c.literals[i].name != c.literals[j].name)
  }

  /** Fuse coherence. An armed value cell is the global's own slot, calls the body predicted for it if any, whose script
      it has, and is on the pending list if its value is in the nursery; an armed literal word means the slot holds the
      literal; nothing is armed once arming
      is disallowed. */
  ghost predicate CellOk(c: Config, s: State, i: nat)
    requires Fits(c, s) && i < |c.names|
  {
    s.cells[i].word == ARMED ==>
      && c.names[i] in s.slots && s.slots[c.names[i]] == s.cells[i].bits
      && (c.expected[i] != 0 ==>
            c.target(s.cells[i].bits) + 1 == c.expected[i] && s.cells[i].script == c.script(s.cells[i].bits))
      && (s.cells[i].bits in s.nursery ==> i in s.pending)
      && s.armingAllowed
  }

  ghost predicate LiteralOk(c: Config, s: State, j: nat)
    requires Fits(c, s) && j < |c.literals|
  {
    && c.literals[j].bits !in s.nursery
    && (s.literals[j] == ARMED ==> c.literals[j].name in s.slots && s.slots[c.literals[j].name] == c.literals[j].bits)
  }

  ghost predicate Coherent(c: Config, s: State) {
    && Fits(c, s)
    && (forall i :: 0 <= i < |c.names| ==> CellOk(c, s, i))
    && (forall j :: 0 <= j < |c.literals| ==> LiteralOk(c, s, j))
  }

  // ---- coherence over whole runs ---------------------------------------------------------------

  /** With distinct names the lookup finds the one entry there is. */
  lemma FindUnique(c: Config, k: Name)
    requires Distinct(c)
    ensures forall i :: 0 <= i < |c.names| && c.names[i] == k ==> FindName(c.names, k) == Some(i)
    ensures forall j :: 0 <= j < |c.literals| && c.literals[j].name == k ==> FindLiteral(c.literals, k) == Some(j)
  {
    forall i | 0 <= i < |c.names| && c.names[i] == k ensures FindName(c.names, k) == Some(i) {
      var r := FindName(c.names, k);
      assert r.Some?;
    }
  }

  /** Arming one cell mends that cell and disturbs no other. */
  lemma ArmKeeps(c: Config, s: State, i: nat)
    requires Fits(c, s) && i < |c.names|
    requires forall j :: 0 <= j < |c.names| ==> CellOk(c, s, j)
    ensures forall j :: 0 <= j < |c.names| ==> CellOk(c, Arm(c, s, i), j)
    ensures var t := Arm(c, s, i);
      t.slots == s.slots && t.nursery == s.nursery && t.literals == s.literals && t.armingAllowed == s.armingAllowed
  {
    forall j | 0 <= j < |c.names| ensures CellOk(c, Arm(c, s, i), j) {
      assert CellOk(c, s, j);
    }
  }

  lemma WrittenKeeps(c: Config, s: State, i: nat)
    requires Coherent(c, s) && i < |c.names|
    ensures Coherent(c, Written(c, s, i))
  {
    var u := s.(flips := s.flips[i := s.flips[i] + 1]);
    assert forall j :: 0 <= j < |c.names| ==> CellOk(c, s, j) ==> CellOk(c, u, j);
    ArmKeeps(c, u, i);
    var t := Written(c, s, i);
    assert forall j :: 0 <= j < |c.names| ==> CellOk(c, u, j) ==> CellOk(c, t, j);
    assert forall j :: 0 <= j < |c.literals| ==> LiteralOk(c, s, j) ==> LiteralOk(c, t, j);
  }

  lemma ChangeKeeps(c: Config, s: State, i: nat, bits: nat)
    requires Coherent(c, s) && i < |c.names|
    ensures Coherent(c, Change(s, i, bits))
  {
    var t := Change(s, i, bits);
    assert forall j :: 0 <= j < |c.names| ==> CellOk(c, s, j) ==> CellOk(c, t, j);
    assert forall j :: 0 <= j < |c.literals| ==> LiteralOk(c, s, j) ==> LiteralOk(c, t, j);
  }

  /** A store to one slot is safe once that binding's cell is not armed with other bits and that name's literal
      word is not armed with other bits. */
  lemma StoreKeeps(c: Config, s: State, k: Name, bits: nat)
    requires Coherent(c, s)
    requires forall i :: 0 <= i < |c.names| && c.names[i] == k && s.cells[i].word == ARMED ==> s.cells[i].bits == bits
    requires forall j :: 0 <= j < |c.literals| && c.literals[j].name == k && s.literals[j] == ARMED ==>
      c.literals[j].bits == bits
    ensures Coherent(c, s.(slots := s.slots[k := bits]))
  {
    var t := s.(slots := s.slots[k := bits]);
    assert forall i :: 0 <= i < |c.names| ==> CellOk(c, s, i) ==> CellOk(c, t, i);
    assert forall j :: 0 <= j < |c.literals| ==> LiteralOk(c, s, j) ==> LiteralOk(c, t, j);
  }

  lemma NameChangeKeeps(c: Config, s: State, k: Name, bits: nat)
    requires Distinct(c) && Coherent(c, s)
    ensures var t := ChangeName(c, LiteralChange(c, s, k, bits), k, bits);
      && Coherent(c, t) && t.slots == s.slots && t.nursery == s.nursery
      && (forall i :: 0 <= i < |c.names| && c.names[i] == k && t.cells[i].word == ARMED ==> t.cells[i].bits == bits)
      && (forall j :: 0 <= j < |c.literals| && c.literals[j].name == k && t.literals[j] == ARMED ==>
            c.literals[j].bits == bits)
  {
    FindUnique(c, k);
    var u := LiteralChange(c, s, k, bits);
    assert forall i :: 0 <= i < |c.names| ==> CellOk(c, s, i) ==> CellOk(c, u, i);
    assert forall j :: 0 <= j < |c.literals| ==> LiteralOk(c, s, j) ==> LiteralOk(c, u, j);
    match FindName(c.names, k)
    case None =>
    case Some(i) => ChangeKeeps(c, u, i, bits);
  }

  lemma NameBlowKeeps(c: Config, s: State, k: Name)
    requires Distinct(c) && Coherent(c, s)
    ensures var t := BlowName(c, LiteralBlow(c, s, k), k);
      && Coherent(c, t) && t.slots == s.slots && t.nursery == s.nursery && t.pending == s.pending
      && (forall i :: 0 <= i < |c.names| && c.names[i] == k ==> t.cells[i].word != ARMED)
      && (forall j :: 0 <= j < |c.literals| && c.literals[j].name == k ==> t.literals[j] == BLOWN)
  {
    FindUnique(c, k);
    var t := BlowName(c, LiteralBlow(c, s, k), k);
    assert forall i :: 0 <= i < |c.names| ==> CellOk(c, s, i) ==> CellOk(c, t, i);
    assert forall j :: 0 <= j < |c.literals| ==> LiteralOk(c, s, j) ==> LiteralOk(c, t, j);
  }

  lemma KeyChangeKeeps(c: Config, s: State, k: Name, slot: Option<nat>)
    requires Distinct(c) && Coherent(c, s)
    ensures Coherent(c, KeyChange(c, s, k, slot))
  {
    NameBlowKeeps(c, s, k);
    var u, t := BlowName(c, LiteralBlow(c, s, k), k), KeyChange(c, s, k, slot);
    assert forall i :: 0 <= i < |c.names| ==> CellOk(c, u, i) ==> CellOk(c, t, i);
    assert forall j :: 0 <= j < |c.literals| ==> LiteralOk(c, u, j) ==> LiteralOk(c, t, j);
  }

  /** A store that skips the literal fuses keeps coherence if and only if it does not contradict an armed one. */
  lemma ResolvedStoreKeeps(c: Config, s: State, i: nat, bits: nat)
    requires Distinct(c) && Coherent(c, s) && i < |c.names|
    ensures Coherent(c, Change(s, i, bits).(slots := s.slots[c.names[i] := bits])) <==> LiteralAllows(c, s, i, bits)
  {
    if LiteralAllows(c, s, i, bits) {
      ChangeKeeps(c, s, i, bits);
      StoreKeeps(c, Change(s, i, bits), c.names[i], bits);
    } else {
      var j :| 0 <= j < |c.literals| && c.literals[j].name == c.names[i] && s.literals[j] == ARMED &&
        c.literals[j].bits != bits;
      assert !LiteralOk(c, Change(s, i, bits).(slots := s.slots[c.names[i] := bits]), j);
    }
  }

  lemma SetGlobalKeeps(c: Config, s: State, i: nat, bits: nat)
    requires Distinct(c) && Coherent(c, s) && i < |c.names|
    ensures Coherent(c, StoreResolved(c, s, i, bits)) <==> LiteralAllows(c, s, i, bits)
  {
    ResolvedStoreKeeps(c, s, i, bits);
    var u := Change(s, i, bits).(slots := s.slots[c.names[i] := bits]);
    if LiteralAllows(c, s, i, bits) {
      RowKeeps(c, u, i, true);
      ArmIsCoherent(c, u.(resolved := u.resolved[i := true]), i);
    } else {
      var j :| 0 <= j < |c.literals| && c.literals[j].name == c.names[i] && s.literals[j] == ARMED &&
        c.literals[j].bits != bits;
      assert !LiteralOk(c, StoreResolved(c, s, i, bits), j);
    }
  }

  /** The pending list covers exactly the cells a minor collection can leave stale. */
  lemma {:induction false} RearmKeeps(c: Config, s: State, list: seq<nat>)
    requires Fits(c, s) && forall i :: 0 <= i < |list| ==> list[i] < |c.names|
    requires forall i :: 0 <= i < |c.names| ==> CellOk(c, s, i) || (i in list && s.armingAllowed)
    ensures forall i :: 0 <= i < |c.names| ==> CellOk(c, Rearm(c, s, list), i)
    ensures var t := Rearm(c, s, list);
      t.slots == s.slots && t.nursery == s.nursery && t.literals == s.literals && t.armingAllowed == s.armingAllowed
    decreases |list|
  {
    if list != [] {
      var i, u := list[0], RearmOne(c, s, list[0]);
      forall j | 0 <= j < |c.names| ensures CellOk(c, u, j) || (j in list[1..] && u.armingAllowed) {
        if j != i && !CellOk(c, s, j) {
          assert j in list[1..];
        }
      }
      RearmKeeps(c, u, list[1..]);
    }
  }

  lemma {:induction false} RetryKeeps(c: Config, s: State, n: nat)
    requires Fits(c, s) && n <= |c.names|
    requires forall i :: 0 <= i < |c.names| ==> CellOk(c, s, i)
    ensures forall i :: 0 <= i < |c.names| ==> CellOk(c, Retry(c, s, n), i)
    ensures var t := Retry(c, s, n);
      t.slots == s.slots && t.nursery == s.nursery && t.literals == s.literals && t.armingAllowed == s.armingAllowed
  {
    if n > 0 {
      RetryKeeps(c, s, n - 1);
      ArmKeeps(c, Retry(c, s, n - 1), n - 1);
    }
  }

  lemma MinorKeeps(c: Config, s: State, fwd: map<nat, nat>, nursery: set<nat>)
    requires Coherent(c, s) && Enabled(c, s, MinorCollection(fwd, nursery))
    ensures Coherent(c, Step(c, s, MinorCollection(fwd, nursery)))
  {
    var moved := s.(slots := Forward(s.slots, fwd), nursery := nursery);
    var u := moved.(pending := []);
    forall i | 0 <= i < |c.names| ensures CellOk(c, u, i) || (i in s.pending && u.armingAllowed) {
      assert CellOk(c, s, i);
    }
    RearmKeeps(c, u, s.pending);
    var v := Rearm(c, u, s.pending);
    RetryKeeps(c, v, |c.names|);
    forall j | 0 <= j < |c.literals| ensures LiteralOk(c, Retry(c, v, |c.names|), j) {
      assert LiteralOk(c, s, j);
    }
  }

  lemma PurgeKeeps(c: Config, s: State, fwd: map<nat, nat>)
    requires Coherent(c, s) && Enabled(c, s, MajorPurge(fwd))
    ensures Coherent(c, Step(c, s, MajorPurge(fwd)))
  {
    var t := Step(c, s, MajorPurge(fwd));
    forall j | 0 <= j < |c.literals| ensures LiteralOk(c, t, j) {
      assert LiteralOk(c, s, j);
    }
  }

  lemma ArmIsCoherent(c: Config, s: State, i: nat)
    requires Coherent(c, s) && i < |c.names|
    ensures Coherent(c, Arm(c, s, i))
  {
    ArmKeeps(c, s, i);
    assert forall j :: 0 <= j < |c.literals| ==> LiteralOk(c, s, j) ==> LiteralOk(c, Arm(c, s, i), j);
  }

  lemma AfterStoreKeeps(c: Config, s: State, k: Name, bits: nat)
    requires Coherent(c, s)
    ensures Coherent(c, ArmName(c, LiteralArm(c, s, k, bits), k))
  {
    var u := LiteralArm(c, s, k, bits);
    assert forall i :: 0 <= i < |c.names| ==> CellOk(c, s, i) ==> CellOk(c, u, i);
    assert forall j :: 0 <= j < |c.literals| ==> LiteralOk(c, s, j) ==> LiteralOk(c, u, j);
    match FindName(c.names, k)
    case None =>
    case Some(i) => ArmIsCoherent(c, u, i);
  }

  lemma RowKeeps(c: Config, s: State, i: nat, found: bool)
    requires Coherent(c, s) && i < |c.names|
    ensures Coherent(c, s.(resolved := s.resolved[i := found]))
  {
    var u := s.(resolved := s.resolved[i := found]);
    assert forall j :: 0 <= j < |c.names| ==> CellOk(c, s, j) ==> CellOk(c, u, j);
    assert forall j :: 0 <= j < |c.literals| ==> LiteralOk(c, s, j) ==> LiteralOk(c, u, j);
  }

  /** Steps that can only blow words, arm a literal from the live slot, or extend the nursery. */
  lemma QuietKeeps(c: Config, s: State, t: State)
    requires Coherent(c, s) && Fits(c, t) && t.slots == s.slots
    requires forall i :: 0 <= i < |c.names| && t.cells[i].word == ARMED ==>
      t.cells[i] == s.cells[i] && t.armingAllowed == s.armingAllowed
    requires t.pending == s.pending
    requires s.nursery <= t.nursery && forall k :: k in s.slots && s.slots[k] in t.nursery ==> s.slots[k] in s.nursery
    requires forall j :: 0 <= j < |c.literals| ==>
      && c.literals[j].bits !in t.nursery
      && (t.literals[j] == ARMED && s.literals[j] != ARMED ==>
            c.literals[j].name in t.slots && t.slots[c.literals[j].name] == c.literals[j].bits)
    ensures Coherent(c, t)
  {
    assert forall i :: 0 <= i < |c.names| ==> CellOk(c, s, i) ==> CellOk(c, t, i);
    assert forall j :: 0 <= j < |c.literals| ==> LiteralOk(c, s, j) ==> LiteralOk(c, t, j);
  }

  lemma KeyBlowKeeps(c: Config, s: State, k: Name)
    requires Coherent(c, s)
    ensures Coherent(c, BlowName(c, s, k))
  {
    NoneInNursery(c, s);
    QuietKeeps(c, s, BlowName(c, s, k));
  }

  lemma AllBlowKeeps(c: Config, s: State)
    requires Coherent(c, s)
    ensures Coherent(c, BlowAll(s))
  {
    NoneInNursery(c, s);
    QuietKeeps(c, s, BlowAll(s));
  }

  lemma LiveArmKeeps(c: Config, s: State)
    requires Coherent(c, s)
    ensures Coherent(c, ArmFromLive(c, s))
  {
    NoneInNursery(c, s);
    QuietKeeps(c, s, ArmFromLive(c, s));
  }

  lemma NoneInNursery(c: Config, s: State)
    requires Coherent(c, s)
    ensures forall j :: 0 <= j < |c.literals| ==> c.literals[j].bits !in s.nursery
  {
    assert forall j :: 0 <= j < |c.literals| ==> LiteralOk(c, s, j) ==> c.literals[j].bits !in s.nursery;
  }

  lemma RowStoreKeeps(c: Config, s: State, op: Op)
    requires Distinct(c) && Coherent(c, s) && Enabled(c, s, op) && (op.InlineStore? || op.SetGlobal?)
    ensures Coherent(c, Step(c, s, op))
  {
    match op
    case InlineStore(i, bits) =>
      ResolvedStoreKeeps(c, s, i, bits);
      WrittenKeeps(c, Change(s, i, bits).(slots := s.slots[c.names[i] := bits]), i);
    case SetGlobal(i, bits) =>
      SetGlobalKeeps(c, s, i, bits);
  }

  lemma StepKeepsCoherent(c: Config, s: State, op: Op)
    requires Distinct(c) && Coherent(c, s) && Enabled(c, s, op)
    ensures Coherent(c, Step(c, s, op))
  {
    match op
    case BeforeStore(k, bits) => NameChangeKeeps(c, s, k, bits);
    case EngineStore(k, bits) =>
      NameChangeKeeps(c, s, k, bits);
      StoreKeeps(c, ChangeName(c, LiteralChange(c, s, k, bits), k, bits), k, bits);
    case EngineKeyChange(k, slot) => KeyChangeKeeps(c, s, k, slot);
    case ComputedStore(k) => NameBlowKeeps(c, s, k);
    case InlineStore(i, bits) => RowStoreKeeps(c, s, op);
    case SetGlobal(i, bits) => RowStoreKeeps(c, s, op);
    case MinorCollection(fwd, nursery) => MinorKeeps(c, s, fwd, nursery);
    case MajorPurge(fwd) => PurgeKeeps(c, s, fwd);
    case AfterStore(k, bits) => AfterStoreKeeps(c, s, k, bits);
    case Resolve(i, found) =>
      RowKeeps(c, s, i, found);
      ArmIsCoherent(c, s.(resolved := s.resolved[i := found]), i);
    case _ => QuietStepKeeps(c, s, op);
  }

  /** A blow, an activation, a distrust, a shadow or a nursery allocation. */
  lemma QuietStepKeeps(c: Config, s: State, op: Op)
    requires Coherent(c, s) && Enabled(c, s, op)
    requires op.DeleteName? || op.FromLive? || op.LexicalShadow? || op.Distrust? || op.NurseryAlloc?
    ensures Coherent(c, Step(c, s, op))
  {
    NoneInNursery(c, s);
    match op
    case Distrust => QuietKeeps(c, s, Distrusted(c, s));
    case LexicalShadow(k) => ShadowKeeps(c, s, k);
    case DeleteName(k) => QuietKeeps(c, s, DeleteBegins(c, s, k));
    case FromLive => LiveArmKeeps(c, s);
    case NurseryAlloc(b) => QuietKeeps(c, s, s.(nursery := s.nursery + {b}));
  }

  lemma ShadowKeeps(c: Config, s: State, k: Name)
    requires Coherent(c, s) && forall j :: 0 <= j < |c.literals| ==> c.literals[j].bits !in s.nursery
    ensures Coherent(c, Shadowed(c, s, k))
  {
    QuietKeeps(c, s, Shadowed(c, s, k));
  }

  /** A sequence of steps each of which the engine allows where it happens. */
  ghost predicate Runs(c: Config, s: State, ops: seq<Op>)
    requires Fits(c, s)
    decreases |ops|
  {
    ops == [] || (Enabled(c, s, ops[0]) && Runs(c, StepFits(c, s, ops[0]), ops[1..]))
  }

  function StepFits(c: Config, s: State, op: Op): (t: State)
    requires Fits(c, s) && Enabled(c, s, op)
    ensures Fits(c, t)
  {
    Step(c, s, op)
  }

  ghost function After(c: Config, s: State, ops: seq<Op>): (t: State)
    requires Fits(c, s) && Runs(c, s, ops)
    ensures Fits(c, t)
    decreases |ops|
  {
    if ops == [] then s else After(c, StepFits(c, s, ops[0]), ops[1..])
  }

  /** Fuse coherence in every reachable state: whatever stores, deletes, redefinitions and collections happen in
      whatever order, an armed cell is the global's own slot and an armed literal is what the slot holds. */
  lemma {:induction false} FusesCoherent(c: Config, s: State, ops: seq<Op>)
    requires Distinct(c) && Coherent(c, s) && Runs(c, s, ops)
    ensures Coherent(c, After(c, s, ops))
    decreases |ops|
  {
    if ops != [] {
      StepKeepsCoherent(c, s, ops[0]);
      FusesCoherent(c, Step(c, s, ops[0]), ops[1..]);
    }
  }

  /** What a fuse-guarded call relies on, at every point of every run: an armed cell is the global's own slot, and a
      value armed under a prediction calls the predicted body. */
  lemma ArmedCallsPredicted(c: Config, s: State, ops: seq<Op>, i: nat)
    requires Distinct(c) && Coherent(c, s) && Runs(c, s, ops) && i < |c.names|
    ensures var t := After(c, s, ops);
      t.cells[i].word == ARMED ==>
        && c.names[i] in t.slots && t.slots[c.names[i]] == t.cells[i].bits
        && (c.expected[i] != 0 ==>
              c.target(t.cells[i].bits) + 1 == c.expected[i] && t.cells[i].script == c.script(t.cells[i].bits))
  {
    FusesCoherent(c, s, ops);
    assert CellOk(c, After(c, s, ops), i);
  }

  // ---- what each step does to every cell and word ----------------------------------------------

  /** Whether binding `i` is armed by an attempt to: exactly if arming is allowed, its cell is unarmed, the global has
      the name as a plain slot, and the value there calls the predicted body, if one is predicted. */
  ghost predicate Arms(c: Config, s: State, i: nat)
    requires Fits(c, s) && i < |c.names|
  {
    && s.armingAllowed && s.cells[i].word == UNARMED && c.names[i] in s.slots
    && (c.expected[i] == 0 || c.target(s.slots[c.names[i]]) + 1 == c.expected[i])
  }

  /** The cell after it was armed: the slot's value, and the predicted callee's script. */
  ghost predicate ArmedFrom(c: Config, s: State, i: nat, cell: Cell)
    requires i < |c.names| == |c.expected| && c.names[i] in s.slots
  {
    && cell.word == ARMED && cell.bits == s.slots[c.names[i]]
    && (c.expected[i] != 0 ==> cell.script == c.script(cell.bits))
  }

  lemma ArmIsExact(c: Config, s: State, i: nat)
    requires Fits(c, s) && i < |c.names|
    ensures var t := Arm(c, s, i);
      && t == s.(cells := t.cells, pending := t.pending)
      && (forall j :: 0 <= j < |c.names| && j != i ==> t.cells[j] == s.cells[j])
      && (if Arms(c, s, i) then ArmedFrom(c, s, i, t.cells[i]) else t.cells[i] == s.cells[i])
      && t.pending == if Arms(c, s, i) && s.slots[c.names[i]] in s.nursery then s.pending + [i] else s.pending
  {
  }

  /** What puts a name out: its armed cell and its literal are blown, and no others change. */
  ghost predicate PutOut(c: Config, s: State, t: State, k: Name)
    requires Fits(c, s) && Fits(c, t)
  {
    && (forall i :: 0 <= i < |c.names| ==>
          t.cells[i] == if c.names[i] == k && s.cells[i].word == ARMED then s.cells[i].(word := BLOWN) else s.cells[i])
    && (forall j :: 0 <= j < |c.literals| ==>
          t.literals[j] == if c.literals[j].name == k then BLOWN else s.literals[j])
  }

  lemma BothBlown(c: Config, s: State, k: Name)
    requires Distinct(c) && Fits(c, s)
    ensures PutOut(c, s, BlowName(c, LiteralBlow(c, s, k), k), k)
    ensures PutOut(c, s, DeleteBegins(c, s, k), k)
  {
    FindUnique(c, k);
  }

  lemma ShadowPutsOut(c: Config, s: State, k: Name)
    requires Distinct(c) && Fits(c, s)
    ensures PutOut(c, s, Shadowed(c, s, k), k)
    ensures forall i :: 0 <= i < |c.names| ==> Shadowed(c, s, k).resolved[i] == (s.resolved[i] && c.names[i] != k)
  {
    FindUnique(c, k);
  }

  /** A computed-key store, a delete by name and a lexical shadow do. The epoch moves at once, or for a delete when the
      engine deletes; a shadow has the binding resolved again. */
  lemma NameGoesOut(c: Config, s: State, op: Op, k: Name)
    requires Distinct(c) && Fits(c, s)
    requires op == ComputedStore(k) || op == DeleteName(k) || op == LexicalShadow(k)
    ensures var t := StepFits(c, s, op);
      && PutOut(c, s, t, k) && t.slots == s.slots && t.epoch == s.epoch + (if op.DeleteName? then 0 else 1)
      && forall i :: 0 <= i < |c.names| ==>
           t.resolved[i] == (s.resolved[i] && !(op.LexicalShadow? && c.names[i] == k))
  {
    match op
    case LexicalShadow(_) => ShadowPutsOut(c, s, k);
    case ComputedStore(_) => BothBlown(c, s, k);
    case DeleteName(_) => BothBlown(c, s, k);
  }

  /** So does a define or a delete, which is also what the slot then is. */
  lemma KeyChangeIsExact(c: Config, s: State, k: Name, slot: Option<nat>)
    requires Distinct(c) && Fits(c, s)
    ensures var t := StepFits(c, s, EngineKeyChange(k, slot));
      && PutOut(c, s, t, k) && t.epoch == s.epoch + 1
      && (k in t.slots <==> slot.Some?) && (slot.Some? ==> t.slots[k] == slot.value)
      && forall n :: n != k ==> (n in t.slots <==> n in s.slots) && (n in s.slots ==> t.slots[n] == s.slots[n])
  {
    FindUnique(c, k);
  }

  /** A store to a name, up to the store itself or with it, unarms its cell if the value changes, blows its literal if
      the value is another, and moves the epoch if it is a binding's. */
  lemma StoreUnarms(c: Config, s: State, op: Op, k: Name, bits: nat)
    requires Distinct(c) && Fits(c, s) && Enabled(c, s, op)
    requires op == BeforeStore(k, bits) || op == EngineStore(k, bits)
    ensures var t := StepFits(c, s, op);
      && (forall i :: 0 <= i < |c.names| ==>
            t.cells[i] == if c.names[i] == k && s.cells[i].word == ARMED && s.cells[i].bits != bits
              then s.cells[i].(word := UNARMED) else s.cells[i])
      && (forall j :: 0 <= j < |c.literals| ==>
            t.literals[j] == if c.literals[j].name == k && c.literals[j].bits != bits then BLOWN else s.literals[j])
      && t.epoch == s.epoch + (if k in c.names then 1 else 0)
      && t.slots == if op.EngineStore? then s.slots[k := bits] else s.slots
  {
    FindUnique(c, k);
  }

  /** After a store by name: its cell is armed from the slot, and its literal exactly if the value stored is the literal
      and the slot reads it back. */
  lemma AfterStoreArms(c: Config, s: State, k: Name, bits: nat)
    requires Distinct(c) && Fits(c, s)
    ensures var t := StepFits(c, s, AfterStore(k, bits));
      && (forall i :: 0 <= i < |c.names| ==>
            if c.names[i] == k && Arms(c, s, i) then ArmedFrom(c, s, i, t.cells[i]) else t.cells[i] == s.cells[i])
      && (forall j :: 0 <= j < |c.literals| ==>
            t.literals[j] ==
              if c.literals[j].name == k && c.literals[j].bits == bits && s.literals[j] == UNARMED
                && k in s.slots && s.slots[k] == bits then ARMED else s.literals[j])
      && t.epoch == s.epoch && t.slots == s.slots
  {
    FindUnique(c, k);
    var u := LiteralArm(c, s, k, bits);
    match FindName(c.names, k)
    case None =>
    case Some(i) =>
      ArmIsExact(c, u, i);
      assert Arms(c, u, i) <==> Arms(c, s, i);
  }

  /** Whether these bits may be armed for binding `i`. */
  predicate Welcome(c: Config, s: State, i: nat, bits: nat)
    requires i < |c.expected|
  {
    s.armingAllowed && (c.expected[i] == 0 || c.target(bits) + 1 == c.expected[i])
  }

  ghost predicate OnlyCell(c: Config, s: State, t: State, i: nat, bits: nat)
    requires Fits(c, s) && Fits(c, t) && i < |c.names|
  {
    && t.slots == s.slots[c.names[i] := bits] && t.literals == s.literals && t.epoch == s.epoch + 1
    && forall j :: 0 <= j < |c.names| && j != i ==> t.cells[j] == s.cells[j] && t.flips[j] == s.flips[j]
  }

  /** The resolved-slot store leaves the slot with the value and touches no fuse but the binding's own cell: armed with
      the value if it may be, unarmed if it may not and the value changed, as it was otherwise. */
  lemma ResolvedStoreIsExact(c: Config, s: State, i: nat, bits: nat)
    requires Fits(c, s) && i < |c.names|
    ensures var t := StoreResolved(c, s, i, bits);
      && OnlyCell(c, s, t, i, bits) && t.flips == s.flips && t.resolved == s.resolved[i := true]
      && if s.cells[i].word == BLOWN || (s.cells[i].word == ARMED && s.cells[i].bits == bits)
           || s.cells[i].word > BLOWN then t.cells[i] == s.cells[i]
         else if Welcome(c, s, i, bits) then ArmedFrom(c, t, i, t.cells[i])
         else t.cells[i] == s.cells[i].(word := UNARMED)
  {
    var v := Change(s, i, bits).(slots := s.slots[c.names[i] := bits], resolved := s.resolved[i := true]);
    ArmIsExact(c, v, i);
  }

  /** So does the compiled store, whose cell changes only if it was armed with another value: it is armed again if it
      may be, unless it has flipped more than 1024 times, which blows it. */
  lemma InlineStoreIsExact(c: Config, s: State, i: nat, bits: nat)
    requires Fits(c, s) && i < |c.names|
    ensures var t := StoreInline(c, s, i, bits);
      && OnlyCell(c, s, t, i, bits)
      && if s.cells[i].word != ARMED || s.cells[i].bits == bits then t.cells[i] == s.cells[i] && t.flips == s.flips
         else
           && t.flips[i] == s.flips[i] + 1
           && if t.flips[i] > 1024 then t.cells[i] == s.cells[i].(word := BLOWN)
              else if Welcome(c, s, i, bits) then ArmedFrom(c, t, i, t.cells[i])
              else t.cells[i] == s.cells[i].(word := UNARMED)
  {
    WrittenIsExact(c, Change(s, i, bits).(slots := s.slots[c.names[i] := bits]), i);
  }

  /** The leaf itself, which any code may call. */
  lemma WrittenIsExact(c: Config, s: State, i: nat)
    requires Fits(c, s) && i < |c.names|
    ensures var t := Written(c, s, i);
      && t.flips == s.flips[i := s.flips[i] + 1]
      && (forall j :: 0 <= j < |c.names| && j != i ==> t.cells[j] == s.cells[j])
      && if t.flips[i] > 1024 then
           t.cells[i] == if s.cells[i].word == UNARMED then s.cells[i].(word := BLOWN) else s.cells[i]
         else if Arms(c, s, i) then ArmedFrom(c, s, i, t.cells[i]) else t.cells[i] == s.cells[i]
  {
    var u := s.(flips := s.flips[i := s.flips[i] + 1]);
    ArmIsExact(c, u, i);
    assert Arms(c, u, i) <==> Arms(c, s, i);
  }

  /** Resolving a binding, activation, distrust and the purge. */
  lemma OtherStepsAreExact(c: Config, s: State, op: Op)
    requires Fits(c, s) && Enabled(c, s, op)
    ensures var t := StepFits(c, s, op);
      match op
      case Resolve(i, found) =>
        && t.resolved == s.resolved[i := found] && t.literals == s.literals && t.slots == s.slots
        && (forall j :: 0 <= j < |c.names| && j != i ==> t.cells[j] == s.cells[j])
        && if found && Arms(c, s, i) then ArmedFrom(c, s, i, t.cells[i]) else t.cells[i] == s.cells[i]
      case FromLive =>
        && t == s.(literals := t.literals)
        && forall j :: 0 <= j < |c.literals| ==>
             t.literals[j] ==
               if s.literals[j] == UNARMED && c.literals[j].name in s.slots
                 && s.slots[c.literals[j].name] == c.literals[j].bits && c.literals[j].bits !in s.nursery
               then ARMED else s.literals[j]
      case Distrust =>
        && !t.armingAllowed && t.epoch == s.epoch + 1 && t.slots == s.slots
        && (forall j :: 0 <= j < |c.literals| ==> t.literals[j] == BLOWN)
        && (forall i :: 0 <= i < |c.names| ==>
              t.cells[i] == if s.cells[i].word == ARMED then s.cells[i].(word := BLOWN) else s.cells[i])
      case MajorPurge(fwd) =>
        && t.literals == s.literals && t.epoch == s.epoch && t.slots.Keys == s.slots.Keys
        && (forall k :: k in s.slots ==> t.slots[k] == if s.slots[k] in fwd then fwd[s.slots[k]] else s.slots[k])
        && (forall i :: 0 <= i < |c.names| ==> t.cells[i] == Cell(0, 0, 0) && !t.resolved[i])
      case _ => true
  {
    match op
    case Resolve(i, found) =>
      var u := s.(resolved := s.resolved[i := found]);
      ArmIsExact(c, u, i);
      assert Arms(c, u, i) <==> Arms(c, s, i);
    case _ =>
  }

  /** A minor collection, from a coherent state: a cell armed with a value that cannot have moved stays as it is; one on
      the pending list is armed with the moved value if that still may be; an unarmed one is tried if its slot is
      resolved; a blown one stays blown. */
  ghost predicate Collected(c: Config, s: State, t: State, i: nat)
    requires Fits(c, s) && Fits(c, t) && i < |c.names|
  {
    if s.cells[i].word == ARMED && i !in s.pending then t.cells[i] == s.cells[i]
    else if s.cells[i].word == ARMED then
      if Fresh(c, t, i) then ArmedFrom(c, t, i, t.cells[i]) else t.cells[i] == s.cells[i].(word := UNARMED)
    else if s.cells[i].word == UNARMED && s.resolved[i] && Fresh(c, t, i) then ArmedFrom(c, t, i, t.cells[i])
    else t.cells[i] == s.cells[i]
  }

  /** Whether the slot's value, after the move, may be armed. */
  ghost predicate Fresh(c: Config, t: State, i: nat)
    requires Fits(c, t) && i < |c.names|
  {
    c.names[i] in t.slots && Welcome(c, t, i, t.slots[c.names[i]])
  }

  /** What re-arming the list leaves of cell `i`. */
  lemma {:induction false} RearmIsExact(c: Config, s: State, list: seq<nat>, i: nat)
    requires Fits(c, s) && (forall n :: 0 <= n < |list| ==> list[n] < |c.names|) && i < |c.names|
    ensures var t := Rearm(c, s, list);
      && t == s.(cells := t.cells, pending := t.pending)
      && if i !in list || s.cells[i].word != ARMED then t.cells[i] == s.cells[i]
         else if Fresh(c, s, i) then ArmedFrom(c, s, i, t.cells[i]) else t.cells[i] == s.cells[i].(word := UNARMED)
    decreases |list|
  {
    if list != [] {
      var j, u := list[0], RearmOne(c, s, list[0]);
      if s.cells[j].word == ARMED {
        ArmIsExact(c, s.(cells := s.cells[j := s.cells[j].(word := UNARMED)]), j);
      }
      RearmIsExact(c, u, list[1..], i);
      assert i in list <==> i == j || i in list[1..];
    }
  }

  lemma {:induction false} RetryIsExact(c: Config, s: State, n: nat, i: nat)
    requires Fits(c, s) && n <= |c.names| && i < |c.names|
    ensures var t := Retry(c, s, n);
      && t == s.(cells := t.cells, pending := t.pending)
      && if i < n && s.resolved[i] && s.cells[i].word == UNARMED && Fresh(c, s, i) then ArmedFrom(c, s, i, t.cells[i])
         else t.cells[i] == s.cells[i]
  {
    if n > 0 {
      RetryIsExact(c, s, n - 1, i);
      RetryIsExact(c, s, n - 1, n - 1);
      var t := Retry(c, s, n - 1);
      ArmIsExact(c, t, n - 1);
      assert t.cells[n - 1] == s.cells[n - 1];
      assert Arms(c, t, n - 1) <==> s.cells[n - 1].word == UNARMED && Fresh(c, s, n - 1);
    }
  }

  lemma CollectionIsExact(c: Config, s: State, fwd: map<nat, nat>, nursery: set<nat>, i: nat)
    requires Fits(c, s) && Enabled(c, s, MinorCollection(fwd, nursery)) && i < |c.names|
    ensures var t := StepFits(c, s, MinorCollection(fwd, nursery));
      && t.nursery == nursery && t.slots.Keys == s.slots.Keys && t.literals == s.literals && t.epoch == s.epoch
      && (forall k :: k in s.slots ==> t.slots[k] == if s.slots[k] in fwd then fwd[s.slots[k]] else s.slots[k])
      && Collected(c, s, t, i)
  {
    var u := s.(slots := Forward(s.slots, fwd), nursery := nursery, pending := []);
    RearmIsExact(c, u, s.pending, i);
    RetryIsExact(c, Rearm(c, u, s.pending), |c.names|, i);
  }

  // ---- sticky words and epochs -----------------------------------------------------------------

  /** Blown literals stay blown over every run. */
  lemma {:induction false} BlownLiteralAbsorbs(c: Config, s: State, ops: seq<Op>, j: nat)
    requires Fits(c, s) && Runs(c, s, ops) && j < |c.literals| && s.literals[j] == BLOWN
    ensures After(c, s, ops).literals[j] == BLOWN
    decreases |ops|
  {
    if ops != [] {
      LiteralStep(c, s, ops[0], j);
      BlownLiteralAbsorbs(c, StepFits(c, s, ops[0]), ops[1..], j);
    }
  }

  /** What one step can do to a literal's word: a blown one it leaves; an unarmed one it arms only after a store
      or at activation, and only when the global's own slot reads the literal back. */
  lemma LiteralStep(c: Config, s: State, op: Op, j: nat)
    requires Fits(c, s) && Enabled(c, s, op) && j < |c.literals|
    ensures s.literals[j] == BLOWN ==> StepFits(c, s, op).literals[j] == BLOWN
    ensures var t := StepFits(c, s, op);
      t.literals[j] == ARMED && s.literals[j] != ARMED ==>
        && (op.FromLive? || (op.AfterStore? && op.bits == c.literals[j].bits && op.name == c.literals[j].name))
        && c.literals[j].name in t.slots && t.slots[c.literals[j].name] == c.literals[j].bits
  {
    match op
    case MinorCollection(_, _) => CollectionArmsNoLiteral(c, s, op);
    case AfterStore(k, bits) => AfterStoreLiteral(c, s, k, bits, j);
    case EngineStore(k, bits) => StoreNameLiteral(c, s, k, bits, j);
    case BeforeStore(k, bits) => StoreNameLiteral(c, s, k, bits, j);
    case InlineStore(i, bits) => RowStoreLiterals(c, s, i, bits);
    case SetGlobal(i, bits) => RowStoreLiterals(c, s, i, bits);
    case _ =>
  }

  lemma RowStoreLiterals(c: Config, s: State, i: nat, bits: nat)
    requires Fits(c, s) && i < |c.names|
    ensures StoreInline(c, s, i, bits).literals == s.literals && StoreResolved(c, s, i, bits).literals == s.literals
  {
  }

  lemma AfterStoreLiteral(c: Config, s: State, k: Name, bits: nat, j: nat)
    requires Fits(c, s) && j < |c.literals|
    ensures var t := ArmName(c, LiteralArm(c, s, k, bits), k);
      && t.slots == s.slots && (s.literals[j] == BLOWN ==> t.literals[j] == BLOWN)
      && (t.literals[j] == ARMED && s.literals[j] != ARMED ==>
            k == c.literals[j].name && bits == c.literals[j].bits && k in s.slots && s.slots[k] == bits)
  {
  }

  lemma StoreNameLiteral(c: Config, s: State, k: Name, bits: nat, j: nat)
    requires Fits(c, s) && j < |c.literals|
    ensures var t := StoreName(c, s, k, bits); t.literals[j] == s.literals[j] || t.literals[j] == BLOWN
  {
  }

  lemma CollectionArmsNoLiteral(c: Config, s: State, op: Op)
    requires Fits(c, s) && Enabled(c, s, op) && op.MinorCollection?
    ensures var t := StepFits(c, s, op);
      t.literals == s.literals && t.armingAllowed == s.armingAllowed && (!s.armingAllowed && NoneArmed(s) ==> NoneArmed(t))
  {
    var u := s.(slots := Forward(s.slots, op.fwd), nursery := op.nursery, pending := []);
    RearmLiterals(c, u, s.pending);
    RetryLiterals(c, Rearm(c, u, s.pending), |c.names|);
  }

  lemma {:induction false} RearmLiterals(c: Config, s: State, list: seq<nat>)
    requires Fits(c, s) && forall i :: 0 <= i < |list| ==> list[i] < |c.names|
    ensures var t := Rearm(c, s, list);
      t.literals == s.literals && t.armingAllowed == s.armingAllowed && t.epoch == s.epoch && t.slots == s.slots
    ensures !s.armingAllowed && NoneArmed(s) ==> NoneArmed(Rearm(c, s, list))
    decreases |list|
  {
    if list != [] {
      RearmLiterals(c, RearmOne(c, s, list[0]), list[1..]);
    }
  }

  lemma {:induction false} RetryLiterals(c: Config, s: State, n: nat)
    requires Fits(c, s) && n <= |c.names|
    ensures var t := Retry(c, s, n);
      t.literals == s.literals && t.armingAllowed == s.armingAllowed && t.epoch == s.epoch && t.slots == s.slots
    ensures !s.armingAllowed && NoneArmed(s) ==> NoneArmed(Retry(c, s, n))
  {
    if n > 0 {
      RetryLiterals(c, s, n - 1);
    }
  }

  ghost predicate NoneArmed(s: State) {
    forall i :: 0 <= i < |s.cells| ==> s.cells[i].word != ARMED
  }

  /** Distrust is for ever: after it, no run arms a value cell or a literal word again. */
  ghost predicate Distrusting(s: State) {
    !s.armingAllowed && NoneArmed(s) && forall j :: 0 <= j < |s.literals| ==> s.literals[j] == BLOWN
  }

  lemma DistrustDistrusts(c: Config, s: State)
    requires Fits(c, s)
    ensures Distrusting(StepFits(c, s, Distrust))
  {
  }

  lemma DistrustStep(c: Config, s: State, op: Op)
    requires Fits(c, s) && Enabled(c, s, op) && Distrusting(s)
    ensures Distrusting(StepFits(c, s, op))
  {
    forall j | 0 <= j < |c.literals| ensures StepFits(c, s, op).literals[j] == BLOWN {
      LiteralStep(c, s, op, j);
    }
    if op.MinorCollection? {
      CollectionArmsNoLiteral(c, s, op);
    }
  }

  lemma {:induction false} DistrustIsForever(c: Config, s: State, ops: seq<Op>)
    requires Fits(c, s) && Runs(c, s, ops) && Distrusting(s)
    ensures Distrusting(After(c, s, ops))
    decreases |ops|
  {
    if ops != [] {
      DistrustStep(c, s, ops[0]);
      DistrustIsForever(c, StepFits(c, s, ops[0]), ops[1..]);
    }
  }

  /** The binding's slot is the same in both states: absent in both, or the same bits. */
  ghost predicate SameSlot(c: Config, s: State, t: State, i: nat)
    requires i < |c.names|
  {
    && (c.names[i] in s.slots <==> c.names[i] in t.slots)
    && (c.names[i] in s.slots ==> s.slots[c.names[i]] == t.slots[c.names[i]])
  }

  predicate Collects(op: Op) {
    op.MinorCollection? || op.MajorPurge?
  }

  lemma EpochStep(c: Config, s: State, op: Op)
    requires Fits(c, s) && Enabled(c, s, op)
    ensures s.epoch <= StepFits(c, s, op).epoch
    ensures !Collects(op) && StepFits(c, s, op).epoch == s.epoch ==>
      forall i :: 0 <= i < |c.names| ==> SameSlot(c, s, StepFits(c, s, op), i)
  {
    match op
    case MinorCollection(fwd, nursery) =>
      var u := s.(slots := Forward(s.slots, fwd), nursery := nursery, pending := []);
      RearmLiterals(c, u, s.pending);
      RetryLiterals(c, Rearm(c, u, s.pending), |c.names|);
    case EngineStore(k, bits) => StoreBumps(c, s, k, bits);
    case _ => OtherBumps(c, s, op);
  }

  lemma StoreBumps(c: Config, s: State, k: Name, bits: nat)
    requires Fits(c, s) && k in s.slots
    ensures s.epoch <= StoreName(c, s, k, bits).epoch
    ensures StoreName(c, s, k, bits).epoch == s.epoch ==>
      forall i :: 0 <= i < |c.names| ==> SameSlot(c, s, StoreName(c, s, k, bits), i)
  {
  }

  lemma OtherBumps(c: Config, s: State, op: Op)
    requires Fits(c, s) && Enabled(c, s, op) && !op.MinorCollection? && !op.EngineStore?
    ensures s.epoch <= Step(c, s, op).epoch
    ensures !Collects(op) ==> Step(c, s, op).epoch > s.epoch || Step(c, s, op).slots == s.slots
  {
  }

  /** The binding-write epoch: over any run without a collection, an unchanged epoch proves that no binding's
      slot changed, appeared or went away. */
  lemma {:induction false} EpochPinsBindings(c: Config, s: State, ops: seq<Op>)
    requires Fits(c, s) && Runs(c, s, ops)
    ensures s.epoch <= After(c, s, ops).epoch
    ensures (forall n :: 0 <= n < |ops| ==> !Collects(ops[n])) && After(c, s, ops).epoch == s.epoch ==>
      forall i :: 0 <= i < |c.names| ==> SameSlot(c, s, After(c, s, ops), i)
    decreases |ops|
  {
    if ops != [] {
      var t := StepFits(c, s, ops[0]);
      EpochStep(c, s, ops[0]);
      EpochPinsBindings(c, t, ops[1..]);
      if (forall n :: 0 <= n < |ops| ==> !Collects(ops[n])) && After(c, s, ops).epoch == s.epoch {
        assert !Collects(ops[0]);
        assert forall n :: 0 <= n < |ops| - 1 ==> ops[1..][n] == ops[n + 1];
        assert forall i :: 0 <= i < |c.names| ==>
          SameSlot(c, s, t, i) && SameSlot(c, t, After(c, s, ops), i) ==> SameSlot(c, s, After(c, s, ops), i);
      }
    }
  }

  lemma SameLowWord(a: nat, b: nat)
    requires a <= b < a + U32 && a % U32 == b % U32
    ensures a == b
  {
    assert a == a / U32 * U32 + a % U32 && b == b / U32 * U32 + b % U32;
  }

  /** Compiled code compares the epoch's low 32 bits. That pins the bindings as well, unless the epoch moved by a
      multiple of 2^32 other than none. */
  lemma LowWordPinsBindings(c: Config, s: State, ops: seq<Op>)
    requires Fits(c, s) && Runs(c, s, ops) && forall n :: 0 <= n < |ops| ==> !Collects(ops[n])
    ensures After(c, s, ops).epoch >= s.epoch
    ensures After(c, s, ops).epoch - s.epoch < U32 && After(c, s, ops).epoch % U32 == s.epoch % U32 ==>
      forall i :: 0 <= i < |c.names| ==> SameSlot(c, s, After(c, s, ops), i)
  {
    EpochPinsBindings(c, s, ops);
    if After(c, s, ops).epoch - s.epoch < U32 && After(c, s, ops).epoch % U32 == s.epoch % U32 {
      SameLowWord(s.epoch, After(c, s, ops).epoch);
    }
  }

  /** A blown value cell is revived only by the purge of a major collection. */
  lemma BlownCellWaitsForPurge(c: Config, s: State, op: Op, i: nat)
    requires Fits(c, s) && Enabled(c, s, op) && i < |c.names| && s.cells[i].word == BLOWN
    ensures op.MajorPurge? || StepFits(c, s, op).cells[i].word == BLOWN
  {
    if op.MinorCollection? {
      CollectionSkipsBlown(c, s, op, i);
    }
  }

  lemma CollectionSkipsBlown(c: Config, s: State, op: Op, i: nat)
    requires Fits(c, s) && Enabled(c, s, op) && op.MinorCollection? && i < |c.names| && s.cells[i].word == BLOWN
    ensures StepFits(c, s, op).cells[i].word == BLOWN
  {
    var u := s.(slots := Forward(s.slots, op.fwd), nursery := op.nursery, pending := []);
    RearmSkipsBlown(c, u, s.pending, i);
    RetrySkipsBlown(c, Rearm(c, u, s.pending), |c.names|, i);
  }

  lemma {:induction false} RearmSkipsBlown(c: Config, s: State, list: seq<nat>, i: nat)
    requires Fits(c, s) && (forall n :: 0 <= n < |list| ==> list[n] < |c.names|)
    requires i < |c.names| && s.cells[i].word == BLOWN
    ensures Rearm(c, s, list).cells[i].word == BLOWN
    decreases |list|
  {
    if list != [] {
      RearmSkipsBlown(c, RearmOne(c, s, list[0]), list[1..], i);
    }
  }

  lemma {:induction false} RetrySkipsBlown(c: Config, s: State, n: nat, i: nat)
    requires Fits(c, s) && n <= |c.names| && i < |c.names| && s.cells[i].word == BLOWN
    ensures Retry(c, s, n).cells[i].word == BLOWN
  {
    if n > 0 {
      RetrySkipsBlown(c, s, n - 1, i);
    }
  }

  // ---- why the names must be distinct ----------------------------------------------------------

  /** The hooks stop at the first entry of a name. If the binding table had the same name twice, three steps would
      leave the second entry's cell armed with a value the global no longer has: whatever its prediction, any two
      values of which it admits the first do. */
  lemma DuplicateNamesGoStale(c: Config, s: State, i: nat, j: nat, b1: nat, b2: nat)
    requires Fits(c, s) && i < j < |c.names| && c.names[i] == c.names[j]
    requires s.armingAllowed && s.cells[j].word == UNARMED && b1 != b2
    requires c.expected[j] != 0 ==> c.target(b1) + 1 == c.expected[j]
    ensures var k := c.names[i];
      && Enabled(c, s, EngineKeyChange(k, Some(b1)))
      && var s1 := StepFits(c, s, EngineKeyChange(k, Some(b1)));
      && Enabled(c, s1, Resolve(j, true))
      && var s2 := StepFits(c, s1, Resolve(j, true));
      && Enabled(c, s2, EngineStore(k, b2))
      && !Coherent(c, StepFits(c, s2, EngineStore(k, b2)))
  {
    var k := c.names[i];
    SecondEntryMissed(c, s, i, j, b1, b2);
    assert !CellOk(c, StoreName(c, ResolveRow(c, KeyChange(c, s, k, Some(b1)), j, true), k, b2), j);
  }

  lemma SecondEntryMissed(c: Config, s: State, i: nat, j: nat, b1: nat, b2: nat)
    requires Fits(c, s) && i < j < |c.names| && c.names[i] == c.names[j]
    requires s.armingAllowed && s.cells[j].word == UNARMED && b1 != b2
    requires c.expected[j] != 0 ==> c.target(b1) + 1 == c.expected[j]
    ensures var k := c.names[i];
      var s1 := KeyChange(c, s, k, Some(b1));
      var s2 := ResolveRow(c, s1, j, true);
      var s3 := StoreName(c, s2, k, b2);
      && k in s1.slots && k in s2.slots
      && s3.cells[j].word == ARMED && s3.cells[j].bits == b1 && k in s3.slots && s3.slots[k] == b2
  {
    var k := c.names[i];
    assert FindName(c.names, k).value < j;
    var s1 := KeyChange(c, s, k, Some(b1));
    assert s1.slots[k] == b1 && s1.cells[j] == s.cells[j] && s1.armingAllowed;
    var s2 := ResolveRow(c, s1, j, true);
    assert s2.cells[j].word == ARMED && s2.cells[j].bits == b1 && s2.slots == s1.slots;
  }

  /** So it is with the literal table: a second entry of a name is armed at activation with the rest, and a store then
      blows only the first. */
  lemma DuplicateLiteralsGoStale(c: Config, s: State, i: nat, j: nat, bits: nat)
    requires Fits(c, s) && i < j < |c.literals| && c.literals[i].name == c.literals[j].name
    requires s.literals[j] == UNARMED && c.literals[j].bits !in s.nursery && bits != c.literals[j].bits
    requires c.literals[j].name in s.slots && s.slots[c.literals[j].name] == c.literals[j].bits
    ensures var k := c.literals[j].name;
      && Enabled(c, s, FromLive)
      && var s1 := StepFits(c, s, FromLive);
      && Enabled(c, s1, EngineStore(k, bits))
      && !Coherent(c, StepFits(c, s1, EngineStore(k, bits)))
  {
    var k := c.literals[j].name;
    assert FindLiteral(c.literals, k).value < j;
    var s1 := ArmFromLive(c, s);
    assert s1.literals[j] == ARMED;
    assert StoreName(c, s1, k, bits).literals[j] == ARMED;
    assert !LiteralOk(c, StoreName(c, s1, k, bits), j);
  }
}
