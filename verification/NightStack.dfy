// The value stack, the engine-side entries that build frames on it and call compiled bodies, and compiled generators
// resumed through one of them.
module NightStack {
  import opened NightValue
  import opened Generator
  import opened Wrappers

  const CAPACITY: nat := 256 * 1024
  const HEADROOM: nat := 8 * 1024

  type GenId = nat

  datatype Status = NotEntered | Error | Ok(rval: Value)

  /** What a compiled body does: writes (at offsets from the frame base), new tops (from the frame top), direct
      compiled calls (frame base and size given), entries through the engine, and throwing. A generator's body also
      restores its frame (locals, operands and perhaps the environment go to slots at these offsets), suspends, or
      runs to its end. */
  datatype Act =
    | Write(off: nat, v: Value)
    | Publish(off: nat)
    | Direct(off: nat, size: nat, body: Body)
    | Enter(call: Call)
    | Fail
    | Restore(localsOff: nat, opsOff: nat, envOff: Option<nat>)
    | Suspend(k: nat, localsOff: nat, opsOff: nat, nops: nat, env: Value)
    | Final

  datatype Body = Body(acts: seq<Act>, rval: Value)

  /** The array-like argument of an `apply`. */
  datatype Spread =
    | NullOrUndefined
    | Arguments(overridden: bool, elems: seq<Value>)
    | Packed(length: nat, elems: seq<Value>)
    | Other

  /** A generator script's number of locals and of slots. */
  datatype GenScript = GenScript(nlocals: nat, nslots: nat)

  const NO_SCRIPT := GenScript(0, 0)

  /** A script with `index` 0 has no compiled body. */
  datatype Call =
    | Script(index: nat, callee: Value, thisv: Value, args: seq<Value>, nformals: nat, constructing: bool, body: Body)
    | Global(index: nat, script: Value, globalThis: Value, body: Body)
    | Apply(index: nat, callee: Value, thisv: Value, args: seq<Value>, spread: seq<Spread>, nformals: nat, body: Body)
    | Resume(gen: GenId, code: GenScript, callee: Value, nformals: nat, kind: nat, arg: Value, body: Body)

  function Max(a: nat, b: nat): nat { if a > b then a else b }

  // ---- frames ----------------------------------------------------------------------------------

  function Undefineds(n: nat): (s: seq<Value>)
    ensures |s| == n
  {
    seq(n, _ => Undefined)
  }

  /** The frame a body starts with: callee, this, every actual, and undefined up to the declared formals. */
  function Frame(callee: Value, thisv: Value, args: seq<Value>, nformals: nat): (f: seq<Value>)
    ensures |f| == 2 + Max(|args|, nformals)
  {
    [callee, thisv] + args + Undefineds(Max(|args|, nformals) - |args|)
  }

  /** The actuals of an apply, or none when it must take the generic path. */
  function Spreaded(args: seq<Value>, spread: seq<Spread>): (bool, seq<Value>) {
    if spread == [] then (true, args)
    else match spread[0]
      case NullOrUndefined => (true, [])
      case Arguments(overridden, elems) => if overridden then (false, []) else (true, elems)
      case Packed(length, elems) => if |elems| < length then (false, []) else (true, elems[..length])
      case Other => (false, [])
  }

  /** The frame of each kind of entry. */
  function FrameOf(c: Call): seq<Value> {
    match c
    case Script(_, callee, thisv, args, nformals, _, _) => Frame(callee, thisv, args, nformals)
    case Global(_, script, globalThis, _) => Frame(script, globalThis, [], 0)
    case Apply(_, callee, thisv, args, spread, nformals, _) => Frame(callee, thisv, Spreaded(args, spread).1, nformals)
    case Resume(_, _, callee, nformals, _, _, _) => Frame(callee, ClosingMagic, [], nformals)
  }

  /** How many words an entry leaves above the frame's top for the body to pick up. */
  function AboveSize(c: Call): nat {
    if c.Resume? then 3 else 0
  }

  /** Those of a resume: the descriptor with the saved resume index, the generator, the sent value. */
  function AboveOf(c: Call, gens: map<GenId, Gen>): (above: seq<Value>)
    ensures |above| == AboveSize(c)
  {
    match c
    case Resume(g, _, _, _, kind, arg, _) =>
      [Descriptor(if g in gens && gens[g].phase.Suspended? then gens[g].phase.k else 0, kind), Obj(g), arg]
    case _ => []
  }

  function HeadOf(c: Call): (head: seq<Value>)
    ensures |head| == 2
  {
    match c
    case Global(_, script, globalThis, _) => [script, globalThis]
    case Resume(_, _, callee, _, _, _, _) => [callee, ClosingMagic]
    case _ => [c.callee, c.thisv]
  }

  function ActualsOf(c: Call): seq<Value> {
    match c
    case Script(_, _, _, args, _, _, _) => args
    case Apply(_, _, _, args, spread, _, _) => Spreaded(args, spread).1
    case _ => []
  }

  function PadOf(c: Call): seq<Value> {
    var formals := if c.Global? then 0 else c.nformals;
    Undefineds(Max(|ActualsOf(c)|, formals) - |ActualsOf(c)|)
  }

  /** What a body reads positionally: every actual in order, and undefined for each formal without one. */
  lemma FrameReads(callee: Value, thisv: Value, args: seq<Value>, nformals: nat, i: nat)
    requires i < |args| || i < nformals
    ensures var f := Frame(callee, thisv, args, nformals);
      && f[0] == callee && f[1] == thisv && 2 + i < |f|
      && f[2 + i] == if i < |args| then args[i] else Undefined
  {
    var pad := Undefineds(Max(|args|, nformals) - |args|);
    assert Frame(callee, thisv, args, nformals)[2 + i] == (args + pad)[i];
  }

  /** What an apply passes on: its own arguments, or what its array-like argument holds, if it can be used. */
  predicate Passes(args: seq<Value>, spread: seq<Spread>, actuals: seq<Value>) {
    if spread == [] then actuals == args
    else match spread[0]
      case NullOrUndefined => actuals == []
      case Arguments(overridden, elems) => !overridden && actuals == elems
      case Packed(length, elems) =>
        length <= |elems| && |actuals| == length && forall i :: 0 <= i < length ==> actuals[i] == elems[i]
      case Other => false
  }

  lemma SpreadedIsExact(args: seq<Value>, spread: seq<Spread>)
    ensures forall actuals ::
      Passes(args, spread, actuals) <==> Spreaded(args, spread).0 && actuals == Spreaded(args, spread).1
  {
  }

  /** Callee, this, the actuals in order, and undefined for each formal without one; no more slots than that takes. */
  ghost predicate Holds(s: seq<Value>, callee: Value, thisv: Value, actuals: seq<Value>, nformals: nat) {
    && |s| >= 2 + |actuals| && |s| >= 2 + nformals && (|s| == 2 + |actuals| || |s| == 2 + nformals)
    && s[0] == callee && s[1] == thisv
    && forall i :: 2 <= i < |s| ==> s[i] == if i - 2 < |actuals| then actuals[i - 2] else Undefined
  }

  /** What a body finds at its start, position by position: its frame, and for a resume the words above it. */
  ghost predicate StartsOn(c: Call, gens: map<GenId, Gen>, s: seq<Value>) {
    match c
    case Script(_, callee, thisv, args, nformals, _, _) => Holds(s, callee, thisv, args, nformals)
    case Global(_, script, globalThis, _) => s == [script, globalThis]
    case Apply(_, callee, thisv, args, spread, nformals, _) =>
      exists actuals :: Passes(args, spread, actuals) && Holds(s, callee, thisv, actuals, nformals)
    case Resume(g, _, callee, nformals, kind, arg, _) =>
      && |s| == 2 + nformals + 3 && s[0] == callee && s[1] == ClosingMagic
      && (forall i :: 2 <= i < 2 + nformals ==> s[i] == Undefined)
      && g in gens && gens[g].phase.Suspended? && s[2 + nformals] == Descriptor(gens[g].phase.k, kind)
      && s[3 + nformals] == Obj(g) && s[4 + nformals] == arg
  }

  lemma FrameHolds(callee: Value, thisv: Value, args: seq<Value>, nformals: nat)
    ensures Holds(Frame(callee, thisv, args, nformals), callee, thisv, args, nformals)
  {
    var f := Frame(callee, thisv, args, nformals);
    forall i | 2 <= i < |f| ensures f[i] == if i - 2 < |args| then args[i - 2] else Undefined {
      FrameReads(callee, thisv, args, nformals, i - 2);
    }
  }

  lemma FrameStarts(c: Call, gens: map<GenId, Gen>)
    requires Enterable(c, gens) && (c.Apply? ==> Spreaded(c.args, c.spread).0)
    ensures StartsOn(c, gens, FrameOf(c) + AboveOf(c, gens))
  {
    assert c.Resume? || FrameOf(c) + AboveOf(c, gens) == FrameOf(c);
    match c
    case Script(_, callee, thisv, args, nformals, _, _) => FrameHolds(callee, thisv, args, nformals);
    case Global(_, script, globalThis, _) =>
    case Apply(_, callee, thisv, args, spread, nformals, _) =>
      SpreadedIsExact(args, spread);
      FrameHolds(callee, thisv, Spreaded(args, spread).1, nformals);
    case Resume(_, _, callee, nformals, _, _, _) => FrameHolds(callee, ClosingMagic, [], nformals);
  }

  lemma FrameParts(c: Call)
    ensures FrameOf(c) == HeadOf(c) + ActualsOf(c) + PadOf(c)
  {
  }

  // ---- the contract on bodies ------------------------------------------------------------------

  /** How far a body is in its own generator's life: not resumed as one, entered but its frame not yet restored,
      running, or suspended or run to its end. */
  datatype Stage = Ordinary | Entered | Active | Done

  /** The next stage, if the act is allowed. A resumed body restores its frame before it calls anything, and does so
      once; after it suspends or ends it can still throw, but calls nothing. */
  function Moves(st: Stage, a: Act): Option<Stage> {
    match a
    case Restore(_, _, _) => if st.Entered? then Some(Active) else None
    case Suspend(_, _, _, _, _) => if st.Active? then Some(Done) else None
    case Final => if st.Active? then Some(Done) else None
    case Direct(_, _, _) => if st.Ordinary? || st.Active? then Some(st) else None
    case Enter(_) => if st.Ordinary? || st.Active? then Some(st) else None
    case _ => Some(st)
  }

  predicate Orderly(acts: seq<Act>, st: Stage)
    decreases |acts|
  {
    acts == [] || (Moves(st, acts[0]).Some? && Orderly(acts[1..], Moves(st, acts[0]).value))
  }

  /** Bodies write only at or above their frame and within the headroom, and publish no top below their own. A
      generator's script has slots for its locals and every operand it ever suspends with. */
  predicate Disciplined(b: Body, size: nat, code: GenScript)
    decreases b
  {
    forall i :: 0 <= i < |b.acts| ==>
      match b.acts[i]
      case Write(off, _) => off < size + HEADROOM
      case Publish(off) => off <= HEADROOM
      case Direct(off, size', body) => off >= size && Disciplined(body, size', NO_SCRIPT) && Orderly(body.acts, Ordinary)
      case Enter(c) => DisciplinedCall(c)
      case Fail => true
      case Restore(localsOff, opsOff, envOff) =>
        && code.nlocals <= code.nslots
        && localsOff + code.nlocals <= opsOff && opsOff + (code.nslots - code.nlocals) <= size + HEADROOM
        && (envOff.Some? ==> envOff.value < localsOff)
      case Suspend(_, localsOff, opsOff, nops, _) =>
        && code.nlocals + nops <= code.nslots
        && localsOff + code.nlocals <= size + HEADROOM && opsOff + nops <= size + HEADROOM
      case Final => true
  }

  predicate DisciplinedCall(c: Call)
    decreases c
  {
    if c.Resume? then Disciplined(c.body, |FrameOf(c)|, c.code) && Orderly(c.body.acts, Entered)
    else Disciplined(c.body, |FrameOf(c)|, NO_SCRIPT) && Orderly(c.body.acts, Ordinary)
  }

  /** Whether an entry dispatches at all, ahead of any bound check. */
  predicate Dispatches(c: Call, activated: bool) {
    match c
    case Script(index, _, _, _, _, _, _) => index != 0 && activated
    case Global(index, _, _, _) => index != 0 && activated
    case Apply(index, _, _, args, spread, _, _) => index != 0 && activated && Spreaded(args, spread).0
    case Resume(_, _, _, _, _, _, _) => true
  }

  /** The engine resumes only a suspended generator; its script is the generator's own. */
  predicate Enterable(c: Call, gens: map<GenId, Gen>) {
    c.Resume? ==>
      && c.gen in gens && gens[c.gen].phase.Suspended?
      && gens[c.gen].nlocals == c.code.nlocals && gens[c.gen].nslots == c.code.nslots
  }

  /** An apply meets a hole only while copying, after the bound check. */
  predicate MeetsHole(c: Call) {
    c.Apply? && c.spread != [] && Hole in Spreaded(c.args, c.spread).1
  }

  /** Not taken: no compiled body, the tier not activated, or an apply that can pass nothing on. */
  ghost predicate Declined(c: Call, activated: bool) {
    !c.Resume? && (c.index == 0 || !activated || (c.Apply? && !exists actuals :: Passes(c.args, c.spread, actuals)))
  }

  /** An apply's array-like argument has a hole among what it passes. */
  ghost predicate PassesHole(c: Call) {
    c.Apply? && c.spread != [] && exists actuals :: Passes(c.args, c.spread, actuals) && Hole in actuals
  }

  lemma EntryIsExact(c: Call, activated: bool)
    ensures Dispatches(c, activated) <==> !Declined(c, activated)
    ensures Dispatches(c, activated) ==> (MeetsHole(c) <==> PassesHole(c))
  {
    if c.Apply? {
      SpreadedIsExact(c.args, c.spread);
      assert Spreaded(c.args, c.spread).0 ==> Passes(c.args, c.spread, Spreaded(c.args, c.spread).1);
    }
  }

  /** A constructor's non-object result is replaced by `this`. */
  function Result(c: Call): Value {
    if c.Script? && c.constructing && !c.body.rval.Obj? then c.thisv else c.body.rval
  }

  /** Three stretches side by side are one. */
  lemma SideBySide(s: seq<Value>, at: nat, a: seq<Value>, b: seq<Value>, c: seq<Value>)
    requires at + |a| + |b| + |c| <= |s|
    requires s[at..at + |a|] == a && s[at + |a|..at + |a| + |b|] == b
    requires s[at + |a| + |b|..at + |a| + |b| + |c|] == c
    ensures s[at..at + |a| + |b| + |c|] == a + b + c
  {
  }

  // ---- what entries leave of generators --------------------------------------------------------

  ghost predicate GensOk(gens: map<GenId, Gen>) {
    forall x :: x in gens ==> GenOk(gens[x])
  }

  /** A generator that was running is untouched; one that was not is not left running; no script changes. */
  predicate Bystander(was: Gen, now: Gen) {
    && now.nlocals == was.nlocals && now.nslots == was.nslots
    && if was.phase.Running? then now == was else !now.phase.Running?
  }

  ghost predicate AllBystanders(was: map<GenId, Gen>, now: map<GenId, Gen>) {
    now.Keys == was.Keys && forall x :: x in was ==> Bystander(was[x], now[x])
  }

  /** The same for all but the generator whose body is at work. */
  ghost predicate OthersStand(was: map<GenId, Gen>, now: map<GenId, Gen>, own: Option<GenId>) {
    && now.Keys == was.Keys
    && (forall x :: x in was && own != Some(x) ==> Bystander(was[x], now[x]))
    && (forall x :: x in was ==> now[x].nlocals == was[x].nlocals && now[x].nslots == was[x].nslots)
  }

  /** Where the body at work has brought its own generator. */
  ghost predicate AtStage(gens: map<GenId, Gen>, own: Option<GenId>, code: GenScript, st: Stage) {
    && (own.None? <==> st.Ordinary?)
    && (own.Some? ==>
          && own.value in gens && gens[own.value].nlocals == code.nlocals && gens[own.value].nslots == code.nslots
          && (st.Entered? ==> gens[own.value].phase.Suspended?)
          && (st.Active? ==> gens[own.value].phase.Running?)
          && (st.Done? ==> !gens[own.value].phase.Running?))
  }

  lemma StandThenStand(a: map<GenId, Gen>, b: map<GenId, Gen>, c: map<GenId, Gen>, own: Option<GenId>)
    requires OthersStand(a, b, own) && OthersStand(b, c, own)
    ensures OthersStand(a, c, own)
  {
  }

  // ---- the stack -------------------------------------------------------------------------------

  class Stack {
    const slots: array<Value>
    const activated: bool
    var top: nat
    var gens: map<GenId, Gen>

    ghost predicate Valid()
      reads this
    {
      slots.Length == CAPACITY && top <= slots.Length && GensOk(gens)
    }

    constructor (active: bool)
      ensures Valid() && fresh(slots) && top == 0 && activated == active && gens == map[]
    {
      slots := new Value[CAPACITY](_ => Undefined);
      top, activated, gens := 0, active, map[];
    }

    /** Copy values in from `at` on. */
    method Store(at: nat, vs: seq<Value>)
      requires at + |vs| <= slots.Length
      modifies slots
      ensures slots[at..at + |vs|] == vs
      ensures forall i :: 0 <= i < slots.Length && !(at <= i < at + |vs|) ==> slots[i] == old(slots[i])
    {
      var i := 0;
      while i < |vs|
        invariant 0 <= i <= |vs|
        invariant forall j :: 0 <= j < i ==> slots[at + j] == vs[j]
        invariant forall j :: 0 <= j < slots.Length && !(at <= j < at + |vs|) ==> slots[j] == old(slots[j])
      {
        slots[at + i] := vs[i];
        i := i + 1;
      }
    }

    /** Copy an apply's actuals in, giving up at the first hole. */
    method StoreUnlessHole(at: nat, vs: seq<Value>, check: bool) returns (ok: bool)
      requires at + |vs| <= slots.Length
      modifies slots
      ensures ok <==> !(check && Hole in vs)
      ensures ok ==> slots[at..at + |vs|] == vs
      ensures forall i :: 0 <= i < slots.Length && !(at <= i < at + |vs|) ==> slots[i] == old(slots[i])
    {
      var i := 0;
      while i < |vs|
        invariant 0 <= i <= |vs| && (check ==> Hole !in vs[..i])
        invariant forall j :: 0 <= j < i ==> slots[at + j] == vs[j]
        invariant forall j :: 0 <= j < slots.Length && !(at <= j < at + |vs|) ==> slots[j] == old(slots[j])
      {
        if check && vs[i] == Hole {
          return false;
        }
        slots[at + i] := vs[i];
        assert vs[..i + 1] == vs[..i] + [vs[i]];
        i := i + 1;
      }
      assert vs[..i] == vs;
      return true;
    }

    /** Callee and this, the actuals, the padding. */
    method BuildParts(sp: nat, head: seq<Value>, actuals: seq<Value>, pad: seq<Value>, check: bool) returns (ok: bool)
      requires |head| == 2 && sp + 2 + |actuals| + |pad| <= slots.Length
      modifies slots
      ensures ok <==> !(check && Hole in actuals)
      ensures ok ==> slots[sp..sp + 2 + |actuals| + |pad|] == head + actuals + pad
      ensures forall i :: 0 <= i < sp ==> slots[i] == old(slots[i])
    {
      Store(sp, head);
      ok := StoreUnlessHole(sp + 2, actuals, check);
      if ok {
        Store(sp + 2 + |actuals|, pad);
        assert slots[sp..sp + 2] == head;
        assert slots[sp + 2..sp + 2 + |actuals|] == actuals;
        SideBySide(slots[..], sp, head, actuals, pad);
      }
    }

    /** Build the frame at `sp`. False is a hole, found part-way. */
    method BuildFrame(c: Call, sp: nat) returns (ok: bool)
      requires sp + |FrameOf(c)| + AboveSize(c) <= slots.Length
      modifies slots
      ensures ok <==> !MeetsHole(c)
      ensures ok ==> slots[sp..sp + |FrameOf(c)|] == FrameOf(c)
      ensures ok ==> slots[sp + |FrameOf(c)|..sp + |FrameOf(c)| + AboveSize(c)] == AboveOf(c, gens)
      ensures forall i :: 0 <= i < sp ==> slots[i] == old(slots[i])
    {
      var head, actuals, pad := HeadOf(c), ActualsOf(c), PadOf(c);
      FrameParts(c);
      var hole := c.Apply? && c.spread != [];
      assert hole && Hole in actuals <==> MeetsHole(c);
      ok := BuildParts(sp, head, actuals, pad, hole);
      if !ok {
        return;
      }
      ghost var frame := slots[sp..sp + |FrameOf(c)|];
      Store(sp + |FrameOf(c)|, AboveOf(c, gens));
      assert slots[sp..sp + |FrameOf(c)|] == frame;
    }

    /** A body's restore: its generator's locals, operands and environment land in the frame's slots, and nothing else
        changes. The assert is the one the source releases with. */
    method RestoreFrame(g: GenId, at: nat, ops: nat, envAt: Option<nat>)
      requires Valid() && g in gens && gens[g].phase.Suspended?
      requires at + gens[g].nlocals <= ops && ops + (gens[g].nslots - gens[g].nlocals) <= slots.Length
      requires envAt.Some? ==> envAt.value < at
      modifies this`gens, slots
      ensures Valid() && gens == old(gens)[g := Restored(old(gens)[g])]
      ensures gens[g].phase.Running? && gens[g].saved == [] && gens[g].env == old(gens)[g].env
      ensures var was := old(gens)[g];
        && slots[at..at + was.nlocals] == was.saved[..was.nlocals]
        && slots[ops..ops + |was.saved| - was.nlocals] == was.saved[was.nlocals..]
        && (envAt.Some? ==> slots[envAt.value] == was.env)
      ensures forall i :: 0 <= i < slots.Length && i < at && envAt != Some(i) ==> slots[i] == old(slots[i])
    {
      var was := gens[g];
      assert |was.saved| >= was.nlocals;
      Store(at, was.saved[..was.nlocals]);
      ghost var locals := slots[at..at + was.nlocals];
      Store(ops, was.saved[was.nlocals..]);
      assert slots[at..at + was.nlocals] == locals;
      if envAt.Some? {
        slots[envAt.value] := was.env;
        assert slots[at..at + was.nlocals] == locals;
        assert slots[ops..ops + |was.saved| - was.nlocals] == was.saved[was.nlocals..];
      }
      gens := gens[g := Restored(was)];
    }

    /** A body's suspend, from the frame's slots. The asserts are the ones the source releases with. */
    method SuspendFrame(g: GenId, k: nat, at: nat, ops: nat, nops: nat, env: Value)
      requires Valid() && g in gens && gens[g].phase.Running?
      requires gens[g].nlocals + nops <= gens[g].nslots
      requires at + gens[g].nlocals <= slots.Length && ops + nops <= slots.Length
      modifies this`gens
      ensures Valid()
      ensures gens == old(gens)[g :=
        SuspendedAt(old(gens)[g], k, slots[at..at + old(gens)[g].nlocals], slots[ops..ops + nops], env)]
      ensures gens[g].phase == Suspended(k) && gens[g].env == (if env.Obj? then env else old(gens)[g].env)
      ensures gens[g].saved == slots[at..at + gens[g].nlocals] + slots[ops..ops + nops]
    {
      assert |gens[g].saved| == 0;
      assert gens[g].nslots >= gens[g].nlocals + nops;
      gens := gens[g := SuspendedAt(gens[g], k, slots[at..at + gens[g].nlocals], slots[ops..ops + nops], env)];
    }

    /** A frame suspended at one place on the stack and restored at another: the same locals, operands, operand count
        and environment. */
    method SuspendThenRestore(
      g: GenId, k: nat, at: nat, ops: nat, nops: nat, env: Value, at': nat, ops': nat, envAt: nat)
      requires Valid() && g in gens && gens[g].phase.Running? && gens[g].nlocals + nops <= gens[g].nslots
      requires at + gens[g].nlocals <= slots.Length && ops + nops <= slots.Length
      requires envAt < at' && at' + gens[g].nlocals <= ops'
      requires ops' + (gens[g].nslots - gens[g].nlocals) <= slots.Length
      modifies this`gens, slots
      ensures Valid() && g in gens && gens[g].phase.Running?
      ensures var n := old(gens)[g].nlocals;
        && slots[at'..at' + n] == old(slots[at..at + n])
        && slots[ops'..ops' + nops] == old(slots[ops..ops + nops])
        && slots[envAt] == if env.Obj? then env else old(gens)[g].env
    {
      ghost var locals, operands := slots[at..at + gens[g].nlocals], slots[ops..ops + nops];
      SuspendFrame(g, k, at, ops, nops, env);
      SavedSplits(locals, operands);
      RestoreFrame(g, at', ops', Some(envAt));
    }

    /** Every entry into a compiled body, a resumed generator's included. `depth` entries are active. On every path
        the saved top is back, the slots below it are untouched, and exactly the generators that were running are,
        unchanged. A body that runs starts on exactly its frame, with the headroom free; entries never nest
        deeper than the bound check allows. A resumed generator whose body was entered is suspended again or
        closed, and closed if the body threw. */
    method EnterNight(c: Call, ghost depth: nat)
      returns (status: Status, ghost deepest: nat, ghost started: seq<Value>)
      requires Valid() && DisciplinedCall(c) && Enterable(c, gens) && 2 * depth <= top
      modifies this, slots
      ensures Valid() && top == old(top) && AllBystanders(old(gens), gens)
      ensures forall i :: 0 <= i < old(top) ==> slots[i] == old(slots[i])
      ensures status == NotEntered <==>
        Declined(c, activated) || (PassesHole(c) && old(top) + |FrameOf(c)| + HEADROOM <= CAPACITY)
      ensures !Dispatches(c, activated) ==> status == NotEntered && slots[..] == old(slots[..])
      ensures Dispatches(c, activated) && old(top) + |FrameOf(c)| + AboveSize(c) + HEADROOM > CAPACITY ==>
        status == Error && slots[..] == old(slots[..]) && gens == old(gens)
      ensures status == NotEntered ==> gens == old(gens) && (!Dispatches(c, activated) || MeetsHole(c))
      ensures status.Ok? ==>
        && StartsOn(c, old(gens), started) && |started| == |FrameOf(c)| + AboveSize(c) && Fail !in c.body.acts
        && (c.Script? && c.constructing && c.thisv.Obj? ==> status.rval.Obj?)
        && status.rval ==
             if c.body.rval.Obj? || !c.Script? || !c.constructing then c.body.rval else c.thisv
      ensures c.Resume? && status == Error && old(top) + |FrameOf(c)| + 3 + HEADROOM <= CAPACITY ==>
        gens[c.gen].phase.Closed?
      ensures deepest == depth || 2 * deepest + HEADROOM <= CAPACITY
      decreases c, 1
    {
      deepest, started := depth, [];
      EntryIsExact(c, activated);
      if !Dispatches(c, activated) {
        return NotEntered, depth, started;
      }
      var sp := top;
      var frameTop := sp + |FrameOf(c)|;
      if frameTop + AboveSize(c) + HEADROOM > slots.Length {
        return Error, depth, started;
      }
      var ok := BuildFrame(c, sp);
      if !ok {
        return NotEntered, depth, started;
      }
      started := slots[sp..frameTop] + slots[frameTop..frameTop + AboveSize(c)];
      FrameStarts(c, gens);
      var failed;
      failed, deepest := CallBody(c, sp, frameTop, depth + 1);
      return if failed then Error else Ok(Result(c)), deepest, started;
    }

    /** Publish the frame, run the body on it, close the generator it was resumed for if need be, and restore the
        top. */
    method CallBody(c: Call, sp: nat, frameTop: nat, ghost depth: nat) returns (failed: bool, ghost deepest: nat)
      requires Valid() && top == sp <= frameTop && frameTop + HEADROOM <= CAPACITY && 2 * depth <= frameTop
      requires DisciplinedCall(c) && Enterable(c, gens) && frameTop - sp == |FrameOf(c)|
      modifies this, slots
      ensures Valid() && top == sp && AllBystanders(old(gens), gens)
      ensures forall i :: 0 <= i < sp ==> slots[i] == old(slots[i])
      ensures !failed ==> Fail !in c.body.acts
      ensures c.Resume? && failed ==> gens[c.gen].phase.Closed?
      ensures depth <= deepest && 2 * deepest + HEADROOM <= CAPACITY
      decreases c, 0
    {
      top := frameTop;
      if c.Resume? {
        failed, deepest := Run(c.body, sp, frameTop, depth, Some(c.gen), c.code);
        CloseAfterResume(c.gen, failed);
      } else {
        failed, deepest := Run(c.body, sp, frameTop, depth, None, NO_SCRIPT);
      }
      top := sp;
    }

    /** The tail of a resume: a throw closes the generator, and so does an end that neither suspended nor closed it. */
    method CloseAfterResume(g: GenId, failed: bool)
      requires Valid() && g in gens
      modifies this`gens
      ensures Valid()
      ensures gens == old(gens)[g :=
        if failed || old(gens)[g].phase.Running? then Finished(old(gens)[g]) else old(gens)[g]]
      ensures gens[g].phase == if failed || old(gens)[g].phase.Running? then Closed else old(gens)[g].phase
    {
      if failed {
        if !gens[g].phase.Closed? {
          gens := gens[g := Finished(gens[g])];
        }
      } else if !gens[g].phase.Suspended? && !gens[g].phase.Closed? {
        gens := gens[g := Finished(gens[g])];
      }
    }

    /** A body at work on its frame, up to its end or the first throw. `own` is the generator it was resumed for. */
    method Run(b: Body, sp: nat, frameTop: nat, ghost depth: nat, own: Option<GenId>, ghost code: GenScript)
      returns (failed: bool, ghost deepest: nat)
      requires Valid() && sp <= frameTop <= top && frameTop + HEADROOM <= CAPACITY
      requires Disciplined(b, frameTop - sp, code) && 2 * depth <= frameTop
      requires Orderly(b.acts, if own.Some? then Entered else Ordinary)
      requires AtStage(gens, own, code, if own.Some? then Entered else Ordinary)
      modifies this, slots
      ensures Valid() && frameTop <= top && OthersStand(old(gens), gens, own)
      ensures forall i :: 0 <= i < sp ==> slots[i] == old(slots[i])
      ensures !failed ==> Fail !in b.acts
      ensures depth <= deepest && 2 * deepest + HEADROOM <= CAPACITY
      decreases b, 0
    {
      failed, deepest := false, depth;
      var n := 0;
      ghost var st := if own.Some? then Entered else Ordinary;
      assert b.acts[0..] == b.acts;
      while n < |b.acts| && !failed
        invariant 0 <= n <= |b.acts| && (!failed ==> Fail !in b.acts[..n])
        invariant Valid() && frameTop <= top && OthersStand(old(gens), gens, own)
        invariant !failed ==> Orderly(b.acts[n..], st) && AtStage(gens, own, code, st)
        invariant forall i :: 0 <= i < sp ==> slots[i] == old(slots[i])
        invariant depth <= deepest && 2 * deepest + HEADROOM <= CAPACITY
        decreases |b.acts| - n
      {
        ghost var before, next := gens, Moves(st, b.acts[n]).value;
        assert b.acts[n..][1..] == b.acts[n + 1..] && b.acts[n..][0] == b.acts[n];
        ghost var inner: nat;
        failed, inner := Step(b, n, sp, frameTop, depth, own, code, st);
        deepest := Max(deepest, inner);
        StandThenStand(old(gens), before, gens, own);
        assert b.acts[..n + 1] == b.acts[..n] + [b.acts[n]];
        n, st := n + 1, next;
      }
      assert b.acts[..n] == b.acts || failed;
    }

    /** A direct compiled call. Its guard is that the callee's frame top plus the headroom stays below the limit. The
        callee publishes its own top before it can call out. */
    method CallDirect(body: Body, at: nat, size: nat, ghost frameTop: nat, ghost depth: nat)
      returns (failed: bool, ghost deepest: nat)
      requires Valid() && frameTop <= at && frameTop <= top && frameTop + HEADROOM <= CAPACITY && 2 * depth <= frameTop
      requires Disciplined(body, size, NO_SCRIPT) && Orderly(body.acts, Ordinary)
      modifies this, slots
      ensures Valid() && frameTop <= top && AllBystanders(old(gens), gens)
      ensures forall i :: 0 <= i < at && i < slots.Length ==> slots[i] == old(slots[i])
      ensures depth <= deepest && 2 * deepest + HEADROOM <= CAPACITY
      decreases body, 3
    {
      if at + size + HEADROOM > slots.Length {
        return true, depth;
      }
      if top < at + size {
        top := at + size;
      }
      failed, deepest := Run(body, at, at + size, depth, None, NO_SCRIPT);
    }

    /** A call through the engine, which refuses to resume a generator that is not suspended. */
    method CallEngine(call: Call, ghost frameTop: nat, ghost depth: nat) returns (failed: bool, ghost deepest: nat)
      requires Valid() && frameTop <= top && frameTop + HEADROOM <= CAPACITY && 2 * depth <= frameTop
      requires DisciplinedCall(call)
      modifies this, slots
      ensures Valid() && top == old(top) && AllBystanders(old(gens), gens)
      ensures forall i :: 0 <= i < top ==> slots[i] == old(slots[i])
      ensures depth <= deepest && 2 * deepest + HEADROOM <= CAPACITY
      decreases call, 2
    {
      if !Enterable(call, gens) {
        return true, depth;
      }
      var status;
      ghost var seen;
      status, deepest, seen := EnterNight(call, depth);
      failed := status == Error;
      if deepest < depth {
        deepest := depth;
      }
    }

    /** One act. */
    method Step(
      b: Body, n: nat, sp: nat, frameTop: nat, ghost depth: nat, own: Option<GenId>, ghost code: GenScript, ghost st: Stage)
      returns (failed: bool, ghost deepest: nat)
      requires Valid() && sp <= frameTop <= top && frameTop + HEADROOM <= CAPACITY
      requires Disciplined(b, frameTop - sp, code) && 2 * depth <= frameTop && n < |b.acts|
      requires AtStage(gens, own, code, st) && Moves(st, b.acts[n]).Some?
      modifies this, slots
      ensures Valid() && frameTop <= top && OthersStand(old(gens), gens, own)
      ensures !failed ==> AtStage(gens, own, code, Moves(st, b.acts[n]).value) && b.acts[n] != Fail
      ensures forall i :: 0 <= i < sp ==> slots[i] == old(slots[i])
      ensures depth <= deepest && 2 * deepest + HEADROOM <= CAPACITY
      decreases b.acts[n], 4
    {
      failed, deepest := false, depth;
      match b.acts[n] {
        case Write(off, v) =>
          slots[sp + off] := v;
        case Publish(off) =>
          top := frameTop + off;
        case Direct(off, size, body) =>
          failed, deepest := CallDirect(body, sp + off, size, frameTop, depth);
        case Enter(call) =>
          failed, deepest := CallEngine(call, frameTop, depth);
        case Fail =>
          failed := true;
        case _ =>
          StepOwn(b, n, sp, frameTop, own.value, code, st);
      }
    }

    /** One act of a generator's body on its own generator. */
    method StepOwn(b: Body, n: nat, sp: nat, frameTop: nat, g: GenId, ghost code: GenScript, ghost st: Stage)
      requires Valid() && sp <= frameTop <= top && frameTop + HEADROOM <= CAPACITY
      requires Disciplined(b, frameTop - sp, code) && n < |b.acts|
      requires b.acts[n].Restore? || b.acts[n].Suspend? || b.acts[n].Final?
      requires AtStage(gens, Some(g), code, st) && Moves(st, b.acts[n]).Some?
      modifies this`gens, slots
      ensures Valid() && OthersStand(old(gens), gens, Some(g))
      ensures AtStage(gens, Some(g), code, Moves(st, b.acts[n]).value)
      ensures forall i :: 0 <= i < sp ==> slots[i] == old(slots[i])
    {
      match b.acts[n] {
        case Restore(localsOff, opsOff, envOff) =>
          RestoreFrame(g, sp + localsOff, sp + opsOff, if envOff.Some? then Some(sp + envOff.value) else None);
        case Suspend(k, localsOff, opsOff, nops, env) =>
          SuspendFrame(g, k, sp + localsOff, sp + opsOff, nops, env);
        case Final =>
          gens := gens[g := Finished(gens[g])];
      }
    }
  }

  /** Any run of entries from an empty stack: it is empty again after each, no generator is ever left running, and no
      nest gets deeper than (262144 - 8192) / 2. */
  method TopLevel(s: Stack, calls: seq<Call>) returns (ghost deepest: nat)
    requires s.Valid() && s.top == 0 && forall i :: 0 <= i < |calls| ==> DisciplinedCall(calls[i])
    requires forall x :: x in s.gens ==> !s.gens[x].phase.Running?
    modifies s, s.slots
    ensures s.Valid() && s.top == 0 && s.gens.Keys == old(s.gens.Keys)
    ensures forall x :: x in s.gens ==> !s.gens[x].phase.Running?
    ensures deepest <= 126976
  {
    deepest := 0;
    var i := 0;
    while i < |calls|
      invariant 0 <= i <= |calls| && s.Valid() && s.top == 0 && deepest <= 126976
      invariant s.gens.Keys == old(s.gens.Keys) && forall x :: x in s.gens ==> !s.gens[x].phase.Running?
    {
      if Enterable(calls[i], s.gens) {
        var status;
        ghost var inner, seen;
        status, inner, seen := s.EnterNight(calls[i], 0);
        deepest := Max(deepest, inner);
      }
      i := i + 1;
    }
  }
}
