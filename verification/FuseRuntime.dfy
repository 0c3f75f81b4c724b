// The fuse helpers as they run, on the value cells, literal words and slot rows of the live regions.
module FuseRuntime {
  import opened Fuses
  import opened Wrappers

  class Runtime {
    const cfg: Config
    const cells: array<Cell>
    const literals: array<nat>
    const resolved: array<bool>
    var slots: map<Name, nat>
    var nursery: set<nat>
    var pending: seq<nat>
    var armingAllowed: bool
    var flips: seq<nat>
    var epoch: nat

    ghost function State(): Fuses.State
      reads this, cells, literals, resolved
    {
      Fuses.State(slots, nursery, cells[..], literals[..], pending, armingAllowed, flips, resolved[..], epoch)
    }

    ghost predicate Valid()
      reads this, cells, literals, resolved
    {
      Fits(cfg, State())
    }

    constructor (c: Config, globals: map<Name, nat>)
      requires |c.expected| == |c.names|
      requires forall j :: 0 <= j < |c.literals| ==> c.literals[j].bits !in globals.Values
      ensures Valid() && cfg == c && fresh(cells) && fresh(literals) && fresh(resolved)
      ensures Coherent(cfg, State()) && slots == globals && armingAllowed
    {
      cfg := c;
      cells := new Cell[|c.names|](_ => Cell(UNARMED, 0, 0));
      literals := new nat[|c.literals|](_ => UNARMED);
      resolved := new bool[|c.names|](_ => false);
      slots, nursery, pending, armingAllowed := globals, {}, [], true;
      flips, epoch := seq(|c.names|, _ => 0), 0;
    }

    method FindBinding(k: Name) returns (r: Option<nat>)
      ensures r == FindName(cfg.names, k)
    {
      var i := 0;
      while i < |cfg.names|
        invariant 0 <= i <= |cfg.names| && forall j :: 0 <= j < i ==> cfg.names[j] != k
      {
        if cfg.names[i] == k {
          return Some(i);
        }
        i := i + 1;
      }
      return None;
    }

    method FindLiteralFuse(k: Name) returns (r: Option<nat>)
      ensures r == FindLiteral(cfg.literals, k)
    {
      var i := 0;
      while i < |cfg.literals|
        invariant 0 <= i <= |cfg.literals| && forall j :: 0 <= j < i ==> cfg.literals[j].name != k
      {
        if cfg.literals[i].name == k {
          return Some(i);
        }
        i := i + 1;
      }
      return None;
    }

    /** An unarmed cell is armed exactly if arming is allowed, the global has the name as a plain slot, and the value
        there calls the predicted body, if one is predicted. */
    method MaybeArmBindingFuse(i: nat)
      requires Valid() && i < |cfg.names|
      modifies cells, this`pending
      ensures Valid() && State() == Arm(cfg, old(State()), i)
      ensures old(Coherent(cfg, State())) ==> Coherent(cfg, State())
      ensures old(cells[i]).word == UNARMED ==>
        (cells[i].word == ARMED <==>
          && armingAllowed && cfg.names[i] in slots
          && (cfg.expected[i] == 0 || cfg.target(slots[cfg.names[i]]) + 1 == cfg.expected[i]))
      ensures cells[i] != old(cells[i]) ==>
        && old(cells[i]).word == UNARMED && cells[i].word == ARMED
        && cfg.names[i] in slots && cells[i].bits == slots[cfg.names[i]]
        && (cfg.expected[i] != 0 ==> cells[i].script == cfg.script(cells[i].bits))
    {
      ArmIsExact(cfg, State(), i);
      if Coherent(cfg, State()) {
        ArmIsCoherent(cfg, State(), i);
      }
      if !armingAllowed || cells[i].word != UNARMED {
        return;
      }
      if cfg.names[i] !in slots {
        return;
      }
      var bits := slots[cfg.names[i]];
      if cfg.expected[i] != 0 && cfg.target(bits) != cfg.expected[i] - 1 {
        return;
      }
      ghost var s := State();
      var script := cells[i].script;
      if cfg.expected[i] != 0 {
        script := cfg.script(bits);
      }
      cells[i] := Cell(ARMED, bits, script);
      assert cells[..] == s.cells[i := Cell(ARMED, bits, script)];
      if bits in nursery {
        pending := pending + [i];
      }
    }

    method MaybeBlowBindingFuseId(i: nat, bits: nat)
      requires Valid() && i < |cfg.names|
      modifies cells, this`epoch
      ensures Valid() && State() == Change(old(State()), i, bits)
      ensures old(Coherent(cfg, State())) ==> Coherent(cfg, State())
    {
      if Coherent(cfg, State()) {
        ChangeKeeps(cfg, State(), i, bits);
      }
      ghost var s := State();
      epoch := epoch + 1;
      if cells[i].word == ARMED && cells[i].bits != bits {
        cells[i] := cells[i].(word := UNARMED);
        assert cells[..] == s.cells[i := s.cells[i].(word := UNARMED)];
      }
    }

    method BlowBindingFuseId(i: nat)
      requires Valid() && i < |cfg.names|
      modifies cells
      ensures Valid() && State() == Blow(old(State()), i)
    {
      ghost var s := State();
      if cells[i].word == ARMED {
        cells[i] := cells[i].(word := BLOWN);
        assert cells[..] == s.cells[i := s.cells[i].(word := BLOWN)];
      }
    }

    method BlowBindingFuseKey(k: Name)
      requires Valid()
      modifies cells, this`epoch
      ensures Valid() && State() == BlowName(cfg, old(State()), k)
      ensures old(Coherent(cfg, State())) ==> Coherent(cfg, State())
    {
      if Coherent(cfg, State()) {
        KeyBlowKeeps(cfg, State(), k);
      }
      epoch := epoch + 1;
      var r := FindBinding(k);
      if r.Some? {
        BlowBindingFuseId(r.value);
      }
    }

    method BlowAllBindingFuses()
      requires Valid()
      modifies cells, this`epoch
      ensures Valid() && State() == BlowAll(old(State()))
      ensures old(Coherent(cfg, State())) ==> Coherent(cfg, State())
    {
      if Coherent(cfg, State()) {
        AllBlowKeeps(cfg, State());
      }
      ghost var s := State();
      epoch := epoch + 1;
      var i := 0;
      while i < cells.Length
        invariant 0 <= i <= cells.Length && epoch == s.epoch + 1
        invariant forall j :: 0 <= j < cells.Length ==> cells[j] == if j < i then BlowCell(s.cells[j]) else s.cells[j]
      {
        if cells[i].word == ARMED {
          cells[i] := cells[i].(word := BLOWN);
        }
        i := i + 1;
      }
      assert cells[..] == BlowAll(s).cells;
    }

    /** Interpreted code can write globals behind the hooks from here on: nothing may be armed again. */
    method DistrustGlobalFuses()
      requires Valid()
      modifies this, cells, literals
      ensures Valid() && State() == Distrusted(cfg, old(State())) && Distrusting(State())
    {
      var j := 0;
      while j < literals.Length
        invariant 0 <= j <= literals.Length && State() == old(State()).(literals := literals[..])
        invariant forall n :: 0 <= n < j ==> literals[n] == BLOWN
      {
        literals[j] := BLOWN;
        j := j + 1;
      }
      BlowAllBindingFuses();
      armingAllowed := false;
      assert State().literals == Distrusted(cfg, old(State())).literals;
      DistrustDistrusts(cfg, old(State()));
    }

    method MaybeGnameFuseBlow(k: Name, bits: nat)
      requires Valid()
      modifies literals
      ensures Valid() && State() == LiteralChange(cfg, old(State()), k, bits)
    {
      ghost var s := State();
      var r := FindLiteralFuse(k);
      if r.Some? && bits != cfg.literals[r.value].bits {
        literals[r.value] := BLOWN;
        assert literals[..] == s.literals[r.value := BLOWN];
      }
    }

    method BlowGnameFuse(k: Name)
      requires Valid()
      modifies literals
      ensures Valid() && State() == LiteralBlow(cfg, old(State()), k)
    {
      ghost var s := State();
      var r := FindLiteralFuse(k);
      if r.Some? {
        literals[r.value] := BLOWN;
        assert literals[..] == s.literals[r.value := BLOWN];
      }
    }

    method MaybeGnameFuseArmAfterStore(k: Name, bits: nat)
      requires Valid()
      modifies literals
      ensures Valid() && State() == LiteralArm(cfg, old(State()), k, bits)
    {
      ghost var s := State();
      var r := FindLiteralFuse(k);
      if r.None? || bits != cfg.literals[r.value].bits || literals[r.value] != UNARMED {
        return;
      }
      if k in slots && slots[k] == cfg.literals[r.value].bits {
        literals[r.value] := ARMED;
        assert literals[..] == s.literals[r.value := ARMED];
      }
    }

    /** A write by name, up to its store. */
    method SetNameBefore(k: Name, bits: nat)
      requires Valid()
      modifies this`epoch, cells, literals
      ensures Valid() && State() == Step(cfg, old(State()), BeforeStore(k, bits))
      ensures Distinct(cfg) && old(Coherent(cfg, State())) ==> Coherent(cfg, State())
    {
      ghost var was := State();
      if Distinct(cfg) && Coherent(cfg, was) {
        StepKeepsCoherent(cfg, was, BeforeStore(k, bits));
      }
      MaybeGnameFuseBlow(k, bits);
      var r := FindBinding(k);
      if r.Some? {
        MaybeBlowBindingFuseId(r.value, bits);
      }
    }

    /** The rest of it, if the store succeeded. */
    method SetNameAfter(k: Name, bits: nat)
      requires Valid()
      modifies this`pending, cells, literals
      ensures Valid() && State() == Step(cfg, old(State()), AfterStore(k, bits))
      ensures Distinct(cfg) && old(Coherent(cfg, State())) ==> Coherent(cfg, State())
    {
      ghost var was := State();
      if Distinct(cfg) && Coherent(cfg, was) {
        StepKeepsCoherent(cfg, was, AfterStore(k, bits));
      }
      MaybeGnameFuseArmAfterStore(k, bits);
      var r := FindBinding(k);
      if r.Some? {
        MaybeArmBindingFuse(r.value);
      }
    }

    /** The engine's store to an existing global data slot, with the hook it runs. */
    method GlobalDataStored(k: Name, bits: nat)
      requires Valid() && k in slots
      modifies this, cells, literals
      ensures Valid() && State() == Step(cfg, old(State()), EngineStore(k, bits))
      ensures Distinct(cfg) && old(Coherent(cfg, State())) ==> Coherent(cfg, State())
    {
      ghost var was := State();
      if Distinct(cfg) && Coherent(cfg, was) {
        StepKeepsCoherent(cfg, was, EngineStore(k, bits));
      }
      SetNameBefore(k, bits);
      slots := slots[k := bits];
    }

    /** The engine's define or delete of a global key, with the hook it runs. */
    method GlobalKeyChanged(k: Name, slot: Option<nat>)
      requires Valid()
      modifies this, cells, literals
      ensures Valid() && State() == Step(cfg, old(State()), EngineKeyChange(k, slot))
      ensures Distinct(cfg) && old(Coherent(cfg, State())) ==> Coherent(cfg, State())
    {
      ghost var was := State();
      if Distinct(cfg) && Coherent(cfg, was) {
        StepKeepsCoherent(cfg, was, EngineKeyChange(k, slot));
      }
      BlowGnameFuse(k);
      BlowBindingFuseKey(k);
      slots := match slot case None => slots - {k} case Some(b) => slots[k := b];
    }

    method BindingWritten(i: nat)
      requires Valid() && i < |cfg.names|
      modifies this, cells
      ensures Valid() && State() == Written(cfg, old(State()), i)
      ensures old(Coherent(cfg, State())) ==> Coherent(cfg, State())
    {
      if Coherent(cfg, State()) {
        WrittenKeeps(cfg, State(), i);
      }
      ghost var s := State();
      flips := flips[i := flips[i] + 1];
      if flips[i] > FLIP_LIMIT {
        if cells[i].word == UNARMED {
          cells[i] := cells[i].(word := BLOWN);
          assert cells[..] == s.cells[i := s.cells[i].(word := BLOWN)];
        }
        return;
      }
      MaybeArmBindingFuse(i);
    }

    /** The resolved-slot store helper. It skips the literal fuses, so it keeps coherence if and only if it does not
        contradict an armed one. */
    method SetGlobal(i: nat, bits: nat)
      requires Valid() && i < |cfg.names| && cfg.names[i] in slots
      modifies this, cells, resolved
      ensures Valid() && State() == StoreResolved(cfg, old(State()), i, bits)
      ensures Distinct(cfg) && old(Coherent(cfg, State())) ==>
        (Coherent(cfg, State()) <==> LiteralAllows(cfg, old(State()), i, bits))
    {
      ghost var s := State();
      if Distinct(cfg) && Coherent(cfg, s) {
        SetGlobalKeeps(cfg, s, i, bits);
      }
      MaybeBlowBindingFuseId(i, bits);
      slots := slots[cfg.names[i] := bits];
      resolved[i] := true;
      assert resolved[..] == s.resolved[i := true];
      MaybeArmBindingFuse(i);
    }

    method ArmGnameFusesFromLive()
      requires Valid()
      modifies literals
      ensures Valid() && State() == ArmFromLive(cfg, old(State()))
      ensures old(Coherent(cfg, State())) ==> Coherent(cfg, State())
    {
      if Coherent(cfg, State()) {
        LiveArmKeeps(cfg, State());
      }
      ghost var s := State();
      var j := 0;
      while j < literals.Length
        invariant 0 <= j <= literals.Length && State() == s.(literals := literals[..])
        invariant forall n :: 0 <= n < literals.Length ==>
          literals[n] == if n < j then LiveWord(cfg, s, n) else s.literals[n]
      {
        var l := cfg.literals[j];
        if literals[j] == UNARMED && l.name in slots && slots[l.name] == l.bits && l.bits !in nursery {
          literals[j] := ARMED;
        }
        j := j + 1;
      }
      assert literals[..] == ArmFromLive(cfg, s).literals;
    }

    method RearmBinding(i: nat)
      requires Valid() && i < |cfg.names|
      modifies this`pending, cells
      ensures Valid() && State() == RearmOne(cfg, old(State()), i)
    {
      ghost var s := State();
      if cells[i].word == ARMED {
        cells[i] := cells[i].(word := UNARMED);
        assert cells[..] == s.cells[i := s.cells[i].(word := UNARMED)];
        MaybeArmBindingFuse(i);
      }
    }

    method RearmPending(list: seq<nat>)
      requires Valid() && forall i :: 0 <= i < |list| ==> list[i] < |cfg.names|
      modifies this`pending, cells
      ensures Valid() && State() == Rearm(cfg, old(State()), list)
    {
      var n := 0;
      while n < |list|
        invariant 0 <= n <= |list| && Valid()
        invariant Rearm(cfg, State(), list[n..]) == Rearm(cfg, old(State()), list)
      {
        RearmBinding(list[n]);
        assert list[n..][1..] == list[n + 1..];
        n := n + 1;
      }
      assert list[n..] == [];
    }

    method RetryResolved()
      requires Valid()
      modifies this`pending, cells
      ensures Valid() && State() == Retry(cfg, old(State()), |cfg.names|)
    {
      var i := 0;
      while i < |cfg.names|
        invariant 0 <= i <= |cfg.names| && Valid()
        invariant State() == Retry(cfg, old(State()), i)
      {
        if resolved[i] && cells[i].word == UNARMED {
          MaybeArmBindingFuse(i);
        }
        i := i + 1;
      }
    }

    /** The binding part of the minor-collection callback. The list is taken first, so that cells re-armed with a
        value still in the nursery go onto a fresh one. */
    method NurseryEnd()
      requires Valid()
      modifies this`pending, cells
      ensures Valid() && State() == MinorEnd(cfg, old(State()))
    {
      var list := pending;
      pending := [];
      RearmPending(list);
      RetryResolved();
    }

    /** A minor collection: nursery values move, then the callback runs. Every step of the protocol keeps the
        cells coherent; this is the one that has to mend them. */
    method MinorCollection(fwd: map<nat, nat>, survivors: set<nat>)
      requires Valid() && Coherent(cfg, State())
      requires Enabled(cfg, State(), Op.MinorCollection(fwd, survivors))
      modifies this, cells
      ensures Valid() && Coherent(cfg, State())
      ensures State() == Step(cfg, old(State()), Op.MinorCollection(fwd, survivors))
    {
      ghost var s := State();
      slots := map k | k in slots :: if slots[k] in fwd then fwd[slots[k]] else slots[k];
      nursery := survivors;
      NurseryEnd();
      MinorKeeps(cfg, s, fwd, survivors);
    }
  }
}
