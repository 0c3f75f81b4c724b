// Compiled generators: saving a frame into the generator's storage and restoring it, and the pending exception of a
// forced return. NightStack.dfy runs generator bodies on the value stack.
module Generator {
  import opened NightValue
  import opened Wrappers

  datatype Phase = Running | Suspended(k: nat) | Closed

  /** A generator by value: its phase, the frame saved while it is suspended, its environment, and its script's number
      of locals and of slots. The storage has capacity for all the slots. */
  datatype Gen = Gen(phase: Phase, saved: seq<Value>, env: Value, nlocals: nat, nslots: nat)

  /** The storage is empty unless the generator is suspended, when it has all the locals and no more than it can
      hold. */
  predicate GenOk(g: Gen) {
    && g.nlocals <= g.nslots
    && if g.phase.Suspended? then g.nlocals <= |g.saved| <= g.nslots else g.saved == []
  }

  function SuspendedAt(g: Gen, k: nat, locals: seq<Value>, ops: seq<Value>, env: Value): Gen {
    g.(phase := Suspended(k), saved := locals + ops, env := if env.Obj? then env else g.env)
  }

  function Restored(g: Gen): Gen {
    g.(phase := Running, saved := [])
  }

  function Finished(g: Gen): Gen {
    g.(phase := Closed, saved := [])
  }

  /** The saved frame splits back into locals and operands, whatever their lengths. */
  lemma SavedSplits(locals: seq<Value>, ops: seq<Value>)
    ensures (locals + ops)[..|locals|] == locals && (locals + ops)[|locals|..] == ops
  {
  }

  // ---- the storage in place --------------------------------------------------------------------

  class GeneratorObject {
    const nlocals: nat
    const storage: array<Value>
    var initialized: nat
    var phase: Phase
    var env: Value

    ghost predicate Valid()
      reads this, storage
    {
      initialized <= storage.Length && GenOk(View())
    }

    ghost function View(): Gen
      reads this, storage
      requires initialized <= storage.Length
    {
      Gen(phase, storage[..initialized], env, nlocals, storage.Length)
    }

    /** A generator is created by its running body, with storage for all the script's slots. */
    constructor (locals: nat, nslots: nat, chain: Value)
      requires locals <= nslots
      ensures Valid() && fresh(storage) && View() == Gen(Running, [], chain, locals, nslots)
    {
      nlocals, initialized, phase, env := locals, 0, Running, chain;
      storage := new Value[nslots](_ => Undefined);
    }

    /** Save locals then live operands in one pass over both ranges. The two asserts are the ones the source
        releases with. */
    method Suspend(k: nat, locals: seq<Value>, ops: seq<Value>, chain: Value)
      requires Valid() && phase.Running? && |locals| == nlocals && |locals| + |ops| <= storage.Length
      modifies this, storage
      ensures Valid() && View() == SuspendedAt(old(View()), k, locals, ops, chain)
      ensures phase == Suspended(k) && storage[..initialized] == locals + ops
      ensures env == if chain.Obj? then chain else old(env)
    {
      assert initialized == 0;
      assert storage.Length >= |locals| + |ops|;
      var i := 0;
      while i < |locals| + |ops|
        invariant 0 <= i <= |locals| + |ops|
        invariant storage[..i] == (locals + ops)[..i]
        invariant initialized == 0 && phase == old(phase) && env == old(env)
      {
        storage[i] := if i < |locals| then locals[i] else ops[i - |locals|];
        i := i + 1;
      }
      initialized, phase := |locals| + |ops|, Suspended(k);
      if chain.Obj? {
        env := chain;
      }
      assert storage[..initialized] == locals + ops;
    }

    /** Copy the saved frame and the environment back out, empty the storage, mark the generator running. */
    method Restore(locals: array<Value>, ops: array<Value>) returns (nops: nat, chain: Value)
      requires Valid() && phase.Suspended?
      requires locals.Length >= nlocals && ops.Length >= initialized - nlocals
      requires locals != ops && locals != storage && ops != storage
      modifies this, locals, ops
      ensures Valid() && View() == Restored(old(View()))
      ensures phase.Running? && initialized == 0 && env == old(env)
      ensures nops == |old(View()).saved| - nlocals && chain == old(View()).env
      ensures locals[..nlocals] == old(View()).saved[..nlocals]
      ensures ops[..nops] == old(View()).saved[nlocals..]
    {
      assert initialized >= nlocals;
      ghost var saved := storage[..initialized];
      var i := 0;
      while i < nlocals
        invariant 0 <= i <= nlocals && locals[..i] == saved[..i]
        invariant initialized == old(initialized) && phase == old(phase) && env == old(env)
        invariant storage[..initialized] == saved
      {
        locals[i] := storage[i];
        i := i + 1;
      }
      while i < initialized
        invariant initialized == old(initialized) && phase == old(phase) && env == old(env)
        invariant nlocals <= i <= initialized && locals[..nlocals] == saved[..nlocals]
        invariant ops[..i - nlocals] == saved[nlocals..i]
        invariant storage[..initialized] == saved
      {
        ops[i - nlocals] := storage[i];
        assert saved[nlocals..i + 1] == saved[nlocals..i] + [saved[i]];
        i := i + 1;
      }
      assert saved[nlocals..initialized] == saved[nlocals..] && old(View()).saved == saved;
      nops, chain := initialized - nlocals, env;
      initialized, phase := 0, Running;
    }

    /** Suspending and restoring is the identity on locals, operands and operand count, for all lengths the
        script's slots allow, and hands the environment back. */
    method SuspendRestore(k: nat, locals: seq<Value>, ops: seq<Value>, chain: Value)
      returns (locals': seq<Value>, ops': seq<Value>, chain': Value)
      requires Valid() && phase.Running? && |locals| == nlocals && |locals| + |ops| <= storage.Length
      modifies this, storage
      ensures Valid() && phase.Running?
      ensures locals' == locals && ops' == ops && chain' == if chain.Obj? then chain else old(env)
    {
      Suspend(k, locals, ops, chain);
      SavedSplits(locals, ops);
      var frameLocals := new Value[nlocals](_ => Undefined);
      var frameOps := new Value[storage.Length](_ => Undefined);
      var nops;
      nops, chain' := Restore(frameLocals, frameOps);
      locals', ops' := frameLocals[..nlocals], frameOps[..nops];
    }
  }

  // ---- forced return ---------------------------------------------------------------------------

  /** What an enclosing handler of a body does with a pending exception, innermost first: a catch pad asks whether it
      is the closing magic and only then takes it; a finally runs in any case, and falls through, throws, or returns
      a value of its own. That bodies route exceptions so is a hypothesis on compiled code. */
  datatype Pad = Catch | FinallyFalls | FinallyThrows(v: Value) | FinallyReturns(v: Value)

  datatype Unwound = Caught(v: Value) | Returned(v: Value) | Propagated(v: Value)

  predicate Overrides(p: Pad) {
    p.FinallyThrows? || p.FinallyReturns?
  }

  /** Every pad below `i` lets the pending exception go by: a finally that falls through, or a catch pad while it is
      the closing magic. */
  predicate PassedBy(pads: seq<Pad>, i: nat, closing: bool)
    requires i <= |pads|
  {
    forall j :: 0 <= j < i ==> pads[j].FinallyFalls? || (closing && pads[j].Catch?)
  }

  /** The context's pending exception. */
  class Exceptions {
    var pending: Option<Value>

    constructor ()
      ensures pending == None
    {
      pending := None;
    }

    /** Resuming with a throw or a forced return always raises; a return stages its value first. */
    method CheckResume(isThrow: bool, v: Value) returns (staged: Option<Value>)
      modifies this
      ensures pending == Some(if isThrow then v else ClosingMagic)
      ensures staged == if isThrow then None else Some(v)
    {
      if isThrow {
        pending := Some(v);
        return None;
      }
      pending := Some(ClosingMagic);
      return Some(v);
    }

    /** Peek: the magic stays pending. */
    method IsClosing() returns (closing: bool)
      ensures closing <==> pending == Some(ClosingMagic)
    {
      if pending.None? {
        return false;
      }
      return pending.value.ClosingMagic?;
    }

    /** The epilogue's check: take the magic, and nothing else. */
    method Closing() returns (closing: bool)
      modifies this
      ensures closing <==> old(pending) == Some(ClosingMagic)
      ensures pending == if closing then None else old(pending)
    {
      closing := IsClosing();
      if closing {
        pending := None;
      }
    }

    /** A body's unwinding over its pads and its epilogue. The magic never leaves the body and no catch ever sees it;
        a forced return gives back exactly its staged value unless a finally overrides it, and a finally that
        returns before any other overrides decides. An exception is caught by the first catch, if nothing below
        overrides. */
    method Unwind(staged: Value, pads: seq<Pad>) returns (r: Unwound)
      requires pending.Some? && forall i :: 0 <= i < |pads| && pads[i].FinallyThrows? ==> !pads[i].v.ClosingMagic?
      modifies this
      ensures pending == if r.Propagated? then Some(r.v) else None
      ensures (r.Propagated? || r.Caught?) ==> !r.v.ClosingMagic?
      ensures old(pending) == Some(ClosingMagic) && (forall i :: 0 <= i < |pads| ==> !Overrides(pads[i])) ==>
        r == Returned(staged)
      ensures forall i :: 0 <= i < |pads| && PassedBy(pads, i, old(pending) == Some(ClosingMagic)) ==>
        && (pads[i].FinallyReturns? ==> r == Returned(pads[i].v))
        && (pads[i].Catch? && old(pending) != Some(ClosingMagic) ==> r == Caught(old(pending).value))
      ensures old(pending) == Some(ClosingMagic) && (r.Propagated? || r.Caught?) ==>
        exists i :: 0 <= i < |pads| && pads[i] == FinallyThrows(r.v)
    {
      var i := 0;
      while i < |pads|
        invariant 0 <= i <= |pads| && pending.Some?
        invariant (forall j :: 0 <= j < i ==> !Overrides(pads[j])) ==> pending == old(pending)
        invariant PassedBy(pads, i, old(pending) == Some(ClosingMagic)) ==> pending == old(pending)
        invariant pending == old(pending) || exists j :: 0 <= j < i && pads[j] == FinallyThrows(pending.value)
        invariant pending == Some(ClosingMagic) ==> old(pending) == pending
        invariant forall j :: 0 <= j < i ==> !pads[j].FinallyReturns?
        invariant old(pending) == Some(ClosingMagic) || forall j :: 0 <= j < i && pads[j].Catch? ==>
          exists m :: 0 <= m < j && Overrides(pads[m])
      {
        match pads[i] {
          case Catch =>
            var closing := IsClosing();
            if !closing {
              var v := pending.value;
              pending := None;
              return Caught(v);
            }
          case FinallyFalls =>
          case FinallyThrows(v) =>
            pending := Some(v);
          case FinallyReturns(v) =>
            pending := None;
            return Returned(v);
        }
        i := i + 1;
      }
      var closing := Closing();
      return if closing then Returned(staged) else Propagated(pending.value);
    }
  }
}
