// Boxed values, as the value stack and generator storage hold them.
module NightValue {

  /** `Hole` is the magic value of an array hole or a forwarded formal. `ClosingMagic` is the magic `this` a resumed
      generator body recognizes, and the pending exception a forced return raises; no program can make one. */
  datatype Value =
    | Undefined | Hole | ClosingMagic
    | Prim(raw: nat) | Obj(id: nat) | ScriptThing(id: nat) | Descriptor(resumeIndex: nat, kind: nat)
}
