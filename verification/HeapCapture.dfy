// The heap oracle: a worklist that transcribes everything reachable from the global and the scripts' object
// literals, and merges what live activations hold in their environment slots.
module HeapCapture {
  import opened Wrappers

  type ObjId = nat
  type EnvId = nat
  type ScopeId = nat

  /** `Unknown` is the magic value a slot reads as when live activations disagree. */
  datatype Value = Ref(obj: ObjId) | Bits(raw: nat) | Unknown

  /** A property in definition order: a data property under an atom or another key, or anything else. */
  datatype Property = DataProperty(atom: Option<nat>, slot: nat, value: Value) | OtherProperty

  const PLAIN: nat := 1
  const ARRAY: nat := 2
  const FUNCTION: nat := 3
  const TYPED_ARRAY: nat := 4
  const NATIVE: nat := 5
  const SLOTS_EXACT: nat := 0x100

  /** `kind` 0 stays opaque. A typed array's element code sits above its kind's low four bits. */
  datatype Node = Node(
    kind: nat, proto: Option<ObjId>, dictionary: bool, nfixed: nat,
    props: seq<Property>, elems: seq<Option<Value>>, env: Option<EnvId>)

  /** An environment; `call` is set for a call object whose callee has bytecode and a body scope. */
  datatype Env = Env(call: Option<(ScopeId, seq<Value>)>, enclosing: Option<EnvId>)

  /** `envHops` is how many environment links a closure's walk follows: 32 in the capture, any number here. */
  datatype Image = Image(
    nodes: map<ObjId, Node>, envs: map<EnvId, Env>, primordials: set<ObjId>, envHops: nat)

  datatype Entry = Entry(
    obj: ObjId, kind: nat, proto: Option<ObjId>, props: seq<(nat, Value)>, elems: seq<(nat, Value)>)

  // ---- one object ------------------------------------------------------------------------------

  /** Identity only: typed arrays and native functions. */
  predicate Bare(kind: nat) {
    kind % 16 == TYPED_ARRAY || kind == NATIVE
  }

  /** The data properties under atoms, in definition order. */
  function AtomProps(props: seq<Property>): seq<(nat, Value)> {
    if props == [] then []
    else
      var p := props[|props| - 1];
      AtomProps(props[..|props| - 1])
        + if p.DataProperty? && p.atom.Some? then [(p.atom.value, p.value)] else []
  }

  predicate AtomData(p: Property) {
    p.DataProperty? && p.atom.Some?
  }

  /** The own properties are exactly data properties under atoms at slots 0, 1, 2 ..., all fixed. */
  ghost predicate SlotsExact(n: Node) {
    && !n.dictionary
    && forall i :: 0 <= i < |n.props| ==>
         AtomData(n.props[i]) && n.props[i].slot == i && i < n.nfixed
  }

  /** The elements that are not holes, with their indices. */
  function DenseElems(elems: seq<Option<Value>>): seq<(nat, Value)> {
    if elems == [] then []
    else
      var i := |elems| - 1;
      DenseElems(elems[..i]) + if elems[i].Some? then [(i, elems[i].value)] else []
  }

  function Reversed<T>(s: seq<T>): (r: seq<T>)
    ensures |r| == |s| && forall i :: 0 <= i < |s| ==> r[i] == s[|s| - 1 - i]
  {
    if s == [] then [] else [s[|s| - 1]] + Reversed(s[..|s| - 1])
  }

  lemma AtomPropsStep(props: seq<Property>, i: nat, acc: seq<(nat, Value)>)
    requires i < |props| && AtomProps(props[..i + 1]) + Reversed(acc) == AtomProps(props)
    ensures !AtomData(props[i]) ==> AtomProps(props[..i]) + Reversed(acc) == AtomProps(props)
    ensures AtomData(props[i]) ==>
      AtomProps(props[..i]) + Reversed(acc + [(props[i].atom.value, props[i].value)]) == AtomProps(props)
  {
    assert props[..i + 1][..i] == props[..i];
    if AtomData(props[i]) {
      var x := (props[i].atom.value, props[i].value);
      ReversedSnoc(acc, x);
      assert AtomProps(props[..i + 1]) == AtomProps(props[..i]) + [x];
      Regrouped(AtomProps(props[..i]), x, Reversed(acc));
    } else {
      assert AtomProps(props[..i + 1]) == AtomProps(props[..i]);
    }
  }

  lemma ReversedSnoc<T>(s: seq<T>, x: T)
    ensures Reversed(s + [x]) == [x] + Reversed(s)
  {
    assert (s + [x])[..|s|] == s;
  }

  lemma Regrouped<T>(a: seq<T>, x: T, b: seq<T>)
    ensures a + [x] + b == a + ([x] + b)
  {
  }

  /** The slots collected, last property first, are those of the properties from `i` on. */
  ghost predicate SlotsFrom(n: Node, i: nat, slots: seq<nat>) {
    && i <= |n.props| && |slots| == |n.props| - i
    && forall j :: i <= j < |n.props| ==>
         AtomData(n.props[j]) && n.props[j].slot < n.nfixed && slots[|n.props| - 1 - j] == n.props[j].slot
  }

  /** The shape's own iterator runs most recent first; the transcript wants definition order, and the SLOTS
      precondition wants to know that nothing was skipped and every slot is where its position says. */
  method TranscribeProps(n: Node) returns (props: seq<(nat, Value)>, exact: bool)
    ensures props == AtomProps(n.props)
    ensures exact <==> SlotsExact(n)
  {
    exact := !n.dictionary;
    var acc: seq<(nat, Value)>, slots: seq<nat> := [], [];
    var i := |n.props|;
    assert n.props[..i] == n.props;
    while i > 0
      invariant 0 <= i <= |n.props|
      invariant AtomProps(n.props[..i]) + Reversed(acc) == AtomProps(n.props)
      invariant exact ==> SlotsFrom(n, i, slots) && !n.dictionary
      invariant !exact ==> !SlotsExact(n)
    {
      i := i - 1;
      var p := n.props[i];
      AtomPropsStep(n.props, i, acc);
      if !p.DataProperty? || p.atom.None? {
        exact := false;
      } else {
        if p.slot >= n.nfixed {
          exact := false;
        }
        slots := slots + [p.slot];
        acc := acc + [(p.atom.value, p.value)];
      }
    }
    props := Reversed(acc);
    if exact {
      exact := InOrder(n, Reversed(slots));
    }
  }

  method InOrder(n: Node, slots: seq<nat>) returns (exact: bool)
    requires |slots| == |n.props| && !n.dictionary
    requires forall j :: 0 <= j < |n.props| ==>
      AtomData(n.props[j]) && n.props[j].slot < n.nfixed && slots[j] == n.props[j].slot
    ensures exact <==> SlotsExact(n)
  {
    assert forall j :: 0 <= j < |n.props| ==> slots[j] == n.props[j].slot;
    var k := 0;
    while k < |slots|
      invariant 0 <= k <= |slots| && forall j :: 0 <= j < k ==> slots[j] == j
    {
      if slots[k] != k {
        return false;
      }
      k := k + 1;
    }
    return true;
  }

  method TranscribeElems(elems: seq<Option<Value>>) returns (r: seq<(nat, Value)>)
    ensures r == DenseElems(elems)
  {
    r := [];
    var i := 0;
    while i < |elems|
      invariant 0 <= i <= |elems| && r == DenseElems(elems[..i])
    {
      assert elems[..i + 1][..i] == elems[..i];
      if elems[i].Some? {
        r := r + [(i, elems[i].value)];
      }
      i := i + 1;
    }
    assert elems[..i] == elems;
  }

  function KeptProto(g: Image, n: Node): Option<ObjId> {
    if n.proto.Some? && n.proto.value !in g.primordials then n.proto else None
  }

  /** What the oracle says of one object. */
  ghost function Transcript(g: Image, o: ObjId): Entry
    requires o in g.nodes
  {
    var n := g.nodes[o];
    if Bare(n.kind) then Entry(o, n.kind, None, [], [])
    else Entry(o, if SlotsExact(n) then n.kind + SLOTS_EXACT else n.kind,
               KeptProto(g, n), AtomProps(n.props), DenseElems(n.elems))
  }

  function Values(pairs: seq<(nat, Value)>): (vs: seq<Value>)
    ensures |vs| == |pairs|
  {
    seq(|pairs|, i requires 0 <= i < |pairs| => pairs[i].1)
  }

  function Refs(vs: seq<Value>): set<ObjId> {
    set i | 0 <= i < |vs| && vs[i].Ref? :: vs[i].obj
  }

  /** The call objects on an environment chain, at most `hops` links of it. */
  function Calls(g: Image, env: Option<EnvId>, hops: nat): seq<(ScopeId, seq<Value>)>
    decreases hops
  {
    if env.None? || hops == 0 || env.value !in g.envs then []
    else
      var e := g.envs[env.value];
      OwnCall(e) + Calls(g, e.enclosing, hops - 1)
  }

  function OwnCall(e: Env): seq<(ScopeId, seq<Value>)> {
    if e.call.Some? then [e.call.value] else []
  }

  /** The activations a transcribed object shows: those its closure captures, if it is a function. */
  function Activations(g: Image, o: ObjId): seq<(ScopeId, seq<Value>)>
    requires o in g.nodes
  {
    if g.nodes[o].kind == FUNCTION then Calls(g, g.nodes[o].env, g.envHops) else []
  }

  function CallRefs(calls: seq<(ScopeId, seq<Value>)>): set<ObjId> {
    set c, i | 0 <= c < |calls| && 0 <= i < |calls[c].1| && calls[c].1[i].Ref? :: calls[c].1[i].obj
  }

  /** The objects an object leads to. */
  ghost function Edges(g: Image, o: ObjId): set<ObjId>
    requires o in g.nodes
  {
    var n := g.nodes[o];
    if Bare(n.kind) then {}
    else
      CallRefs(Activations(g, o))
      + (if KeptProto(g, n).Some? then {KeptProto(g, n).value} else {})
      + Refs(Values(AtomProps(n.props))) + Refs(Values(DenseElems(n.elems)))
  }

  predicate Transcribable(g: Image, o: ObjId) {
    o in g.nodes && g.nodes[o].kind != 0
  }

  /** A set with every transcribable root that follows every edge to a transcribable object. */
  ghost predicate Closed(g: Image, roots: seq<ObjId>, t: set<ObjId>) {
    && (forall i :: 0 <= i < |roots| && Transcribable(g, roots[i]) ==> roots[i] in t)
    && (forall o, x :: o in t && o in g.nodes && x in Edges(g, o) && Transcribable(g, x) ==> x in t)
  }

  // ---- environment slots -----------------------------------------------------------------------

  type SlotKey = (ScopeId, nat)

  /** What one activation shows, and what all those an object captures show: pairs of a slot and its value. */
  function CallSightings(call: (ScopeId, seq<Value>)): set<(SlotKey, Value)> {
    set i | 0 <= i < |call.1| :: ((call.0, i), call.1[i])
  }

  function SightingsOf(calls: seq<(ScopeId, seq<Value>)>): set<(SlotKey, Value)> {
    set c, p | 0 <= c < |calls| && p in CallSightings(calls[c]) :: p
  }

  ghost function Sightings(g: Image, objs: set<ObjId>): set<(SlotKey, Value)> {
    set o, p | o in objs && o in g.nodes && p in SightingsOf(Activations(g, o)) :: p
  }

  ghost predicate Agrees(seen: set<(SlotKey, Value)>, k: SlotKey) {
    forall v, w :: (k, v) in seen && (k, w) in seen ==> v == w
  }

  /** The map says of each slot seen: the common value if all agree, unknown otherwise. */
  ghost predicate Summarizes(m: map<SlotKey, Value>, seen: set<(SlotKey, Value)>) {
    && (forall k, v :: (k, v) in seen ==> k in m)
    && (forall k :: k in m ==> exists v :: (k, v) in seen)
    && (forall k :: k in m ==> if Agrees(seen, k) then (k, m[k]) in seen else m[k] == Unknown)
  }

  function Merge(m: map<SlotKey, Value>, k: SlotKey, v: Value): map<SlotKey, Value> {
    if k !in m then m[k := v] else if m[k] != v then m[k := Unknown] else m
  }

  /** Folding one more sighting in. */
  lemma MergeSummarizes(m: map<SlotKey, Value>, seen: set<(SlotKey, Value)>, k: SlotKey, v: Value)
    requires Summarizes(m, seen)
    ensures Summarizes(Merge(m, k, v), seen + {(k, v)})
  {
    var m', seen' := Merge(m, k, v), seen + {(k, v)};
    forall l | l in m' ensures exists w :: (l, w) in seen' {
      if l == k {
        assert (k, v) in seen';
      } else {
        var w :| (l, w) in seen;
        assert (l, w) in seen';
      }
    }
    forall l | l in m' ensures if Agrees(seen', l) then (l, m'[l]) in seen' else m'[l] == Unknown {
      assert forall w :: l != k ==> ((l, w) in seen' <==> (l, w) in seen);
      if l == k && k in m {
        var w :| (k, w) in seen;
        assert (k, w) in seen' && (k, v) in seen';
        if Agrees(seen', k) {
          assert forall x, y :: (k, x) in seen && (k, y) in seen ==> (k, x) in seen' && (k, y) in seen';
        }
      }
    }
  }

  /** The summary depends on what was seen, not on the order: two maps for the same sightings are equal. */
  lemma SummaryUnique(m1: map<SlotKey, Value>, m2: map<SlotKey, Value>, seen: set<(SlotKey, Value)>)
    requires Summarizes(m1, seen) && Summarizes(m2, seen)
    ensures m1 == m2
  {
    forall k | k in m1 ensures k in m2 && m1[k] == m2[k] {
      var v :| (k, v) in seen;
    }
    forall k | k in m2 ensures k in m1 {
      var v :| (k, v) in seen;
    }
  }

  // ---- the walk --------------------------------------------------------------------------------

  function Objs(entries: seq<Entry>): set<ObjId> {
    set i | 0 <= i < |entries| :: entries[i].obj
  }

  class Capture {
    const g: Image
    var seen: set<ObjId>
    var worklist: seq<ObjId>
    var entries: seq<Entry>
    var envSlots: map<SlotKey, Value>

    /** Seen is what is done, what waits, and the object being transcribed (`busy`, already off the worklist);
        nothing waits twice and nothing is done twice. */
    ghost predicate Between(busy: set<ObjId>)
      reads this
    {
      && (forall o :: o in seen ==> Transcribable(g, o))
      && (forall i, j :: 0 <= i < j < |worklist| ==> worklist[i] != worklist[j])
      && (forall i, j :: 0 <= i < j < |entries| ==> entries[i].obj != entries[j].obj)
      && (forall i :: 0 <= i < |worklist| ==>
            worklist[i] in seen && worklist[i] !in Objs(entries) && worklist[i] !in busy)
      && (forall o :: o in seen ==> o in Objs(entries) || o in worklist || o in busy)
      && Objs(entries) <= seen && busy <= seen && busy !! Objs(entries)
    }

    constructor (image: Image)
      ensures g == image && Between({}) && seen == {} && worklist == [] && entries == [] && envSlots == map[]
    {
      g, seen, worklist, entries, envSlots := image, {}, [], [], map[];
    }

    method Enqueue(o: ObjId, ghost busy: set<ObjId>)
      requires Between(busy)
      modifies this`seen, this`worklist
      ensures Between(busy) && seen == old(seen) + if Transcribable(g, o) then {o} else {}
    {
      if o in seen {
        return;
      }
      if o !in g.nodes || g.nodes[o].kind == 0 {
        return;
      }
      seen := seen + {o};
      worklist := worklist + [o];
    }

    method EnqueueRefs(vs: seq<Value>, ghost busy: set<ObjId>)
      requires Between(busy)
      modifies this`seen, this`worklist
      ensures Between(busy)
      ensures forall x :: x in seen <==> x in old(seen) || (x in Refs(vs) && Transcribable(g, x))
    {
      var i := 0;
      while i < |vs|
        invariant 0 <= i <= |vs| && Between(busy)
        invariant forall x :: x in seen <==> x in old(seen) || (x in Refs(vs[..i]) && Transcribable(g, x))
      {
        assert Refs(vs[..i + 1]) == Refs(vs[..i]) + if vs[i].Ref? then {vs[i].obj} else {} by {
          assert vs[..i + 1] == vs[..i] + [vs[i]];
          RefsSnoc(vs[..i], vs[i]);
        }
        if vs[i].Ref? {
          Enqueue(vs[i].obj, busy);
        }
        i := i + 1;
      }
      assert vs[..i] == vs;
    }

    /** Merge one activation's slots. */
    method MergeCall(call: (ScopeId, seq<Value>), ghost sightings: set<(SlotKey, Value)>)
      requires Summarizes(envSlots, sightings)
      modifies this`envSlots
      ensures Summarizes(envSlots, sightings + CallSightings(call))
    {
      var i := 0;
      ghost var part: set<(SlotKey, Value)> := {};
      assert sightings + part == sightings;
      while i < |call.1|
        invariant 0 <= i <= |call.1|
        invariant part == set j | 0 <= j < i :: ((call.0, j), call.1[j])
        invariant Summarizes(envSlots, sightings + part)
      {
        MergeSummarizes(envSlots, sightings + part, (call.0, i), call.1[i]);
        envSlots := Merge(envSlots, (call.0, i), call.1[i]);
        assert sightings + part + {((call.0, i), call.1[i])} == sightings + (part + {((call.0, i), call.1[i])});
        part := part + {((call.0, i), call.1[i])};
        i := i + 1;
      }
      assert part == CallSightings(call);
    }

    /** Merge one activation's slots and enqueue the objects in them. */
    method VisitCall(call: (ScopeId, seq<Value>), ghost busy: set<ObjId>, ghost sightings: set<(SlotKey, Value)>)
      requires Between(busy) && Summarizes(envSlots, sightings)
      modifies this`seen, this`worklist, this`envSlots
      ensures Between(busy) && Summarizes(envSlots, sightings + CallSightings(call))
      ensures forall x :: x in seen <==> x in old(seen) || (x in Refs(call.1) && Transcribable(g, x))
    {
      MergeCall(call, sightings);
      EnqueueRefs(call.1, busy);
    }

    /** One link of a chain: `calls` are the call objects on the links before it. */
    method VisitEnv(e: Env, ghost busy: set<ObjId>, ghost sightings: set<(SlotKey, Value)>,
                    ghost calls: seq<(ScopeId, seq<Value>)>)
      requires Between(busy) && Summarizes(envSlots, sightings + SightingsOf(calls))
      modifies this`seen, this`worklist, this`envSlots
      ensures Between(busy) && Summarizes(envSlots, sightings + SightingsOf(calls + OwnCall(e)))
      ensures forall x :: x in seen <==>
        x in old(seen) || (x in CallRefs(OwnCall(e)) && Transcribable(g, x))
    {
      if e.call.Some? {
        VisitCall(e.call.value, busy, sightings + SightingsOf(calls));
        CallsSnoc(calls, e.call.value);
        CallsSnoc([], e.call.value);
        assert [] + [e.call.value] == OwnCall(e);
        assert sightings + SightingsOf(calls) + CallSightings(e.call.value)
          == sightings + SightingsOf(calls + [e.call.value]);
      } else {
        assert calls + OwnCall(e) == calls;
      }
    }

    /** Walk a closure's environment chain, a bounded number of hops. */
    method VisitEnvironments(
      env: Option<EnvId>, limit: nat, ghost busy: set<ObjId>, ghost sightings: set<(SlotKey, Value)>)
      requires Between(busy) && Summarizes(envSlots, sightings)
      modifies this`seen, this`worklist, this`envSlots
      ensures Between(busy) && Summarizes(envSlots, sightings + SightingsOf(Calls(g, env, limit)))
      ensures forall x :: x in seen <==>
        x in old(seen) || (x in CallRefs(Calls(g, env, limit)) && Transcribable(g, x))
    {
      var cur, hops := env, 0;
      ghost var calls: seq<(ScopeId, seq<Value>)> := [];
      while cur.Some? && hops < limit && cur.value in g.envs
        invariant 0 <= hops <= limit && Between(busy)
        invariant calls + Calls(g, cur, limit - hops) == Calls(g, env, limit)
        invariant Summarizes(envSlots, sightings + SightingsOf(calls))
        invariant forall x :: x in seen <==> x in old(seen) || (x in CallRefs(calls) && Transcribable(g, x))
        decreases limit - hops
      {
        var e := g.envs[cur.value];
        VisitEnv(e, busy, sightings, calls);
        CallRefsAppend(calls, OwnCall(e));
        CallsUnroll(g, cur, limit - hops, calls);
        calls := calls + OwnCall(e);
        cur, hops := e.enclosing, hops + 1;
      }
      assert Calls(g, cur, limit - hops) == [] && calls + [] == calls;
    }

    /** Enqueue what a transcribed object leads to, environments first. */
    method VisitEdges(o: ObjId, props: seq<(nat, Value)>, elems: seq<(nat, Value)>, ghost sightings: set<(SlotKey, Value)>)
      requires Between({o}) && o in g.nodes && !Bare(g.nodes[o].kind) && Summarizes(envSlots, sightings)
      requires props == AtomProps(g.nodes[o].props) && elems == DenseElems(g.nodes[o].elems)
      modifies this`seen, this`worklist, this`envSlots
      ensures Between({o}) && Summarizes(envSlots, sightings + SightingsOf(Activations(g, o)))
      ensures forall x :: x in seen <==> x in old(seen) || (x in Edges(g, o) && Transcribable(g, x))
    {
      var n := g.nodes[o];
      if n.kind == FUNCTION {
        VisitEnvironments(n.env, g.envHops, {o}, sightings);
      } else {
        assert SightingsOf(Activations(g, o)) == {} && CallRefs(Activations(g, o)) == {};
        assert sightings + {} == sightings;
      }
      var proto := KeptProto(g, n);
      if proto.Some? {
        Enqueue(proto.value, {o});
      }
      EnqueueRefs(Values(props), {o});
      EnqueueRefs(Values(elems), {o});
    }

    /** Transcribe one object and enqueue everything it leads to. */
    method Visit(o: ObjId)
      requires Between({o}) && Summarizes(envSlots, Sightings(g, Objs(entries)))
      modifies this
      ensures Between({}) && entries == old(entries) + [Transcript(g, o)]
      ensures forall x :: x in seen <==> x in old(seen) || (x in Edges(g, o) && Transcribable(g, x))
      ensures Summarizes(envSlots, Sightings(g, Objs(entries)))
    {
      var n := g.nodes[o];
      ghost var sightings := Sightings(g, Objs(entries));
      ghost var objs := Objs(entries);
      SightingsSnoc(g, objs, o);
      var entry;
      if Bare(n.kind) {
        assert SightingsOf(Activations(g, o)) == {};
        assert sightings + {} == sightings;
        entry := Entry(o, n.kind, None, [], []);
      } else {
        var props, exact := TranscribeProps(n);
        var elems := TranscribeElems(n.elems);
        VisitEdges(o, props, elems, sightings);
        entry := Entry(o, if exact then n.kind + SLOTS_EXACT else n.kind, KeptProto(g, n), props, elems);
      }
      Finish(entry);
    }

    method Finish(entry: Entry)
      requires Between({entry.obj})
      modifies this`entries
      ensures Between({}) && entries == old(entries) + [entry] && Objs(entries) == old(Objs(entries)) + {entry.obj}
    {
      ObjsSnoc(entries, entry);
      entries := entries + [entry];
    }

    /** The loop's state: every root is seen, every edge of a done object leads to a seen one, and nothing is
        seen that some closed set could do without. */
    ghost predicate Progress(roots: seq<ObjId>)
      reads this
    {
      && Between({})
      && (forall j :: 0 <= j < |roots| && Transcribable(g, roots[j]) ==> roots[j] in seen)
      && (forall t :: Closed(g, roots, t) ==> seen <= t)
      && (forall j :: 0 <= j < |entries| ==>
            entries[j].obj in g.nodes && entries[j] == Transcript(g, entries[j].obj))
      && (forall o, x :: o in Objs(entries) && o in g.nodes && x in Edges(g, o) && Transcribable(g, x) ==> x in seen)
      && Summarizes(envSlots, Sightings(g, Objs(entries)))
    }

    method VisitLast(roots: seq<ObjId>)
      requires Progress(roots) && worklist != []
      modifies this
      ensures Progress(roots)
      ensures g.nodes.Keys - Objs(entries) < g.nodes.Keys - old(Objs(entries))
    {
      var o := worklist[|worklist| - 1];
      ghost var done, seenBefore := Objs(entries), seen;
      assert o in g.nodes.Keys - done;
      ObjsSnoc(entries, Transcript(g, o));
      worklist := worklist[..|worklist| - 1];
      Visit(o);
      forall t | Closed(g, roots, t) ensures seen <= t {
        assert o in t;
      }
    }

    /** The capture: an exact closure. It ends on every finite image; it transcribes every transcribable object
        reachable from the roots exactly once, and nothing else; and the environment map is the summary of
        what the transcribed functions' activations show. */
    method Run(roots: seq<ObjId>)
      requires Between({}) && seen == {} && worklist == [] && entries == [] && envSlots == map[]
      modifies this
      ensures forall i, j :: 0 <= i < j < |entries| ==> entries[i].obj != entries[j].obj
      ensures forall i :: 0 <= i < |entries| ==>
        entries[i].obj in g.nodes && entries[i] == Transcript(g, entries[i].obj)
      ensures forall i :: 0 <= i < |entries| ==> Says(g, entries[i])
      ensures Least(g, roots, Objs(entries)) && forall x :: x in Objs(entries) <==> Reached(g, roots, x)
      ensures Summarizes(envSlots, Sightings(g, Objs(entries)))
    {
      var i := 0;
      while i < |roots|
        invariant 0 <= i <= |roots| && Between({}) && entries == [] && envSlots == map[]
        invariant forall j :: 0 <= j < i && Transcribable(g, roots[j]) ==> roots[j] in seen
        invariant forall t :: Closed(g, roots, t) ==> seen <= t
      {
        Enqueue(roots[i], {});
        i := i + 1;
      }
      assert Sightings(g, Objs(entries)) == {};
      while worklist != []
        invariant Progress(roots)
        decreases g.nodes.Keys - Objs(entries)
      {
        VisitLast(roots);
      }
      LeastIsReached(g, roots, Objs(entries));
      forall j | 0 <= j < |entries| ensures Says(g, entries[j]) {
        TranscriptSays(g, entries[j].obj);
      }
    }
  }

  lemma ObjsSnoc(entries: seq<Entry>, e: Entry)
    ensures Objs(entries + [e]) == Objs(entries) + {e.obj}
  {
    var more := entries + [e];
    assert forall i :: 0 <= i < |entries| ==> more[i] == entries[i];
    assert more[|entries|] == e;
  }

  lemma SightingsSnoc(g: Image, done: set<ObjId>, o: ObjId)
    requires o in g.nodes
    ensures Sightings(g, done + {o}) == Sightings(g, done) + SightingsOf(Activations(g, o))
  {
  }

  lemma CallsUnroll(g: Image, cur: Option<EnvId>, hops: nat, calls: seq<(ScopeId, seq<Value>)>)
    requires cur.Some? && hops > 0 && cur.value in g.envs
    ensures calls + Calls(g, cur, hops)
      == (calls + OwnCall(g.envs[cur.value])) + Calls(g, g.envs[cur.value].enclosing, hops - 1)
  {
  }

  lemma CallRefsAppend(calls: seq<(ScopeId, seq<Value>)>, own: seq<(ScopeId, seq<Value>)>)
    requires |own| <= 1
    ensures CallRefs(calls + own) == CallRefs(calls) + CallRefs(own)
  {
    if own == [] {
      assert calls + own == calls;
    } else {
      CallsSnoc(calls, own[0]);
      CallsSnoc([], own[0]);
      assert [] + [own[0]] == own && calls + [own[0]] == calls + own;
      assert CallRefs([]) == {};
    }
  }

  lemma RefsSnoc(vs: seq<Value>, v: Value)
    ensures Refs(vs + [v]) == Refs(vs) + if v.Ref? then {v.obj} else {}
  {
    var more := vs + [v];
    assert forall i :: 0 <= i < |vs| ==> more[i] == vs[i];
    assert more[|vs|] == v;
  }

  lemma CallsSnoc(calls: seq<(ScopeId, seq<Value>)>, call: (ScopeId, seq<Value>))
    ensures SightingsOf(calls + [call]) == SightingsOf(calls) + CallSightings(call)
    ensures CallRefs(calls + [call]) == CallRefs(calls) + Refs(call.1)
  {
    var more := calls + [call];
    assert forall c :: 0 <= c < |calls| ==> more[c] == calls[c];
    assert more[|calls|] == call;
    forall x | x in CallRefs(more) ensures x in CallRefs(calls) + Refs(call.1) {
      var c, i :| 0 <= c < |more| && 0 <= i < |more[c].1| && more[c].1[i].Ref? && more[c].1[i].obj == x;
      if c < |calls| {
        assert calls[c].1[i].obj == x;
      }
    }
    forall x | x in CallRefs(calls) + Refs(call.1) ensures x in CallRefs(more) {
      if x in CallRefs(calls) {
        var c, i :| 0 <= c < |calls| && 0 <= i < |calls[c].1| && calls[c].1[i].Ref? && calls[c].1[i].obj == x;
        assert more[c].1[i].obj == x;
      } else {
        var i :| 0 <= i < |call.1| && call.1[i].Ref? && call.1[i].obj == x;
        assert more[|calls|].1[i].obj == x;
      }
    }
  }

  /** The least set that has the roots and follows the edges. */
  ghost predicate Least(g: Image, roots: seq<ObjId>, objs: set<ObjId>) {
    Closed(g, roots, objs) && forall t: set<ObjId> {:trigger objs <= t} :: Closed(g, roots, t) ==> objs <= t
  }

  // ---- what the capture is to say, from the image alone ---------------------------------------

  predicate PairOf(p: Property, pair: (nat, Value)) {
    p.DataProperty? && p.atom == Some(pair.0) && p.value == pair.1
  }

  /** No property is missing from these pairs, and each is in the fixed slot of its position. */
  ghost predicate InPlace(n: Node, pairs: seq<(nat, Value)>) {
    && !n.dictionary && |pairs| == |n.props|
    && forall i :: 0 <= i < |n.props| ==> n.props[i].DataProperty? && n.props[i].slot == i && i < n.nfixed
  }

  ghost predicate InDefinitionOrder(props: seq<Property>, pairs: seq<(nat, Value)>) {
    exists at :: PropsAt(props, pairs, at)
  }

  /** These pairs are the data properties under atoms, all of them, in definition order; `at` is where each one is. */
  ghost predicate PropsAt(props: seq<Property>, pairs: seq<(nat, Value)>, at: seq<nat>) {
    && |at| == |pairs|
    && (forall j :: 0 <= j < |at| ==> at[j] < |props| && PairOf(props[at[j]], pairs[j]))
    && (forall j, k :: 0 <= j < k < |at| ==> at[j] < at[k])
    && (forall i :: 0 <= i < |props| && props[i].DataProperty? && props[i].atom.Some? ==> i in at)
  }

  /** These are the elements that are no holes, all of them, in order and with their indices. */
  ghost predicate ElemsAt(elems: seq<Option<Value>>, pairs: seq<(nat, Value)>) {
    && (forall j :: 0 <= j < |pairs| ==> pairs[j].0 < |elems| && elems[pairs[j].0] == Some(pairs[j].1))
    && (forall j, k :: 0 <= j < k < |pairs| ==> pairs[j].0 < pairs[k].0)
    && (forall i: nat :: i < |elems| && elems[i].Some? ==> (i, elems[i].value) in pairs)
  }

  /** An entry is right: identity alone for a typed array or a native function; otherwise the prototype unless that is
      a primordial, the properties, the elements, and the exact flag exactly when every property is a data property
      under an atom in the fixed slot of its position. */
  ghost predicate Says(g: Image, e: Entry) {
    e.obj in g.nodes &&
    var n := g.nodes[e.obj];
    if n.kind % 16 == TYPED_ARRAY || n.kind == NATIVE then
      e.kind == n.kind && e.proto == None && e.props == [] && e.elems == []
    else
      && (forall p :: e.proto == Some(p) <==> n.proto == Some(p) && p !in g.primordials)
      && InDefinitionOrder(n.props, e.props) && ElemsAt(n.elems, e.elems)
      && e.kind == n.kind + if InPlace(n, e.props) then 0x100 else 0
  }

  /** The environment so many links up a chain. */
  function EnvAt(g: Image, env: Option<EnvId>, links: nat): Option<Env>
    decreases links
  {
    if env.None? || env.value !in g.envs then None
    else if links == 0 then Some(g.envs[env.value])
    else EnvAt(g, g.envs[env.value].enclosing, links - 1)
  }

  /** A function's closure captures this activation of a scope, within the bound on links. */
  ghost predicate Captures(g: Image, o: ObjId, links: nat, call: (ScopeId, seq<Value>))
    requires o in g.nodes
  {
    g.nodes[o].kind == FUNCTION && links < g.envHops && CallAt(g, g.nodes[o].env, links, call)
  }

  /** An object leads to another: its prototype, no primordial, or the value of an atom's data property, of an element,
      or of a captured slot. */
  ghost predicate LeadsTo(g: Image, o: ObjId, x: ObjId)
    requires o in g.nodes
  {
    var n := g.nodes[o];
    && !(n.kind % 16 == TYPED_ARRAY || n.kind == NATIVE)
    && (|| (n.proto == Some(x) && x !in g.primordials)
        || (exists i :: 0 <= i < |n.props| && n.props[i].DataProperty? && n.props[i].atom.Some?
              && n.props[i].value == Ref(x))
        || (exists i :: 0 <= i < |n.elems| && n.elems[i] == Some(Ref(x)))
        || (exists links: nat, call :: Captures(g, o, links, call) && Ref(x) in call.1))
  }

  /** A path from a root, each object leading to the next, none of them opaque. */
  ghost predicate Path(g: Image, roots: seq<ObjId>, path: seq<ObjId>) {
    && path != [] && path[0] in roots
    && (forall i :: 0 <= i < |path| ==> path[i] in g.nodes && g.nodes[path[i]].kind != 0)
    && forall i :: 0 <= i < |path| - 1 ==> LeadsTo(g, path[i], path[i + 1])
  }

  ghost predicate Reached(g: Image, roots: seq<ObjId>, x: ObjId) {
    exists path :: Path(g, roots, path) && path[|path| - 1] == x
  }

  /** One more property. */
  lemma PropsAtSnoc(props: seq<Property>, p: Property, pairs: seq<(nat, Value)>, at: seq<nat>)
    requires PropsAt(props, pairs, at)
    ensures !AtomData(p) ==> PropsAt(props + [p], pairs, at)
    ensures AtomData(p) ==> PropsAt(props + [p], pairs + [(p.atom.value, p.value)], at + [|props|])
  {
    var all, more := props + [p], at + [|props|];
    forall i | 0 <= i < |all| && AtomData(all[i]) ensures i in more && (i < |props| ==> i in at) {
      if i < |props| {
        assert AtomData(props[i]);
        var j :| 0 <= j < |at| && at[j] == i;
        assert more[j] == i;
      } else {
        assert more[|at|] == i;
      }
    }
  }

  ghost function AtomAt(props: seq<Property>): (at: seq<nat>)
    ensures PropsAt(props, AtomProps(props), at)
  {
    if props == [] then []
    else
      var n := |props| - 1;
      var at := AtomAt(props[..n]);
      PropsAtSnoc(props[..n], props[n], AtomProps(props[..n]), at);
      AtomPropsSnoc(props, n);
      if AtomData(props[n]) then at + [n] else at
  }

  lemma {:induction false} AtomPropsSnoc(props: seq<Property>, n: nat)
    requires |props| == n + 1
    ensures props[..n] + [props[n]] == props
    ensures AtomProps(props) ==
      if AtomData(props[n]) then AtomProps(props[..n]) + [(props[n].atom.value, props[n].value)] else AtomProps(props[..n])
  {
  }

  lemma {:induction false} DenseElemsAt(elems: seq<Option<Value>>)
    ensures ElemsAt(elems, DenseElems(elems))
  {
    if elems != [] {
      var n := |elems| - 1;
      DenseElemsAt(elems[..n]);
      var was, now := DenseElems(elems[..n]), DenseElems(elems);
      assert forall i :: 0 <= i < n ==> elems[..n][i] == elems[i];
      assert forall p :: p in was ==> p in now;
      assert elems[n].Some? ==> now[|was|] == (n, elems[n].value);
    }
  }

  lemma {:induction false} AllAtoms(props: seq<Property>)
    ensures |AtomProps(props)| <= |props|
    ensures |AtomProps(props)| == |props| <==> forall i :: 0 <= i < |props| ==> AtomData(props[i])
  {
    if props != [] {
      var n := |props| - 1;
      AllAtoms(props[..n]);
      AtomPropsSnoc(props, n);
      assert forall i :: 0 <= i < n ==> props[..n][i] == props[i];
    }
  }

  lemma {:induction false} FlagSays(n: Node)
    ensures SlotsExact(n) <==> InPlace(n, AtomProps(n.props))
  {
    AllAtoms(n.props);
  }

  lemma {:induction false} PropsSay(props: seq<Property>)
    ensures InDefinitionOrder(props, AtomProps(props))
  {
    var at := AtomAt(props);
  }

  lemma {:induction false} TranscriptSays(g: Image, o: ObjId)
    requires o in g.nodes
    ensures Says(g, Transcript(g, o))
  {
    FlagSays(g.nodes[o]);
    PropsSay(g.nodes[o].props);
    DenseElemsAt(g.nodes[o].elems);
  }

  /** A call object is at this link of a chain. */
  ghost predicate CallAt(g: Image, env: Option<EnvId>, links: nat, call: (ScopeId, seq<Value>)) {
    EnvAt(g, env, links).Some? && EnvAt(g, env, links).value.call == Some(call)
  }

  /** The call objects found on a chain are those at some link of it. */
  lemma {:induction false} CallsAre(g: Image, env: Option<EnvId>, hops: nat, call: (ScopeId, seq<Value>))
    ensures call in Calls(g, env, hops) <==> exists links: nat :: links < hops && CallAt(g, env, links, call)
    decreases hops
  {
    if env.Some? && hops > 0 && env.value in g.envs {
      var e := g.envs[env.value];
      CallsAre(g, e.enclosing, hops - 1, call);
      if call in Calls(g, e.enclosing, hops - 1) {
        var links: nat :| links < hops - 1 && CallAt(g, e.enclosing, links, call);
        assert CallAt(g, env, links + 1, call);
      } else if e.call == Some(call) {
        assert CallAt(g, env, 0, call);
      }
      if links: nat :| links < hops && CallAt(g, env, links, call) {
        assert links == 0 || CallAt(g, e.enclosing, links - 1, call);
      }
    }
  }

  lemma CallRefsAre(g: Image, o: ObjId, x: ObjId)
    requires o in g.nodes
    ensures x in CallRefs(Activations(g, o)) <==> exists links: nat, call :: Captures(g, o, links, call) && Ref(x) in call.1
  {
    var calls := Activations(g, o);
    if x in CallRefs(calls) {
      var c, i :| 0 <= c < |calls| && 0 <= i < |calls[c].1| && calls[c].1[i].Ref? && calls[c].1[i].obj == x;
      CallsAre(g, g.nodes[o].env, g.envHops, calls[c]);
      var links: nat :| links < g.envHops && CallAt(g, g.nodes[o].env, links, calls[c]);
      assert Captures(g, o, links, calls[c]) && Ref(x) in calls[c].1;
    }
    if links: nat, call :| Captures(g, o, links, call) && Ref(x) in call.1 {
      CallsAre(g, g.nodes[o].env, g.envHops, call);
      assert call in calls;
      var c :| 0 <= c < |calls| && calls[c] == call;
      var i :| 0 <= i < |call.1| && call.1[i] == Ref(x);
      assert calls[c].1[i].Ref? && calls[c].1[i].obj == x;
    }
  }

  lemma PropRefsAre(props: seq<Property>, x: ObjId)
    ensures x in Refs(Values(AtomProps(props))) <==>
      exists i :: 0 <= i < |props| && AtomData(props[i]) && props[i].value == Ref(x)
  {
    PairRefs(props, AtomProps(props), AtomAt(props), x);
  }

  lemma PairRefs(props: seq<Property>, pairs: seq<(nat, Value)>, at: seq<nat>, x: ObjId)
    requires PropsAt(props, pairs, at)
    ensures x in Refs(Values(pairs)) <==> exists i :: 0 <= i < |props| && AtomData(props[i]) && props[i].value == Ref(x)
  {
    if x in Refs(Values(pairs)) {
      var j :| 0 <= j < |pairs| && Values(pairs)[j].Ref? && Values(pairs)[j].obj == x;
      assert PairOf(props[at[j]], pairs[j]);
    }
    if i :| 0 <= i < |props| && AtomData(props[i]) && props[i].value == Ref(x) {
      assert i in at;
      var j :| 0 <= j < |at| && at[j] == i;
      assert PairOf(props[at[j]], pairs[j]) && Values(pairs)[j] == Ref(x);
    }
  }

  lemma ElemRefsAre(elems: seq<Option<Value>>, x: ObjId)
    ensures x in Refs(Values(DenseElems(elems))) <==> exists i :: 0 <= i < |elems| && elems[i] == Some(Ref(x))
  {
    DenseElemsAt(elems);
    var pairs := DenseElems(elems);
    if x in Refs(Values(pairs)) {
      var j :| 0 <= j < |pairs| && Values(pairs)[j].Ref? && Values(pairs)[j].obj == x;
      assert elems[pairs[j].0] == Some(Ref(x));
    }
    if i :| 0 <= i < |elems| && elems[i] == Some(Ref(x)) {
      var j :| 0 <= j < |pairs| && pairs[j] == (i, Ref(x));
      assert Values(pairs)[j] == Ref(x);
    }
  }

  lemma EdgesAre(g: Image, o: ObjId, x: ObjId)
    requires o in g.nodes
    ensures x in Edges(g, o) <==> LeadsTo(g, o, x)
  {
    CallRefsAre(g, o, x);
    PropRefsAre(g.nodes[o].props, x);
    ElemRefsAre(g.nodes[o].elems, x);
  }

  /** Whatever a path reaches is in every closed set. */
  lemma {:induction false} PathStaysIn(g: Image, roots: seq<ObjId>, path: seq<ObjId>, t: set<ObjId>, i: nat)
    requires Path(g, roots, path) && Closed(g, roots, t) && i < |path|
    ensures path[i] in t
  {
    if i > 0 {
      PathStaysIn(g, roots, path, t, i - 1);
      EdgesAre(g, path[i - 1], path[i]);
      assert LeadsTo(g, path[i - 1], path[i - 1 + 1]);
    }
  }

  lemma ReachedFurther(g: Image, roots: seq<ObjId>, o: ObjId, x: ObjId)
    requires Reached(g, roots, o) && o in g.nodes && LeadsTo(g, o, x) && Transcribable(g, x)
    ensures Reached(g, roots, x)
  {
    var path :| Path(g, roots, path) && path[|path| - 1] == o;
    assert Path(g, roots, path + [x]);
    assert (path + [x])[|path|] == x;
  }

  /** The least closed set is what paths reach, and nothing else. */
  lemma LeastIsReached(g: Image, roots: seq<ObjId>, objs: set<ObjId>)
    requires Least(g, roots, objs) && forall o :: o in objs ==> Transcribable(g, o)
    ensures forall x :: x in objs <==> Reached(g, roots, x)
  {
    var t := set o | o in objs && Reached(g, roots, o);
    forall i | 0 <= i < |roots| && Transcribable(g, roots[i]) ensures roots[i] in t {
      assert Path(g, roots, [roots[i]]);
      assert [roots[i]][|[roots[i]]| - 1] == roots[i];
    }
    forall o, x | o in t && o in g.nodes && x in Edges(g, o) && Transcribable(g, x) ensures x in t {
      EdgesAre(g, o, x);
      ReachedFurther(g, roots, o, x);
    }
    assert Closed(g, roots, t);
    assert objs <= t;
    forall x | Reached(g, roots, x) ensures x in objs {
      var path :| Path(g, roots, path) && path[|path| - 1] == x;
      PathStaysIn(g, roots, path, objs, |path| - 1);
    }
  }

  /** What the environment map is a summary of: the slots of every activation a captured function's closure captures. */
  lemma SightingsAre(g: Image, objs: set<ObjId>, scope: ScopeId, i: nat, v: Value)
    ensures ((scope, i), v) in Sightings(g, objs) <==>
      exists o, links: nat, vs :: o in objs && o in g.nodes && Captures(g, o, links, (scope, vs)) && i < |vs| && vs[i] == v
  {
    if ((scope, i), v) in Sightings(g, objs) {
      var o :| o in objs && o in g.nodes && ((scope, i), v) in SightingsOf(Activations(g, o));
      var calls := Activations(g, o);
      var c :| 0 <= c < |calls| && ((scope, i), v) in CallSightings(calls[c]);
      CallsAre(g, g.nodes[o].env, g.envHops, calls[c]);
      var links: nat :| links < g.envHops && CallAt(g, g.nodes[o].env, links, calls[c]);
      assert Captures(g, o, links, (scope, calls[c].1));
    }
    if o, links: nat, vs :| o in objs && o in g.nodes && Captures(g, o, links, (scope, vs)) && i < |vs| && vs[i] == v {
      var calls := Activations(g, o);
      CallsAre(g, g.nodes[o].env, g.envHops, (scope, vs));
      var c :| 0 <= c < |calls| && calls[c] == (scope, vs);
      assert ((scope, i), v) in CallSightings(calls[c]);
      assert ((scope, i), v) in SightingsOf(calls);
    }
  }

  lemma LeastWithin(g: Image, roots: seq<ObjId>, objs: set<ObjId>, t: set<ObjId>)
    requires Least(g, roots, objs) && Closed(g, roots, t)
    ensures objs <= t
  {
  }

  /** Whatever order a capture visits objects in, it ends with the same objects and the same environment map. */
  lemma CaptureOrderFree(
    g: Image, roots: seq<ObjId>, objs1: set<ObjId>, slots1: map<SlotKey, Value>,
    objs2: set<ObjId>, slots2: map<SlotKey, Value>)
    requires Least(g, roots, objs1) && Summarizes(slots1, Sightings(g, objs1))
    requires Least(g, roots, objs2) && Summarizes(slots2, Sightings(g, objs2))
    ensures objs1 == objs2 && slots1 == slots2
  {
    LeastWithin(g, roots, objs1, objs2);
    LeastWithin(g, roots, objs2, objs1);
    assert objs1 == objs2;
    SummaryUnique(slots1, slots2, Sightings(g, objs1));
  }
}
