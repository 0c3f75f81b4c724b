# NightMonkey runtime: a verified model

NightMonkey compiles JavaScript ahead of time and lets the compiled bodies shortcut the engine: they read property
caches, global-binding fuses and object class words straight out of linear memory. None of those words is traced or
locked. They are right only because every event that could make one wrong is noticed in time. This project models
the runtime half of that bargain, next to the plain JavaScript heap the words stand for, and proves that the two
agree over every run.

| file | contents |
|---|---|
| `Wrappers.dfy` | optional results and the number of values of a word |
| `Coordinates.dfy` | slot coordinates and cache keys as 32-bit words |
| `Heap.dfy` | shapes, objects, the prototype walk (section 10.1.8.1 of ECMA-262), the engine's contract, the teleporting theorem |
| `GetCaches.dfy` | get ways, mega-get entries and guarded chains: populate walks, hits, whole runs |
| `RollbackDelete.dfy` | a run that shows one clause of the engine's contract is needed |
| `SetCaches.dfy` | cached stores and add-transition rows against the ordinary set (section 10.1.9.2 of ECMA-262) |
| `SetterRows.dfy` | two add rows the populate accepts whose replay is not the set |
| `SetRuns.dfy` | whole runs of the write side over real memory: sets, defines, collections, address reuse |
| `LiveCaches.dfy` | the read side's rows as untraced words, over runs in which cells die, move and have their addresses reused |
| `CacheRegion.dfy` | the words of the cache region: ways, add rows, the minor-collection flag, the purge |
| `GcLifetime.dfy` | how long an untraced address may live across sliced and shrinking collections, and when a row may be filled with a word read earlier |
| `NoExtraIndexed.dfy` | the validated "no extra indexed properties" cache |
| `Fuses.dfy`, `FuseRuntime.dfy` | value fuses and literal fuses: the protocol on values, and the helpers on live regions |
| `ClassWord.dfy` | stamps, the per-add check, the stamp epoch |
| `NightValue.dfy`, `NightStack.dfy`, `Generator.dfy` | frame building, re-entry and generator bodies on the value stack; generator storage; the pending exception of a forced return |
| `HeapCapture.dfy` | the heap oracle's worklist |
| `Serialize.dfy`, `Digest.dfy` | the tables for the snapshot tool: sealing in place, and the digest |

## Hypotheses

What the proofs take from outside the modelled code. Each is a visible predicate or `requires`.

- **The engine's contract** (`Heap.EngineStep`). A structural change gives an object another shape; shapes are
  immutable while they live; prototype chains end; an add on a used-as-prototype object takes teleporting from the
  first holder above it, a prototype change takes it from everything above; an object that lost teleporting or became
  a dictionary stays so. One clause is easy to miss: a used-as-prototype object that *loses* a name must take a
  dictionary shape never seen before. `RollbackDelete` shows a three-step run that breaks a get row without it.
- **The populating set ran no setter.** `NightPopulateAddTransition` never asks whether an object on the chain holds
  the key, nor whether the new shape is the old one's child. For every row it accepts, whatever its set ran, a replay
  is the ordinary set if and only if the row is a shape-tree transition and the recorded chain decides for an add
  (`SetCaches.ReplayRefinesSet`). `SetterRows` has a row that fails each half; `OrdinaryAddFills` shows that an
  ordinary populating set establishes both.
- **Elements.** Rows under integer keys are recorded too. Dense elements are in no shape, so
  such a row reads the walk if and only if no passed object has the key as an element.
- **Fuses are about the global object's own data slot**, not about lexical bindings that shadow it.
- **Stores that skip the literal fuses** (`night_runtime_set_global` and the compiled inline store) never change a name
  whose literal is armed. `Fuses.ResolvedStoreKeeps`: they keep coherence if and only if that holds.
- **Names are distinct** in the binding table and in the literal table. The engine hooks stop at the first match;
  `DuplicateNamesGoStale` and `DuplicateLiteralsGoStale` show what happens otherwise. Predicted literals are not
  garbage-collected things.
- **No collection inside a set moves or frees the receiver's old shape.** `night_runtime_set_prop_ic_miss` and
  `night_runtime_init_prop` read the old shape's word, run the whole set or define, and then write that word into the
  site row and the table row, with the generation as it is by then. The row is right from then on if and only if the
  word still names its shape at the fill and the collection then running, if any, keeps that shape: `sound` in
  `GcLifetime`, with `RowsNeverStale` one way and `UnsoundGoesStale` the other. `GcLifetime.LateFillIsUnsafe` is a run
  in which it does not hold. The helper does not check; comparing the generation word at the read and at the fill would
  be enough (`SameGenerationFillIsSound`, `SetRuns.SameGenerationFill`). The results about add rows over real memory
  are about soundly filled ones; every other row's words are all read at its fill, which makes it sound.
- **Marking.** A cell whose word was read or written into a row during a collection is not swept by that collection:
  the mutator held it (`held` in `GcLifetime`). Shapes are tenured, a minor collection leaves the nursery empty, and
  an object in a nursery cell is one the engine says is in the nursery (`LiveCaches.NearOk`).
  Within a generation no shape that a row names is freed (`NoExtraIndexed.SameGeneration`). Live cells have distinct
  nonzero addresses.
- **Generator scripts have slots enough.** A body never suspends with more operands than its script's slots leave after
  the locals, and restores its frame first and once (`NightStack.Disciplined`, `NightStack.Orderly`). Its handlers
  route a pending exception as `Generator.Pad` says: a catch pad peeks for the closing magic, finallys run innermost
  first. The engine resumes only suspended generators.
- **Construct sites.** A site's word has no layout index, and makes claims of an object with no properties yet only
  (`ClassWord.Enabled`). The constructing sentinel is written over a word of zero only: `NightSetConstructingSentinel`
  is unconditional and never moves the epoch, so over a stamp it would lose one unnoticed.
- **Fewer than 2^32 purges.** `GenerationWrapIsUnsafe` builds a run with exactly 2^32 that ends in a stale hit.
- **Compiled bodies are disciplined** (`NightStack.Disciplined`): they write at or above their frame and within the
  headroom, and publish no top below their own. A compiled constructor's exit stamp names the layout of its early key
  whenever it claims SLOTS; where it claims TYPES or RANGES of another layout, its stores were checked against that one.
  A compiled store keeps those bits only for a value the layout's claim on that property allows
  (`ClassWord.Checked`). Layout extension bounds cover the layout itself.

Where a comment and the code disagree the model follows the code: the comments at `runtime/NightRuntime.cpp:2375` and
`runtime/NightRuntime.cpp:2453` say that a site row replays two prototype hops, the code fills and replays four. The
comment at `runtime/NightRuntime.cpp:2437-2441` says that a row filled with an old shape made stale by a collection
inside the set never hits; `GcLifetime.LateFillIsUnsafe` ends with one that can, once another shape has the address. The
comment at `runtime/NightInlineCaches.cpp:102-104` takes the span check to exclude every other mutation by the same
set; `SetterRows.RemovedRowFilled` is one it lets through.

## Model

| member | source | states |
|---|---|---|
| Coordinates.SlotEncRoundTrip | runtime/NightInlineCaches.h:34-40 | the base bit always decodes; the index decodes if and only if its byte offset fits the word; no coordinate is the ABSENT word; which in-object coordinate reads as "no fast offset" |
| Coordinates.SlotEncAddress | runtime/NightInlineCaches.h:30-36 | the word without the base bit is the slot's byte offset, past a header of 16 bytes inside an object |
| Coordinates.SlotEncInjective | runtime/NightInlineCaches.h:34-40 | two coordinates over non-overflowing indices are equal only for the same slot |
| Coordinates.KeySpacesDisjoint | runtime/NightRuntime.cpp:2947-2971 | atom ids and tagged atom addresses never collide in the mega tables under the guard, and the tag comes off; an unguarded element key has a name's word if and only if its word is a valid atom id |
| Heap.Teleport | runtime/NightInlineCaches.cpp:317-326 | over any engine step, if a holder keeps the name and keeps teleporting, the walk from a used-as-prototype object still ends at it, for chains of any length |
| Heap.StoredIsFull | runtime/NightInlineCaches.cpp:256-329 | the walk over stored properties is the full walk if and only if no passed object has the key as a dense element, which for a name is always |
| GetCaches.PopulateInlineGetIC | runtime/NightInlineCaches.cpp:251-329 | for every key, a row is recorded if and only if a recordable one exists: a plain slot of the receiver or of a tenured holder behind prototypes that all keep teleporting |
| GetCaches.FilledIsOk | runtime/NightInlineCaches.cpp:251-329 | a fresh row satisfies the row invariant |
| GetCaches.FilledReadsWalk | runtime/NightInlineCaches.cpp:251-329 | at its fill a row reads what the walk reads if and only if no passed object has the key as an element; otherwise it hides the element |
| GetCaches.RowKept | runtime/NightInlineCaches.cpp:317-326 | the row invariant survives every engine step, including one that takes the holder off its recorded shape and back |
| GetCaches.HitReadsWalk | runtime/NightRuntime.cpp:2036-2056 | a way or mega-get hit reads what the full prototype walk reads |
| GetCaches.PopulateGuardedChain | runtime/NightInlineCaches.cpp:340-415 | for every key, the guarded-chain walk fills if and only if a chain row exists, and never proves an integer key missing |
| GetCaches.ChainHitReadsWalk | runtime/NightRuntime.cpp:2057-2080 | matching hop shapes alone prove the cached slot is the walk's answer, and ABSENT that the walk reaches null; for an integer key, the former exactly when no object on the way has it as an element |
| GetCaches.GetCachesCoherent | runtime/NightRuntime.cpp:2036-2080 | at every point of every run of engine steps and fills, every row whose guards pass reads what the walk reads |
| GetCaches.TryLeafGetProbes | runtime/NightRuntime.cpp:2036-2080 | the miss helper's probes answer exactly when a guard set passes, and then with the full get's value; the mega entry is handed on exactly when it is the one that served |
| LiveCaches.WayHitIsHit | runtime/NightRuntime.cpp:2036-2056 | a hit on bare words - shape words compared, the holder word followed - is a hit on the very cells the row was filled from |
| LiveCaches.HitIsWayHit | runtime/NightRuntime.cpp:2036-2056 | the words of a live way match wherever its row's own guards pass |
| LiveCaches.ChainHitIsWordHit | runtime/NightRuntime.cpp:2057-2080 | so do those of a guarded chain |
| LiveCaches.FilledTenured | runtime/NightInlineCaches.cpp:251-329 | the cells a way was filled from are tenured, because the populate refuses a holder in the nursery |
| LiveCaches.CanFillWay | runtime/NightInlineCaches.cpp:251-329 | at every point of every run, what the populate accepts can be filled while its cells live, so such runs are there |
| LiveCaches.LiveCachesCoherent | runtime/NightRuntime.cpp:2481-2628 | over runs that interleave engine steps, fills, minor, sliced and compacting collections with their purges, and reuse of addresses: a holder word always addresses its live holder, and whatever passes the word guards reads what the walk reads |
| RollbackDelete.RollbackIsRun | runtime/NightInlineCaches.cpp:317-326 | lose, gain below, regain is a run of the contract without the lost-name clause |
| RollbackDelete.RowIsFilled | runtime/NightInlineCaches.cpp:251-329 | the populate records the row at the start of that run |
| RollbackDelete.RollbackDeleteDefeatsRow | runtime/NightRuntime.cpp:2036-2056 | at its end the row's guards pass and it reads another value than the walk |
| SetCaches.PopulateInlineSetIC | runtime/NightInlineCaches.cpp:470-505 | for every key, a row is recorded exactly for an unwatched native receiver with an own writable plain slot; reason 3 means the key is absent |
| SetCaches.OrdinarySet | runtime/NightRuntime.cpp:1995-2005 | the ordinary set (section 10.1.9.2 of ECMA-262) in the terms of the walk: exactly when it adds, refuses, runs a setter, or stores to the receiver's own slot, with nobody to notify |
| SetCaches.SetHitStores | runtime/NightRuntime.cpp:2408-2422 | a set hit is the ordinary set's own-slot store: the same slot, the name then reads the value, no get row is disturbed |
| SetCaches.PopulateAddTransition | runtime/NightInlineCaches.cpp:74-142 | an add row is recorded if and only if the reshaped receiver and its whole static chain of at most four prototypes admit one; the nursery flag is exact |
| SetCaches.FilledIsSeen | runtime/NightInlineCaches.cpp:74-142 | what the populate, its span check included, establishes of every accepted row over any run of the set, setters included: one slot more, the key last, a plain data property in the recorded slot, the class unchanged and without an add hook or a resolve hook for the key, nothing watched |
| SetCaches.SeenReplay | runtime/NightInlineCaches.cpp:178-190 | a replay of any accepted row writes in range after growth, and leaves every slot of the new span initialised if and only if the row's slot is the one the span grew by or that one already had a value |
| SetCaches.ReplayedHeap | runtime/NightInlineCaches.cpp:144-232 | a replay of a transition leaves a well-formed heap, with every slot of the new span initialised and every other object alone |
| SetCaches.ReplayAdds | runtime/NightInlineCaches.cpp:200-232 | a replay is the shape tree's own add of the key: same shape, same slots plus the value; the define flavour needs no prototype guard |
| SetCaches.ReplaySteps | runtime/NightInlineCaches.cpp:144-232 | a replay of a transition is a legal engine step, so get-cache coherence survives it |
| SetCaches.AddsUnique | runtime/NightInlineCaches.cpp:194-199 | the generic add is determined: two heaps it may leave agree on the object's shape, slots and elements and on every other object |
| SetCaches.ReplayIsTheAdd | runtime/NightInlineCaches.cpp:144-232 | whatever heap the generic add leaves, the replay leaves the same shape, slots, elements and other objects |
| SetCaches.ReplayRefinesSet | runtime/NightInlineCaches.cpp:144-198 | for every row the populate accepts, where the guards hold: the replay is the ordinary set if and only if the row is a shape-tree transition and the recorded prototype shapes decide for an add |
| SetCaches.ReplayRefinesDefine | runtime/NightInlineCaches.cpp:200-232 | for every row the populate accepts, on a receiver of the old shape that watches nothing: the define replay is the plain add if and only if the row is a shape-tree transition |
| SetCaches.UntoldReplayIsWrong | runtime/NightInlineCaches.cpp:86-103 | on an object whose class has an add hook, or that is watched, no row's replay is the ordinary set or the plain add, whatever was recorded; the populate refuses such a receiver |
| SetCaches.AddFillsTransition | runtime/NightRuntime.cpp:3246-3270 | a row filled from a define, or a set, that was the plain add itself is a transition, whatever the chain holds |
| SetCaches.OrdinaryAddFills | runtime/NightRuntime.cpp:2433-2471 | a row filled from a set that was an ordinary add, with the span read before it, meets both conditions |
| SetCaches.AddRowKept | runtime/NightInlineCaches.cpp:144-198 | an add row and its decision stay good under every engine step |
| SetCaches.ChainStillIs | runtime/NightInlineCaches.cpp:155-177 | the guard loop accepts exactly the chains that still have the recorded objects and shapes and end there |
| SetCaches.Mutator.TryAddPropTransition | runtime/NightInlineCaches.cpp:144-198 | for every accepted row: replays if and only if receiver shape, watch flags and full chain allow, then leaves exactly the replayed heap, which is the ordinary set's exactly under the two conditions; otherwise changes nothing |
| SetCaches.Mutator.TryInitAddTransition | runtime/NightInlineCaches.cpp:200-232 | for every accepted row: replays if and only if the receiver's shape and watch flags allow, and is then the plain add exactly when the row is a transition; otherwise changes nothing |
| SetterRows.SetterRowAccepted | runtime/NightInlineCaches.cpp:74-142 | first witness: the set's setter defined the name, so the row is a transition but its chain decides for a setter; replaying it differs from the set |
| SetterRows.RemovalIsStep | runtime/NightInlineCaches.cpp:74-142 | second witness: both heaps are well formed, and a setter that removes itself, deletes a property and adds two is one step the engine's contract allows |
| SetterRows.RemovedRowFilled | runtime/NightInlineCaches.cpp:99-111 | the populate accepts the row it leaves |
| SetterRows.RemovedRowDisagrees | runtime/NightInlineCaches.cpp:144-198 | its guards pass on another object where both the recorded chain and the ordinary set decide for an add, yet it is no transition and the replay turns one property's value into another's |
| SetterRows.RemovalDefeatsRow | runtime/NightInlineCaches.cpp:74-198 | the second witness as a whole, on two well-formed heaps one legal step apart: the set ran a setter, its row is accepted, and on another object the guards pass and the set adds but the replay is no such add |
| SetRuns.StepKeepsInv | runtime/NightRuntime.cpp:2317-2475 | engine steps, collections, address reuse, read fills, begun sets and defines, set fills and add fills all keep what rows and begun operations rely on |
| SetRuns.ReplayIsNext | runtime/NightInlineCaches.cpp:144-198 | the replay of a transition row is itself a step of such a run |
| SetRuns.SameGenerationFill | runtime/NightRuntime.cpp:2433-2464 | a fill is sound if the generation word is what it was when the set or define began, whatever ran in between |
| SetRuns.ReceiverIsExactly | runtime/NightInlineCaches.cpp:144-154 | for every row, sound or not: a receiver whose shape word matches has the recorded old shape if and only if the word still names that shape |
| SetRuns.SetHitIsHit | runtime/NightInlineCaches.cpp:144-198 | bare-word matches on receiver, prototypes and their shapes are the guards of the row itself, nursery prototypes included |
| SetRuns.HitIsSetHit | runtime/NightInlineCaches.cpp:144-198 | the words of a sound row that can hit match wherever the row's own guards pass |
| SetRuns.CanBegin | runtime/NightRuntime.cpp:2433-2434 | a set or define of a name may begin on any object whose shape lives |
| SetRuns.CanFillAdd | runtime/NightRuntime.cpp:2443-2471 | whatever a begun set or define ran, a row the populate accepts may be filled with the old word and the words of now: the helper checks nothing more |
| SetRuns.SetCachesCoherent | runtime/NightRuntime.cpp:2317-2475 | at every point of every run with collections and address reuse: each set row stores where the ordinary set does; each soundly filled add row of either family agrees with its operation exactly under the conditions, always if a plain add filled it, and writes a live new shape; the read side is coherent as well |
| CacheRegion.NotedOnce | runtime/NightRuntime.cpp:784-808 | recording a coordinate never leaves one shape in two ways and forgets no other shape |
| CacheRegion.FastWayReadsRow | runtime/NightRuntime.cpp:801-807 | the no-decode fast offset is offered exactly for own fixed slots, and a load at it, past the object's header, is of the slot its row names |
| CacheRegion.CountProtos | runtime/NightRuntime.cpp:2347-2353 | counting up to the first zero pointer |
| CacheRegion.TransRowRoundTrip | runtime/NightRuntime.cpp:867-882 | reading a site row back gives the shapes, slot and chain it was filled with, although no count is stored |
| CacheRegion.TransOffset | runtime/NightRuntime.cpp:867-882 | a row has a pre-decoded offset exactly if its slot is a fixed one; on every object with that many fixed slots a load or a store at it is one of the slot the row names |
| CacheRegion.Caches.NoteGetWay | runtime/NightRuntime.cpp:784-808 | which way is written, its five words at their places, and that no other word changes |
| CacheRegion.Caches.FillTransRow | runtime/NightRuntime.cpp:867-882 | the twelve words of the row at their places, the offset being that of the slot, and that no other word changes |
| CacheRegion.Caches.RecordAdd | runtime/NightRuntime.cpp:2443-2471 | for the chain of at most four prototypes the populate yields, site row and table row are filled, no other word or row changes, and the nursery discipline holds |
| CacheRegion.Caches.ReseedFromTable | runtime/NightRuntime.cpp:2361-2388 | a table row whose replay succeeded re-seeds the site row without raising the flag, and the discipline still holds |
| CacheRegion.Caches.ClearTransRows | runtime/NightRuntime.cpp:2666-2671 | the striding loop zeroes exactly the add rows and touches no get way |
| CacheRegion.Caches.MinorCollectionEnd | runtime/NightRuntime.cpp:2664-2675 | afterwards no add row names the nursery; with the flag up exactly the add rows and the table are cleared and no get way is touched |
| CacheRegion.Caches.Purge | runtime/NightRuntime.cpp:2528-2542 | the region is all zero and the generation word has moved, wrapping at 2^32 |
| GcLifetime.StepKeepsInv | runtime/NightRuntime.cpp:2507-2628 | every allocation, read, fill with words read then or earlier, drop, slice, purge and minor collection keeps the row-age invariant |
| GcLifetime.StampReadsBack | runtime/NightRuntime.cpp:2528-2531 | a stamped row can hit exactly when the purges since its fill are a multiple of 2^32 |
| GcLifetime.RowsNeverStale | runtime/NightRuntime.cpp:2507-2628 | over any interleaving of mutator steps, fills, minor and sliced major collections with fewer than 2^32 purges, no soundly filled row that can hit names a cell that moved or died |
| GcLifetime.UnsoundGoesStale | runtime/NightRuntime.cpp:2433-2471 | soundness at the fill is needed: an unsoundly filled row can hit with a word that names no such cell, at once or after one slice |
| GcLifetime.SameGenerationFillIsSound | runtime/NightRuntime.cpp:2433-2464 | an unchanged generation word between read and fill makes the fill sound |
| GcLifetime.LateFillIsUnsafe | runtime/NightRuntime.cpp:2433-2471 | a run of six steps: a shape's word is read, a collection inside the set moves the shape, the row is filled, another shape takes the address; the row can hit and names the wrong cell |
| GcLifetime.GenerationWrapIsUnsafe | runtime/NightRuntime.cpp:2528-2531 | the bound is sharp: a run with 2^32 purges ends with a stale row that can hit |
| NoExtraIndexed.HitIsNoExtra | runtime/NightRuntime.cpp:834-846 | a hit on a current-generation row proves the whole chain has no indexed property, whatever the two compared addresses now hold |
| NoExtraIndexed.PrototypeMayHaveIndexed | runtime/NightRuntime.cpp:847-849 | the full walk answers whether any prototype at any depth has indexed properties |
| NoExtraIndexed.Cache.Ask | runtime/NightRuntime.cpp:822-861 | for every heap and every cache content it can come to hold, the cached answer is the full walk's: yes exactly if the object's class and flags and every prototype's, and every prototype's dense elements, leave nothing indexed; a yes for a chain of at most two prototypes hits the next time, and no other row changes |
| NoExtraIndexed.Cache.Run | runtime/NightRuntime.cpp:810-818 | mutators and minor collections, which may reshape, grow and move objects, keep every row's guarantee |
| NoExtraIndexed.Cache.MajorCollection | runtime/NightRuntime.cpp:810-818 | bumping the generation makes every row unhittable unless the word wraps, so anything may be moved or freed |
| Fuses.StepKeepsCoherent | runtime/NightRuntime.cpp:1164-1255 | every store, delete, redefinition, arm, blow, purge and minor collection keeps armed cells and armed literals equal to the global's own slots, and what predicted cells hold calls the predicted body |
| Fuses.FusesCoherent | runtime/NightRuntime.cpp:2637-2686 | so does every run, with every cell armed with a nursery value on the pending list |
| Fuses.ArmedCallsPredicted | runtime/NightRuntime.cpp:2743-2755 | at every point of every run, an armed cell is the global's own slot, and if a callee is predicted, the value's body plus one is the expected word and the cell has that callee's script |
| Fuses.ArmIsExact | runtime/NightRuntime.cpp:2728-2761 | an attempt to arm succeeds exactly if arming is allowed, the cell is unarmed, the name is a plain slot, and the value calls the body predicted, if any; what it leaves; no other cell changes |
| Fuses.StoreUnarms | runtime/NightRuntime.cpp:2889-2899 | a store by name, or the engine's with its hook: exactly the cells of that name armed with another value are unarmed, exactly the literals of it with another value blown, and the epoch moves for a binding |
| Fuses.AfterStoreArms | runtime/NightRuntime.cpp:899-940 | after the store: exactly which cell and which literal are armed |
| Fuses.NameGoesOut | runtime/NightRuntime.cpp:1234-1246 | a computed-key store, a delete by name and a lexical shadow blow exactly the armed cells and the literals of that name; when the epoch moves; what a shadow has resolved again |
| Fuses.KeyChangeIsExact | runtime/NightRuntime.cpp:5668-5671 | so does a define or delete, with the epoch, and the slot is what it made it |
| Fuses.ResolvedStoreIsExact | runtime/NightRuntime.cpp:2858-2871 | the resolved-slot store: the slot, and the binding's cell alone, armed, unarmed or left |
| Fuses.InlineStoreIsExact | runtime/NightRuntime.cpp:2767-2786 | the compiled store and its leaf: the cell changes only if armed with another value, is armed again if it may be, and is blown past 1024 flips |
| Fuses.OtherStepsAreExact | runtime/NightRuntime.cpp:1364-1379 | resolving, activation, distrust and the purge: what becomes of every cell and every literal word |
| Fuses.CollectionIsExact | runtime/NightRuntime.cpp:2637-2686 | what a minor collection leaves of every cell: untouched, armed with the moved value, unarmed because that calls another body, or tried anew |
| Fuses.ResolvedStoreKeeps | runtime/NightRuntime.cpp:2854-2871 | a store that skips the literal fuses keeps coherence if and only if it does not contradict an armed literal |
| Fuses.BlownLiteralAbsorbs | runtime/NightRuntime.cpp:693-712 | a blown literal word stays blown over every run |
| Fuses.LiteralStep | runtime/NightRuntime.cpp:899-940 | a literal word is armed only after a store of the literal, or at activation, and only when the slot reads it back |
| Fuses.DistrustIsForever | runtime/NightRuntime.cpp:744-748 | after distrust no run ever arms a value cell or a literal again |
| Fuses.EpochPinsBindings | runtime/NightRuntime.cpp:734-742 | over any run without a collection, an unchanged binding epoch proves that no binding's slot changed, appeared or went away |
| Fuses.LowWordPinsBindings | runtime/NightRuntime.cpp:734-742 | so do equal low words, unless the epoch moved by a nonzero multiple of 2^32 |
| Fuses.BlownCellWaitsForPurge | runtime/NightRuntime.cpp:2724-2727 | only the purge of a major collection revives a blown value cell |
| Fuses.DuplicateNamesGoStale | runtime/NightRuntime.cpp:5657-5665 | with one name twice in the binding table, predicted callee or not, three steps leave an armed cell with a value the global no longer has |
| Fuses.DuplicateLiteralsGoStale | runtime/NightRuntime.cpp:5648-5656 | with one name twice in the literal table, two steps leave a literal armed that the global no longer reads |
| FuseRuntime.Runtime.MaybeArmBindingFuse | runtime/NightRuntime.cpp:2728-2761 | an unarmed cell is armed if and only if arming is allowed, the name is a plain slot, and the expected word is 0 or the value's body plus one; then it has the slot's value and the callee's script; nursery values are listed; coherence is kept |
| FuseRuntime.Runtime.MaybeBlowBindingFuseId | runtime/NightRuntime.cpp:1194-1203 | a value change unarms, a same-bits rewrite does not, the epoch moves either way; coherence is kept |
| FuseRuntime.Runtime.BlowBindingFuseKey | runtime/NightRuntime.cpp:1234-1246 | blows the first cell of the name |
| FuseRuntime.Runtime.BlowAllBindingFuses | runtime/NightRuntime.cpp:1247-1258 | blows every armed cell |
| FuseRuntime.Runtime.DistrustGlobalFuses | runtime/NightRuntime.cpp:744-748 | leaves nothing armed and arming disallowed |
| FuseRuntime.Runtime.SetNameBefore | runtime/NightRuntime.cpp:2889-2899 | the half of a named write that runs before the store; coherence is kept |
| FuseRuntime.Runtime.SetNameAfter | runtime/NightRuntime.cpp:2900-2904 | the half that runs after a successful store; coherence is kept |
| FuseRuntime.Runtime.GlobalDataStored | runtime/NightRuntime.cpp:5647-5666 | the engine's store with its hook keeps coherence |
| FuseRuntime.Runtime.GlobalKeyChanged | runtime/NightRuntime.cpp:5668-5671 | the engine's define or delete with its hook keeps coherence |
| FuseRuntime.Runtime.BindingWritten | runtime/NightRuntime.cpp:2767-2786 | re-arms, or past 1024 flips blows; coherence is kept |
| FuseRuntime.Runtime.SetGlobal | runtime/NightRuntime.cpp:2858-2871 | the resolved-slot store, to any binding, keeps coherence if and only if it does not contradict an armed literal |
| FuseRuntime.Runtime.ArmGnameFusesFromLive | runtime/NightRuntime.cpp:1364-1379 | arms each unarmed literal whose slot reads it |
| FuseRuntime.Runtime.MinorCollection | runtime/NightRuntime.cpp:2637-2686 | the callback mends every cell whose value moved, so coherence holds again |
| ClassWord.AddPropCheck | runtime/NightRuntime.cpp:5695-5781 | the verdict in every branch: keep, mark advance-ineligible, clear |
| ClassWord.FindDelegate | runtime/NightRuntime.cpp:5741-5758 | true exactly when a layout that has all of this one first predicts the key at that very slot, and not before |
| ClassWord.PredictedNamesInPlace | runtime/NightRuntime.cpp:5687-5694 | under the SLOTS claim every predicted name present sits at its position, in a fixed slot, also past the fast return |
| ClassWord.AddKeepsClaims | runtime/NightRuntime.cpp:5695-5781 | the check keeps the SLOTS claim, the advance certificate and the claims on values in every branch |
| ClassWord.VerdictIsExact | runtime/NightRuntime.cpp:5695-5781 | SLOTS goes exactly when the claim would not survive the add, or under construction the certificate would not; a stamped object is marked exactly when the certificate alone would not |
| ClassWord.ClaimsHoldOverRuns | docs/DESIGN.md:244-262 | in every reachable state, under engine stores, compiled stores, adds, stamps and structural changes: SLOTS and the certificate hold; where a word has TYPES every value stored under a name its layout claims a number for is one; where it has RANGES every such value is an int32 inside the claimed interval; words under construction have no index |
| ClassWord.EqualEpochKeepsStamps | runtime/NightObjectWord.h:73-133 | equal epochs at two points of a run: every object stamped at the first keeps its index and all its claims |
| ClassWord.GuardOnceLoadLater | docs/DESIGN.md:244-262 | a stamp tested once, then any run that leaves the epoch alone: a load at a predicted slot reads a fixed slot with the predicted name, whose value, once stored, is a number under TYPES and in the claimed interval under RANGES |
| ClassWord.LostClaimMovesEpoch | runtime/NightObjectWord.h:83-93 | a claim lost to a store or an add moves the epoch exactly when the object was not under construction |
| ClassWord.ObjectWords.SetClassWord | runtime/NightObjectWord.h:121-133 | any word may be written: only this object's changes, and the epoch moves exactly when a stamp is overwritten by another word; a construct site's word keeps the claims |
| ClassWord.ObjectWords.SetConstructingSentinel | runtime/NightObjectWord.h:114-119 | the word becomes the sentinel with TYPES and RANGES and without SLOTS, over any word, and the epoch stays; over no word the claims are kept |
| ClassWord.ObjectWords.Mark | runtime/NightObjectWord.h:93-112 | what a verdict does to each field of the word, and when the epoch moves |
| ClassWord.ObjectWords.PropertyAdded | runtime/NightHooks.cpp:56-59 | the add hook: the check's verdict marked on the word; every claim kept |
| ClassWord.ObjectWords.SlotStored | runtime/NightObjectWord.h:70-91 | whatever the slot and the value, RANGES is gone afterwards, TYPES stays exactly if it was there and the value is a number, and index, SLOTS, middle bits and sentinel are untouched; the epoch moves exactly if the word changed and was not under construction; every claim kept |
| NightStack.FrameReads | runtime/NightEntry.cpp:82-103 | a body reads callee, this, every actual in order and undefined for each missing formal |
| NightStack.FrameStarts | runtime/NightEntry.cpp:56-394 | for each kind of entry, position by position: callee and this, or script and global this, or callee and the closing magic; the actuals, an apply's from its array-like argument; undefined; and above a resume's frame the saved resume index with the kind, the generator, the sent value |
| NightStack.EntryIsExact | runtime/NightEntry.cpp:56-322 | an entry is declined exactly if there is no compiled body, the tier is not activated, or an apply can pass nothing on; it meets a hole exactly if what it passes has one |
| NightStack.Stack.BuildFrame | runtime/NightEntry.cpp:223-335 | the frame and the words above it are exactly right, nothing below is touched, and only a hole stops it |
| NightStack.Stack.EnterNight | runtime/NightEntry.cpp:56-130 | every entry, a resume included: exactly when it is not taken; a body starts on exactly the words of its kind of entry; a construct with an object `this` yields an object, an object result is returned as it is, a construct's other results become `this`, every other entry returns the body's own value; the top and all slots below it are restored on every path, exactly the generators that were running are, a full stack is an error that touches nothing, and nesting stays within the bound |
| NightStack.Stack.CallBody | runtime/NightEntry.cpp:376-410 | a resumed generator whose body was entered - and then did anything, throwing before its restore or after a suspend included - is left suspended or closed, closed if it threw |
| NightStack.Stack.Run | runtime/NightStack.h:51-96 | a disciplined body, with nested direct calls, entries and resumes, never writes past the limit and never below its frame, and leaves no other generator running that was not |
| NightStack.Stack.CloseAfterResume | runtime/NightEntry.cpp:396-410 | the tail of a resume: closed after a throw or an end still running, as it was otherwise |
| NightStack.Stack.RestoreFrame | runtime/NightGenerator.cpp:102-121 | locals, operands and environment land in the frame's slots and nothing below them changes; the release assert holds |
| NightStack.Stack.SuspendThenRestore | runtime/NightGenerator.cpp:80-121 | a frame suspended at one place on the stack and restored at another has the same locals, operands, operand count and environment |
| NightStack.TopLevel | runtime/NightStack.cpp:18-24 | over any run of entries from an empty stack it is empty again after each, no generator is left running, and nesting is at most (262144 - 8192) / 2 = 126976 deep |
| Generator.GeneratorObject.Suspend | runtime/NightGenerator.cpp:48-100 | locals then operands are saved; both storage asserts hold |
| Generator.GeneratorObject.Restore | runtime/NightGenerator.cpp:102-121 | the same locals, operands, operand count and environment come back; the storage is empty and the generator running |
| Generator.GeneratorObject.SuspendRestore | runtime/NightGenerator.cpp:48-121 | suspend then restore is the identity for all lengths within capacity, and hands the environment back |
| Generator.Exceptions.CheckResume | runtime/NightGenerator.cpp:129-143 | resuming with a throw or a forced return raises exactly the value or the closing magic, and stages a return's value |
| Generator.Exceptions.Closing | runtime/NightGenerator.cpp:149-169 | the epilogue takes the pending magic and nothing else |
| Generator.Exceptions.Unwind | runtime/NightGenerator.cpp:123-169 | for bodies that route exceptions as the pads hypothesis says: the magic never leaves the body and no catch sees it, a forced return gives back its staged value unless a finally overrides, and the first overriding return decides |
| HeapCapture.TranscribeProps | runtime/NightSnapshotExtras.cpp:566-606 | the atom data properties in definition order; the exact flag if and only if they are all there is, at slots 0, 1, 2 and so on, all fixed |
| HeapCapture.MergeSummarizes | runtime/NightSnapshotExtras.cpp:628-640 | folding one more sighting in keeps "common value if all agree, else unknown" |
| HeapCapture.Capture.VisitEnvironments | runtime/NightSnapshotExtras.cpp:619-651 | every call object on the chain is merged and its objects enqueued |
| HeapCapture.Capture.Run | runtime/NightSnapshotExtras.cpp:503-666 | the worklist ends on every finite image; an object has an entry, exactly one, if and only if a path of transcribable objects leads to it from a root, through prototypes that are no primordials, atom data properties, elements and captured slots; each entry has its prototype unless that is a primordial, its properties in definition order, its elements, and the exact flag exactly when due; the environment map summarizes exactly the captured activations |
| HeapCapture.LeastIsReached | runtime/NightSnapshotExtras.cpp:515-540 | the least closed set is what paths from the roots reach |
| HeapCapture.EdgesAre | runtime/NightSnapshotExtras.cpp:560-664 | an object leads exactly to its prototype, if no primordial, and to the values of its atom data properties, its elements and the slots its closure captures |
| HeapCapture.TranscriptSays | runtime/NightSnapshotExtras.cpp:544-617 | what every entry is, told from the image alone: every pair and its place, the prototype, the flag |
| HeapCapture.SightingsAre | runtime/NightSnapshotExtras.cpp:619-651 | the map summarizes exactly the slots of the activations some captured function's closure reaches within the bound |
| HeapCapture.CaptureOrderFree | runtime/NightSnapshotExtras.cpp:503-666 | object set and environment map do not depend on the visit order |
| Serialize.HalfStep | runtime/NightSnapshotExtras.cpp:447-460 | overwriting one address word seals one more row |
| Serialize.TableReadsBack | runtime/NightSnapshotExtras.cpp:306-320 | a table parses back to its rows, whatever follows it |
| Serialize.RowLayout | runtime/NightSnapshotExtras.cpp:307-320 | a row byte by byte: address and length low byte first, the path, zeros up to a multiple of four |
| Serialize.Serialize | runtime/NightSnapshotExtras.cpp:306-320 | the bytes are the table, and each recorded offset is where that row's address word is |
| Serialize.Mirror.Seal | runtime/NightSnapshotExtras.cpp:447-460 | patching in place gives byte for byte the table that serializing from the new addresses gives |
| Digest.BuildDigest | runtime/NightRegistration.cpp:108-172 | the digest of the scripts; its scope list has no duplicate and is the least set that holds the named scopes and is closed under enclosing |
| Digest.Builder.CloseOver | runtime/NightRegistration.cpp:142-149 | closing over the growing list ends and yields that least set |
| Digest.Builder.AppendScope | runtime/NightRegistration.cpp:151-171 | the scope's words with the count patched in afterwards |
| Digest.DigestReadsBack | runtime/NightRegistration.cpp:94-101 | the format decides the digest: parsing gives back exactly the script rows and scope rows |
| Digest.DigestSays | runtime/NightRegistration.cpp:94-135 | what is read is the image: each script's address and, thing by thing, its kind or that it is null, whose byte no kind has; each scope's address and bindings |
| Digest.BindingLayout | runtime/NightRegistration.cpp:156-165 | a binding's four words: name, whether it is a var, whether it has an environment slot, the slot |

## Left out

- Compiled code: the analysis, the code generator and the snapshot walker. Compiled arms appear only as the steps the runtime's comments describe.
- Accessor priming and the accessor-call cache: that populate walk lacks the refusals the data-slot walk has.
- Lexical shadowing of fused globals beyond the fuse and row updates of the shadow hook.
- Prefix-advance restamps between sibling layouts, and exact-layout stamps from snapshot images: decided by code not modelled.
- "Clean" verdicts of the set helpers: a replay or slot store can demote a stamp, so they do not keep the epoch; nothing of the kind is claimed.
- GetCaches.GetCachesCoherent: get ways and mega-get entries for integer keys are in no run; `FilledReadsWalk` says exactly when such a row is right at its fill. Add rows are about names as well.
- The first run of a generator, up to its initial suspend: a generator is in the model once it is suspended.
- The mono/poly sentinel of set and get sites, and the hash functions of the direct-mapped tables: any index into the table will do.
- The other regions the purge clears (append cache, accessor cache, callee, allocation and intrinsic cells): one purge covers them all, and their rows are rows of `GcLifetime`.
- Identity-cell arming in `night_runtime_install_env`, Math, String and RegExp arms, promises and async operations, iterators, private names.
- Write barriers, object swap, out-of-memory paths of slot growth, census counters, diagnostics.
- Script delazification, and the regular-expression and heap tables of the snapshot: same word format, no addresses to seal.
- Tracing and forwarding of the stack's slots by the collector.
- SetCaches.Mutator.TryAddPropTransition: the class-word check a replay ends with is `ClassWord.ObjectWords.PropertyAdded`, not part of this heap; a failed slot growth is not modelled.
- SetCaches.FilledIsSeen: a shape is known by identity here, as in `OrdinaryAddFills`; whether the recorded word still names it is `SetRuns.ReceiverIsExactly`, `SetRuns.SameGenerationFill` and `GcLifetime.UnsoundGoesStale`.
- SetCaches.OrdinaryAddFills: the same.
- ClassWord.ClaimsHoldOverRuns: a claimed number is an int32 or a double; finer numeric masks, which every load checks again, and the interval claims of array elements are not modelled.
- ClassWord.AddPropCheck: words are records of fields, so the masks and shifts are not modelled bit by bit; each mask in the source touches one field.
- ClassWord.EqualEpochKeepsStamps: the epoch is unbounded, so a wrap of the 64-bit counter is not modelled.
- Fuses.EpochPinsBindings: the epoch is unbounded; `LowWordPinsBindings` is what comparing its low word gives.
- NoExtraIndexed.Cache.MajorCollection: promises nothing of the rows when the generation word wraps; `GcLifetime.GenerationWrapIsUnsafe` shows that nothing could be.
- CacheRegion.Caches.Purge: of the regions the source zeroes this is the site region; rows of the others are unstamped rows of `GcLifetime`, dropped by the same purge.
- HeapCapture.Capture.Run: the environment-chain bound is a field of the image, which the source fixes at 32.
