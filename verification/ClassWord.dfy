// The class word of an object: a stamped layout index and the claims that still hold of the object, the
// per-add check that keeps the SLOTS claim honest, and the epoch that moves whenever a stamped claim is lost.
module ClassWord {

  /** The 32 bits by field, low to high: the layout index (0 unstamped), the TYPES and SLOTS claims, twelve
      middle bits, the RANGES claim and the construction sentinel. The source's masks each touch one field. */
  datatype Word = Word(idx: nat, types: bool, slots: bool, mid: nat, ranges: bool, constructing: bool)

  const NO_WORD := Word(0, false, false, 0, false, false)

  /** While the sentinel is up the middle bits are the construct site's early key; in a stamped word their
      lowest bit marks the object ineligible for a prefix advance. */
  predicate AdvIneligible(w: Word) {
    w.mid % 2 == 1
  }

  function WithAdvIneligible(w: Word): Word {
    w.(mid := if w.mid % 2 == 1 then w.mid else w.mid + 1)
  }

  predicate Stamped(w: Word) {
    w != NO_WORD && !w.constructing
  }

  /** A property's value. `Unset` is what an append leaves until its own store. */
  datatype Value = Unset | Int32(n: int) | Double | NonNumber

  predicate IsNumber(v: Value) {
    v.Int32? || v.Double?
  }

  /** The engine's store masks: any store drops RANGES, a store of a non-number TYPES as well. */
  function StoreWord(w: Word, isNumber: bool): Word {
    w.(ranges := false, types := w.types && isNumber)
  }

  // ---- layouts ---------------------------------------------------------------------------------

  type Key = nat

  /** What a layout claims of a predicted name's value: that it is a number, and perhaps an interval. */
  datatype Claim = NoClaim | Number | Interval(lo: int, hi: int)

  /** Per layout the predicted atoms in slot order, what it claims of their values, and the length of its longest
      extension, itself included. `ids` interns the atoms. */
  datatype Layouts = Layouts(rows: seq<seq<nat>>, claims: seq<seq<Claim>>, extLen: seq<nat>, ids: seq<Key>)

  predicate Extends(t: Layouts, base: nat, other: nat)
    requires base < |t.rows| && other < |t.rows|
  {
    |t.rows[base]| < |t.rows[other]| && t.rows[base] <= t.rows[other]
  }

  ghost predicate ValidLayouts(t: Layouts) {
    && |t.extLen| == |t.rows| == |t.claims|
    && (forall i :: 0 <= i < |t.rows| ==> |t.claims[i]| == |t.rows[i]|)
    && (forall i, j :: 0 <= i < |t.rows| && 0 <= j < |t.rows[i]| ==> t.rows[i][j] < |t.ids|)
    && (forall i :: 0 <= i < |t.rows| ==> |t.rows[i]| <= t.extLen[i])
  }

  function Predicted(t: Layouts, l: nat, i: nat): Key
    requires ValidLayouts(t) && l < |t.rows| && i < |t.rows[l]|
  {
    t.ids[t.rows[l][i]]
  }

  /** The layout a word speaks about, if any. */
  function LayoutOf(w: Word): (l: int)
    ensures l >= -1
  {
    if w.constructing then w.mid - 1 else w.idx - 1
  }

  /** An extending layout predicts the key at exactly this slot. */
  ghost predicate Delegates(t: Layouts, l: nat, id: Key, slot: nat)
    requires ValidLayouts(t) && l < |t.rows|
  {
    exists c :: 0 <= c < |t.rows| && Extends(t, l, c) && |t.rows[l]| <= slot && FirstIn(t, c, |t.rows[l]|, id, slot)
  }

  /** `slot` is the first position from `start` on at which layout `c` predicts the key. */
  ghost predicate FirstIn(t: Layouts, c: nat, start: nat, id: Key, slot: nat)
    requires ValidLayouts(t) && c < |t.rows|
  {
    && start <= slot < |t.rows[c]| && Predicted(t, c, slot) == id
    && forall i :: start <= i < slot ==> Predicted(t, c, i) != id
  }

  datatype Verdict = Keep | Ineligible | Clear

  /** The add check: what the add of `id` at `slot` does to the word. */
  ghost predicate Judges(t: Layouts, w: Word, id: Key, slot: nat, nfixed: nat, v: Verdict)
    requires ValidLayouts(t)
  {
    var l := LayoutOf(w);
    if !w.slots then v == Keep
    else if !(0 <= l < |t.rows|) then v == Clear
    else if slot >= t.extLen[l] then v == Keep
    else if exists i :: FirstIn(t, l, 0, id, i) then
      v == if slot < nfixed && FirstIn(t, l, 0, id, slot) then Keep else Clear
    else if Delegates(t, l, id, slot) && slot < nfixed then v == Keep
    else v == if !w.constructing && slot >= |t.rows[l]| then Ineligible else Clear
  }

  function Apply(w: Word, v: Verdict): Word {
    match v
    case Keep => w
    case Ineligible => WithAdvIneligible(w)
    case Clear => w.(slots := false)
  }

  // ---- the add check as it runs ----------------------------------------------------------------

  /** The first position of a key in a layout from `start` on. */
  method FindInLayout(t: Layouts, l: nat, start: nat, id: Key) returns (found: bool, pos: nat)
    requires ValidLayouts(t) && l < |t.rows|
    ensures found ==> FirstIn(t, l, start, id, pos)
    ensures !found ==> forall i :: !FirstIn(t, l, start, id, i)
  {
    found, pos := false, start;
    while pos < |t.rows[l]|
      invariant start <= pos && forall i :: start <= i < pos && i < |t.rows[l]| ==> Predicted(t, l, i) != id
    {
      if t.ids[t.rows[l][pos]] == id {
        return true, pos;
      }
      pos := pos + 1;
    }
  }

  /** Layout `c` has all of layout `l` first, and then this key at this slot - or, there, at an earlier one too. */
  ghost predicate PredictsAt(t: Layouts, l: nat, c: nat, id: Key, slot: nat)
    requires ValidLayouts(t) && l < |t.rows| && c < |t.rows|
  {
    t.rows[l] < t.rows[c] && |t.rows[l]| <= slot < |t.rows[c]| && t.ids[t.rows[c][slot]] == id
  }

  ghost predicate PredictsBefore(t: Layouts, l: nat, c: nat, id: Key, slot: nat)
    requires ValidLayouts(t) && l < |t.rows| && c < |t.rows| && slot <= |t.rows[c]|
  {
    exists i :: |t.rows[l]| <= i < slot && Predicted(t, c, i) == id
  }

  lemma DelegatesMeans(t: Layouts, l: nat, id: Key, slot: nat)
    requires ValidLayouts(t) && l < |t.rows|
    ensures Delegates(t, l, id, slot) ==> exists c :: 0 <= c < |t.rows| && PredictsAt(t, l, c, id, slot)
    ensures !Delegates(t, l, id, slot) ==>
      forall c :: 0 <= c < |t.rows| && PredictsAt(t, l, c, id, slot) ==> PredictsBefore(t, l, c, id, slot)
  {
    if Delegates(t, l, id, slot) {
      var c :| 0 <= c < |t.rows| && Extends(t, l, c) && FirstIn(t, c, |t.rows[l]|, id, slot);
      assert PredictsAt(t, l, c, id, slot);
    } else {
      forall c | 0 <= c < |t.rows| && PredictsAt(t, l, c, id, slot) ensures PredictsBefore(t, l, c, id, slot) {
        assert Extends(t, l, c) && !FirstIn(t, c, |t.rows[l]|, id, slot);
      }
    }
  }

  method FindDelegate(t: Layouts, l: nat, id: Key, slot: nat) returns (ext: bool)
    requires ValidLayouts(t) && l < |t.rows|
    ensures ext <==> Delegates(t, l, id, slot)
    ensures ext ==> exists c :: 0 <= c < |t.rows| && PredictsAt(t, l, c, id, slot)
    ensures !ext ==> forall c :: 0 <= c < |t.rows| && PredictsAt(t, l, c, id, slot) ==> PredictsBefore(t, l, c, id, slot)
  {
    DelegatesMeans(t, l, id, slot);
    ext := false;
    var c := 0;
    while c < |t.rows| && !ext
      invariant 0 <= c <= |t.rows|
      invariant ext ==> Delegates(t, l, id, slot)
      invariant !ext ==> forall d :: 0 <= d < c && Extends(t, l, d) ==> !FirstIn(t, d, |t.rows[l]|, id, slot)
      decreases |t.rows| - c, !ext
    {
      if |t.rows[l]| < |t.rows[c]| && t.rows[l] <= t.rows[c] {
        var found, i := FindInLayout(t, c, |t.rows[l]|, id);
        ext := found && i == slot;
        assert ext ==> Extends(t, l, c) && FirstIn(t, c, |t.rows[l]|, id, slot);
      }
      if !ext {
        c := c + 1;
      }
    }
  }

  method AddPropCheck(t: Layouts, w: Word, id: Key, slot: nat, nfixed: nat) returns (v: Verdict)
    requires ValidLayouts(t)
    ensures Judges(t, w, id, slot, nfixed, v)
  {
    if !w.slots {
      return Keep;
    }
    var layout: nat;
    if w.constructing {
      if w.mid == 0 {
        return Clear;
      }
      layout := w.mid - 1;
    } else {
      if w.idx == 0 {
        return Clear;
      }
      layout := w.idx - 1;
    }
    if layout >= |t.rows| {
      return Clear;
    }
    if slot >= t.extLen[layout] {
      return Keep;
    }
    var found, pos := FindInLayout(t, layout, 0, id);
    if found {
      assert FirstIn(t, layout, 0, id, pos);
      return if slot >= nfixed || slot != pos then Clear else Keep;
    }
    var ext := FindDelegate(t, layout, id, slot);
    var clear := !ext || slot >= nfixed;
    if clear && !w.constructing && slot >= |t.rows[layout]| {
      return Ineligible;
    }
    return if clear then Clear else Keep;
  }

  // ---- the object's life -----------------------------------------------------------------------

  /** An object whose properties took their slots in order: slot `i` has the name `props[i]` and the value `vals[i]`. */
  datatype Object = Object(props: seq<Key>, vals: seq<Value>, nfixed: nat, word: Word)

  ghost predicate DistinctProps(o: Object) {
    |o.vals| == |o.props| && forall i, j :: 0 <= i < j < |o.props| ==> o.props[i] != o.props[j]
  }

  /** The TYPES and RANGES claims at property `j`: if the word's layout predicts its name and claims a number, or an
      interval, a value stored there is one, or an int32 inside. */
  ghost predicate ValueHolds(t: Layouts, l: nat, o: Object, i: nat, j: nat)
    requires ValidLayouts(t) && l < |t.rows| && |o.vals| == |o.props|
  {
    i < |t.rows[l]| && j < |o.props| && o.props[j] == Predicted(t, l, i) ==>
      && (o.word.types && t.claims[l][i] != NoClaim ==> o.vals[j] == Unset || IsNumber(o.vals[j]))
      && (o.word.ranges && t.claims[l][i].Interval? ==>
            o.vals[j] == Unset || (o.vals[j].Int32? && t.claims[l][i].lo <= o.vals[j].n <= t.claims[l][i].hi))
  }

  ghost predicate ValuesHold(t: Layouts, o: Object)
    requires ValidLayouts(t) && |o.vals| == |o.props|
  {
    var l := LayoutOf(o.word);
    0 <= l < |t.rows| ==> forall i: nat, j: nat :: ValueHolds(t, l, o, i, j)
  }

  /** One slot of the SLOTS claim, and one slot of the certificate. */
  ghost predicate SlotHolds(t: Layouts, l: nat, o: Object, i: nat)
    requires ValidLayouts(t) && l < |t.rows|
  {
    i < |o.props| && i < |t.rows[l]| ==> i < o.nfixed && o.props[i] == Predicted(t, l, i)
  }

  ghost predicate SlotCertified(t: Layouts, l: nat, o: Object, j: nat)
    requires ValidLayouts(t) && l < |t.rows|
  {
    |t.rows[l]| <= j < |o.props| && j < t.extLen[l] ==> j < o.nfixed && Delegates(t, l, o.props[j], j)
  }

  /** The SLOTS claim: below the layout's length every slot is fixed and holds the predicted name. */
  ghost predicate SlotsHold(t: Layouts, o: Object)
    requires ValidLayouts(t)
  {
    var l := LayoutOf(o.word);
    o.word.slots && 0 <= l < |t.rows| ==>
      forall i: nat :: SlotHolds(t, l, o, i)
  }

  /** The advance certificate: from the layout's length to the extension bound, every slot is fixed and holds a
      name that some extending layout predicts right there. */
  ghost predicate Certified(t: Layouts, o: Object)
    requires ValidLayouts(t)
  {
    var l := LayoutOf(o.word);
    o.word.slots && 0 <= l < |t.rows| && (o.word.constructing || !AdvIneligible(o.word)) ==>
      forall j: nat :: SlotCertified(t, l, o, j)
  }

  ghost predicate ObjectOk(t: Layouts, o: Object)
    requires ValidLayouts(t)
  {
    DistinctProps(o) && SlotsHold(t, o) && Certified(t, o) && ValuesHold(t, o)
  }

  /** Every predicted name the object has sits where it is predicted. Past the layout's end there is no room
      for one: the slots below are full of predicted names already. */
  lemma PredictedNamesInPlace(t: Layouts, o: Object, j: nat, i: nat)
    requires ValidLayouts(t) && ObjectOk(t, o) && o.word.slots
    requires 0 <= LayoutOf(o.word) < |t.rows| && j < |o.props| && i < |t.rows[LayoutOf(o.word)]|
    requires o.props[j] == Predicted(t, LayoutOf(o.word), i)
    ensures j < |t.rows[LayoutOf(o.word)]| && j < o.nfixed && Predicted(t, LayoutOf(o.word), j) == o.props[j]
  {
    assert SlotHolds(t, LayoutOf(o.word), o, i) && SlotHolds(t, LayoutOf(o.word), o, j);
  }

  /** The object after an add. */
  function Added(o: Object, id: Key, v: Verdict): Object {
    Object(o.props + [id], o.vals + [Unset], o.nfixed, Apply(o.word, v))
  }

  lemma AddKeepsSlot(t: Layouts, o: Object, id: Key, v: Verdict, l: nat, i: nat)
    requires ValidLayouts(t) && ObjectOk(t, o) && id !in o.props
    requires Judges(t, o.word, id, |o.props|, o.nfixed, v)
    requires o.word.slots && v != Clear && l == LayoutOf(o.word) && l < |t.rows|
    ensures SlotHolds(t, l, Added(o, id, v), i)
  {
    if i < |o.props| {
      assert SlotHolds(t, l, o, i);
    } else if i == |o.props| < |t.rows[l]| {
      // Only a predicted name at its own position is kept below the layout's length.
      assert !Delegates(t, l, id, i);
      assert FirstIn(t, l, 0, id, i);
    }
  }

  lemma AddKeepsCertificate(t: Layouts, o: Object, id: Key, v: Verdict, l: nat, j: nat)
    requires ValidLayouts(t) && ObjectOk(t, o) && id !in o.props
    requires Judges(t, o.word, id, |o.props|, o.nfixed, v)
    requires o.word.slots && v == Keep && l == LayoutOf(o.word) && l < |t.rows|
    requires o.word.constructing || !AdvIneligible(o.word)
    ensures SlotCertified(t, l, Added(o, id, v), j)
  {
    if j < |o.props| {
      assert SlotCertified(t, l, o, j);
    } else if |t.rows[l]| <= j == |o.props| {
      // A predicted name arriving here would be cleared, so this one is a delegate's.
      assert !FirstIn(t, l, 0, id, j);
    }
  }

  lemma AddKeepsValues(t: Layouts, o: Object, id: Key, v: Verdict)
    requires ValidLayouts(t) && ObjectOk(t, o) && Judges(t, o.word, id, |o.props|, o.nfixed, v)
    ensures ValuesHold(t, Added(o, id, v))
  {
    var l, o' := LayoutOf(o.word), Added(o, id, v);
    assert LayoutOf(o'.word) == l;
    if 0 <= l < |t.rows| {
      forall i: nat, j: nat ensures ValueHolds(t, l, o', i, j) {
        assert ValueHolds(t, l, o, i, j);
      }
    }
  }

  /** The verdict is exact: SLOTS goes exactly when the claim would not survive the add, or, under construction, the
      certificate would not; a stamped object is marked exactly when the certificate alone would not. */
  lemma VerdictIsExact(t: Layouts, o: Object, id: Key, v: Verdict)
    requires ValidLayouts(t) && ObjectOk(t, o) && id !in o.props && o.word.slots
    requires Judges(t, o.word, id, |o.props|, o.nfixed, v)
    ensures var l, n := LayoutOf(o.word), |o.props|;
      if !(0 <= l < |t.rows|) then v == Clear else
        var o' := Added(o, id, Keep);
        && (v == Clear <==>
              !SlotHolds(t, l, o', n) || (o.word.constructing && !SlotCertified(t, l, o', n)))
        && (v == Ineligible <==>
              SlotHolds(t, l, o', n) && !o.word.constructing && !SlotCertified(t, l, o', n))
  {
    var l, n := LayoutOf(o.word), |o.props|;
    if 0 <= l < |t.rows| {
      forall i: nat | i < n && i < |t.rows[l]| ensures Predicted(t, l, i) != id {
        assert SlotHolds(t, l, o, i);
      }
      assert n < |t.rows[l]| && Predicted(t, l, n) == id ==> FirstIn(t, l, 0, id, n);
      assert forall i: nat :: FirstIn(t, l, 0, id, i) ==> i >= n;
    }
  }

  /** The add check keeps every claim, in every branch: the fast return past the longest extension, a predicted
      name in place, a delegate's name, and the split between clearing and marking ineligible. */
  lemma AddKeepsClaims(t: Layouts, o: Object, id: Key, v: Verdict)
    requires ValidLayouts(t) && ObjectOk(t, o) && id !in o.props
    requires Judges(t, o.word, id, |o.props|, o.nfixed, v)
    ensures ObjectOk(t, Added(o, id, v))
  {
    var l, o' := LayoutOf(o.word), Added(o, id, v);
    assert LayoutOf(o'.word) == l;
    AddKeepsValues(t, o, id, v);
    if o'.word.slots && 0 <= l < |t.rows| {
      forall i: nat ensures SlotHolds(t, l, o', i) {
        AddKeepsSlot(t, o, id, v, l, i);
      }
      if o'.word.constructing || !AdvIneligible(o'.word) {
        forall j: nat ensures SlotCertified(t, l, o', j) {
          AddKeepsCertificate(t, o, id, v, l, j);
        }
      }
    }
  }

  // ---- words and epoch over whole runs ---------------------------------------------------------

  type ObjId = nat

  datatype State = State(objs: map<ObjId, Object>, epoch: nat)

  /** Every way a word or a value changes. `SiteWord` is a construct site's word, `Stamp` the one a constructor's exit
      publishes, `Store` the engine's slot store, `CheckedStore` a compiled one, `Restructure` any structural change,
      after which the engine has reset the word. */
  datatype Op =
    | Alloc(o: ObjId, nfixed: nat)
    | SiteWord(o: ObjId, w: Word)
    | Sentinel(o: ObjId)
    | Stamp(o: ObjId, w: Word)
    | Add(o: ObjId, id: Key, v: Verdict)
    | Store(o: ObjId, slot: nat, val: Value)
    | CheckedStore(o: ObjId, slot: nat, val: Value, w: Word)
    | Restructure(o: ObjId, props: seq<Key>, vals: seq<Value>)

  const SENTINEL_WORD := Word(0, true, false, 0, true, true)

  /** What the construct sites, the compiled code and the engine promise. A site's word has no layout index yet, and
      makes claims of an empty object only; an exit stamp names the layout of the early key if it claims SLOTS at all,
      and of another layout claims values only if its constructor checked them. A compiled store checks its value
      against what the layout claims, or drops the claim. */
  ghost predicate Enabled(t: Layouts, s: State, op: Op)
    requires ValidLayouts(t)
  {
    match op
    case Alloc(o, _) => o !in s.objs
    case SiteWord(o, w) => o in s.objs && w.constructing && w.idx == 0 &&
      (w.slots || w.types || w.ranges ==> s.objs[o].props == [] && s.objs[o].vals == [])
    case Sentinel(o) => o in s.objs && s.objs[o].word == NO_WORD
    case Stamp(o, w) =>
      && o in s.objs && s.objs[o].word.constructing && !w.constructing && !AdvIneligible(w)
      && (w.slots ==> s.objs[o].word.slots && s.objs[o].word.mid > 0 && w.idx == s.objs[o].word.mid)
      && (w.types ==> s.objs[o].word.types) && (w.ranges ==> s.objs[o].word.ranges)
      && |s.objs[o].vals| == |s.objs[o].props|
      && (w.idx != s.objs[o].word.mid ==> ValuesHold(t, s.objs[o].(word := w)))
    case Add(o, id, v) =>
      && o in s.objs && id !in s.objs[o].props
      && Judges(t, s.objs[o].word, id, |s.objs[o].props|, s.objs[o].nfixed, v)
    case Store(o, _, val) => o in s.objs && val != Unset
    case CheckedStore(o, slot, val, w) => o in s.objs && val != Unset && Checked(t, s.objs[o], slot, val, w)
    case Restructure(o, props, vals) =>
      o in s.objs && |vals| == |props| && forall i, j :: 0 <= i < j < |props| ==> props[i] != props[j]
  }

  /** An object after a store, in a slot that is a property's or not. */
  function WithValue(o: Object, slot: nat, val: Value, w: Word): (o': Object)
    ensures |o'.vals| == |o.vals|
  {
    o.(word := w, vals := if slot < |o.vals| then o.vals[slot := val] else o.vals)
  }

  /** What a compiled store to a property's slot may leave of the word: TYPES and RANGES unless the layout claims of
      that property what the value is not. */
  ghost predicate Checked(t: Layouts, o: Object, slot: nat, val: Value, w: Word)
    requires ValidLayouts(t)
  {
    && w == o.word.(types := w.types, ranges := w.ranges)
    && (w.types ==> o.word.types) && (w.ranges ==> o.word.ranges)
    && |o.vals| == |o.props| && slot < |o.props|
    && (var l := LayoutOf(w);
        0 <= l < |t.rows| ==>
          forall i: nat :: ValueHolds(t, l, WithValue(o, slot, val, w), i, slot))
  }

  /** A demotion moves the epoch unless the object is still under construction. */
  function Demoted(s: State, was: Word): State {
    if was.constructing then s else s.(epoch := s.epoch + 1)
  }

  function WithWord(s: State, o: ObjId, w: Word): State
    requires o in s.objs
  {
    s.(objs := s.objs[o := s.objs[o].(word := w)])
  }

  function SetClassWord(s: State, o: ObjId, w: Word): State
    requires o in s.objs
  {
    var was := s.objs[o].word;
    WithWord(if was != NO_WORD && !was.constructing && was != w then s.(epoch := s.epoch + 1) else s, o, w)
  }

  function ClearSlots(s: State, o: ObjId): State
    requires o in s.objs
  {
    var w := s.objs[o].word;
    if w.slots then WithWord(Demoted(s, w), o, w.(slots := false)) else s
  }

  function Judged(s: State, o: ObjId, v: Verdict): State
    requires o in s.objs
  {
    match v
    case Keep => s
    case Ineligible => WithWord(s, o, WithAdvIneligible(s.objs[o].word))
    case Clear => ClearSlots(s, o)
  }

  function Appended(s: State, o: ObjId, id: Key): State
    requires o in s.objs
  {
    s.(objs := s.objs[o := s.objs[o].(props := s.objs[o].props + [id], vals := s.objs[o].vals + [Unset])])
  }

  /** A store that leaves this word. */
  function StoredWith(s: State, o: ObjId, slot: nat, val: Value, w: Word): State
    requires o in s.objs
  {
    var u := if w == s.objs[o].word then s else Demoted(s, s.objs[o].word);
    u.(objs := u.objs[o := WithValue(s.objs[o], slot, val, w)])
  }

  function Restructured(s: State, o: ObjId, props: seq<Key>, vals: seq<Value>): State
    requires o in s.objs
  {
    var w := s.objs[o].word;
    var u := if w == NO_WORD then s else Demoted(s, w);
    u.(objs := u.objs[o := Object(props, vals, s.objs[o].nfixed, NO_WORD)])
  }

  ghost function Step(t: Layouts, s: State, op: Op): State
    requires ValidLayouts(t) && Enabled(t, s, op)
  {
    match op
    case Alloc(o, nfixed) => s.(objs := s.objs[o := Object([], [], nfixed, NO_WORD)])
    case SiteWord(o, w) => SetClassWord(s, o, w)
    case Sentinel(o) => WithWord(s, o, SENTINEL_WORD)
    case Stamp(o, w) => WithWord(s, o, w)
    case Add(o, id, v) => Judged(Appended(s, o, id), o, v)
    case Store(o, slot, val) => StoredWith(s, o, slot, val, StoreWord(s.objs[o].word, IsNumber(val)))
    case CheckedStore(o, slot, val, w) => StoredWith(s, o, slot, val, w)
    case Restructure(o, props, vals) => Restructured(s, o, props, vals)
  }

  /** Every object keeps both claims, and no word under construction has a layout index to guard on. */
  ghost predicate Inv(t: Layouts, s: State) {
    && ValidLayouts(t)
    && (forall o :: o in s.objs ==> ObjectOk(t, s.objs[o]))
    && (forall o :: o in s.objs && s.objs[o].word.constructing ==> s.objs[o].word.idx == 0)
  }

  /** Weakening the claims of a word keeps the object in order; the values' claims may be on record already. */
  lemma WeakerWordOk(t: Layouts, o: Object, w: Word)
    requires ValidLayouts(t) && ObjectOk(t, o)
    requires w.slots ==>
      && o.word.slots && LayoutOf(w) == LayoutOf(o.word)
      && (w.constructing || !AdvIneligible(w) ==> o.word.constructing || !AdvIneligible(o.word))
    requires
      || ValuesHold(t, o.(word := w))
      || ((LayoutOf(w) == LayoutOf(o.word) || LayoutOf(w) == -1)
          && (w.types ==> o.word.types) && (w.ranges ==> o.word.ranges))
    ensures ObjectOk(t, o.(word := w))
  {
    var l := LayoutOf(w);
    if !ValuesHold(t, o.(word := w)) {
      forall i: nat, j: nat | 0 <= l < |t.rows| ensures ValueHolds(t, l, o.(word := w), i, j) {
        assert ValueHolds(t, l, o, i, j);
      }
    }
    if w.slots && 0 <= l < |t.rows| {
      assert forall i: nat :: SlotHolds(t, l, o, i) ==> SlotHolds(t, l, o.(word := w), i);
      assert forall j: nat :: SlotCertified(t, l, o, j) ==> SlotCertified(t, l, o.(word := w), j);
    }
  }

  lemma EmptyObjectOk(t: Layouts, o: Object)
    requires ValidLayouts(t) && o.props == [] && o.vals == []
    ensures ObjectOk(t, o)
  {
  }

  lemma AddKeepsInv(t: Layouts, s: State, o: ObjId, id: Key, v: Verdict)
    requires Inv(t, s) && Enabled(t, s, Op.Add(o, id, v))
    ensures Inv(t, Step(t, s, Op.Add(o, id, v)))
  {
    AddKeepsClaims(t, s.objs[o], id, v);
    assert Step(t, s, Op.Add(o, id, v)).objs[o] == Added(s.objs[o], id, v);
  }

  /** What a store leaves of a property it does not touch, or of one it does with a value that fits. */
  lemma LandedKeeps(t: Layouts, o: Object, slot: nat, val: Value, w: Word)
    requires ValidLayouts(t) && ObjectOk(t, o) && w == o.word.(types := w.types, ranges := w.ranges)
    requires (w.types ==> o.word.types) && (w.ranges ==> o.word.ranges)
    requires 0 <= LayoutOf(w) < |t.rows| && slot < |o.vals| ==>
      forall i: nat :: ValueHolds(t, LayoutOf(w), WithValue(o, slot, val, w), i, slot)
    ensures ObjectOk(t, WithValue(o, slot, val, w))
  {
    var l := LayoutOf(w);
    var o' := WithValue(o, slot, val, w);
    WeakerWordOk(t, o, w);
    if 0 <= l < |t.rows| {
      forall i: nat, j: nat ensures ValueHolds(t, l, o', i, j) {
        assert ValueHolds(t, l, o.(word := w), i, j);
      }
      assert forall i: nat :: SlotHolds(t, l, o.(word := w), i) ==> SlotHolds(t, l, o', i);
      assert forall j: nat :: SlotCertified(t, l, o.(word := w), j) ==> SlotCertified(t, l, o', j);
    }
  }

  lemma StoreKeepsInv(t: Layouts, s: State, o: ObjId, slot: nat, val: Value)
    requires Inv(t, s) && Enabled(t, s, Op.Store(o, slot, val))
    ensures Inv(t, Step(t, s, Op.Store(o, slot, val)))
  {
    LandedKeeps(t, s.objs[o], slot, val, StoreWord(s.objs[o].word, IsNumber(val)));
  }

  lemma CheckedStoreKeepsInv(t: Layouts, s: State, o: ObjId, slot: nat, val: Value, w: Word)
    requires Inv(t, s) && Enabled(t, s, Op.CheckedStore(o, slot, val, w))
    ensures Inv(t, Step(t, s, Op.CheckedStore(o, slot, val, w)))
  {
    LandedKeeps(t, s.objs[o], slot, val, w);
  }

  lemma StepKeepsInv(t: Layouts, s: State, op: Op)
    requires Inv(t, s) && Enabled(t, s, op)
    ensures Inv(t, Step(t, s, op))
  {
    match op
    case Alloc(o, nfixed) => EmptyObjectOk(t, Object([], [], nfixed, NO_WORD));
    case SiteWord(o, w) =>
      if w.slots || w.types || w.ranges {
        EmptyObjectOk(t, s.objs[o].(word := w));
      } else {
        WeakerWordOk(t, s.objs[o], w);
      }
    case Sentinel(o) => WeakerWordOk(t, s.objs[o], SENTINEL_WORD);
    case Stamp(o, w) => WeakerWordOk(t, s.objs[o], w);
    case Add(o, id, v) => AddKeepsInv(t, s, o, id, v);
    case Store(o, slot, val) => StoreKeepsInv(t, s, o, slot, val);
    case CheckedStore(o, slot, val, w) => CheckedStoreKeepsInv(t, s, o, slot, val, w);
    case Restructure(o, props, vals) =>
  }

  /** A stamped word's layout index and every claim it makes are still there. */
  predicate Keeps(w: Word, w': Word) {
    && !w'.constructing && w'.idx == w.idx
    && (w.types ==> w'.types) && (w.slots ==> w'.slots) && (w.ranges ==> w'.ranges)
  }

  ghost predicate Runs(t: Layouts, s: State, ops: seq<Op>)
    requires ValidLayouts(t)
    decreases |ops|
  {
    ops == [] || (Enabled(t, s, ops[0]) && Runs(t, Step(t, s, ops[0]), ops[1..]))
  }

  ghost function After(t: Layouts, s: State, ops: seq<Op>): State
    requires ValidLayouts(t) && Runs(t, s, ops)
    decreases |ops|
  {
    if ops == [] then s else After(t, Step(t, s, ops[0]), ops[1..])
  }

  /** The claims hold of every object in every reachable state. */
  lemma {:induction false} ClaimsHoldOverRuns(t: Layouts, s: State, ops: seq<Op>)
    requires Inv(t, s) && Runs(t, s, ops)
    ensures Inv(t, After(t, s, ops))
    decreases |ops|
  {
    if ops != [] {
      StepKeepsInv(t, s, ops[0]);
      ClaimsHoldOverRuns(t, Step(t, s, ops[0]), ops[1..]);
    }
  }

  lemma EpochStep(t: Layouts, s: State, op: Op, x: ObjId)
    requires ValidLayouts(t) && Enabled(t, s, op) && x in s.objs
    ensures x in Step(t, s, op).objs && s.epoch <= Step(t, s, op).epoch
    ensures Stamped(s.objs[x].word) && Step(t, s, op).epoch == s.epoch ==>
      Stamped(Step(t, s, op).objs[x].word) && Keeps(s.objs[x].word, Step(t, s, op).objs[x].word)
  {
  }

  /** Stamp-epoch soundness: if the epoch is the same at two points of a run, every object stamped at the first
      still has its layout index and all its claims at the second. Adds, stores and exits on objects under
      construction, and marking an object ineligible, never need to move it. */
  lemma {:induction false} EqualEpochKeepsStamps(t: Layouts, s: State, ops: seq<Op>, x: ObjId)
    requires ValidLayouts(t) && Runs(t, s, ops) && x in s.objs
    ensures x in After(t, s, ops).objs && s.epoch <= After(t, s, ops).epoch
    ensures Stamped(s.objs[x].word) && After(t, s, ops).epoch == s.epoch ==>
      Stamped(After(t, s, ops).objs[x].word) && Keeps(s.objs[x].word, After(t, s, ops).objs[x].word)
    decreases |ops|
  {
    if ops != [] {
      EpochStep(t, s, ops[0], x);
      EqualEpochKeepsStamps(t, Step(t, s, ops[0]), ops[1..], x);
    }
  }

  /** The converse for demotions: a claim lost to a store or an add moves the epoch exactly when the object was
      not under construction. */
  lemma LostClaimMovesEpoch(t: Layouts, s: State, op: Op)
    requires ValidLayouts(t) && Enabled(t, s, op) && (op.Add? || op.Store? || op.CheckedStore?)
    requires !Keeps(s.objs[op.o].word, Step(t, s, op).objs[op.o].word) || s.objs[op.o].word.constructing
    ensures Step(t, s, op).epoch == s.epoch + 1 <==> !s.objs[op.o].word.constructing
  {
  }

  /** What the guards are for: a stamp tested once, and any code run since that left the epoch alone. An unchecked load
      at a predicted slot then reads a fixed slot that holds the predicted name, and if the stamp had RANGES, a value
      that is stored there is inside the claimed interval; if it had TYPES, a number where one is claimed. */
  lemma GuardOnceLoadLater(t: Layouts, s: State, ops: seq<Op>, x: ObjId, i: nat)
    requires Inv(t, s) && Runs(t, s, ops) && x in s.objs && Stamped(s.objs[x].word) && s.objs[x].word.slots
    requires After(t, s, ops).epoch == s.epoch && 0 < s.objs[x].word.idx <= |t.rows|
    ensures x in After(t, s, ops).objs
    ensures var l, o := s.objs[x].word.idx - 1, After(t, s, ops).objs[x];
      i < |t.rows[l]| && i < |o.props| ==>
        && i < o.nfixed && o.props[i] == t.ids[t.rows[l][i]] && i < |o.vals|
        && (o.vals[i] != Unset && s.objs[x].word.types && t.claims[l][i] != NoClaim ==>
              o.vals[i].Int32? || o.vals[i].Double?)
        && (o.vals[i] != Unset && s.objs[x].word.ranges && t.claims[l][i].Interval? ==>
              o.vals[i].Int32? && t.claims[l][i].lo <= o.vals[i].n <= t.claims[l][i].hi)
  {
    EqualEpochKeepsStamps(t, s, ops, x);
    ClaimsHoldOverRuns(t, s, ops);
    var l, o := s.objs[x].word.idx - 1, After(t, s, ops).objs[x];
    assert ObjectOk(t, o) && LayoutOf(o.word) == l && o.word.slots;
    assert SlotHolds(t, l, o, i) && ValueHolds(t, l, o, i, i);
  }

  // ---- the word helpers as they run ------------------------------------------------------------

  class ObjectWords {
    const layouts: Layouts
    var objs: map<ObjId, Object>
    var epoch: nat

    ghost function Now(): State
      reads this
    {
      State(objs, epoch)
    }

    constructor (t: Layouts)
      requires ValidLayouts(t)
      ensures layouts == t && Inv(layouts, Now())
    {
      layouts, objs, epoch := t, map[], 0;
    }

    method NoteDemotion(was: Word)
      modifies this`epoch
      ensures Now() == Demoted(old(Now()), was)
      ensures epoch == old(epoch) + if was.constructing then 0 else 1
    {
      if !was.constructing {
        epoch := epoch + 1;
      }
    }

    method ClearSlotsBit(o: ObjId)
      requires o in objs
      modifies this
      ensures Now() == ClearSlots(old(Now()), o)
    {
      var w := objs[o].word;
      if w.slots {
        NoteDemotion(w);
        objs := objs[o := objs[o].(word := w.(slots := false))];
      }
    }

    /** The marker of an object under construction at a site that has no key for it: TYPES and RANGES, which need none,
        and not SLOTS. It is written over any word, and the epoch stays; over no word it keeps the claims. */
    method SetConstructingSentinel(o: ObjId)
      requires o in objs
      modifies this`objs
      ensures objs == old(objs)[o := old(objs)[o].(word := Word(0, true, false, 0, true, true))]
      ensures Inv(layouts, old(Now())) && old(objs)[o].word == NO_WORD ==>
        Now() == Step(layouts, old(Now()), Sentinel(o)) && Inv(layouts, Now())
    {
      if Inv(layouts, Now()) && objs[o].word == NO_WORD {
        StepKeepsInv(layouts, Now(), Sentinel(o));
      }
      objs := objs[o := objs[o].(word := SENTINEL_WORD)];
    }

    /** Any word may be written; a construct site's keeps the claims. Overwriting a stamp with another word moves the
        epoch, a first word or one over a construction word does not. */
    method SetClassWord(o: ObjId, w: Word)
      requires o in objs
      modifies this
      ensures o in objs && objs[o] == old(objs)[o].(word := w) && objs.Keys == old(objs).Keys
      ensures forall x :: x in old(objs) && x != o ==> objs[x] == old(objs)[x]
      ensures epoch == old(epoch) + if Stamped(old(objs)[o].word) && old(objs)[o].word != w then 1 else 0
      ensures Inv(layouts, old(Now())) && Enabled(layouts, old(Now()), SiteWord(o, w)) ==>
        Now() == Step(layouts, old(Now()), SiteWord(o, w)) && Inv(layouts, Now())
    {
      if Inv(layouts, Now()) && Enabled(layouts, Now(), SiteWord(o, w)) {
        StepKeepsInv(layouts, Now(), SiteWord(o, w));
      }
      var was := objs[o].word;
      if was != NO_WORD && !was.constructing && was != w {
        epoch := epoch + 1;
      }
      objs := objs[o := objs[o].(word := w)];
    }

    /** What a verdict does to the word. */
    method Mark(o: ObjId, v: Verdict)
      requires o in objs
      modifies this
      ensures Now() == Judged(old(Now()), o, v)
      ensures var was, w := old(objs)[o].word, objs[o].word;
        && w.idx == was.idx && w.types == was.types && w.ranges == was.ranges && w.constructing == was.constructing
        && w.slots == (was.slots && v != Clear)
        && w.mid == was.mid + (if v == Ineligible && was.mid % 2 == 0 then 1 else 0)
        && epoch == old(epoch) + if was.slots && !w.slots && !was.constructing then 1 else 0
    {
      match v
      case Keep =>
      case Ineligible => objs := objs[o := objs[o].(word := WithAdvIneligible(objs[o].word))];
      case Clear => ClearSlotsBit(o);
    }

    /** The engine appended a property: check it against the layout, and clear or mark. */
    method PropertyAdded(o: ObjId, id: Key) returns (v: Verdict)
      requires Inv(layouts, Now()) && o in objs && id !in objs[o].props
      modifies this
      ensures Enabled(layouts, old(Now()), Add(o, id, v))
      ensures Now() == Step(layouts, old(Now()), Add(o, id, v)) && Inv(layouts, Now())
    {
      v := AddPropCheck(layouts, objs[o].word, id, |objs[o].props|, objs[o].nfixed);
      StepKeepsInv(layouts, Now(), Add(o, id, v));
      objs := objs[o := objs[o].(props := objs[o].props + [id], vals := objs[o].vals + [Unset])];
      Mark(o, v);
    }

    /** The masks, and the report of a word that changed. */
    method ApplyMasks(o: ObjId, isNumber: bool)
      requires o in objs
      modifies this
      ensures objs == old(objs)[o := old(objs)[o].(word := StoreWord(old(objs)[o].word, isNumber))]
      ensures var was, w := old(objs)[o].word, objs[o].word;
        && !w.ranges && (w.types <==> was.types && isNumber)
        && w.idx == was.idx && w.slots == was.slots && w.mid == was.mid && w.constructing == was.constructing
        && epoch == old(epoch) + if w != was && !was.constructing then 1 else 0
    {
      var w := objs[o].word;
      var after := StoreWord(w, isNumber);
      if after != w {
        NoteDemotion(w);
        objs := objs[o := objs[o].(word := after)];
      }
      assert objs[o].word == after;
    }

    /** The engine's slot store. Whatever the slot, RANGES is gone afterwards, and TYPES unless the value is a number;
        nothing else of the word changes. */
    method SlotStored(o: ObjId, slot: nat, val: Value)
      requires Inv(layouts, Now()) && o in objs && val != Unset
      modifies this
      ensures Now() == Step(layouts, old(Now()), Store(o, slot, val)) && Inv(layouts, Now())
      ensures o in objs
      ensures objs[o].vals == if slot < |old(objs)[o].vals| then old(objs)[o].vals[slot := val] else old(objs)[o].vals
      ensures var was, w := old(objs)[o].word, objs[o].word;
        && !w.ranges && (w.types <==> was.types && (val.Int32? || val.Double?))
        && w.idx == was.idx && w.slots == was.slots && w.mid == was.mid && w.constructing == was.constructing
        && epoch == old(epoch) + if w != was && !was.constructing then 1 else 0
    {
      StepKeepsInv(layouts, Now(), Store(o, slot, val));
      objs := objs[o := WithValue(objs[o], slot, val, objs[o].word)];
      ApplyMasks(o, IsNumber(val));
    }
  }
}
