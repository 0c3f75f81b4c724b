// The linear-memory words the inline property caches live in: per site four get ways and one add-transition
// row, plus the set-add table, the generation word and the minor-collection flag.
module CacheRegion {
  import opened Coordinates
  import Heap
  import GetCaches
  import SetCaches
  import opened Wrappers

  const WAYS: nat := 4

  /** Word index of a site's block, of a way in it, and of its add-transition row. */
  function SiteBase(site: nat): nat { site * 32 }
  function WayBase(site: nat, way: nat): nat { site * 32 + way * 5 }
  function TransBase(site: nat): nat { site * 32 + 20 }

  datatype Way = Way(recvShape: nat, ownFixedOff: nat, holderPtr: nat, holderShape: nat, slotEnc: nat)

  function WayAt(words: seq<nat>, site: nat, way: nat): Way
    requires way < WAYS && SiteBase(site) + 32 <= |words|
  {
    var b := WayBase(site, way);
    Way(words[b], words[b + 1], words[b + 2], words[b + 3], words[b + 4])
  }

  function TransAt(words: seq<nat>, site: nat): seq<nat>
    requires SiteBase(site) + 32 <= |words|
  {
    words[TransBase(site)..TransBase(site) + 12]
  }

  function WayShapes(words: seq<nat>, site: nat): (shapes: seq<nat>)
    requires SiteBase(site) + 32 <= |words|
    ensures |shapes| == WAYS
  {
    [words[WayBase(site, 0)], words[WayBase(site, 1)], words[WayBase(site, 2)], words[WayBase(site, 3)]]
  }

  // ---- get ways --------------------------------------------------------------------------------

  /** The way a coordinate is recorded in: the one already holding the shape, else the first empty one. */
  ghost predicate Picks(shapes: seq<nat>, shape: nat, way: nat) {
    && way < |shapes|
    && if shape in shapes
       then shapes[way] == shape && forall w :: 0 <= w < way ==> shapes[w] != shape
       else shapes[way] == 0 && forall w :: 0 <= w < way ==> shapes[w] != 0
  }

  /** No two ways of a site hold the same shape, so a probe has at most one way to hit. */
  ghost predicate OneWayPerShape(shapes: seq<nat>) {
    forall v, w :: 0 <= v < w < |shapes| && shapes[v] == shapes[w] ==> shapes[v] == 0
  }

  /** Recording a coordinate keeps that, and afterwards the shape is in the ways unless they were all taken. */
  lemma NotedOnce(shapes: seq<nat>, shape: nat, way: nat)
    requires OneWayPerShape(shapes) && shape != 0 && Picks(shapes, shape, way)
    ensures OneWayPerShape(shapes[way := shape])
    ensures forall s :: s in shapes && s != 0 ==> s in shapes[way := shape]
  {
    var after := shapes[way := shape];
    forall s | s in shapes && s != 0 ensures s in after {
      var i :| 0 <= i < |shapes| && shapes[i] == s;
      if i == way {
        assert after[way] == s;
      } else {
        assert after[i] == s;
      }
    }
  }

  function NewWay(recvShape: nat, holderPtr: nat, holderShape: nat, slotEnc: nat): Way {
    Way(recvShape, if holderPtr == 0 && !SlotEncIsDynamic(slotEnc) then slotEnc else 0,
        holderPtr, holderShape, slotEnc)
  }

  /** An object's header is 16 bytes; its fixed slots follow, eight bytes each. */
  predicate AtFixedSlot(ob: Heap.Object, byteOff: nat) {
    byteOff >= 16 && (byteOff - 16) % 8 == 0 && (byteOff - 16) / 8 < |ob.fixed|
  }

  /** What compiled code loads at a byte offset of an object, and what a store there leaves. */
  function FixedLoad(ob: Heap.Object, byteOff: nat): Option<Heap.Value> {
    if AtFixedSlot(ob, byteOff) then Some(ob.fixed[(byteOff - 16) / 8]) else None
  }

  function FixedStore(ob: Heap.Object, byteOff: nat, v: Heap.Value): Option<Heap.Object> {
    if AtFixedSlot(ob, byteOff) then Some(ob.(fixed := ob.fixed[(byteOff - 16) / 8 := v])) else None
  }

  /** The fast way, which checks no holder and decodes nothing, loads exactly the slot its row names on the
      live receiver; every way it is not offered for goes through the shared tail. */
  lemma FastWayReadsRow(recv: Heap.Object, recvShape: nat, holderPtr: nat, holderShape: nat, isDynamic: bool, idx: nat)
    requires 16 + idx * 8 < U32
    ensures var way := NewWay(recvShape, holderPtr, holderShape, SlotEnc(isDynamic, idx));
      && (way.ownFixedOff != 0 <==> holderPtr == 0 && !isDynamic)
      && (way.ownFixedOff != 0 ==>
            FixedLoad(recv, way.ownFixedOff) == GetCaches.SlotEncRead(recv, way.slotEnc))
  {
    SlotEncRoundTrip(isDynamic, idx);
  }

  // ---- add-transition rows ---------------------------------------------------------------------

  /** A recorded transition, as the set-add table keeps it. */
  datatype SetAddRow = SetAddRow(
    gen: nat, oldShape: nat, atomId: nat, newShape: nat, slot: nat, ptrs: seq<nat>, shapes: seq<nat>)

  const ZERO_ROW: seq<nat> := [0, 0, 0, 0, 0, 0, 0, 0, 0, 0, 0, 0]
  const EMPTY_ROW := SetAddRow(0, 0, 0, 0, 0, [], [])

  function GuardWord(s: seq<nat>, i: nat): nat {
    if i < |s| then s[i] else 0
  }

  /** The twelve words of a site row. Word 2 is the byte offset of a fixed slot, 0 for a dynamic one. */
  function TransWords(
    oldShape: nat, newShape: nat, slot: nat, nfixed: nat, ptrs: seq<nat>, shapes: seq<nat>): (words: seq<nat>)
    ensures |words| == 12
  {
    [oldShape, newShape, if slot < nfixed then 16 + slot * 8 else 0, slot,
     GuardWord(ptrs, 0), GuardWord(shapes, 0), GuardWord(ptrs, 1), GuardWord(shapes, 1),
     GuardWord(ptrs, 2), GuardWord(shapes, 2), GuardWord(ptrs, 3), GuardWord(shapes, 3)]
  }

  /** How many guard pairs a row holds: the miss helper counts pointers up to the first zero. */
  method CountProtos(row: seq<nat>) returns (n: nat)
    requires |row| == 12
    ensures n <= 4 && (forall i :: 0 <= i < n ==> row[4 + 2 * i] != 0) && (n < 4 ==> row[4 + 2 * n] == 0)
  {
    n := 0;
    while n < 4 && row[4 + 2 * n] != 0
      invariant n <= 4 && forall i :: 0 <= i < n ==> row[4 + 2 * i] != 0
    {
      n := n + 1;
    }
  }

  /** Reading a row back gives the chain it was filled with: no count is stored, but no cell is at address 0. */
  lemma TransRowRoundTrip(
    oldShape: nat, newShape: nat, slot: nat, nfixed: nat, ptrs: seq<nat>, shapes: seq<nat>, n: nat)
    requires |ptrs| == |shapes| <= 4 && 0 !in ptrs
    requires var row := TransWords(oldShape, newShape, slot, nfixed, ptrs, shapes);
      n <= 4 && (forall i :: 0 <= i < n ==> row[4 + 2 * i] != 0) && (n < 4 ==> row[4 + 2 * n] == 0)
    ensures n == |ptrs|
    ensures var row := TransWords(oldShape, newShape, slot, nfixed, ptrs, shapes);
      && row[0] == oldShape && row[1] == newShape && row[3] == slot
      && ptrs == seq(n, i requires 0 <= i < n => row[4 + 2 * i])
      && shapes == seq(n, i requires 0 <= i < n => row[5 + 2 * i])
  {
    var row := TransWords(oldShape, newShape, slot, nfixed, ptrs, shapes);
    forall i: nat | i < 4 ensures row[4 + 2 * i] == GuardWord(ptrs, i) && row[5 + 2 * i] == GuardWord(shapes, i) {
      TransWordsPair(oldShape, newShape, slot, nfixed, ptrs, shapes, i);
    }
    assert n == |ptrs|;
  }

  /** A load or store at a byte offset of an object is one of this slot. */
  ghost predicate Reaches(ob: Heap.Object, byteOff: nat, slot: nat, v: Heap.Value)
    requires slot < |ob.fixed|
  {
    && FixedLoad(ob, byteOff) == Some(Heap.SlotAt(ob, slot))
    && FixedStore(ob, byteOff, v) == Some(SetCaches.StoreSlot(ob, slot, v))
  }

  /** On objects with `nfixed` fixed slots: the row has an offset exactly if the slot it names is a fixed one, and
      then it is the offset of that slot. */
  ghost predicate OffsetIsSlot(row: seq<nat>, nfixed: nat) {
    && |row| == 12 && (row[2] != 0 <==> row[3] < nfixed)
    && (row[3] < nfixed ==> forall ob: Heap.Object, v :: |ob.fixed| == nfixed ==> Reaches(ob, row[2], row[3], v))
  }

  lemma TransOffset(oldShape: nat, newShape: nat, slot: nat, nfixed: nat, ptrs: seq<nat>, shapes: seq<nat>)
    ensures OffsetIsSlot(TransWords(oldShape, newShape, slot, nfixed, ptrs, shapes), nfixed)
  {
    var row := TransWords(oldShape, newShape, slot, nfixed, ptrs, shapes);
    if slot < nfixed {
      assert row[2] == 16 + slot * 8 && row[3] == slot;
      assert (row[2] - 16) / 8 == slot && (row[2] - 16) % 8 == 0;
    }
  }

  lemma TransWordsPair(
    oldShape: nat, newShape: nat, slot: nat, nfixed: nat, ptrs: seq<nat>, shapes: seq<nat>, i: nat)
    requires i < 4
    ensures var row := TransWords(oldShape, newShape, slot, nfixed, ptrs, shapes);
      row[4 + 2 * i] == GuardWord(ptrs, i) && row[5 + 2 * i] == GuardWord(shapes, i)
  {
    assert i == 0 || i == 1 || i == 2 || i == 3;
  }

  /** A site row names an address of the range. */
  ghost predicate TransNames(row: seq<nat>, lo: nat, hi: nat) {
    |row| == 12 && exists i :: 0 <= i < 4 && lo <= row[4 + 2 * i] < hi
  }

  ghost predicate PtrsName(ptrs: seq<nat>, lo: nat, hi: nat) {
    exists p :: p in ptrs && lo <= p < hi
  }

  lemma TransWordsName(
    oldShape: nat, newShape: nat, slot: nat, nfixed: nat, ptrs: seq<nat>, shapes: seq<nat>, lo: nat, hi: nat)
    requires 0 < lo && TransNames(TransWords(oldShape, newShape, slot, nfixed, ptrs, shapes), lo, hi)
    ensures PtrsName(ptrs, lo, hi)
  {
    var row := TransWords(oldShape, newShape, slot, nfixed, ptrs, shapes);
    var i :| 0 <= i < 4 && lo <= row[4 + 2 * i] < hi;
    assert row[4 + 2 * i] == GuardWord(ptrs, i);
    assert ptrs[i] in ptrs;
  }

  // ---- the region ------------------------------------------------------------------------------

  class Caches {
    const numSites: nat
    const propic: array<nat>
    const setAdd: array<SetAddRow>
    const nurseryLo: nat
    const nurseryHi: nat
    var transRowsHoldNursery: bool
    var gen: nat

    ghost predicate Valid()
      reads this, propic, setAdd
    {
      && propic.Length == numSites * 32 && setAdd.Length > 0 && gen < U32 && 0 < nurseryLo
      && (forall r :: 0 <= r < setAdd.Length ==> |setAdd[r].ptrs| == |setAdd[r].shapes| <= 4)
      && Flagged()
    }

    /** The minor-collection discipline: with the flag down, no site row and no table row names a nursery
        prototype. */
    ghost predicate Flagged()
      reads this, propic, setAdd
      requires propic.Length == numSites * 32
    {
      !transRowsHoldNursery ==>
        && (forall site :: 0 <= site < numSites ==> !TransNames(TransAt(propic[..], site), nurseryLo, nurseryHi))
        && (forall r :: 0 <= r < setAdd.Length ==> !PtrsName(setAdd[r].ptrs, nurseryLo, nurseryHi))
    }

    constructor (sites: nat, tableSize: nat, lo: nat, hi: nat)
      requires tableSize > 0 && lo > 0
      ensures Valid() && fresh(propic) && fresh(setAdd) && numSites == sites
      ensures nurseryLo == lo && nurseryHi == hi && gen == 0 && !transRowsHoldNursery
    {
      numSites, nurseryLo, nurseryHi := sites, lo, hi;
      propic := new nat[sites * 32](_ => 0);
      setAdd := new SetAddRow[tableSize](_ => EMPTY_ROW);
      transRowsHoldNursery, gen := false, 0;
    }

    /** The scan of a site's ways. It stops at the shape, and remembers the first empty way on the way there;
        WAYS says neither exists. */
    method FindWay(site: nat, recvShape: nat) returns (way: nat)
      requires propic.Length == numSites * 32 && site < numSites
      ensures way < WAYS ==> Picks(WayShapes(propic[..], site), recvShape, way)
      ensures way >= WAYS ==>
        way == WAYS && recvShape !in WayShapes(propic[..], site) && 0 !in WayShapes(propic[..], site)
    {
      ghost var shapes := WayShapes(propic[..], site);
      way := WAYS;
      var w := 0;
      while w < WAYS
        invariant 0 <= w <= WAYS && way <= WAYS
        invariant forall v :: 0 <= v < w ==> shapes[v] != recvShape
        invariant way == WAYS ==> forall v :: 0 <= v < w ==> shapes[v] != 0
        invariant way < WAYS ==> way < w && shapes[way] == 0 && forall v :: 0 <= v < way ==> shapes[v] != 0
      {
        var cand := propic[WayBase(site, w)];
        assert cand == shapes[w];
        if cand == recvShape {
          return w;
        }
        if cand == 0 && way == WAYS {
          way := w;
        }
        w := w + 1;
      }
    }

    /** Record a receiver shape's coordinate in a get site's ways; word 0, the validity marker, goes in last. */
    method NoteGetWay(site: nat, recvShape: nat, holderPtr: nat, holderShape: nat, slotEnc: nat)
      returns (way: nat)
      requires Valid() && site < numSites && recvShape != 0
      modifies propic
      ensures Valid()
      ensures way < WAYS ==> Picks(old(WayShapes(propic[..], site)), recvShape, way)
      ensures way < WAYS ==> WayAt(propic[..], site, way) == NewWay(recvShape, holderPtr, holderShape, slotEnc)
      ensures way < WAYS ==>
        && propic[site * 32 + way * 5] == recvShape && propic[site * 32 + way * 5 + 2] == holderPtr
        && propic[site * 32 + way * 5 + 3] == holderShape && propic[site * 32 + way * 5 + 4] == slotEnc
      ensures way >= WAYS ==> recvShape !in WayShapes(propic[..], site) && 0 !in WayShapes(propic[..], site)
      ensures forall i :: 0 <= i < propic.Length && !(way < WAYS && 0 <= i - WayBase(site, way) < 5) ==>
        propic[i] == old(propic[i])
    {
      way := FindWay(site, recvShape);
      if way == WAYS {
        return;
      }
      ghost var before := propic[..];
      WriteWay(WayBase(site, way), recvShape, holderPtr, holderShape, slotEnc);
      AllTransUntouched(before, site, way);
    }

    method WriteWay(b: nat, recvShape: nat, holderPtr: nat, holderShape: nat, slotEnc: nat)
      requires b + 5 <= propic.Length
      modifies propic
      ensures propic[b] == recvShape && propic[b + 2] == holderPtr && propic[b + 3] == holderShape
      ensures propic[b + 1] == if holderPtr == 0 && !SlotEncIsDynamic(slotEnc) then slotEnc else 0
      ensures propic[b + 4] == slotEnc
      ensures forall i :: 0 <= i < propic.Length && !(b <= i < b + 5) ==> propic[i] == old(propic[i])
    {
      propic[b + 1] := if holderPtr == 0 && !SlotEncIsDynamic(slotEnc) then slotEnc else 0;
      propic[b + 2] := holderPtr;
      propic[b + 3] := holderShape;
      propic[b + 4] := slotEnc;
      propic[b] := recvShape;
    }

    lemma TransUntouched(before: seq<nat>, site: nat, way: nat, s: nat)
      requires propic.Length == numSites * 32 && |before| == propic.Length
      requires site < numSites && way < WAYS && s < numSites
      requires forall i :: 0 <= i < propic.Length && !(0 <= i - WayBase(site, way) < 5) ==> propic[i] == before[i]
      ensures TransAt(propic[..], s) == TransAt(before, s)
    {
    }

    lemma AllTransUntouched(before: seq<nat>, site: nat, way: nat)
      requires propic.Length == numSites * 32 && |before| == propic.Length && site < numSites && way < WAYS
      requires forall i :: 0 <= i < propic.Length && !(0 <= i - WayBase(site, way) < 5) ==> propic[i] == before[i]
      ensures forall s :: 0 <= s < numSites ==> TransAt(propic[..], s) == TransAt(before, s)
    {
      forall s | 0 <= s < numSites ensures TransAt(propic[..], s) == TransAt(before, s) {
        TransUntouched(before, site, way, s);
      }
    }

    /** Fill a site's add-transition row; the old shape, its validity marker, goes in last. */
    method FillTransRow(
      site: nat, oldShape: nat, newShape: nat, slot: nat, nfixed: nat, ptrs: seq<nat>, shapes: seq<nat>)
      requires propic.Length == numSites * 32 && site < numSites
      modifies propic
      ensures TransAt(propic[..], site) == TransWords(oldShape, newShape, slot, nfixed, ptrs, shapes)
      ensures OffsetIsSlot(TransAt(propic[..], site), nfixed)
      ensures propic[site * 32 + 20] == oldShape && propic[site * 32 + 21] == newShape && propic[site * 32 + 23] == slot
      ensures forall i :: 0 <= i < propic.Length && !(TransBase(site) <= i < TransBase(site) + 12) ==>
        propic[i] == old(propic[i])
    {
      TransOffset(oldShape, newShape, slot, nfixed, ptrs, shapes);
      ghost var words := TransWords(oldShape, newShape, slot, nfixed, ptrs, shapes);
      var row := TransBase(site);
      propic[row + 1] := newShape;
      propic[row + 2] := if slot < nfixed then 16 + slot * 8 else 0;
      propic[row + 3] := slot;
      var i := 0;
      while i < 4
        invariant 0 <= i <= 4
        invariant forall j :: 1 <= j < 4 + 2 * i ==> propic[row + j] == words[j]
        invariant forall j :: 0 <= j < propic.Length && !(row <= j < row + 12) ==> propic[j] == old(propic[j])
      {
        TransWordsPair(oldShape, newShape, slot, nfixed, ptrs, shapes, i);
        propic[row + 4 + 2 * i] := if i < |ptrs| then ptrs[i] else 0;
        propic[row + 5 + 2 * i] := if i < |shapes| then shapes[i] else 0;
        i := i + 1;
      }
      propic[row] := oldShape;
      assert forall j :: 0 <= j < 12 ==> propic[row + j] == words[j];
    }

    lemma OtherRowsKept(before: seq<nat>, site: nat, s: nat)
      requires propic.Length == numSites * 32 && |before| == propic.Length && site < numSites && s < numSites
      requires forall i :: 0 <= i < propic.Length && !(TransBase(site) <= i < TransBase(site) + 12) ==>
        propic[i] == before[i]
      ensures s != site ==> TransAt(propic[..], s) == TransAt(before, s)
      ensures forall w :: 0 <= w < WAYS ==> WayAt(propic[..], s, w) == WayAt(before, s, w)
    {
    }

    /** The set miss helper after a successful populate, which records at most four prototypes: raise the flag for a
        nursery prototype, fill the site row, fill the table row. `index` is where the table's hash puts the row. */
    method RecordAdd(site: nat, index: nat, atomId: nat, oldShape: nat, newShape: nat, slot: nat, nfixed: nat,
                     ptrs: seq<nat>, shapes: seq<nat>, nurseryProto: bool)
      requires Valid() && site < numSites && index < setAdd.Length && |ptrs| == |shapes| <= 4
      requires nurseryProto <==> PtrsName(ptrs, nurseryLo, nurseryHi)
      modifies this`transRowsHoldNursery, propic, setAdd
      ensures Valid()
      ensures TransAt(propic[..], site) == TransWords(oldShape, newShape, slot, nfixed, ptrs, shapes)
      ensures OffsetIsSlot(TransAt(propic[..], site), nfixed)
      ensures setAdd[index] == SetAddRow(gen, oldShape, atomId, newShape, slot, ptrs, shapes)
      ensures transRowsHoldNursery == (old(transRowsHoldNursery) || nurseryProto)
      ensures forall i :: 0 <= i < propic.Length && !(TransBase(site) <= i < TransBase(site) + 12) ==>
        propic[i] == old(propic[i])
      ensures forall r :: 0 <= r < setAdd.Length && r != index ==> setAdd[r] == old(setAdd[r])
    {
      if nurseryProto {
        transRowsHoldNursery := true;
      }
      FillTransRow(site, oldShape, newShape, slot, nfixed, ptrs, shapes);
      setAdd[index] := SetAddRow(gen, oldShape, atomId, newShape, slot, ptrs, shapes);
      KeepFlagged(old(propic[..]), site, oldShape, newShape, slot, nfixed, ptrs, shapes);
    }

    /** Filling one site row with unflagged pointers leaves every site row unflagged. */
    lemma KeepFlagged(before: seq<nat>, site: nat, oldShape: nat, newShape: nat, slot: nat, nfixed: nat,
                      ptrs: seq<nat>, shapes: seq<nat>)
      requires propic.Length == numSites * 32 && |before| == propic.Length && site < numSites && 0 < nurseryLo
      requires forall i :: 0 <= i < propic.Length && !(TransBase(site) <= i < TransBase(site) + 12) ==>
        propic[i] == before[i]
      requires TransAt(propic[..], site) == TransWords(oldShape, newShape, slot, nfixed, ptrs, shapes)
      requires !transRowsHoldNursery ==>
        && !PtrsName(ptrs, nurseryLo, nurseryHi)
        && forall s :: 0 <= s < numSites ==> !TransNames(TransAt(before, s), nurseryLo, nurseryHi)
      ensures !transRowsHoldNursery ==>
        forall s :: 0 <= s < numSites ==> !TransNames(TransAt(propic[..], s), nurseryLo, nurseryHi)
    {
      if !transRowsHoldNursery {
        forall s | 0 <= s < numSites ensures !TransNames(TransAt(propic[..], s), nurseryLo, nurseryHi) {
          OtherRowsKept(before, site, s);
          if s == site && TransNames(TransAt(propic[..], s), nurseryLo, nurseryHi) {
            TransWordsName(oldShape, newShape, slot, nfixed, ptrs, shapes, nurseryLo, nurseryHi);
          }
        }
      }
    }

    /** A table row whose replay succeeded (`replayed`: what the add replay answered on the receiver) re-seeds the site
        row that missed. The flag needs no second look: a table row that names
        the nursery raised it when it was filled. */
    method ReseedFromTable(site: nat, index: nat, shape: nat, atomId: nat, nfixed: nat, replayed: bool)
      returns (hit: bool)
      requires Valid() && site < numSites && index < setAdd.Length
      modifies propic
      ensures Valid()
      ensures hit <==>
        replayed && setAdd[index].gen == gen && setAdd[index].oldShape == shape && setAdd[index].atomId == atomId
      ensures hit ==>
        TransAt(propic[..], site) ==
        TransWords(shape, setAdd[index].newShape, setAdd[index].slot, nfixed, setAdd[index].ptrs, setAdd[index].shapes)
      ensures hit ==> OffsetIsSlot(TransAt(propic[..], site), nfixed)
      ensures !hit ==> propic[..] == old(propic[..])
      ensures forall i :: 0 <= i < propic.Length && !(TransBase(site) <= i < TransBase(site) + 12) ==>
        propic[i] == old(propic[i])
    {
      var row := setAdd[index];
      if row.gen != gen || row.oldShape != shape || row.atomId != atomId || !replayed {
        return false;
      }
      FillTransRow(site, row.oldShape, row.newShape, row.slot, nfixed, row.ptrs, row.shapes);
      KeepFlagged(old(propic[..]), site, row.oldShape, row.newShape, row.slot, nfixed, row.ptrs, row.shapes);
      return true;
    }

    method ZeroRegion(off: nat, len: nat)
      requires off + len <= propic.Length
      modifies propic
      ensures forall i :: 0 <= i < propic.Length ==> propic[i] == if off <= i < off + len then 0 else old(propic[i])
    {
      var i := 0;
      while i < len
        invariant 0 <= i <= len
        invariant forall j :: 0 <= j < propic.Length ==>
          propic[j] == if off <= j < off + i then 0 else old(propic[j])
      {
        propic[off + i] := 0;
        i := i + 1;
      }
    }

    /** Stride over the sites, zeroing each add row and nothing else. */
    method ClearTransRows()
      requires propic.Length == numSites * 32
      modifies propic
      ensures forall site :: 0 <= site < numSites ==> TransAt(propic[..], site) == ZERO_ROW
      ensures forall site, w :: 0 <= site < numSites && 0 <= w < WAYS ==>
        WayAt(propic[..], site, w) == old(WayAt(propic[..], site, w))
    {
      ghost var before, site := propic[..], 0;
      var off := 20;
      while off < propic.Length
        invariant 0 <= site <= numSites && off == TransBase(site)
        invariant forall s :: 0 <= s < site ==> TransAt(propic[..], s) == ZERO_ROW
        invariant forall s, w :: 0 <= s < numSites && 0 <= w < WAYS ==>
          WayAt(propic[..], s, w) == WayAt(before, s, w)
      {
        ghost var words := propic[..];
        ZeroRegion(off, 12);
        forall s | 0 <= s < numSites
          ensures s != site ==> TransAt(propic[..], s) == TransAt(words, s)
          ensures forall w :: 0 <= w < WAYS ==> WayAt(propic[..], s, w) == WayAt(words, s, w)
        {
          OtherRowsKept(words, site, s);
        }
        assert TransAt(propic[..], site) == ZERO_ROW;
        off, site := off + 32, site + 1;
      }
    }

    /** The row part of the minor-collection callback. With the flag up it clears every site row and the whole
        table, and not one word of a get way; then no row names the nursery and the flag comes down. */
    method MinorCollectionEnd()
      requires Valid()
      modifies this`transRowsHoldNursery, propic, setAdd
      ensures Valid() && !transRowsHoldNursery
      ensures forall site, w :: 0 <= site < numSites && 0 <= w < WAYS ==>
        WayAt(propic[..], site, w) == old(WayAt(propic[..], site, w))
      ensures forall site :: 0 <= site < numSites ==>
        TransAt(propic[..], site) ==
          if old(transRowsHoldNursery) then ZERO_ROW else old(TransAt(propic[..], site))
      ensures setAdd[..] == if old(transRowsHoldNursery) then seq(setAdd.Length, _ => EMPTY_ROW) else old(setAdd[..])
    {
      if transRowsHoldNursery {
        ClearTransRows();
        ghost var cleared := propic[..];
        forall r | 0 <= r < setAdd.Length {
          setAdd[r] := EMPTY_ROW;
        }
        transRowsHoldNursery := false;
        assert propic[..] == cleared;
        assert setAdd[..] == seq(setAdd.Length, _ => EMPTY_ROW);
        forall s | 0 <= s < numSites
          ensures TransAt(propic[..], s) == ZERO_ROW && !TransNames(TransAt(propic[..], s), nurseryLo, nurseryHi)
        {
        }
      }
    }

    /** The purge of the site region: bump the generation, clear everything. Table rows stay behind under
        their old generation stamp, and so does the flag that covers them. */
    method Purge()
      requires Valid()
      modifies this`gen, propic
      ensures Valid()
      ensures gen == (old(gen) + 1) % U32
      ensures forall i :: 0 <= i < propic.Length ==> propic[i] == 0
    {
      gen := (gen + 1) % U32;
      ZeroRegion(0, propic.Length);
    }
  }
}
