// The digest of a root's scripts and of every scope they can reach: built in one pass with counts patched in
// afterwards, and read back by a tool that has only the format.
module Digest {
  import opened Serialize
  import opened Wrappers

  type ScopeId = nat

  /** One of a script's things: its trace kind, and the scope it is, if it is one. */
  datatype Thing = Null | Cell(kind: nat, scope: Option<ScopeId>)

  datatype Script = Script(addr: nat, things: seq<Thing>)

  /** A binding's name address (0 when elided), whether it is a `var`, and its environment slot. */
  datatype Binding = Binding(name: nat, isVar: bool, slot: Option<nat>)

  datatype Scope = Scope(enclosing: Option<ScopeId>, bindings: seq<Binding>)

  type Image = map<ScopeId, Scope>

  // ---- the scopes reached ----------------------------------------------------------------------

  ghost predicate ScopesLive(image: Image, scripts: seq<Script>) {
    && (forall i, j :: 0 <= i < |scripts| && 0 <= j < |scripts[i].things| && Names(scripts[i].things[j]).Some? ==>
          Names(scripts[i].things[j]).value in image)
    && (forall s :: s in image && image[s].enclosing.Some? ==> image[s].enclosing.value in image)
  }

  function Names(t: Thing): Option<ScopeId> {
    if t.Cell? then t.scope else None
  }

  ghost predicate NamesAll(scripts: seq<Script>, scopes: set<ScopeId>) {
    forall i, j :: 0 <= i < |scripts| && 0 <= j < |scripts[i].things| && Names(scripts[i].things[j]).Some? ==>
      Names(scripts[i].things[j]).value in scopes
  }

  ghost predicate EnclosingClosed(image: Image, scopes: set<ScopeId>) {
    forall s :: s in scopes && s in image && image[s].enclosing.Some? ==> image[s].enclosing.value in scopes
  }

  ghost predicate Closed(image: Image, scripts: seq<Script>, scopes: set<ScopeId>) {
    NamesAll(scripts, scopes) && EnclosingClosed(image, scopes)
  }

  ghost predicate Least(image: Image, scripts: seq<Script>, scopes: set<ScopeId>) {
    Closed(image, scripts, scopes)
    && forall t: set<ScopeId> {:trigger scopes <= t} :: Closed(image, scripts, t) ==> scopes <= t
  }

  function Elements(scopes: seq<ScopeId>): set<ScopeId> {
    set i | 0 <= i < |scopes| :: scopes[i]
  }

  ghost predicate Distinct(scopes: seq<ScopeId>) {
    forall i, j :: 0 <= i < j < |scopes| ==> scopes[i] != scopes[j]
  }

  lemma ElementsSnoc(scopes: seq<ScopeId>, s: ScopeId)
    ensures Elements(scopes + [s]) == Elements(scopes) + {s}
  {
    var more := scopes + [s];
    assert forall i :: 0 <= i < |scopes| ==> more[i] == scopes[i];
    assert more[|scopes|] == s;
  }

  // ---- the format ------------------------------------------------------------------------------

  function KindByte(t: Thing): nat {
    if t.Null? then 0xff else t.kind % 256
  }

  function KindBytes(things: seq<Thing>): (b: Bytes)
    ensures |b| == |things|
  {
    seq(|things|, i requires 0 <= i < |things| => KindByte(things[i]))
  }

  function ScriptRows(scripts: seq<Script>): (rows: seq<Row>)
    ensures |rows| == |scripts|
  {
    seq(|scripts|, i requires 0 <= i < |scripts| => Row(scripts[i].addr, KindBytes(scripts[i].things)))
  }

  /** A binding's four words. */
  function EncodedBinding(b: Binding): (e: Bytes)
    ensures |e| == 16
  {
    Word(b.name) + (Word(if b.isVar then 1 else 0)
      + (Word(if b.slot.Some? then 1 else 0) + Word(if b.slot.Some? then b.slot.value else 0)))
  }

  function Bindings(bs: seq<Binding>): Bytes {
    if bs == [] then [] else EncodedBinding(bs[0]) + Bindings(bs[1..])
  }

  datatype ScopeRow = ScopeRow(addr: nat, bindings: seq<Binding>)

  function EncodedScope(s: ScopeRow): Bytes {
    Word(s.addr) + Word(|s.bindings|) + Bindings(s.bindings)
  }

  function Scopes(rows: seq<ScopeRow>): Bytes {
    if rows == [] then [] else EncodedScope(rows[0]) + Scopes(rows[1..])
  }

  function ScopeRows(image: Image, scopes: seq<ScopeId>): (rows: seq<ScopeRow>)
    requires forall i :: 0 <= i < |scopes| ==> scopes[i] in image
    ensures |rows| == |scopes|
  {
    seq(|scopes|, i requires 0 <= i < |scopes| => ScopeRow(scopes[i], image[scopes[i]].bindings))
  }

  /** The digest of some script rows and scope rows. */
  function Encoded(scripts: seq<Row>, scopes: seq<ScopeRow>): Bytes {
    Table(scripts) + (Word(|scopes|) + Scopes(scopes))
  }

  // ---- reading it back -------------------------------------------------------------------------

  function ParseBinding(b: Bytes): Option<(Binding, Bytes)> {
    if |b| < 16 then None
    else
      var name, isVar, has, slot := ReadWord(b), ReadWord(b[4..]), ReadWord(b[8..]), ReadWord(b[12..]);
      Some((Binding(name, isVar == 1, if has == 1 then Some(slot) else None), b[16..]))
  }

  function ParseBindings(b: Bytes, n: nat): Option<(seq<Binding>, Bytes)>
    decreases n
  {
    if n == 0 then Some(([], b))
    else
      var first := ParseBinding(b);
      if first.None? then None
      else
        var more := ParseBindings(first.value.1, n - 1);
        if more.None? then None else Some(([first.value.0] + more.value.0, more.value.1))
  }

  function ParseScope(b: Bytes): Option<(ScopeRow, Bytes)> {
    if |b| < 8 then None
    else
      var addr, n := ReadWord(b), ReadWord(b[4..]);
      var bindings := ParseBindings(b[8..], n);
      if bindings.None? then None else Some((ScopeRow(addr, bindings.value.0), bindings.value.1))
  }

  function ParseScopes(b: Bytes, n: nat): Option<(seq<ScopeRow>, Bytes)>
    decreases n
  {
    if n == 0 then Some(([], b))
    else
      var first := ParseScope(b);
      if first.None? then None
      else
        var more := ParseScopes(first.value.1, n - 1);
        if more.None? then None else Some(([first.value.0] + more.value.0, more.value.1))
  }

  function Parse(b: Bytes): Option<(seq<Row>, seq<ScopeRow>)> {
    var scripts := ParseTable(b);
    if scripts.None? then None
    else
      var count := ParseWord(scripts.value.1);
      if count.None? then None
      else
        var scopes := ParseScopes(count.value.1, count.value.0);
        if scopes.None? || scopes.value.1 != [] then None else Some((scripts.value.0, scopes.value.0))
  }

  predicate FitsBinding(b: Binding) {
    b.name < U32 && (b.slot.Some? ==> b.slot.value < U32)
  }

  predicate FitsScope(s: ScopeRow) {
    s.addr < U32 && |s.bindings| < U32 && forall i :: 0 <= i < |s.bindings| ==> FitsBinding(s.bindings[i])
  }

  lemma FourWords(a: nat, b: nat, c: nat, d: nat, rest: Bytes)
    requires a < U32 && b < U32 && c < U32 && d < U32
    ensures
      var s := Word(a) + (Word(b) + (Word(c) + Word(d))) + rest;
      ReadWord(s) == a && ReadWord(s[4..]) == b && ReadWord(s[8..]) == c && ReadWord(s[12..]) == d && s[16..] == rest
  {
    var s := Word(a) + (Word(b) + (Word(c) + Word(d))) + rest;
    var s4, s8, s12 := Word(b) + (Word(c) + (Word(d) + rest)), Word(c) + (Word(d) + rest), Word(d) + rest;
    assert s == Word(a) + s4;
    WordReadsBack(a, s4);
    WordReadsBack(b, s8);
    WordReadsBack(c, s12);
    WordReadsBack(d, rest);
    assert s[4..] == s4 && s4[4..] == s8 && s[8..] == s8 && s[12..] == s12 && s[16..] == rest;
  }

  lemma BindingReadsBack(b: Binding, rest: Bytes)
    requires FitsBinding(b)
    ensures ParseBinding(EncodedBinding(b) + rest) == Some((b, rest))
  {
    FourWords(b.name, if b.isVar then 1 else 0, if b.slot.Some? then 1 else 0,
              if b.slot.Some? then b.slot.value else 0, rest);
  }

  lemma {:induction false} BindingsReadBack(bs: seq<Binding>, rest: Bytes)
    requires forall i :: 0 <= i < |bs| ==> FitsBinding(bs[i])
    ensures ParseBindings(Bindings(bs) + rest, |bs|) == Some((bs, rest))
  {
    if bs == [] {
      assert Bindings(bs) + rest == rest;
    } else {
      Associative(EncodedBinding(bs[0]), Bindings(bs[1..]), rest);
      BindingReadsBack(bs[0], Bindings(bs[1..]) + rest);
      BindingsReadBack(bs[1..], rest);
      assert [bs[0]] + bs[1..] == bs;
    }
  }

  lemma ScopeReadsBack(s: ScopeRow, rest: Bytes)
    requires FitsScope(s)
    ensures ParseScope(EncodedScope(s) + rest) == Some((s, rest))
  {
    var b, n, body := EncodedScope(s) + rest, |s.bindings|, Bindings(s.bindings) + rest;
    assert b == Word(s.addr) + (Word(n) + body);
    WordReadsBack(s.addr, Word(n) + body);
    WordReadsBack(n, body);
    BindingsReadBack(s.bindings, rest);
    assert b[4..] == Word(n) + body && b[8..] == body;
  }

  lemma {:induction false} ScopesReadBack(rows: seq<ScopeRow>, rest: Bytes)
    requires forall i :: 0 <= i < |rows| ==> FitsScope(rows[i])
    ensures ParseScopes(Scopes(rows) + rest, |rows|) == Some((rows, rest))
  {
    if rows == [] {
      assert Scopes(rows) + rest == rest;
    } else {
      Associative(EncodedScope(rows[0]), Scopes(rows[1..]), rest);
      ScopeReadsBack(rows[0], Scopes(rows[1..]) + rest);
      ScopesReadBack(rows[1..], rest);
      ParseScopesStep(Scopes(rows) + rest, rows[0], Scopes(rows[1..]) + rest, rows[1..], rest);
      assert [rows[0]] + rows[1..] == rows;
    }
  }

  lemma ParseScopesStep(b: Bytes, first: ScopeRow, left: Bytes, others: seq<ScopeRow>, rest: Bytes)
    requires ParseScope(b) == Some((first, left)) && ParseScopes(left, |others|) == Some((others, rest))
    ensures ParseScopes(b, 1 + |others|) == Some(([first] + others, rest))
  {
  }

  /** The format decides the digest: what was encoded is what is read, so no two digests share their bytes. */
  lemma DigestReadsBack(scripts: seq<Row>, scopes: seq<ScopeRow>)
    requires |scripts| < U32 && forall i :: 0 <= i < |scripts| ==> FitsRow(scripts[i])
    requires |scopes| < U32 && forall i :: 0 <= i < |scopes| ==> FitsScope(scopes[i])
    ensures Parse(Encoded(scripts, scopes)) == Some((scripts, scopes))
  {
    TableReadsBack(scripts, Word(|scopes|) + Scopes(scopes));
    WordReadsBack(|scopes|, Scopes(scopes));
    ScopesReadBack(scopes, []);
    assert Scopes(scopes) + [] == Scopes(scopes);
  }

  /** A thing's kind byte, read: none for a null thing, whose byte no kind has. */
  function ReadKind(b: nat): Option<nat> {
    if b == 0xff then None else Some(b)
  }

  predicate FitsScript(s: Script) {
    && s.addr < U32 && |s.things| < U32
    && forall j :: 0 <= j < |s.things| && s.things[j].Cell? ==> s.things[j].kind < 0xff
  }

  /** What the tool learns of the image: for each script its address and, thing by thing, the kind or that there is
      none; for each scope its address and its bindings. */
  ghost predicate Tells(
    image: Image, scripts: seq<Script>, scopes: seq<ScopeId>, rows: seq<Row>, scopeRows: seq<ScopeRow>)
    requires forall i :: 0 <= i < |scopes| ==> scopes[i] in image
  {
    && |rows| == |scripts| && |scopeRows| == |scopes|
    && (forall i :: 0 <= i < |scripts| ==> rows[i].addr == scripts[i].addr && |rows[i].body| == |scripts[i].things|)
    && (forall i, j :: 0 <= i < |scripts| && 0 <= j < |scripts[i].things| && j < |rows[i].body| ==>
          ReadKind(rows[i].body[j]) == if scripts[i].things[j].Null? then None else Some(scripts[i].things[j].kind))
    && (forall i :: 0 <= i < |scopes| ==>
          scopeRows[i].addr == scopes[i] && scopeRows[i].bindings == image[scopes[i]].bindings)
  }

  lemma RowsTell(image: Image, scripts: seq<Script>, scopes: seq<ScopeId>)
    requires forall i :: 0 <= i < |scripts| ==> FitsScript(scripts[i])
    requires forall i :: 0 <= i < |scopes| ==> scopes[i] in image
    ensures Tells(image, scripts, scopes, ScriptRows(scripts), ScopeRows(image, scopes))
    ensures forall i :: 0 <= i < |scripts| ==> FitsRow(ScriptRows(scripts)[i])
  {
    var rows := ScriptRows(scripts);
    forall i, j | 0 <= i < |scripts| && 0 <= j < |scripts[i].things|
      ensures ReadKind(rows[i].body[j]) == if scripts[i].things[j].Null? then None else Some(scripts[i].things[j].kind)
    {
      assert FitsScript(scripts[i]) && rows[i].body[j] == KindByte(scripts[i].things[j]);
    }
    forall i | 0 <= i < |scripts| ensures FitsRow(rows[i]) {
      assert FitsScript(scripts[i]);
    }
  }

  lemma DigestSays(image: Image, scripts: seq<Script>, scopes: seq<ScopeId>)
    requires |scripts| < U32 && forall i :: 0 <= i < |scripts| ==> FitsScript(scripts[i])
    requires forall i :: 0 <= i < |scopes| ==> scopes[i] in image
    requires |scopes| < U32 && forall i :: 0 <= i < |scopes| ==> FitsScope(ScopeRow(scopes[i], image[scopes[i]].bindings))
    ensures exists rows, scopeRows ::
      && Parse(Encoded(ScriptRows(scripts), ScopeRows(image, scopes))) == Some((rows, scopeRows))
      && Tells(image, scripts, scopes, rows, scopeRows)
  {
    RowsTell(image, scripts, scopes);
    DigestReadsBack(ScriptRows(scripts), ScopeRows(image, scopes));
  }

  /** A binding's sixteen bytes as the four words the format gives it. */
  lemma BindingLayout(b: Binding)
    requires FitsBinding(b)
    ensures var e := EncodedBinding(b);
      && ReadWord(e) == b.name && ReadWord(e[4..]) == (if b.isVar then 1 else 0)
      && ReadWord(e[8..]) == (if b.slot.Some? then 1 else 0)
      && ReadWord(e[12..]) == (if b.slot.Some? then b.slot.value else 0)
  {
    FourWords(b.name, if b.isVar then 1 else 0, if b.slot.Some? then 1 else 0,
              if b.slot.Some? then b.slot.value else 0, []);
    assert EncodedBinding(b) + [] == EncodedBinding(b);
  }

  // ---- building it -----------------------------------------------------------------------------

  /** The growing scope list with its `seen` set. */
  class Builder {
    const image: Image
    var out: Bytes
    var seen: set<ScopeId>
    var scopes: seq<ScopeId>

    /** No scope twice, all of them live, and none that some closed set could do without. */
    ghost predicate Listed(scripts: seq<Script>)
      reads this
    {
      && seen == Elements(scopes) && Distinct(scopes) && Elements(scopes) <= image.Keys
      && forall t: set<ScopeId> {:trigger Elements(scopes) <= t} :: Closed(image, scripts, t) ==> Elements(scopes) <= t
    }

    constructor (live: Image)
      ensures image == live && out == [] && seen == {} && scopes == []
    {
      image, out, seen, scopes := live, [], {}, [];
    }

    method AddScope(s: ScopeId, ghost scripts: seq<Script>)
      requires Listed(scripts) && s in image
      requires forall t :: Closed(image, scripts, t) ==> s in t
      modifies this`seen, this`scopes
      ensures Listed(scripts) && Elements(scopes) == old(Elements(scopes)) + {s} && old(scopes) <= scopes
    {
      if s in seen {
        return;
      }
      ElementsSnoc(scopes, s);
      seen := seen + {s};
      scopes := scopes + [s];
      forall t | Closed(image, scripts, t) ensures Elements(scopes) <= t {
        assert Elements(old(scopes)) <= t;
      }
    }

    /** Write one script's kinds, listing the scopes among its things. */
    method AddScript(i: nat, scripts: seq<Script>)
      requires i < |scripts| && ScopesLive(image, scripts) && Listed(scripts) && |out| % 4 == 0
      requires NamesAll(scripts[..i], Elements(scopes))
      modifies this
      ensures Listed(scripts) && NamesAll(scripts[..i + 1], Elements(scopes))
      ensures out == old(out) + Serialize.Encoded(ScriptRows(scripts)[i])
    {
      var things := scripts[i].things;
      ghost var before := Elements(scopes);
      out := AppendU32(out, scripts[i].addr);
      out := AppendU32(out, |things|);
      ghost var head := out;
      var j := 0;
      while j < |things|
        invariant 0 <= j <= |things| && out == head + KindBytes(things)[..j]
        invariant Listed(scripts) && before <= Elements(scopes)
        invariant forall k :: 0 <= k < j && Names(things[k]).Some? ==> Names(things[k]).value in Elements(scopes)
      {
        var t := things[j];
        out := out + [if t.Null? then 0xff else t.kind % 256];
        if t.Cell? && t.scope.Some? {
          assert Names(scripts[i].things[j]).Some?;
          AddScope(t.scope.value, scripts);
        }
        j := j + 1;
      }
      assert KindBytes(things)[..j] == KindBytes(things);
      Padded(|head|, |things|);
      out := PadTo4(out);
    }

    /** Add every listed scope's enclosing scope, down the list as it grows. It ends: the list has no scope twice. */
    method CloseOver(scripts: seq<Script>)
      requires ScopesLive(image, scripts) && Listed(scripts) && NamesAll(scripts, Elements(scopes))
      modifies this`seen, this`scopes
      ensures Listed(scripts) && Least(image, scripts, Elements(scopes))
    {
      var i := 0;
      while i < |scopes|
        invariant 0 <= i <= |scopes| && Listed(scripts) && NamesAll(scripts, Elements(scopes))
        invariant forall j :: 0 <= j < i && image[scopes[j]].enclosing.Some? ==>
          image[scopes[j]].enclosing.value in Elements(scopes)
        decreases image.Keys - Elements(scopes[..i])
      {
        ghost var done := scopes[..i];
        var s := scopes[i];
        assert s in Elements(scopes) && s !in Elements(done);
        ElementsSnoc(done, s);
        assert scopes[..i + 1] == done + [s];
        if image[s].enclosing.Some? {
          forall t | Closed(image, scripts, t) ensures image[s].enclosing.value in t {
            assert Elements(scopes) <= t && s in t;
          }
          AddScope(image[s].enclosing.value, scripts);
        }
        assert scopes[..i + 1] == done + [s];
        i := i + 1;
      }
    }

    method AppendBinding(b: Binding)
      modifies this`out
      ensures out == old(out) + EncodedBinding(b)
    {
      out := AppendU32(out, b.name);
      out := AppendU32(out, if b.isVar then 1 else 0);
      out := AppendU32(out, if b.slot.Some? then 1 else 0);
      out := AppendU32(out, if b.slot.Some? then b.slot.value else 0);
    }

    /** Write one scope, its binding count patched in once they are counted. */
    method AppendScope(s: ScopeId)
      requires s in image
      modifies this`out
      ensures out == old(out) + EncodedScope(ScopeRow(s, image[s].bindings))
    {
      var bindings := image[s].bindings;
      out := AppendU32(out, s);
      var countPos := |out|;
      ghost var before := out;
      out := AppendU32(out, 0);
      ghost var head := out;
      var n := 0;
      while n < |bindings|
        invariant 0 <= n <= |bindings| && out == head + Bindings(bindings[..n])
      {
        AppendBinding(bindings[n]);
        BindingsSnoc(bindings, n);
        Associative(head, Bindings(bindings[..n]), EncodedBinding(bindings[n]));
        n := n + 1;
      }
      assert bindings[..n] == bindings;
      PatchedWord(out, before, Word(0), Bindings(bindings));
      out := PutU32(out, countPos, n);
      CountPatched(old(out), s, bindings);
    }
  }

  lemma CountPatched(out: Bytes, s: ScopeId, bindings: seq<Binding>)
    ensures out + Word(s) + Word(|bindings|) + Bindings(bindings) == out + EncodedScope(ScopeRow(s, bindings))
  {
    Associative(out, Word(s), Word(|bindings|));
    Associative(out, Word(s) + Word(|bindings|), Bindings(bindings));
  }

  lemma {:induction false} BindingsAppend(left: seq<Binding>, right: seq<Binding>)
    ensures Bindings(left + right) == Bindings(left) + Bindings(right)
  {
    if left == [] {
      assert left + right == right;
    } else {
      var all := left + right;
      assert all[1..] == left[1..] + right && all[0] == left[0];
      BindingsAppend(left[1..], right);
      Associative(EncodedBinding(left[0]), Bindings(left[1..]), Bindings(right));
    }
  }

  lemma BindingsSnoc(bs: seq<Binding>, i: nat)
    requires i < |bs|
    ensures Bindings(bs[..i + 1]) == Bindings(bs[..i]) + EncodedBinding(bs[i])
  {
    BindingsAppend(bs[..i], [bs[i]]);
    assert bs[..i + 1] == bs[..i] + [bs[i]];
    assert Bindings([bs[i]][1..]) == [];
  }

  lemma {:induction false} ScopesAppend(left: seq<ScopeRow>, right: seq<ScopeRow>)
    ensures Scopes(left + right) == Scopes(left) + Scopes(right)
  {
    if left == [] {
      assert left + right == right;
    } else {
      var all := left + right;
      assert all[1..] == left[1..] + right && all[0] == left[0];
      ScopesAppend(left[1..], right);
      Associative(EncodedScope(left[0]), Scopes(left[1..]), Scopes(right));
    }
  }

  lemma ScopesSnoc(rows: seq<ScopeRow>, i: nat)
    requires i < |rows|
    ensures Scopes(rows[..i + 1]) == Scopes(rows[..i]) + EncodedScope(rows[i])
  {
    ScopesAppend(rows[..i], [rows[i]]);
    assert rows[..i + 1] == rows[..i] + [rows[i]];
    assert Scopes([rows[i]][1..]) == [];
  }

  lemma RowAdded(head: Bytes, rows: seq<Row>, i: nat)
    requires i < |rows| && |head| % 4 == 0
    ensures head + Rows(rows[..i + 1]) == head + Rows(rows[..i]) + Serialize.Encoded(rows[i])
    ensures |head + Rows(rows[..i + 1])| % 4 == 0
  {
    RowsSnoc(rows, i);
    RowsAligned(rows[..i + 1]);
    Associative(head, Rows(rows[..i]), Serialize.Encoded(rows[i]));
  }

  /** The digest of these scripts: their kinds, and every scope reachable from them exactly once and no other -
      the least set that holds the scopes the scripts name and the scope enclosing each of its own. */
  method BuildDigest(image: Image, scripts: seq<Script>) returns (out: Bytes, scopes: seq<ScopeId>)
    requires ScopesLive(image, scripts)
    ensures Distinct(scopes) && Least(image, scripts, Elements(scopes))
    ensures forall i :: 0 <= i < |scopes| ==> scopes[i] in image
    ensures out == Encoded(ScriptRows(scripts), ScopeRows(image, scopes))
  {
    var b := new Builder(image);
    AppendScripts(b, scripts);
    b.CloseOver(scripts);
    scopes := b.scopes;
    assert forall j :: 0 <= j < |scopes| ==> scopes[j] in Elements(scopes);
    out := AppendScopes(b, Table(ScriptRows(scripts)));
  }

  /** The first half of the digest. */
  method AppendScripts(b: Builder, scripts: seq<Script>)
    requires ScopesLive(b.image, scripts) && b.Listed(scripts) && b.out == []
    modifies b
    ensures b.Listed(scripts) && NamesAll(scripts, Elements(b.scopes)) && b.out == Table(ScriptRows(scripts))
  {
    b.out := AppendU32(b.out, |scripts|);
    ghost var rows := ScriptRows(scripts);
    var i := 0;
    while i < |scripts|
      invariant 0 <= i <= |scripts| && b.Listed(scripts) && NamesAll(scripts[..i], Elements(b.scopes))
      invariant b.out == Word(|scripts|) + Rows(rows[..i]) && |b.out| % 4 == 0
    {
      b.AddScript(i, scripts);
      RowAdded(Word(|scripts|), rows, i);
      i := i + 1;
    }
    assert scripts[..i] == scripts && rows[..i] == rows;
  }

  /** The second half of the digest. */
  method AppendScopes(b: Builder, ghost table: Bytes) returns (out: Bytes)
    requires b.out == table && forall i :: 0 <= i < |b.scopes| ==> b.scopes[i] in b.image
    modifies b`out
    ensures out == table + (Word(|b.scopes|) + Scopes(ScopeRows(b.image, b.scopes)))
  {
    ghost var rows := ScopeRows(b.image, b.scopes);
    b.out := AppendU32(b.out, |b.scopes|);
    ghost var head := b.out;
    var i := 0;
    while i < |b.scopes|
      invariant 0 <= i <= |b.scopes| && b.out == head + Scopes(rows[..i])
    {
      b.AppendScope(b.scopes[i]);
      ScopesSnoc(rows, i);
      Associative(head, Scopes(rows[..i]), EncodedScope(rows[i]));
      i := i + 1;
    }
    assert rows[..i] == rows;
    Associative(table, Word(|b.scopes|), Scopes(rows));
    out := b.out;
  }
}
