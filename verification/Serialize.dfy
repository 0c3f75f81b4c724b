// The little-endian tables the snapshot tool reads out of memory. A table is a count and then, for every script,
// its address, a byte string's length, and the byte string padded to four. The self-hosted table carries paths and
// is patched in place once the last collection has moved the scripts.
module Serialize {
  import opened Wrappers

  type Bytes = seq<nat>

  // ---- words and padding -----------------------------------------------------------------------

  function Byte(v: nat, k: nat): nat {
    match k
    case 0 => v % 256
    case 1 => v / 256 % 256
    case 2 => v / 65536 % 256
    case _ => v / 16777216 % 256
  }

  /** A 32-bit word, low byte first. Higher bits are lost, as in the cast to 32 bits. */
  function Word(v: nat): (w: Bytes)
    ensures |w| == 4
  {
    seq(4, k requires 0 <= k < 4 => Byte(v, k))
  }

  function ReadWord(b: Bytes): nat
    requires |b| >= 4
  {
    b[0] + 256 * b[1] + 65536 * b[2] + 16777216 * b[3]
  }

  lemma BytesReadBack(v: nat)
    requires v < U32
    ensures Byte(v, 0) + 256 * Byte(v, 1) + 65536 * Byte(v, 2) + 16777216 * Byte(v, 3) == v
  {
    assert v / 65536 == v / 256 / 256 && v / 16777216 == v / 65536 / 256;
  }

  lemma WordReadsBack(v: nat, rest: Bytes)
    requires v < U32
    ensures ReadWord(Word(v) + rest) == v && (Word(v) + rest)[4..] == rest
  {
    var b := Word(v) + rest;
    assert b[0] == Byte(v, 0) && b[1] == Byte(v, 1) && b[2] == Byte(v, 2) && b[3] == Byte(v, 3);
    BytesReadBack(v);
  }

  function PadLength(n: nat): (k: nat)
    ensures k < 4
  {
    (4 - n % 4) % 4
  }

  lemma Padded(n: nat, k: nat)
    requires n % 4 == 0
    ensures (n + k + PadLength(k)) % 4 == 0 && PadLength(n + k) == PadLength(k)
  {
  }

  function Zeros(n: nat): (z: Bytes)
    ensures |z| == n
  {
    seq(n, _ => 0)
  }

  method AppendU32(out: Bytes, v: nat) returns (more: Bytes)
    ensures more == out + Word(v)
  {
    more := out + [v % 256] + [v / 256 % 256] + [v / 65536 % 256] + [v / 16777216 % 256];
    assert forall k :: 0 <= k < 4 ==> more[|out| + k] == Byte(v, k);
  }

  /** Zero bytes up to a multiple of four. */
  method PadTo4(out: Bytes) returns (more: Bytes)
    ensures more == out + Zeros(PadLength(|out|))
  {
    var pad: Bytes := [];
    while (|out| + |pad|) % 4 != 0
      invariant |pad| <= PadLength(|out|) && pad == Zeros(|pad|)
      decreases PadLength(|out|) - |pad|
    {
      pad := pad + [0];
    }
    more := out + pad;
  }

  /** Overwrite one word, byte by byte. */
  method PutU32(out: Bytes, at: nat, v: nat) returns (patched: Bytes)
    requires at + 4 <= |out|
    ensures patched == out[..at] + Word(v) + out[at + 4..]
  {
    patched := out[at := v % 256][at + 1 := v / 256 % 256][at + 2 := v / 65536 % 256][at + 3 := v / 16777216 % 256];
    assert forall k :: 0 <= k < 4 ==> patched[at + k] == Byte(v, k);
  }

  /** What overwriting one word does to a string cut at that word. */
  lemma PatchedWord(out: Bytes, head: Bytes, w: Bytes, tail: Bytes)
    requires out == head + w + tail && |w| == 4
    ensures out[..|head|] == head && out[|head| + 4..] == tail
  {
  }

  // ---- tables ----------------------------------------------------------------------------------

  datatype Row = Row(addr: nat, body: Bytes)

  /** A row after its address word. */
  function Tail(body: Bytes): (t: Bytes)
    ensures |t| == 4 + |body| + PadLength(|body|)
  {
    Word(|body|) + body + Zeros(PadLength(|body|))
  }

  function Encoded(row: Row): (b: Bytes)
    ensures |b| == 8 + |row.body| + PadLength(|row.body|)
  {
    Word(row.addr) + Tail(row.body)
  }

  function Rows(rows: seq<Row>): Bytes {
    if rows == [] then [] else Encoded(rows[0]) + Rows(rows[1..])
  }

  function Table(rows: seq<Row>): Bytes {
    Word(|rows|) + Rows(rows)
  }

  /** A row, byte by byte: its address and its body's length, low byte first, the body, and zeros up to a multiple of
      four. */
  lemma RowLayout(row: Row)
    requires FitsRow(row)
    ensures var e, n := Encoded(row), |row.body|;
      && |e| % 4 == 0 && 8 + n <= |e| < 8 + n + 4
      && (forall k :: 8 <= k < |e| ==> e[k] == if k < 8 + n then row.body[k - 8] else 0)
      && e[0] < 256 && e[1] < 256 && e[2] < 256 && e[3] < 256
      && e[0] + 256 * e[1] + 256 * 256 * e[2] + 256 * 256 * 256 * e[3] == row.addr
      && e[4] < 256 && e[5] < 256 && e[6] < 256 && e[7] < 256
      && e[4] + 256 * e[5] + 256 * 256 * e[6] + 256 * 256 * 256 * e[7] == n
  {
    var e := Encoded(row);
    BytesReadBack(row.addr);
    BytesReadBack(|row.body|);
    Padded(8, |row.body|);
    assert forall k :: 0 <= k < 4 ==> e[k] == Byte(row.addr, k) && e[4 + k] == Byte(|row.body|, k);
  }

  lemma Associative(a: Bytes, b: Bytes, c: Bytes)
    ensures a + (b + c) == a + b + c
  {
  }

  lemma {:induction false} RowsAppend(left: seq<Row>, right: seq<Row>)
    ensures Rows(left + right) == Rows(left) + Rows(right)
  {
    if left == [] {
      assert left + right == right;
    } else {
      var all := left + right;
      assert all[1..] == left[1..] + right && all[0] == left[0];
      RowsAppend(left[1..], right);
      Associative(Encoded(left[0]), Rows(left[1..]), Rows(right));
    }
  }

  lemma RowsSnoc(rows: seq<Row>, i: nat)
    requires i < |rows|
    ensures Rows(rows[..i + 1]) == Rows(rows[..i]) + Encoded(rows[i])
  {
    RowsAppend(rows[..i], [rows[i]]);
    assert rows[..i + 1] == rows[..i] + [rows[i]];
    assert Rows([rows[i]][1..]) == [];
  }

  /** Rows are a whole number of words, so each starts on one. */
  lemma {:induction false} RowsAligned(rows: seq<Row>)
    ensures |Rows(rows)| % 4 == 0
  {
    if rows != [] {
      RowsAligned(rows[1..]);
      RowAligned(|rows[0].body|, |Rows(rows[1..])|);
      assert |Rows(rows)| == |Encoded(rows[0])| + |Rows(rows[1..])|;
    }
  }

  lemma RowAligned(body: nat, others: nat)
    requires others % 4 == 0
    ensures (8 + body + PadLength(body) + others) % 4 == 0
  {
    Padded(8, body);
  }

  // ---- reading a table back --------------------------------------------------------------------

  function ParseWord(b: Bytes): (r: Option<(nat, Bytes)>)
    ensures r.Some? ==> |r.value.1| == |b| - 4
  {
    if |b| < 4 then None else Some((ReadWord(b), b[4..]))
  }

  function ParseRow(b: Bytes): Option<(Row, Bytes)> {
    if |b| < 8 then None
    else
      var addr, n := ReadWord(b), ReadWord(b[4..]);
      if |b| - 8 < n + PadLength(n) then None
      else Some((Row(addr, b[8..8 + n]), b[8 + n + PadLength(n)..]))
  }

  function ParseRows(b: Bytes, n: nat): Option<(seq<Row>, Bytes)>
    decreases n
  {
    if n == 0 then Some(([], b))
    else
      var row := ParseRow(b);
      if row.None? then None
      else
        var more := ParseRows(row.value.1, n - 1);
        if more.None? then None else Some(([row.value.0] + more.value.0, more.value.1))
  }

  function ParseTable(b: Bytes): Option<(seq<Row>, Bytes)> {
    var count := ParseWord(b);
    if count.None? then None else ParseRows(count.value.1, count.value.0)
  }

  predicate FitsRow(row: Row) {
    row.addr < U32 && |row.body| < U32
  }

  lemma RowReadsBack(row: Row, rest: Bytes)
    requires FitsRow(row)
    ensures ParseRow(Encoded(row) + rest) == Some((row, rest))
  {
    var b, n, pad := Encoded(row) + rest, |row.body|, Zeros(PadLength(|row.body|));
    assert b == Word(row.addr) + (Word(n) + (row.body + pad + rest));
    WordReadsBack(row.addr, Word(n) + (row.body + pad + rest));
    WordReadsBack(n, row.body + pad + rest);
    assert b[8..8 + n] == row.body;
    assert b[8 + n + PadLength(n)..] == rest;
  }

  lemma {:induction false} RowsReadBack(rows: seq<Row>, rest: Bytes)
    requires forall i :: 0 <= i < |rows| ==> FitsRow(rows[i])
    ensures ParseRows(Rows(rows) + rest, |rows|) == Some((rows, rest))
  {
    if rows == [] {
      assert Rows(rows) + rest == rest;
    } else {
      assert Rows(rows) + rest == Encoded(rows[0]) + (Rows(rows[1..]) + rest);
      RowReadsBack(rows[0], Rows(rows[1..]) + rest);
      RowsReadBack(rows[1..], rest);
      assert [rows[0]] + rows[1..] == rows;
    }
  }

  /** A table says exactly what it was made from, whatever follows it. */
  lemma TableReadsBack(rows: seq<Row>, rest: Bytes)
    requires |rows| < U32 && forall i :: 0 <= i < |rows| ==> FitsRow(rows[i])
    ensures ParseTable(Table(rows) + rest) == Some((rows, rest))
  {
    assert Table(rows) + rest == Word(|rows|) + (Rows(rows) + rest);
    WordReadsBack(|rows|, Rows(rows) + rest);
    RowsReadBack(rows, rest);
  }

  // ---- the self-hosted table -------------------------------------------------------------------

  function Zip(addrs: seq<nat>, paths: seq<Bytes>): (rows: seq<Row>)
    requires |addrs| == |paths|
    ensures |rows| == |paths|
  {
    seq(|paths|, i requires 0 <= i < |paths| => Row(addrs[i], paths[i]))
  }

  /** Where a row's address word is: the sizes of the rows before it decide, not their addresses. */
  function Offset(paths: seq<Bytes>, i: nat): nat
    requires i <= |paths|
  {
    4 + Sizes(paths[..i])
  }

  function Sizes(paths: seq<Bytes>): nat {
    if paths == [] then 0
    else
      var last := paths[|paths| - 1];
      Sizes(paths[..|paths| - 1]) + 8 + |last| + PadLength(|last|)
  }

  lemma {:induction false} SizeOfRows(addrs: seq<nat>, paths: seq<Bytes>, i: nat)
    requires |addrs| == |paths| && i <= |paths|
    ensures 4 + |Rows(Zip(addrs, paths)[..i])| == Offset(paths, i)
    decreases i
  {
    if i > 0 {
      SizeOfRows(addrs, paths, i - 1);
      RowsSnoc(Zip(addrs, paths), i - 1);
      assert paths[..i][..i - 1] == paths[..i - 1];
    }
  }

  /** The table half sealed: rows before `i` at the new addresses, the others at the old. */
  function Half(now: seq<Row>, was: seq<Row>, i: nat): Bytes
    requires |now| == |was| && i <= |was|
  {
    Word(|was|) + Rows(now[..i]) + Rows(was[i..])
  }

  /** Overwriting row `i`'s address word seals one more row. */
  lemma HalfStep(now: seq<Row>, was: seq<Row>, i: nat)
    requires |now| == |was| && i < |was| && now[i].body == was[i].body
    ensures
      var at, b := 4 + |Rows(now[..i])|, Half(now, was, i);
      at + 4 <= |b| && b[..at] + Word(now[i].addr) + b[at + 4..] == Half(now, was, i + 1)
  {
    var head, tail, rest := Word(|was|) + Rows(now[..i]), Tail(was[i].body), Rows(was[i + 1..]);
    assert was[i..][1..] == was[i + 1..] && was[i..][0] == was[i];
    Associative(Word(was[i].addr), tail, rest);
    Associative(head, Word(was[i].addr), tail + rest);
    PatchedWord(Half(now, was, i), head, Word(was[i].addr), tail + rest);
    RowsSnoc(now, i);
    Associative(Word(|was|), Rows(now[..i]), Word(now[i].addr) + tail);
    Associative(head, Word(now[i].addr), tail);
    Associative(head + Word(now[i].addr), tail, rest);
  }

  /** The rooted scripts, whose addresses the collector keeps current; the serialized bytes; and the offset each
      address was written at. */
  class Mirror {
    ghost const paths: seq<Bytes>
    var scripts: seq<nat>
    var bytes: Bytes
    var offsets: seq<nat>

    /** The bytes are the table for some addresses, and the offsets are where its address words are. */
    ghost predicate Valid(addrs: seq<nat>)
      reads this
    {
      && |addrs| == |paths| == |scripts| == |offsets|
      && bytes == Table(Zip(addrs, paths))
      && forall i :: 0 <= i < |offsets| ==> offsets[i] == Offset(paths, i)
    }

    constructor (addrs: seq<nat>, names: seq<Bytes>)
      requires |addrs| == |names|
      ensures paths == names && scripts == addrs && Valid(addrs)
    {
      paths, scripts := names, addrs;
      var out, offs := Serialize(addrs, names);
      bytes, offsets := out, offs;
    }

    /** Rewrite every address word in place from where the scripts are now. Patching is re-serializing: byte for
        byte, the table that serializing from the new addresses would have produced. */
    method Seal(ghost addrs: seq<nat>)
      requires Valid(addrs)
      modifies this`bytes
      ensures Valid(scripts) && bytes == Table(Zip(scripts, paths))
    {
      ghost var now, was := Zip(scripts, paths), Zip(addrs, paths);
      var i := 0;
      assert now[..0] == [] && was[0..] == was;
      assert bytes == Word(|was|) + [] + Rows(was);
      while i < |scripts|
        invariant 0 <= i <= |scripts| && bytes == Half(now, was, i)
      {
        SizeOfRows(scripts, paths, i);
        HalfStep(now, was, i);
        bytes := PutU32(bytes, offsets[i], scripts[i]);
        i := i + 1;
      }
      assert now[..i] == now && was[i..] == [];
      assert Half(now, was, i) == Table(now);
    }
  }

  method Serialize(addrs: seq<nat>, paths: seq<Bytes>) returns (out: Bytes, offsets: seq<nat>)
    requires |addrs| == |paths|
    ensures out == Table(Zip(addrs, paths))
    ensures |offsets| == |paths| && forall i :: 0 <= i < |paths| ==> offsets[i] == Offset(paths, i)
  {
    ghost var rows := Zip(addrs, paths);
    out := AppendU32([], |paths|);
    offsets := [];
    var i := 0;
    while i < |paths|
      invariant 0 <= i <= |paths| && |offsets| == i
      invariant out == Word(|paths|) + Rows(rows[..i])
      invariant forall j :: 0 <= j < i ==> offsets[j] == Offset(paths, j)
    {
      SizeOfRows(addrs, paths, i);
      offsets := offsets + [|out|];
      RowsAligned(rows[..i]);
      out := AppendRow(out, Row(addrs[i], paths[i]));
      RowsSnoc(rows, i);
      assert out == Word(|paths|) + Rows(rows[..i + 1]);
      i := i + 1;
    }
    assert rows[..i] == rows;
  }

  method AppendRow(out: Bytes, row: Row) returns (more: Bytes)
    requires |out| % 4 == 0
    ensures more == out + Encoded(row)
  {
    more := AppendU32(out, row.addr);
    more := AppendU32(more, |row.body|);
    more := more + row.body;
    Padded(|out| + 8, |row.body|);
    more := PadTo4(more);
    assert more == out + (Word(row.addr) + (Word(|row.body|) + row.body + Zeros(PadLength(|row.body|))));
  }
}
