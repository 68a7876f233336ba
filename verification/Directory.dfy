/** The PMTiles reader: the columnar, delta-coded directory of section 4 (Directories) of the PMTiles
    version 3 specification, the binary search in one directory, the descent through nested ones, and the
    archives a writer lays out, read back (cmd/router/tiles.go:108-246). A directory's bytes are the sequence of unsigned varints they
    decompress to; machine widths are written out. */
module Directory {
  import opened Roads
  import Hilbert

  datatype Result<+T> = Ok(value: T) | Err

  const TWO32: nat := 0x1_0000_0000
  const TWO64: nat := 0x1_0000_0000_0000_0000
  const MAX_ENTRIES: nat := 0x100_0000

  datatype Entry = Entry(id: nat, offset: nat, length: nat, run: nat)

  // ------------------------------------------------------------------ the encoding

  /** What the specification makes of a directory: the count, then the ids as differences, the run
      lengths, the lengths, and the offsets, where 0 says "right after the one before". */
  function Encode(es: seq<Entry>): seq<nat> {
    [|es|] + Column(es, |es|, 0) + Column(es, |es|, 1) + Column(es, |es|, 2) + Column(es, |es|, 3)
  }

  /** One value of a column: 0 the ids, 1 the runs, 2 the lengths, 3 the offsets. */
  function Cell(es: seq<Entry>, i: nat, col: nat): nat
    requires i < |es|
  {
    match col
    case 0 => if i == 0 then es[0].id else if es[i].id >= es[i - 1].id then es[i].id - es[i - 1].id else 0
    case 1 => es[i].run
    case 2 => es[i].length
    case _ => if i > 0 && es[i].offset == es[i - 1].offset + es[i - 1].length then 0 else es[i].offset + 1
  }

  function Column(es: seq<Entry>, n: nat, col: nat): (c: seq<nat>)
    requires n <= |es|
    ensures |c| == n && forall i :: 0 <= i < n ==> c[i] == Cell(es, i, col)
  {
    seq(n, i requires 0 <= i < n => Cell(es, i, col))
  }

  /** What a writer of the format may write: ids in order, every figure within its width. */
  ghost predicate Encodable(es: seq<Entry>) {
    && |es| <= MAX_ENTRIES
    && (forall i :: 0 <= i < |es| ==>
          es[i].id < TWO64 && es[i].run < TWO32 && es[i].length < TWO32 && es[i].offset + 1 < TWO64)
    && forall i :: 0 < i < |es| ==> es[i - 1].id <= es[i].id
  }

  // ------------------------------------------------------------------ the decoder

  /** The machine's unsigned 64-bit arithmetic. */
  function Wrap(v: nat): nat { v % TWO64 }

  /** The i-th id of a column that starts at position at: the differences so far, added up. */
  function IdAt(s: seq<nat>, at: nat, i: nat): nat
    requires at + i < |s|
  {
    Wrap((if i == 0 then 0 else IdAt(s, at, i - 1)) + s[at + i])
  }

  /** The i-th offset: 0 means right after the previous entry, except for the first; otherwise one
      less, wrapping like the machine's unsigned subtraction. */
  function OffsetAt(s: seq<nat>, at: nat, lens: nat, i: nat): nat
    requires lens + i < |s| && at + i < |s|
  {
    if s[at + i] == 0 && i > 0 then Wrap(OffsetAt(s, at, lens, i - 1) + s[lens + i - 1] % TWO32)
    else Wrap(s[at + i] + TWO64 - 1)
  }

  /** The i-th entry the varints describe. */
  function EntryAt(s: seq<nat>, n: nat, i: nat): Entry
    requires i < n && |s| >= 1 + 4 * n
  {
    Entry(IdAt(s, 1, i), OffsetAt(s, 1 + 3 * n, 1 + 2 * n, i), s[1 + 2 * n + i] % TWO32, s[1 + n + i] % TWO32)
  }

  method ReadIds(s: seq<nat>, n: nat, dir: array<Entry>) returns (ok: bool)
    requires dir.Length == n && |s| >= 1
    modifies dir
    ensures ok <==> |s| >= 1 + n
    ensures ok ==> forall i :: 0 <= i < n ==> dir[i].id == IdAt(s, 1, i)
  {
    hide Wrap, IdAt;
    var last := 0;
    for i := 0 to n
      invariant 1 + i <= |s| && last == (if i == 0 then 0 else IdAt(s, 1, i - 1))
      invariant forall j :: 0 <= j < i ==> dir[j].id == IdAt(s, 1, j)
    {
      if 1 + i == |s| { return false; }
      IdSums(s, 1, i);
      last := Wrap(last + s[1 + i]);
      dir[i] := dir[i].(id := last);
    }
    ok := true;
  }

  lemma IdSums(s: seq<nat>, at: nat, i: nat)
    requires at + i < |s|
    ensures IdAt(s, at, i) == Wrap((if i == 0 then 0 else IdAt(s, at, i - 1)) + s[at + i])
  {
  }

  method ReadRuns(s: seq<nat>, n: nat, dir: array<Entry>) returns (ok: bool)
    requires dir.Length == n && |s| >= 1 + n
    modifies dir
    ensures ok <==> |s| >= 1 + 2 * n
    ensures forall i :: 0 <= i < n ==> dir[i].id == old(dir[i].id)
    ensures ok ==> forall i :: 0 <= i < n ==> dir[i].run == s[1 + n + i] % TWO32
  {
    for i := 0 to n
      invariant 1 + n + i <= |s| && forall j :: 0 <= j < n ==> dir[j].id == old(dir[j].id)
      invariant forall j :: 0 <= j < i ==> dir[j].run == s[1 + n + j] % TWO32
    {
      if 1 + n + i == |s| { return false; }
      dir[i] := dir[i].(run := s[1 + n + i] % TWO32);
    }
    ok := true;
  }

  method ReadLengths(s: seq<nat>, n: nat, dir: array<Entry>) returns (ok: bool)
    requires dir.Length == n && |s| >= 1 + 2 * n
    modifies dir
    ensures ok <==> |s| >= 1 + 3 * n
    ensures forall i :: 0 <= i < n ==> dir[i].id == old(dir[i].id) && dir[i].run == old(dir[i].run)
    ensures ok ==> forall i :: 0 <= i < n ==> dir[i].length == s[1 + 2 * n + i] % TWO32
  {
    for i := 0 to n
      invariant 1 + 2 * n + i <= |s|
      invariant forall j :: 0 <= j < n ==> dir[j].id == old(dir[j].id) && dir[j].run == old(dir[j].run)
      invariant forall j :: 0 <= j < i ==> dir[j].length == s[1 + 2 * n + j] % TWO32
    {
      if 1 + 2 * n + i == |s| { return false; }
      dir[i] := dir[i].(length := s[1 + 2 * n + i] % TWO32);
    }
    ok := true;
  }

  method ReadOffsets(s: seq<nat>, n: nat, dir: array<Entry>) returns (ok: bool)
    requires dir.Length == n && |s| >= 1 + 3 * n
    requires forall i :: 0 <= i < n ==> dir[i].length == s[1 + 2 * n + i] % TWO32
    modifies dir
    ensures ok <==> |s| >= 1 + 4 * n
    ensures forall i :: 0 <= i < n ==>
              dir[i].id == old(dir[i].id) && dir[i].run == old(dir[i].run) && dir[i].length == old(dir[i].length)
    ensures ok ==> forall i :: 0 <= i < n ==> dir[i].offset == OffsetAt(s, 1 + 3 * n, 1 + 2 * n, i)
  {
    hide Wrap;
    for i := 0 to n
      invariant 1 + 3 * n + i <= |s|
      invariant forall j :: 0 <= j < n ==>
                  dir[j].id == old(dir[j].id) && dir[j].run == old(dir[j].run) && dir[j].length == old(dir[j].length)
      invariant forall j :: 0 <= j < i ==> dir[j].offset == OffsetAt(s, 1 + 3 * n, 1 + 2 * n, j)
    {
      if 1 + 3 * n + i == |s| { return false; }
      var v := s[1 + 3 * n + i];
      if v == 0 && i > 0 {
        assert dir[i - 1].length == s[1 + 2 * n + (i - 1)] % TWO32;
        dir[i] := dir[i].(offset := Wrap(dir[i - 1].offset + dir[i - 1].length));
      } else {
        dir[i] := dir[i].(offset := Wrap(v + TWO64 - 1));
      }
    }
    ok := true;
  }

  /** directory: four passes over the varints; too many entries or too few varints are errors. */
  method Decode(s: seq<nat>) returns (r: Result<seq<Entry>>)
    ensures r == DecodedFrom(s)
  {
    if |s| == 0 { return Err; }
    var n := s[0];
    if n > MAX_ENTRIES { return Err; }
    var dir := new Entry[n](_ => Entry(0, 0, 0, 0));
    var ok := ReadIds(s, n, dir);
    if !ok { return Err; }
    ok := ReadRuns(s, n, dir);
    if !ok { return Err; }
    ok := ReadLengths(s, n, dir);
    if !ok { return Err; }
    ok := ReadOffsets(s, n, dir);
    if !ok { return Err; }
    assert dir[..] == seq(n, i requires 0 <= i < n => EntryAt(s, n, i));
    r := Ok(dir[..]);
  }

  /** What the varints of a directory say. */
  function DecodedFrom(s: seq<nat>): Result<seq<Entry>> {
    if |s| >= 1 && s[0] <= MAX_ENTRIES && |s| >= 1 + 4 * s[0]
    then Ok(seq(s[0], i requires 0 <= i < s[0] => EntryAt(s, s[0], i)))
    else Err
  }

  lemma EncodedCells(es: seq<Entry>, i: nat)
    requires i < |es|
    ensures var s, n := Encode(es), |es|;
      && |s| == 1 + 4 * n && s[0] == n
      && s[1 + i] == Cell(es, i, 0) && s[1 + n + i] == Cell(es, i, 1)
      && s[1 + 2 * n + i] == Cell(es, i, 2) && s[1 + 3 * n + i] == Cell(es, i, 3)
  {
  }

  lemma {:induction false} EntryReadBack(es: seq<Entry>, i: nat)
    requires Encodable(es) && i < |es| && |Encode(es)| == 1 + 4 * |es|
    ensures EntryAt(Encode(es), |es|, i) == es[i]
  {
    hide Encode;
    EncodedCells(es, i);
    if i > 0 {
      EntryReadBack(es, i - 1);
      EncodedCells(es, i - 1);
    }
  }

  /** Decoding undoes encoding: whatever a writer of the format wrote is read back, entry for entry. */
  lemma DecodeInvertsEncode(es: seq<Entry>)
    requires Encodable(es)
    ensures DecodedFrom(Encode(es)) == Ok(es)
  {
    assert Encode(es)[0] == |es| && |Encode(es)| == 1 + 4 * |es|;
    forall i | 0 <= i < |es| ensures EntryAt(Encode(es), |es|, i) == es[i] { EntryReadBack(es, i); }
    hide Encode, EntryAt;
    assert DecodedFrom(Encode(es)).value == es;
  }

  // ------------------------------------------------------------------ one directory

  ghost predicate Ascending(dir: seq<Entry>) {
    forall i, j :: 0 <= i < j < |dir| ==> dir[i].id < dir[j].id
  }

  /** The last entry that begins at or before a number. */
  predicate IsLast(dir: seq<Entry>, id: nat, best: Option<nat>) {
    match best
    case None => forall i :: 0 <= i < |dir| ==> id < dir[i].id
    case Some(b) => b < |dir| && dir[b].id <= id && forall i :: b < i < |dir| ==> id < dir[i].id
  }

  /** find: the last entry whose id is at most the target, by bisection. */
  method Find(dir: seq<Entry>, target: nat) returns (best: Option<nat>)
    requires Ascending(dir)
    ensures IsLast(dir, target, best)
  {
    var lo: int, hi: int := 0, |dir| - 1;
    best := None;
    while lo <= hi
      invariant 0 <= lo <= hi + 1 <= |dir|
      invariant forall i :: 0 <= i < lo ==> dir[i].id < target
      invariant forall i :: hi < i < |dir| ==> target < dir[i].id
      invariant best == if lo == 0 then None else Some(lo - 1)
      decreases hi - lo
    {
      var mid := (lo + hi) / 2;
      if dir[mid].id == target {
        return Some(mid);
      } else if dir[mid].id < target {
        best, lo := Some(mid), mid + 1;
      } else {
        hi := mid - 1;
      }
    }
  }

  // ------------------------------------------------------------------ nested directories

  type byte = bv8

  /** An open archive: where its leaf directories and its tiles begin, its zooms, its root directory,
      the varints each readable region decompresses to, and the file. */
  datatype Archive = Archive(
    leafOffset: nat, dataOffset: nat, minZoom: nat, maxZoom: nat, root: seq<Entry>,
    regions: map<(nat, nat), seq<nat>>, file: seq<byte>)

  function ReadDirectory(a: Archive, off: nat, length: nat): Result<seq<Entry>> {
    if (off, length) in a.regions then DecodedFrom(a.regions[(off, length)]) else Err
  }

  function LeafOf(a: Archive, e: Entry): Result<seq<Entry>> {
    ReadDirectory(a, Wrap(a.leafOffset + e.offset), e.length)
  }

  function ReadBytes(a: Archive, e: Entry): Result<Option<seq<byte>>> {
    var off := Wrap(a.dataOffset + e.offset);
    if e.length == 0 || off + e.length > |a.file| then Err else Ok(Some(a.file[off..off + e.length]))
  }

  predicate Covers(e: Entry, id: nat) { e.run > 0 && e.id <= id < e.id + e.run }

  /** The flattened archive: e is an entry of this directory, or of one it points to, level by level. */
  ghost predicate InFlat(a: Archive, dir: seq<Entry>, levels: nat, e: Entry)
    decreases levels
  {
    exists i :: 0 <= i < |dir| && FromEntry(a, dir[i], levels, e)
  }

  ghost predicate FromEntry(a: Archive, from: Entry, levels: nat, e: Entry)
    decreases levels, 0
  {
    if from.run > 0 then e == from
    else levels > 0 && LeafOf(a, from).Ok? && InFlat(a, LeafOf(a, from).value, levels - 1, e)
  }

  /** Where the gap of an entry ends: at the next id, or where the directory's own gap ends. */
  function GapEnd(dir: seq<Entry>, i: nat, hi: nat): nat
    requires i < |dir|
  {
    if i + 1 < |dir| then dir[i + 1].id else hi
  }

  /** A well-formed directory within [lo, hi): ids strictly sorted, runs disjoint, every leaf readable,
      well-formed, and confined to its parent's gap; at most so many levels below it. */
  ghost predicate WellFormed(a: Archive, dir: seq<Entry>, lo: nat, hi: nat, levels: nat)
    decreases levels
  {
    && Ascending(dir)
    && (forall i :: 0 <= i < |dir| ==> lo <= dir[i].id < hi)
    && forall i :: 0 <= i < |dir| ==> EntryOk(a, dir[i], GapEnd(dir, i, hi), levels)
  }

  ghost predicate EntryOk(a: Archive, e: Entry, end: nat, levels: nat)
    decreases levels, 0
  {
    if e.run > 0 then e.id + e.run <= end
    else levels > 0 && LeafOf(a, e).Ok? && WellFormed(a, LeafOf(a, e).value, e.id, end, levels - 1)
  }

  lemma GapsInOrder(dir: seq<Entry>, i: nat, j: nat, hi: nat)
    requires Ascending(dir) && i < |dir| && j < |dir|
    ensures i < j ==> GapEnd(dir, i, hi) <= dir[j].id
  {
  }

  lemma GapWithin(a: Archive, dir: seq<Entry>, lo: nat, hi: nat, levels: nat, i: nat)
    requires WellFormed(a, dir, lo, hi, levels) && i < |dir|
    ensures lo <= dir[i].id && GapEnd(dir, i, hi) <= hi && EntryOk(a, dir[i], GapEnd(dir, i, hi), levels)
  {
    hide EntryOk;
  }

  /** What is flattened out of a directory stays within its gap. */
  lemma {:induction false} FlatInGap(a: Archive, dir: seq<Entry>, lo: nat, hi: nat, levels: nat, e: Entry)
    requires WellFormed(a, dir, lo, hi, levels) && InFlat(a, dir, levels, e)
    ensures e.run > 0 && lo <= e.id && e.id + e.run <= hi
    decreases levels
  {
    hide LeafOf, WellFormed, GapEnd;
    var i :| 0 <= i < |dir| && FromEntry(a, dir[i], levels, e);
    GapWithin(a, dir, lo, hi, levels, i);
    if dir[i].run == 0 { FlatInGap(a, LeafOf(a, dir[i]).value, dir[i].id, GapEnd(dir, i, hi), levels - 1, e); }
  }

  lemma FromGap(a: Archive, dir: seq<Entry>, lo: nat, hi: nat, levels: nat, i: nat, e: Entry)
    requires WellFormed(a, dir, lo, hi, levels) && i < |dir| && FromEntry(a, dir[i], levels, e)
    ensures e.run > 0 && dir[i].id <= e.id && e.id + e.run <= GapEnd(dir, i, hi)
  {
    hide LeafOf, WellFormed, GapEnd;
    GapWithin(a, dir, lo, hi, levels, i);
    if dir[i].run == 0 { FlatInGap(a, LeafOf(a, dir[i]).value, dir[i].id, GapEnd(dir, i, hi), levels - 1, e); }
  }

  /** Whatever covers a number was flattened out of the last entry that begins at or before it. */
  lemma OnlyTheLastEntry(a: Archive, dir: seq<Entry>, lo: nat, hi: nat, levels: nat, best: Option<nat>, id: nat,
      e: Entry)
    requires WellFormed(a, dir, lo, hi, levels) && InFlat(a, dir, levels, e) && Covers(e, id)
    requires IsLast(dir, id, best)
    ensures best.Some? && FromEntry(a, dir[best.value], levels, e)
  {
    hide LeafOf, GapEnd, FromEntry, EntryOk;
    var i :| 0 <= i < |dir| && FromEntry(a, dir[i], levels, e);
    FromGap(a, dir, lo, hi, levels, i, e);
    assert best.Some?;
    GapsInOrder(dir, i, best.value, hi);
  }

  /** No number is covered twice. */
  lemma {:induction false} CoveredOnce(a: Archive, dir: seq<Entry>, lo: nat, hi: nat, levels: nat, id: nat, d: Entry,
      e: Entry)
    requires WellFormed(a, dir, lo, hi, levels)
    requires InFlat(a, dir, levels, d) && InFlat(a, dir, levels, e) && Covers(d, id) && Covers(e, id)
    ensures d == e
    decreases levels
  {
    hide LeafOf, GapEnd;
    var i :| 0 <= i < |dir| && FromEntry(a, dir[i], levels, d);
    var j :| 0 <= j < |dir| && FromEntry(a, dir[j], levels, e);
    FromGap(a, dir, lo, hi, levels, i, d);
    FromGap(a, dir, lo, hi, levels, j, e);
    GapsInOrder(dir, i, j, hi);
    GapsInOrder(dir, j, i, hi);
    GapWithin(a, dir, lo, hi, levels, i);
    hide WellFormed, InFlat;
    if dir[i].run == 0 {
      CoveredOnce(a, LeafOf(a, dir[i]).value, dir[i].id, GapEnd(dir, i, hi), levels - 1, id, d, e);
    }
  }

  const LEVELS: nat := 3

  /** The answer of an entry: so many bytes of the file, counted from where the tile data begins; an error where
      there are none or the file ends before. */
  ghost predicate Delivers(a: Archive, e: Entry, r: Result<Option<seq<byte>>>) {
    var from := (a.dataOffset + e.offset) % TWO64;
    if e.length == 0 || from + e.length > |a.file| then r == Err
    else r.Ok? && r.value.Some? && |r.value.value| == e.length
         && forall i :: 0 <= i < e.length ==> r.value.value[i] == a.file[from + i]
  }

  /** The answer for a number: that of the flattened entry that covers it, or nothing. */
  ghost predicate Answers(a: Archive, id: nat, r: Result<Option<seq<byte>>>) {
    if exists e :: InFlat(a, a.root, LEVELS, e) && Covers(e, id)
    then exists e :: InFlat(a, a.root, LEVELS, e) && Covers(e, id) && Delivers(a, e, r)
    else r == Ok(None)
  }

  lemma BytesAreDelivered(a: Archive, e: Entry)
    ensures Delivers(a, e, ReadBytes(a, e))
  {
  }

  /** The search may go on in this directory: its flattened entries are the archive's, and every one that covers
      the number is among them. */
  ghost predicate Leads(a: Archive, dir: seq<Entry>, levels: nat, id: nat) {
    && (forall e :: InFlat(a, dir, levels, e) ==> InFlat(a, a.root, LEVELS, e))
    && forall e :: InFlat(a, a.root, LEVELS, e) && Covers(e, id) ==> InFlat(a, dir, levels, e)
  }

  /** Nothing begins early enough. */
  lemma NoneCovers(a: Archive, dir: seq<Entry>, lo: nat, hi: nat, levels: nat, id: nat)
    requires WellFormed(a, dir, lo, hi, levels) && Leads(a, dir, levels, id) && IsLast(dir, id, None)
    ensures Answers(a, id, Ok(None))
  {
    hide WellFormed, InFlat, Covers;
    forall e | InFlat(a, a.root, LEVELS, e) && Covers(e, id) ensures false {
      OnlyTheLastEntry(a, dir, lo, hi, levels, None, id, e);
    }
  }

  /** The entry is a tile run: it covers the number, or nothing does. */
  lemma TheEntryDecides(a: Archive, dir: seq<Entry>, lo: nat, hi: nat, levels: nat, i: nat, id: nat)
    requires WellFormed(a, dir, lo, hi, levels) && Leads(a, dir, levels, id)
    requires IsLast(dir, id, Some(i)) && dir[i].run > 0
    ensures Answers(a, id, if id >= dir[i].id + dir[i].run then Ok(None) else ReadBytes(a, dir[i]))
  {
    assert FromEntry(a, dir[i], levels, dir[i]);
    assert InFlat(a, dir, levels, dir[i]);
    BytesAreDelivered(a, dir[i]);
    hide WellFormed, InFlat, ReadBytes, Delivers;
    forall e | InFlat(a, a.root, LEVELS, e) && Covers(e, id) ensures e == dir[i] {
      OnlyTheLastEntry(a, dir, lo, hi, levels, Some(i), id, e);
    }
  }

  /** The entry is a leaf directory: the search goes on there. */
  lemma TheLeafLeads(a: Archive, dir: seq<Entry>, lo: nat, hi: nat, levels: nat, i: nat, id: nat)
    requires WellFormed(a, dir, lo, hi, levels) && Leads(a, dir, levels, id)
    requires IsLast(dir, id, Some(i)) && dir[i].run == 0
    ensures levels > 0 && LeafOf(a, dir[i]).Ok? && Leads(a, LeafOf(a, dir[i]).value, levels - 1, id)
    ensures WellFormed(a, LeafOf(a, dir[i]).value, dir[i].id, GapEnd(dir, i, hi), levels - 1)
  {
    hide LeafOf, GapEnd, Covers, WellFormed;
    GapWithin(a, dir, lo, hi, levels, i);
    hide EntryOk;
    var leaf := LeafOf(a, dir[i]).value;
    forall e | InFlat(a, leaf, levels - 1, e) ensures InFlat(a, a.root, LEVELS, e) {
      assert FromEntry(a, dir[i], levels, e);
      assert InFlat(a, dir, levels, e);
    }
    forall e | InFlat(a, a.root, LEVELS, e) && Covers(e, id) ensures InFlat(a, leaf, levels - 1, e) {
      OnlyTheLastEntry(a, dir, lo, hi, levels, Some(i), id, e);
    }
  }

  // ------------------------------------------------------------------ what a writer lays out

  /** The same bytes for run tiles from number id on. */
  datatype Piece = Piece(id: nat, run: nat, bytes: seq<byte>) {
    predicate Has(n: nat) { id <= n < id + run }

    predicate Before(q: Piece) { id + run <= q.id }

    /** Some tiles, some bytes, every figure within its width. */
    predicate Sound() { 0 < run < TWO32 && 0 < |bytes| < TWO32 && id + run < TWO64 }
  }

  /** An entry of the root: a piece itself, or a leaf directory of pieces. */
  datatype Part = Inline(p: Piece) | Leaf(ps: seq<Piece>)

  function PiecesIn(x: Part): seq<Piece> { match x case Inline(p) => [p] case Leaf(ps) => ps }

  function Pieces(parts: seq<Part>): seq<Piece> {
    if |parts| == 0 then [] else Pieces(parts[..|parts| - 1]) + PiecesIn(parts[|parts| - 1])
  }

  /** The tile data: the pieces one after the other. */
  function Data(ps: seq<Piece>): seq<byte> {
    if |ps| == 0 then [] else Data(ps[..|ps| - 1]) + ps[|ps| - 1].bytes
  }

  /** The entries of some pieces whose data begins at a place. */
  function EntriesOf(ps: seq<Piece>, at: nat): (es: seq<Entry>)
    ensures |es| == |ps|
  {
    seq(|ps|, i requires 0 <= i < |ps| => Entry(ps[i].id, at + |Data(ps[..i])|, |ps[i].bytes|, ps[i].run))
  }

  /** An archive to be written: what stands before the tile data, where the leaf directories go, how many bytes the
      compressor makes of a directory, the zooms, and the parts of the root. */
  datatype Writing = Writing(head: seq<byte>, leafOffset: nat, packed: seq<nat> -> nat, minZoom: nat, maxZoom: nat,
                             parts: seq<Part>)
  {
    function LeafEntries(k: nat): seq<Entry>
      requires k < |parts|
    {
      EntriesOf(PiecesIn(parts[k]), |Data(Pieces(parts[..k]))|)
    }

    function LeafSize(k: nat): nat
      requires k < |parts|
    {
      if parts[k].Leaf? then packed(Encode(LeafEntries(k))) else 0
    }

    /** Where the leaf directory of part k begins, counted from the first: after those before it. */
    function LeafStart(k: nat): nat
      requires k <= |parts|
    {
      if k == 0 then 0 else LeafStart(k - 1) + LeafSize(k - 1)
    }

    function RootEntry(k: nat): Entry
      requires k < |parts| && PiecesIn(parts[k]) != []
    {
      if parts[k].Inline? then LeafEntries(k)[0]
      else Entry(PiecesIn(parts[k])[0].id, LeafStart(k), LeafSize(k), 0)
    }

    function Regions(k: nat): map<(nat, nat), seq<nat>>
      requires k <= |parts|
    {
      if k == 0 then map[]
      else if parts[k - 1].Inline? then Regions(k - 1)
      else Regions(k - 1)[(leafOffset + LeafStart(k - 1), LeafSize(k - 1)) := Encode(LeafEntries(k - 1))]
    }

    /** The pieces come in the order of their numbers, none empty, none over another, every figure within its
        width, and no directory compressed to nothing. */
    ghost predicate Sound() {
      && (forall k :: 0 <= k < |parts| ==> PiecesIn(parts[k]) != [])
      && (forall k, i :: 0 <= k < |parts| && 0 <= i < |PiecesIn(parts[k])| ==> PiecesIn(parts[k])[i].Sound())
      && (forall k, i, j :: 0 <= k < |parts| && 0 <= i < j < |PiecesIn(parts[k])| ==>
            PiecesIn(parts[k])[i].Before(PiecesIn(parts[k])[j]))
      && (forall j, k, i :: 0 <= j < k < |parts| && 0 <= i < |PiecesIn(parts[j])| ==>
            PiecesIn(parts[j])[i].Before(PiecesIn(parts[k])[0]))
      && |head| + |Data(Pieces(parts))| + 1 < TWO64 && leafOffset + LeafStart(|parts|) < TWO64
      && (forall k :: 0 <= k < |parts| ==> |PiecesIn(parts[k])| <= MAX_ENTRIES)
      && forall s :: packed(s) > 0
    }

    ghost function Laid(): Archive
      requires Sound()
    {
      Archive(leafOffset, |head|, minZoom, maxZoom,
              seq(|parts|, k requires 0 <= k < |parts| => RootEntry(k)),
              Regions(|parts|), head + Data(Pieces(parts)))
    }

    /** What was written for a number. */
    ghost predicate Wrote(id: nat, bytes: seq<byte>) {
      exists k, i :: 0 <= k < |parts| && 0 <= i < |PiecesIn(parts[k])|
                     && PiecesIn(parts[k])[i].Has(id) && PiecesIn(parts[k])[i].bytes == bytes
    }
  }

  // -- where the pieces lie

  lemma {:induction false} DataOfBoth(ps: seq<Piece>, qs: seq<Piece>)
    ensures Data(ps + qs) == Data(ps) + Data(qs)
  {
    if |qs| == 0 {
      assert ps + qs == ps;
    } else {
      DataOfBoth(ps, qs[..|qs| - 1]);
      assert (ps + qs)[..|ps + qs| - 1] == ps + qs[..|qs| - 1];
    }
  }

  lemma {:induction false} PiecesSplit(parts: seq<Part>, k: nat)
    requires k <= |parts|
    ensures Pieces(parts) == Pieces(parts[..k]) + Pieces(parts[k..])
  {
    hide PiecesIn;
    if k == |parts| {
      assert parts[..k] == parts && parts[k..] == [];
    } else {
      var front, back := parts[..|parts| - 1], parts[k..];
      PiecesSplit(front, k);
      assert front[..k] == parts[..k] && back[..|back| - 1] == front[k..] && back[|back| - 1] == parts[|parts| - 1];
    }
  }

  /** A piece lies in the data after all before it. */
  lemma PieceInData(ps: seq<Piece>, i: nat)
    requires i < |ps|
    ensures |Data(ps[..i])| + |ps[i].bytes| <= |Data(ps)|
    ensures Data(ps)[|Data(ps[..i])|..|Data(ps[..i])| + |ps[i].bytes|] == ps[i].bytes
  {
    assert ps == ps[..i + 1] + ps[i + 1..] && ps[..i + 1][..i] == ps[..i];
    DataOfBoth(ps[..i + 1], ps[i + 1..]);
  }

  lemma PartInData(parts: seq<Part>, k: nat)
    requires k < |parts|
    ensures |Data(Pieces(parts[..k]))| <= |Data(Pieces(parts))|
    ensures Data(PiecesIn(parts[k])) <= Data(Pieces(parts))[|Data(Pieces(parts[..k]))|..]
  {
    hide Data;
    PiecesSplit(parts, k + 1);
    assert parts[..k + 1][..k] == parts[..k];
    DataOfBoth(Pieces(parts[..k]), PiecesIn(parts[k]));
    DataOfBoth(Pieces(parts[..k + 1]), Pieces(parts[k + 1..]));
  }

  lemma SliceThrough(head: seq<byte>, data: seq<byte>, at: nat, part: seq<byte>, from: nat, bytes: seq<byte>)
    requires at <= |data| && part <= data[at..]
    requires from + |bytes| <= |part| && part[from..from + |bytes|] == bytes
    ensures |head| + at + from + |bytes| <= |head + data|
    ensures (head + data)[|head| + at + from..|head| + at + from + |bytes|] == bytes
  {
    assert data[at..][..|part|] == part;
    assert data[at + from..at + from + |bytes|] == part[from..from + |bytes|];
  }

  lemma DeliversTheSlice(a: Archive, e: Entry, bytes: seq<byte>, r: Result<Option<seq<byte>>>)
    requires a.dataOffset + e.offset < TWO64 && |bytes| == e.length > 0
    requires a.dataOffset + e.offset + e.length <= |a.file|
    requires a.file[a.dataOffset + e.offset..a.dataOffset + e.offset + e.length] == bytes
    ensures Delivers(a, e, r) <==> r == Ok(Some(bytes))
  {
    var from := a.dataOffset + e.offset;
    forall i | 0 <= i < e.length ensures bytes[i] == a.file[from + i] {
      assert bytes[i] == a.file[from..from + e.length][i];
    }
    if Delivers(a, e, r) { assert r.value.value == bytes; }
  }

  /** The entry written for piece i of part k leads to its bytes. */
  lemma EntryLeadsToItsBytes(w: Writing, k: nat, i: nat, r: Result<Option<seq<byte>>>)
    requires w.Sound() && k < |w.parts| && i < |PiecesIn(w.parts[k])|
    ensures Delivers(w.Laid(), w.LeafEntries(k)[i], r) <==> r == Ok(Some(PiecesIn(w.parts[k])[i].bytes))
    ensures w.LeafEntries(k)[i].offset + 1 < TWO64
  {
    hide Delivers, Data, Pieces, Writing.RootEntry, Writing.Regions;
    var ps, data, at := PiecesIn(w.parts[k]), Data(Pieces(w.parts)), |Data(Pieces(w.parts[..k]))|;
    assert ps[i].Sound();
    PieceInData(ps, i);
    PartInData(w.parts, k);
    hide Writing.Sound;
    SliceThrough(w.head, data, at, Data(ps), |Data(ps[..i])|, ps[i].bytes);
    DeliversTheSlice(w.Laid(), w.LeafEntries(k)[i], ps[i].bytes, r);
  }

  // -- where the leaf directories lie

  lemma {:induction false} LeavesInOrder(w: Writing, j: nat, k: nat)
    requires j < k <= |w.parts|
    ensures w.LeafStart(j) + w.LeafSize(j) <= w.LeafStart(k)
    decreases k
  {
    hide Writing.LeafSize;
    if j < k - 1 { LeavesInOrder(w, j, k - 1); }
  }

  lemma SizeIsPositive(w: Writing, k: nat)
    requires w.Sound() && k < |w.parts| && w.parts[k].Leaf?
    ensures w.LeafSize(k) > 0
  {
    hide Encode, Data, Pieces, Writing.LeafEntries;
  }

  lemma RegionsGrow(w: Writing, k: nat, n: nat)
    requires k < n < |w.parts| && w.LeafStart(k) < w.LeafStart(n)
    ensures var key := (w.leafOffset + w.LeafStart(k), w.LeafSize(k));
      && (key in w.Regions(n + 1) <==> key in w.Regions(n))
      && (key in w.Regions(n) ==> w.Regions(n + 1)[key] == w.Regions(n)[key])
  {
    hide Encode, EntriesOf, Pieces, Data, Writing.LeafStart, Writing.LeafSize;
  }

  lemma {:induction false} RegionsHold(w: Writing, k: nat, n: nat)
    requires w.Sound() && k < n <= |w.parts| && w.parts[k].Leaf?
    ensures var key := (w.leafOffset + w.LeafStart(k), w.LeafSize(k));
      key in w.Regions(n) && w.Regions(n)[key] == Encode(w.LeafEntries(k))
    decreases n
  {
    hide Encode, EntriesOf, Pieces, Data, Writing.LeafStart, Writing.LeafSize;
    if k < n - 1 {
      LeavesInOrder(w, k, n - 1);
      SizeIsPositive(w, k);
      RegionsHold(w, k, n - 1);
      hide Writing.Sound, Writing.Regions;
      RegionsGrow(w, k, n - 1);
    }
  }

  lemma LeafIsEncodable(w: Writing, k: nat)
    requires w.Sound() && k < |w.parts|
    ensures Encodable(w.LeafEntries(k))
  {
    var es, ps := w.LeafEntries(k), PiecesIn(w.parts[k]);
    forall i | 0 <= i < |es|
      ensures es[i].id < TWO64 && es[i].run < TWO32 && es[i].length < TWO32 && es[i].offset + 1 < TWO64
    {
      assert ps[i].Sound();
      EntryLeadsToItsBytes(w, k, i, Err);
    }
    forall i | 0 < i < |es| ensures es[i - 1].id <= es[i].id { assert ps[i - 1].Before(ps[i]); }
  }

  /** The leaf a root entry points to is read back. */
  lemma LeafIsReadBack(w: Writing, k: nat)
    requires w.Sound() && k < |w.parts| && w.parts[k].Leaf?
    ensures LeafOf(w.Laid(), w.RootEntry(k)) == Ok(w.LeafEntries(k))
  {
    hide Encode, DecodedFrom, Encodable, Data;
    hide Writing.LeafEntries, Writing.LeafStart, Writing.LeafSize, Writing.Regions;
    RegionsHold(w, k, |w.parts|);
    LeavesInOrder(w, k, |w.parts|);
    SizeIsPositive(w, k);
    LeafIsEncodable(w, k);
    DecodeInvertsEncode(w.LeafEntries(k));
    assert w.leafOffset + w.LeafStart(k) < TWO64;
    hide Writing.Sound;
  }

  // -- the archive is in order, and holds what was written

  lemma LeafIsWellFormed(w: Writing, k: nat, hi: nat)
    requires w.Sound() && k < |w.parts| && PiecesIn(w.parts[k]) != []
    requires forall i :: 0 <= i < |PiecesIn(w.parts[k])| ==>
               PiecesIn(w.parts[k])[i].id + PiecesIn(w.parts[k])[i].run <= hi
    ensures WellFormed(w.Laid(), w.LeafEntries(k), PiecesIn(w.parts[k])[0].id, hi, LEVELS - 1)
  {
    var a, es, ps := w.Laid(), w.LeafEntries(k), PiecesIn(w.parts[k]);
    forall i, j | 0 <= i < j < |ps| ensures ps[i].Before(ps[j]) && es[i].id < es[j].id { assert ps[i].Sound(); }
    forall i | 0 <= i < |es|
      ensures ps[0].id <= es[i].id < hi && EntryOk(a, es[i], GapEnd(es, i, hi), LEVELS - 1)
    {
      assert ps[i].Sound();
      if i + 1 < |ps| { assert ps[i].Before(ps[i + 1]); }
    }
  }

  /** Where part k ends, its pieces all do. */
  lemma PartEnds(w: Writing, k: nat, i: nat)
    requires w.Sound() && k < |w.parts| && i < |PiecesIn(w.parts[k])|
    ensures w.LeafEntries(k)[i].id + w.LeafEntries(k)[i].run <= GapEnd(w.Laid().root, k, TWO64)
  {
    assert PiecesIn(w.parts[k])[i].Sound();
    if k + 1 < |w.parts| { assert PiecesIn(w.parts[k])[i].Before(PiecesIn(w.parts[k + 1])[0]); }
  }

  lemma RootAscends(w: Writing)
    requires w.Sound()
    ensures Ascending(w.Laid().root)
    ensures forall k :: 0 <= k < |w.parts| ==> w.Laid().root[k].id == PiecesIn(w.parts[k])[0].id < TWO64
  {
    hide Data, Pieces, Encode, Writing.LeafStart, Writing.LeafSize, Writing.Regions;
    var a := w.Laid();
    forall k | 0 <= k < |w.parts| ensures a.root[k].id == PiecesIn(w.parts[k])[0].id < TWO64 {
      assert PiecesIn(w.parts[k])[0].Sound();
    }
    forall j, k | 0 <= j < k < |w.parts| ensures a.root[j].id < a.root[k].id {
      assert PiecesIn(w.parts[j])[0].Sound() && PiecesIn(w.parts[j])[0].Before(PiecesIn(w.parts[k])[0]);
    }
  }

  lemma RootEntryIsOk(w: Writing, k: nat)
    requires w.Sound() && k < |w.parts|
    ensures EntryOk(w.Laid(), w.Laid().root[k], GapEnd(w.Laid().root, k, TWO64), LEVELS)
  {
    var a, ps := w.Laid(), PiecesIn(w.parts[k]);
    forall i | 0 <= i < |ps| ensures ps[i].id + ps[i].run <= GapEnd(a.root, k, TWO64) { PartEnds(w, k, i); }
    if w.parts[k].Leaf? {
      LeafIsReadBack(w, k);
      LeafIsWellFormed(w, k, GapEnd(a.root, k, TWO64));
      hide WellFormed, GapEnd, Data, Pieces, LeafOf, Writing.Regions, Writing.Sound;
    } else {
      assert ps[0].Sound();
    }
  }

  lemma RootIsWellFormed(w: Writing)
    requires w.Sound()
    ensures WellFormed(w.Laid(), w.Laid().root, 0, TWO64, LEVELS)
  {
    hide Ascending, EntryOk, GapEnd, Data, Pieces, Writing.Regions, Writing.RootEntry;
    RootAscends(w);
    forall k | 0 <= k < |w.parts|
      ensures EntryOk(w.Laid(), w.Laid().root[k], GapEnd(w.Laid().root, k, TWO64), LEVELS)
    {
      RootEntryIsOk(w, k);
    }
    hide Writing.Sound;
  }

  /** The flattened archive is the entries of the pieces. */
  lemma FlatIsThePieces(w: Writing, e: Entry)
    requires w.Sound()
    ensures InFlat(w.Laid(), w.Laid().root, LEVELS, e) <==>
              exists k, i :: 0 <= k < |w.parts| && 0 <= i < |PiecesIn(w.parts[k])| && e == w.LeafEntries(k)[i]
  {
    var a := w.Laid();
    forall k | 0 <= k < |w.parts|
      ensures FromEntry(a, a.root[k], LEVELS, e) <==>
                exists i :: 0 <= i < |PiecesIn(w.parts[k])| && e == w.LeafEntries(k)[i]
    {
      PartIsItsPieces(w, k, e);
    }
  }

  lemma EntryOfPiece(w: Writing, k: nat, i: nat)
    requires w.Sound() && k < |w.parts| && i < |PiecesIn(w.parts[k])|
    ensures var e, p := w.LeafEntries(k)[i], PiecesIn(w.parts[k])[i];
      e.id == p.id && e.run == p.run > 0 && forall n :: Covers(e, n) <==> p.Has(n)
  {
    hide Data, Pieces;
    assert PiecesIn(w.parts[k])[i].Sound();
    hide Writing.Sound;
  }

  /** Entries that are no leaves are what they flatten to. */
  lemma RunsAreFlat(a: Archive, es: seq<Entry>, levels: nat, e: Entry)
    requires forall i :: 0 <= i < |es| ==> es[i].run > 0
    ensures InFlat(a, es, levels, e) <==> exists i :: 0 <= i < |es| && e == es[i]
  {
    forall i | 0 <= i < |es| ensures FromEntry(a, es[i], levels, e) <==> e == es[i] {}
    hide FromEntry;
  }

  lemma PartIsItsPieces(w: Writing, k: nat, e: Entry)
    requires w.Sound() && k < |w.parts|
    ensures FromEntry(w.Laid(), w.Laid().root[k], LEVELS, e) <==>
              exists i :: 0 <= i < |PiecesIn(w.parts[k])| && e == w.LeafEntries(k)[i]
  {
    var a, es := w.Laid(), w.LeafEntries(k);
    assert a.root[k] == w.RootEntry(k);
    forall i | 0 <= i < |es| ensures es[i].run > 0 { EntryOfPiece(w, k, i); }
    if w.parts[k].Leaf? {
      LeafIsReadBack(w, k);
      RunsAreFlat(a, es, LEVELS - 1, e);
      hide LeafOf, InFlat, Data, Pieces, Encode, Writing.LeafEntries, Writing.Sound, Writing.Regions;
    } else {
      hide Data, Pieces, Encode, Writing.Sound, Writing.Regions;
    }
  }

  /** What was written is what is read: the bytes of the piece that has the number, or nothing. */
  ghost predicate ReadsBack(w: Writing, id: nat, r: Result<Option<seq<byte>>>) {
    && (forall bytes :: w.Wrote(id, bytes) ==> r == Ok(Some(bytes)))
    && ((forall bytes :: !w.Wrote(id, bytes)) ==> r == Ok(None))
  }

  lemma SomethingIsWritten(w: Writing, id: nat, e: Entry) returns (bytes: seq<byte>)
    requires w.Sound() && InFlat(w.Laid(), w.Laid().root, LEVELS, e) && Covers(e, id)
    ensures w.Wrote(id, bytes) && forall r :: Delivers(w.Laid(), e, r) ==> r == Ok(Some(bytes))
  {
    FlatIsThePieces(w, e);
    hide Delivers, InFlat, Data, Pieces, Writing.LeafEntries, Covers;
    var k, i :| 0 <= k < |w.parts| && 0 <= i < |PiecesIn(w.parts[k])| && e == w.LeafEntries(k)[i];
    bytes := PiecesIn(w.parts[k])[i].bytes;
    EntryOfPiece(w, k, i);
    forall r | Delivers(w.Laid(), e, r) ensures r == Ok(Some(bytes)) { EntryLeadsToItsBytes(w, k, i, r); }
  }

  lemma WrittenIsCovered(w: Writing, id: nat, bytes: seq<byte>) returns (e: Entry)
    requires w.Sound() && w.Wrote(id, bytes)
    ensures InFlat(w.Laid(), w.Laid().root, LEVELS, e) && Covers(e, id)
    ensures Delivers(w.Laid(), e, Ok(Some(bytes)))
  {
    hide Delivers, InFlat, Data, Pieces;
    var k, i :| 0 <= k < |w.parts| && 0 <= i < |PiecesIn(w.parts[k])|
                && PiecesIn(w.parts[k])[i].Has(id) && PiecesIn(w.parts[k])[i].bytes == bytes;
    e := w.LeafEntries(k)[i];
    FlatIsThePieces(w, e);
    EntryLeadsToItsBytes(w, k, i, Ok(Some(bytes)));
  }

  lemma DeliversOnce(a: Archive, e: Entry, r: Result<Option<seq<byte>>>, s: Result<Option<seq<byte>>>)
    requires Delivers(a, e, r) && Delivers(a, e, s)
    ensures r == s
  {
    if r.Ok? && s.Ok? { assert r.value.value == s.value.value; }
  }

  lemma WrittenIsAnswered(w: Writing, id: nat, bytes: seq<byte>, r: Result<Option<seq<byte>>>)
    requires w.Sound() && Answers(w.Laid(), id, r) && w.Wrote(id, bytes)
    ensures r == Ok(Some(bytes))
  {
    RootIsWellFormed(w);
    hide Delivers, InFlat, Covers, WellFormed, Writing.Wrote, Writing.Sound, Writing.Laid;
    var a := w.Laid();
    var d := WrittenIsCovered(w, id, bytes);
    var e :| InFlat(a, a.root, LEVELS, e) && Covers(e, id) && Delivers(a, e, r);
    hide Answers;
    CoveredOnce(a, a.root, 0, TWO64, LEVELS, id, d, e);
    DeliversOnce(a, e, r, Ok(Some(bytes)));
  }

  /** An archive read answers with what its writer put under the number, and with nothing where it put nothing. */
  lemma WrittenIsReadBack(w: Writing, id: nat, r: Result<Option<seq<byte>>>)
    requires w.Sound() && Answers(w.Laid(), id, r)
    ensures ReadsBack(w, id, r)
  {
    hide Delivers, InFlat, Covers, Writing.Wrote, Writing.Sound, Writing.Laid;
    forall bytes | w.Wrote(id, bytes) ensures r == Ok(Some(bytes)) { WrittenIsAnswered(w, id, bytes, r); }
    if r != Ok(None) {
      var e :| InFlat(w.Laid(), w.Laid().root, LEVELS, e) && Covers(e, id) && Delivers(w.Laid(), e, r);
      var bytes := SomethingIsWritten(w, id, e);
    }
  }

  lemma EveryWritingReadsBack(a: Archive, id: nat, r: Result<Option<seq<byte>>>)
    requires Answers(a, id, r)
    ensures forall w: Writing :: w.Sound() && a == w.Laid() ==> ReadsBack(w, id, r)
  {
    hide Answers, ReadsBack, Writing.Sound, Writing.Laid;
    forall w: Writing | w.Sound() && a == w.Laid() ensures ReadsBack(w, id, r) { WrittenIsReadBack(w, id, r); }
  }

  /** The descent for one number: four directories at most. */
  method Lookup(a: Archive, id: nat, ghost end: nat) returns (r: Result<Option<seq<byte>>>)
    requires WellFormed(a, a.root, 0, end, LEVELS)
    ensures Answers(a, id, r)
    ensures forall w: Writing :: w.Sound() && a == w.Laid() ==> ReadsBack(w, id, r)
  {
    r := Descend(a, id, end);
    EveryWritingReadsBack(a, id, r);
  }

  method Descend(a: Archive, id: nat, ghost end: nat) returns (r: Result<Option<seq<byte>>>)
    requires WellFormed(a, a.root, 0, end, LEVELS)
    ensures Answers(a, id, r)
  {
    var dir := a.root;
    ghost var lo, hi: nat := 0, end;
    for depth := 0 to 4
      invariant depth <= LEVELS && WellFormed(a, dir, lo, hi, LEVELS - depth) && Leads(a, dir, LEVELS - depth, id)
    {
      var i := Find(dir, id);
      hide InFlat, Answers, Covers, Leads, LeafOf, GapEnd, ReadBytes, WellFormed;
      ghost var levels := LEVELS - depth;
      if i.None? {
        NoneCovers(a, dir, lo, hi, levels, id);
        return Ok(None);
      }
      var e := dir[i.value];
      if e.run == 0 {
        TheLeafLeads(a, dir, lo, hi, levels, i.value, id);
        lo, hi := e.id, GapEnd(dir, i.value, hi);
        dir := LeafOf(a, e).value;
        continue;
      }
      TheEntryDecides(a, dir, lo, hi, levels, i.value, id);
      if id >= e.id + e.run { return Ok(None); }
      return ReadBytes(a, e);
    }
    r := Err;
  }

  /** Tile: a tile outside the archive's zooms is not there; any other is looked up by its number. */
  method Tile(a: Archive, z: nat, x: nat, y: nat, ghost end: nat) returns (r: Result<Option<seq<byte>>>)
    requires Hilbert.Within(z, Hilbert.Tile(x, y)) && WellFormed(a, a.root, 0, end, LEVELS)
    ensures if a.minZoom <= z <= a.maxZoom then Answers(a, Hilbert.TileId(z, Hilbert.Tile(x, y)), r) else r == Ok(None)
    ensures a.minZoom <= z <= a.maxZoom ==>
              forall w: Writing :: w.Sound() && a == w.Laid() ==> ReadsBack(w, Hilbert.TileId(z, Hilbert.Tile(x, y)), r)
  {
    if z < a.minZoom || z > a.maxZoom { return Ok(None); }
    var id := Hilbert.ZxyToTileID(z, x, y);
    r := Lookup(a, id, end);
  }
}
