// crates/montre-index/src/forward_flat.rs: write_mfwd and MappedForward. The writer first
// computes where every section will go, then writes the sections one after the other; the
// reader trusts the directory.
module FlatFile {
  import opened Core
  import opened Bytes
  import opened Layers

  const MAGIC: Buffer := [0x4D, 0x46, 0x57, 0x44]
  const FORMAT_VERSION: nat := 1
  const BYTE_ORDER_MARK: nat := 0x01020304
  const HEADER_SIZE: nat := 24
  const DIR_ENTRY_SIZE: nat := 64
  const U64: nat := U32 * U32

  datatype DirEntry = DirEntry(
    nameOffset: nat, nameLen: nat, encoding: Byte, idWidth: Byte,
    vocabOffset: nat, vocabCount: nat, bitmapOffset: nat, bitmapLen: nat,
    dataOffset: nat, dataCount: nat)

  ghost predicate EntryFits(e: DirEntry) {
    && e.nameOffset < U64 && e.nameLen < U32 && e.vocabOffset < U64 && e.vocabCount < U32
    && e.bitmapOffset < U64 && e.bitmapLen < U64 && e.dataOffset < U64 && e.dataCount < U64
  }

  // The four 16-byte quarters of a directory entry.
  function EntryA(o: Order, e: DirEntry): (r: Buffer)
    ensures |r| == 16
  {
    Encode(o, e.nameOffset, 8) + Encode(o, e.nameLen, 4) + [e.encoding, e.idWidth] + Zeros(2)
  }

  function EntryB(o: Order, e: DirEntry): (r: Buffer)
    ensures |r| == 16
  {
    Encode(o, e.vocabOffset, 8) + Encode(o, e.vocabCount, 4) + Zeros(4)
  }

  function EntryC(o: Order, e: DirEntry): (r: Buffer)
    ensures |r| == 16
  {
    Encode(o, e.bitmapOffset, 8) + Encode(o, e.bitmapLen, 8)
  }

  function EntryD(o: Order, e: DirEntry): (r: Buffer)
    ensures |r| == 16
  {
    Encode(o, e.dataOffset, 8) + Encode(o, e.dataCount, 8)
  }

  function EntryBytes(o: Order, e: DirEntry): (r: Buffer)
    ensures |r| == DIR_ENTRY_SIZE
  {
    EntryA(o, e) + EntryB(o, e) + EntryC(o, e) + EntryD(o, e)
  }

  // read_dir_entry
  function ParseEntry(o: Order, b: Buffer): DirEntry
    requires |b| == DIR_ENTRY_SIZE
  {
    DirEntry(Decode(o, b[0..8]), Decode(o, b[8..12]), b[12], b[13],
             Decode(o, b[16..24]), Decode(o, b[24..28]),
             Decode(o, b[32..40]), Decode(o, b[40..48]),
             Decode(o, b[48..56]), Decode(o, b[56..64]))
  }

  lemma FourQuarters(a: Buffer, b: Buffer, c: Buffer, d: Buffer)
    requires |a| == |b| == |c| == |d| == 16
    ensures var e := a + b + c + d; e[0..16] == a && e[16..32] == b && e[32..48] == c && e[48..64] == d
  {
  }

  lemma SliceOfSlice(b: Buffer, lo: nat, hi: nat, i: nat, j: nat)
    requires lo <= hi <= |b| && i <= j <= hi - lo
    ensures b[lo..hi][i..j] == b[lo + i..lo + j]
  {
    forall k | 0 <= k < j - i
      ensures b[lo..hi][i..j][k] == b[lo + i..lo + j][k]
    {
    }
  }

  lemma FirstQuarter(b: Buffer, x: Buffer, y: Buffer, u: Byte, v: Byte, z: Buffer)
    requires |b| >= 16 && |x| == 8 && |y| == 4 && |z| == 2 && b[0..16] == x + y + [u, v] + z
    ensures b[0..8] == x && b[8..12] == y && b[12] == u && b[13] == v
  {
    var whole := x + y + [u, v] + z;
    SliceOfSlice(b, 0, 16, 0, 8);
    SliceOfSlice(b, 0, 16, 8, 12);
    assert whole[0..8] == x && whole[8..12] == y && whole[12] == u && whole[13] == v;
    assert b[12] == b[0..16][12] && b[13] == b[0..16][13];
  }

  // The two fields at the front of a quarter.
  lemma TwoFields(b: Buffer, at: nat, x: Buffer, y: Buffer, z: Buffer)
    requires at + 16 <= |b| && |x| == 8 && |x| + |y| + |z| == 16 && b[at..at + 16] == x + y + z
    ensures b[at..at + 8] == x && b[at + 8..at + 8 + |y|] == y
  {
    var whole := x + y + z;
    SliceOfSlice(b, at, at + 16, 0, 8);
    SliceOfSlice(b, at, at + 16, 8, 8 + |y|);
    assert whole[0..8] == x && whole[8..8 + |y|] == y;
  }

  lemma FieldsA(o: Order, e: DirEntry, b: Buffer)
    requires |b| == DIR_ENTRY_SIZE && b[0..16] == EntryA(o, e)
    ensures b[0..8] == Encode(o, e.nameOffset, 8) && b[8..12] == Encode(o, e.nameLen, 4)
    ensures b[12] == e.encoding && b[13] == e.idWidth
  {
    FirstQuarter(b, Encode(o, e.nameOffset, 8), Encode(o, e.nameLen, 4), e.encoding, e.idWidth, Zeros(2));
  }

  lemma FieldsB(o: Order, e: DirEntry, b: Buffer)
    requires |b| == DIR_ENTRY_SIZE && b[16..32] == EntryB(o, e)
    ensures b[16..24] == Encode(o, e.vocabOffset, 8) && b[24..28] == Encode(o, e.vocabCount, 4)
  {
    TwoFields(b, 16, Encode(o, e.vocabOffset, 8), Encode(o, e.vocabCount, 4), Zeros(4));
  }

  lemma FieldsC(o: Order, e: DirEntry, b: Buffer)
    requires |b| == DIR_ENTRY_SIZE && b[32..48] == EntryC(o, e)
    ensures b[32..40] == Encode(o, e.bitmapOffset, 8) && b[40..48] == Encode(o, e.bitmapLen, 8)
  {
    var x, y := Encode(o, e.bitmapOffset, 8), Encode(o, e.bitmapLen, 8);
    assert x + y == x + y + [];
    TwoFields(b, 32, x, y, []);
  }

  lemma FieldsD(o: Order, e: DirEntry, b: Buffer)
    requires |b| == DIR_ENTRY_SIZE && b[48..64] == EntryD(o, e)
    ensures b[48..56] == Encode(o, e.dataOffset, 8) && b[56..64] == Encode(o, e.dataCount, 8)
  {
    var x, y := Encode(o, e.dataOffset, 8), Encode(o, e.dataCount, 8);
    assert x + y == x + y + [];
    TwoFields(b, 48, x, y, []);
  }

  lemma FieldsOf(o: Order, e: DirEntry)
    ensures var b := EntryBytes(o, e);
      && b[0..8] == Encode(o, e.nameOffset, 8) && b[8..12] == Encode(o, e.nameLen, 4)
      && b[12] == e.encoding && b[13] == e.idWidth
      && b[16..24] == Encode(o, e.vocabOffset, 8) && b[24..28] == Encode(o, e.vocabCount, 4)
      && b[32..40] == Encode(o, e.bitmapOffset, 8) && b[40..48] == Encode(o, e.bitmapLen, 8)
      && b[48..56] == Encode(o, e.dataOffset, 8) && b[56..64] == Encode(o, e.dataCount, 8)
  {
    var b := EntryBytes(o, e);
    FourQuarters(EntryA(o, e), EntryB(o, e), EntryC(o, e), EntryD(o, e));
    FieldsA(o, e, b);
    FieldsB(o, e, b);
    FieldsC(o, e, b);
    FieldsD(o, e, b);
  }

  lemma EntryRoundTrip(o: Order, e: DirEntry)
    requires EntryFits(e)
    ensures ParseEntry(o, EntryBytes(o, e)) == e
  {
    FieldsOf(o, e);
    PowValues();
    EncodeExact(o, e.nameOffset, 8);
    EncodeExact(o, e.nameLen, 4);
    EncodeExact(o, e.vocabOffset, 8);
    EncodeExact(o, e.vocabCount, 4);
    EncodeExact(o, e.bitmapOffset, 8);
    EncodeExact(o, e.bitmapLen, 8);
    EncodeExact(o, e.dataOffset, 8);
    EncodeExact(o, e.dataCount, 8);
  }

  function HeaderBytes(o: Order, layerCount: nat, tokenCount: nat): (r: Buffer)
    ensures |r| == HEADER_SIZE
  {
    MAGIC + Encode(o, FORMAT_VERSION, 4) + Encode(o, BYTE_ORDER_MARK, 4) + Encode(o, layerCount, 4) +
      Encode(o, tokenCount, 8)
  }

  // ---------------------------------------------------------------------------------
  // The image of a file.

  function Padded(b: Buffer): (r: Buffer)
    ensures |r| == AlignTo8(|b|)
  {
    b + Zeros(AlignTo8(|b|) - |b|)
  }

  function TermTable(o: Order, layer: LayerBuild): (r: Buffer)
    ensures |r| == TermTableSize(layer)
  {
    var offs := OffsetBytes(o, layer.termOffsets, |layer.termOffsets|);
    UniformLength(offs, 4);
    Concat(offs) + layer.termStrings
  }

  function OffsetBytes(o: Order, offsets: seq<nat>, n: nat): (r: seq<Buffer>)
    requires n <= |offsets|
    ensures |r| == n && forall i :: 0 <= i < n ==> |r[i]| == 4
  {
    if n == 0 then [] else OffsetBytes(o, offsets, n - 1) + [Encode(o, offsets[n - 1], 4)]
  }

  function TermTableSize(layer: LayerBuild): nat {
    |layer.termOffsets| * 4 + |layer.termStrings|
  }

  lemma {:induction false} UniformLength(bs: seq<Buffer>, w: nat)
    requires forall i :: 0 <= i < |bs| ==> |bs[i]| == w
    ensures |Concat(bs)| == |bs| * w
  {
    if bs != [] {
      UniformLength(bs[..|bs| - 1], w);
      assert |bs| * w == (|bs| - 1) * w + w;
    }
  }

  // Element i stands at its offset in the concatenation.
  lemma {:induction false} ConcatSlice(bs: seq<Buffer>, i: nat)
    requires i < |bs|
    ensures Has(Concat(bs), Offset(bs, i), bs[i])
  {
    var n := |bs| - 1;
    if i == n {
      HasAtEnd(Concat(bs[..n]), bs[n]);
    } else {
      ConcatSlice(bs[..n], i);
      assert bs[..n][..i] == bs[..i];
      HasAppended(Concat(bs[..n]), bs[n], Offset(bs, i), bs[i]);
    }
  }

  lemma OffsetNext(bs: seq<Buffer>, i: nat)
    requires i < |bs|
    ensures Offset(bs, i + 1) == Offset(bs, i) + |bs[i]|
  {
    ConcatNext(bs, i);
  }

  // Three padded sections for a dictionary layer, one for the others.
  function SectionBytes(o: Order, layer: LayerBuild): (r: Buffer)
    ensures |r| == SectionSize(layer)
  {
    if layer.encoding == ENCODING_DICT then
      Padded(TermTable(o, layer)) + Padded(layer.bitmapBytes) + Padded(layer.dataBytes)
    else Padded(layer.dataBytes)
  }

  function SectionSize(layer: LayerBuild): nat {
    if layer.encoding == ENCODING_DICT then
      AlignTo8(TermTableSize(layer)) + AlignTo8(|layer.bitmapBytes|) + AlignTo8(|layer.dataBytes|)
    else AlignTo8(|layer.dataBytes|)
  }

  // The first n elements of a row of byte strings.
  function Row(f: nat -> Buffer, n: nat): (r: seq<Buffer>)
    ensures |r| == n
  {
    if n == 0 then [] else Row(f, n - 1) + [f(n - 1)]
  }

  lemma {:induction false} RowAt(f: nat -> Buffer, n: nat, i: nat)
    requires i < n
    ensures Row(f, n)[i] == f(i)
  {
    if i < n - 1 {
      RowAt(f, n - 1, i);
    }
  }

  lemma {:induction false} RowWidths(f: nat -> Buffer, n: nat, w: nat)
    requires forall i: nat :: i < n ==> |f(i)| == w
    ensures forall i: nat :: i < n ==> |Row(f, n)[i]| == w
  {
    if n > 0 {
      RowWidths(f, n - 1, w);
    }
  }

  function SectionRow(o: Order, layers: seq<LayerBuild>): nat -> Buffer {
    (i: nat) => if i < |layers| then SectionBytes(o, layers[i]) else []
  }

  function AllSections(o: Order, layers: seq<LayerBuild>, n: nat): (r: seq<Buffer>)
    ensures |r| == n
  {
    Row(SectionRow(o, layers), n)
  }

  lemma SectionAt(o: Order, layers: seq<LayerBuild>, n: nat, i: nat)
    requires i < n <= |layers|
    ensures AllSections(o, layers, n)[i] == SectionBytes(o, layers[i])
    ensures |AllSections(o, layers, n)[i]| == SectionSize(layers[i])
  {
    RowAt(SectionRow(o, layers), n, i);
  }

  function Names(layers: seq<LayerBuild>, n: nat): (r: seq<Buffer>)
    requires n <= |layers|
    ensures |r| == n
  {
    if n == 0 then [] else Names(layers, n - 1) + [layers[n - 1].name]
  }

  lemma {:induction false} NameAt(layers: seq<LayerBuild>, n: nat, i: nat)
    requires i < n <= |layers|
    ensures Names(layers, n)[i] == layers[i].name
    ensures Offset(Names(layers, n), i) == NameOffset(layers, i)
  {
    if i < n - 1 {
      NameAt(layers, n - 1, i);
      assert Names(layers, n)[..i] == Names(layers, n - 1)[..i];
    } else {
      assert Names(layers, n)[..i] == Names(layers, i);
    }
  }

  // Where the name of layer i begins in the pool.
  function NameOffset(layers: seq<LayerBuild>, i: nat): nat
    requires i <= |layers|
  {
    |Concat(Names(layers, i))|
  }

  function Pool(layers: seq<LayerBuild>): Buffer {
    Concat(Names(layers, |layers|))
  }

  function PoolStart(n: nat): nat {
    HEADER_SIZE + n * DIR_ENTRY_SIZE
  }

  function SectionsStart(layers: seq<LayerBuild>): nat {
    PoolStart(|layers|) + AlignTo8(|Pool(layers)|)
  }

  function SectionTotal(layers: seq<LayerBuild>, i: nat): nat
    requires i <= |layers|
  {
    if i == 0 then 0 else SectionTotal(layers, i - 1) + SectionSize(layers[i - 1])
  }

  // Where the sections of layer i begin.
  function SectionStart(layers: seq<LayerBuild>, i: nat): nat
    requires i <= |layers|
  {
    SectionsStart(layers) + SectionTotal(layers, i)
  }

  // Where the writer announces the sections of layer i.
  function Announced(layers: seq<LayerBuild>, i: nat): (r: (nat, nat, nat))
    requires i < |layers|
  {
    SectionOffsets(layers[i], SectionStart(layers, i))
  }

  // Term table, bitmap and data of a layer whose sections begin here.
  function SectionOffsets(l: LayerBuild, at: nat): (nat, nat, nat) {
    if l.encoding == ENCODING_DICT then
      (at, at + AlignTo8(TermTableSize(l)), at + AlignTo8(TermTableSize(l)) + AlignTo8(|l.bitmapBytes|))
    else (0, 0, at)
  }

  function EntryFor(layers: seq<LayerBuild>, i: nat): DirEntry
    requires i < |layers|
  {
    var (vocab, bitmap, data) := Announced(layers, i);
    var l := layers[i];
    DirEntry(NameOffset(layers, i), |l.name|, l.encoding, l.idWidth, vocab, l.vocabCount,
             bitmap, |l.bitmapBytes|, data, l.dataCount)
  }

  function EntryRow(o: Order, layers: seq<LayerBuild>): nat -> Buffer {
    (i: nat) => if i < |layers| then EntryBytes(o, EntryFor(layers, i)) else Zeros(DIR_ENTRY_SIZE)
  }

  function Entries(o: Order, layers: seq<LayerBuild>, n: nat): (r: seq<Buffer>)
    ensures |r| == n
    ensures forall i :: 0 <= i < n ==> |r[i]| == DIR_ENTRY_SIZE
  {
    RowWidths(EntryRow(o, layers), n, DIR_ENTRY_SIZE);
    Row(EntryRow(o, layers), n)
  }

  lemma EntryAt(o: Order, layers: seq<LayerBuild>, n: nat, i: nat)
    requires i < n <= |layers|
    ensures Entries(o, layers, n)[i] == EntryBytes(o, EntryFor(layers, i))
  {
    RowAt(EntryRow(o, layers), n, i);
  }

  function ImageOf(header: Buffer, entries: seq<Buffer>, pool: Buffer, sections: seq<Buffer>): Buffer {
    header + Concat(entries) + pool + Concat(sections)
  }

  function Image(o: Order, layers: seq<LayerBuild>, tokenCount: nat): Buffer {
    ImageOf(HeaderBytes(o, |layers|, tokenCount), Entries(o, layers, |layers|), Padded(Pool(layers)),
            AllSections(o, layers, |layers|))
  }

  // ---------------------------------------------------------------------------------
  // write_mfwd

  lemma PoolNext(layers: seq<LayerBuild>, i: nat)
    requires i < |layers|
    ensures Concat(Names(layers, i + 1)) == Concat(Names(layers, i)) + layers[i].name
  {
    ConcatSnoc(Names(layers, i), layers[i].name);
  }

  method CollectNames(layers: seq<LayerBuild>) returns (pool: Buffer, entries: seq<(nat, nat)>)
    ensures pool == Pool(layers)
    ensures |entries| == |layers|
    ensures forall i {:trigger entries[i]} :: 0 <= i < |layers| ==>
      entries[i] == (NameOffset(layers, i), |layers[i].name|)
  {
    pool, entries := [], [];
    for i := 0 to |layers|
      invariant pool == Concat(Names(layers, i)) && |entries| == i
      invariant forall j {:trigger entries[j]} :: 0 <= j < i ==> entries[j] == (NameOffset(layers, j), |layers[j].name|)
    {
      entries := entries + [(|pool|, |layers[i].name|)];
      PoolNext(layers, i);
      pool := pool + layers[i].name;
    }
  }

  // The offsets of all sections, computed before anything is written.
  method PlaceSections(layers: seq<LayerBuild>, start: nat) returns (places: seq<(nat, nat, nat)>)
    requires start == SectionsStart(layers)
    ensures |places| == |layers|
    ensures forall i :: 0 <= i < |layers| ==> places[i] == Announced(layers, i)
  {
    places := [];
    var offset := start;
    for i := 0 to |layers|
      invariant offset == start + SectionTotal(layers, i) && |places| == i
      invariant forall j :: 0 <= j < i ==> places[j] == Announced(layers, j)
    {
      if layers[i].encoding == ENCODING_DICT {
        var vocab := offset;
        offset := offset + AlignTo8(TermTableSize(layers[i]));
        var bitmap := offset;
        offset := offset + AlignTo8(|layers[i].bitmapBytes|);
        var data := offset;
        offset := offset + AlignTo8(|layers[i].dataBytes|);
        places := places + [(vocab, bitmap, data)];
      } else {
        var data := offset;
        offset := offset + AlignTo8(|layers[i].dataBytes|);
        places := places + [(0, 0, data)];
      }
    }
  }

  lemma Assoc(a: Buffer, b: Buffer, c: Buffer)
    ensures (a + b) + c == a + (b + c)
  {
  }

  method WriteOffsets(o: Order, offsets: seq<nat>, file: Buffer) returns (file': Buffer)
    ensures file' == file + Concat(OffsetBytes(o, offsets, |offsets|))
  {
    file' := file;
    for i := 0 to |offsets|
      invariant file' == file + Concat(OffsetBytes(o, offsets, i))
    {
      var off := Encode(o, offsets[i], 4);
      ConcatSnoc(OffsetBytes(o, offsets, i), off);
      Assoc(file, Concat(OffsetBytes(o, offsets, i)), off);
      file' := file' + off;
    }
  }

  // write_all followed by write_padding
  method WritePadded(bytes: Buffer, file: Buffer) returns (file': Buffer)
    ensures file' == file + Padded(bytes)
  {
    var zeros := Zeros(AlignTo8(|bytes|) - |bytes|);
    file' := file + bytes + zeros;
    Assoc(file, bytes, zeros);
  }

  method WriteTermTable(o: Order, layer: LayerBuild, file: Buffer) returns (file': Buffer)
    ensures file' == file + Padded(TermTable(o, layer))
  {
    file' := WriteOffsets(o, layer.termOffsets, file);
    var size := TermTableSize(layer);
    var zeros := Zeros(AlignTo8(size) - size);
    ghost var offs := Concat(OffsetBytes(o, layer.termOffsets, |layer.termOffsets|));
    file' := file' + layer.termStrings + zeros;
    Assoc(file, offs, layer.termStrings);
    Assoc(file, TermTable(o, layer), zeros);
  }

  method WriteSections(o: Order, layer: LayerBuild, file: Buffer) returns (file': Buffer)
    ensures file' == file + SectionBytes(o, layer)
  {
    file' := file;
    if layer.encoding == ENCODING_DICT {
      file' := WriteTermTable(o, layer, file');
      file' := WritePadded(layer.bitmapBytes, file');
      Assoc(file, Padded(TermTable(o, layer)), Padded(layer.bitmapBytes));
    }
    ghost var before := file';
    file' := WritePadded(layer.dataBytes, file');
    if layer.encoding == ENCODING_DICT {
      Assoc(file, Padded(TermTable(o, layer)) + Padded(layer.bitmapBytes), Padded(layer.dataBytes));
    }
  }

  method WriteDirectory(o: Order, layers: seq<LayerBuild>, names: seq<(nat, nat)>, places: seq<(nat, nat, nat)>,
      file: Buffer)
    returns (file': Buffer)
    requires |names| == |places| == |layers|
    requires forall i :: 0 <= i < |layers| ==> names[i] == (NameOffset(layers, i), |layers[i].name|)
    requires forall i :: 0 <= i < |layers| ==> places[i] == Announced(layers, i)
    ensures file' == file + Concat(Entries(o, layers, |layers|))
  {
    file' := file;
    for i := 0 to |layers|
      invariant file' == file + Concat(Entries(o, layers, i))
    {
      var l := layers[i];
      var e := DirEntry(names[i].0, names[i].1, l.encoding, l.idWidth, places[i].0, l.vocabCount,
                        places[i].1, |l.bitmapBytes|, places[i].2, l.dataCount);
      assert e == EntryFor(layers, i);
      ConcatSnoc(Entries(o, layers, i), EntryBytes(o, e));
      Assoc(file, Concat(Entries(o, layers, i)), EntryBytes(o, e));
      file' := file' + EntryBytes(o, e);
    }
  }

  method WriteAllSections(o: Order, layers: seq<LayerBuild>, file: Buffer) returns (file': Buffer)
    ensures file' == file + Concat(AllSections(o, layers, |layers|))
  {
    file' := file;
    for i := 0 to |layers|
      invariant file' == file + Concat(AllSections(o, layers, i))
    {
      ConcatSnoc(AllSections(o, layers, i), SectionBytes(o, layers[i]));
      Assoc(file, Concat(AllSections(o, layers, i)), SectionBytes(o, layers[i]));
      file' := WriteSections(o, layers[i], file');
    }
  }

  method WriteMfwd(o: Order, layers: seq<LayerBuild>, tokenCount: nat) returns (file: Buffer)
    ensures file == Image(o, layers, tokenCount)
  {
    var pool, nameEntries := CollectNames(layers);
    var places := PlaceSections(layers, HEADER_SIZE + |layers| * DIR_ENTRY_SIZE + AlignTo8(|pool|));
    file := HeaderBytes(o, |layers|, tokenCount);
    file := WriteDirectory(o, layers, nameEntries, places, file);
    file := WritePadded(pool, file);
    file := WriteAllSections(o, layers, file);
  }

  // ---------------------------------------------------------------------------------
  // The announced offsets are where the sections really are.

  lemma HasShifted(front: Buffer, back: Buffer, off: nat, bytes: Buffer)
    requires Has(back, off, bytes)
    ensures Has(front + back, |front| + off, bytes)
  {
    HasSlice(back, off, bytes);
    HasSlice(front + back, |front| + off, bytes);
    var all := front + back;
    assert all[|front|..|all|] == back;
    SliceOfSlice(all, |front|, |all|, off, off + |bytes|);
  }

  // The parts of header + entries + pool + sections.
  lemma ImageParts(h: Buffer, e: Buffer, p: Buffer, s: Buffer, off: nat, bytes: Buffer)
    ensures Has(e, off, bytes) ==> Has(h + e + p + s, |h| + off, bytes)
    ensures Has(p, off, bytes) ==> Has(h + e + p + s, |h| + |e| + off, bytes)
    ensures Has(s, off, bytes) ==> Has(h + e + p + s, |h| + |e| + |p| + off, bytes)
  {
    if Has(e, off, bytes) {
      HasShifted(h, e, off, bytes);
      HasAppended(h + e, p, |h| + off, bytes);
      HasAppended(h + e + p, s, |h| + off, bytes);
    }
    if Has(p, off, bytes) {
      HasShifted(h + e, p, off, bytes);
      HasAppended(h + e + p, s, |h| + |e| + off, bytes);
    }
    if Has(s, off, bytes) {
      HasShifted(h + e + p, s, off, bytes);
    }
  }

  lemma {:induction false} TotalIsOffset(bs: seq<Buffer>, layers: seq<LayerBuild>, i: nat)
    requires |bs| == |layers| && i <= |layers|
    requires forall j :: 0 <= j < |bs| ==> |bs[j]| == SectionSize(layers[j])
    ensures SectionTotal(layers, i) == Offset(bs, i)
  {
    if i > 0 {
      TotalIsOffset(bs, layers, i - 1);
      OffsetNext(bs, i - 1);
    }
  }

  lemma {:induction false} UniformOffset(bs: seq<Buffer>, w: nat, i: nat)
    requires i <= |bs| && forall j :: 0 <= j < |bs| ==> |bs[j]| == w
    ensures Offset(bs, i) == i * w
  {
    UniformLength(bs[..i], w);
  }

  lemma EntryInImage(header: Buffer, entries: seq<Buffer>, pool: Buffer, sections: seq<Buffer>, w: nat, i: nat)
    requires i < |entries| && forall j :: 0 <= j < |entries| ==> |entries[j]| == w
    ensures Has(ImageOf(header, entries, pool, sections), |header| + i * w, entries[i])
  {
    UniformOffset(entries, w, i);
    ConcatSlice(entries, i);
    ImageParts(header, Concat(entries), pool, Concat(sections), Offset(entries, i), entries[i]);
  }

  lemma PoolInImage(header: Buffer, entries: seq<Buffer>, pool: Buffer, sections: seq<Buffer>, w: nat, off: nat,
      bytes: Buffer)
    requires forall j :: 0 <= j < |entries| ==> |entries[j]| == w
    requires Has(pool, off, bytes)
    ensures Has(ImageOf(header, entries, pool, sections), |header| + |entries| * w + off, bytes)
  {
    UniformLength(entries, w);
    ImageParts(header, Concat(entries), pool, Concat(sections), off, bytes);
  }

  lemma SectionInImage(header: Buffer, entries: seq<Buffer>, pool: Buffer, sections: seq<Buffer>, w: nat, i: nat)
    requires forall j :: 0 <= j < |entries| ==> |entries[j]| == w
    requires i < |sections|
    ensures Has(ImageOf(header, entries, pool, sections), |header| + |entries| * w + |pool| + Offset(sections, i),
      sections[i])
  {
    UniformLength(entries, w);
    ConcatSlice(sections, i);
    ImageParts(header, Concat(entries), pool, Concat(sections), Offset(sections, i), sections[i]);
  }

  lemma SectionsPlaced(layers: seq<LayerBuild>, header: Buffer, entries: seq<Buffer>, pool: Buffer,
      sections: seq<Buffer>, i: nat)
    requires |header| == HEADER_SIZE && |entries| == |sections| == |layers| && |pool| == AlignTo8(|Pool(layers)|)
    requires forall j :: 0 <= j < |entries| ==> |entries[j]| == DIR_ENTRY_SIZE
    requires forall j :: 0 <= j < |sections| ==> |sections[j]| == SectionSize(layers[j])
    requires i < |layers|
    ensures Has(ImageOf(header, entries, pool, sections), SectionStart(layers, i), sections[i])
  {
    TotalIsOffset(sections, layers, i);
    SectionInImage(header, entries, pool, sections, DIR_ENTRY_SIZE, i);
  }

  lemma PadHas(b: Buffer, off: nat, bytes: Buffer)
    requires Has(b, off, bytes)
    ensures Has(Padded(b), off, bytes)
  {
    HasAppended(b, Zeros(AlignTo8(|b|) - |b|), off, bytes);
  }

  lemma NameInPool(names: seq<Buffer>, i: nat)
    requires i < |names|
    ensures Has(Padded(Concat(names)), Offset(names, i), names[i])
  {
    ConcatSlice(names, i);
    PadHas(Concat(names), Offset(names, i), names[i]);
  }

  lemma NamePlaced(header: Buffer, entries: seq<Buffer>, names: seq<Buffer>, sections: seq<Buffer>, i: nat)
    requires |header| == HEADER_SIZE && i < |names|
    requires forall j :: 0 <= j < |entries| ==> |entries[j]| == DIR_ENTRY_SIZE
    ensures Has(ImageOf(header, entries, Padded(Concat(names)), sections), PoolStart(|entries|) + Offset(names, i),
      names[i])
  {
    NameInPool(names, i);
    PoolInImage(header, entries, Padded(Concat(names)), sections, DIR_ENTRY_SIZE, Offset(names, i), names[i]);
  }

  lemma TwoParts(image: Buffer, at: nat, p: Buffer, q: Buffer)
    requires Has(image, at, p + q)
    ensures Has(image, at, p) && Has(image, at + |p|, q)
  {
    HasWhole(p);
    HasAppended(p, q, 0, p);
    HasInside(image, at, p + q, 0, p);
    HasAtEnd(p, q);
    HasInside(image, at, p + q, |p|, q);
  }

  lemma PaddedIn(image: Buffer, at: nat, b: Buffer)
    requires Has(image, at, Padded(b))
    ensures Has(image, at, b)
  {
    TwoParts(image, at, b, Zeros(AlignTo8(|b|) - |b|));
  }

  lemma ThreeParts(image: Buffer, at: nat, p: Buffer, q: Buffer, r: Buffer)
    requires Has(image, at, p + q + r)
    ensures Has(image, at, p) && Has(image, at + |p|, q) && Has(image, at + |p| + |q|, r)
  {
    TwoParts(image, at, p + q, r);
    TwoParts(image, at, p, q);
  }

  // Three padded sections found inside their concatenation.
  lemma ThreeSections(image: Buffer, at: nat, t: Buffer, b: Buffer, d: Buffer)
    requires Has(image, at, Padded(t) + Padded(b) + Padded(d))
    ensures Has(image, at, t)
    ensures Has(image, at + AlignTo8(|t|), b)
    ensures Has(image, at + AlignTo8(|t|) + AlignTo8(|b|), d)
  {
    var p, q, r := Padded(t), Padded(b), Padded(d);
    var x, y := at + AlignTo8(|t|), at + AlignTo8(|t|) + AlignTo8(|b|);
    ThreePartsAt(image, at, x, y, p, q, r);
    PaddedIn(image, at, t);
    PaddedIn(image, x, b);
    PaddedIn(image, y, d);
  }

  lemma ThreePartsAt(image: Buffer, at: nat, x: nat, y: nat, p: Buffer, q: Buffer, r: Buffer)
    requires Has(image, at, p + q + r) && x == at + |p| && y == x + |q|
    ensures Has(image, at, p) && Has(image, x, q) && Has(image, y, r)
  {
    ThreeParts(image, at, p, q, r);
  }

  lemma HasInside(buf: Buffer, at: nat, all: Buffer, off: nat, bytes: Buffer)
    requires Has(buf, at, all) && Has(all, off, bytes)
    ensures Has(buf, at + off, bytes)
  {
    HasSlice(all, off, bytes);
    HasPart(buf, at, all, off, off + |bytes|);
  }

  lemma DictSectionsReal(o: Order, image: Buffer, at: nat, l: LayerBuild)
    requires l.encoding == ENCODING_DICT && Has(image, at, SectionBytes(o, l))
    ensures Has(image, at, TermTable(o, l))
    ensures Has(image, at + AlignTo8(TermTableSize(l)), l.bitmapBytes)
    ensures Has(image, at + AlignTo8(TermTableSize(l)) + AlignTo8(|l.bitmapBytes|), l.dataBytes)
  {
    ThreeSections(image, at, TermTable(o, l), l.bitmapBytes, l.dataBytes);
  }

  lemma DenseSectionReal(o: Order, image: Buffer, at: nat, l: LayerBuild)
    requires l.encoding != ENCODING_DICT && Has(image, at, SectionBytes(o, l))
    ensures Has(image, at, l.dataBytes)
  {
    PaddedIn(image, at, l.dataBytes);
  }

  // The entry, the name and the sections of layer i stand in the buffer at the announced offsets.
  ghost predicate Stands(o: Order, buf: Buffer, layers: seq<LayerBuild>, i: nat)
    requires i < |layers|
  {
    && Has(buf, HEADER_SIZE + i * DIR_ENTRY_SIZE, EntryBytes(o, EntryFor(layers, i)))
    && Has(buf, PoolStart(|layers|) + NameOffset(layers, i), layers[i].name)
    && SectionsHeld(o, buf, layers[i], Announced(layers, i))
  }

  // The sections of the layer stand at these offsets.
  ghost predicate SectionsHeld(o: Order, buf: Buffer, l: LayerBuild, offs: (nat, nat, nat)) {
    && Has(buf, offs.2, l.dataBytes)
    && (l.encoding == ENCODING_DICT ==> Has(buf, offs.0, TermTable(o, l)) && Has(buf, offs.1, l.bitmapBytes))
  }

  lemma SectionsRealAt(o: Order, buf: Buffer, at: nat, l: LayerBuild)
    requires Has(buf, at, SectionBytes(o, l))
    ensures SectionsHeld(o, buf, l, SectionOffsets(l, at))
  {
    if l.encoding == ENCODING_DICT {
      DictSectionsReal(o, buf, at, l);
    } else {
      DenseSectionReal(o, buf, at, l);
    }
  }

  lemma LayerPlaced(layers: seq<LayerBuild>, header: Buffer, entries: seq<Buffer>, pool: Buffer, sections: seq<Buffer>,
      i: nat)
    requires |header| == HEADER_SIZE && |entries| == |sections| == |layers| && pool == Padded(Pool(layers)) &&
      i < |layers|
    requires forall j :: 0 <= j < |entries| ==> |entries[j]| == DIR_ENTRY_SIZE
    requires forall j :: 0 <= j < |sections| ==> |sections[j]| == SectionSize(layers[j])
    ensures Has(ImageOf(header, entries, pool, sections), HEADER_SIZE + i * DIR_ENTRY_SIZE, entries[i])
    ensures Has(ImageOf(header, entries, pool, sections), PoolStart(|layers|) + NameOffset(layers, i), layers[i].name)
    ensures Has(ImageOf(header, entries, pool, sections), SectionStart(layers, i), sections[i])
  {
    EntryInImage(header, entries, pool, sections, DIR_ENTRY_SIZE, i);
    NameAt(layers, |layers|, i);
    NamePlaced(header, entries, Names(layers, |layers|), sections, i);
    SectionsPlaced(layers, header, entries, pool, sections, i);
  }

  lemma LayerInImage(o: Order, layers: seq<LayerBuild>, tokenCount: nat, i: nat)
    requires i < |layers|
    ensures var buf := Image(o, layers, tokenCount);
      && Has(buf, HEADER_SIZE + i * DIR_ENTRY_SIZE, EntryBytes(o, EntryFor(layers, i)))
      && Has(buf, PoolStart(|layers|) + NameOffset(layers, i), layers[i].name)
      && Has(buf, SectionStart(layers, i), SectionBytes(o, layers[i]))
  {
    var entries, sections := Entries(o, layers, |layers|), AllSections(o, layers, |layers|);
    EntryAt(o, layers, |layers|, i);
    SectionAt(o, layers, |layers|, i);
    forall j | 0 <= j < |layers|
      ensures |sections[j]| == SectionSize(layers[j])
    {
      SectionAt(o, layers, |layers|, j);
    }
    LayerPlaced(layers, HeaderBytes(o, |layers|, tokenCount), entries, Padded(Pool(layers)), sections, i);
  }

  lemma SectionsReal(o: Order, buf: Buffer, layers: seq<LayerBuild>, i: nat)
    requires i < |layers| && Has(buf, SectionStart(layers, i), SectionBytes(o, layers[i]))
    ensures SectionsHeld(o, buf, layers[i], Announced(layers, i))
  {
    SectionsRealAt(o, buf, SectionStart(layers, i), layers[i]);
  }

  // The precomputed offsets are the real ones: everything the directory says of a layer is
  // what the file holds there.
  lemma AnnouncedIsReal(o: Order, layers: seq<LayerBuild>, tokenCount: nat, i: nat)
    requires i < |layers|
    ensures Stands(o, Image(o, layers, tokenCount), layers, i)
  {
    LayerInImage(o, layers, tokenCount, i);
    SectionsReal(o, Image(o, layers, tokenCount), layers, i);
  }

  lemma SumOfMultiples(a: nat, b: nat)
    requires a % 8 == 0 && b % 8 == 0
    ensures (a + b) % 8 == 0
  {
  }

  lemma SizeIsMultiple(layer: LayerBuild)
    ensures SectionSize(layer) % 8 == 0
  {
    var t, b, d := AlignTo8(TermTableSize(layer)), AlignTo8(|layer.bitmapBytes|), AlignTo8(|layer.dataBytes|);
    AlignIsMultiple(TermTableSize(layer));
    AlignIsMultiple(|layer.bitmapBytes|);
    AlignIsMultiple(|layer.dataBytes|);
    SumOfMultiples(t, b);
    SumOfMultiples(t + b, d);
  }

  lemma SectionsAligned(layers: seq<LayerBuild>, i: nat)
    requires i <= |layers|
    ensures SectionStart(layers, i) % 8 == 0
  {
    if i > 0 {
      SectionsAligned(layers, i - 1);
      SizeIsMultiple(layers[i - 1]);
      SumOfMultiples(SectionStart(layers, i - 1), SectionSize(layers[i - 1]));
    } else {
      var pool := |Pool(layers)|;
      AlignIsMultiple(pool);
      SumOfMultiples(PoolStart(|layers|), AlignTo8(pool));
    }
  }

  lemma {:induction false} SectionTotalGrows(layers: seq<LayerBuild>, i: nat, j: nat)
    requires i <= j <= |layers|
    ensures SectionTotal(layers, i) <= SectionTotal(layers, j)
  {
    if i < j {
      SectionTotalGrows(layers, i, j - 1);
    }
  }

  // The sections of one layer are 8-aligned and do not overlap.
  lemma SectionsOfLayer(layers: seq<LayerBuild>, i: nat)
    requires i < |layers|
    ensures Announced(layers, i).2 % 8 == 0
    ensures layers[i].encoding == ENCODING_DICT ==>
      Announced(layers, i).0 % 8 == 0 && Announced(layers, i).1 % 8 == 0
    ensures layers[i].encoding == ENCODING_DICT ==>
      && Announced(layers, i).0 + TermTableSize(layers[i]) <= Announced(layers, i).1
      && Announced(layers, i).1 + |layers[i].bitmapBytes| <= Announced(layers, i).2
  {
    var at := SectionStart(layers, i);
    var t, b := AlignTo8(TermTableSize(layers[i])), AlignTo8(|layers[i].bitmapBytes|);
    SectionsAligned(layers, i);
    AlignIsMultiple(TermTableSize(layers[i]));
    AlignIsMultiple(|layers[i].bitmapBytes|);
    SumOfMultiples(at, t);
    SumOfMultiples(at + t, b);
  }

  // Where the sections of a layer begin.
  function FirstSection(layers: seq<LayerBuild>, i: nat): nat
    requires i < |layers|
  {
    if layers[i].encoding == ENCODING_DICT then Announced(layers, i).0 else Announced(layers, i).2
  }

  lemma LayerExtent(layers: seq<LayerBuild>, i: nat)
    requires i < |layers|
    ensures FirstSection(layers, i) == SectionStart(layers, i)
    ensures Announced(layers, i).2 + |layers[i].dataBytes| <= SectionStart(layers, i + 1)
  {
  }

  lemma {:induction false} StartGrows(layers: seq<LayerBuild>, i: nat, j: nat)
    requires i <= j <= |layers|
    ensures SectionStart(layers, i) <= SectionStart(layers, j)
  {
    SectionTotalGrows(layers, i, j);
  }

  lemma DataFits(o: Order, buf: Buffer, layers: seq<LayerBuild>, i: nat)
    requires i < |layers| && Stands(o, buf, layers, i)
    ensures Announced(layers, i).2 + |layers[i].dataBytes| <= |buf|
  {
    HasFits(buf, Announced(layers, i).2, layers[i].dataBytes);
  }

  lemma LayersFollow(layers: seq<LayerBuild>, i: nat, j: nat)
    requires i < j < |layers|
    ensures SectionsStart(layers) <= FirstSection(layers, i)
    ensures Announced(layers, i).2 + |layers[i].dataBytes| <= FirstSection(layers, j)
  {
    LayerExtent(layers, i);
    LayerExtent(layers, j);
    StartGrows(layers, i + 1, j);
  }

  // Layers follow one another without overlap, after the name pool and inside the file.
  lemma LayersDisjoint(o: Order, layers: seq<LayerBuild>, tokenCount: nat, i: nat, j: nat)
    requires i < j < |layers|
    ensures SectionsStart(layers) <= FirstSection(layers, i)
    ensures Announced(layers, i).2 + |layers[i].dataBytes| <= FirstSection(layers, j)
    ensures Announced(layers, j).2 + |layers[j].dataBytes| <= |Image(o, layers, tokenCount)|
  {
    LayersFollow(layers, i, j);
    AnnouncedIsReal(o, layers, tokenCount, j);
    DataFits(o, Image(o, layers, tokenCount), layers, j);
  }
}
