// crates/montre-index/src/forward_flat.rs: MappedForward. Opening a file and looking up
// values by position and layer name.
module Mapped {
  import opened Core
  import opened Bytes
  import opened Layers
  import opened FlatFile

  datatype MappedLayer =
    | DictEncoded(bitmap: set<nat>, isDense: bool, idWidth: Byte, vocabOffset: nat, vocabCount: nat, dataOffset: nat)
    | DenseNumeric(dataOffset: nat, dataCount: nat)

  datatype MappedForward = MappedForward(buf: Buffer, tokenCount: nat, layerMap: map<Buffer, nat>,
    layers: seq<MappedLayer>)

  // A slice of the mapped file; None where the original would be out of bounds.
  function Slice(buf: Buffer, lo: nat, hi: nat): Option<Buffer> {
    if lo <= hi <= |buf| then Some(buf[lo..hi]) else None
  }

  function ReadDirEntry(o: Order, buf: Buffer, i: nat): Option<DirEntry> {
    var start := HEADER_SIZE + i * DIR_ENTRY_SIZE;
    if start + DIR_ENTRY_SIZE <= |buf| then Some(ParseEntry(o, buf[start..start + DIR_ENTRY_SIZE])) else None
  }

  function MapLayer(k: Codec, buf: Buffer, e: DirEntry, tokenCount: nat): Result<MappedLayer> {
    if e.encoding == ENCODING_DICT then
      var raw := Slice(buf, e.bitmapOffset, e.bitmapOffset + e.bitmapLen);
      if raw.None? then Err
      else
        var bitmap := k.de(raw.value);
        if bitmap.None? then Err
        else Ok(DictEncoded(bitmap.value, |bitmap.value| == tokenCount, e.idWidth,
          e.vocabOffset, e.vocabCount, e.dataOffset))
    else if e.encoding == ENCODING_DENSE_NUMERIC then Ok(DenseNumeric(e.dataOffset, e.dataCount))
    else Err
  }

  function NameOf(k: Codec, buf: Buffer, layerCount: nat, e: DirEntry): Option<Buffer> {
    var start := PoolStart(layerCount) + e.nameOffset;
    var name := Slice(buf, start, start + e.nameLen);
    if name.None? || !k.utf8(name.value) then None else name
  }

  // Name and layer of directory entry i.
  function ReadLayer(k: Codec, o: Order, buf: Buffer, layerCount: nat, tokenCount: nat, i: nat):
      Result<(Buffer, MappedLayer)>
  {
    var entry := ReadDirEntry(o, buf, i);
    if entry.None? then Err
    else
      var name := NameOf(k, buf, layerCount, entry.value);
      if name.None? then Err
      else
        var layer := MapLayer(k, buf, entry.value, tokenCount);
        if layer.Err? then Err else Ok((name.value, layer.value))
  }

  predicate HeaderOk(o: Order, buf: Buffer) {
    && |buf| >= HEADER_SIZE
    && buf[0..4] == MAGIC
    && Decode(o, buf[4..8]) == FORMAT_VERSION
    && Decode(o, buf[8..12]) == BYTE_ORDER_MARK
  }

  // The map sends each name to the last layer that carries it.
  ghost predicate LastIndex(m: map<Buffer, nat>, names: seq<Buffer>) {
    && (forall x :: x in m <==> x in names)
    && (forall x :: x in m ==> m[x] < |names| && names[m[x]] == x)
    && (forall x, j :: x in m && m[x] < j < |names| ==> names[j] != x)
  }

  function LayerCountOf(o: Order, buf: Buffer): nat
    requires |buf| >= HEADER_SIZE
  {
    Decode(o, buf[12..16])
  }

  function TokenCountOf(o: Order, buf: Buffer): nat
    requires |buf| >= HEADER_SIZE
  {
    Decode(o, buf[16..24])
  }

  type LayerReader = nat -> Result<(Buffer, MappedLayer)>

  ghost predicate AllReadable(read: LayerReader, layerCount: nat) {
    forall i :: 0 <= i < layerCount ==> read(i).Ok?
  }

  ghost predicate FirstUnreadable(read: LayerReader, layerCount: nat, i: nat) {
    i < layerCount && read(i).Err? && forall j :: 0 <= j < i ==> read(j).Ok?
  }

  // The names and layers of the first directory entries.
  ghost predicate LayersRead(read: LayerReader, names: seq<Buffer>, layers: seq<MappedLayer>) {
    && |layers| == |names|
    && forall i :: 0 <= i < |names| ==> read(i) == Ok((names[i], layers[i]))
  }

  lemma LastIndexNext(m: map<Buffer, nat>, names: seq<Buffer>, name: Buffer)
    requires LastIndex(m, names)
    ensures LastIndex(m[name := |names|], names + [name])
  {
  }

  // The directory loop of open, for any way of reading one entry.
  method ReadAllLayers(read: LayerReader, layerCount: nat)
    returns (r: Result<(map<Buffer, nat>, seq<MappedLayer>)>, failed: nat, ghost names: seq<Buffer>)
    ensures r.Ok? <==> AllReadable(read, layerCount)
    ensures r.Err? ==> FirstUnreadable(read, layerCount, failed)
    ensures r.Ok? ==> |names| == layerCount && LastIndex(r.value.0, names) && LayersRead(read, names, r.value.1)
  {
    names, failed := [], 0;
    var layers: seq<MappedLayer> := [];
    var layerMap: map<Buffer, nat> := map[];
    for i := 0 to layerCount
      invariant |names| == i && LastIndex(layerMap, names)
      invariant LayersRead(read, names, layers)
    {
      var entry := read(i);
      if entry.Err? {
        return Err, i, names;
      }
      LastIndexNext(layerMap, names, entry.value.0);
      layerMap := layerMap[entry.value.0 := i];
      layers := layers + [entry.value.1];
      names := names + [entry.value.0];
    }
    r := Ok((layerMap, layers));
  }

  function Reader(k: Codec, o: Order, buf: Buffer): (r: LayerReader)
    requires |buf| >= HEADER_SIZE
  {
    var n, t := LayerCountOf(o, buf), TokenCountOf(o, buf);
    i => ReadLayer(k, o, buf, n, t, i)
  }

  // What a successful open delivers.
  ghost predicate Opened(k: Codec, o: Order, buf: Buffer, m: MappedForward, names: seq<Buffer>) {
    && |buf| >= HEADER_SIZE
    && m.buf == buf && m.tokenCount == TokenCountOf(o, buf)
    && |names| == LayerCountOf(o, buf) && LastIndex(m.layerMap, names)
    && LayersRead(Reader(k, o, buf), names, m.layers)
  }

  // The bitmap that entry i announces goes beyond the file.
  predicate BitmapOutside(k: Codec, o: Order, buf: Buffer, i: nat)
    requires |buf| >= HEADER_SIZE
  {
    var entry := ReadDirEntry(o, buf, i);
    entry.Some? && entry.value.encoding == ENCODING_DICT && NameOf(k, buf, LayerCountOf(o, buf), entry.value).Some?
    && Slice(buf, entry.value.bitmapOffset, entry.value.bitmapOffset + entry.value.bitmapLen).None?
  }

  // The program stops instead of returning an error.
  ghost predicate Stops(k: Codec, o: Order, buf: Buffer) {
    HeaderOk(o, buf) && exists i ::
      FirstUnreadable(Reader(k, o, buf), LayerCountOf(o, buf), i) && BitmapOutside(k, o, buf, i)
  }

  lemma OneFirst(read: LayerReader, layerCount: nat, i: nat, j: nat)
    requires FirstUnreadable(read, layerCount, i) && FirstUnreadable(read, layerCount, j)
    ensures i == j
  {
    assert !(i < j) && !(j < i);
  }

  // A file opens, is refused with an error, or stops the program.
  method Open(k: Codec, o: Order, buf: Buffer)
    returns (r: Result<MappedForward>, stopped: bool, ghost names: seq<Buffer>)
    ensures r.Ok? <==> (HeaderOk(o, buf) && AllReadable(Reader(k, o, buf), LayerCountOf(o, buf)))
    ensures r.Ok? ==> Opened(k, o, buf, r.value, names)
    ensures stopped <==> Stops(k, o, buf)
    ensures stopped ==> r.Err?
  {
    names, stopped := [], false;
    if |buf| < HEADER_SIZE || buf[0..4] != MAGIC || Decode(o, buf[4..8]) != FORMAT_VERSION
       || Decode(o, buf[8..12]) != BYTE_ORDER_MARK {
      return Err, false, names;
    }
    var layerCount := LayerCountOf(o, buf);
    var tokenCount := TokenCountOf(o, buf);
    ghost var reader := Reader(k, o, buf);
    var read, failed;
    read, failed, names := ReadAllLayers(Reader(k, o, buf), layerCount);
    if read.Err? {
      stopped := BitmapOutside(k, o, buf, failed);
      forall i | FirstUnreadable(reader, layerCount, i)
        ensures i == failed
      {
        OneFirst(reader, layerCount, i, failed);
      }
      return Err, stopped, names;
    }
    r := Ok(MappedForward(buf, tokenCount, read.value.0, read.value.1));
  }

  // ---------------------------------------------------------------------------------
  // Lookup.

  function TermStr(k: Codec, o: Order, buf: Buffer, l: MappedLayer, id: nat): Option<Buffer>
    requires l.DictEncoded?
  {
    if id >= l.vocabCount then None
    else
      var stringsStart := l.vocabOffset + (l.vocabCount + 1) * 4;
      var at := l.vocabOffset + id * 4;
      var a, b := Slice(buf, at, at + 4), Slice(buf, at + 4, at + 8);
      if a.None? || b.None? then None
      else
        var s := Slice(buf, stringsStart + Decode(o, a.value), stringsStart + Decode(o, b.value));
        if s.Some? && k.utf8(s.value) then s else None
  }

  function ReadTermId(o: Order, buf: Buffer, l: MappedLayer, idx: nat): Option<nat>
    requires l.DictEncoded?
  {
    var pos := l.dataOffset + idx * l.idWidth;
    if l.idWidth == 1 then if pos < |buf| then Some(buf[pos]) else None
    else if l.idWidth == 2 || l.idWidth == 4 then
      var b := Slice(buf, pos, pos + l.idWidth);
      if b.None? then None else Some(Decode(o, b.value))
    else None
  }

  function Rank(bitmap: set<nat>, p: nat): nat {
    |set q | q in bitmap && q <= p|
  }

  // Which stored id belongs to a position: the position itself when every token has one,
  // otherwise its rank in the bitmap, with positions cast to 32 bits.
  function IndexOf(l: MappedLayer, tokenCount: nat, position: nat): Option<int>
    requires l.DictEncoded?
  {
    if l.isDense then
      if position >= tokenCount then None else Some(position)
    else if position % U32 !in l.bitmap then None
    else Some(Rank(l.bitmap, position % U32) - 1)
  }

  function LayerStr(k: Codec, o: Order, buf: Buffer, l: MappedLayer, tokenCount: nat, position: nat): Option<Buffer> {
    if l.DenseNumeric? then None
    else
      var idx := IndexOf(l, tokenCount, position);
      if idx.None? || idx.value < 0 then None
      else
        var id := ReadTermId(o, buf, l, idx.value);
        if id.None? then None else TermStr(k, o, buf, l, id.value)
  }

  function LayerInt(o: Order, buf: Buffer, l: MappedLayer, position: nat): Option<nat> {
    if l.DictEncoded? || position >= l.dataCount then None
    else
      var b := Slice(buf, l.dataOffset + position * 4, l.dataOffset + position * 4 + 4);
      if b.None? then None else Some(Decode(o, b.value))
  }

  function GetStr(k: Codec, o: Order, m: MappedForward, position: nat, layer: Buffer): Option<Buffer> {
    if layer !in m.layerMap || m.layerMap[layer] >= |m.layers| then None
    else LayerStr(k, o, m.buf, m.layers[m.layerMap[layer]], m.tokenCount, position)
  }

  function GetInt(o: Order, m: MappedForward, position: nat, layer: Buffer): Option<nat> {
    if layer !in m.layerMap || m.layerMap[layer] >= |m.layers| then None
    else LayerInt(o, m.buf, m.layers[m.layerMap[layer]], position)
  }

  // ---------------------------------------------------------------------------------
  // Rank and index agree with the order in which values were stored.

  lemma {:induction false} PositionsCounted(data: seq<Value>, k: nat)
    requires k <= |data|
    ensures |PositionSet(data, k)| == |Texts(data, k)| <= k
  {
    if k > 0 {
      PositionsCounted(data, k - 1);
    }
  }

  lemma {:induction false} TextsGrow(data: seq<Value>, p: nat, k: nat)
    requires p <= k <= |data|
    ensures |Texts(data, p)| <= |Texts(data, k)| <= |Texts(data, p)| + (k - p)
    decreases k
  {
    if p < k {
      TextsGrow(data, p, k - 1);
    }
  }

  // The string of a present position is stored at index |Texts(data, p)|.
  lemma {:induction false} TextStored(data: seq<Value>, p: nat, k: nat)
    requires p < k <= |data| && Present(data[p])
    ensures |Texts(data, p)| < |Texts(data, k)| && Texts(data, k)[|Texts(data, p)|] == data[p].text
    decreases k
  {
    if p < k - 1 {
      TextStored(data, p, k - 1);
    }
  }

  lemma BelowIsPrefix(data: seq<Value>, p: nat)
    requires p < |data|
    ensures (set q | q in PositionSet(data, |data|) && q <= p) == PositionSet(data, p + 1)
  {
  }

  lemma RankIsIndex(data: seq<Value>, p: nat)
    requires p < |data| && Present(data[p])
    ensures Rank(PositionSet(data, |data|), p) == |Texts(data, p)| + 1
  {
    BelowIsPrefix(data, p);
    PositionsCounted(data, p + 1);
  }

  lemma DenseIsIndex(data: seq<Value>, p: nat, tokenCount: nat)
    requires |data| <= tokenCount && |PositionSet(data, |data|)| == tokenCount && p < tokenCount
    ensures |data| == tokenCount && |Texts(data, p)| == p && Present(data[p])
  {
    PositionsCounted(data, |data|);
    PositionsCounted(data, p);
    TextsGrow(data, p, |data|);
    TextsGrow(data, p + 1, |data|);
    PositionsCounted(data, p + 1);
  }

  // ---------------------------------------------------------------------------------
  // Reading back ids and terms.

  lemma IdsNext(o: Order, texts: seq<Buffer>, ts: seq<Buffer>, w: nat, n: nat)
    requires 0 < n <= |texts| && forall x :: x in texts ==> x in ts
    ensures Ids(o, texts, ts, w, n) == Ids(o, texts, ts, w, n - 1) + [Encode(o, TermId(ts, texts[n - 1]), w)]
  {
  }

  lemma SnocAt(all: seq<Buffer>, before: seq<Buffer>, last: Buffer, i: nat)
    requires all == before + [last] && i <= |before|
    ensures all[i] == if i < |before| then before[i] else last
  {
  }

  lemma {:induction false} IdAt(o: Order, texts: seq<Buffer>, ts: seq<Buffer>, w: nat, n: nat, i: nat)
    requires i < n <= |texts| && forall x :: x in texts ==> x in ts
    ensures Ids(o, texts, ts, w, n)[i] == Encode(o, TermId(ts, texts[i]), w)
  {
    IdsNext(o, texts, ts, w, n);
    SnocAt(Ids(o, texts, ts, w, n), Ids(o, texts, ts, w, n - 1), Encode(o, TermId(ts, texts[n - 1]), w), i);
    if i < n - 1 {
      IdAt(o, texts, ts, w, n - 1, i);
    }
  }

  lemma {:induction false} IdWidths(o: Order, texts: seq<Buffer>, ts: seq<Buffer>, w: nat, n: nat)
    requires n <= |texts| && forall x :: x in texts ==> x in ts
    ensures forall i :: 0 <= i < n ==> |Ids(o, texts, ts, w, n)[i]| == w
  {
    if n > 0 {
      IdWidths(o, texts, ts, w, n - 1);
    }
  }

  // Element i of w-byte records that start at `at`.
  lemma RecordAt(buf: Buffer, at: nat, bs: seq<Buffer>, w: nat, i: nat)
    requires Has(buf, at, Concat(bs)) && i < |bs| && forall j :: 0 <= j < |bs| ==> |bs[j]| == w
    ensures Has(buf, at + i * w, bs[i])
    ensures at + i * w + w <= |buf| && buf[at + i * w..at + i * w + w] == bs[i]
  {
    UniformOffset(bs, w, i);
    ConcatSlice(bs, i);
    HasInside(buf, at, Concat(bs), i * w, bs[i]);
    HasSlice(buf, at + i * w, bs[i]);
  }

  lemma WidthSuffices(vocab: nat)
    requires vocab < U32
    ensures vocab <= Pow256(IdWidth(vocab))
  {
    PowValues();
  }

  lemma OneByte(o: Order, b: Buffer)
    requires |b| == 1
    ensures Decode(o, b) == b[0]
  {
    assert b[1..] == [];
    assert FromLow(b) == b[0];
    assert Reverse(b) == b;
  }

  lemma RecordDecodes(o: Order, buf: Buffer, l: MappedLayer, i: nat, id: nat)
    requires l.DictEncoded? && (l.idWidth == 1 || l.idWidth == 2 || l.idWidth == 4) && id < Pow256(l.idWidth)
    requires l.dataOffset + i * l.idWidth + l.idWidth <= |buf|
    requires buf[l.dataOffset + i * l.idWidth..l.dataOffset + i * l.idWidth + l.idWidth] == Encode(o, id, l.idWidth)
    ensures ReadTermId(o, buf, l, i) == Some(id)
  {
    var pos := l.dataOffset + i * l.idWidth;
    EncodeExact(o, id, l.idWidth);
    if l.idWidth == 1 {
      OneByte(o, buf[pos..pos + 1]);
    }
  }

  // The id stored at an index is the id of the string stored there.
  lemma IdReadsBack(o: Order, buf: Buffer, l: MappedLayer, texts: seq<Buffer>, ts: seq<Buffer>, i: nat)
    requires l.DictEncoded? && |ts| < U32 && i < |texts| && forall x :: x in texts ==> x in ts
    requires l.idWidth == IdWidth(|ts|)
    requires Has(buf, l.dataOffset, Concat(Ids(o, texts, ts, l.idWidth, |texts|)))
    ensures ReadTermId(o, buf, l, i) == Some(TermId(ts, texts[i]))
  {
    var ids := Ids(o, texts, ts, l.idWidth, |texts|);
    IdWidths(o, texts, ts, l.idWidth, |texts|);
    RecordAt(buf, l.dataOffset, ids, l.idWidth, i);
    IdAt(o, texts, ts, l.idWidth, |texts|, i);
    WidthSuffices(|ts|);
    RecordDecodes(o, buf, l, i, TermId(ts, texts[i]));
  }

  lemma {:induction false} OffsetAt(o: Order, offsets: seq<nat>, n: nat, i: nat)
    requires i < n <= |offsets|
    ensures OffsetBytes(o, offsets, n)[i] == Encode(o, offsets[i], 4)
  {
    if i < n - 1 {
      OffsetAt(o, offsets, n - 1, i);
    }
  }

  lemma OffsetWithin(bs: seq<Buffer>, i: nat)
    requires i <= |bs|
    ensures Offset(bs, i) <= |Concat(bs)|
    decreases |bs| - i
  {
    if i < |bs| {
      OffsetNext(bs, i);
      OffsetWithin(bs, i + 1);
    } else {
      assert bs[..i] == bs;
    }
  }

  // Offset i of the term table reads back exactly while the strings stay below 4 GiB.
  lemma OffsetReadsBack(o: Order, buf: Buffer, at: nat, ts: seq<Buffer>, i: nat)
    requires i <= |ts| && |Concat(ts)| < U32
    requires Has(buf, at, Concat(OffsetBytes(o, Offsets(ts), |ts| + 1)))
    ensures at + i * 4 + 4 <= |buf| && Decode(o, buf[at + i * 4..at + i * 4 + 4]) == Offset(ts, i)
  {
    var offs := OffsetBytes(o, Offsets(ts), |ts| + 1);
    RecordAt(buf, at, offs, 4, i);
    OffsetAt(o, Offsets(ts), |ts| + 1, i);
    OffsetWithin(ts, i);
    PowValues();
    EncodeExact(o, Offset(ts, i), 4);
    SmallMod(Offset(ts, i), U32);
  }

  lemma StringAt(buf: Buffer, strings: nat, ts: seq<Buffer>, i: nat)
    requires i < |ts| && Has(buf, strings, Concat(ts))
    ensures strings + Offset(ts, i + 1) <= |buf| && Offset(ts, i) <= Offset(ts, i + 1)
    ensures buf[strings + Offset(ts, i)..strings + Offset(ts, i + 1)] == ts[i]
  {
    OffsetNext(ts, i);
    ConcatSlice(ts, i);
    PartAt(buf, strings, Concat(ts), Offset(ts, i), ts[i]);
  }

  lemma PartAt(buf: Buffer, at: nat, all: Buffer, off: nat, part: Buffer)
    requires Has(buf, at, all) && Has(all, off, part)
    ensures at + off + |part| <= |buf| && buf[at + off..at + (off + |part|)] == part
  {
    HasInside(buf, at, all, off, part);
    HasSlice(buf, at + off, part);
  }

  // The term table returns term i for id i.
  lemma TermReadsBack(k: Codec, o: Order, buf: Buffer, l: MappedLayer, ts: seq<Buffer>, i: nat)
    requires l.DictEncoded? && l.vocabCount == |ts| && i < |ts| && |Concat(ts)| < U32 && k.utf8(ts[i])
    requires Has(buf, l.vocabOffset, Concat(OffsetBytes(o, Offsets(ts), |ts| + 1)) + Concat(ts))
    ensures TermStr(k, o, buf, l, i) == Some(ts[i])
  {
    var offs := OffsetBytes(o, Offsets(ts), |ts| + 1);
    UniformLength(offs, 4);
    TwoParts(buf, l.vocabOffset, Concat(offs), Concat(ts));
    OffsetReadsBack(o, buf, l.vocabOffset, ts, i);
    OffsetReadsBack(o, buf, l.vocabOffset, ts, i + 1);
    StringAt(buf, l.vocabOffset + (|ts| + 1) * 4, ts, i);
    TermFound(k, o, buf, l, i, Offset(ts, i), Offset(ts, i + 1), ts[i]);
  }

  lemma TermFound(k: Codec, o: Order, buf: Buffer, l: MappedLayer, i: nat, a: nat, b: nat, t: Buffer)
    requires l.DictEncoded? && i < l.vocabCount && k.utf8(t) && a <= b
    requires l.vocabOffset + i * 4 + 8 <= |buf| && l.vocabOffset + (l.vocabCount + 1) * 4 + b <= |buf|
    requires Decode(o, buf[l.vocabOffset + i * 4..l.vocabOffset + i * 4 + 4]) == a
    requires Decode(o, buf[l.vocabOffset + i * 4 + 4..l.vocabOffset + i * 4 + 8]) == b
    requires buf[l.vocabOffset + (l.vocabCount + 1) * 4 + a..l.vocabOffset + (l.vocabCount + 1) * 4 + b] == t
    ensures TermStr(k, o, buf, l, i) == Some(t)
  {
  }
}
