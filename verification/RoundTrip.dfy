// What is written by write_mfwd is what MappedForward returns: every layer, every position.
module RoundTrip {
  import opened Core
  import opened Bytes
  import opened Layers
  import opened FlatFile
  import opened Mapped

  // One layer before encoding, with the encoding that was chosen for it.
  datatype Source = Source(name: Buffer, data: seq<Value>, numeric: bool)

  function Encoded(k: Codec, o: Order, src: Source, tokenCount: nat): LayerBuild {
    if src.numeric then DenseLayer(o, src.name, src.data, tokenCount) else DictLayer(k, o, src.name, src.data)
  }

  function Encoder(k: Codec, o: Order, tokenCount: nat): Source -> LayerBuild {
    src => Encoded(k, o, src, tokenCount)
  }

  function EncodedAll(k: Codec, o: Order, srcs: seq<Source>, tokenCount: nat): (r: seq<LayerBuild>)
    ensures |r| == |srcs|
  {
    Each(Encoder(k, o, tokenCount), srcs, |srcs|)
  }

  function Terms(src: Source): seq<Buffer> {
    Distinct(Texts(src.data, |src.data|))
  }

  // What the format can hold: fewer than 2^32 positions, names and strings valid UTF-8 and
  // below 4 GiB per table, a file below 2^64 bytes.
  ghost predicate Fits(k: Codec, o: Order, srcs: seq<Source>, tokenCount: nat) {
    && tokenCount < U32 && |srcs| < U32
    && |Image(o, EncodedAll(k, o, srcs, tokenCount), tokenCount)| < U64
    && forall i :: 0 <= i < |srcs| ==> SourceFits(k, srcs[i], tokenCount)
  }

  ghost predicate SourceFits(k: Codec, src: Source, tokenCount: nat) {
    && |src.data| <= tokenCount
    && |src.name| < U32 && k.utf8(src.name)
    && |Concat(Terms(src))| < U32
    && forall v :: v in src.data && v.Str? ==> k.utf8(v.text)
  }

  // The stored meaning of a position.
  function StrAt(src: Source, p: nat): Option<Buffer> {
    if !src.numeric && p < |src.data| && Present(src.data[p]) then Some(src.data[p].text) else None
  }

  function IntAt(src: Source, tokenCount: nat, p: nat): Option<nat> {
    if src.numeric && p < tokenCount then Some(NumberAt(src.data, p)) else None
  }

  // ---------------------------------------------------------------------------------
  // Bounds.

  lemma {:induction false} InsertCount(ts: seq<Buffer>, t: Buffer)
    requires SortedTerms(ts)
    ensures |InsertTerm(ts, t)| <= |ts| + 1
  {
    if ts != [] && t != ts[0] && !LexLess(t, ts[0]) {
      InsertCount(ts[1..], t);
    }
  }

  lemma {:induction false} DistinctCount(texts: seq<Buffer>)
    ensures |Distinct(texts)| <= |texts|
    decreases |texts|
  {
    if texts != [] {
      var n := |texts| - 1;
      DistinctCount(texts[..n]);
      InsertCount(Distinct(texts[..n]), texts[n]);
    }
  }

  lemma TermsBelow(src: Source, tokenCount: nat)
    requires |src.data| <= tokenCount < U32
    ensures |Terms(src)| < U32
  {
    DistinctCount(Texts(src.data, |src.data|));
    PositionsCounted(src.data, |src.data|);
  }

  lemma {:induction false} TextsFromData(data: seq<Value>, n: nat)
    requires n <= |data|
    ensures forall t :: t in Texts(data, n) ==> exists i :: 0 <= i < n && Present(data[i]) && data[i].text == t
  {
    if n > 0 {
      TextsFromData(data, n - 1);
    }
  }

  lemma TermsValid(k: Codec, src: Source, tokenCount: nat, i: nat)
    requires SourceFits(k, src, tokenCount) && i < |Terms(src)|
    ensures k.utf8(Terms(src)[i])
  {
    var t := Terms(src)[i];
    assert t in Terms(src);
    assert t in Texts(src.data, |src.data|);
    TextsFromData(src.data, |src.data|);
    var j :| 0 <= j < |src.data| && Present(src.data[j]) && src.data[j].text == t;
    assert src.data[j] in src.data;
  }

  // ---------------------------------------------------------------------------------
  // Reading one layer whose sections stand in the buffer.

  lemma DictReads(k: Codec, o: Order, buf: Buffer, l: MappedLayer, src: Source, tokenCount: nat, p: nat)
    requires !src.numeric && SourceFits(k, src, tokenCount) && tokenCount < U32 && p < U32
    requires l.DictEncoded? && l.bitmap == PositionSet(src.data, |src.data|) &&
      (l.isDense <==> |l.bitmap| == tokenCount)
    requires l.vocabCount == |Terms(src)| && l.idWidth == IdWidth(|Terms(src)|)
    requires Has(buf, l.vocabOffset, Concat(OffsetBytes(o, Offsets(Terms(src)), |Terms(src)| + 1)) + Concat(Terms(src)))
    requires Has(buf, l.dataOffset,
      Concat(Ids(o, Texts(src.data, |src.data|), Terms(src), l.idWidth, |Texts(src.data, |src.data|)|)))
    ensures LayerStr(k, o, buf, l, tokenCount, p) == StrAt(src, p)
  {
    var data, texts, ts := src.data, Texts(src.data, |src.data|), Terms(src);
    IndexReads(l, src, tokenCount, p);
    if p < |data| && Present(data[p]) {
      TextStored(data, p, |data|);
      TermsBelow(src, tokenCount);
      var i := |Texts(data, p)|;
      IdReadsBack(o, buf, l, texts, ts, i);
      TermsValid(k, src, tokenCount, TermId(ts, texts[i]));
      TermReadsBack(k, o, buf, l, ts, TermId(ts, texts[i]));
    }
  }

  // The index of a position, for the dense and the sparse form alike.
  lemma IndexReads(l: MappedLayer, src: Source, tokenCount: nat, p: nat)
    requires !src.numeric && |src.data| <= tokenCount < U32 && p < U32
    requires l.DictEncoded? && l.bitmap == PositionSet(src.data, |src.data|) &&
      (l.isDense <==> |l.bitmap| == tokenCount)
    ensures IndexOf(l, tokenCount, p) ==
      if p < |src.data| && Present(src.data[p]) then Some(|Texts(src.data, p)|) else None
  {
    SmallMod(p, U32);
    if l.isDense {
      if p < tokenCount {
        DenseIsIndex(src.data, p, tokenCount);
      }
    } else if p < |src.data| && Present(src.data[p]) {
      RankIsIndex(src.data, p);
    }
  }

  lemma {:induction false} NumberRecord(o: Order, data: seq<Value>, n: nat, p: nat)
    requires p < n
    ensures Numbers(o, data, n)[p] == Encode(o, NumberAt(data, p), 4)
  {
    if p < n - 1 {
      NumberRecord(o, data, n - 1, p);
    }
  }

  lemma {:induction false} NumberWidths(o: Order, data: seq<Value>, n: nat)
    ensures forall i :: 0 <= i < n ==> |Numbers(o, data, n)[i]| == 4
  {
    if n > 0 {
      NumberWidths(o, data, n - 1);
    }
  }

  lemma DenseReads(o: Order, buf: Buffer, l: MappedLayer, data: seq<Value>, p: nat)
    requires l.DenseNumeric? && p < l.dataCount
    requires Has(buf, l.dataOffset, Concat(Numbers(o, data, l.dataCount)))
    ensures LayerInt(o, buf, l, p) == Some(NumberAt(data, p))
  {
    var records := Numbers(o, data, l.dataCount);
    NumberWidths(o, data, l.dataCount);
    RecordAt(buf, l.dataOffset, records, 4, p);
    NumberRecord(o, data, l.dataCount, p);
    PowValues();
    EncodeExact(o, NumberAt(data, p), 4);
  }

  // ---------------------------------------------------------------------------------
  // Opening a whole file.

  lemma HeaderFields(o: Order, buf: Buffer, n: nat, t: nat)
    requires Has(buf, 0, HeaderBytes(o, n, t)) && n < U32 && t < U64
    ensures |buf| >= HEADER_SIZE && HeaderOk(o, buf)
    ensures LayerCountOf(o, buf) == n && TokenCountOf(o, buf) == t
  {
    HasSlice(buf, 0, HeaderBytes(o, n, t));
    HeaderSlices(o, buf, n, t);
    PowValues();
    EncodeExact(o, FORMAT_VERSION, 4);
    EncodeExact(o, BYTE_ORDER_MARK, 4);
    EncodeExact(o, n, 4);
    EncodeExact(o, t, 8);
  }

  lemma HeaderSlices(o: Order, buf: Buffer, n: nat, t: nat)
    requires |buf| >= HEADER_SIZE && buf[0..HEADER_SIZE] == HeaderBytes(o, n, t)
    ensures buf[0..4] == MAGIC && buf[4..8] == Encode(o, FORMAT_VERSION, 4)
    ensures buf[8..12] == Encode(o, BYTE_ORDER_MARK, 4)
    ensures buf[12..16] == Encode(o, n, 4) && buf[16..24] == Encode(o, t, 8)
  {
    FivePieces(buf, MAGIC, Encode(o, FORMAT_VERSION, 4), Encode(o, BYTE_ORDER_MARK, 4), Encode(o, n, 4),
      Encode(o, t, 8));
  }

  lemma FivePieces(buf: Buffer, a: Buffer, b: Buffer, c: Buffer, d: Buffer, e: Buffer)
    requires |a| == |b| == |c| == |d| == 4 && |e| == 8
    requires |buf| >= 24 && buf[0..24] == a + b + c + d + e
    ensures buf[0..4] == a && buf[4..8] == b && buf[8..12] == c && buf[12..16] == d && buf[16..24] == e
  {
    var h := a + b + c + d + e;
    SliceOfSlice(buf, 0, 24, 0, 4);
    SliceOfSlice(buf, 0, 24, 4, 8);
    SliceOfSlice(buf, 0, 24, 8, 12);
    SliceOfSlice(buf, 0, 24, 12, 16);
    SliceOfSlice(buf, 0, 24, 16, 24);
    assert h[0..4] == a && h[4..8] == b && h[8..12] == c && h[12..16] == d && h[16..24] == e;
  }

  lemma ImageHasHeader(o: Order, layers: seq<LayerBuild>, t: nat)
    ensures Has(Image(o, layers, t), 0, HeaderBytes(o, |layers|, t))
  {
    var h, e := HeaderBytes(o, |layers|, t), Concat(Entries(o, layers, |layers|));
    var p, s := Padded(Pool(layers)), Concat(AllSections(o, layers, |layers|));
    HasWhole(h);
    HasAppended(h, e, 0, h);
    HasAppended(h + e, p, 0, h);
    HasAppended(h + e + p, s, 0, h);
  }

  lemma EntryIsFit(o: Order, buf: Buffer, layers: seq<LayerBuild>, i: nat)
    requires i < |layers| && Stands(o, buf, layers, i) && |buf| < U64
    requires |layers[i].name| < U32 && layers[i].vocabCount < U32 && layers[i].dataCount < U64
    requires layers[i].encoding != ENCODING_DICT ==> layers[i].bitmapBytes == []
    ensures EntryFits(EntryFor(layers, i))
  {
    var l := layers[i];
    HasFits(buf, PoolStart(|layers|) + NameOffset(layers, i), l.name);
    HasFits(buf, Announced(layers, i).2, l.dataBytes);
    if l.encoding == ENCODING_DICT {
      HasFits(buf, Announced(layers, i).0, TermTable(o, l));
      HasFits(buf, Announced(layers, i).1, l.bitmapBytes);
    }
  }

  lemma DirEntryReads(o: Order, buf: Buffer, i: nat, bytes: Buffer, e: DirEntry)
    requires |bytes| == DIR_ENTRY_SIZE && Has(buf, HEADER_SIZE + i * DIR_ENTRY_SIZE, bytes)
    requires ParseEntry(o, bytes) == e
    ensures ReadDirEntry(o, buf, i) == Some(e)
  {
    HasSlice(buf, HEADER_SIZE + i * DIR_ENTRY_SIZE, bytes);
  }

  lemma NamedLayerReads(k: Codec, o: Order, buf: Buffer, n: nat, t: nat, i: nat, e: DirEntry, name: Buffer)
    requires ReadDirEntry(o, buf, i) == Some(e)
    requires Has(buf, PoolStart(n) + e.nameOffset, name) && e.nameLen == |name| && k.utf8(name)
    requires MapLayer(k, buf, e, t).Ok?
    ensures ReadLayer(k, o, buf, n, t, i) == Ok((name, MapLayer(k, buf, e, t).value))
  {
    HasSlice(buf, PoolStart(n) + e.nameOffset, name);
  }

  lemma LayerReadsBack(k: Codec, o: Order, buf: Buffer, n: nat, t: nat, i: nat, e: DirEntry, name: Buffer)
    requires EntryFits(e) && Has(buf, HEADER_SIZE + i * DIR_ENTRY_SIZE, EntryBytes(o, e))
    requires Has(buf, PoolStart(n) + e.nameOffset, name) && e.nameLen == |name| && k.utf8(name)
    requires MapLayer(k, buf, e, t).Ok?
    ensures ReadLayer(k, o, buf, n, t, i) == Ok((name, MapLayer(k, buf, e, t).value))
  {
    EntryRoundTrip(o, e);
    DirEntryReads(o, buf, i, EntryBytes(o, e), e);
    NamedLayerReads(k, o, buf, n, t, i, e, name);
  }

  // The layer a reader sees for source i.
  function Mirror(src: Source, place: (nat, nat, nat), t: nat): MappedLayer {
    var bitmap := PositionSet(src.data, |src.data|);
    if src.numeric then DenseNumeric(place.2, t)
    else DictEncoded(bitmap, |bitmap| == t, IdWidth(|Terms(src)|), place.0, |Terms(src)|, place.2)
  }

  lemma DictMaps(k: Codec, buf: Buffer, e: DirEntry, bitmap: set<nat>, t: nat)
    requires ValidCodec(k) && e.encoding == ENCODING_DICT && forall p :: p in bitmap ==> p < U32
    requires Has(buf, e.bitmapOffset, k.ser(bitmap)) && e.bitmapLen == |k.ser(bitmap)|
    ensures MapLayer(k, buf, e, t) ==
      Ok(DictEncoded(bitmap, |bitmap| == t, e.idWidth, e.vocabOffset, e.vocabCount, e.dataOffset))
  {
    HasSlice(buf, e.bitmapOffset, k.ser(bitmap));
  }

  lemma MirrorMaps(k: Codec, o: Order, buf: Buffer, layers: seq<LayerBuild>, i: nat, src: Source, t: nat)
    requires ValidCodec(k) && SourceFits(k, src, t) && t < U32
    requires i < |layers| && layers[i] == Encoded(k, o, src, t) && Stands(o, buf, layers, i)
    ensures MapLayer(k, buf, EntryFor(layers, i), t) == Ok(Mirror(src, Announced(layers, i), t))
  {
    if !src.numeric {
      BitsArePositions(src.data, |src.data|);
      DictMaps(k, buf, EntryFor(layers, i), PositionSet(src.data, |src.data|), t);
      TermsBelow(src, t);
      SmallMod(|Terms(src)|, U32);
    }
  }

  lemma EncodedIsFit(k: Codec, o: Order, src: Source, t: nat)
    requires SourceFits(k, src, t) && t < U32
    ensures Encoded(k, o, src, t).vocabCount < U32 && Encoded(k, o, src, t).dataCount < U64
  {
    PositionsCounted(src.data, |src.data|);
  }

  lemma StandingFits(k: Codec, o: Order, buf: Buffer, layers: seq<LayerBuild>, i: nat, src: Source, t: nat)
    requires SourceFits(k, src, t) && t < U32 && |buf| < U64
    requires i < |layers| && layers[i] == Encoded(k, o, src, t) && Stands(o, buf, layers, i)
    ensures EntryFits(EntryFor(layers, i)) && layers[i].name == src.name
  {
    EncodedIsFit(k, o, src, t);
    EntryIsFit(o, buf, layers, i);
  }

  lemma StandingName(o: Order, buf: Buffer, layers: seq<LayerBuild>, i: nat, name: Buffer, e: DirEntry)
    requires i < |layers| && Stands(o, buf, layers, i) && layers[i].name == name && e == EntryFor(layers, i)
    ensures Has(buf, HEADER_SIZE + i * DIR_ENTRY_SIZE, EntryBytes(o, e))
    ensures Has(buf, PoolStart(|layers|) + e.nameOffset, name) && e.nameLen == |name|
  {
  }

  lemma StandingReads(k: Codec, o: Order, buf: Buffer, layers: seq<LayerBuild>, i: nat, src: Source, t: nat, n: nat,
      e: DirEntry)
    requires ValidCodec(k) && SourceFits(k, src, t) && t < U32 && |buf| < U64 && n == |layers|
    requires i < n && layers[i] == Encoded(k, o, src, t) && Stands(o, buf, layers, i) && e == EntryFor(layers, i)
    ensures ReadLayer(k, o, buf, n, t, i) == Ok((src.name, Mirror(src, Announced(layers, i), t)))
  {
    StandingFits(k, o, buf, layers, i, src, t);
    MirrorMaps(k, o, buf, layers, i, src, t);
    StandingName(o, buf, layers, i, src.name, e);
    ReadsAsMapped(k, o, buf, n, t, i, e, src.name, Mirror(src, Announced(layers, i), t));
  }

  lemma ReadsAsMapped(k: Codec, o: Order, buf: Buffer, n: nat, t: nat, i: nat, e: DirEntry, name: Buffer,
      l: MappedLayer)
    requires EntryFits(e) && Has(buf, HEADER_SIZE + i * DIR_ENTRY_SIZE, EntryBytes(o, e))
    requires Has(buf, PoolStart(n) + e.nameOffset, name) && e.nameLen == |name| && k.utf8(name)
    requires MapLayer(k, buf, e, t) == Ok(l)
    ensures ReadLayer(k, o, buf, n, t, i) == Ok((name, l))
  {
    LayerReadsBack(k, o, buf, n, t, i, e, name);
  }

  // The layer of source i stands in the buffer.
  ghost predicate SourceStands(k: Codec, o: Order, buf: Buffer, layers: seq<LayerBuild>, srcs: seq<Source>, t: nat,
      i: nat)
    requires i < |layers| == |srcs|
  {
    SourceFits(k, srcs[i], t) && layers[i] == Encoded(k, o, srcs[i], t) && Stands(o, buf, layers, i)
  }

  // The buffer is a file of these sources.
  ghost predicate Written(k: Codec, o: Order, buf: Buffer, layers: seq<LayerBuild>, srcs: seq<Source>, t: nat) {
    && t < U32 && HeaderOk(o, buf) && |buf| < U64
    && LayerCountOf(o, buf) == |layers| == |srcs| && TokenCountOf(o, buf) == t
    && forall i :: 0 <= i < |srcs| ==> SourceStands(k, o, buf, layers, srcs, t, i)
  }

  lemma ImageWritten(k: Codec, o: Order, srcs: seq<Source>, t: nat)
    requires Fits(k, o, srcs, t)
    ensures Written(k, o, Image(o, EncodedAll(k, o, srcs, t), t), EncodedAll(k, o, srcs, t), srcs, t)
  {
    var layers := EncodedAll(k, o, srcs, t);
    ImageHasHeader(o, layers, t);
    HeaderFields(o, Image(o, layers, t), |layers|, t);
    forall i | 0 <= i < |srcs|
      ensures SourceStands(k, o, Image(o, layers, t), layers, srcs, t, i)
    {
      AnnouncedIsReal(o, layers, t, i);
      EachAt(Encoder(k, o, t), srcs, |srcs|, i);
    }
  }

  lemma WrittenReads(k: Codec, o: Order, buf: Buffer, layers: seq<LayerBuild>, srcs: seq<Source>, t: nat, i: nat)
    requires ValidCodec(k) && Written(k, o, buf, layers, srcs, t) && i < |srcs|
    ensures ReadLayer(k, o, buf, |layers|, t, i) == Ok((srcs[i].name, Mirror(srcs[i], Announced(layers, i), t)))
  {
    assert SourceStands(k, o, buf, layers, srcs, t, i);
    StandingReads(k, o, buf, layers, i, srcs[i], t, |layers|, EntryFor(layers, i));
  }

  // Directory entry i of a written file reads back as source i.
  lemma SourceReadsBack(k: Codec, o: Order, srcs: seq<Source>, t: nat, i: nat)
    requires ValidCodec(k) && Fits(k, o, srcs, t) && i < |srcs|
    ensures var layers := EncodedAll(k, o, srcs, t);
      ReadLayer(k, o, Image(o, layers, t), |layers|, t, i) ==
        Ok((srcs[i].name, Mirror(srcs[i], Announced(layers, i), t)))
  {
    ImageWritten(k, o, srcs, t);
    WrittenReads(k, o, Image(o, EncodedAll(k, o, srcs, t), t), EncodedAll(k, o, srcs, t), srcs, t, i);
  }

  lemma WrittenOpens(k: Codec, o: Order, buf: Buffer, layers: seq<LayerBuild>, srcs: seq<Source>, t: nat)
    requires ValidCodec(k) && Written(k, o, buf, layers, srcs, t)
    ensures AllReadable(Reader(k, o, buf), LayerCountOf(o, buf))
  {
    forall i: nat | i < |layers|
      ensures Reader(k, o, buf)(i).Ok?
    {
      WrittenReads(k, o, buf, layers, srcs, t, i);
    }
  }

  // Every written file opens, with the layers it was written from.
  lemma WrittenFileOpens(k: Codec, o: Order, srcs: seq<Source>, t: nat)
    requires ValidCodec(k) && Fits(k, o, srcs, t)
    ensures var buf := Image(o, EncodedAll(k, o, srcs, t), t);
      && HeaderOk(o, buf) && LayerCountOf(o, buf) == |srcs| && TokenCountOf(o, buf) == t
      && AllReadable(Reader(k, o, buf), LayerCountOf(o, buf))
  {
    ImageWritten(k, o, srcs, t);
    WrittenOpens(k, o, Image(o, EncodedAll(k, o, srcs, t), t), EncodedAll(k, o, srcs, t), srcs, t);
  }

  lemma MirrorReads(k: Codec, o: Order, buf: Buffer, layers: seq<LayerBuild>, i: nat, src: Source, t: nat, p: nat)
    requires SourceFits(k, src, t) && t < U32 && p < U32
    requires i < |layers| && layers[i] == Encoded(k, o, src, t) && Stands(o, buf, layers, i)
    ensures LayerStr(k, o, buf, Mirror(src, Announced(layers, i), t), t, p) == StrAt(src, p)
    ensures LayerInt(o, buf, Mirror(src, Announced(layers, i), t), p) == IntAt(src, t, p)
  {
    var l := Mirror(src, Announced(layers, i), t);
    if src.numeric {
      if p < t {
        DenseReads(o, buf, l, src.data, p);
      }
    } else {
      TermsBelow(src, t);
      SmallMod(|Terms(src)|, U32);
      DictReads(k, o, buf, l, src, t, p);
    }
  }

  // An opened file has the layers of its sources, under their names.
  lemma OpenedLayer(k: Codec, o: Order, buf: Buffer, layers: seq<LayerBuild>, srcs: seq<Source>, t: nat,
                    m: MappedForward, names: seq<Buffer>, i: nat)
    requires ValidCodec(k) && Written(k, o, buf, layers, srcs, t) && Opened(k, o, buf, m, names) && i < |srcs|
    ensures |names| == |m.layers| == |srcs|
    ensures names[i] == srcs[i].name && m.layers[i] == Mirror(srcs[i], Announced(layers, i), t)
  {
    WrittenReads(k, o, buf, layers, srcs, t, i);
    var read := Reader(k, o, buf);
    assert read(i) == Ok((names[i], m.layers[i]));
  }

  lemma OpenedLast(k: Codec, o: Order, buf: Buffer, layers: seq<LayerBuild>, srcs: seq<Source>, t: nat,
                   m: MappedForward, names: seq<Buffer>, i: nat)
    requires ValidCodec(k) && Written(k, o, buf, layers, srcs, t) && Opened(k, o, buf, m, names)
    requires i < |srcs| && forall j :: i < j < |srcs| ==> srcs[j].name != srcs[i].name
    ensures srcs[i].name in m.layerMap && m.layerMap[srcs[i].name] == i < |m.layers|
    ensures m.layers[i] == Mirror(srcs[i], Announced(layers, i), t)
  {
    OpenedLayer(k, o, buf, layers, srcs, t, m, names, i);
    assert names[i] in names;
    var at := m.layerMap[srcs[i].name];
    OpenedLayer(k, o, buf, layers, srcs, t, m, names, at);
  }

  // What lookups in a layer give.
  ghost predicate ReadsAs(k: Codec, o: Order, m: MappedForward, src: Source, t: nat, p: nat) {
    && GetInt(o, m, p, src.name) == IntAt(src, t, p)
    && GetStr(k, o, m, p, src.name) ==
         if p < U32 then StrAt(src, p) else if src.numeric || EveryTokenHas(src, t) then None else StrAt(src, p % U32)
  }

  lemma LayerRead(k: Codec, o: Order, buf: Buffer, layers: seq<LayerBuild>, srcs: seq<Source>, t: nat,
                  m: MappedForward, names: seq<Buffer>, i: nat, p: nat)
    requires ValidCodec(k) && Written(k, o, buf, layers, srcs, t) && Opened(k, o, buf, m, names)
    requires i < |srcs| && forall j :: i < j < |srcs| ==> srcs[j].name != srcs[i].name
    ensures ReadsAs(k, o, m, srcs[i], t, p)
  {
    OpenedLast(k, o, buf, layers, srcs, t, m, names, i);
    assert SourceStands(k, o, buf, layers, srcs, t, i);
    if p < U32 {
      MirrorReads(k, o, buf, layers, i, srcs[i], t, p);
    } else {
      MirrorReads(k, o, buf, layers, i, srcs[i], t, p % U32);
      MirrorFar(k, o, buf, srcs[i], Announced(layers, i), t, p);
    }
  }

  // The main round trip. A name finds the last layer written under it, and every position
  // of that layer reads as the value that was given to the writer; other names read as absent.
  lemma StoredIsRead(k: Codec, o: Order, srcs: seq<Source>, t: nat, m: MappedForward, names: seq<Buffer>, i: nat,
      p: nat)
    requires ValidCodec(k) && Fits(k, o, srcs, t)
    requires Opened(k, o, Image(o, EncodedAll(k, o, srcs, t), t), m, names)
    requires i < |srcs| && p < U32 && forall j :: i < j < |srcs| ==> srcs[j].name != srcs[i].name
    ensures GetStr(k, o, m, p, srcs[i].name) == StrAt(srcs[i], p)
    ensures GetInt(o, m, p, srcs[i].name) == IntAt(srcs[i], t, p)
  {
    StoredReads(k, o, srcs, t, m, names, i, p);
  }

  lemma StoredReads(k: Codec, o: Order, srcs: seq<Source>, t: nat, m: MappedForward, names: seq<Buffer>, i: nat, p: nat)
    requires ValidCodec(k) && Fits(k, o, srcs, t)
    requires Opened(k, o, Image(o, EncodedAll(k, o, srcs, t), t), m, names)
    requires i < |srcs| && forall j :: i < j < |srcs| ==> srcs[j].name != srcs[i].name
    ensures ReadsAs(k, o, m, srcs[i], t, p)
  {
    ImageWritten(k, o, srcs, t);
    LayerRead(k, o, Image(o, EncodedAll(k, o, srcs, t), t), EncodedAll(k, o, srcs, t), srcs, t, m, names, i, p);
  }

  // A sparse layer takes a position beyond 32 bits for its remainder, a dense one does not.
  lemma FarRead(k: Codec, o: Order, buf: Buffer, l: MappedLayer, t: nat, p: nat)
    requires l.DictEncoded? && t < U32 <= p
    ensures LayerStr(k, o, buf, l, t, p) == if l.isDense then None else LayerStr(k, o, buf, l, t, p % U32)
  {
    SmallMod(p % U32, U32);
  }

  ghost predicate EveryTokenHas(src: Source, t: nat) {
    |PositionSet(src.data, |src.data|)| == t
  }

  // For any position whatever: numbers always read right, and strings do if and only if the
  // position has 32 bits, or every token has a string, or the remainder has none.
  lemma ReadRightIff(k: Codec, o: Order, srcs: seq<Source>, t: nat, m: MappedForward, names: seq<Buffer>, i: nat,
      p: nat)
    requires ValidCodec(k) && Fits(k, o, srcs, t)
    requires Opened(k, o, Image(o, EncodedAll(k, o, srcs, t), t), m, names)
    requires i < |srcs| && forall j :: i < j < |srcs| ==> srcs[j].name != srcs[i].name
    ensures GetInt(o, m, p, srcs[i].name) == IntAt(srcs[i], t, p)
    ensures GetStr(k, o, m, p, srcs[i].name) == StrAt(srcs[i], p) <==>
      p < U32 || srcs[i].numeric || EveryTokenHas(srcs[i], t) || StrAt(srcs[i], p % U32).None?
  {
    StoredReads(k, o, srcs, t, m, names, i, p);
    assert SourceFits(k, srcs[i], t);
    if U32 <= p {
      PastTheEnd(k, srcs[i], t, p);
    }
  }

  lemma PastTheEnd(k: Codec, src: Source, t: nat, p: nat)
    requires SourceFits(k, src, t) && t < U32 <= p
    ensures StrAt(src, p).None?
  {
  }

  lemma MirrorFar(k: Codec, o: Order, buf: Buffer, src: Source, place: (nat, nat, nat), t: nat, p: nat)
    requires SourceFits(k, src, t) && t < U32 <= p
    ensures LayerInt(o, buf, Mirror(src, place, t), p) == IntAt(src, t, p) && StrAt(src, p).None?
    ensures LayerStr(k, o, buf, Mirror(src, place, t), t, p) ==
      if src.numeric || EveryTokenHas(src, t) then None else LayerStr(k, o, buf, Mirror(src, place, t), t, p % U32)
  {
    if !src.numeric {
      FarRead(k, o, buf, Mirror(src, place, t), t, p);
    }
  }

  // Two tokens, the first with the string "a", the second without one.
  function SparseSource(): Source {
    Source([119], [Str([97]), Str([])], false)
  }

  lemma SparseReads()
    ensures StrAt(SparseSource(), 0) == Some([97]) && !EveryTokenHas(SparseSource(), 2) && !SparseSource().numeric
  {
    assert forall q: nat :: q in PositionSet(SparseSource().data, 2) <==> q == 0;
    assert PositionSet(SparseSource().data, 2) == {0};
  }

  lemma FarIsAlias(k: Codec, o: Order, m: MappedForward, src: Source, p: nat)
    requires src == SparseSource() && p == U32 && ReadsAs(k, o, m, src, 2, p)
    ensures GetStr(k, o, m, p, src.name) == Some([97]) && StrAt(src, p).None?
  {
    SparseReads();
    assert p % U32 == 0;
  }

  // In a file of that layer, a position 2^32 beyond the first token reads as the first token.
  lemma AliasRead(k: Codec, o: Order, srcs: seq<Source>, m: MappedForward, names: seq<Buffer>)
    requires srcs == [SparseSource()] && ValidCodec(k) && Fits(k, o, srcs, 2)
    requires Opened(k, o, Image(o, EncodedAll(k, o, srcs, 2), 2), m, names)
    ensures GetStr(k, o, m, U32, srcs[0].name) == Some([97]) && StrAt(srcs[0], U32).None?
  {
    StoredReads(k, o, srcs, 2, m, names, 0, U32);
    FarIsAlias(k, o, m, srcs[0], U32);
  }

  lemma UnknownIn(k: Codec, o: Order, buf: Buffer, layers: seq<LayerBuild>, srcs: seq<Source>, t: nat,
                  m: MappedForward, names: seq<Buffer>, x: Buffer)
    requires ValidCodec(k) && Written(k, o, buf, layers, srcs, t) && Opened(k, o, buf, m, names)
    requires forall j :: 0 <= j < |srcs| ==> srcs[j].name != x
    ensures x !in m.layerMap
  {
    if x in m.layerMap {
      OpenedLayer(k, o, buf, layers, srcs, t, m, names, m.layerMap[x]);
    }
  }

  lemma UnknownIsAbsent(k: Codec, o: Order, srcs: seq<Source>, t: nat, m: MappedForward, names: seq<Buffer>, x: Buffer,
      p: nat)
    requires ValidCodec(k) && Fits(k, o, srcs, t)
    requires Opened(k, o, Image(o, EncodedAll(k, o, srcs, t), t), m, names)
    requires forall j :: 0 <= j < |srcs| ==> srcs[j].name != x
    ensures GetStr(k, o, m, p, x) == None && GetInt(o, m, p, x) == None
  {
    ImageWritten(k, o, srcs, t);
    UnknownIn(k, o, Image(o, EncodedAll(k, o, srcs, t), t), EncodedAll(k, o, srcs, t), srcs, t, m, names, x);
  }

  // An integer survives exactly when it is an unsigned 32-bit value.
  lemma IntegerSurvives(src: Source, t: nat, p: nat)
    requires src.numeric && p < t && p < |src.data| && src.data[p].Num?
    ensures IntAt(src, t, p) == Some(src.data[p].n % U32)
    ensures (IntAt(src, t, p).value == src.data[p].n) <==> 0 <= src.data[p].n < U32
  {
    if 0 <= src.data[p].n < U32 {
      SmallMod(src.data[p].n, U32);
    }
  }

  // A file written in one byte order is refused by a reader of the other.
  lemma OtherOrderRefused(srcs: seq<LayerBuild>, t: nat)
    ensures !HeaderOk(Little, Image(Big, srcs, t)) && !HeaderOk(Big, Image(Little, srcs, t))
  {
    SwappedMark(Little, Big, srcs, t);
    SwappedMark(Big, Little, srcs, t);
  }

  lemma SwappedMark(o: Order, other: Order, layers: seq<LayerBuild>, t: nat)
    requires o != other
    ensures !HeaderOk(o, Image(other, layers, t))
  {
    ImageHasHeader(other, layers, t);
    SwappedHeader(o, other, Image(other, layers, t), |layers|, t);
  }

  lemma SwappedHeader(o: Order, other: Order, buf: Buffer, n: nat, t: nat)
    requires o != other && Has(buf, 0, HeaderBytes(other, n, t))
    ensures !HeaderOk(o, buf)
  {
    HasSlice(buf, 0, HeaderBytes(other, n, t));
    HeaderSlices(other, buf, n, t);
    SwappedVersion(o, other);
  }

  lemma SwappedVersion(o: Order, other: Order)
    requires o != other
    ensures Decode(o, Encode(other, FORMAT_VERSION, 4)) != FORMAT_VERSION
  {
    VersionBytes();
    ReverseTwice(LowBytes(FORMAT_VERSION, 4));
  }

  lemma VersionBytes()
    ensures FromLow(LowBytes(FORMAT_VERSION, 4)) == 1
    ensures FromLow(Reverse(LowBytes(FORMAT_VERSION, 4))) != 1
  {
    LowRoundTrip(1, 4);
    PowValues();
    var b := LowBytes(FORMAT_VERSION, 4);
    assert b[0] == 1 && b[1..] == LowBytes(0, 3);
    assert LowBytes(0, 3)[2] == 0 by {
      assert LowBytes(0, 3)[1..] == LowBytes(0, 2);
      assert LowBytes(0, 2)[1..] == LowBytes(0, 1);
    }
    var r := Reverse(b);
    assert r[0] == b[3] == 0;
    assert FromLow(r) == r[0] + 256 * FromLow(r[1..]);
  }
}
