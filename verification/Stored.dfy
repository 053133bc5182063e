// From documents to files and back: a built index, its forward values written directly or
// streamed file by file, opened and looked up (crates/montre-build/src/builder.rs,
// streaming_forward.rs and crates/montre-index/src/forward_flat.rs together).
module Stored {
  import opened Core
  import opened Bytes
  import opened Layers
  import opened Mapped
  import opened RoundTrip
  import opened Streaming
  import F = Forward
  import S = Sink
  import SinkFacts
  import SinkLayers
  import Inverse

  // What a token leaves in a layer: the last value it gives.
  function LastOf(vs: seq<Value>): Value {
    if vs == [] then F.BLANK else vs[|vs| - 1]
  }

  function CellOf(d: bool, ts: seq<S.Token>, l: Buffer, p: nat): Value {
    if p < |ts| then LastOf(SinkLayers.TokenValues(ts[p], d, l)) else F.BLANK
  }

  // What a lookup must return: a text unless it is empty.
  function TextOf(v: Value): Option<Buffer> {
    if Present(v) then Some(v.text) else None
  }

  // Layer l of the columns holds what the tokens leave there.
  ghost predicate Stores(c: F.Columns, d: bool, ts: seq<S.Token>, l: Buffer) {
    forall p: nat :: F.ValueAt(c, l, p) == CellOf(d, ts, l, p)
  }

  ghost predicate GivenEach(vs: seq<seq<Value>>, d: bool, ts: seq<S.Token>, l: Buffer) {
    |vs| == |ts| && forall p :: 0 <= p < |ts| ==> vs[p] == SinkLayers.TokenValues(ts[p], d, l)
  }

  lemma CellValue(s: S.Index, l: Buffer, p: nat)
    requires s.forward.Some?
    ensures F.ValueAt(F.ColumnsOf(s.forward.value), l, p) ==
      if SinkLayers.Cell(s, l, p).Some? then SinkLayers.Cell(s, l, p).value else F.BLANK
  {
  }

  lemma RecordedCell(s: S.Index, vs: seq<seq<Value>>, l: Buffer, p: nat)
    requires SinkLayers.Records(s, vs, l)
    ensures F.ValueAt(F.ColumnsOf(s.forward.value), l, p) == if p < |vs| then LastOf(vs[p]) else F.BLANK
  {
    SinkLayers.CellOf(s, vs, l, p);
    CellValue(s, l, p);
  }

  lemma RecordCell(s: S.Index, d: bool, ts: seq<S.Token>, vs: seq<seq<Value>>, l: Buffer, p: nat)
    requires SinkLayers.Records(s, vs, l) && GivenEach(vs, d, ts, l)
    ensures F.ValueAt(F.ColumnsOf(s.forward.value), l, p) == CellOf(d, ts, l, p)
  {
    RecordedCell(s, vs, l, p);
  }

  lemma RecordsStore(s: S.Index, d: bool, ts: seq<S.Token>, vs: seq<seq<Value>>, l: Buffer)
    requires SinkLayers.Records(s, vs, l) && GivenEach(vs, d, ts, l)
    ensures Stores(F.ColumnsOf(s.forward.value), d, ts, l)
  {
    forall p: nat
      ensures F.ValueAt(F.ColumnsOf(s.forward.value), l, p) == CellOf(d, ts, l, p)
    {
      RecordCell(s, d, ts, vs, l, p);
    }
  }

  lemma StoredText(c: F.Columns, d: bool, ts: seq<S.Token>, l: Buffer, p: nat)
    requires Stores(c, d, ts, l) && l in c.cols
    ensures StrAt(Source(l, c.cols[l], false), p) == TextOf(CellOf(d, ts, l, p))
  {
    assert F.ValueAt(c, l, p) == CellOf(d, ts, l, p);
  }

  lemma TextCell(d: bool, ts: seq<S.Token>, l: Buffer, p: nat)
    requires l != S.HEAD
    ensures CellOf(d, ts, l, p).Str?
  {
    if p < |ts| {
      SinkLayers.TextsElsewhere(ts[p], d, l);
    }
  }

  lemma NoNumbers(c: F.Columns, d: bool, ts: seq<S.Token>, l: Buffer)
    requires Stores(c, d, ts, l) && l != S.HEAD
    ensures !F.NumericColumn(c, l)
  {
    if l in c.cols {
      forall i | 0 <= i < |c.cols[l]|
        ensures c.cols[l][i].Str?
      {
        assert F.ValueAt(c, l, i) == CellOf(d, ts, l, i);
        TextCell(d, ts, l, i);
      }
    }
  }

  // The head column.
  lemma HeadCell(d: bool, ts: seq<S.Token>, p: nat)
    ensures CellOf(d, ts, S.HEAD, p) == if p < |ts| && ts[p].head.Some? then Num(ts[p].head.value) else F.BLANK
  {
    if p < |ts| {
      assert Inverse.BaseLayer(5) == S.HEAD;
      Inverse.BaseGives(ts[p], d, 5);
    }
  }

  predicate AnyHead(ts: seq<S.Token>) {
    exists p :: 0 <= p < |ts| && ts[p].head.Some?
  }

  lemma HeadsNumeric(c: F.Columns, d: bool, ts: seq<S.Token>)
    requires Stores(c, d, ts, S.HEAD)
    ensures F.NumericColumn(c, S.HEAD) <==> AnyHead(ts)
  {
    var col := F.Existing(c, S.HEAD);
    forall p: nat
      ensures F.ValueAt(c, S.HEAD, p).Num? <==> p < |ts| && ts[p].head.Some?
    {
      HeadCell(d, ts, p);
      assert F.ValueAt(c, S.HEAD, p) == CellOf(d, ts, S.HEAD, p);
    }
    if p :| 0 <= p < |ts| && ts[p].head.Some? {
      assert F.ValueAt(c, S.HEAD, p).Num?;
      assert S.HEAD in c.cols && p < |c.cols[S.HEAD]| && c.cols[S.HEAD][p].Num?;
    }
    if F.NumericColumn(c, S.HEAD) {
      var p :| 0 <= p < |c.cols[S.HEAD]| && c.cols[S.HEAD][p].Num?;
      assert F.ValueAt(c, S.HEAD, p).Num?;
    }
  }

  // What is stored of a head: its low 32 bits, 0 where there is none.
  function HeadNumber(ts: seq<S.Token>, p: nat): nat
    requires p < |ts|
  {
    if ts[p].head.Some? then ts[p].head.value % U32 else 0
  }

  lemma StoredHead(c: F.Columns, d: bool, ts: seq<S.Token>, p: nat)
    requires Stores(c, d, ts, S.HEAD) && S.HEAD in c.cols && c.tokens == |ts|
    ensures IntAt(Source(S.HEAD, c.cols[S.HEAD], true), c.tokens, p) == if p < |ts| then Some(HeadNumber(ts, p))
      else None
  {
    HeadCell(d, ts, p);
    assert F.ValueAt(c, S.HEAD, p) == CellOf(d, ts, S.HEAD, p);
  }

  // ---------------------------------------------------------------------------------
  // What the cells are, layer by layer.

  // A token's own value, unless it is empty.
  function OwnText(ts: seq<S.Token>, l: Buffer, p: nat): Option<Buffer> {
    if p < |ts| && Inverse.OwnValue(ts[p], l).Some? then TextOf(Str(Inverse.OwnValue(ts[p], l).value)) else None
  }

  lemma ColumnCell(d: bool, ts: seq<S.Token>, l: Buffer, p: nat)
    requires l in Inverse.COLUMNS
    ensures TextOf(CellOf(d, ts, l, p)) == OwnText(ts, l, p)
  {
    if p < |ts| {
      Inverse.ColumnGives(ts[p], d, l);
    }
  }

  lemma DepsCell(d: bool, ts: seq<S.Token>, p: nat)
    requires p < |ts|
    ensures TextOf(CellOf(d, ts, S.DEPS, p)) == if ts[p].deps.Some? then TextOf(Str(ts[p].deps.value)) else None
  {
    assert Inverse.BaseLayer(7) == S.DEPS;
    Inverse.BaseGives(ts[p], d, 7);
  }

  // The last value of the key in the feature string.
  lemma FeatureCell(ts: seq<S.Token>, key: Buffer, p: nat)
    requires p < |ts|
    ensures CellOf(true, ts, S.Feature(key), p) == LastOf(Inverse.FeatureValues(ts[p], key))
  {
    Inverse.FeatureGives(ts[p], key);
  }

  // ---------------------------------------------------------------------------------
  // Written directly.

  ghost function BuiltColumns(o: S.Options, ds: seq<S.Document>): F.Columns {
    var s := S.Built(o, S.Empty(true), ds);
    SinkLayers.BuiltWellFormed(o, ds);
    F.ColumnsOf(s.forward.value)
  }

  lemma BuiltStores(o: S.Options, ds: seq<S.Document>, l: Buffer)
    ensures Stores(BuiltColumns(o, ds), o.decompose, SinkFacts.TokensOf(ds), l)
    ensures F.WellFormed(BuiltColumns(o, ds)) && BuiltColumns(o, ds).tokens == |SinkFacts.TokensOf(ds)|
    ensures l in S.BASE ==> l in BuiltColumns(o, ds).cols
  {
    SinkLayers.BuiltWellFormed(o, ds);
    SinkLayers.BuiltRecords(o, ds, l);
    RecordsStore(S.Built(o, S.Empty(true), ds), o.decompose, SinkFacts.TokensOf(ds), SinkLayers.LayerOf(o, ds, l), l);
  }

  lemma NameAt(c: F.Columns, kinds: Buffer -> bool, l: Buffer) returns (i: nat)
    requires F.WellFormed(c) && l in c.cols
    ensures i < |c.names| && c.names[i] == l && |F.Kinded(c, kinds)| == |c.names|
    ensures F.Kinded(c, kinds)[i] == Source(l, c.cols[l], kinds(l))
    ensures forall j :: i < j < |c.names| ==> F.Kinded(c, kinds)[j].name != l
  {
    i :| 0 <= i < |c.names| && c.names[i] == l;
    var kind := F.Kind(c, kinds);
    EachAt(kind, c.names, |c.names|, i);
    forall j | i < j < |c.names|
      ensures F.Kinded(c, kinds)[j].name != l
    {
      EachAt(kind, c.names, |c.names|, j);
    }
  }

  // What is read from a written file, in any layer.
  lemma FileReads(
      k: Codec, e: Order, c: F.Columns, kinds: Buffer -> bool, d: bool, ts: seq<S.Token>, l: Buffer,
      m: MappedForward, names: seq<Buffer>, p: nat)
    requires ValidCodec(k) && F.WellFormed(c) && Stores(c, d, ts, l) && (kinds(l) ==> l == S.HEAD) && p < U32
    requires Fits(k, e, F.Kinded(c, kinds), c.tokens) && Opened(k, e, F.ImageWith(k, e, c, kinds), m, names)
    ensures GetStr(k, e, m, p, l) == TextOf(CellOf(d, ts, l, p))
  {
    if l in c.cols {
      var i := NameAt(c, kinds, l);
      StoredIsRead(k, e, F.Kinded(c, kinds), c.tokens, m, names, i, p);
      if l == S.HEAD {
        HeadCell(d, ts, p);
      }
      if !kinds(l) {
        StoredText(c, d, ts, l, p);
      }
    } else {
      AbsentReads(k, e, c, kinds, l, m, names, p);
      assert F.ValueAt(c, l, p) == CellOf(d, ts, l, p);
    }
  }

  lemma FileHeads(
      k: Codec, e: Order, c: F.Columns, kinds: Buffer -> bool, d: bool, ts: seq<S.Token>,
      m: MappedForward, names: seq<Buffer>, p: nat)
    requires ValidCodec(k) && F.WellFormed(c) && Stores(c, d, ts, S.HEAD) && c.tokens == |ts| && p < U32
    requires ts != [] ==> S.HEAD in c.cols
    requires Fits(k, e, F.Kinded(c, kinds), c.tokens) && Opened(k, e, F.ImageWith(k, e, c, kinds), m, names)
    ensures GetInt(e, m, p, S.HEAD) == if p < |ts| && kinds(S.HEAD) then Some(HeadNumber(ts, p)) else None
  {
    if S.HEAD in c.cols {
      var i := NameAt(c, kinds, S.HEAD);
      StoredIsRead(k, e, F.Kinded(c, kinds), c.tokens, m, names, i, p);
      StoredHead(c, d, ts, p);
    } else {
      AbsentReads(k, e, c, kinds, S.HEAD, m, names, p);
    }
  }

  // A layer that no chunk holds is absent from the file.
  lemma AbsentReads(k: Codec, e: Order, c: F.Columns, kinds: Buffer -> bool, l: Buffer, m: MappedForward,
      names: seq<Buffer>, p: nat)
    requires ValidCodec(k) && F.WellFormed(c) && l !in c.cols
    requires Fits(k, e, F.Kinded(c, kinds), c.tokens) && Opened(k, e, F.ImageWith(k, e, c, kinds), m, names)
    ensures GetStr(k, e, m, p, l) == None && GetInt(e, m, p, l) == None
  {
    var kind := F.Kind(c, kinds);
    forall j | 0 <= j < |F.Kinded(c, kinds)|
      ensures F.Kinded(c, kinds)[j].name != l
    {
      EachAt(kind, c.names, |c.names|, j);
    }
    UnknownIsAbsent(k, e, F.Kinded(c, kinds), c.tokens, m, names, l, p);
  }

  // The file of a built index, opened.
  ghost predicate OpenedDirect(k: Codec, e: Order, o: S.Options, ds: seq<S.Document>, m: MappedForward,
      names: seq<Buffer>)
  {
    var c := BuiltColumns(o, ds);
    Fits(k, e, F.Kinded(c, F.OwnKinds(c)), c.tokens) && Opened(k, e, F.ImageWith(k, e, c, F.OwnKinds(c)), m, names)
  }

  // Building, writing, opening and looking up gives back, in every layer, what each token left.
  lemma WrittenReads(
      k: Codec, e: Order, o: S.Options, ds: seq<S.Document>, l: Buffer, m: MappedForward, names: seq<Buffer>, p: nat)
    requires p < U32 && ValidCodec(k) && OpenedDirect(k, e, o, ds, m, names)
    ensures GetStr(k, e, m, p, l) == TextOf(CellOf(o.decompose, SinkFacts.TokensOf(ds), l, p))
  {
    var c, ts := BuiltColumns(o, ds), SinkFacts.TokensOf(ds);
    BuiltStores(o, ds, l);
    if l != S.HEAD {
      NoNumbers(c, o.decompose, ts, l);
    }
    FileReads(k, e, c, F.OwnKinds(c), o.decompose, ts, l, m, names, p);
  }

  // The heads are there as soon as one token has one.
  lemma WrittenHeads(k: Codec, e: Order, o: S.Options, ds: seq<S.Document>, m: MappedForward, names: seq<Buffer>,
      p: nat)
    requires p < U32 && ValidCodec(k) && OpenedDirect(k, e, o, ds, m, names)
    ensures var ts := SinkFacts.TokensOf(ds);
      GetInt(e, m, p, S.HEAD) == if p < |ts| && AnyHead(ts) then Some(HeadNumber(ts, p)) else None
  {
    var c, ts := BuiltColumns(o, ds), SinkFacts.TokensOf(ds);
    BuiltStores(o, ds, S.HEAD);
    HeadsNumeric(c, o.decompose, ts);
    FileHeads(k, e, c, F.OwnKinds(c), o.decompose, ts, m, names, p);
  }

  // ---------------------------------------------------------------------------------
  // Streamed file by file.

  function OffsetOf(ds: seq<S.Document>, n: nat): nat
    requires n <= |ds|
  {
    |SinkFacts.Flat(SinkFacts.SentenceTokens, ds, n)|
  }

  // The forward values of every file on its own, and where they belong.
  ghost function FileChunks(o: S.Options, ds: seq<S.Document>): (r: seq<F.Columns>)
    ensures |r| == |ds| && forall i :: 0 <= i < |r| ==> r[i] == BuiltColumns(o, [ds[i]])
  {
    seq(|ds|, i requires 0 <= i < |ds| => BuiltColumns(o, [ds[i]]))
  }

  function FileOffsets(ds: seq<S.Document>): (r: seq<nat>)
    ensures |r| == |ds| && forall i :: 0 <= i < |r| ==> r[i] == OffsetOf(ds, i)
  {
    seq(|ds|, i requires 0 <= i < |ds| => OffsetOf(ds, i))
  }

  lemma OneDocument(d: S.Document)
    ensures SinkFacts.TokensOf([d]) == SinkFacts.SentenceTokens(d)
  {
    assert SinkFacts.Flat(SinkFacts.SentenceTokens, [d], 0) == [];
    assert [] + SinkFacts.SentenceTokens(d) == SinkFacts.SentenceTokens(d);
  }

  // A chunk with what these tokens leave in the layer.
  ghost predicate Chunk(c: F.Columns, d: bool, ts: seq<S.Token>, l: Buffer) {
    F.WellFormed(c) && c.tokens == |ts| && Stores(c, d, ts, l) && (l in S.BASE ==> l in c.cols)
  }

  lemma ChunkStores(o: S.Options, d: S.Document, l: Buffer)
    ensures Chunk(BuiltColumns(o, [d]), o.decompose, SinkFacts.SentenceTokens(d), l)
  {
    OneDocument(d);
    BuiltStores(o, [d], l);
  }

  lemma {:induction false} OffsetsGrow(ds: seq<S.Document>, i: nat, j: nat)
    requires i < j <= |ds|
    ensures OffsetOf(ds, i) + |SinkFacts.SentenceTokens(ds[i])| <= OffsetOf(ds, j)
    decreases j
  {
    if i < j - 1 {
      OffsetsGrow(ds, i, j - 1);
    }
  }

  lemma FilesInOrder(o: S.Options, ds: seq<S.Document>)
    ensures Chunks(FileChunks(o, ds), FileOffsets(ds))
  {
    var cs, offs := FileChunks(o, ds), FileOffsets(ds);
    forall i, j | 0 <= i < j < |cs|
      ensures Before(cs, offs, i, j)
    {
      ChunkStores(o, ds[i], S.WORD);
      OffsetsGrow(ds, i, j);
    }
    forall i | 0 <= i < |cs|
      ensures F.WellFormed(cs[i])
    {
      ChunkStores(o, ds[i], S.WORD);
    }
  }

  // Laying the next file's columns over what was merged.
  lemma NextStores(c: F.Columns, chunk: F.Columns, d: bool, ts: seq<S.Token>, more: seq<S.Token>, l: Buffer)
    requires F.WellFormed(chunk) && c.tokens == |ts| && chunk.tokens == |more|
    requires Stores(c, d, ts, l) && Stores(chunk, d, more, l)
    ensures var r := NextColumns(c, chunk, |ts|);
      Stores(r, d, ts + more, l) && r.tokens == |ts + more|
  {
    if more == [] {
      assert ts + more == ts;
    } else {
      var r := F.Merged(c, chunk, |ts|);
      forall p: nat
        ensures F.ValueAt(r, l, p) == CellOf(d, ts + more, l, p)
      {
        F.MergedReads(c, chunk, |ts|, l, p);
        assert F.ValueAt(c, l, p) == CellOf(d, ts, l, p);
        if p >= |ts| {
          assert F.ValueAt(chunk, l, p - |ts|) == CellOf(d, more, l, p - |ts|);
        }
      }
    }
  }

  // One chunk for every file, at the offset of the file.
  ghost predicate ChunkOfEach(cs: seq<F.Columns>, offs: seq<nat>, d: bool, ds: seq<S.Document>, l: Buffer) {
    && |cs| == |offs| == |ds|
    && (forall i :: 0 <= i < |ds| ==> Chunk(cs[i], d, SinkFacts.SentenceTokens(ds[i]), l))
    && (forall i :: 0 <= i < |ds| ==> offs[i] == OffsetOf(ds, i))
  }

  lemma {:induction false} FilesChunked(o: S.Options, ds: seq<S.Document>, l: Buffer)
    ensures ChunkOfEach(FileChunks(o, ds), FileOffsets(ds), o.decompose, ds, l)
  {
    var cs := FileChunks(o, ds);
    forall i | 0 <= i < |ds|
      ensures Chunk(cs[i], o.decompose, SinkFacts.SentenceTokens(ds[i]), l)
    {
      ChunkStores(o, ds[i], l);
    }
  }

  lemma {:induction false} StreamStores(cs: seq<F.Columns>, offs: seq<nat>, d: bool, ds: seq<S.Document>, n: nat,
      l: Buffer)
    requires Chunks(cs, offs) && ChunkOfEach(cs, offs, d, ds, l) && n <= |ds|
    ensures var c, ts := MergedChunks(cs, offs, n), SinkFacts.Flat(SinkFacts.SentenceTokens, ds, n);
      Stores(c, d, ts, l) && c.tokens == |ts|
  {
    if n > 0 {
      StreamStores(cs, offs, d, ds, n - 1, l);
      var c, ts := MergedChunks(cs, offs, n - 1), SinkFacts.Flat(SinkFacts.SentenceTokens, ds, n - 1);
      NextStores(c, cs[n - 1], d, ts, SinkFacts.SentenceTokens(ds[n - 1]), l);
    }
  }

  lemma {:induction false} NeverNumeric(cs: seq<F.Columns>, offs: seq<nat>, d: bool, ds: seq<S.Document>, n: nat,
      l: Buffer)
    requires ChunkOfEach(cs, offs, d, ds, l) && n <= |ds| && l != S.HEAD
    ensures !FirstIsNumeric(cs, n, l)
  {
    if n > 0 {
      NeverNumeric(cs, offs, d, ds, n - 1, l);
      NoNumbers(cs[n - 1], d, SinkFacts.SentenceTokens(ds[n - 1]), l);
    }
  }

  // The finished stream of a build, every file on its own, opened.
  ghost predicate OpenedStream(k: Codec, e: Order, o: S.Options, ds: seq<S.Document>, m: MappedForward,
      names: seq<Buffer>)
  {
    && Chunks(FileChunks(o, ds), FileOffsets(ds)) && AllStorable(k, FileChunks(o, ds))
    && var c, kinds := MergedChunks(FileChunks(o, ds), FileOffsets(ds), |ds|), FirstKinds(FileChunks(o, ds));
      && Fits(k, e, F.Kinded(c, kinds), c.tokens)
      && Streamed(k, e, c, kinds).Ok? && Opened(k, e, Streamed(k, e, c, kinds).value, m, names)
  }

  lemma {:induction false} StreamIsFile(k: Codec, e: Order, o: S.Options, ds: seq<S.Document>, m: MappedForward,
      names: seq<Buffer>)
    requires OpenedStream(k, e, o, ds, m, names)
    ensures var c, kinds := MergedChunks(FileChunks(o, ds), FileOffsets(ds), |ds|), FirstKinds(FileChunks(o, ds));
      F.WellFormed(c) && Opened(k, e, F.ImageWith(k, e, c, kinds), m, names)
  {
    var cs, offs := FileChunks(o, ds), FileOffsets(ds);
    MergedStorable(k, cs, offs, |ds|);
    MergedChunksWellFormed(cs, offs, |ds|);
    StreamedFile(k, e, MergedChunks(cs, offs, |ds|), FirstKinds(cs));
  }

  // The same for the streaming build, whose chunks always come in order (FilesInOrder): every
  // file on its own, its forward values appended to the stream, the stream finished, opened and
  // looked up.
  lemma {:induction false} StreamedReadsBack(
      k: Codec, e: Order, o: S.Options, ds: seq<S.Document>, l: Buffer, m: MappedForward, names: seq<Buffer>, p: nat)
    requires p < U32 && ValidCodec(k) && OpenedStream(k, e, o, ds, m, names)
    ensures GetStr(k, e, m, p, l) == TextOf(CellOf(o.decompose, SinkFacts.TokensOf(ds), l, p))
  {
    var cs, offs := FileChunks(o, ds), FileOffsets(ds);
    FilesChunked(o, ds, l);
    StreamStores(cs, offs, o.decompose, ds, |ds|, l);
    if l != S.HEAD {
      NeverNumeric(cs, offs, o.decompose, ds, |ds|, l);
    }
    StreamIsFile(k, e, o, ds, m, names);
    FileReads(k, e, MergedChunks(cs, offs, |ds|), FirstKinds(cs), o.decompose, SinkFacts.TokensOf(ds), l, m, names, p);
  }

  // The inverted index of the combined sink and the finished stream tell the same of every
  // value but the empty one.
  lemma {:induction false} StreamedInverse(
      k: Codec, e: Order, o: S.Options, ds: seq<S.Document>, l: Buffer, m: MappedForward, names: seq<Buffer>,
      v: Buffer, p: nat)
    requires l in Inverse.COLUMNS && p < U32 && ValidCodec(k) && v != [] && OpenedStream(k, e, o, ds, m, names)
    ensures p in SinkLayers.At(S.Built(o, S.Empty(false), ds), l, v) <==> GetStr(k, e, m, p, l) == Some(v)
  {
    StreamedReadsBack(k, e, o, ds, l, m, names, p);
    ColumnCell(o.decompose, SinkFacts.TokensOf(ds), l, p);
    SinkFacts.DroppedBuilt(o, ds);
    Inverse.BuiltHolds(o, ds, l);
    Inverse.HeldAt(S.Built(o, S.Empty(true), ds), SinkFacts.TokensOf(ds), l, v, p);
    SinkLayers.SameInverted(S.Built(o, S.Empty(true), ds), S.Built(o, S.Empty(false), ds), l, v);
  }

  // ---------------------------------------------------------------------------------
  // Heads in a stream.

  // The first of the first n files that has tokens has a token with a head.
  predicate FirstHasHead(ds: seq<S.Document>, n: nat)
    requires n <= |ds|
  {
    n > 0 && if TokensBefore(ds, n - 1) then FirstHasHead(ds, n - 1) else AnyHead(SinkFacts.SentenceTokens(ds[n - 1]))
  }

  predicate TokensBefore(ds: seq<S.Document>, n: nat)
    requires n <= |ds|
  {
    exists i :: 0 <= i < n && SinkFacts.SentenceTokens(ds[i]) != []
  }

  lemma {:induction false} HeadsAppear(cs: seq<F.Columns>, offs: seq<nat>, d: bool, ds: seq<S.Document>, n: nat)
    requires ChunkOfEach(cs, offs, d, ds, S.HEAD) && n <= |ds|
    ensures Appears(cs, n, S.HEAD) <==> TokensBefore(ds, n)
  {
    forall i | 0 <= i < n
      ensures cs[i].tokens > 0 && S.HEAD in cs[i].cols <==> SinkFacts.SentenceTokens(ds[i]) != []
    {
      assert Chunk(cs[i], d, SinkFacts.SentenceTokens(ds[i]), S.HEAD);
    }
  }

  lemma {:induction false} FirstHeads(cs: seq<F.Columns>, offs: seq<nat>, d: bool, ds: seq<S.Document>, n: nat)
    requires ChunkOfEach(cs, offs, d, ds, S.HEAD) && n <= |ds|
    ensures FirstIsNumeric(cs, n, S.HEAD) <==> FirstHasHead(ds, n)
  {
    if n > 0 {
      FirstHeads(cs, offs, d, ds, n - 1);
      HeadsAppear(cs, offs, d, ds, n - 1);
      assert Chunk(cs[n - 1], d, SinkFacts.SentenceTokens(ds[n - 1]), S.HEAD);
      HeadsNumeric(cs[n - 1], d, SinkFacts.SentenceTokens(ds[n - 1]));
    }
  }

  lemma {:induction false} SomeNonEmpty<X, Y>(f: X -> seq<Y>, xs: seq<X>, n: nat)
    requires n <= |xs|
    ensures (exists i :: 0 <= i < n && f(xs[i]) != []) <==> SinkFacts.Flat(f, xs, n) != []
  {
    if n > 0 {
      SomeNonEmpty(f, xs, n - 1);
    }
  }

  lemma TokensSomewhere(ds: seq<S.Document>, n: nat)
    requires n <= |ds|
    ensures TokensBefore(ds, n) <==> SinkFacts.Flat(SinkFacts.SentenceTokens, ds, n) != []
  {
    SomeNonEmpty(SinkFacts.SentenceTokens, ds, n);
  }

  // Heads are read back from the stream only if the first file with tokens has one.
  lemma {:induction false} StreamedHeads(
      k: Codec, e: Order, o: S.Options, ds: seq<S.Document>, m: MappedForward, names: seq<Buffer>, p: nat)
    requires p < U32 && ValidCodec(k) && OpenedStream(k, e, o, ds, m, names)
    ensures var ts := SinkFacts.TokensOf(ds);
      GetInt(e, m, p, S.HEAD) == if p < |ts| && FirstHasHead(ds, |ds|) then Some(HeadNumber(ts, p)) else None
  {
    var cs, offs := FileChunks(o, ds), FileOffsets(ds);
    FilesChunked(o, ds, S.HEAD);
    StreamStores(cs, offs, o.decompose, ds, |ds|, S.HEAD);
    FirstHeads(cs, offs, o.decompose, ds, |ds|);
    StreamIsFile(k, e, o, ds, m, names);
    TokensSomewhere(ds, |ds|);
    HeadsAppear(cs, offs, o.decompose, ds, |ds|);
    MergedChunksNames(cs, offs, |ds|, S.HEAD);
    FileHeads(k, e, MergedChunks(cs, offs, |ds|), FirstKinds(cs), o.decompose, SinkFacts.TokensOf(ds), m, names, p);
  }

  // The heads of all tokens come back, where they fit 32 bits.
  ghost predicate HeadsKept(e: Order, m: MappedForward, ts: seq<S.Token>) {
    forall p: nat :: p < |ts| && ts[p].head.Some? ==> GetInt(e, m, p, S.HEAD) == Some(ts[p].head.value % U32)
  }

  lemma KeptWhen(e: Order, m: MappedForward, ts: seq<S.Token>, kept: bool)
    requires forall p: nat :: p < |ts| ==> GetInt(e, m, p, S.HEAD) == if kept then Some(HeadNumber(ts, p)) else None
    ensures HeadsKept(e, m, ts) <==> kept || !AnyHead(ts)
  {
    if AnyHead(ts) && !kept {
      var p: nat :| p < |ts| && ts[p].head.Some?;
      assert GetInt(e, m, p, S.HEAD) == None;
    }
  }

  // A streaming build keeps the heads if and only if the first file with tokens has one, or no
  // file has any.
  lemma {:induction false} HeadsKeptIff(
      k: Codec, e: Order, o: S.Options, ds: seq<S.Document>, m: MappedForward, names: seq<Buffer>)
    requires ValidCodec(k) && OpenedStream(k, e, o, ds, m, names)
    ensures HeadsKept(e, m, SinkFacts.TokensOf(ds)) <==> FirstHasHead(ds, |ds|) || !AnyHead(SinkFacts.TokensOf(ds))
  {
    var ts := SinkFacts.TokensOf(ds);
    StreamLength(k, e, o, ds, m, names);
    forall p: nat | p < |ts|
      ensures GetInt(e, m, p, S.HEAD) == if FirstHasHead(ds, |ds|) then Some(HeadNumber(ts, p)) else None
    {
      StreamedHeads(k, e, o, ds, m, names, p);
    }
    KeptWhen(e, m, ts, FirstHasHead(ds, |ds|));
  }

  function OneToken(head: Option<int>): S.Document {
    S.Document([100], [S.Sentence([S.Token([119], None, None, None, None, head, None, None, false)], None, [], [])])
  }

  lemma OneTokenIn(head: Option<int>)
    ensures SinkFacts.SentenceTokens(OneToken(head)) == OneToken(head).sentences[0].tokens
  {
    var d := OneToken(head);
    assert SinkFacts.Flat(SinkFacts.OwnTokens, d.sentences, 0) == [];
    assert SinkFacts.OwnTokens(d.sentences[0]) == d.sentences[0].tokens;
  }

  lemma LateHead(ds: seq<S.Document>, a: seq<S.Token>, b: seq<S.Token>)
    requires |ds| == 2 && a == SinkFacts.SentenceTokens(ds[0]) && b == SinkFacts.SentenceTokens(ds[1])
    requires a != [] && !AnyHead(a) && |b| == 1 && b[0].head.Some?
    ensures !FirstHasHead(ds, |ds|) && AnyHead(SinkFacts.TokensOf(ds))
  {
    assert TokensBefore(ds, 1) && !TokensBefore(ds, 0) && !FirstHasHead(ds, 1);
    assert SinkFacts.Flat(SinkFacts.SentenceTokens, ds, 1) == a;
    var ts := SinkFacts.TokensOf(ds);
    assert ts == a + b && ts[|a|] == b[0];
  }

  // Two files of one token, of which only the second has a head: it gets lost.
  lemma HeadLost(ds: seq<S.Document>)
    requires ds == [OneToken(None), OneToken(Some(0))]
    ensures !FirstHasHead(ds, |ds|) && AnyHead(SinkFacts.TokensOf(ds))
  {
    OneTokenIn(None);
    OneTokenIn(Some(0));
    LateHead(ds, SinkFacts.SentenceTokens(ds[0]), SinkFacts.SentenceTokens(ds[1]));
  }

  lemma {:induction false} StreamLength(k: Codec, e: Order, o: S.Options, ds: seq<S.Document>, m: MappedForward,
      names: seq<Buffer>)
    requires OpenedStream(k, e, o, ds, m, names)
    ensures |SinkFacts.TokensOf(ds)| < U32
  {
    FilesChunked(o, ds, S.HEAD);
    StreamStores(FileChunks(o, ds), FileOffsets(ds), o.decompose, ds, |ds|, S.HEAD);
  }
}
