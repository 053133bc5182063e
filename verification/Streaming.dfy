// crates/montre-build/src/streaming_forward.rs: the forward index written chunk by chunk,
// with one temporary file per layer, and finished as one flat file.
module Streaming {
  import opened Core
  import opened Bytes
  import opened Layers
  import opened FlatFile
  import opened Mapped
  import opened RoundTrip
  import opened Forward
  import opened TempFile

  datatype LayerFile = LayerFile(bytes: Buffer, positionsWritten: nat, isNumeric: bool)

  // The temporary file holds exactly the values of a column.
  ghost predicate Holds(f: LayerFile, col: seq<Value>) {
    f.bytes == Rendered(col) && f.positionsWritten == |col|
  }

  // pad_absent
  method PadAbsent(bytes: Buffer, from: nat, to: nat) returns (r: Buffer)
    ensures r == bytes + Zeros(if from <= to then to - from else 0)
  {
    r := bytes;
    var i := from;
    assert bytes + Zeros(0) == bytes;
    while i < to
      invariant from <= i && (i == from || i <= to)
      invariant r == bytes + Zeros(i - from)
    {
      r := r + [TAG_ABSENT];
      assert Zeros(i + 1 - from) == Zeros(i - from) + [TAG_ABSENT];
      i := i + 1;
    }
  }

  method WriteValues(bytes: Buffer, data: seq<Value>) returns (r: Buffer)
    ensures r == bytes + Rendered(data)
  {
    r := bytes;
    for i := 0 to |data|
      invariant r == bytes + Rendered(data[..i])
    {
      RenderedNext(data, i);
      Assoc(bytes, Rendered(data[..i]), ValueBytes(data[i]));
      r := r + ValueBytes(data[i]);
    }
    assert data[..|data|] == data;
  }

  // A column extended to the number of tokens.
  lemma RenderedResized(col: seq<Value>, n: nat)
    requires |col| <= n
    ensures Rendered(Resized(col, n)) == Rendered(col) + Zeros(n - |col|)
  {
    if n > |col| {
      RenderedAppend(col, seq(n - |col|, _ => BLANK));
      RenderedBlanks(n - |col|);
    } else {
      assert Rendered(col) + Zeros(0) == Rendered(col);
    }
  }

  // Past the end of the column, laying over is appending.
  lemma OverlayAppends(col: seq<Value>, src: seq<Value>, start: nat)
    requires |col| <= start
    ensures Overlay(col, src, start) == Resized(col, start) + src
  {
    forall i: nat | i < start + |src|
      ensures Overlay(col, src, start)[i] == (Resized(col, start) + src)[i]
    {
      OverlayAt(col, src, start, i);
    }
  }

  lemma RenderedOverlay(col: seq<Value>, src: seq<Value>, start: nat)
    requires |col| <= start
    ensures Rendered(Overlay(col, src, start)) == Rendered(col) + Zeros(start - |col|) + Rendered(src)
  {
    OverlayAppends(col, src, start);
    RenderedAppend(Resized(col, start), src);
    RenderedResized(col, start);
  }

  // The temporary files hold these layers, found by name through the index.
  ghost predicate Recorded(files: seq<(Buffer, LayerFile)>, index: map<Buffer, nat>, c: Columns) {
    && |files| == |c.names|
    && (forall x :: x in index <==> x in c.cols)
    && (forall j :: 0 <= j < |files| ==> files[j].0 == c.names[j] && files[j].0 in index && index[files[j].0] == j)
    && (forall x :: x in index ==> index[x] < |files| && files[index[x]].0 == x && Holds(files[index[x]].1, c.cols[x]))
  }

  // The encoding chosen for a layer.
  ghost predicate NumericIn(files: seq<(Buffer, LayerFile)>, index: map<Buffer, nat>, x: Buffer) {
    x in index && index[x] < |files| && files[index[x]].1.isNumeric
  }

  // The file of one layer after a chunk.
  method AppendChunk(f: LayerFile, data: seq<Value>, offset: nat, ghost col: seq<Value>) returns (f': LayerFile)
    requires Holds(f, col) && |col| <= offset
    ensures Holds(f', Overlay(col, data, offset)) && f'.isNumeric == f.isNumeric
  {
    var bytes := PadAbsent(f.bytes, f.positionsWritten, offset);
    bytes := WriteValues(bytes, data);
    RenderedOverlay(col, data, offset);
    f' := LayerFile(bytes, offset + |data|, f.isNumeric);
  }

  // A chunk without tokens is skipped.
  function NextColumns(c: Columns, chunk: Columns, offset: nat): Columns
    requires Named(chunk)
  {
    if chunk.tokens == 0 then c else Merged(c, chunk, offset)
  }

  // The layer that is laid next still ends before the chunk.
  lemma ColumnStillBelow(lay: Lay, c: Columns, theirs: Columns, offset: nat, k: nat)
    requires WellFormed(c) && WellFormed(theirs) && k < |theirs.names| && c.tokens <= offset
    ensures |Existing(MergedUpTo(lay, c, theirs, k), theirs.names[k])| <= offset
  {
    MergedUpToColumn(lay, c, theirs, k, theirs.names[k]);
  }

  // One file was written anew, and found its place in the index.
  ghost predicate Rewritten(files: seq<(Buffer, LayerFile)>, files': seq<(Buffer, LayerFile)>,
                            index: map<Buffer, nat>, index': map<Buffer, nat>, x: Buffer, i: nat)
  {
    && index' == index[x := i] && i < |files'|
    && (x in index ==> i == index[x] && |files'| == |files|)
    && (x !in index ==> i == |files| && |files'| == |files| + 1)
    && (forall j :: 0 <= j < |files| && j != i ==> files'[j] == files[j])
    && files'[i].0 == x
  }

  lemma FileKept(files: seq<(Buffer, LayerFile)>, files': seq<(Buffer, LayerFile)>, index: map<Buffer, nat>,
      index': map<Buffer, nat>,
                 c: Columns, x: Buffer, i: nat, j: nat)
    requires Recorded(files, index, c) && Rewritten(files, files', index, index', x, i) && j < |files'|
    ensures files'[j].0 == if j == i then x else c.names[j]
    ensures files'[j].0 in index' && index'[files'[j].0] == j
  {
    if j != i {
      assert files'[j] == files[j];
    }
  }

  lemma EntryKept(files: seq<(Buffer, LayerFile)>, files': seq<(Buffer, LayerFile)>, index: map<Buffer, nat>,
      index': map<Buffer, nat>,
                  c: Columns, x: Buffer, i: nat, y: Buffer)
    requires Recorded(files, index, c) && Rewritten(files, files', index, index', x, i) && y != x
    ensures y in index' <==> y in index
    ensures y in index ==> index'[y] == index[y] < |files| && files'[index[y]] == files[index[y]]
    ensures NumericIn(files', index', y) <==> NumericIn(files, index, y)
  {
    if y in index {
      assert index[y] != i;
    }
  }

  lemma RecordedNext(
      files: seq<(Buffer, LayerFile)>,
      files': seq<(Buffer, LayerFile)>, index: map<Buffer, nat>, index': map<Buffer, nat>,
      lay: Lay, c: Columns, x: Buffer, data: seq<Value>, i: nat)
    requires Recorded(files, index, c) && index' == index[x := i]
    requires x in index ==> i == index[x] && |files'| == |files|
    requires x !in index ==> i == |files| && |files'| == |files| + 1
    requires forall j :: 0 <= j < |files| && j != i ==> files'[j] == files[j]
    requires files'[i].0 == x && Holds(files'[i].1, lay(Existing(c, x), data))
    ensures Recorded(files', index', Laid(lay, c, x, data))
    ensures forall y :: y != x ==> (NumericIn(files', index', y) <==> NumericIn(files, index, y))
  {
    var names, cols := Laid(lay, c, x, data).names, Laid(lay, c, x, data).cols;
    assert Rewritten(files, files', index, index', x, i);
    forall j: nat | j < |files'|
      ensures files'[j].0 == names[j] && files'[j].0 in index' && index'[files'[j].0] == j
    {
      FileKept(files, files', index, index', c, x, i, j);
    }
    forall y | y in index'
      ensures index'[y] < |files'| && files'[index'[y]].0 == y && Holds(files'[index'[y]].1, cols[y])
    {
      if y != x {
        EntryKept(files, files', index, index', c, x, i, y);
      }
    }
    forall y | y != x
      ensures NumericIn(files', index', y) <==> NumericIn(files, index, y)
    {
      EntryKept(files, files', index, index', c, x, i, y);
    }
  }

  ghost predicate KindMidway(c: Columns, theirs: Columns, k: nat, kinds: Buffer -> bool, x: Buffer)
    requires k <= |theirs.names|
  {
    if x in c.cols then kinds(x) else Among(theirs.names, k, x) && NumericColumn(theirs, x)
  }

  lemma KindNext(lay: Lay, c: Columns, theirs: Columns, k: nat, kinds: Buffer -> bool, x: Buffer)
    requires WellFormed(theirs) && k < |theirs.names|
    ensures KindMidway(c, theirs, k + 1, kinds, x) <==>
      if x in MergedUpTo(lay, c, theirs, k).cols then KindMidway(c, theirs, k, kinds, x)
      else x == theirs.names[k] && IsNumeric(theirs.cols[x])
  {
    AmongNext(theirs.names, k, x);
    MergedUpToColumn(lay, c, theirs, k, x);
  }

  lemma KindFinished(c: Columns, theirs: Columns, kinds: Buffer -> bool, x: Buffer)
    requires WellFormed(theirs)
    ensures KindMidway(c, theirs, |theirs.names|, kinds, x) <==>
      if x in c.cols then kinds(x) else NumericColumn(theirs, x)
  {
    assert x in theirs.names <==> Among(theirs.names, |theirs.names|, x);
  }

  // stage(k) are the columns after the first k layers of a chunk, kindAt(k) the numeric layers.
  ghost predicate Staged(stage: nat -> Columns, kindAt: nat -> (Buffer -> bool), lay: Lay, c: Columns, theirs: Columns,
      kinds: Buffer -> bool)
  {
    && Named(theirs)
    && (forall k: nat {:trigger MergedUpTo(lay, c, theirs, k)} :: k <= |theirs.names| ==>
      stage(k) == MergedUpTo(lay, c, theirs, k))
    && (forall k: nat, x {:trigger KindMidway(c, theirs, k, kinds, x)} ::
         k <= |theirs.names| ==> (kindAt(k)(x) <==> KindMidway(c, theirs, k, kinds, x)))
  }

  lemma Stages(lay: Lay, c: Columns, theirs: Columns, kinds: Buffer -> bool)
    returns (stage: nat -> Columns, kindAt: nat -> (Buffer -> bool))
    requires WellFormed(theirs) && forall x :: kinds(x) ==> x in c.cols
    ensures Staged(stage, kindAt, lay, c, theirs, kinds)
    ensures stage(0) == c && forall x :: kindAt(0)(x) <==> kinds(x)
    ensures stage(|theirs.names|) == MergedUpTo(lay, c, theirs, |theirs.names|)
    ensures forall x :: kindAt(|theirs.names|)(x) <==> if x in c.cols then kinds(x) else NumericColumn(theirs, x)
  {
    stage := (k: nat) => if k <= |theirs.names| then MergedUpTo(lay, c, theirs, k) else c;
    kindAt := (k: nat) => x => k <= |theirs.names| && KindMidway(c, theirs, k, kinds, x);
    forall x
      ensures kindAt(|theirs.names|)(x) <==> if x in c.cols then kinds(x) else NumericColumn(theirs, x)
    {
      KindFinished(c, theirs, kinds, x);
    }
  }

  lemma OtherTokens(files: seq<(Buffer, LayerFile)>, index: map<Buffer, nat>, c: Columns, tokens: nat)
    requires Recorded(files, index, c)
    ensures Recorded(files, index, c.(tokens := tokens))
  {
  }

  // A chunk that comes after what was appended so far.
  ghost predicate Appends(forward: InMemoryForward, offset: nat, c: Columns, theirs: Columns)
    reads forward
  {
    Carries(forward, theirs) && WellFormed(theirs) && WellFormed(c) && c.tokens <= offset &&
      |theirs.names| == |forward.layers|
  }

  // The objects hold these values.
  ghost predicate AllCarry(chunks: seq<InMemoryForward>, cs: seq<Columns>)
    reads chunks
  {
    |chunks| == |cs| && forall i :: 0 <= i < |chunks| ==> Carries(chunks[i], cs[i])
  }

  class StreamingForwardWriter {
    var layers: seq<(Buffer, LayerFile)>
    var layerIndex: map<Buffer, nat>
    var tokenCount: nat

    ghost predicate Tracks(c: Columns)
      reads this
    {
      Recorded(layers, layerIndex, c)
    }

    ghost predicate Numeric(x: Buffer)
      reads this
    {
      NumericIn(layers, layerIndex, x)
    }

    constructor ()
      ensures Tracks(Columns([], map[], 0)) && tokenCount == 0 && layerIndex == map[]
    {
      layers, layerIndex, tokenCount := [], map[], 0;
    }

    // get_or_create_layer
    method GetOrCreateLayer(name: Buffer, isNumeric: bool, ghost c: Columns) returns (index: nat)
      requires Tracks(c)
      modifies this
      ensures tokenCount == old(tokenCount) && index < |layers| && layerIndex == old(layerIndex)[name := index]
      ensures name in old(layerIndex) ==> index == old(layerIndex)[name] && layers == old(layers)
      ensures name !in old(layerIndex) ==>
        index == |old(layers)| && layers == old(layers) + [(name, LayerFile([], 0, isNumeric))]
      ensures layers[index].0 == name && Holds(layers[index].1, Existing(c, name))
    {
      if name in layerIndex {
        index := layerIndex[name];
        assert layerIndex == layerIndex[name := index];
        return;
      }
      index := |layers|;
      layers := layers + [(name, LayerFile([], 0, isNumeric))];
      layerIndex := layerIndex[name := index];
    }

    // One layer of a chunk: pad up to the chunk, then append its values.
    method AppendLayer(name: Buffer, data: seq<Value>, isNumeric: bool, offset: nat, ghost c: Columns)
      requires Tracks(c) && |Existing(c, name)| <= offset
      modifies this
      ensures Tracks(Laid(LayAt(offset), c, name, data)) && tokenCount == old(tokenCount)
      ensures forall x :: Numeric(x) <==>
        if x in old(layerIndex) then old(Numeric(x)) else x == name && isNumeric
    {
      var i := GetOrCreateLayer(name, isNumeric, c);
      var f := AppendChunk(layers[i].1, data, offset, Existing(c, name));
      layers := layers[i := (layers[i].0, f)];
      assert LayAt(offset)(Existing(c, name), data) == Overlay(Existing(c, name), data, offset);
      RecordedNext(old(layers), layers, old(layerIndex), layerIndex, LayAt(offset), c, name, data, i);
    }

    // The files are those of these columns, and these layers are numeric.
    ghost predicate At(c: Columns, numeric: Buffer -> bool)
      reads this
    {
      Tracks(c) && forall x :: Numeric(x) <==> numeric(x)
    }

    method AppendOne(forward: InMemoryForward, offset: nat, k: nat, ghost c: Columns, ghost theirs: Columns,
        ghost kinds: Buffer -> bool,
                     ghost stage: nat -> Columns, ghost kindAt: nat -> (Buffer -> bool))
      requires k < |forward.layers| && Appends(forward, offset, c, theirs)
      requires Staged(stage, kindAt, LayAt(offset), c, theirs, kinds) && At(stage(k), kindAt(k))
      modifies this
      ensures tokenCount == old(tokenCount) && At(stage(k + 1), kindAt(k + 1))
    {
      ghost var lay := LayAt(offset);
      ghost var was := MergedUpTo(lay, c, theirs, k);
      assert stage(k + 1) == MergedUpTo(lay, c, theirs, k + 1);
      var name := forward.layers[k];
      var data := forward.LayerData(name);
      ColumnStillBelow(lay, c, theirs, offset, k);
      AppendLayer(name, data.value, IsNumeric(data.value), offset, was);
      forall x
        ensures Numeric(x) <==> kindAt(k + 1)(x)
      {
        KindNext(lay, c, theirs, k, kinds, x);
        assert kindAt(k)(x) <==> KindMidway(c, theirs, k, kinds, x);
      }
    }

    // The layers of a chunk, in its order.
    method AppendEach(forward: InMemoryForward, offset: nat, ghost c: Columns, ghost theirs: Columns,
        ghost kinds: Buffer -> bool,
                      ghost stage: nat -> Columns, ghost kindAt: nat -> (Buffer -> bool))
      requires Appends(forward, offset, c, theirs)
      requires Staged(stage, kindAt, LayAt(offset), c, theirs, kinds) && At(stage(0), kindAt(0))
      modifies this
      ensures tokenCount == old(tokenCount) && At(stage(|forward.layers|), kindAt(|forward.layers|))
    {
      for k := 0 to |forward.layers|
        invariant tokenCount == old(tokenCount) && At(stage(k), kindAt(k))
      {
        AppendOne(forward, offset, k, c, theirs, kinds, stage, kindAt);
      }
    }

    method AppendLayers(forward: InMemoryForward, offset: nat, ghost c: Columns, ghost theirs: Columns,
        ghost kinds: Buffer -> bool)
      requires Appends(forward, offset, c, theirs) && At(c, kinds) && forall x :: kinds(x) ==> x in c.cols
      modifies this
      ensures tokenCount == old(tokenCount) && Tracks(Merged(c, theirs, offset))
      ensures forall x :: Numeric(x) <==> if x in c.cols then kinds(x) else NumericColumn(theirs, x)
    {
      ghost var stage, kindAt := Stages(LayAt(offset), c, theirs, kinds);
      AppendEach(forward, offset, c, theirs, kinds, stage, kindAt);
      OtherTokens(layers, layerIndex, stage(|theirs.names|), Max(c.tokens, offset + theirs.tokens));
    }

    // append_from
    method AppendFrom(forward: InMemoryForward, offset: nat, ghost c: Columns)
      requires forward.Valid() && WellFormed(forward.State()) && WellFormed(c)
      requires Tracks(c) && tokenCount == c.tokens && (forward.tokenCount > 0 ==> c.tokens <= offset)
      modifies this
      ensures Tracks(NextColumns(c, forward.State(), offset)) &&
        tokenCount == NextColumns(c, forward.State(), offset).tokens
      ensures forall x :: Numeric(x) <==>
        if x in c.cols then old(Numeric(x)) else forward.tokenCount > 0 && NumericColumn(forward.State(), x)
    {
      var fileTokens := forward.tokenCount;
      if fileTokens == 0 {
        return;
      }
      ghost var index, files := layerIndex, layers;
      AppendLayers(forward, offset, c, forward.State(), x => NumericIn(files, index, x));
      tokenCount := Max(tokenCount, offset + fileTokens);
    }

    // The next of the chunks.
    method AppendNext(forward: InMemoryForward, offset: nat, ghost chunk: Columns,
                      ghost c: Columns, ghost kinds: Buffer -> bool, ghost d: Columns, ghost nextKinds: Buffer -> bool)
      requires Carries(forward, chunk) && NextStage(chunk, offset, c, kinds, d, nextKinds)
      requires At(c, kinds) && tokenCount == c.tokens
      modifies this
      ensures At(d, nextKinds) && tokenCount == d.tokens
    {
      AppendFrom(forward, offset, c);
    }

    // finalize
    method Finalize(k: Codec, o: Order, ghost c: Columns, ghost kinds: Buffer -> bool) returns (r: Result<Buffer>)
      requires Tracks(c) && tokenCount == c.tokens && WellFormed(c)
      requires forall x :: kinds(x) <==> Numeric(x)
      modifies this
      ensures r == Streamed(k, o, c, kinds)
    {
      RecordedFiles(layers, layerIndex, c, kinds);
      PadAll(c, kinds);
      ReadyReads(k, layers, c, kinds);
      var srcs := ReadAll(k, layers, tokenCount, c.names, Reading(k, c, kinds));
      if srcs.Err? {
        return Err;
      }
      ReadLengths(k, c, kinds, |c.names|);
      var builds := BuildLayers(k, o, srcs.value, tokenCount);
      var file := WriteMfwd(o, builds, tokenCount);
      r := Ok(file);
    }

    method AppendAll(chunks: seq<InMemoryForward>, offsets: seq<nat>, ghost cs: seq<Columns>,
                     ghost stage: nat -> Columns, ghost kindAt: nat -> (Buffer -> bool))
      requires |chunks| == |cs| == |offsets| && ChunkStages(stage, kindAt, cs, offsets) && AllCarry(chunks, cs)
      requires At(stage(0), kindAt(0)) && tokenCount == stage(0).tokens
      modifies this
      ensures At(stage(|cs|), kindAt(|cs|)) && tokenCount == stage(|cs|).tokens
    {
      for i := 0 to |chunks|
        invariant At(stage(i), kindAt(i)) && tokenCount == stage(i).tokens && AllCarry(chunks, cs)
      {
        StageNext(stage, kindAt, cs, offsets, i);
        AppendNext(chunks[i], offsets[i], cs[i], stage(i), kindAt(i), stage(i + 1), kindAt(i + 1));
      }
    }

    method FinishChunks(k: Codec, o: Order, ghost chunks: seq<Columns>, ghost offsets: seq<nat>,
        ghost kinds: Buffer -> bool)
      returns (r: Result<Buffer>)
      requires Chunks(chunks, offsets) && At(MergedChunks(chunks, offsets, |chunks|), kinds)
      requires tokenCount == MergedChunks(chunks, offsets, |chunks|).tokens
      modifies this
      ensures r == Streamed(k, o, MergedChunks(chunks, offsets, |chunks|), kinds)
    {
      MergedChunksWellFormed(chunks, offsets, |chunks|);
      r := Finalize(k, o, MergedChunks(chunks, offsets, |chunks|), kinds);
    }

    method PadAll(ghost c: Columns, ghost kinds: Buffer -> bool)
      requires tokenCount == c.tokens && FilesOf(layers, c, kinds)
      modifies this
      ensures tokenCount == old(tokenCount) && AllReady(layers, c, kinds)
    {
      ghost var was := layers;
      for i := 0 to |layers|
        invariant |layers| == |c.names| && tokenCount == old(tokenCount)
        invariant forall j :: 0 <= j < i ==> Ready(layers[j], c, c.names[j], kinds)
        invariant forall j :: i <= j < |layers| ==> layers[j] == was[j]
      {
        assert FileOf(was[i], c, c.names[i], kinds);
        var f := PadFile(layers[i], tokenCount, c, c.names[i], kinds);
        layers := layers[i := f];
      }
    }
  }

  // The file after padding: the column extended to all tokens.
  ghost predicate Ready(f: (Buffer, LayerFile), c: Columns, x: Buffer, kinds: Buffer -> bool) {
    x in c.cols && f.0 == x && f.1.isNumeric == kinds(x) && f.1.bytes == Rendered(Resized(c.cols[x], c.tokens))
  }

  // The temporary file of a layer, with its encoding.
  ghost predicate FileOf(f: (Buffer, LayerFile), c: Columns, x: Buffer, kinds: Buffer -> bool) {
    && x in c.cols && |c.cols[x]| <= c.tokens
    && f.0 == x && f.1.isNumeric == kinds(x) && Holds(f.1, c.cols[x])
  }

  ghost predicate FilesOf(files: seq<(Buffer, LayerFile)>, c: Columns, kinds: Buffer -> bool) {
    |files| == |c.names| && forall j :: 0 <= j < |files| ==> FileOf(files[j], c, c.names[j], kinds)
  }

  lemma RecordedFiles(files: seq<(Buffer, LayerFile)>, index: map<Buffer, nat>, c: Columns, kinds: Buffer -> bool)
    requires Recorded(files, index, c) && WellFormed(c) && forall x :: kinds(x) <==> NumericIn(files, index, x)
    ensures FilesOf(files, c, kinds)
  {
  }

  method PadFile(f: (Buffer, LayerFile), tokenCount: nat, ghost c: Columns, ghost x: Buffer,
      ghost kinds: Buffer -> bool)
    returns (f': (Buffer, LayerFile))
    requires FileOf(f, c, x, kinds) && tokenCount == c.tokens
    ensures Ready(f', c, x, kinds)
  {
    var bytes := PadAbsent(f.1.bytes, f.1.positionsWritten, tokenCount);
    RenderedResized(c.cols[x], tokenCount);
    f' := (f.0, f.1.(bytes := bytes));
  }

  // f applied to the first n elements, failing as soon as it fails.
  ghost function Collect<A, B>(f: A -> Result<B>, s: seq<A>, n: nat): Result<seq<B>>
    requires n <= |s|
  {
    if n == 0 then Ok([])
    else
      var before, one := Collect(f, s, n - 1), f(s[n - 1]);
      if before.Err? || one.Err? then Err else Ok(before.value + [one.value])
  }

  lemma {:induction false} CollectFails<A, B>(f: A -> Result<B>, s: seq<A>, i: nat, n: nat)
    requires i <= n <= |s| && Collect(f, s, i).Err?
    ensures Collect(f, s, n).Err?
    decreases n
  {
    if i < n {
      CollectFails(f, s, i, n - 1);
    }
  }

  lemma CollectNext<A, B>(f: A -> Result<B>, s: seq<A>, i: nat, before: seq<B>, one: Result<B>)
    requires i < |s| && Collect(f, s, i) == Ok(before) && f(s[i]) == one
    ensures Collect(f, s, i + 1) == if one.Err? then Err else Ok(before + [one.value])
  {
  }

  ghost predicate AllReady(files: seq<(Buffer, LayerFile)>, c: Columns, kinds: Buffer -> bool) {
    |files| == |c.names| && forall j :: 0 <= j < |files| ==> Ready(files[j], c, c.names[j], kinds)
  }

  // What finalize reads back from the temporary file of layer x.
  ghost function Reading(k: Codec, c: Columns, kinds: Buffer -> bool): Buffer -> Result<Source> {
    x =>
      var values := ReadValues(k, Rendered(Resized(Existing(c, x), c.tokens)), c.tokens);
      if values.Err? then Err else Ok(Source(x, values.value, kinds(x)))
  }

  // What is read back from one temporary file.
  function FileValue(k: Codec, f: (Buffer, LayerFile), tokenCount: nat): Result<Source> {
    var values := ReadValues(k, f.1.bytes, tokenCount);
    if values.Err? then Err else Ok(Source(f.0, values.value, f.1.isNumeric))
  }

  // Reading the files gives what `read` says of the names.
  ghost predicate ReadsAs(k: Codec, files: seq<(Buffer, LayerFile)>, tokenCount: nat, names: seq<Buffer>,
      read: Buffer -> Result<Source>)
  {
    |files| == |names| && forall j :: 0 <= j < |files| ==> read(names[j]) == FileValue(k, files[j], tokenCount)
  }

  lemma ReadyReads(k: Codec, files: seq<(Buffer, LayerFile)>, c: Columns, kinds: Buffer -> bool)
    requires AllReady(files, c, kinds)
    ensures ReadsAs(k, files, c.tokens, c.names, Reading(k, c, kinds))
  {
    forall j | 0 <= j < |files|
      ensures Reading(k, c, kinds)(c.names[j]) == FileValue(k, files[j], c.tokens)
    {
      assert Ready(files[j], c, c.names[j], kinds);
    }
  }

  method ReadAll(k: Codec, files: seq<(Buffer, LayerFile)>, tokenCount: nat, ghost names: seq<Buffer>,
      ghost read: Buffer -> Result<Source>)
    returns (r: Result<seq<Source>>)
    requires ReadsAs(k, files, tokenCount, names, read)
    ensures r == Collect(read, names, |names|)
  {
    var srcs: seq<Source> := [];
    for i := 0 to |files|
      invariant Collect(read, names, i) == Ok(srcs)
    {
      var src := ReadFile(k, files[i], tokenCount);
      CollectNext(read, names, i, srcs, src);
      if src.Err? {
        CollectFails(read, names, i + 1, |names|);
        return Err;
      }
      srcs := srcs + [src.value];
    }
    r := Ok(srcs);
  }

  method ReadFile(k: Codec, f: (Buffer, LayerFile), tokenCount: nat) returns (r: Result<Source>)
    ensures r == FileValue(k, f, tokenCount)
  {
    var values := ReadTempLayer(k, f.1.bytes, tokenCount);
    r := if values.Err? then Err else Ok(Source(f.0, values.value, f.1.isNumeric));
  }

  // The result of finishing a stream that collected these columns.
  ghost function Streamed(k: Codec, o: Order, c: Columns, kinds: Buffer -> bool): Result<Buffer> {
    var srcs := Collect(Reading(k, c, kinds), c.names, |c.names|);
    if srcs.Err? then Err else Ok(Image(o, EncodedAll(k, o, srcs.value, c.tokens), c.tokens))
  }

  lemma {:induction false} ReadCount(k: Codec, b: Buffer, n: nat)
    ensures ReadValues(k, b, n).Ok? ==> |ReadValues(k, b, n).value| == n
  {
    if n > 0 && ReadOne(k, b).Ok? {
      ReadCount(k, b[ReadOne(k, b).value.1..], n - 1);
    }
  }

  lemma {:induction false} ReadLengths(k: Codec, c: Columns, kinds: Buffer -> bool, n: nat)
    requires n <= |c.names| && Collect(Reading(k, c, kinds), c.names, n).Ok?
    ensures var srcs := Collect(Reading(k, c, kinds), c.names, n).value;
      |srcs| == n && forall i :: 0 <= i < n ==> |srcs[i].data| == c.tokens
  {
    if n > 0 {
      ReadLengths(k, c, kinds, n - 1);
      ReadCount(k, Rendered(Resized(Existing(c, c.names[n - 1]), c.tokens)), c.tokens);
    }
  }

  // ---------------------------------------------------------------------------------
  // A whole run, and what it amounts to.

  // Chunk i ends before chunk j begins, where both have tokens.
  ghost predicate Before(chunks: seq<Columns>, offsets: seq<nat>, i: nat, j: nat)
    requires i < |chunks| && j < |chunks| && |chunks| == |offsets|
  {
    chunks[i].tokens > 0 && chunks[j].tokens > 0 ==> offsets[i] + chunks[i].tokens <= offsets[j]
  }

  // Chunks do not overlap and come in order.
  ghost predicate InOrder(chunks: seq<Columns>, offsets: seq<nat>) {
    && |chunks| == |offsets|
    && forall i, j :: 0 <= i < j < |chunks| ==> Before(chunks, offsets, i, j)
  }

  ghost predicate Chunks(chunks: seq<Columns>, offsets: seq<nat>) {
    && InOrder(chunks, offsets)
    && forall i :: 0 <= i < |chunks| ==> WellFormed(chunks[i])
  }

  // The chunks with tokens, merged in order.
  ghost function MergedChunks(chunks: seq<Columns>, offsets: seq<nat>, n: nat): Columns
    requires Chunks(chunks, offsets) && n <= |chunks|
  {
    if n == 0 then Columns([], map[], 0)
      else NextColumns(MergedChunks(chunks, offsets, n - 1), chunks[n - 1], offsets[n - 1])
  }

  // x is a layer of one of the first n chunks with tokens.
  ghost predicate Appears(chunks: seq<Columns>, n: nat, x: Buffer)
    requires n <= |chunks|
  {
    exists i :: 0 <= i < n && chunks[i].tokens > 0 && x in chunks[i].cols
  }

  // The encoding of a layer is chosen by the first chunk with tokens that has it.
  ghost predicate FirstIsNumeric(chunks: seq<Columns>, n: nat, x: Buffer)
    requires n <= |chunks|
  {
    n > 0 && if Appears(chunks, n - 1, x) then FirstIsNumeric(chunks, n - 1, x)
             else chunks[n - 1].tokens > 0 && NumericColumn(chunks[n - 1], x)
  }

  lemma {:induction false} ChunksBelow(chunks: seq<Columns>, offsets: seq<nat>, n: nat, j: nat)
    requires Chunks(chunks, offsets) && n <= j < |chunks| && chunks[j].tokens > 0
    ensures MergedChunks(chunks, offsets, n).tokens <= offsets[j]
  {
    if n > 0 {
      ChunksBelow(chunks, offsets, n - 1, j);
      assert Before(chunks, offsets, n - 1, j);
    }
  }

  lemma {:induction false} MergedChunksWellFormed(chunks: seq<Columns>, offsets: seq<nat>, n: nat)
    requires Chunks(chunks, offsets) && n <= |chunks|
    ensures WellFormed(MergedChunks(chunks, offsets, n))
  {
    if n > 0 {
      MergedChunksWellFormed(chunks, offsets, n - 1);
      MergedWellFormed(MergedChunks(chunks, offsets, n - 1), chunks[n - 1], offsets[n - 1]);
    }
  }

  lemma AppearsNext(chunks: seq<Columns>, n: nat, x: Buffer)
    requires n < |chunks|
    ensures Appears(chunks, n + 1, x) <==> Appears(chunks, n, x) || (chunks[n].tokens > 0 && x in chunks[n].cols)
  {
  }

  lemma {:induction false} MergedChunksNames(chunks: seq<Columns>, offsets: seq<nat>, n: nat, x: Buffer)
    requires Chunks(chunks, offsets) && n <= |chunks|
    ensures x in MergedChunks(chunks, offsets, n).cols <==> Appears(chunks, n, x)
  {
    if n > 0 {
      MergedChunksNames(chunks, offsets, n - 1, x);
      AppearsNext(chunks, n - 1, x);
      NextNames(MergedChunks(chunks, offsets, n - 1), chunks[n - 1], offsets[n - 1], x);
    }
  }

  lemma NextNames(c: Columns, chunk: Columns, offset: nat, x: Buffer)
    requires WellFormed(chunk)
    ensures x in NextColumns(c, chunk, offset).cols <==> x in c.cols || (chunk.tokens > 0 && x in chunk.cols)
  {
    MergedColumn(c, chunk, offset, x);
  }

  // build loop: one chunk after the other, then finalize.
  method StreamChunks(k: Codec, o: Order, chunks: seq<InMemoryForward>, offsets: seq<nat>, ghost cs: seq<Columns>)
    returns (r: Result<Buffer>)
    requires |chunks| == |cs| && Chunks(cs, offsets)
    requires AllCarry(chunks, cs)
    ensures r == Streamed(k, o, MergedChunks(cs, offsets, |cs|), FirstKinds(cs))
    ensures KindsStable(cs, offsets) && AllStorable(k, cs) ==>
      var c := MergedChunks(cs, offsets, |cs|);
      r == Ok(ImageWith(k, o, c, OwnKinds(c)))
  {
    var writer := new StreamingForwardWriter();
    ghost var stage, kindAt := StagesOf(cs, offsets);
    writer.AppendAll(chunks, offsets, cs, stage, kindAt);
    r := writer.FinishChunks(k, o, cs, offsets, FirstKinds(cs));
    if KindsStable(cs, offsets) && AllStorable(k, cs) {
      StreamedIsFlat(k, o, cs, offsets);
    }
  }

  // Which layers the stream takes for numeric: those with a number in their first chunk.
  ghost function FirstKinds(chunks: seq<Columns>): Buffer -> bool {
    x => FirstIsNumeric(chunks, |chunks|, x)
  }

  // stage(n) are the columns after the first n chunks, kindAt(n) the numeric layers.
  ghost predicate ChunkStages(stage: nat -> Columns, kindAt: nat -> (Buffer -> bool), chunks: seq<Columns>,
      offsets: seq<nat>)
  {
    && Chunks(chunks, offsets)
    && (forall n: nat {:trigger MergedChunks(chunks, offsets, n)} :: n <= |chunks| ==>
      stage(n) == MergedChunks(chunks, offsets, n))
    && (forall n: nat, x {:trigger FirstIsNumeric(chunks, n, x)} :: n <= |chunks| ==>
      (kindAt(n)(x) <==> FirstIsNumeric(chunks, n, x)))
  }

  // d and its numeric layers come next, after the chunk.
  ghost predicate NextStage(chunk: Columns, offset: nat, c: Columns, kinds: Buffer -> bool, d: Columns,
      nextKinds: Buffer -> bool)
  {
    && WellFormed(chunk) && WellFormed(c) && (chunk.tokens > 0 ==> c.tokens <= offset)
    && d == NextColumns(c, chunk, offset)
    && forall x {:trigger nextKinds(x)} :: nextKinds(x) <==>
      if x in c.cols then kinds(x) else chunk.tokens > 0 && NumericColumn(chunk, x)
  }

  lemma NextKind(stage: nat -> Columns, kindAt: nat -> (Buffer -> bool), chunks: seq<Columns>, offsets: seq<nat>,
      n: nat, x: Buffer)
    requires ChunkStages(stage, kindAt, chunks, offsets) && n < |chunks|
    ensures kindAt(n + 1)(x) <==>
      if x in MergedChunks(chunks, offsets, n).cols then kindAt(n)(x)
        else chunks[n].tokens > 0 && NumericColumn(chunks[n], x)
  {
    MergedChunksNames(chunks, offsets, n, x);
    assert kindAt(n)(x) <==> FirstIsNumeric(chunks, n, x);
    assert kindAt(n + 1)(x) <==> FirstIsNumeric(chunks, n + 1, x);
  }

  lemma StageNext(stage: nat -> Columns, kindAt: nat -> (Buffer -> bool), chunks: seq<Columns>, offsets: seq<nat>,
      n: nat)
    requires ChunkStages(stage, kindAt, chunks, offsets) && n < |chunks|
    ensures NextStage(chunks[n], offsets[n], stage(n), kindAt(n), stage(n + 1), kindAt(n + 1))
  {
    var c := MergedChunks(chunks, offsets, n);
    assert stage(n) == c && stage(n + 1) == MergedChunks(chunks, offsets, n + 1);
    MergedChunksWellFormed(chunks, offsets, n);
    if chunks[n].tokens > 0 {
      ChunksBelow(chunks, offsets, n, n);
    }
    forall x
      ensures kindAt(n + 1)(x) <==> if x in c.cols then kindAt(n)(x)
        else chunks[n].tokens > 0 && NumericColumn(chunks[n], x)
    {
      NextKind(stage, kindAt, chunks, offsets, n, x);
    }
  }

  lemma StagesOf(chunks: seq<Columns>, offsets: seq<nat>)
    returns (stage: nat -> Columns, kindAt: nat -> (Buffer -> bool))
    requires Chunks(chunks, offsets)
    ensures ChunkStages(stage, kindAt, chunks, offsets)
    ensures stage(0) == Columns([], map[], 0) && forall x :: !kindAt(0)(x)
    ensures stage(|chunks|) == MergedChunks(chunks, offsets, |chunks|)
    ensures forall x :: kindAt(|chunks|)(x) <==> FirstKinds(chunks)(x)
  {
    stage := (n: nat) => if n <= |chunks| then MergedChunks(chunks, offsets, n) else Columns([], map[], 0);
    kindAt := (n: nat) => x => n <= |chunks| && FirstIsNumeric(chunks, n, x);
  }

  // A layer with a number anywhere has one in its first chunk.
  ghost predicate KindsStable(chunks: seq<Columns>, offsets: seq<nat>)
    requires Chunks(chunks, offsets)
  {
    forall x :: x in MergedChunks(chunks, offsets, |chunks|).cols ==>
      (FirstKinds(chunks)(x) <==> NumericColumn(MergedChunks(chunks, offsets, |chunks|), x))
  }

  ghost predicate AllStorable(k: Codec, chunks: seq<Columns>) {
    forall i :: 0 <= i < |chunks| ==> Storable(k, chunks[i])
  }

  // ---------------------------------------------------------------------------------
  // Streaming comes to the same file as merging in memory and writing directly.

  // Every value fits its temporary record.
  ghost predicate Storable(k: Codec, c: Columns) {
    forall x, p :: StorableAt(k, c, x, p)
  }

  ghost predicate StorableAt(k: Codec, c: Columns, x: Buffer, p: nat) {
    ValidValue(k, ValueAt(c, x, p)) && Short(ValueAt(c, x, p))
  }

  lemma NextStorable(k: Codec, c: Columns, chunk: Columns, offset: nat)
    requires Storable(k, c) && Storable(k, chunk) && WellFormed(chunk)
    ensures Storable(k, NextColumns(c, chunk, offset))
  {
    var m := Merged(c, chunk, offset);
    forall x, p: nat
      ensures StorableAt(k, m, x, p)
    {
      MergedReads(c, chunk, offset, x, p);
      assert StorableAt(k, c, x, p);
      assert p >= offset ==> StorableAt(k, chunk, x, p - offset);
    }
  }

  lemma {:induction false} MergedStorable(k: Codec, chunks: seq<Columns>, offsets: seq<nat>, n: nat)
    requires Chunks(chunks, offsets) && n <= |chunks| && forall i :: 0 <= i < |chunks| ==> Storable(k, chunks[i])
    ensures Storable(k, MergedChunks(chunks, offsets, n))
  {
    if n > 0 {
      MergedStorable(k, chunks, offsets, n - 1);
      assert Storable(k, chunks[n - 1]);
      NextStorable(k, MergedChunks(chunks, offsets, n - 1), chunks[n - 1], offsets[n - 1]);
    }
  }

  lemma ColumnReadsBack(k: Codec, c: Columns, x: Buffer)
    requires Storable(k, c) && x in c.cols && |c.cols[x]| <= c.tokens
    ensures var col := Resized(c.cols[x], c.tokens);
      ReadValues(k, Rendered(col), c.tokens) == Ok(col)
  {
    var col := Resized(c.cols[x], c.tokens);
    forall p: nat | p < |col|
      ensures ValidValue(k, col[p]) && Short(col[p])
    {
      assert StorableAt(k, c, x, p);
      assert col[p] == ValueAt(c, x, p);
    }
    TempRoundTrip(k, col);
  }

  // The columns extended to all tokens.
  ghost function Extended(c: Columns): Columns {
    Columns(c.names, map x | x in c.cols :: Resized(c.cols[x], c.tokens), c.tokens)
  }

  lemma SourceReads(k: Codec, c: Columns, kinds: Buffer -> bool, x: Buffer)
    requires WellFormed(c) && Storable(k, c) && x in c.cols
    ensures Reading(k, c, kinds)(x) == Ok(Kind(Extended(c), kinds)(x))
  {
    ColumnReadsBack(k, c, x);
  }

  lemma {:induction false} AllReadBack(
      c: Columns, read: Buffer -> Result<Source>, kind: Buffer -> Source, n: nat)
    requires n <= |c.names| && forall x :: x in c.names ==> read(x) == Ok(kind(x))
    ensures Collect(read, c.names, n) == Ok(Each(kind, c.names, n))
  {
    if n > 0 {
      AllReadBack(c, read, kind, n - 1);
    }
  }

  lemma SourcesReadBack(k: Codec, c: Columns, kinds: Buffer -> bool, n: nat)
    requires WellFormed(c) && Storable(k, c) && n <= |c.names|
    ensures Collect(Reading(k, c, kinds), c.names, n) == Ok(Each(Kind(Extended(c), kinds), c.names, n))
  {
    forall x | x in c.names
      ensures Reading(k, c, kinds)(x) == Ok(Kind(Extended(c), kinds)(x))
    {
      SourceReads(k, c, kinds, x);
    }
    AllReadBack(c, Reading(k, c, kinds), Kind(Extended(c), kinds), n);
  }

  lemma PaddingInvisible(k: Codec, o: Order, x: Buffer, col: seq<Value>, tokens: nat, numeric: bool)
    requires |col| <= tokens
    ensures Encoder(k, o, tokens)(Source(x, Resized(col, tokens), numeric)) ==
      Encoder(k, o, tokens)(Source(x, col, numeric))
  {
    SameDictLayer(k, o, x, col, Resized(col, tokens));
    SameDenseLayer(o, x, col, Resized(col, tokens), tokens);
  }

  lemma SameEncoding(enc: Source -> LayerBuild, k: Codec, o: Order, c: Columns, kinds: Buffer -> bool)
    requires WellFormed(c) && enc == Encoder(k, o, c.tokens)
    ensures var n := |c.names|; Each(enc, Kinded(Extended(c), kinds), n) == Each(enc, Kinded(c, kinds), n)
  {
    var a, b := Kinded(Extended(c), kinds), Kinded(c, kinds);
    forall i: nat | i < |c.names|
      ensures enc(a[i]) == enc(b[i])
    {
      var x := c.names[i];
      EachAt(Kind(Extended(c), kinds), c.names, |c.names|, i);
      EachAt(Kind(c, kinds), c.names, |c.names|, i);
      PaddingInvisible(k, o, x, c.cols[x], c.tokens, kinds(x));
    }
    EachSame(enc, a, b, |c.names|);
  }

  // A finished stream is the direct file of the merged layers, each with its chosen encoding.
  lemma StreamedFile(k: Codec, o: Order, c: Columns, kinds: Buffer -> bool)
    requires WellFormed(c) && Storable(k, c)
    ensures Streamed(k, o, c, kinds) == Ok(ImageWith(k, o, c, kinds))
  {
    SourcesReadBack(k, c, kinds, |c.names|);
    SameEncoding(Encoder(k, o, c.tokens), k, o, c, kinds);
  }

  // Opening a finished stream and looking a position up gives the merged value there.
  lemma StreamedReads(k: Codec, o: Order, c: Columns, kinds: Buffer -> bool, m: MappedForward, names: seq<Buffer>,
      i: nat, p: nat)
    requires ValidCodec(k) && WellFormed(c) && Storable(k, c) && Fits(k, o, Kinded(c, kinds), c.tokens)
    requires Streamed(k, o, c, kinds).Ok? && Opened(k, o, Streamed(k, o, c, kinds).value, m, names)
    requires i < |c.names| && p < U32
    ensures var x := c.names[i];
      && GetStr(k, o, m, p, x) == StrAt(Source(x, c.cols[x], kinds(x)), p)
      && GetInt(o, m, p, x) == IntAt(Source(x, c.cols[x], kinds(x)), c.tokens, p)
  {
    var srcs := Kinded(c, kinds);
    StreamedFile(k, o, c, kinds);
    forall j: nat | j < |c.names|
      ensures srcs[j] == Source(c.names[j], Existing(c, c.names[j]), kinds(c.names[j]))
    {
      EachAt(Kind(c, kinds), c.names, |c.names|, j);
    }
    StoredIsRead(k, o, srcs, c.tokens, m, names, i, p);
  }

  lemma {:induction false} SameKinds(c: Columns, a: Buffer -> bool, b: Buffer -> bool, n: nat)
    requires Named(c) && n <= |c.names| && forall x :: x in c.cols ==> a(x) == b(x)
    ensures Each(Kind(c, a), c.names, n) == Each(Kind(c, b), c.names, n)
  {
    if n > 0 {
      SameKinds(c, a, b, n - 1);
    }
  }

  // With the kinds of the layers stable, the stream is the file that merging the chunks in
  // memory and writing directly gives.
  lemma StreamedIsFlat(k: Codec, o: Order, chunks: seq<Columns>, offsets: seq<nat>)
    requires Chunks(chunks, offsets) && KindsStable(chunks, offsets) && AllStorable(k, chunks)
    ensures var c := MergedChunks(chunks, offsets, |chunks|);
      Streamed(k, o, c, FirstKinds(chunks)) == Ok(ImageWith(k, o, c, OwnKinds(c)))
  {
    var c, kinds := MergedChunks(chunks, offsets, |chunks|), FirstKinds(chunks);
    MergedStorable(k, chunks, offsets, |chunks|);
    MergedChunksWellFormed(chunks, offsets, |chunks|);
    StreamedFile(k, o, c, kinds);
    SameKinds(c, kinds, OwnKinds(c), |c.names|);
  }

  // ---------------------------------------------------------------------------------
  // When the first chunk decides as all the chunks together would.

  lemma NumericAppend(a: seq<Value>, b: seq<Value>)
    ensures IsNumeric(a + b) <==> IsNumeric(a) || IsNumeric(b)
  {
    if IsNumeric(a) {
      var i :| 0 <= i < |a| && a[i].Num?;
      assert (a + b)[i].Num?;
    }
    if IsNumeric(b) {
      var i :| 0 <= i < |b| && b[i].Num?;
      assert (a + b)[|a| + i].Num?;
    }
  }

  lemma NumericResized(col: seq<Value>, n: nat)
    ensures IsNumeric(Resized(col, n)) <==> IsNumeric(col)
  {
    if n > |col| {
      NumericAppend(col, seq(n - |col|, _ => BLANK));
    }
  }

  lemma OverlayNumeric(col: seq<Value>, src: seq<Value>, start: nat)
    requires |col| <= start
    ensures IsNumeric(Overlay(col, src, start)) <==> IsNumeric(col) || IsNumeric(src)
  {
    OverlayAppends(col, src, start);
    NumericAppend(Resized(col, start), src);
    NumericResized(col, start);
  }

  // A chunk holds a number in layer x.
  ghost predicate NumberSomewhere(chunks: seq<Columns>, n: nat, x: Buffer)
    requires n <= |chunks|
  {
    exists i :: 0 <= i < n && chunks[i].tokens > 0 && NumericColumn(chunks[i], x)
  }

  lemma SomewhereNext(chunks: seq<Columns>, n: nat, x: Buffer)
    requires n < |chunks|
    ensures NumberSomewhere(chunks, n + 1, x) <==>
      NumberSomewhere(chunks, n, x) || (chunks[n].tokens > 0 && NumericColumn(chunks[n], x))
  {
  }

  lemma LaidNumeric(c: Columns, chunk: Columns, offset: nat, x: Buffer)
    requires WellFormed(c) && c.tokens <= offset && WellFormed(chunk)
    ensures NumericColumn(Merged(c, chunk, offset), x) <==> NumericColumn(c, x) || NumericColumn(chunk, x)
  {
    MergedColumn(c, chunk, offset, x);
    if x in chunk.cols {
      OverlayNumeric(Existing(c, x), chunk.cols[x], offset);
    }
  }

  lemma {:induction false} MergedNumeric(chunks: seq<Columns>, offsets: seq<nat>, n: nat, x: Buffer)
    requires Chunks(chunks, offsets) && n <= |chunks|
    ensures NumericColumn(MergedChunks(chunks, offsets, n), x) <==> NumberSomewhere(chunks, n, x)
  {
    if n > 0 {
      MergedNumeric(chunks, offsets, n - 1, x);
      SomewhereNext(chunks, n - 1, x);
      if chunks[n - 1].tokens > 0 {
        ChunksBelow(chunks, offsets, n - 1, n - 1);
        MergedChunksWellFormed(chunks, offsets, n - 1);
        LaidNumeric(MergedChunks(chunks, offsets, n - 1), chunks[n - 1], offsets[n - 1], x);
      }
    }
  }

  lemma {:induction false} FirstImpliesSomewhere(chunks: seq<Columns>, n: nat, x: Buffer)
    requires n <= |chunks|
    ensures FirstIsNumeric(chunks, n, x) ==> NumberSomewhere(chunks, n, x)
  {
    if n > 0 && Appears(chunks, n - 1, x) {
      FirstImpliesSomewhere(chunks, n - 1, x);
    }
  }

  // What a reader of either file gets for layer x.
  ghost predicate ReadAlike(col: seq<Value>, x: Buffer, a: bool, b: bool, tokens: nat) {
    forall p: nat ::
      && StrAt(Source(x, col, a), p) == StrAt(Source(x, col, b), p)
      && IntAt(Source(x, col, a), tokens, p) == IntAt(Source(x, col, b), tokens, p)
  }

  // The streamed and the direct file read alike in layer x if and only if a number anywhere
  // in the layer means a number in the first chunk that carries it.
  lemma ReadAlikeIff(chunks: seq<Columns>, offsets: seq<nat>, x: Buffer)
    requires Chunks(chunks, offsets) && Appears(chunks, |chunks|, x)
    ensures var c := MergedChunks(chunks, offsets, |chunks|);
      x in c.cols
      && (ReadAlike(c.cols[x], x, FirstIsNumeric(chunks, |chunks|, x), IsNumeric(c.cols[x]), c.tokens)
          <==> (NumberSomewhere(chunks, |chunks|, x) ==> FirstIsNumeric(chunks, |chunks|, x)))
  {
    var c := MergedChunks(chunks, offsets, |chunks|);
    MergedChunksWellFormed(chunks, offsets, |chunks|);
    MergedChunksNames(chunks, offsets, |chunks|, x);
    MergedNumeric(chunks, offsets, |chunks|, x);
    FirstImpliesSomewhere(chunks, |chunks|, x);
    KindsDiffer(c.cols[x], x, FirstIsNumeric(chunks, |chunks|, x), c.tokens);
  }

  lemma KindsDiffer(col: seq<Value>, x: Buffer, first: bool, tokens: nat)
    requires |col| <= tokens && (first ==> IsNumeric(col))
    ensures ReadAlike(col, x, first, IsNumeric(col), tokens) <==> first == IsNumeric(col)
  {
    if first != IsNumeric(col) {
      assert IntAt(Source(x, col, first), tokens, 0) != IntAt(Source(x, col, IsNumeric(col)), tokens, 0);
    }
  }

  // ---------------------------------------------------------------------------------
  // Chunks without tokens, which the stream skips.

  // All chunks merged in order, with those that hold layers but no tokens.
  ghost function AllMerged(chunks: seq<Columns>, offsets: seq<nat>, n: nat): Columns
    requires Chunks(chunks, offsets) && n <= |chunks|
  {
    if n == 0 then Columns([], map[], 0) else Merged(AllMerged(chunks, offsets, n - 1), chunks[n - 1], offsets[n - 1])
  }

  lemma NextReads(a: Columns, b: Columns, chunk: Columns, offset: nat, x: Buffer, p: nat)
    requires WellFormed(chunk) && ValueAt(a, x, p) == ValueAt(b, x, p)
    ensures ValueAt(Merged(a, chunk, offset), x, p) == ValueAt(NextColumns(b, chunk, offset), x, p)
  {
    MergedReads(a, chunk, offset, x, p);
    MergedReads(b, chunk, offset, x, p);
  }

  // They make no difference to any value.
  lemma {:induction false} AllMergedReads(chunks: seq<Columns>, offsets: seq<nat>, n: nat, x: Buffer, p: nat)
    requires Chunks(chunks, offsets) && n <= |chunks|
    ensures ValueAt(AllMerged(chunks, offsets, n), x, p) == ValueAt(MergedChunks(chunks, offsets, n), x, p)
  {
    if n > 0 {
      AllMergedReads(chunks, offsets, n - 1, x, p);
      NextReads(AllMerged(chunks, offsets, n - 1), MergedChunks(chunks, offsets, n - 1), chunks[n - 1], offsets[n - 1],
        x, p);
    }
  }

  // x is a layer of one of the first n chunks.
  ghost predicate Anywhere(chunks: seq<Columns>, n: nat, x: Buffer)
    requires n <= |chunks|
  {
    exists i :: 0 <= i < n && x in chunks[i].cols
  }

  lemma AnywhereNext(chunks: seq<Columns>, n: nat, x: Buffer)
    requires n < |chunks|
    ensures Anywhere(chunks, n + 1, x) <==> Anywhere(chunks, n, x) || x in chunks[n].cols
  {
  }

  // But their layers are there, where the stream has only those of chunks with tokens (Appears).
  lemma {:induction false} AllMergedNames(chunks: seq<Columns>, offsets: seq<nat>, n: nat, x: Buffer)
    requires Chunks(chunks, offsets) && n <= |chunks|
    ensures x in AllMerged(chunks, offsets, n).cols <==> Anywhere(chunks, n, x)
    ensures x in MergedChunks(chunks, offsets, n).cols <==> Appears(chunks, n, x)
  {
    MergedChunksNames(chunks, offsets, n, x);
    if n > 0 {
      AllMergedNames(chunks, offsets, n - 1, x);
      AnywhereNext(chunks, n - 1, x);
      MergedColumn(AllMerged(chunks, offsets, n - 1), chunks[n - 1], offsets[n - 1], x);
    }
  }
}
