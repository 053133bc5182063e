// crates/montre-index/src/forward.rs: the forward index in memory, and merging one into
// another at an offset.
module Forward {
  import opened Core
  import opened Bytes
  import opened Layers
  import opened FlatFile
  import opened RoundTrip

  // The value of an in-memory forward index: layer names in order, one column of values per
  // name, and the number of tokens.
  datatype Columns = Columns(names: seq<Buffer>, cols: map<Buffer, seq<Value>>, tokens: nat)

  const BLANK: Value := Str([])

  // Every name has a column.
  predicate Named(c: Columns) {
    forall i :: 0 <= i < |c.names| ==> c.names[i] in c.cols
  }

  // Names are distinct, and no column is longer than the index.
  ghost predicate WellFormed(c: Columns) {
    && Named(c) && NoDup(c.names)
    && (forall x :: x in c.cols ==> x in c.names && |c.cols[x]| <= c.tokens)
  }

  // resize with blanks
  function Resized(col: seq<Value>, n: nat): (r: seq<Value>)
    ensures |r| == Max(|col|, n)
  {
    if n <= |col| then col else col + seq(n - |col|, _ => BLANK)
  }

  function Put(col: seq<Value>, p: nat, v: Value): seq<Value> {
    Resized(col, p + 1)[p := v]
  }

  // src written over col from position start on.
  function Overlay(col: seq<Value>, src: seq<Value>, start: nat): (r: seq<Value>)
    ensures |r| == Max(|col|, start + |src|)
  {
    var base := Resized(col, start + |src|);
    base[..start] + src + base[start + |src|..]
  }

  lemma OverlayAt(col: seq<Value>, src: seq<Value>, start: nat, i: nat)
    requires i < Max(|col|, start + |src|)
    ensures Overlay(col, src, start)[i] ==
      if start <= i < start + |src| then src[i - start] else if i < |col| then col[i] else BLANK
  {
  }

  // How a column is combined with one that is merged into it.
  type Lay = (seq<Value>, seq<Value>) -> seq<Value>

  function LayAt(offset: nat): Lay {
    (col, src) => Overlay(col, src, offset)
  }

  // The column that is there, or an empty one.
  function Existing(c: Columns, x: Buffer): seq<Value> {
    if x in c.cols then c.cols[x] else []
  }

  // src laid over layer x, which is added when missing.
  function Laid(lay: Lay, c: Columns, x: Buffer, src: seq<Value>): Columns {
    Columns(if x in c.cols then c.names else c.names + [x], c.cols[x := lay(Existing(c, x), src)], c.tokens)
  }

  // After the first k layers of the other index were laid over this one.
  function MergedUpTo(lay: Lay, c: Columns, other: Columns, k: nat): (r: Columns)
    requires Named(other) && k <= |other.names|
    ensures r.tokens == c.tokens
  {
    if k == 0 then c
    else Laid(lay, MergedUpTo(lay, c, other, k - 1), other.names[k - 1], other.cols[other.names[k - 1]])
  }

  function Merged(c: Columns, other: Columns, offset: nat): Columns
    requires Named(other)
  {
    MergedUpTo(LayAt(offset), c, other, |other.names|).(tokens := Max(c.tokens, offset + other.tokens))
  }

  // x is one of the first k names.
  ghost predicate Among(names: seq<Buffer>, k: nat, x: Buffer)
    requires k <= |names|
  {
    exists i :: 0 <= i < k && names[i] == x
  }

  lemma AmongNext(names: seq<Buffer>, k: nat, x: Buffer)
    requires k < |names|
    ensures Among(names, k + 1, x) <==> Among(names, k, x) || x == names[k]
  {
  }

  lemma {:induction false} MergedUpToColumn(lay: Lay, c: Columns, other: Columns, k: nat, x: Buffer)
    requires Named(other) && NoDup(other.names) && k <= |other.names|
    ensures var m := MergedUpTo(lay, c, other, k);
      && (x in m.cols <==> x in c.cols || Among(other.names, k, x))
      && (Among(other.names, k, x) ==> m.cols[x] == lay(Existing(c, x), other.cols[x]))
      && (!Among(other.names, k, x) ==> Existing(m, x) == Existing(c, x))
  {
    if k > 0 {
      MergedUpToColumn(lay, c, other, k - 1, x);
      AmongNext(other.names, k - 1, x);
      assert x == other.names[k - 1] ==> !Among(other.names, k - 1, x);
    }
  }

  // A merge lays each column of the other over the column of the same name, and no other.
  lemma MergedColumn(c: Columns, other: Columns, offset: nat, x: Buffer)
    requires WellFormed(other)
    ensures var m := Merged(c, other, offset);
      && (x in m.cols <==> x in c.cols || x in other.cols)
      && (x in other.cols ==> m.cols[x] == Overlay(Existing(c, x), other.cols[x], offset))
      && (x !in other.cols ==> Existing(m, x) == Existing(c, x))
  {
    MergedUpToColumn(LayAt(offset), c, other, |other.names|, x);
    assert Among(other.names, |other.names|, x) <==> x in other.names;
  }

  lemma {:induction false} MergedUpToNames(lay: Lay, c: Columns, other: Columns, k: nat)
    requires Named(other) && k <= |other.names|
    requires NoDup(c.names) && forall x :: x in c.cols <==> x in c.names
    ensures var m := MergedUpTo(lay, c, other, k);
      NoDup(m.names) && forall x :: x in m.cols <==> x in m.names
  {
    if k > 0 {
      MergedUpToNames(lay, c, other, k - 1);
    }
  }

  lemma MergedWellFormed(c: Columns, other: Columns, offset: nat)
    requires WellFormed(c) && WellFormed(other)
    ensures WellFormed(Merged(c, other, offset))
  {
    var m := Merged(c, other, offset);
    MergedUpToNames(LayAt(offset), c, other, |other.names|);
    forall x | x in m.cols
      ensures |m.cols[x]| <= m.tokens
    {
      MergedColumn(c, other, offset, x);
    }
  }

  // The value a layer holds at a position, blank where it holds none.
  function ValueAt(c: Columns, x: Buffer, p: nat): Value {
    if x in c.cols && p < |c.cols[x]| then c.cols[x][p] else BLANK
  }

  // A merge reads as the other index where that one has values, and as before elsewhere.
  lemma MergedReads(c: Columns, other: Columns, offset: nat, x: Buffer, p: nat)
    requires WellFormed(other)
    ensures ValueAt(Merged(c, other, offset), x, p) ==
      if x in other.cols && offset <= p < offset + |other.cols[x]| then ValueAt(other, x, p - offset)
      else ValueAt(c, x, p)
  {
    MergedColumn(c, other, offset, x);
    if x in other.cols && p < Max(|Existing(c, x)|, offset + |other.cols[x]|) {
      OverlayAt(Existing(c, x), other.cols[x], offset, p);
    }
  }

  // ---------------------------------------------------------------------------------

  function IndexIn(names: seq<Buffer>, x: Buffer): (i: nat)
    ensures i <= |names| && (i < |names| <==> x in names)
    ensures i < |names| ==> names[i] == x
  {
    if names == [] then 0 else if names[0] == x then 0 else 1 + IndexIn(names[1..], x)
  }

  lemma {:induction false} IndexOfAdded(names: seq<Buffer>, x: Buffer, y: Buffer)
    ensures y in names ==> IndexIn(names + [x], y) == IndexIn(names, y)
    ensures y !in names && x == y ==> IndexIn(names + [x], y) == |names|
  {
    if names != [] && names[0] != y {
      IndexOfAdded(names[1..], x, y);
      assert (names + [x])[1..] == names[1..] + [x];
    }
  }

  lemma {:induction false} IndexOfOwn(names: seq<Buffer>, i: nat)
    requires NoDup(names) && i < |names|
    ensures IndexIn(names, names[i]) == i
  {
  }

  // The first column of every name.
  function FirstColumns(names: seq<Buffer>, data: seq<seq<Value>>): (r: map<Buffer, seq<Value>>)
    requires |names| == |data|
    ensures forall x :: x in r <==> x in names
    ensures forall x :: x in r ==> r[x] == data[IndexIn(names, x)]
  {
    map x | x in names :: data[IndexIn(names, x)]
  }

  lemma ColumnLaidAt(names: seq<Buffer>, data: seq<seq<Value>>, names': seq<Buffer>, grown: seq<seq<Value>>, x: Buffer,
      y: Buffer)
    requires |names| == |data| && |names'| == |grown| && y in names'
    requires x in names ==> names' == names && grown == data
    requires x !in names ==> names' == names + [x] && grown == data + [[]]
    ensures y in names || y == x
    ensures grown[IndexIn(names', y)] == if y in names then data[IndexIn(names, y)] else []
    ensures IndexIn(names', y) == IndexIn(names', x) ==> x == y
  {
    IndexOfAdded(names, x, y);
  }

  lemma ColumnLaidTo(names: seq<Buffer>, data: seq<seq<Value>>, names': seq<Buffer>, grown: seq<seq<Value>>,
      data': seq<seq<Value>>,
                     lay: Lay, x: Buffer, src: seq<Value>, y: Buffer)
    requires |names| == |data| && |names'| == |grown| && IndexIn(names', x) < |names'|
    requires x in names ==> names' == names && grown == data
    requires x !in names ==> names' == names + [x] && grown == data + [[]]
    requires data' == grown[IndexIn(names', x) := lay(grown[IndexIn(names', x)], src)]
    ensures y in names' <==> y in names || y == x
    ensures y in names' && y != x ==> data'[IndexIn(names', y)] == data[IndexIn(names, y)]
    ensures data'[IndexIn(names', x)] == lay(if x in names then data[IndexIn(names, x)] else [], src)
  {
    ColumnLaidAt(names, data, names', grown, x, x);
    if y in names' {
      ColumnLaidAt(names, data, names', grown, x, y);
    }
  }

  lemma SameColumns(r: map<Buffer, seq<Value>>, was: map<Buffer, seq<Value>>, x: Buffer, v: seq<Value>)
    requires forall y :: y in r <==> y in was || y == x
    requires forall y :: y in r ==> r[y] == if y == x then v else was[y]
    ensures r == was[x := v]
  {
  }

  lemma ColumnsLaid(names: seq<Buffer>, data: seq<seq<Value>>, names': seq<Buffer>, grown: seq<seq<Value>>,
      data': seq<seq<Value>>,
                    lay: Lay, x: Buffer, src: seq<Value>)
    requires |names| == |data| && |names'| == |grown| && IndexIn(names', x) < |names'|
    requires x in names ==> names' == names && grown == data
    requires x !in names ==> names' == names + [x] && grown == data + [[]]
    requires data' == grown[IndexIn(names', x) := lay(grown[IndexIn(names', x)], src)]
    ensures FirstColumns(names', data') == Laid(lay, Columns(names, FirstColumns(names, data), 0), x, src).cols
  {
    var r, was := FirstColumns(names', data'), FirstColumns(names, data);
    var v := lay(Existing(Columns(names, was, 0), x), src);
    forall y
      ensures y in r <==> y in was || y == x
      ensures y in r ==> r[y] == if y == x then v else was[y]
    {
      ColumnLaidTo(names, data, names', grown, data', lay, x, src, y);
    }
    SameColumns(r, was, x, v);
  }

  // ---------------------------------------------------------------------------------
  // The fields of an in-memory forward index. A name may occur twice: lookups by name find the
  // first column.
  datatype Fields = Fields(layers: seq<Buffer>, data: seq<seq<Value>>, tokens: nat)

  type Store = f: Fields | |f.layers| == |f.data| witness Fields([], [], 0)

  function ColumnsOf(s: Store): Columns {
    Columns(s.layers, FirstColumns(s.layers, s.data), s.tokens)
  }

  function WithLayer(s: Store, name: Buffer): Store {
    Fields(s.layers + [name], s.data + [[]], s.tokens)
  }

  function WithCell(s: Store, i: nat, p: nat, v: Value): Store
    requires i < |s.data|
  {
    Fields(s.layers, s.data[i := Put(s.data[i], p, v)], Max(s.tokens, p + 1))
  }

  // src laid over the first column of that name, which is added when missing.
  function LaidStore(lay: Lay, s: Store, x: Buffer, src: seq<Value>): Store {
    var t: Store := if x in s.layers then s else WithLayer(s, x);
    var i := IndexIn(t.layers, x);
    Fields(t.layers, t.data[i := lay(t.data[i], src)], t.tokens)
  }

  function StoreUpTo(lay: Lay, s: Store, other: Store, k: nat): Store
    requires k <= |other.layers|
  {
    if k == 0 then s else LaidStore(lay, StoreUpTo(lay, s, other, k - 1), other.layers[k - 1], other.data[k - 1])
  }

  function MergedStore(s: Store, other: Store, offset: nat): Store {
    var t := StoreUpTo(LayAt(offset), s, other, |other.layers|);
    Fields(t.layers, t.data, Max(s.tokens, offset + other.tokens))
  }

  lemma LaidStoreColumns(lay: Lay, s: Store, x: Buffer, src: seq<Value>)
    ensures ColumnsOf(LaidStore(lay, s, x, src)) == Laid(lay, ColumnsOf(s), x, src)
  {
    var t: Store := if x in s.layers then s else WithLayer(s, x);
    ColumnsLaid(s.layers, s.data, t.layers, t.data, LaidStore(lay, s, x, src).data, lay, x, src);
  }

  lemma {:induction false} StoreUpToColumns(lay: Lay, s: Store, other: Store, k: nat)
    requires k <= |other.layers| && NoDup(other.layers)
    ensures ColumnsOf(StoreUpTo(lay, s, other, k)) == MergedUpTo(lay, ColumnsOf(s), ColumnsOf(other), k)
  {
    if k > 0 {
      StoreUpToColumns(lay, s, other, k - 1);
      IndexOfOwn(other.layers, k - 1);
      LaidStoreColumns(lay, StoreUpTo(lay, s, other, k - 1), other.layers[k - 1], other.data[k - 1]);
    }
  }

  // Merging an index whose names are distinct merges the columns.
  lemma MergedStoreColumns(s: Store, other: Store, offset: nat)
    requires NoDup(other.layers)
    ensures ColumnsOf(MergedStore(s, other, offset)) == Merged(ColumnsOf(s), ColumnsOf(other), offset)
  {
    StoreUpToColumns(LayAt(offset), s, other, |other.layers|);
  }

  class InMemoryForward {
    var layers: seq<Buffer>
    var data: seq<seq<Value>>
    var tokenCount: nat

    ghost predicate Valid()
      reads this
    {
      |layers| == |data|
    }

    function View(): Store
      requires Valid()
      reads this
    {
      Fields(layers, data, tokenCount)
    }

    ghost function State(): Columns
      requires Valid()
      reads this
    {
      ColumnsOf(View())
    }

    constructor ()
      ensures Valid() && View() == Fields([], [], 0) && State() == Columns([], map[], 0)
    {
      layers, data, tokenCount := [], [], 0;
    }

    method AddLayer(name: Buffer) returns (index: nat)
      requires Valid()
      modifies this
      ensures Valid() && index == |old(layers)| && tokenCount == old(tokenCount)
      ensures layers == old(layers) + [name] && data == old(data) + [[]]
      ensures View() == WithLayer(old(View()), name)
    {
      layers := layers + [name];
      data := data + [[]];
      index := |layers| - 1;
    }

    method Set(layerIndex: nat, position: nat, value: Value)
      requires Valid() && layerIndex < |data|
      modifies this
      ensures Valid() && layers == old(layers) && tokenCount == Max(old(tokenCount), position + 1)
      ensures data == old(data)[layerIndex := Put(old(data)[layerIndex], position, value)]
      ensures View() == WithCell(old(View()), layerIndex, position, value)
    {
      var layerData := data[layerIndex];
      if position >= |layerData| {
        layerData := Resized(layerData, position + 1);
      }
      data := data[layerIndex := layerData[position := value]];
      tokenCount := Max(tokenCount, position + 1);
    }

    method CopyInto(target: nat, source: seq<Value>, start: nat)
      requires Valid() && target < |data|
      modifies this
      ensures Valid() && layers == old(layers) && tokenCount == old(tokenCount)
      ensures data == old(data)[target := Overlay(old(data)[target], source, start)]
    {
      var column := data[target];
      if start + |source| > |column| {
        column := Resized(column, start + |source|);
      }
      ghost var base := column;
      for j := 0 to |source|
        invariant |column| == |base|
        invariant forall i :: 0 <= i < |base| ==>
          column[i] == if start <= i < start + j then source[i - start] else base[i]
      {
        column := column[start + j := source[j]];
      }
      forall i: nat | i < |column|
        ensures column[i] == Overlay(data[target], source, start)[i]
      {
        OverlayAt(data[target], source, start, i);
      }
      assert column == Overlay(data[target], source, start);
      data := data[target := column];
    }

    method TargetLayer(name: Buffer) returns (target: nat)
      requires Valid()
      modifies this
      ensures Valid() && tokenCount == old(tokenCount) && target == IndexIn(layers, name) < |layers|
      ensures name in old(layers) ==> layers == old(layers) && data == old(data)
      ensures name !in old(layers) ==> layers == old(layers) + [name] && data == old(data) + [[]]
    {
      target := IndexIn(layers, name);
      if target == |layers| {
        IndexOfAdded(layers, name, name);
        target := AddLayer(name);
      }
    }

    method MergeLayer(name: Buffer, source: seq<Value>, offset: nat)
      requires Valid()
      modifies this
      ensures Valid() && View() == LaidStore(LayAt(offset), old(View()), name, source)
    {
      var target := TargetLayer(name);
      ghost var grown := data;
      CopyInto(target, source, offset);
      assert data == grown[target := LayAt(offset)(grown[target], source)];
    }

    method MergeFrom(other: InMemoryForward, offset: nat)
      requires Valid() && other.Valid() && other != this
      modifies this
      ensures Valid() && View() == MergedStore(old(View()), other.View(), offset)
      ensures NoDup(other.layers) ==> State() == Merged(old(State()), other.State(), offset)
    {
      ghost var was, theirs, lay := View(), other.View(), LayAt(offset);
      for k := 0 to |other.layers|
        invariant Valid() && View() == StoreUpTo(lay, was, theirs, k) && tokenCount == was.tokens
      {
        MergeLayer(other.layers[k], other.data[k], offset);
      }
      tokenCount := Max(tokenCount, offset + other.tokenCount);
      if NoDup(other.layers) {
        MergedStoreColumns(was, theirs, offset);
      }
    }

    function LayerData(name: Buffer): (r: Option<seq<Value>>)
      requires Valid()
      reads this
      ensures r == if name in State().cols then Some(State().cols[name]) else None
    {
      var i := IndexIn(layers, name);
      if i < |layers| then Some(data[i]) else None
    }

    function GetStr(position: nat, layer: Buffer): (r: Option<Buffer>)
      requires Valid()
      reads this
    {
      var d := LayerData(layer);
      if d.Some? && position < |d.value| && d.value[position].Str? then Some(d.value[position].text) else None
    }

    function GetInt(position: nat, layer: Buffer): (r: Option<int>)
      requires Valid()
      reads this
    {
      var d := LayerData(layer);
      if d.Some? && position < |d.value| && d.value[position].Num? then Some(d.value[position].n) else None
    }
  }

  // The object holds this value.
  ghost predicate Carries(forward: InMemoryForward, c: Columns)
    reads forward
  {
    forward.Valid() && forward.State() == c
  }

  // ---------------------------------------------------------------------------------
  // write_flat_forward

  // One layer with the encoding chosen for it.
  function Kind(c: Columns, kinds: Buffer -> bool): Buffer -> Source {
    x => Source(x, Existing(c, x), kinds(x))
  }

  function Kinded(c: Columns, kinds: Buffer -> bool): (r: seq<Source>) {
    Each(Kind(c, kinds), c.names, |c.names|)
  }

  // The encoding the direct writer chooses: numeric when the column holds a number.
  function NumericColumn(c: Columns, x: Buffer): bool {
    x in c.cols && IsNumeric(c.cols[x])
  }

  function OwnKinds(c: Columns): Buffer -> bool {
    x => NumericColumn(c, x)
  }

  // The file that holds the whole index.
  function ImageWith(k: Codec, o: Order, c: Columns, kinds: Buffer -> bool): Buffer {
    Image(o, EncodedAll(k, o, Kinded(c, kinds), c.tokens), c.tokens)
  }

  method BuildLayer(k: Codec, o: Order, src: Source, tokenCount: nat) returns (build: LayerBuild)
    ensures build == Encoder(k, o, tokenCount)(src)
  {
    if src.numeric {
      build := BuildDenseNumericLayer(o, src.name, src.data, tokenCount);
    } else {
      build := BuildDictEncodedLayer(k, o, src.name, src.data);
    }
  }

  method BuildLayers(k: Codec, o: Order, srcs: seq<Source>, tokenCount: nat) returns (builds: seq<LayerBuild>)
    ensures builds == EncodedAll(k, o, srcs, tokenCount)
  {
    builds := [];
    ghost var enc := Encoder(k, o, tokenCount);
    for i := 0 to |srcs|
      invariant builds == Each(enc, srcs, i)
    {
      var build := BuildLayer(k, o, srcs[i], tokenCount);
      builds := builds + [build];
    }
  }

  // Every layer with the encoding its values ask for.
  method PickEncodings(forward: InMemoryForward) returns (srcs: seq<Source>)
    requires forward.Valid() && WellFormed(forward.State())
    ensures srcs == Kinded(forward.State(), OwnKinds(forward.State()))
  {
    srcs := [];
    ghost var c := forward.State();
    ghost var kind := Kind(c, OwnKinds(c));
    for i := 0 to |forward.layers|
      invariant srcs == Each(kind, c.names, i)
    {
      var data := forward.LayerData(forward.layers[i]);
      srcs := srcs + [Source(forward.layers[i], data.value, IsNumeric(data.value))];
    }
  }

  method WriteFlatForward(k: Codec, o: Order, forward: InMemoryForward) returns (file: Buffer)
    requires forward.Valid() && WellFormed(forward.State())
    ensures file == ImageWith(k, o, forward.State(), OwnKinds(forward.State()))
  {
    var srcs := PickEncodings(forward);
    var builds := BuildLayers(k, o, srcs, forward.tokenCount);
    file := WriteMfwd(o, builds, forward.tokenCount);
  }
}
