// crates/montre-build/src/builder.rs, IndexSink::merge_from, where both sinks collect forward
// values. The values come out right; the layer names do not, unless the other sink has no layer
// that is new.
module SinkMerge {
  import opened Core
  import opened Sink
  import opened SinkFacts
  import opened SinkLayers
  import Inverse
  import F = Forward
  import L = Layers

  // ---------------------------------------------------------------------------------
  // The values.

  lemma {:induction false} FlatAppend<X, Y>(f: X -> seq<Y>, xs: seq<X>, ys: seq<X>, n: nat)
    requires n <= |ys|
    ensures Flat(f, xs + ys, |xs| + n) == Flat(f, xs, |xs|) + Flat(f, ys, n)
  {
    if n == 0 {
      FlatPrefix(f, xs, ys, |xs|);
    } else {
      FlatAppend(f, xs, ys, n - 1);
    }
  }

  lemma {:induction false} FlatPrefix<X, Y>(f: X -> seq<Y>, xs: seq<X>, ys: seq<X>, n: nat)
    requires n <= |xs|
    ensures Flat(f, xs + ys, n) == Flat(f, xs, n)
  {
    if n > 0 {
      FlatPrefix(f, xs, ys, n - 1);
    }
  }

  // The value of layer l at position p in these columns.
  ghost predicate Reads(s: Index, l: Layer, p: nat, v: L.Value) {
    s.forward.Some? && F.ValueAt(F.ColumnsOf(s.forward.value), l, p) == v
  }

  function LastOr(vs: seq<seq<L.Value>>, p: nat): L.Value {
    if p < |vs| && vs[p] != [] then vs[p][|vs[p]| - 1] else F.BLANK
  }

  lemma RecordsRead(s: Index, vs: seq<seq<L.Value>>, l: Layer, p: nat)
    requires Records(s, vs, l)
    ensures Reads(s, l, p, LastOr(vs, p))
  {
    CellOf(s, vs, l, p);
  }

  lemma {:induction false} NamedReads(f: F.Store, names: seq<Layer>, l: Layer)
    ensures F.Existing(F.ColumnsOf(WithLayers(f, names)), l) == F.Existing(F.ColumnsOf(f), l)
    decreases |names|
  {
    if names == [] {
      assert WithLayers(f, names) == f;
    } else {
      var n := |names| - 1;
      NamedReads(f, names[..n], l);
      assert names == names[..n] + [names[n]];
      assert WithLayers(f, names) == F.WithLayer(WithLayers(f, names[..n]), names[n]);
      AddedColumn(WithLayers(f, names[..n]), names[n], l);
    }
  }

  lemma SameExisting(c: F.Columns, d: F.Columns, l: Layer, p: nat)
    requires F.Existing(c, l) == F.Existing(d, l)
    ensures F.ValueAt(c, l, p) == F.ValueAt(d, l, p)
  {
  }

  // Merged columns read as the other ones from where these begin, and as the first before.
  lemma ColumnsRead(c: F.Columns, d: F.Columns, m: F.Columns, offset: nat, l: Layer, p: nat)
    requires F.WellFormed(d) && F.Existing(m, l) == F.Existing(F.Merged(c, d, offset), l)
    requires p >= offset ==> F.ValueAt(c, l, p) == F.BLANK
    ensures F.ValueAt(m, l, p) == if p < offset then F.ValueAt(c, l, p) else F.ValueAt(d, l, p - offset)
  {
    F.MergedReads(c, d, offset, l, p);
    SameExisting(m, F.Merged(c, d, offset), l, p);
  }

  // The forward columns of the merged sink, which hold under the name l what merging the columns
  // of the two gives.
  lemma MergedStoreOf(a: Index, b: Index, l: Layer) returns (g: F.Store)
    requires a.forward.Some? && b.forward.Some? && NoDup(b.forward.value.layers)
    ensures Merged(a, b).forward == Some(g)
    ensures F.Existing(F.ColumnsOf(g), l) ==
      F.Existing(F.Merged(F.ColumnsOf(a.forward.value), F.ColumnsOf(b.forward.value), a.position), l)
  {
    var f, names := F.MergedStore(a.forward.value, b.forward.value, a.position), NewNames(a.layerNames, b.layerNames);
    F.MergedStoreColumns(a.forward.value, b.forward.value, a.position);
    NamedReads(f, names, l);
    g := WithLayers(f, names);
  }

  lemma LastOfBoth(xs: seq<seq<L.Value>>, ys: seq<seq<L.Value>>, p: nat)
    ensures LastOr(xs + ys, p) == if p < |xs| then LastOr(xs, p) else LastOr(ys, p - |xs|)
  {
  }

  // What the columns of an index with these values hold at p.
  lemma RecordedColumns(s: Index, vs: seq<seq<L.Value>>, l: Layer, p: nat) returns (c: F.Columns)
    requires Records(s, vs, l)
    ensures c == F.ColumnsOf(s.forward.value) && s.position == |vs| && Straight(s)
    ensures F.ValueAt(c, l, p) == LastOr(vs, p)
  {
    c := F.ColumnsOf(s.forward.value);
    RecordsRead(s, vs, l, p);
  }

  lemma ReadsColumns(m: Index, g: F.Store, l: Layer, p: nat, v: L.Value)
    requires m.forward == Some(g) && F.ValueAt(F.ColumnsOf(g), l, p) == v
    ensures Reads(m, l, p, v)
  {
  }

  lemma BothColumns(a: Index, b: Index, xs: seq<seq<L.Value>>, ys: seq<seq<L.Value>>, l: Layer, p: nat)
    returns (c: F.Columns, d: F.Columns, g: F.Store)
    requires Records(a, xs, l) && Records(b, ys, l) && F.WellFormed(F.ColumnsOf(b.forward.value))
    ensures F.WellFormed(d) && F.ValueAt(c, l, p) == LastOr(xs, p)
    ensures p >= |xs| ==> F.ValueAt(d, l, p - |xs|) == LastOr(ys, p - |xs|)
    ensures Merged(a, b).forward == Some(g)
    ensures F.Existing(F.ColumnsOf(g), l) == F.Existing(F.Merged(c, d, |xs|), l)
  {
    c := RecordedColumns(a, xs, l, p);
    d := RecordedColumns(b, ys, l, if p < |xs| then 0 else p - |xs|);
    g := MergedStoreOf(a, b, l);
  }

  lemma ValueOf(c: F.Columns, d: F.Columns, m: F.Columns, offset: nat, l: Layer, p: nat, x: L.Value, y: L.Value)
    requires F.WellFormed(d) && F.Existing(m, l) == F.Existing(F.Merged(c, d, offset), l)
    requires F.ValueAt(c, l, p) == x
    requires p >= offset ==> x == F.BLANK && F.ValueAt(d, l, p - offset) == y
    ensures F.ValueAt(m, l, p) == if p < offset then x else y
  {
    ColumnsRead(c, d, m, offset, l, p);
  }

  lemma StoreAgrees(c: F.Columns, d: F.Columns, m: F.Columns, xs: seq<seq<L.Value>>, ys: seq<seq<L.Value>>, l: Layer,
      p: nat,
                    x: L.Value, y: L.Value)
    requires F.WellFormed(d) && F.Existing(m, l) == F.Existing(F.Merged(c, d, |xs|), l)
    requires F.ValueAt(c, l, p) == x == LastOr(xs, p)
    requires p >= |xs| ==> F.ValueAt(d, l, p - |xs|) == y == LastOr(ys, p - |xs|)
    ensures F.ValueAt(m, l, p) == LastOr(xs + ys, p)
  {
    LastOfBoth(xs, ys, p);
    ValueOf(c, d, m, |xs|, l, p, x, y);
  }

  // A merged sink reads as one with the values of both.
  lemma MergedRecords(a: Index, b: Index, xs: seq<seq<L.Value>>, ys: seq<seq<L.Value>>, l: Layer, p: nat)
    requires Records(a, xs, l) && Records(b, ys, l) && F.WellFormed(F.ColumnsOf(b.forward.value))
    ensures Reads(Merged(a, b), l, p, LastOr(xs + ys, p))
  {
    var c, d, g := BothColumns(a, b, xs, ys, l, p);
    StoreAgrees(c, d, F.ColumnsOf(g), xs, ys, l, p, LastOr(xs, p), if p < |xs| then F.BLANK else LastOr(ys, p - |xs|));
    ReadsColumns(Merged(a, b), g, l, p, LastOr(xs + ys, p));
  }

  lemma LayerAppend(o: Options, cs: seq<Document>, ds: seq<Document>, l: Layer)
    ensures LayerOf(o, cs + ds, l) == LayerOf(o, cs, l) + LayerOf(o, ds, l)
  {
    FlatAppend(SentenceTokens, cs, ds, |ds|);
    assert TokensOf(cs + ds) == TokensOf(cs) + TokensOf(ds);
  }

  lemma PartsRead(o: Options, cs: seq<Document>, ds: seq<Document>, l: Layer, p: nat)
    ensures Reads(Merged(Built(o, Empty(true), cs), Built(o, Empty(true), ds)), l, p, LastOr(LayerOf(o, cs + ds, l), p))
    ensures Reads(Built(o, Empty(true), cs + ds), l, p, LastOr(LayerOf(o, cs + ds, l), p))
  {
    BuiltRecords(o, cs, l);
    BuiltRecords(o, ds, l);
    BuiltRecords(o, cs + ds, l);
    BuiltWellFormed(o, ds);
    LayerAppend(o, cs, ds, l);
    MergedRecords(Built(o, Empty(true), cs), Built(o, Empty(true), ds), LayerOf(o, cs, l), LayerOf(o, ds, l), l, p);
    RecordsRead(Built(o, Empty(true), cs + ds), LayerOf(o, cs + ds, l), l, p);
  }

  lemma FoldJoin<X>(f: (Index, X) -> Index, s: Index, xs: seq<X>, ys: seq<X>)
    ensures Fold(f, s, xs + ys, |xs + ys|) == Fold(f, Fold(f, s, xs, |xs|), ys, |ys|)
  {
    FoldAppend(f, s, xs, ys, |ys|);
  }

  lemma BuiltAppend(o: Options, s: Index, cs: seq<Document>, ds: seq<Document>)
    ensures Built(o, s, cs + ds) == Built(o, Built(o, s, cs), ds)
  {
    FoldJoin(DocumentStep(o), s, cs, ds);
  }

  lemma BuiltTwice(o: Options, cs: seq<Document>, ds: seq<Document>)
    ensures Built(o, Empty(false), cs + ds) == Merged(Built(o, Empty(false), cs), Built(o, Empty(false), ds))
  {
    BuiltAppend(o, Empty(false), cs, ds);
    BuiltCombines(o, cs);
    BuiltInParts(o, Built(o, Empty(false), cs), ds);
  }

  lemma BuiltCombines(o: Options, ds: seq<Document>)
    ensures Combining(Built(o, Empty(false), ds))
  {
    DroppedBuilt(o, ds);
    BuiltRecords(o, ds, WORD);
  }

  // Two sinks with forward values, built apart and merged, agree with the sink of all the
  // documents: in every forward value, and in everything else.
  lemma MergedBuilt(o: Options, cs: seq<Document>, ds: seq<Document>)
    ensures var m, s := Merged(Built(o, Empty(true), cs), Built(o, Empty(true), ds)), Built(o, Empty(true), cs + ds);
      && Dropped(m) == Dropped(s)
      && forall l, p: nat, v :: Reads(m, l, p, v) <==> Reads(s, l, p, v)
  {
    var a, b := Built(o, Empty(true), cs), Built(o, Empty(true), ds);
    var m, s := Merged(a, b), Built(o, Empty(true), cs + ds);
    DroppedBuilt(o, cs);
    DroppedBuilt(o, ds);
    DroppedBuilt(o, cs + ds);
    BuiltTwice(o, cs, ds);
    assert Dropped(m) == Merged(Dropped(a), Dropped(b));
    forall l, p: nat, v
      ensures Reads(m, l, p, v) <==> Reads(s, l, p, v)
    {
      PartsRead(o, cs, ds, l, p);
    }
  }

  // ---------------------------------------------------------------------------------
  // The names: forward.merge_from adds the columns of new layers, and ensure_layer, which does
  // not look there, adds another one for each.

  lemma {:induction false} MergedPrefix(a: seq<Text>, b: seq<Text>)
    ensures a <= MergeTerms(a, b)
    decreases |b|
  {
    if b != [] {
      MergedPrefix(a, b[..|b| - 1]);
    }
  }

  lemma {:induction false} MergedNoDup(a: seq<Text>, b: seq<Text>)
    requires NoDup(a)
    ensures NoDup(MergeTerms(a, b))
    decreases |b|
  {
    if b != [] {
      MergedNoDup(a, b[..|b| - 1]);
    }
  }

  lemma {:induction false} StoreNames(lay: F.Lay, s: F.Store, other: F.Store, k: nat)
    requires k <= |other.layers|
    ensures F.StoreUpTo(lay, s, other, k).layers == MergeTerms(s.layers, other.layers[..k])
  {
    if k > 0 {
      StoreNames(lay, s, other, k - 1);
      assert other.layers[..k][..k - 1] == other.layers[..k - 1];
    }
  }

  lemma MergedNames(a: Index, b: Index)
    requires Straight(a) && Straight(b)
    ensures Merged(a, b).layerNames == MergeTerms(a.layerNames, b.layerNames)
    ensures Merged(a, b).forward.Some?
    ensures Merged(a, b).forward.value.layers ==
      MergeTerms(a.layerNames, b.layerNames) + NewNames(a.layerNames, b.layerNames)
  {
    var f, g := a.forward.value, b.forward.value;
    StoreNames(F.LayAt(a.position), f, g, |g.layers|);
    assert g.layers[..|g.layers|] == g.layers;
  }

  // Every layer keeps its one column if and only if the other sink has no layer that is new.
  lemma MergedStraightIff(a: Index, b: Index)
    requires Straight(a) && Straight(b)
    ensures Straight(Merged(a, b)) <==> forall l :: l in b.layerNames ==> l in a.layerNames
  {
    var names, added := MergeTerms(a.layerNames, b.layerNames), NewNames(a.layerNames, b.layerNames);
    MergedNames(a, b);
    MergedNoDup(a.layerNames, b.layerNames);
    MergedPrefix(a.layerNames, b.layerNames);
    if forall l :: l in b.layerNames ==> l in a.layerNames {
      NothingNew(a.layerNames, b.layerNames);
      assert names + added == names;
    } else {
      var l :| l in b.layerNames && l !in a.layerNames;
      MergedHas(a.layerNames, b.layerNames, l);
      assert names == a.layerNames + added;
      assert added != [];
      assert |names + added| > |names|;
    }
  }

  // A later value for a new layer goes to its second column, where no lookup by name finds it.
  lemma LaterValueLost(a: Index, b: Index, l: Layer, v: L.Value)
    requires Straight(a) && Straight(b) && l in b.layerNames && l !in a.layerNames
    ensures Column(Annotated(Merged(a, b), l, v), l) == Column(Merged(a, b), l)
  {
    var s := Merged(a, b);
    var names, added := MergeTerms(a.layerNames, b.layerNames), NewNames(a.layerNames, b.layerNames);
    MergedNames(a, b);
    MergedPrefix(a.layerNames, b.layerNames);
    MergedHas(a.layerNames, b.layerNames, l);
    assert names == a.layerNames + added;
    assert l in added;
    var f := s.forward.value;
    SecondOfTwo(names, added, f.layers, l);
    OtherCell(f, LastIn(f.layers, l).value, s.position, v, l);
  }

  lemma LastAfter(names: seq<Layer>, l: Layer, j: nat)
    requires j < |names| && names[j] == l
    ensures LastIn(names, l).Some? && j <= LastIn(names, l).value
  {
    var last := LastIn(names, l);
    assert l in names;
  }

  lemma {:induction false} FirstBefore(names: seq<Layer>, l: Layer, i: nat)
    requires i < |names| && names[i] == l
    ensures F.IndexIn(names, l) <= i
  {
    if names[0] != l {
      FirstBefore(names[1..], l, i - 1);
    }
  }

  lemma SecondIn(names: seq<Layer>, n: nat, l: Layer, i: nat, j: nat)
    requires i < n <= j < |names| && names[i] == l && names[j] == l
    ensures LastIn(names, l).Some? && F.IndexIn(names, l) < n <= LastIn(names, l).value
  {
    FirstBefore(names, l, i);
    LastAfter(names, l, j);
  }

  lemma SecondOfTwo(names: seq<Layer>, added: seq<Layer>, all: seq<Layer>, l: Layer)
    requires all == names + added && l in names && l in added
    ensures LastIn(all, l).Some? && F.IndexIn(all, l) < |names| <= LastIn(all, l).value
  {
    var i, j := F.IndexIn(names, l), F.IndexIn(added, l);
    assert all[i] == l && all[|names| + j] == l;
    SecondIn(all, |names|, l, i, |names| + j);
  }

  lemma OtherCell(f: F.Store, i: nat, p: nat, v: L.Value, l: Layer)
    requires i < |f.data| && l in f.layers && i != F.IndexIn(f.layers, l)
    ensures F.Existing(F.ColumnsOf(F.WithCell(f, i, p, v)), l) == F.Existing(F.ColumnsOf(f), l)
  {
  }

  // ---------------------------------------------------------------------------------
  // Read off the documents.

  // Every layer beyond the base layers has a value.
  ghost predicate NamesUsed(s: Index) {
    Ready(s) && forall l :: l in s.layerNames && l !in BASE ==> Column(s, l) != []
  }

  lemma AppliedUsed(s: Index, w: Write)
    requires NamesUsed(s) && Known(w)
    ensures NamesUsed(Applied(s, w))
  {
    var r := Applied(s, w);
    AppliedColumn(s, w, w.layer);
    forall l | l in r.layerNames && l !in BASE
      ensures Column(r, l) != []
    {
      AppliedColumn(s, w, l);
      NamedByWrite(s, w, l);
    }
  }

  lemma NamedByWrite(s: Index, w: Write, l: Layer)
    requires l in Applied(s, w).layerNames
    ensures l in s.layerNames || l == w.layer
  {
  }

  lemma SteppedUsed(s: Index, ws: seq<Write>, tight: bool)
    requires NamesUsed(s) && forall i :: 0 <= i < |ws| ==> Known(ws[i])
    ensures NamesUsed(Stepped(s, ws, tight))
  {
    forall t, w | NamesUsed(t) && Known(w)
      ensures NamesUsed(Applied(t, w))
    {
      AppliedUsed(t, w);
    }
    FoldKeepsIf(NamesUsed, Known, Applied, s, ws, |ws|);
    EndedUsed(Fold(Applied, s, ws, |ws|), tight);
  }

  lemma EndedUsed(s: Index, tight: bool)
    requires NamesUsed(s)
    ensures NamesUsed(EndedToken(s, tight))
  {
    forall l
      ensures Column(EndedToken(s, tight), l) == Column(s, l)
    {
    }
  }

  lemma TokenUsed(o: Options, s: Index, t: Token)
    requires NamesUsed(s)
    ensures NamesUsed(TokenStep(o)(s, t))
  {
    WritesKnown(t, o.decompose);
    SteppedUsed(s, Writes(t, o.decompose), t.spaceAfterNo);
  }

  lemma BuiltUsed(o: Options, ds: seq<Document>)
    ensures NamesUsed(Valued(Built(o, Empty(true), ds)))
  {
    var ts, step := TokensOf(ds), TokenStep(o);
    EmptyRecords(WORD);
    BuiltFromTokens(o, true, ds);
    forall s, t | NamesUsed(s)
      ensures NamesUsed(step(s, t))
    {
      TokenUsed(o, s, t);
    }
    FoldKeeps(NamesUsed, step, Empty(true), ts, |ts|);
  }

  // Some token has a value for the layer.
  ghost predicate Written(o: Options, ds: seq<Document>, l: Layer) {
    exists i :: 0 <= i < |TokensOf(ds)| && TokenValues(TokensOf(ds)[i], o.decompose, l) != []
  }

  ghost predicate AnyGiven(vs: seq<seq<L.Value>>) {
    exists i :: 0 <= i < |vs| && vs[i] != []
  }

  lemma ColumnGiven(vs: seq<seq<L.Value>>, col: seq<L.Value>)
    requires Lasts(vs, col)
    ensures col != [] <==> AnyGiven(vs)
  {
    if col != [] {
      assert vs[|col| - 1] != [];
    }
  }

  lemma ColumnNamed(s: Index, l: Layer)
    requires Straight(s) && Column(s, l) != []
    ensures l in s.layerNames
  {
  }

  lemma NamedIff(s: Index, vs: seq<seq<L.Value>>, l: Layer)
    requires NamesUsed(s) && Lasts(vs, Column(s, l))
    ensures l in s.layerNames <==> l in BASE || AnyGiven(vs)
  {
    ColumnGiven(vs, Column(s, l));
    if AnyGiven(vs) {
      ColumnNamed(s, l);
    }
  }

  lemma LayerGiven(o: Options, ds: seq<Document>, l: Layer)
    ensures AnyGiven(LayerOf(o, ds, l)) <==> Written(o, ds, l)
  {
    var vs, ts := LayerOf(o, ds, l), TokensOf(ds);
    assert |vs| == |ts| && forall i :: 0 <= i < |vs| ==> vs[i] == TokenValues(ts[i], o.decompose, l);
  }

  // The layers of a built index are the base layers and those that some token has a value for.
  lemma BuiltNames(o: Options, ds: seq<Document>, l: Layer)
    ensures var s := Built(o, Empty(true), ds);
      Straight(s) && (l in s.layerNames <==> l in BASE || Written(o, ds, l))
  {
    var s := Built(o, Empty(true), ds);
    BuiltRecords(o, ds, l);
    BuiltUsed(o, ds);
    ColumnForAt(LayerOf(o, ds, l));
    assert Column(s, l) == Column(Valued(s), l);
    NamedIff(Valued(s), LayerOf(o, ds, l), l);
    LayerGiven(o, ds, l);
  }

  // Merging the sinks of two parts of the corpus keeps one column per layer if and only if every
  // layer that the second part writes is a base layer or written by the first.
  lemma PartsStraightIff(o: Options, cs: seq<Document>, ds: seq<Document>)
    ensures Straight(Merged(Built(o, Empty(true), cs), Built(o, Empty(true), ds))) <==>
      forall l :: Written(o, ds, l) ==> l in BASE || Written(o, cs, l)
  {
    var a, b := Built(o, Empty(true), cs), Built(o, Empty(true), ds);
    forall l
      ensures l in a.layerNames <==> l in BASE || Written(o, cs, l)
      ensures l in b.layerNames <==> l in BASE || Written(o, ds, l)
    {
      BuiltNames(o, cs, l);
      BuiltNames(o, ds, l);
    }
    BuiltNames(o, cs, WORD);
    BuiltNames(o, ds, WORD);
    MergedStraightIff(a, b);
  }

  // One document without features, one whose token has the feature K=1.
  lemma NewLayerWitness(o: Options)
    requires o.decompose
    ensures !Straight(Merged(
      Built(o, Empty(true), Inverse.OneSentence([Inverse.Bare(None, None)])),
      Built(o, Empty(true), Inverse.OneSentence([Inverse.Bare(None, Some([75, 61, 49]))]))))
  {
    var plain, marked := Inverse.Bare(None, None), Inverse.Bare(None, Some([75, 61, 49]));
    var cs, ds := Inverse.OneSentence([plain]), Inverse.OneSentence([marked]);
    var l := Feature([75]);
    Inverse.OneSentenceTokens([plain]);
    Inverse.OneSentenceTokens([marked]);
    Inverse.FeatureGives(plain, [75]);
    Inverse.FeatureGives(marked, [75]);
    Inverse.FeatureApart([75]);
    OnePair();
    assert TokensOf(ds)[0] == marked && Written(o, ds, l);
    assert !Written(o, cs, l);
    PartsStraightIff(o, cs, ds);
  }

  lemma OnePair()
    ensures Inverse.FeatureValues(Inverse.Bare(None, Some([75, 61, 49])), [75]) == [L.Str([49])]
  {
    var feats: Text := [75, 61, 49];
    Inverse.CutNone(feats, BAR);
    Inverse.CutHere(feats, EQUALS, 1);
    assert Split(feats, BAR) == [feats];
    assert feats[..1] == [75] && feats[2..] == [49];
    assert Inverse.KeyValues([feats], 0, [75]) == [];
  }
}
