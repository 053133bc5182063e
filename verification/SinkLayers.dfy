// What a built index holds in one layer: its inverted and its forward values, each described by
// the tokens alone, and exactly when the two are inverse to each other.
module SinkLayers {
  import opened Core
  import opened Bytes
  import opened Sink
  import opened SinkFacts
  import F = Forward
  import L = Layers
  import R = RoundTrip

  // ---------------------------------------------------------------------------------
  // Reading one layer of an index.

  function At(s: Index, l: Layer, v: Text): set<nat> {
    Found(Values(s.inverted, l), v)
  }

  // The first column of that name.
  function Column(s: Index, l: Layer): seq<L.Value> {
    if s.forward.None? then [] else F.Existing(F.ColumnsOf(s.forward.value), l)
  }

  function ColumnOf(l: Layer): Index -> seq<L.Value> {
    s => Column(s, l)
  }

  // What get_str and get_int of the forward index in memory see.
  function Cell(s: Index, l: Layer, p: nat): Option<L.Value> {
    if p < |Column(s, l)| then Some(Column(s, l)[p]) else None
  }

  // Each name of the sink has one column, in the same order.
  ghost predicate Straight(s: Index) {
    s.forward.Some? && s.forward.value.layers == s.layerNames && NoDup(s.layerNames)
  }

  ghost predicate HasBase(s: Index) {
    forall l :: l in BASE ==> l in s.layerNames
  }

  // ---------------------------------------------------------------------------------
  // One annotation.

  lemma OnlyColumn(names: seq<Layer>, l: Layer)
    requires NoDup(names) && l in names
    ensures LastIn(names, l) == Some(F.IndexIn(names, l))
  {
    var i, j := F.IndexIn(names, l), LastIn(names, l).value;
    assert names[i] == names[j];
  }

  lemma {:induction false} DistinctIndex(names: seq<Layer>, x: Layer, y: Layer)
    requires x in names && y in names && x != y
    ensures F.IndexIn(names, x) != F.IndexIn(names, y)
  {
    assert names[F.IndexIn(names, x)] == x && names[F.IndexIn(names, y)] == y;
  }

  lemma CellColumn(f: F.Store, l: Layer, p: nat, v: L.Value, k: Layer)
    requires l in f.layers
    ensures var i := F.IndexIn(f.layers, l);
      F.Existing(F.ColumnsOf(F.WithCell(f, i, p, v)), k) ==
        if k == l then F.Put(F.Existing(F.ColumnsOf(f), l), p, v) else F.Existing(F.ColumnsOf(f), k)
  {
    if k in f.layers && k != l {
      DistinctIndex(f.layers, k, l);
    }
  }

  lemma AddedColumn(f: F.Store, l: Layer, k: Layer)
    ensures F.Existing(F.ColumnsOf(F.WithLayer(f, l)), k) == F.Existing(F.ColumnsOf(f), k)
  {
    F.IndexOfAdded(f.layers, l, k);
  }

  lemma SetColumn(f: F.Store, names: seq<Layer>, l: Layer, p: nat, v: L.Value, k: Layer)
    requires f.layers == names && NoDup(names) && l in names
    ensures var r := SetIn(Some(f), names, l, p, v);
      && r.Some? && r.value.layers == names && r.value.tokens == Max(f.tokens, p + 1)
      && F.Existing(F.ColumnsOf(r.value), k) ==
         if k == l then F.Put(F.Existing(F.ColumnsOf(f), l), p, v) else F.Existing(F.ColumnsOf(f), k)
  {
    OnlyColumn(names, l);
    CellColumn(f, l, p, v, k);
  }

  // Ready for annotations of tokens: every layer has one column, the base layers are there.
  ghost predicate Ready(s: Index) {
    Straight(s) && HasBase(s)
  }

  lemma EnsuredNames(s: Index, l: Layer)
    requires Ready(s)
    ensures Ready(Ensured(s, l)) && l in Ensured(s, l).layerNames && Ensured(s, l).position == s.position
  {
  }

  lemma EnsuredColumn(s: Index, l: Layer, k: Layer)
    requires s.forward.Some?
    ensures Column(Ensured(s, l), k) == Column(s, k)
    ensures Ensured(s, l).forward.Some? && Ensured(s, l).forward.value.tokens == s.forward.value.tokens
  {
    AddedColumn(s.forward.value, l, k);
  }

  lemma AnnotatedColumn(s: Index, l: Layer, v: L.Value, k: Layer)
    requires Ready(s) && l in s.layerNames
    ensures Ready(Annotated(s, l, v)) && Annotated(s, l, v).position == s.position
    ensures Column(Annotated(s, l, v), k) == if k == l then F.Put(Column(s, l), s.position, v) else Column(s, k)
    ensures Annotated(s, l, v).forward.value.tokens == Max(s.forward.value.tokens, s.position + 1)
  {
    SetColumn(s.forward.value, s.layerNames, l, s.position, v, k);
  }

  lemma AnnotatedAt(s: Index, l: Layer, v: L.Value, k: Layer, w: Text)
    ensures At(Annotated(s, l, v), k, w) ==
      if k == l && v == L.Str(w) && !ForwardOnly(l) then At(s, k, w) + {s.position} else At(s, k, w)
  {
  }

  // The layer of an annotation is known, or made first.
  predicate Known(w: Write) {
    w.ensured || w.layer in BASE
  }

  // The index that a write annotates: the same columns, with the layer made.
  lemma WriteTarget(s: Index, w: Write) returns (t: Index)
    requires Ready(s) && Known(w)
    ensures Applied(s, w) == Annotated(t, w.layer, w.value) && Ready(t) && w.layer in t.layerNames
    ensures t.position == s.position && t.forward.value.tokens == s.forward.value.tokens
    ensures forall k {:trigger Column(t, k)} :: Column(t, k) == Column(s, k)
  {
    t := if w.ensured then Ensured(s, w.layer) else s;
    if w.ensured {
      EnsuredNames(s, w.layer);
      EnsuredColumn(s, w.layer, w.layer);
      forall k
        ensures Column(t, k) == Column(s, k)
      {
        EnsuredColumn(s, w.layer, k);
      }
    }
  }

  lemma AppliedColumn(s: Index, w: Write, k: Layer)
    requires Ready(s) && Known(w)
    ensures Ready(Applied(s, w)) && Applied(s, w).position == s.position
    ensures Column(Applied(s, w), k) == if k == w.layer then F.Put(Column(s, k), s.position, w.value) else Column(s, k)
    ensures Applied(s, w).forward.value.tokens == Max(s.forward.value.tokens, s.position + 1)
  {
    var t := WriteTarget(s, w);
    AnnotatedColumn(t, w.layer, w.value, k);
  }

  lemma AppliedAt(s: Index, w: Write, k: Layer, v: Text)
    ensures At(Applied(s, w), k, v) ==
      if k == w.layer && w.value == L.Str(v) && !ForwardOnly(k) then At(s, k, v) + {s.position} else At(s, k, v)
  {
    var t := if w.ensured then Ensured(s, w.layer) else s;
    AnnotatedAt(t, w.layer, w.value, k, v);
  }

  // ---------------------------------------------------------------------------------
  // The annotations of one token.

  // The values that the first n annotations give to a layer, in order.
  function Given(ws: seq<Write>, n: nat, l: Layer): seq<L.Value>
    requires n <= |ws|
  {
    if n == 0 then [] else Given(ws, n - 1, l) + if ws[n - 1].layer == l then [ws[n - 1].value] else []
  }

  lemma PutTwice(col: seq<L.Value>, p: nat, v: L.Value, w: L.Value)
    ensures F.Put(F.Put(col, p, v), p, w) == F.Put(col, p, w)
  {
  }

  // The last value counts.
  function PutLast(col: seq<L.Value>, p: nat, vs: seq<L.Value>): seq<L.Value> {
    if vs == [] then col else F.Put(col, p, vs[|vs| - 1])
  }

  // col is kept by f as one column is kept by annotations.
  lemma {:induction false} FoldColumn(
      ready: Index -> bool, col: Index -> seq<L.Value>,
      f: (Index, Write) -> Index, s: Index, ws: seq<Write>, n: nat, l: Layer)
    requires n <= |ws| && ready(s) && forall i :: 0 <= i < n ==> Known(ws[i])
    requires forall t, w {:trigger f(t, w)} :: ready(t) && Known(w) ==>
      && ready(f(t, w)) && f(t, w).position == t.position
      && col(f(t, w)) == if w.layer == l then F.Put(col(t), t.position, w.value) else col(t)
    ensures var r := Fold(f, s, ws, n);
      ready(r) && r.position == s.position && col(r) == PutLast(col(s), s.position, Given(ws, n, l))
  {
    if n > 0 {
      FoldColumn(ready, col, f, s, ws, n - 1, l);
      if Given(ws, n - 1, l) != [] && ws[n - 1].layer == l {
        PutTwice(col(s), s.position, Given(ws, n - 1, l)[|Given(ws, n - 1, l)| - 1], ws[n - 1].value);
      }
    }
  }

  lemma WritesColumn(s: Index, ws: seq<Write>, l: Layer)
    requires Ready(s) && forall i :: 0 <= i < |ws| ==> Known(ws[i])
    ensures var r := Fold(Applied, s, ws, |ws|);
      && Ready(r) && r.position == s.position
      && Column(r, l) == PutLast(Column(s, l), s.position, Given(ws, |ws|, l))
  {
    var col := ColumnOf(l);
    forall t, w | Ready(t) && Known(w)
      ensures Ready(Applied(t, w)) && Applied(t, w).position == t.position
      ensures col(Applied(t, w)) == if w.layer == l then F.Put(col(t), t.position, w.value) else col(t)
    {
      AppliedColumn(t, w, l);
    }
    FoldColumn(Ready, col, Applied, s, ws, |ws|, l);
  }

  lemma {:induction false} WritesAt(s: Index, ws: seq<Write>, n: nat, l: Layer, v: Text)
    requires n <= |ws|
    ensures var r := Fold(Applied, s, ws, n);
      && r.position == s.position
      && At(r, l, v) == At(s, l, v) + if L.Str(v) in Given(ws, n, l) && !ForwardOnly(l) then {s.position} else {}
  {
    if n > 0 {
      WritesAt(s, ws, n - 1, l, v);
      AppliedAt(Fold(Applied, s, ws, n - 1), ws[n - 1], l, v);
    }
  }

  // ---------------------------------------------------------------------------------
  // All tokens.

  // The column that these values make, one list of them per token.
  function ColumnFor(vs: seq<seq<L.Value>>): seq<L.Value> {
    if vs == [] then [] else PutLast(ColumnFor(vs[..|vs| - 1]), |vs| - 1, vs[|vs| - 1])
  }

  // The last of the values given for every position, blank where none was, and no longer than
  // the last position with one.
  ghost predicate Lasts(vs: seq<seq<L.Value>>, col: seq<L.Value>) {
    && |col| <= |vs|
    && (col != [] ==> vs[|col| - 1] != [])
    && (forall p :: 0 <= p < |col| ==> col[p] == if vs[p] == [] then F.BLANK else vs[p][|vs[p]| - 1])
    && (forall p :: |col| <= p < |vs| ==> vs[p] == [])
  }

  lemma PutAfter(col: seq<L.Value>, n: nat, v: L.Value)
    requires |col| <= n
    ensures var r := F.Put(col, n, v);
      && |r| == n + 1 && r[n] == v
      && forall p :: 0 <= p < n ==> r[p] == if p < |col| then col[p] else F.BLANK
  {
  }

  lemma LastsNext(vs: seq<seq<L.Value>>, col: seq<L.Value>, last: seq<L.Value>)
    requires Lasts(vs, col)
    ensures Lasts(vs + [last], PutLast(col, |vs|, last))
  {
    assert forall p :: 0 <= p < |vs| ==> (vs + [last])[p] == vs[p];
    if last != [] {
      PutAfter(col, |vs|, last[|last| - 1]);
    }
  }

  lemma {:induction false} ColumnForAt(vs: seq<seq<L.Value>>)
    ensures Lasts(vs, ColumnFor(vs))
  {
    if vs != [] {
      var before, last := vs[..|vs| - 1], vs[|vs| - 1];
      ColumnForAt(before);
      LastsNext(before, ColumnFor(before), last);
      assert before + [last] == vs;
    }
  }

  // p is in the inverted index of layer l under v exactly where it was given.
  ghost predicate Inverts(s: Index, vs: seq<seq<L.Value>>, l: Layer) {
    forall v: Text, p: nat :: p in At(s, l, v) <==> p < |vs| && GivenAt(vs, p, l, v)
  }

  predicate GivenAt(vs: seq<seq<L.Value>>, p: nat, l: Layer, v: Text)
    requires p < |vs|
  {
    L.Str(v) in vs[p] && !ForwardOnly(l)
  }

  // s is the index of so many tokens, and layer l holds these values.
  ghost predicate Records(s: Index, vs: seq<seq<L.Value>>, l: Layer) {
    Ready(s) && s.position == |vs| && Column(s, l) == ColumnFor(vs) && Inverts(s, vs, l)
  }

  lemma SteppedInverts(s: Index, ws: seq<Write>, vs: seq<seq<L.Value>>, l: Layer)
    requires Inverts(s, vs, l) && s.position == |vs|
    ensures Inverts(Fold(Applied, s, ws, |ws|), vs + [Given(ws, |ws|, l)], l)
  {
    var r, us := Fold(Applied, s, ws, |ws|), vs + [Given(ws, |ws|, l)];
    forall v: Text, p: nat
      ensures p in At(r, l, v) <==> p < |us| && GivenAt(us, p, l, v)
    {
      WritesAt(s, ws, |ws|, l, v);
      assert p < |vs| ==> (GivenAt(us, p, l, v) <==> GivenAt(vs, p, l, v));
    }
  }

  lemma EndedRecords(r: Index, tight: bool, vs: seq<seq<L.Value>>, l: Layer)
    requires Ready(r) && r.position + 1 == |vs| && Column(r, l) == ColumnFor(vs) && Inverts(r, vs, l)
    ensures Records(EndedToken(r, tight), vs, l)
  {
    var t := EndedToken(r, tight);
    assert forall v :: At(t, l, v) == At(r, l, v);
  }

  lemma SteppedRecords(s: Index, ws: seq<Write>, tight: bool, vs: seq<seq<L.Value>>, l: Layer)
    requires Records(s, vs, l) && forall i :: 0 <= i < |ws| ==> Known(ws[i])
    ensures Records(Stepped(s, ws, tight), vs + [Given(ws, |ws|, l)], l)
  {
    WritesColumn(s, ws, l);
    SteppedInverts(s, ws, vs, l);
    assert (vs + [Given(ws, |ws|, l)])[..|vs|] == vs;
    EndedRecords(Fold(Applied, s, ws, |ws|), tight, vs + [Given(ws, |ws|, l)], l);
  }

  lemma {:induction false} PairsKnown(pairs: seq<Text>, n: nat)
    requires n <= |pairs|
    ensures forall i :: 0 <= i < |PairWrites(pairs, n)| ==> Known(PairWrites(pairs, n)[i])
  {
    if n > 0 {
      PairsKnown(pairs, n - 1);
    }
  }

  lemma WritesKnown(t: Token, decompose: bool)
    ensures forall w :: w in Writes(t, decompose) ==> Known(w)
  {
    assert WORD == BASE[0] && LEMMA == BASE[1] && UPOS == BASE[2] && XPOS == BASE[3] && FEATS == BASE[4];
    assert HEAD == BASE[5] && DEPREL == BASE[6] && DEPS == BASE[7];
    if t.feats.Some? {
      PairsKnown(Split(t.feats.value, BAR), |Split(t.feats.value, BAR)|);
    }
  }

  lemma {:induction false} PairsText(pairs: seq<Text>, n: nat)
    requires n <= |pairs|
    ensures forall w :: w in PairWrites(pairs, n) ==> w.value.Str?
  {
    if n > 0 {
      PairsText(pairs, n - 1);
    }
  }

  // Numbers go to the head column only.
  lemma NumbersAreHeads(t: Token, decompose: bool)
    ensures forall w :: w in Writes(t, decompose) && w.value.Num? ==> w.layer == HEAD
  {
    if t.feats.Some? {
      PairsText(Split(t.feats.value, BAR), |Split(t.feats.value, BAR)|);
    }
  }

  lemma {:induction false} GivenFrom(ws: seq<Write>, n: nat, l: Layer, v: L.Value)
    requires n <= |ws| && v in Given(ws, n, l)
    ensures exists w :: w in ws && w.layer == l && w.value == v
  {
    if v in Given(ws, n - 1, l) {
      GivenFrom(ws, n - 1, l, v);
    }
  }

  // The values that a token gives to a layer.
  function TokenValues(t: Token, decompose: bool, l: Layer): seq<L.Value> {
    Given(Writes(t, decompose), |Writes(t, decompose)|, l)
  }

  lemma TextsElsewhere(t: Token, decompose: bool, l: Layer)
    requires l != HEAD
    ensures forall v :: v in TokenValues(t, decompose, l) ==> v.Str?
  {
    NumbersAreHeads(t, decompose);
    forall v | v in TokenValues(t, decompose, l)
      ensures v.Str?
    {
      GivenFrom(Writes(t, decompose), |Writes(t, decompose)|, l, v);
    }
  }

  function ValuesIn(decompose: bool, l: Layer): Token -> seq<L.Value> {
    t => TokenValues(t, decompose, l)
  }

  lemma {:induction false} FoldRecords(
      records: (Index, seq<seq<L.Value>>) -> bool, f: (Index, Token) -> Index, given: Token -> seq<L.Value>,
      s: Index, ts: seq<Token>, n: nat)
    requires n <= |ts| && records(s, [])
    requires forall t, vs, x {:trigger records(t, vs), f(t, x)} :: records(t, vs) ==> records(f(t, x), vs + [given(x)])
    ensures records(Fold(f, s, ts, n), Each(given, ts, n))
  {
    if n == 0 {
    } else {
      FoldRecords(records, f, given, s, ts, n - 1);
    }
  }

  ghost function Recorder(l: Layer): (Index, seq<seq<L.Value>>) -> bool {
    (s, vs) => Records(s, vs, l)
  }

  lemma TokensRecord(o: Options, ts: seq<Token>, l: Layer)
    ensures Records(Fold(TokenStep(o), Empty(true), ts, |ts|), Each(ValuesIn(o.decompose, l), ts, |ts|), l)
  {
    var records, step, given := Recorder(l), TokenStep(o), ValuesIn(o.decompose, l);
    EmptyRecords(l);
    forall t, vs, x | records(t, vs)
      ensures records(step(t, x), vs + [given(x)])
    {
      WritesKnown(x, o.decompose);
      SteppedRecords(t, Writes(x, o.decompose), x.spaceAfterNo, vs, l);
    }
    FoldRecords(records, step, given, Empty(true), ts, |ts|);
  }

  lemma EmptyRecords(l: Layer)
    ensures Records(Empty(true), [], l)
  {
    assert BASE[0][0] == 119 && BASE[1][0] == 108 && BASE[2][0] == 117 && BASE[3][0] == 120 && BASE[4][0] == 102;
    assert BASE[5][0] == 104 && BASE[6][3] == 114 && BASE[7][3] == 115 && BASE[6][0] == 100 && BASE[7][0] == 100;
  }

  // The layer of a built index, read off the tokens of its documents.
  function LayerOf(o: Options, ds: seq<Document>, l: Layer): (r: seq<seq<L.Value>>)
    ensures |r| == |TokensOf(ds)| && forall i :: 0 <= i < |r| ==> r[i] == TokenValues(TokensOf(ds)[i], o.decompose, l)
  {
    EachIs(ValuesIn(o.decompose, l), TokensOf(ds), |TokensOf(ds)|);
    Each(ValuesIn(o.decompose, l), TokensOf(ds), |TokensOf(ds)|)
  }

  // The main description: inverted and forward values of any layer of any built index.
  lemma BuiltRecords(o: Options, ds: seq<Document>, l: Layer)
    ensures Records(Built(o, Empty(true), ds), LayerOf(o, ds, l), l)
  {
    BuiltFromTokens(o, true, ds);
    TokensRecord(o, TokensOf(ds), l);
    ValuedRecords(Built(o, Empty(true), ds), LayerOf(o, ds, l), l);
  }

  lemma ValuedRecords(s: Index, vs: seq<seq<L.Value>>, l: Layer)
    requires Records(Valued(s), vs, l)
    ensures Records(s, vs, l)
  {
    assert forall v :: At(s, l, v) == At(Valued(s), l, v);
  }

  // ---------------------------------------------------------------------------------
  // The forward index counts the tokens, and is well formed.

  function TokensIn(s: Index): nat {
    if s.forward.None? then 0 else s.forward.value.tokens
  }

  lemma {:induction false} FoldCount(
      ready: Index -> bool, count: Index -> nat, f: (Index, Write) -> Index, s: Index, ws: seq<Write>, n: nat)
    requires n <= |ws| && ready(s) && forall i :: 0 <= i < n ==> Known(ws[i])
    requires forall t, w {:trigger f(t, w)} :: ready(t) && Known(w) ==>
      ready(f(t, w)) && f(t, w).position == t.position && count(f(t, w)) == Max(count(t), t.position + 1)
    ensures var r := Fold(f, s, ws, n);
      ready(r) && r.position == s.position && count(r) == if n == 0 then count(s) else Max(count(s), s.position + 1)
  {
    if n > 0 {
      FoldCount(ready, count, f, s, ws, n - 1);
    }
  }

  lemma WritesTokens(s: Index, ws: seq<Write>)
    requires Ready(s) && forall i :: 0 <= i < |ws| ==> Known(ws[i])
    ensures var r := Fold(Applied, s, ws, |ws|);
      && Ready(r) && r.position == s.position
      && TokensIn(r) == if ws == [] then TokensIn(s) else Max(TokensIn(s), s.position + 1)
  {
    forall t, w | Ready(t) && Known(w)
      ensures Ready(Applied(t, w)) && Applied(t, w).position == t.position
      ensures TokensIn(Applied(t, w)) == Max(TokensIn(t), t.position + 1)
    {
      AppliedColumn(t, w, WORD);
    }
    FoldCount(Ready, TokensIn, Applied, s, ws, |ws|);
  }

  ghost predicate Counts(s: Index) {
    Ready(s) && TokensIn(s) == s.position
  }

  lemma SteppedCounts(s: Index, ws: seq<Write>, tight: bool)
    requires Counts(s) && ws != [] && forall i :: 0 <= i < |ws| ==> Known(ws[i])
    ensures Counts(Stepped(s, ws, tight))
  {
    WritesTokens(s, ws);
  }

  lemma BuiltCounts(o: Options, ds: seq<Document>)
    ensures Counts(Built(o, Empty(true), ds))
  {
    var step, ts := TokenStep(o), TokensOf(ds);
    EmptyRecords(WORD);
    forall t, x | Counts(t)
      ensures Counts(step(t, x))
    {
      WritesKnown(x, o.decompose);
      SteppedCounts(t, Writes(x, o.decompose), x.spaceAfterNo);
    }
    FoldKeeps(Counts, step, Empty(true), ts, |ts|);
    BuiltFromTokens(o, true, ds);
  }

  lemma BuiltWellFormed(o: Options, ds: seq<Document>)
    ensures var s := Built(o, Empty(true), ds);
      s.forward.Some? && F.WellFormed(F.ColumnsOf(s.forward.value)) &&
        s.forward.value.tokens == s.position == |TokensOf(ds)|
  {
    var s := Built(o, Empty(true), ds);
    BuiltCounts(o, ds);
    BuiltRecords(o, ds, WORD);
    var c := F.ColumnsOf(s.forward.value);
    forall x | x in c.cols
      ensures x in c.names && |c.cols[x]| <= c.tokens
    {
      BuiltRecords(o, ds, x);
      ColumnForAt(LayerOf(o, ds, x));
    }
  }

  // ---------------------------------------------------------------------------------
  // When inverted and forward values are inverse to each other.

  // The positions indexed under v are those where the forward index reads v.
  ghost predicate InverseAt(s: Index, l: Layer, v: Text) {
    forall p: nat :: p in At(s, l, v) <==> Cell(s, l, p) == Some(L.Str(v))
  }

  // The same for what is read back from the layer in a written file.
  ghost predicate FileInverseAt(s: Index, l: Layer, v: Text) {
    forall p: nat :: p in At(s, l, v) <==> R.StrAt(R.Source(l, Column(s, l), false), p) == Some(v)
  }

  // The last value is the only one that is not empty.
  predicate LastDecides(vs: seq<L.Value>) {
    forall v :: v in vs && v != F.BLANK ==> v == vs[|vs| - 1]
  }

  lemma CellOf(s: Index, vs: seq<seq<L.Value>>, l: Layer, p: nat)
    requires Records(s, vs, l)
    ensures p < |vs| && vs[p] != [] ==> Cell(s, l, p) == Some(vs[p][|vs[p]| - 1])
    ensures p >= |vs| || vs[p] == [] ==> Cell(s, l, p) in {None, Some(F.BLANK)}
  {
    ColumnForAt(vs);
  }

  lemma NonEmptyInverse(s: Index, vs: seq<seq<L.Value>>, l: Layer, v: Text)
    requires Records(s, vs, l) && !ForwardOnly(l) && v != []
    requires forall p :: 0 <= p < |vs| ==> LastDecides(vs[p])
    ensures InverseAt(s, l, v) && FileInverseAt(s, l, v)
  {
    forall p: nat
      ensures p in At(s, l, v) <==> Cell(s, l, p) == Some(L.Str(v))
    {
      CellOf(s, vs, l, p);
      assert p in At(s, l, v) <==> p < |vs| && GivenAt(vs, p, l, v);
    }
  }

  // For the values that are not empty: exactly when no token gives the layer two of them
  // that differ, or one before the empty value.
  lemma InverseIff(s: Index, vs: seq<seq<L.Value>>, l: Layer)
    requires Records(s, vs, l) && !ForwardOnly(l) && forall p, v :: 0 <= p < |vs| && v in vs[p] ==> v.Str?
    ensures (forall v :: v != [] ==> InverseAt(s, l, v)) <==> forall p :: 0 <= p < |vs| ==> LastDecides(vs[p])
  {
    if forall p :: 0 <= p < |vs| ==> LastDecides(vs[p]) {
      forall v: Text | v != []
        ensures InverseAt(s, l, v)
      {
        NonEmptyInverse(s, vs, l, v);
      }
    } else {
      var p :| 0 <= p < |vs| && !LastDecides(vs[p]);
      var v :| v in vs[p] && v != F.BLANK && v != vs[p][|vs[p]| - 1];
      CellOf(s, vs, l, p);
      assert GivenAt(vs, p, l, v.text);
      assert p in At(s, l, v.text) && Cell(s, l, p) != Some(L.Str(v.text));
      assert !InverseAt(s, l, v.text);
    }
  }

  lemma SameInverted(s: Index, t: Index, l: Layer, v: Text)
    requires s.inverted == t.inverted
    ensures At(s, l, v) == At(t, l, v)
  {
  }
}
