// crates/montre-build/src/builder.rs: when the inverted and the forward index of a layer are
// inverse to each other, as conditions on the tokens of the documents.
module Inverse {
  import opened Core
  import opened Bytes
  import opened Sink
  import opened SinkFacts
  import opened SinkLayers
  import F = Forward
  import L = Layers
  import R = RoundTrip

  // ---------------------------------------------------------------------------------
  // What a token gives to the layers of its columns and of its features.

  // The layers that come from a column of their own and are indexed.
  const COLUMNS: set<Layer> := {WORD, LEMMA, UPOS, XPOS, FEATS, DEPREL}

  function OwnValue(t: Token, l: Layer): Option<Text> {
    if l == WORD then Some(t.word) else if l == LEMMA then t.base else if l == UPOS then t.upos
    else if l == XPOS then t.xpos else if l == FEATS then t.feats else if l == DEPREL then t.deprel else None
  }

  function Listed(v: Option<Text>): seq<L.Value> {
    if v.Some? then [L.Str(v.value)] else []
  }

  function KeyValue(pair: Text, key: Text): seq<L.Value> {
    var i := CutAt(pair, EQUALS);
    if i < |pair| && pair[..i] == key then [L.Str(pair[i + 1..])] else []
  }

  // The values of a key among the first n pairs of a feature string.
  function KeyValues(pairs: seq<Text>, n: nat, key: Text): seq<L.Value>
    requires n <= |pairs|
  {
    if n == 0 then [] else KeyValues(pairs, n - 1, key) + KeyValue(pairs[n - 1], key)
  }

  function FeatureValues(t: Token, key: Text): seq<L.Value> {
    if t.feats.None? then [] else KeyValues(Split(t.feats.value, BAR), |Split(t.feats.value, BAR)|, key)
  }

  function All(ws: seq<Write>, l: Layer): seq<L.Value> {
    Given(ws, |ws|, l)
  }

  lemma {:induction false} GivenAppend(a: seq<Write>, b: seq<Write>, n: nat, l: Layer)
    requires n <= |b|
    ensures Given(a + b, |a| + n, l) == All(a, l) + Given(b, n, l)
  {
    if n == 0 {
      GivenPrefix(a, b, |a|, l);
    } else {
      GivenAppend(a, b, n - 1, l);
    }
  }

  lemma {:induction false} GivenPrefix(a: seq<Write>, b: seq<Write>, n: nat, l: Layer)
    requires n <= |a|
    ensures Given(a + b, n, l) == Given(a, n, l)
  {
    if n > 0 {
      GivenPrefix(a, b, n - 1, l);
    }
  }

  lemma AllAppend(a: seq<Write>, b: seq<Write>, l: Layer)
    ensures All(a + b, l) == All(a, l) + All(b, l)
  {
    GivenAppend(a, b, |b|, l);
  }

  // The annotations of a token in eight pieces, in the order of the base layers.
  function PieceAt(t: Token, d: bool, i: nat): seq<Write> {
    match i
    case 0 => Plain(WORD, t.word)
    case 1 => Optional(LEMMA, t.base)
    case 2 => Optional(UPOS, t.upos)
    case 3 => Optional(XPOS, t.xpos)
    case 4 => FeatWrites(t.feats, d)
    case 5 => HeadWrites(t.head)
    case 6 => Optional(DEPREL, t.deprel)
    case _ => Optional(DEPS, t.deps)
  }

  function Pieces(t: Token, d: bool): (r: seq<seq<Write>>)
    ensures |r| == 8 && forall i :: 0 <= i < 8 ==> r[i] == PieceAt(t, d, i)
  {
    seq(8, i requires 0 <= i < 8 => PieceAt(t, d, i))
  }

  function Joined(ps: seq<seq<Write>>, n: nat): seq<Write>
    requires n <= |ps|
  {
    if n == 0 then [] else Joined(ps, n - 1) + ps[n - 1]
  }

  lemma {:induction false} JoinedNext(ps: seq<seq<Write>>, n: nat, before: seq<Write>)
    requires n < |ps| && Joined(ps, n) == before
    ensures Joined(ps, n + 1) == before + ps[n]
  {
  }

  lemma WritesPieces(t: Token, d: bool)
    ensures Writes(t, d) == Joined(Pieces(t, d), 8)
  {
    var ps := Pieces(t, d);
    JoinedNext(ps, 0, []);
    var a1 := ps[0];
    assert [] + a1 == a1;
    JoinedNext(ps, 1, a1);
    JoinedNext(ps, 2, a1 + ps[1]);
    JoinedNext(ps, 3, a1 + ps[1] + ps[2]);
    JoinedNext(ps, 4, a1 + ps[1] + ps[2] + ps[3]);
    JoinedNext(ps, 5, a1 + ps[1] + ps[2] + ps[3] + ps[4]);
    JoinedNext(ps, 6, a1 + ps[1] + ps[2] + ps[3] + ps[4] + ps[5]);
    JoinedNext(ps, 7, a1 + ps[1] + ps[2] + ps[3] + ps[4] + ps[5] + ps[6]);
  }

  // all turns concatenation of writes into concatenation of values.
  ghost predicate Additive(all: seq<Write> -> seq<L.Value>) {
    all([]) == [] && forall a, b {:trigger all(a + b)} :: all(a + b) == all(a) + all(b)
  }

  lemma {:induction false} OneOnly(all: seq<Write> -> seq<L.Value>, ps: seq<seq<Write>>, n: nat, i: nat)
    requires Additive(all) && n <= |ps| && i < |ps| && forall j :: 0 <= j < n && j != i ==> all(ps[j]) == []
    ensures all(Joined(ps, n)) == if i < n then all(ps[i]) else []
  {
    if n > 0 {
      OneOnly(all, ps, n - 1, i);
      assert all(Joined(ps, n - 1) + ps[n - 1]) == all(Joined(ps, n - 1)) + all(ps[n - 1]);
    }
  }

  // Only piece i has values for the layer.
  lemma OnlyPiece(ps: seq<seq<Write>>, n: nat, l: Layer, i: nat)
    requires n <= |ps| && i < |ps| && forall j :: 0 <= j < n && j != i ==> All(ps[j], l) == []
    ensures All(Joined(ps, n), l) == if i < n then All(ps[i], l) else []
  {
    var all := (ws: seq<Write>) => All(ws, l);
    forall a, b
      ensures all(a + b) == all(a) + all(b)
    {
      AllAppend(a, b, l);
    }
    OneOnly(all, ps, n, i);
  }

  lemma PlainGives(k: Layer, v: Text, l: Layer)
    ensures All(Plain(k, v), l) == if k == l then [L.Str(v)] else []
  {
    assert Given(Plain(k, v), 0, l) == [];
  }

  lemma OptionalGives(k: Layer, v: Option<Text>, l: Layer)
    ensures All(Optional(k, v), l) == if k == l then Listed(v) else []
  {
    if v.Some? {
      PlainGives(k, v.value, l);
    }
  }

  lemma HeadGives(head: Option<int>, l: Layer)
    ensures All(HeadWrites(head), l) == if l == HEAD && head.Some? then [L.Num(head.value)] else []
  {
    if head.Some? {
      assert Given(HeadWrites(head), 0, l) == [];
    }
  }

  lemma FeatureApart(key: Text)
    ensures Feature(key) !in BASE
  {
    assert Feature(key)[5] == DOT && |Feature(key)| >= 6;
    assert |WORD| == 4 && |LEMMA| == 5 && |UPOS| == 4 && |XPOS| == 4 && |FEATS| == 5 && |HEAD| == 4 &&
      DEPREL[5] == 108 && |DEPS| == 4;
  }

  lemma FeatureInjective(a: Text, b: Text)
    requires Feature(a) == Feature(b)
    ensures a == b
  {
    assert Feature(a)[6..] == a && Feature(b)[6..] == b;
  }

  lemma PairGivesNone(pair: Text, l: Layer)
    requires l in BASE
    ensures All(PairWrite(pair), l) == []
  {
    var i := CutAt(pair, EQUALS);
    if i < |pair| {
      FeatureApart(pair[..i]);
      OneGives(PairWrite(pair)[0], l);
    }
  }

  lemma {:induction false} PairsGiveNone(pairs: seq<Text>, n: nat, l: Layer)
    requires n <= |pairs| && l in BASE
    ensures All(PairWrites(pairs, n), l) == []
  {
    if n > 0 {
      PairsGiveNone(pairs, n - 1, l);
      PairGivesNone(pairs[n - 1], l);
      AllAppend(PairWrites(pairs, n - 1), PairWrite(pairs[n - 1]), l);
    }
  }

  lemma OneGives(w: Write, l: Layer)
    ensures All([w], l) == if w.layer == l then [w.value] else []
  {
    assert Given([w], 0, l) == [];
  }

  lemma PairGives(pair: Text, key: Text)
    ensures All(PairWrite(pair), Feature(key)) == KeyValue(pair, key)
  {
    var i := CutAt(pair, EQUALS);
    if i < |pair| {
      if Feature(pair[..i]) == Feature(key) {
        FeatureInjective(pair[..i], key);
      }
      OneGives(PairWrite(pair)[0], Feature(key));
    }
  }

  lemma {:induction false} PairsGive(pairs: seq<Text>, n: nat, key: Text)
    requires n <= |pairs|
    ensures All(PairWrites(pairs, n), Feature(key)) == KeyValues(pairs, n, key)
  {
    if n > 0 {
      PairsGive(pairs, n - 1, key);
      PairGives(pairs[n - 1], key);
      AllAppend(PairWrites(pairs, n - 1), PairWrite(pairs[n - 1]), Feature(key));
    }
  }

  lemma FeatsGive(t: Token, d: bool, l: Layer)
    requires l in BASE
    ensures All(FeatWrites(t.feats, d), l) == if l == FEATS then Listed(t.feats) else []
  {
    if t.feats.Some? {
      var pairs := Split(t.feats.value, BAR);
      PlainGives(FEATS, t.feats.value, l);
      PairsGiveNone(pairs, |pairs|, l);
      AllAppend(Plain(FEATS, t.feats.value), if d then DecomposedWrites(t.feats.value) else [], l);
    }
  }

  lemma BaseApart()
    ensures WORD != LEMMA && WORD != UPOS && WORD != XPOS && WORD != FEATS && WORD != HEAD && WORD != DEPREL &&
      WORD != DEPS
    ensures LEMMA != UPOS && LEMMA != XPOS && LEMMA != FEATS && LEMMA != HEAD && LEMMA != DEPREL && LEMMA != DEPS
    ensures UPOS != XPOS && UPOS != FEATS && UPOS != HEAD && UPOS != DEPREL && UPOS != DEPS
    ensures XPOS != FEATS && XPOS != HEAD && XPOS != DEPREL && XPOS != DEPS
    ensures FEATS != HEAD && FEATS != DEPREL && FEATS != DEPS && HEAD != DEPREL && HEAD != DEPS && DEPREL != DEPS
    ensures forall l :: l in COLUMNS || l == HEAD || l == DEPS <==> l in BASE
  {
    assert WORD[0] == 119 && LEMMA[0] == 108 && UPOS[0] == 117 && XPOS[0] == 120 && FEATS[0] == 102;
    assert HEAD[0] == 104 && DEPREL[3] == 114 && DEPS[3] == 115 && DEPREL[0] == 100 && DEPS[0] == 100;
    assert WORD == BASE[0] && LEMMA == BASE[1] && UPOS == BASE[2] && XPOS == BASE[3] && FEATS == BASE[4];
    assert HEAD == BASE[5] && DEPREL == BASE[6] && DEPS == BASE[7];
  }

  lemma InBase(l: Layer)
    requires l in COLUMNS
    ensures l in BASE && !ForwardOnly(l)
  {
    BaseApart();
  }

  lemma BaseDistinct(i: nat, j: nat)
    requires i < 8 && j < 8 && i != j
    ensures BaseLayer(i) in BASE && BaseLayer(i) != BaseLayer(j)
  {
    BaseApart();
  }

  // The base layers by number, and what a token gives to each.
  function BaseLayer(i: nat): Layer {
    match i
    case 0 => WORD
    case 1 => LEMMA
    case 2 => UPOS
    case 3 => XPOS
    case 4 => FEATS
    case 5 => HEAD
    case 6 => DEPREL
    case _ => DEPS
  }

  function OwnList(t: Token, i: nat): seq<L.Value> {
    match i
    case 0 => [L.Str(t.word)]
    case 1 => Listed(t.base)
    case 2 => Listed(t.upos)
    case 3 => Listed(t.xpos)
    case 4 => Listed(t.feats)
    case 5 => if t.head.Some? then [L.Num(t.head.value)] else []
    case 6 => Listed(t.deprel)
    case _ => Listed(t.deps)
  }

  lemma PieceGives(t: Token, d: bool, i: nat, l: Layer)
    requires i < 8 && l in BASE
    ensures All(PieceAt(t, d, i), l) == if l == BaseLayer(i) then OwnList(t, i) else []
  {
    match i {
      case 0 => PlainGives(WORD, t.word, l);
      case 1 => OptionalGives(LEMMA, t.base, l);
      case 2 => OptionalGives(UPOS, t.upos, l);
      case 3 => OptionalGives(XPOS, t.xpos, l);
      case 4 => FeatsGive(t, d, l);
      case 5 => HeadGives(t.head, l);
      case 6 => OptionalGives(DEPREL, t.deprel, l);
      case 7 => OptionalGives(DEPS, t.deps, l);
    }
  }

  // A base layer gets the value of its own column and no other.
  lemma BaseGives(t: Token, d: bool, i: nat)
    requires i < 8
    ensures TokenValues(t, d, BaseLayer(i)) == OwnList(t, i)
  {
    var l, ps := BaseLayer(i), Pieces(t, d);
    forall j | 0 <= j < 8 && j != i
      ensures All(ps[j], l) == []
    {
      PieceGives(t, d, j, l);
      BaseDistinct(i, j);
    }
    PieceGives(t, d, i, l);
    OnlyPiece(ps, 8, l, i);
    WritesPieces(t, d);
  }

  lemma ColumnGives(t: Token, d: bool, l: Layer)
    requires l in COLUMNS
    ensures TokenValues(t, d, l) == Listed(OwnValue(t, l))
  {
    var i := if l == WORD then 0 else if l == LEMMA then 1 else if l == UPOS then 2 else if l == XPOS then 3
      else if l == FEATS then 4 else 6;
    assert BaseLayer(i) == l;
    BaseGives(t, d, i);
  }

  lemma OtherPiece(t: Token, i: nat, l: Layer)
    requires i < 8 && i != 4 && l !in BASE
    ensures All(PieceAt(t, true, i), l) == []
  {
    BaseApart();
    match i {
      case 0 => PlainGives(WORD, t.word, l);
      case 1 => OptionalGives(LEMMA, t.base, l);
      case 2 => OptionalGives(UPOS, t.upos, l);
      case 3 => OptionalGives(XPOS, t.xpos, l);
      case 5 => HeadGives(t.head, l);
      case 6 => OptionalGives(DEPREL, t.deprel, l);
      case 7 => OptionalGives(DEPS, t.deps, l);
    }
  }

  lemma FeaturePiece(t: Token, key: Text)
    ensures All(FeatWrites(t.feats, true), Feature(key)) == FeatureValues(t, key)
  {
    FeatureApart(key);
    BaseApart();
    if t.feats.Some? {
      var pairs := Split(t.feats.value, BAR);
      PlainGives(FEATS, t.feats.value, Feature(key));
      PairsGive(pairs, |pairs|, key);
      AllAppend(Plain(FEATS, t.feats.value), DecomposedWrites(t.feats.value), Feature(key));
    }
  }

  // A feature layer gets the values of its key, in the order of the feature string.
  lemma FeatureGives(t: Token, key: Text)
    ensures TokenValues(t, true, Feature(key)) == FeatureValues(t, key)
  {
    var l, ps := Feature(key), Pieces(t, true);
    FeatureApart(key);
    forall j | 0 <= j < 8 && j != 4
      ensures All(ps[j], l) == []
    {
      OtherPiece(t, j, l);
    }
    FeaturePiece(t, key);
    OnlyPiece(ps, 8, l, 4);
    WritesPieces(t, true);
  }

  // ---------------------------------------------------------------------------------
  // Columns.

  // Layer l of s holds what the tokens have in its column.
  ghost predicate Holds(s: Index, ts: seq<Token>, l: Layer) {
    && |Column(s, l)| <= |ts|
    && (forall p :: 0 <= p < |Column(s, l)| ==> HoldsAt(Column(s, l)[p], OwnValue(ts[p], l)))
    && (Column(s, l) != [] ==> OwnValue(ts[|Column(s, l)| - 1], l).Some?)
    && (forall p :: |Column(s, l)| <= p < |ts| ==> OwnValue(ts[p], l).None?)
    && (forall v: Text, p: nat {:trigger p in At(s, l, v)} :: p in At(s, l, v) <==>
      p < |ts| && OwnValue(ts[p], l) == Some(v))
  }

  predicate HoldsAt(v: L.Value, own: Option<Text>) {
    v == if own.Some? then L.Str(own.value) else F.BLANK
  }

  lemma RecordsHold(s: Index, ts: seq<Token>, vs: seq<seq<L.Value>>, l: Layer)
    requires Records(s, vs, l) && |vs| == |ts| && !ForwardOnly(l)
    requires forall p :: 0 <= p < |ts| ==> vs[p] == Listed(OwnValue(ts[p], l))
    ensures Holds(s, ts, l)
  {
    ColumnForAt(vs);
    forall p | 0 <= p < |Column(s, l)|
      ensures HoldsAt(Column(s, l)[p], OwnValue(ts[p], l))
    {
      assert vs[p] == Listed(OwnValue(ts[p], l));
    }
    forall v: Text, p: nat
      ensures p in At(s, l, v) <==> p < |ts| && OwnValue(ts[p], l) == Some(v)
    {
      assert p < |vs| ==> (GivenAt(vs, p, l, v) <==> L.Str(v) in Listed(OwnValue(ts[p], l)));
    }
  }

  lemma BuiltHolds(o: Options, ds: seq<Document>, l: Layer)
    requires l in COLUMNS
    ensures Holds(Built(o, Empty(true), ds), TokensOf(ds), l)
  {
    var s, ts, vs := Built(o, Empty(true), ds), TokensOf(ds), LayerOf(o, ds, l);
    BuiltRecords(o, ds, l);
    InBase(l);
    forall p | 0 <= p < |ts|
      ensures vs[p] == Listed(OwnValue(ts[p], l))
    {
      ColumnGives(ts[p], o.decompose, l);
    }
    RecordsHold(s, ts, vs, l);
  }

  lemma HeldAt(s: Index, ts: seq<Token>, l: Layer, v: Text, p: nat)
    requires Holds(s, ts, l)
    ensures p in At(s, l, v) <==> p < |ts| && OwnValue(ts[p], l) == Some(v)
  {
  }

  lemma HeldCell(s: Index, ts: seq<Token>, l: Layer, p: nat)
    requires Holds(s, ts, l)
    ensures p < |ts| && OwnValue(ts[p], l).Some? ==> Cell(s, l, p) == Some(L.Str(OwnValue(ts[p], l).value))
    ensures p >= |ts| || OwnValue(ts[p], l).None? ==> Cell(s, l, p).None? || Cell(s, l, p) == Some(F.BLANK)
  {
    assert p < |Column(s, l)| ==> HoldsAt(Column(s, l)[p], OwnValue(ts[p], l));
  }

  // Every value but the empty one is found at exactly the positions where the forward index
  // holds it, in memory and in the written file.
  lemma HeldInverse(s: Index, ts: seq<Token>, l: Layer, v: Text)
    requires Holds(s, ts, l) && v != []
    ensures InverseAt(s, l, v) && FileInverseAt(s, l, v)
  {
    forall p: nat
      ensures p in At(s, l, v) <==> Cell(s, l, p) == Some(L.Str(v))
      ensures p in At(s, l, v) <==> R.StrAt(R.Source(l, Column(s, l), false), p) == Some(v)
    {
      HeldCell(s, ts, l, p);
      HeldAt(s, ts, l, v, p);
    }
  }

  lemma ColumnsInverse(o: Options, ds: seq<Document>, l: Layer, v: Text)
    requires l in COLUMNS && v != []
    ensures InverseAt(Built(o, Empty(true), ds), l, v) && FileInverseAt(Built(o, Empty(true), ds), l, v)
  {
    BuiltHolds(o, ds, l);
    HeldInverse(Built(o, Empty(true), ds), TokensOf(ds), l, v);
  }

  // No token without a value in the layer comes before one that has a value.
  predicate Gapless(ts: seq<Token>, l: Layer) {
    forall i, j :: 0 <= i < j < |ts| && OwnValue(ts[j], l).Some? ==> OwnValue(ts[i], l).Some?
  }

  predicate NoneEmpty(ts: seq<Token>, l: Layer) {
    forall i :: 0 <= i < |ts| ==> OwnValue(ts[i], l) != Some([])
  }

  lemma HeldGapless(s: Index, ts: seq<Token>, l: Layer)
    requires Holds(s, ts, l)
    ensures InverseAt(s, l, []) <==> Gapless(ts, l)
  {
    var col := Column(s, l);
    if Gapless(ts, l) {
      forall p: nat
        ensures p in At(s, l, []) <==> Cell(s, l, p) == Some(F.BLANK)
      {
        HeldCell(s, ts, l, p);
        assert p < |col| - 1 ==> OwnValue(ts[p], l).Some?;
      }
    } else {
      var i, j :| 0 <= i < j < |ts| && OwnValue(ts[j], l).Some? && OwnValue(ts[i], l).None?;
      assert j < |col|;
      assert HoldsAt(col[i], OwnValue(ts[i], l));
      assert Cell(s, l, i) == Some(F.BLANK) && i !in At(s, l, []);
    }
  }

  // The empty value: the forward index reads it wherever a value is missing before the last
  // one, so it is inverse there too if and only if there is no such gap.
  lemma EmptyInverseIff(o: Options, ds: seq<Document>, l: Layer)
    requires l in COLUMNS
    ensures InverseAt(Built(o, Empty(true), ds), l, []) <==> Gapless(TokensOf(ds), l)
  {
    BuiltHolds(o, ds, l);
    HeldGapless(Built(o, Empty(true), ds), TokensOf(ds), l);
  }

  lemma HeldNoneEmpty(s: Index, ts: seq<Token>, l: Layer)
    requires Holds(s, ts, l)
    ensures (forall v :: FileInverseAt(s, l, v)) <==> NoneEmpty(ts, l)
  {
    forall v: Text | v != []
      ensures FileInverseAt(s, l, v)
    {
      HeldInverse(s, ts, l, v);
    }
    if NoneEmpty(ts, l) {
      forall p: nat
        ensures p !in At(s, l, [])
      {
        HeldAt(s, ts, l, [], p);
      }
      assert FileInverseAt(s, l, []);
    } else {
      var i :| 0 <= i < |ts| && OwnValue(ts[i], l) == Some([]);
      assert i in At(s, l, []);
      assert !FileInverseAt(s, l, []);
    }
  }

  // A written file has no empty values, so there it is inverse if and only if no token has one.
  lemma FileInverseIff(o: Options, ds: seq<Document>, l: Layer)
    requires l in COLUMNS
    ensures (forall v :: FileInverseAt(Built(o, Empty(true), ds), l, v)) <==> NoneEmpty(TokensOf(ds), l)
  {
    BuiltHolds(o, ds, l);
    HeldNoneEmpty(Built(o, Empty(true), ds), TokensOf(ds), l);
  }

  // ---------------------------------------------------------------------------------
  // Decomposed features.

  // For the values of a decomposed key that are not empty: exactly when in every token the
  // last value given for the key is the only one that is not empty.
  lemma FeaturesInverseIff(o: Options, ds: seq<Document>, key: Text)
    requires o.decompose
    ensures (forall v :: v != [] ==> InverseAt(Built(o, Empty(true), ds), Feature(key), v)) <==>
      forall i :: 0 <= i < |TokensOf(ds)| ==> LastDecides(FeatureValues(TokensOf(ds)[i], key))
  {
    var l, ts := Feature(key), TokensOf(ds);
    var vs := LayerOf(o, ds, l);
    BuiltRecords(o, ds, l);
    FeatureRecorded(ts, vs, key);
    InverseIff(Built(o, Empty(true), ds), vs, l);
  }

  lemma FeatureRecorded(ts: seq<Token>, vs: seq<seq<L.Value>>, key: Text)
    requires |vs| == |ts| && forall p :: 0 <= p < |ts| ==> vs[p] == TokenValues(ts[p], true, Feature(key))
    ensures !ForwardOnly(Feature(key)) && forall p :: 0 <= p < |ts| ==> vs[p] == FeatureValues(ts[p], key)
    ensures forall p, v: L.Value :: 0 <= p < |vs| && v in vs[p] ==> v.Str?
  {
    forall p | 0 <= p < |ts|
      ensures vs[p] == FeatureValues(ts[p], key)
      ensures forall v: L.Value :: v in vs[p] ==> v.Str?
    {
      FeatureGives(ts[p], key);
      if ts[p].feats.Some? {
        KeyTexts(Split(ts[p].feats.value, BAR), |Split(ts[p].feats.value, BAR)|, key);
      }
    }
    FeatureApart(key);
    BaseApart();
  }

  lemma {:induction false} KeyTexts(pairs: seq<Text>, n: nat, key: Text)
    requires n <= |pairs|
    ensures forall v: L.Value :: v in KeyValues(pairs, n, key) ==> v.Str?
  {
    if n > 0 {
      KeyTexts(pairs, n - 1, key);
    }
  }

  // ---------------------------------------------------------------------------------
  // Documents where it fails.

  function Bare(base: Option<Text>, feats: Option<Text>): Token {
    Token([119], base, None, None, feats, None, None, None, false)
  }

  function OneSentence(ts: seq<Token>): seq<Document> {
    [Document([100], [Sentence(ts, None, [], [])])]
  }

  lemma OneSentenceTokens(ts: seq<Token>)
    ensures TokensOf(OneSentence(ts)) == ts
  {
    var d := OneSentence(ts)[0];
    assert Flat(OwnTokens, d.sentences, 0) == [];
    assert SentenceTokens(d) == ts;
    assert Flat(SentenceTokens, OneSentence(ts), 0) == [];
    assert [] + ts == ts;
  }

  // Two tokens, of which only the second has a lemma: the forward index reads the empty lemma
  // at the first, and the inverted index does not have it there.
  lemma GapWitness(o: Options)
    ensures !InverseAt(Built(o, Empty(true), OneSentence([Bare(None, None), Bare(Some([120]), None)])), LEMMA, [])
  {
    var ts := [Bare(None, None), Bare(Some([120]), None)];
    OneSentenceTokens(ts);
    GapTokens(ts);
    EmptyInverseIff(o, OneSentence(ts), LEMMA);
  }

  lemma GapTokens(ts: seq<Token>)
    requires ts == [Bare(None, None), Bare(Some([120]), None)]
    ensures !Gapless(ts, LEMMA) && LEMMA in COLUMNS
  {
    BaseApart();
    assert OwnValue(ts[1], LEMMA).Some? && OwnValue(ts[0], LEMMA).None?;
  }

  // A token with the features K=1|K=2: both are indexed, the forward index keeps the second.
  lemma TwiceWitness(o: Options)
    requires o.decompose
    ensures var s := Built(o, Empty(true), OneSentence([Bare(None, Some([75, 61, 49, 124, 75, 61, 50]))]));
      exists v :: v != [] && !InverseAt(s, Feature([75]), v)
  {
    var feats := [75, 61, 49, 124, 75, 61, 50];
    var t := Bare(None, Some(feats));
    OneSentenceTokens([t]);
    FeaturesInverseIff(o, OneSentence([t]), [75]);
    TwoPairs();
    assert TokensOf(OneSentence([t]))[0] == t;
    assert L.Str([49]) in FeatureValues(t, [75]);
    assert !LastDecides(FeatureValues(t, [75]));
  }

  lemma TwoPairs()
    ensures FeatureValues(Bare(None, Some([75, 61, 49, 124, 75, 61, 50])), [75]) == [L.Str([49]), L.Str([50])]
  {
    var feats: Text := [75, 61, 49, 124, 75, 61, 50];
    var a: Text := [75, 61, 49];
    var b: Text := [75, 61, 50];
    assert feats[3] == BAR;
    CutHere(feats, BAR, 3);
    assert feats[..3] == a && feats[4..] == b;
    CutNone(b, BAR);
    assert Split(feats, BAR) == [a, b];
    CutHere(a, EQUALS, 1);
    CutHere(b, EQUALS, 1);
    assert a[..1] == [75] && a[2..] == [49] && b[..1] == [75] && b[2..] == [50];
    assert KeyValues([a, b], 0, [75]) == [];
    assert KeyValues([a, b], 1, [75]) == [L.Str([49])];
    assert KeyValues([a, b], 2, [75]) == [L.Str([49]), L.Str([50])];
  }

  lemma CutHere(s: Text, c: Byte, i: nat)
    requires i < |s| && s[i] == c && forall k :: 0 <= k < i ==> s[k] != c
    ensures CutAt(s, c) == i
  {
    var j := CutAt(s, c);
    assert !(j < i) && !(i < j);
  }

  lemma CutNone(s: Text, c: Byte)
    requires c !in s
    ensures CutAt(s, c) == |s|
  {
    var i := CutAt(s, c);
    assert forall k :: 0 <= k < |s| ==> s[k] in s;
  }
}
