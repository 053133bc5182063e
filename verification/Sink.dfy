// crates/montre-build/src/builder.rs and crates/montre-index/src/inverted.rs: what one input
// file adds to an index, and how the indexes of several files are merged. Positions stay
// below 2^32, the width of the bitmaps.
module Sink {
  import opened Core
  import opened Bytes
  import F = Forward
  import L = Layers
  import Mwt

  // Strings are byte sequences.
  type Text = Buffer
  type Layer = Text
  type Bitmaps = map<Text, set<nat>>
  type Inverted = map<Layer, Bitmaps>
  type Lexicon = map<Layer, seq<Text>>

  const WORD: Layer := [119, 111, 114, 100]
  const LEMMA: Layer := [108, 101, 109, 109, 97]
  const UPOS: Layer := [117, 112, 111, 115]
  const XPOS: Layer := [120, 112, 111, 115]
  const FEATS: Layer := [102, 101, 97, 116, 115]
  const HEAD: Layer := [104, 101, 97, 100]
  const DEPREL: Layer := [100, 101, 112, 114, 101, 108]
  const DEPS: Layer := [100, 101, 112, 115]
  const BASE: seq<Layer> := [WORD, LEMMA, UPOS, XPOS, FEATS, HEAD, DEPREL, DEPS]

  const BAR: Byte := 124
  const EQUALS: Byte := 61
  const DOT: Byte := 46
  const COLON: Byte := 58

  datatype Token = Token(
    word: Text, base: Option<Text>, upos: Option<Text>, xpos: Option<Text>, feats: Option<Text>,
    head: Option<int>, deprel: Option<Text>, deps: Option<Text>, spaceAfterNo: bool)

  // Positions within a sentence count from 1.
  type Rank = x: nat | x >= 1 witness 1

  datatype Range = Range(first: Rank, last: nat, form: Text, noSpaceAfter: bool)

  datatype Sentence = Sentence(tokens: seq<Token>, id: Option<Text>, mwts: seq<Range>, emptyNodes: seq<Text>)

  datatype EmptyNode = EmptyNode(sentence: nat, node: Text)

  datatype Document = Document(name: Text, sentences: seq<Sentence>)

  // forward is None where the values are streamed elsewhere.
  datatype Index = Index(
    inverted: Inverted, lexicon: Lexicon, forward: Option<F.Store>, docs: seq<Span>, sents: seq<Span>,
    layerNames: seq<Layer>, position: nat, documentNames: seq<Text>, sentenceIds: seq<Text>,
    mwts: seq<Mwt.Entry>, spacing: set<nat>, emptyNodes: seq<EmptyNode>)

  // Empty columns under the given names.
  function Blank(names: seq<Layer>): F.Store {
    F.Fields(names, seq(|names|, _ => []), 0)
  }

  function Empty(withForward: bool): Index {
    Index(map[], map[], if withForward then Some(Blank(BASE)) else None, [], [], BASE, 0, [], [], [], {}, [])
  }

  predicate ForwardOnly(l: Layer) {
    l == HEAD || l == DEPS
  }

  // ---------------------------------------------------------------------------------
  // The parts, one at a time.

  function Lookup<V>(m: map<Text, V>, k: Text, none: V): V {
    if k in m then m[k] else none
  }

  // The entries of b put into a by f, which is given none for a key that a lacks.
  function MergeMaps<V>(f: (V, V) -> V, none: V, a: map<Text, V>, b: map<Text, V>): map<Text, V> {
    map k | k in a.Keys + b.Keys :: if k in b then f(Lookup(a, k, none), b[k]) else a[k]
  }

  function Found(m: Bitmaps, v: Text): set<nat> {
    Lookup(m, v, {})
  }

  function Values(inv: Inverted, l: Layer): Bitmaps {
    Lookup(inv, l, map[])
  }

  function InsertValue(m: Bitmaps, v: Text, p: nat): Bitmaps {
    m[v := Found(m, v) + {p}]
  }

  function Insert(inv: Inverted, l: Layer, v: Text, p: nat): Inverted {
    inv[l := InsertValue(Values(inv, l), v, p)]
  }

  function Shifted(s: set<nat>, offset: nat): set<nat> {
    set p | p in s :: p + offset
  }

  function JoinShifted(offset: nat): (set<nat>, set<nat>) -> set<nat> {
    (x, y) => x + Shifted(y, offset)
  }

  function MergeValues(a: Bitmaps, b: Bitmaps, offset: nat): Bitmaps {
    MergeMaps(JoinShifted(offset), {}, a, b)
  }

  function ValuesMerger(offset: nat): (Bitmaps, Bitmaps) -> Bitmaps {
    (x, y) => MergeValues(x, y, offset)
  }

  function MergeInverted(a: Inverted, b: Inverted, offset: nat): Inverted {
    MergeMaps(ValuesMerger(offset), map[], a, b)
  }

  function AddUnlessIn(ts: seq<Text>, t: Text): seq<Text> {
    if t in ts then ts else ts + [t]
  }

  function Terms(lex: Lexicon, l: Layer): seq<Text> {
    Lookup(lex, l, [])
  }

  function AddTerm(lex: Lexicon, l: Layer, t: Text): Lexicon {
    lex[l := AddUnlessIn(Terms(lex, l), t)]
  }

  function MergeTerms(a: seq<Text>, b: seq<Text>): (r: seq<Text>)
    ensures |a| <= |r|
    decreases |b|
  {
    if b == [] then a else AddUnlessIn(MergeTerms(a, b[..|b| - 1]), b[|b| - 1])
  }

  function MergeLexicon(a: Lexicon, b: Lexicon): Lexicon {
    MergeMaps(MergeTerms, [], a, b)
  }

  function ShiftSpan(s: Span, offset: nat): Span {
    Span(s.start + offset, s.end + offset)
  }

  function SpanShifter(offset: nat): Span -> Span {
    s => ShiftSpan(s, offset)
  }

  function MwtShifter(offset: nat): Mwt.Entry -> Mwt.Entry {
    (m: Mwt.Entry) => m.(start := m.start + offset, end := m.end + offset)
  }

  function NodeShifter(offset: nat): EmptyNode -> EmptyNode {
    (n: EmptyNode) => n.(sentence := n.sentence + offset)
  }

  // ---------------------------------------------------------------------------------
  // merge_from

  // The layers that merging b's names adds to a's.
  function NewNames(a: seq<Text>, b: seq<Text>): seq<Text> {
    MergeTerms(a, b)[|a|..]
  }

  // The forward columns, with an empty one for every name that is new to the sink.
  function MergedForward(a: Index, b: Index): Option<F.Store> {
    if a.forward.None? then None
    else
      var f: F.Store := if b.forward.Some? then F.MergedStore(a.forward.value, b.forward.value, a.position)
        else a.forward.value;
      Some(WithLayers(f, NewNames(a.layerNames, b.layerNames)))
  }

  function WithLayers(f: F.Store, names: seq<Layer>): F.Store {
    F.Fields(f.layers + names, f.data + Blank(names).data, f.tokens)
  }

  function Merged(a: Index, b: Index): Index {
    var offset := a.position;
    Index(
      MergeInverted(a.inverted, b.inverted, offset), MergeLexicon(a.lexicon, b.lexicon), MergedForward(a, b),
      a.docs + Each(SpanShifter(offset), b.docs, |b.docs|), a.sents + Each(SpanShifter(offset), b.sents, |b.sents|),
      MergeTerms(a.layerNames, b.layerNames), offset + b.position,
      a.documentNames + b.documentNames, a.sentenceIds + b.sentenceIds,
      a.mwts + Each(MwtShifter(offset), b.mwts, |b.mwts|), a.spacing + Shifted(b.spacing, offset),
      a.emptyNodes + Each(NodeShifter(|a.sentenceIds|), b.emptyNodes, |b.emptyNodes|))
  }

  // ---------------------------------------------------------------------------------
  // add_document, on values.

  // The column of a layer: the sink keeps its number, which is that of the last of its name.
  function LastIn(names: seq<Layer>, l: Layer): (r: Option<nat>)
    ensures r.Some? ==> r.value < |names| && names[r.value] == l && forall j :: r.value < j < |names| ==> names[j] != l
    ensures r.None? ==> l !in names
  {
    if names == [] then None
    else if names[|names| - 1] == l then Some(|names| - 1)
    else
      assert names == names[..|names| - 1] + [names[|names| - 1]];
      LastIn(names[..|names| - 1], l)
  }

  // The cell of a known layer is set.
  function SetIn(f: Option<F.Store>, names: seq<Layer>, l: Layer, p: nat, v: L.Value): Option<F.Store> {
    if f.None? || l !in names then f
    else
      var i := LastIn(f.value.layers, l);
      if i.None? then f else Some(F.WithCell(f.value, i.value, p, v))
  }

  // add_token_annotation, and add_token_int_annotation for a number
  function Annotated(s: Index, l: Layer, v: L.Value): Index {
    var f := SetIn(s.forward, s.layerNames, l, s.position, v);
    if v.Num? || ForwardOnly(l) then s.(forward := f)
    else s.(forward := f, inverted := Insert(s.inverted, l, v.text, s.position),
      lexicon := AddTerm(s.lexicon, l, v.text))
  }

  // ensure_layer
  function Ensured(s: Index, l: Layer): Index {
    if l in s.layerNames then s
    else s.(layerNames := s.layerNames + [l],
      forward := if s.forward.None? then None else Some(F.WithLayer(s.forward.value, l)))
  }

  function CutAt(s: Text, c: Byte): (i: nat)
    ensures i <= |s| && (i < |s| ==> s[i] == c) && forall k :: 0 <= k < i ==> s[k] != c
  {
    if s == [] || s[0] == c then 0 else 1 + CutAt(s[1..], c)
  }

  function Split(s: Text, c: Byte): seq<Text>
    decreases |s|
  {
    var i := CutAt(s, c);
    if i == |s| then [s] else [s[..i]] + Split(s[i + 1..], c)
  }

  // f applied for the first n elements, one after the other.
  function Fold<X>(f: (Index, X) -> Index, s: Index, xs: seq<X>, n: nat): Index
    requires n <= |xs|
  {
    if n == 0 then s else f(Fold(f, s, xs, n - 1), xs[n - 1])
  }

  // One annotation of a token; decomposed features make their layer first.
  datatype Write = Write(layer: Layer, value: L.Value, ensured: bool)

  function Applied(s: Index, w: Write): Index {
    Annotated(if w.ensured then Ensured(s, w.layer) else s, w.layer, w.value)
  }

  function Plain(l: Layer, v: Text): seq<Write> {
    [Write(l, L.Str(v), false)]
  }

  function Optional(l: Layer, v: Option<Text>): seq<Write> {
    if v.Some? then Plain(l, v.value) else []
  }

  function Feature(key: Text): Layer {
    FEATS + [DOT] + key
  }

  // decompose_feats_annotation: one layer per key.
  function PairWrite(pair: Text): seq<Write> {
    var i := CutAt(pair, EQUALS);
    if i == |pair| then [] else [Write(Feature(pair[..i]), L.Str(pair[i + 1..]), true)]
  }

  function PairWrites(pairs: seq<Text>, n: nat): seq<Write>
    requires n <= |pairs|
  {
    if n == 0 then [] else PairWrites(pairs, n - 1) + PairWrite(pairs[n - 1])
  }

  function DecomposedWrites(feats: Text): seq<Write> {
    PairWrites(Split(feats, BAR), |Split(feats, BAR)|)
  }

  function FeatWrites(feats: Option<Text>, decompose: bool): seq<Write> {
    if feats.None? then [] else Plain(FEATS, feats.value) + if decompose then DecomposedWrites(feats.value) else []
  }

  function HeadWrites(head: Option<int>): seq<Write> {
    if head.Some? then [Write(HEAD, L.Num(head.value), false)] else []
  }

  // All annotations of a token, in order.
  function Writes(t: Token, decompose: bool): seq<Write> {
    Plain(WORD, t.word) + Optional(LEMMA, t.base) + Optional(UPOS, t.upos) + Optional(XPOS, t.xpos)
    + FeatWrites(t.feats, decompose) + HeadWrites(t.head) + Optional(DEPREL, t.deprel) + Optional(DEPS, t.deps)
  }

  function EndedToken(s: Index, tight: bool): Index {
    s.(spacing := if tight then s.spacing + {s.position} else s.spacing, position := s.position + 1)
  }

  // A token with these annotations.
  function Stepped(s: Index, ws: seq<Write>, tight: bool): Index {
    EndedToken(Fold(Applied, s, ws, |ws|), tight)
  }

  // Formatting of numbers, and whether features are decomposed.
  datatype Options = Options(decompose: bool, decimal: nat -> Text)

  function TokenStep(o: Options): (Index, Token) -> Index {
    (s: Index, t: Token) => Stepped(s, Writes(t, o.decompose), t.spaceAfterNo)
  }

  function Placed(start: nat, r: Range): Mwt.Entry {
    Mwt.Entry(start + (r.first - 1), start + r.last, r.form, r.noSpaceAfter)
  }

  function PlaceMwt(start: nat, s: Index, r: Range): Index {
    s.(mwts := s.mwts + [Placed(start, r)])
  }

  function AddedNode(s: Index, node: Text): Index {
    s.(emptyNodes := s.emptyNodes + [EmptyNode(|s.sentenceIds|, node)])
  }

  // A sentence without an id gets the name of its document and its rank there.
  function IdOf(x: Sentence, name: Text, rank: nat, decimal: nat -> Text): Text {
    if x.id.Some? then x.id.value else name + [COLON] + decimal(rank)
  }

  function EndedSentence(s: Index, start: nat, id: Text): Index {
    s.(sents := s.sents + [Span(start, s.position)], sentenceIds := s.sentenceIds + [id])
  }

  // Closes a sentence that began at start: nothing is recorded for one without tokens.
  function Closed(s: Index, nodes: seq<Text>, start: nat, id: Text): Index {
    if s.position <= start then s else EndedSentence(Fold(AddedNode, s, nodes, |nodes|), start, id)
  }

  function CloseAs(nodes: seq<Text>, id: Text): (Index, nat) -> Index {
    (s: Index, start: nat) => Closed(s, nodes, start, id)
  }

  function From(place: (nat, Index, Range) -> Index, start: nat): (Index, Range) -> Index {
    (s, r) => place(start, s, r)
  }

  // A sentence: its tokens, its multiword tokens from where it began, and its end.
  function SentenceWith(
      step: (Index, Token) -> Index, place: (nat, Index, Range) -> Index,
      close: (Index, nat) -> Index, s: Index, x: Sentence): Index
  {
    var t := Fold(step, s, x.tokens, |x.tokens|);
    var u := Fold(From(place, s.position), t, x.mwts, |x.mwts|);
    close(u, s.position)
  }

  function AddedSentence(o: Options, s: Index, x: Sentence, name: Text, rank: nat): Index {
    SentenceWith(TokenStep(o), PlaceMwt, CloseAs(x.emptyNodes, IdOf(x, name, rank, o.decimal)), s, x)
  }

  // Sentences with their ranks; those without tokens do not count.
  function RankAfter(xs: seq<Sentence>, n: nat): nat
    requires n <= |xs|
  {
    if n == 0 then 0 else RankAfter(xs, n - 1) + if xs[n - 1].tokens == [] then 0 else 1
  }

  function Ranked(xs: seq<Sentence>): (r: seq<(Sentence, nat)>)
    ensures |r| == |xs| && forall i :: 0 <= i < |r| ==> r[i] == (xs[i], RankAfter(xs, i))
  {
    seq(|xs|, i requires 0 <= i < |xs| => (xs[i], RankAfter(xs, i)))
  }

  function SentenceStep(o: Options, name: Text): (Index, (Sentence, nat)) -> Index {
    (s: Index, x: (Sentence, nat)) => AddedSentence(o, s, x.0, name, x.1)
  }

  function EndedDocument(s: Index, start: nat, name: Text): Index {
    s.(docs := s.docs + [Span(start, s.position)], documentNames := s.documentNames + [name])
  }

  function DocumentWith<X>(step: (Index, X) -> Index, s: Index, xs: seq<X>, name: Text): Index {
    var t := Fold(step, s, xs, |xs|);
    if t.position > s.position then EndedDocument(t, s.position, name) else t
  }

  // add_document
  function Added(o: Options, s: Index, d: Document): Index {
    DocumentWith(SentenceStep(o, d.name), s, Ranked(d.sentences), d.name)
  }

  function DocumentStep(o: Options): (Index, Document) -> Index {
    (s, d) => Added(o, s, d)
  }

  function Built(o: Options, s: Index, ds: seq<Document>): Index {
    Fold(DocumentStep(o), s, ds, |ds|)
  }

  // ---------------------------------------------------------------------------------
  // Merging commutes with every addition.

  lemma Snoc<A>(a: seq<A>, b: seq<A>, x: A)
    ensures a + (b + [x]) == (a + b) + [x]
  {
  }

  lemma ShiftedNext(s: set<nat>, p: nat, offset: nat)
    ensures Shifted(s + {p}, offset) == Shifted(s, offset) + {p + offset}
  {
  }

  lemma {:induction false} MergedHas(a: seq<Text>, b: seq<Text>, t: Text)
    ensures t in MergeTerms(a, b) <==> t in a || t in b
    decreases |b|
  {
    if b != [] {
      MergedHas(a, b[..|b| - 1], t);
      assert b == b[..|b| - 1] + [b[|b| - 1]];
    }
  }

  lemma MergeTermsNext(a: seq<Text>, b: seq<Text>, t: Text)
    ensures MergeTerms(a, AddUnlessIn(b, t)) == AddUnlessIn(MergeTerms(a, b), t)
  {
    MergedHas(a, b, t);
    if t !in b {
      assert (b + [t])[..|b|] == b;
    }
  }

  lemma MergeMapsNext<V>(f: (V, V) -> V, none: V, a: map<Text, V>, b: map<Text, V>, k: Text, v: V)
    ensures MergeMaps(f, none, a, b[k := v]) == MergeMaps(f, none, a, b)[k := f(Lookup(a, k, none), v)]
  {
    assert MergeMaps(f, none, a, b[k := v]).Keys == a.Keys + b.Keys + {k};
  }

  lemma MergedAt<V>(f: (V, V) -> V, none: V, a: map<Text, V>, b: map<Text, V>, k: Text)
    requires f(Lookup(a, k, none), none) == Lookup(a, k, none)
    ensures Lookup(MergeMaps(f, none, a, b), k, none) == f(Lookup(a, k, none), Lookup(b, k, none))
  {
  }

  lemma MergedWithNothing<V>(f: (V, V) -> V, none: V, a: map<Text, V>)
    ensures MergeMaps(f, none, a, map[]) == a
  {
  }

  lemma MergeValuesNext(a: Bitmaps, b: Bitmaps, offset: nat, v: Text, p: nat)
    ensures MergeValues(a, InsertValue(b, v, p), offset) == InsertValue(MergeValues(a, b, offset), v, p + offset)
  {
    var f, x, y := JoinShifted(offset), Found(a, v), Found(b, v);
    assert f(x, {}) == x;
    MergeMapsNext(f, {}, a, b, v, y + {p});
    MergedAt(f, {}, a, b, v);
    ShiftedNext(y, p, offset);
    assert f(x, y + {p}) == f(x, y) + {p + offset};
  }

  lemma MergeInvertedNext(a: Inverted, b: Inverted, offset: nat, l: Layer, v: Text, p: nat)
    ensures MergeInverted(a, Insert(b, l, v, p), offset) == Insert(MergeInverted(a, b, offset), l, v, p + offset)
  {
    var f, x, y := ValuesMerger(offset), Values(a, l), Values(b, l);
    MergedWithNothing(JoinShifted(offset), {}, x);
    MergeMapsNext(f, map[], a, b, l, InsertValue(y, v, p));
    MergedAt(f, map[], a, b, l);
    MergeValuesNext(x, y, offset, v, p);
  }

  lemma MergeLexiconNext(a: Lexicon, b: Lexicon, l: Layer, t: Text)
    ensures MergeLexicon(a, AddTerm(b, l, t)) == AddTerm(MergeLexicon(a, b), l, t)
  {
    var x, y := Terms(a, l), Terms(b, l);
    MergeMapsNext(MergeTerms, [], a, b, l, AddUnlessIn(y, t));
    MergedAt(MergeTerms, [], a, b, l);
    MergeTermsNext(x, y, t);
  }

  lemma MergedTables(a: Index, b: Index, forward: Option<F.Store>, inverted: Inverted, lexicon: Lexicon)
    requires a.forward.None?
    ensures Merged(a, b.(forward := forward, inverted := inverted, lexicon := lexicon)) ==
      Merged(a, b).(inverted := MergeInverted(a.inverted, inverted, a.position),
        lexicon := MergeLexicon(a.lexicon, lexicon))
  {
  }

  lemma InvertedNext(a: Index, b: Index, inverted: Inverted, p: nat, l: Layer, v: Text)
    requires inverted == MergeInverted(a.inverted, b.inverted, a.position) && p == a.position + b.position
    ensures MergeInverted(a.inverted, Insert(b.inverted, l, v, b.position), a.position) == Insert(inverted, l, v, p)
  {
    MergeInvertedNext(a.inverted, b.inverted, a.position, l, v, b.position);
  }

  lemma LexiconNext(a: Index, b: Index, lexicon: Lexicon, l: Layer, v: Text)
    requires lexicon == MergeLexicon(a.lexicon, b.lexicon)
    ensures MergeLexicon(a.lexicon, AddTerm(b.lexicon, l, v)) == AddTerm(lexicon, l, v)
  {
    MergeLexiconNext(a.lexicon, b.lexicon, l, v);
  }

  lemma AnnotatedIndexed(s: Index, l: Layer, v: Text, inverted: Inverted, lexicon: Lexicon)
    requires s.forward.None? && !ForwardOnly(l)
    requires inverted == Insert(s.inverted, l, v, s.position) && lexicon == AddTerm(s.lexicon, l, v)
    ensures Annotated(s, l, L.Str(v)) == s.(inverted := inverted, lexicon := lexicon)
  {
  }

  lemma IndexedCommutes(a: Index, b: Index, l: Layer, v: Text)
    requires a.forward.None? && !ForwardOnly(l)
    ensures Merged(a, Annotated(b, l, L.Str(v))) == Annotated(Merged(a, b), l, L.Str(v))
  {
    var inverted, lexicon := Insert(b.inverted, l, v, b.position), AddTerm(b.lexicon, l, v);
    MergedTables(a, b, SetIn(b.forward, b.layerNames, l, b.position, L.Str(v)), inverted, lexicon);
    var m := Merged(a, b);
    InvertedNext(a, b, m.inverted, m.position, l, v);
    LexiconNext(a, b, m.lexicon, l, v);
    AnnotatedIndexed(m, l, v, MergeInverted(a.inverted, inverted, a.position), MergeLexicon(a.lexicon, lexicon));
  }

  lemma AnnotatedCommutes(a: Index, b: Index, l: Layer, v: L.Value)
    requires a.forward.None?
    ensures Merged(a, Annotated(b, l, v)) == Annotated(Merged(a, b), l, v)
  {
    if v.Num? || ForwardOnly(l) {
      MergedTables(a, b, SetIn(b.forward, b.layerNames, l, b.position, v), b.inverted, b.lexicon);
    } else {
      IndexedCommutes(a, b, l, v.text);
    }
  }

  lemma {:induction false} FoldCommutes<X(!new)>(
      m: Index -> Index, f: (Index, X) -> Index, g: (Index, X) -> Index, s: Index, xs: seq<X>, n: nat)
    requires n <= |xs| && forall t, x {:trigger m(f(t, x))} :: m(f(t, x)) == g(m(t), x)
    ensures m(Fold(f, s, xs, n)) == Fold(g, m(s), xs, n)
  {
    if n > 0 {
      FoldCommutes(m, f, g, s, xs, n - 1);
    }
  }

  function Into(a: Index): Index -> Index {
    b => Merged(a, b)
  }

  lemma MergedNames(a: Index, b: Index, forward: Option<F.Store>, names: seq<Layer>)
    requires a.forward.None?
    ensures Merged(a, b.(forward := forward, layerNames := names)) ==
      Merged(a, b).(layerNames := MergeTerms(a.layerNames, names))
  {
  }

  lemma EnsuredCommutes(a: Index, b: Index, l: Layer)
    requires a.forward.None?
    ensures Merged(a, Ensured(b, l)) == Ensured(Merged(a, b), l)
  {
    if l in b.layerNames {
      MergedHas(a.layerNames, b.layerNames, l);
    } else {
      var f := if b.forward.None? then None else Some(F.WithLayer(b.forward.value, l));
      MergedNames(a, b, f, b.layerNames + [l]);
      MergeTermsNext(a.layerNames, b.layerNames, l);
    }
  }

  lemma AppliedCommutes(a: Index, b: Index, w: Write)
    requires a.forward.None?
    ensures Into(a)(Applied(b, w)) == Applied(Into(a)(b), w)
  {
    EnsuredCommutes(a, b, w.layer);
    AnnotatedCommutes(a, if w.ensured then Ensured(b, w.layer) else b, w.layer, w.value);
  }

  lemma EndTokenCommutes(a: Index, b: Index, tight: bool)
    ensures Merged(a, EndedToken(b, tight)) == EndedToken(Merged(a, b), tight)
  {
    ShiftedNext(b.spacing, b.position, a.position);
  }

  lemma SteppedCommutes(a: Index, b: Index, ws: seq<Write>, tight: bool)
    requires a.forward.None?
    ensures Into(a)(Stepped(b, ws, tight)) == Stepped(Into(a)(b), ws, tight)
  {
    forall t, w
      ensures Into(a)(Applied(t, w)) == Applied(Into(a)(t), w)
    {
      AppliedCommutes(a, t, w);
    }
    FoldCommutes(Into(a), Applied, Applied, b, ws, |ws|);
    EndTokenCommutes(a, Fold(Applied, b, ws, |ws|), tight);
  }

  lemma EachSnoc<T, U>(before: seq<U>, f: T -> U, xs: seq<T>, x: T, y: U)
    requires f(x) == y
    ensures before + Each(f, xs + [x], |xs| + 1) == before + Each(f, xs, |xs|) + [y]
  {
    EachNext(f, xs, x);
  }

  lemma MwtCommutes(a: Index, b: Index, start: nat, r: Range)
    ensures Into(a)(PlaceMwt(start, b, r)) == PlaceMwt(start + a.position, Into(a)(b), r)
  {
    var m := Placed(start, r);
    EachSnoc(a.mwts, MwtShifter(a.position), b.mwts, m, Placed(start + a.position, r));
  }

  lemma NodeCommutes(a: Index, b: Index, node: Text)
    ensures Into(a)(AddedNode(b, node)) == AddedNode(Into(a)(b), node)
  {
    var x := EmptyNode(|b.sentenceIds|, node);
    EachSnoc(a.emptyNodes, NodeShifter(|a.sentenceIds|), b.emptyNodes, x,
      EmptyNode(|a.sentenceIds| + |b.sentenceIds|, node));
  }

  lemma NodesCommute(a: Index, b: Index, nodes: seq<Text>)
    ensures Into(a)(Fold(AddedNode, b, nodes, |nodes|)) == Fold(AddedNode, Into(a)(b), nodes, |nodes|)
  {
    forall s, x
      ensures Into(a)(AddedNode(s, x)) == AddedNode(Into(a)(s), x)
    {
      NodeCommutes(a, s, x);
    }
    FoldCommutes(Into(a), AddedNode, AddedNode, b, nodes, |nodes|);
  }

  lemma EndSentenceCommutes(a: Index, b: Index, start: nat, id: Text)
    ensures Into(a)(EndedSentence(b, start, id)) == EndedSentence(Into(a)(b), start + a.position, id)
  {
    var x := Span(start, b.position);
    EachSnoc(a.sents, SpanShifter(a.position), b.sents, x, Span(start + a.position, b.position + a.position));
    Snoc(a.sentenceIds, b.sentenceIds, id);
  }

  lemma PositionShifts(a: Index, b: Index)
    ensures Into(a)(b).position == b.position + a.position
  {
  }

  lemma ClosedCommutes(a: Index, b: Index, nodes: seq<Text>, start: nat, id: Text)
    ensures Into(a)(Closed(b, nodes, start, id)) == Closed(Into(a)(b), nodes, start + a.position, id)
  {
    PositionShifts(a, b);
    if b.position > start {
      NodesCommute(a, b, nodes);
      EndSentenceCommutes(a, Fold(AddedNode, b, nodes, |nodes|), start, id);
    }
  }

  lemma PlacedCommutes(m: Index -> Index, offset: nat, place: (nat, Index, Range) -> Index, start: nat, s: Index,
      rs: seq<Range>)
    requires forall start: nat, s, r {:trigger m(place(start, s, r))} ::
      m(place(start, s, r)) == place(start + offset, m(s), r)
    ensures m(Fold(From(place, start), s, rs, |rs|)) == Fold(From(place, start + offset), m(s), rs, |rs|)
  {
    var f, g := From(place, start), From(place, start + offset);
    forall t, r
      ensures m(f(t, r)) == g(m(t), r)
    {
    }
    FoldCommutes(m, f, g, s, rs, |rs|);
  }

  ghost predicate StepCommutes(m: Index -> Index, step: (Index, Token) -> Index) {
    forall s, t {:trigger m(step(s, t))} :: m(step(s, t)) == step(m(s), t)
  }

  ghost predicate PlaceCommutes(m: Index -> Index, offset: nat, place: (nat, Index, Range) -> Index) {
    forall start: nat, s, r {:trigger m(place(start, s, r))} :: m(place(start, s, r)) == place(start + offset, m(s), r)
  }

  ghost predicate CloseCommutes(m: Index -> Index, offset: nat, close: (Index, nat) -> Index) {
    forall s, start: nat {:trigger m(close(s, start))} :: m(close(s, start)) == close(m(s), start + offset)
  }

  // m moves everything by offset, and commutes with each part of adding a sentence.
  ghost predicate EachCommutes(
      m: Index -> Index, offset: nat, step: (Index, Token) -> Index, place: (nat, Index, Range) -> Index,
      close: (Index, nat) -> Index)
  {
    StepCommutes(m, step) && PlaceCommutes(m, offset, place) && CloseCommutes(m, offset, close)
  }

  lemma SentenceWithCommutes(
      m: Index -> Index, offset: nat, step: (Index, Token) -> Index, place: (nat, Index, Range) -> Index,
      close: (Index, nat) -> Index,
      b: Index, x: Sentence)
    requires m(b).position == b.position + offset && EachCommutes(m, offset, step, place, close)
    ensures m(SentenceWith(step, place, close, b, x)) == SentenceWith(step, place, close, m(b), x)
  {
    var t := Fold(step, b, x.tokens, |x.tokens|);
    FoldCommutes(m, step, step, b, x.tokens, |x.tokens|);
    PlacedCommutes(m, offset, place, b.position, t, x.mwts);
  }

  lemma MwtsCommuteAll(a: Index, m: Index -> Index, place: (nat, Index, Range) -> Index)
    requires m == Into(a) && place == PlaceMwt
    ensures PlaceCommutes(m, a.position, place)
  {
    forall start: nat, s, r
      ensures m(place(start, s, r)) == place(start + a.position, m(s), r)
    {
      MwtCommutes(a, s, start, r);
    }
  }

  lemma CloseAsCommutes(a: Index, nodes: seq<Text>, id: Text, s: Index, start: nat)
    ensures Into(a)(CloseAs(nodes, id)(s, start)) == CloseAs(nodes, id)(Into(a)(s), start + a.position)
  {
    ClosedCommutes(a, s, nodes, start, id);
  }

  lemma ClosedCommutesAll(a: Index, nodes: seq<Text>, id: Text, m: Index -> Index, close: (Index, nat) -> Index)
    requires m == Into(a) && close == CloseAs(nodes, id)
    ensures CloseCommutes(m, a.position, close)
  {
    forall s, start: nat
      ensures m(close(s, start)) == close(m(s), start + a.position)
    {
      CloseAsCommutes(a, nodes, id, s, start);
    }
  }

  lemma TokensCommuteAll(o: Options, a: Index, m: Index -> Index, step: (Index, Token) -> Index)
    requires a.forward.None? && m == Into(a) && step == TokenStep(o)
    ensures StepCommutes(m, step)
  {
    forall s, t
      ensures m(step(s, t)) == step(m(s), t)
    {
      SteppedCommutes(a, s, Writes(t, o.decompose), t.spaceAfterNo);
    }
  }

  // The parts of adding a sentence, each of which commutes with the merge.
  lemma SentenceParts(o: Options, a: Index, nodes: seq<Text>, id: Text)
      returns (m: Index -> Index, step: (Index, Token) -> Index, place: (nat, Index, Range) -> Index,
        close: (Index, nat) -> Index)
    requires a.forward.None?
    ensures m == Into(a) && step == TokenStep(o) && place == PlaceMwt && close == CloseAs(nodes, id)
    ensures EachCommutes(m, a.position, step, place, close)
  {
    m, step, place, close := Into(a), TokenStep(o), PlaceMwt, CloseAs(nodes, id);
    TokensCommuteAll(o, a, m, step);
    MwtsCommuteAll(a, m, place);
    ClosedCommutesAll(a, nodes, id, m, close);
  }

  lemma AddedCommutes(
      o: Options, b: Index, x: Sentence, name: Text, rank: nat, m: Index -> Index, offset: nat,
      step: (Index, Token) -> Index, place: (nat, Index, Range) -> Index, close: (Index, nat) -> Index)
    requires step == TokenStep(o) && place == PlaceMwt && close == CloseAs(x.emptyNodes, IdOf(x, name, rank, o.decimal))
    requires m(b).position == b.position + offset && EachCommutes(m, offset, step, place, close)
    ensures m(AddedSentence(o, b, x, name, rank)) == AddedSentence(o, m(b), x, name, rank)
  {
    SentenceWithCommutes(m, offset, step, place, close, b, x);
  }

  lemma SentenceCommutes(o: Options, a: Index, b: Index, x: Sentence, name: Text, rank: nat)
    requires a.forward.None?
    ensures Into(a)(AddedSentence(o, b, x, name, rank)) == AddedSentence(o, Into(a)(b), x, name, rank)
  {
    var m, step, place, close := SentenceParts(o, a, x.emptyNodes, IdOf(x, name, rank, o.decimal));
    PositionShifts(a, b);
    AddedCommutes(o, b, x, name, rank, m, a.position, step, place, close);
  }

  lemma EndDocumentCommutes(a: Index, b: Index, start: nat, name: Text)
    ensures Into(a)(EndedDocument(b, start, name)) == EndedDocument(Into(a)(b), start + a.position, name)
  {
    var x := Span(start, b.position);
    EachSnoc(a.docs, SpanShifter(a.position), b.docs, x, Span(start + a.position, b.position + a.position));
    Snoc(a.documentNames, b.documentNames, name);
  }

  lemma DocumentWithCommutes<X(!new)>(m: Index -> Index, offset: nat, step: (Index, X) -> Index, b: Index, xs: seq<X>,
      name: Text)
    requires forall s, x {:trigger m(step(s, x))} :: m(step(s, x)) == step(m(s), x)
    requires forall t :: m(t).position == t.position + offset
    requires forall t, start: nat {:trigger m(EndedDocument(t, start, name))} ::
      m(EndedDocument(t, start, name)) == EndedDocument(m(t), start + offset, name)
    ensures m(DocumentWith(step, b, xs, name)) == DocumentWith(step, m(b), xs, name)
  {
    FoldCommutes(m, step, step, b, xs, |xs|);
    assert m(b).position == b.position + offset;
    assert m(Fold(step, b, xs, |xs|)).position == Fold(step, b, xs, |xs|).position + offset;
  }

  lemma DocumentEndsAll(a: Index, name: Text)
    ensures forall t :: Into(a)(t).position == t.position + a.position
    ensures forall t, start: nat ::
      Into(a)(EndedDocument(t, start, name)) == EndedDocument(Into(a)(t), start + a.position, name)
  {
    forall t
      ensures Into(a)(t).position == t.position + a.position
    {
      PositionShifts(a, t);
    }
    forall t, start: nat
      ensures Into(a)(EndedDocument(t, start, name)) == EndedDocument(Into(a)(t), start + a.position, name)
    {
      EndDocumentCommutes(a, t, start, name);
    }
  }

  lemma SentencesCommuteAll(o: Options, a: Index, name: Text)
    requires a.forward.None?
    ensures forall s, x :: Into(a)(SentenceStep(o, name)(s, x)) == SentenceStep(o, name)(Into(a)(s), x)
  {
    forall s, x
      ensures Into(a)(SentenceStep(o, name)(s, x)) == SentenceStep(o, name)(Into(a)(s), x)
    {
      SentenceCommutes(o, a, s, x.0, name, x.1);
    }
  }

  // Merging an index with a document added is adding the document to the merged index.
  lemma DocumentCommutes(o: Options, a: Index, b: Index, d: Document)
    requires a.forward.None?
    ensures Into(a)(Added(o, b, d)) == Added(o, Into(a)(b), d)
  {
    SentencesCommuteAll(o, a, d.name);
    DocumentEndsAll(a, d.name);
    DocumentWithCommutes(Into(a), a.position, SentenceStep(o, d.name), b, Ranked(d.sentences), d.name);
  }

  // Merging with a new index changes nothing.
  lemma MergedWithEmpty(a: Index)
    requires forall l :: l in BASE ==> l in a.layerNames
    ensures Merged(a, Empty(false)) == a
  {
    MergedWithNothing(ValuesMerger(a.position), map[], a.inverted);
    MergedWithNothing(MergeTerms, [], a.lexicon);
    assert Shifted({}, a.position) == {};
    NothingNew(a.layerNames, BASE);
    assert NewNames(a.layerNames, BASE) == [];
    if a.forward.Some? {
      var f := a.forward.value;
      assert f.layers + [] == f.layers && f.data + Blank([]).data == f.data;
    }
  }

  lemma {:induction false} NothingNew(a: seq<Text>, b: seq<Text>)
    requires forall t :: t in b ==> t in a
    ensures MergeTerms(a, b) == a
    decreases |b|
  {
    if b != [] {
      NothingNew(a, b[..|b| - 1]);
      assert b[|b| - 1] in b;
    }
  }

  // Building is a homomorphism: adding documents to an index is merging it with the index
  // that these documents have on their own.
  lemma BuiltInParts(o: Options, a: Index, ds: seq<Document>)
    requires a.forward.None? && forall l :: l in BASE ==> l in a.layerNames
    ensures Built(o, a, ds) == Merged(a, Built(o, Empty(false), ds))
  {
    forall s, d
      ensures Into(a)(DocumentStep(o)(s, d)) == DocumentStep(o)(Into(a)(s), d)
    {
      DocumentCommutes(o, a, s, d);
    }
    FoldCommutes(Into(a), DocumentStep(o), DocumentStep(o), Empty(false), ds, |ds|);
    MergedWithEmpty(a);
  }
}
