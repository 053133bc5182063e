// From documents to query results: the corpus that a built index is opened as
// (crates/montre-build/src/builder.rs, crates/montre-index/src/corpus.rs), fit for the query engine.
module Indexed {
  import opened Core
  import opened Bytes
  import opened Align
  import opened Plan
  import opened Runs
  import A = Ast
  import P = QueryMeaning
  import R = Planner
  import Q = Query
  import Hits
  import S = Sink
  import SinkFacts
  import SinkLayers
  import Inverse

  // Strings are their bytes.
  function AsString(b: Buffer): (r: string)
    ensures |r| == |b| && forall i :: 0 <= i < |b| ==> r[i] == b[i] as char
  {
    seq(|b|, i requires 0 <= i < |b| => b[i] as char)
  }

  lemma SameBytes(a: Buffer, b: Buffer)
    requires AsString(a) == AsString(b)
    ensures a == b
  {
    forall i | 0 <= i < |a|
      ensures a[i] == b[i]
    {
      assert AsString(a)[i] == AsString(b)[i];
    }
  }

  // A table whose keys are strings instead of bytes.
  function Rename<T>(m: map<Buffer, T>): map<string, T> {
    StringsDiffer();
    map b | b in m :: AsString(b) := m[b]
  }

  lemma StringsDiffer()
    ensures forall a: Buffer, b: Buffer :: AsString(a) == AsString(b) ==> a == b
  {
    forall a: Buffer, b: Buffer | AsString(a) == AsString(b)
      ensures a == b
    {
      SameBytes(a, b);
    }
  }

  lemma RenamedAt<T>(m: map<Buffer, T>, b: Buffer)
    ensures AsString(b) in Rename(m) <==> b in m
    ensures b in m ==> Rename(m)[AsString(b)] == m[b]
  {
    StringsDiffer();
  }

  lemma RenamedFrom<T>(m: map<Buffer, T>, k: string) returns (b: Buffer)
    requires k in Rename(m)
    ensures b in m && AsString(b) == k && Rename(m)[k] == m[b]
  {
    b :| b in m && AsString(b) == k;
    RenamedAt(m, b);
  }

  function InvertedOf(m: S.Inverted): map<string, map<string, set<nat>>> {
    Rename(map l | l in m :: Rename(m[l]))
  }

  // A layer of spans is there as soon as it has one.
  function SpanLayer(name: string, spans: seq<Span>): map<string, seq<Span>> {
    if spans == [] then map[] else map[name := spans]
  }

  function SpansOf(s: S.Index): map<string, seq<Span>> {
    SpanLayer("document", s.docs) + SpanLayer("sentence", s.sents)
  }

  function NamesOf(names: seq<Buffer>): seq<string> {
    Each(AsString, names, |names|)
  }

  // What does not come from the documents: attributes are read from the forward file, components
  // and alignments from the manifest.
  datatype Rest = Rest(
    attribute: (nat, string) -> Option<string>, components: seq<Component>, alignments: seq<AlignmentMeta>,
    edges: map<string, seq<Edge>>, compile: string -> Option<string -> bool>)

  function CorpusOf(s: S.Index, rest: Rest): Corpus {
    Corpus(s.position, InvertedOf(s.inverted), rest.attribute,
           SpansOf(s), NamesOf(s.documentNames),
           rest.components, rest.alignments, rest.edges, rest.compile)
  }

  lemma InvertedAt(s: S.Index, l: Buffer, v: Buffer, rest: Rest)
    ensures Bitmap(CorpusOf(s, rest), AsString(l), AsString(v)) == SinkLayers.At(s, l, v)
  {
    RenamedAt(map l | l in s.inverted :: Rename(s.inverted[l]), l);
    if l in s.inverted {
      RenamedAt(s.inverted[l], v);
    }
  }

  // ---------------------------------------------------------------------------------
  // What the query engine requires of a corpus.

  lemma BitmapOrigin(m: S.Inverted, layer: string, value: string) returns (l: Buffer, v: Buffer)
    requires layer in InvertedOf(m) && value in InvertedOf(m)[layer]
    ensures InvertedOf(m)[layer][value] == S.Found(S.Values(m, l), v)
  {
    l := RenamedFrom(map l | l in m :: Rename(m[l]), layer);
    v := RenamedFrom(m[l], value);
  }

  ghost predicate InBounds(s: S.Index) {
    forall l, v, p :: p in SinkLayers.At(s, l, v) ==> p < s.position
  }

  lemma InvertedInside(s: S.Index)
    requires InBounds(s)
    ensures var m := InvertedOf(s.inverted);
      forall layer, value, p :: layer in m && value in m[layer] && p in m[layer][value] ==> p < s.position
  {
    ghost var m := InvertedOf(s.inverted);
    forall layer, value, p | layer in m && value in m[layer] && p in m[layer][value]
      ensures p < s.position
    {
      var l, v := BitmapOrigin(s.inverted, layer, value);
      assert p in SinkLayers.At(s, l, v);
    }
  }

  lemma SpansFit(s: S.Index)
    requires SinkFacts.Tiled(s)
    ensures forall layer :: layer in SpansOf(s) ==> Ordered(SpansOf(s)[layer])
    ensures "document" in SpansOf(s) ==> Tiles(SpansOf(s)["document"], s.position)
  {
  }

  lemma TiledIsValid(s: S.Index, rest: Rest)
    requires SinkFacts.Tiled(s) && InBounds(s)
    ensures ValidCorpus(CorpusOf(s, rest))
  {
    InvertedInside(s);
    SpansFit(s);
  }

  lemma BuiltBounds(o: S.Options, withForward: bool, ds: seq<S.Document>, l: Buffer, v: Buffer, p: nat)
    requires p in SinkLayers.At(S.Built(o, S.Empty(withForward), ds), l, v)
    ensures p < S.Built(o, S.Empty(withForward), ds).position
  {
    SinkFacts.DroppedBuilt(o, ds);
    SinkLayers.BuiltRecords(o, ds, l);
    SinkLayers.SameInverted(S.Built(o, S.Empty(true), ds), S.Built(o, S.Empty(withForward), ds), l, v);
  }

  // Every built index opens as a corpus fit for the query engine.
  lemma BuiltIsValid(o: S.Options, withForward: bool, ds: seq<S.Document>, rest: Rest)
    ensures ValidCorpus(CorpusOf(S.Built(o, S.Empty(withForward), ds), rest))
  {
    var s := S.Built(o, S.Empty(withForward), ds);
    SinkFacts.BuiltTiled(o, withForward, ds);
    forall l, v, p | p in SinkLayers.At(s, l, v)
      ensures p < s.position
    {
      BuiltBounds(o, withForward, ds, l, v, p);
    }
    TiledIsValid(s, rest);
  }

  // ---------------------------------------------------------------------------------
  // A query for a value finds the tokens that have it.

  function TokensWith(ts: seq<S.Token>, l: Buffer, v: Buffer): set<nat> {
    set p: nat | p < |ts| && Inverse.OwnValue(ts[p], l) == Some(v)
  }

  lemma LiteralFinds(o: S.Options, withForward: bool, ds: seq<S.Document>, l: Buffer, v: Buffer, rest: Rest)
    requires l in Inverse.COLUMNS
    ensures Bitmap(CorpusOf(S.Built(o, S.Empty(withForward), ds), rest), AsString(l), AsString(v)) ==
      TokensWith(SinkFacts.TokensOf(ds), l, v)
  {
    var s, built, ts := S.Built(o, S.Empty(withForward), ds), S.Built(o, S.Empty(true), ds), SinkFacts.TokensOf(ds);
    SinkFacts.DroppedBuilt(o, ds);
    SinkLayers.SameInverted(built, s, l, v);
    InvertedAt(s, l, v, rest);
    Inverse.BuiltHolds(o, ds, l);
    forall p: nat
      ensures p in SinkLayers.At(built, l, v) <==> p in TokensWith(ts, l, v)
    {
      Inverse.HeldAt(built, ts, l, v, p);
    }
  }

  function ValueQuery(l: Buffer, v: Buffer): A.Query {
    A.Token(A.TokenPattern([A.Constraint(AsString(l), A.IsEq, A.Literal(AsString(v)))]))
  }

  lemma ValueDenotes(c: Corpus, l: Buffer, v: Buffer)
    requires ValidCorpus(c)
    ensures P.Denotation(ValueQuery(l, v), c) == Some(Singletons(Bitmap(c, AsString(l), AsString(v))))
  {
    var p, bitmap := ValueQuery(l, v).pattern, Bitmap(c, AsString(l), AsString(v));
    var k := p.constraints[0];
    assert p.constraints == [k] && k in p.constraints && P.ValuePositions(k, c) == bitmap;
    forall i: nat
      ensures i in RangeSet(0, c.tokenCount) && P.TokenMatches(p, c, i) <==> i in bitmap
    {
    }
    assert (set i | i in RangeSet(0, c.tokenCount) && P.TokenMatches(p, c, i)) == bitmap;
  }

  lemma ValueIsPlain(q: A.Query)
    requires q.Token?
    ensures R.Plannable(q) && P.SafeQuery(q) && P.AllFixed(q)
  {
  }

  lemma ValueFound(r: Result<seq<Hits.Hit>>, q: A.Query, c: Corpus, spans: set<Span>)
    requires q.Token? && Q.Finds(r, q, c) && P.Denotation(q, c) == Some(spans)
    ensures r.Ok? && Hits.SpanSet(r.value) == spans
  {
    ValueIsPlain(q);
  }

  // From documents to hits: planning and executing [word="v"], or the same of another column, on
  // the corpus of a built index finds exactly the tokens that have the value.
  method QueryValue(o: S.Options, ds: seq<S.Document>, l: Buffer, v: Buffer, c: Corpus, ghost rest: Rest)
    returns (r: Result<seq<Hits.Hit>>)
    requires l in Inverse.COLUMNS && c == CorpusOf(S.Built(o, S.Empty(false), ds), rest)
    ensures r.Ok? && Hits.SpanSet(r.value) == Singletons(TokensWith(SinkFacts.TokensOf(ds), l, v))
  {
    BuiltIsValid(o, false, ds, rest);
    ValueDenotes(c, l, v);
    LiteralFinds(o, false, ds, l, v, rest);
    var q := ValueQuery(l, v);
    r := Q.RunQuery(q, c);
    ValueFound(r, q, c, Singletons(TokensWith(SinkFacts.TokensOf(ds), l, v)));
  }
}
