// crates/montre-build/src/builder.rs, crates/montre-query/src/executor.rs: filters on the corpus of a
// built index, said of the sentences and the documents that were put in.
module BuiltCorpora {
  import opened Core
  import opened Bytes
  import opened Plan
  import opened Hits
  import opened QueryMeaning
  import opened Planner
  import opened Query
  import opened Indexed
  import A = Ast
  import C = CommonQueries
  import I = Inputs
  import Inverse
  import Readings
  import S = Sink
  import SinkFacts

  // The corpus that these documents are opened as.
  ghost function CorpusFor(o: S.Options, withForward: bool, ds: seq<S.Document>, rest: Rest): Corpus {
    CorpusOf(S.Built(o, S.Empty(withForward), ds), rest)
  }

  function AllSentences(ds: seq<S.Document>): seq<I.Situated> {
    I.SentencesOf(ds, |ds|)
  }

  function AllDocuments(ds: seq<S.Document>): seq<I.Stretch> {
    I.DocumentsOf(ds, |ds|)
  }

  predicate Between(x: Span, start: nat, length: nat) {
    start <= x.start < start + length && x.end <= start + length
  }

  ghost predicate InOneOf(us: seq<I.Situated>, x: Span) {
    exists i :: 0 <= i < |us| && Between(x, us[i].start, |us[i].sentence.tokens|)
  }

  ghost predicate InStretch(ss: seq<I.Stretch>, x: Span, d: nat) {
    d < |ss| && Between(x, ss[d].start, ss[d].length)
  }

  ghost predicate InOneNamed(ss: seq<I.Stretch>, x: Span, names: seq<string>) {
    exists d: nat :: InStretch(ss, x, d) && AsString(ss[d].name) in names
  }

  // The span lies in one sentence of the input.
  ghost predicate InSentence(ds: seq<S.Document>, x: Span) {
    InOneOf(AllSentences(ds), x)
  }

  // The span lies in one document of the input that has one of these names.
  ghost predicate InNamed(ds: seq<S.Document>, x: Span, names: seq<string>) {
    InOneNamed(AllDocuments(ds), x, names)
  }

  // ---------------------------------------------------------------------------------
  // The layers of the corpus.

  lemma SentencesHold(o: S.Options, withForward: bool, ds: seq<S.Document>)
    ensures S.Built(o, S.Empty(withForward), ds).sents == Each(I.SpanOf, AllSentences(ds), |AllSentences(ds)|)
    ensures S.Built(o, S.Empty(withForward), ds).position == |SinkFacts.TokensOf(ds)|
  {
    I.BuiltHolds(o, withForward, ds);
  }

  lemma DocumentsHold(o: S.Options, withForward: bool, ds: seq<S.Document>)
    ensures var s, ss := S.Built(o, S.Empty(withForward), ds), AllDocuments(ds);
      s.docs == Each(I.StretchSpan, ss, |ss|) && s.documentNames == Each(I.StretchName, ss, |ss|)
  {
    I.BuiltHolds(o, withForward, ds);
  }

  lemma Layers(s: S.Index, rest: Rest)
    ensures var spans := CorpusOf(s, rest).spans;
      && ("sentence" in spans <==> s.sents != []) && ("document" in spans <==> s.docs != [])
      && (s.sents != [] ==> spans["sentence"] == s.sents) && (s.docs != [] ==> spans["document"] == s.docs)
      && (s.sents == [] && s.docs == [] ==> spans == map[])
  {
  }

  lemma SentenceSpans(spans: seq<Span>, us: seq<I.Situated>, x: Span)
    requires spans == Each(I.SpanOf, us, |us|)
    ensures InsideOne(spans, x) <==> InOneOf(us, x)
  {
    EachIs(I.SpanOf, us, |us|);
    forall i | 0 <= i < |us|
      ensures Between(x, us[i].start, |us[i].sentence.tokens|) <==>
        spans[i].start <= x.start < spans[i].end && x.end <= spans[i].end
    {
    }
  }

  lemma SentencesAt(s: S.Index, us: seq<I.Situated>, rest: Rest)
    requires s.sents == Each(I.SpanOf, us, |us|)
    ensures "sentence" in CorpusOf(s, rest).spans <==> us != []
    ensures us != [] ==> forall x :: InsideOne(CorpusOf(s, rest).spans["sentence"], x) <==> InOneOf(us, x)
  {
    Layers(s, rest);
    forall x
      ensures InsideOne(s.sents, x) <==> InOneOf(us, x)
    {
      SentenceSpans(s.sents, us, x);
    }
  }

  lemma NamesAt(s: S.Index, ss: seq<I.Stretch>, rest: Rest)
    requires s.documentNames == Each(I.StretchName, ss, |ss|)
    ensures |CorpusOf(s, rest).documentNames| == |ss|
    ensures forall d :: 0 <= d < |ss| ==> CorpusOf(s, rest).documentNames[d] == AsString(ss[d].name)
  {
    EachIs(I.StretchName, ss, |ss|);
    EachIs(AsString, s.documentNames, |s.documentNames|);
  }

  lemma StretchesAt(s: S.Index, ss: seq<I.Stretch>, rest: Rest)
    requires s.docs == Each(I.StretchSpan, ss, |ss|)
    ensures "document" in CorpusOf(s, rest).spans <==> ss != []
    ensures ss != [] ==> forall x, d: nat :: InsideDocument(CorpusOf(s, rest), x, d) <==> InStretch(ss, x, d)
  {
    Layers(s, rest);
    EachIs(I.StretchSpan, ss, |ss|);
  }

  lemma NamedDocuments(s: S.Index, ss: seq<I.Stretch>, rest: Rest, x: Span, names: seq<string>)
    requires s.docs == Each(I.StretchSpan, ss, |ss|) && s.documentNames == Each(I.StretchName, ss, |ss|)
    ensures InDocuments(CorpusOf(s, rest), x, names) <==> InOneNamed(ss, x, names)
  {
    NamesAt(s, ss, rest);
    StretchesAt(s, ss, rest);
  }

  // ---------------------------------------------------------------------------------
  // A corpus without tokens.

  lemma {:induction false} NothingThere(q: A.Query, c: Corpus, side: Side)
    requires c.tokenCount == 0 && c.spans == map[] && Denoted(q, c, side).Some?
    ensures Denoted(q, c, side).value == {}
  {
    match q {
      case Token(_) =>
      case Or(alternatives) =>
        forall i | 0 <= i < |alternatives|
          ensures Denoted(alternatives[i], c, side).Some? ==> Denoted(alternatives[i], c, side).value == {}
        {
          if Denoted(alternatives[i], c, side).Some? {
            NothingThere(alternatives[i], c, side);
          }
        }
      case Sequence(_) =>
      case Repetition(_, _, _) =>
      case Capture(_, _) =>
      case Project(_, _) =>
      case _ => NothingThere(q.inner, c, side);
    }
  }

  lemma {:induction false} NoSentences(ds: seq<S.Document>, n: nat)
    requires n <= |ds| && I.SentencesOf(ds, n) == []
    ensures SinkFacts.Flat(SinkFacts.SentenceTokens, ds, n) == [] && I.DocumentsOf(ds, n) == []
  {
    if n > 0 {
      NoSentences(ds, n - 1);
      NoneInside(ds[n - 1], 0, |ds[n - 1].sentences|);
    }
  }

  lemma {:induction false} NoneInside(d: S.Document, start: nat, n: nat)
    requires n <= |d.sentences| && I.SentencesIn(d, start, n) == []
    ensures SinkFacts.Flat(SinkFacts.OwnTokens, d.sentences, n) == []
  {
    if n > 0 {
      NoneInside(d, start, n - 1);
    }
  }

  lemma EmptyCorpus(o: S.Options, withForward: bool, ds: seq<S.Document>, rest: Rest)
    requires AllSentences(ds) == []
    ensures var c := CorpusFor(o, withForward, ds, rest);
      c.tokenCount == 0 && c.spans == map[]
  {
    var s := S.Built(o, S.Empty(withForward), ds);
    SentencesHold(o, withForward, ds);
    DocumentsHold(o, withForward, ds);
    NoSentences(ds, |ds|);
    Layers(s, rest);
  }

  // ---------------------------------------------------------------------------------
  // Filters.

  // Those of the denotation that the filter keeps.
  ghost predicate Keeps(r: Result<seq<Hit>>, inner: A.Query, c: Corpus, keep: Span -> bool) {
    && (r.Ok? <==> Denotation(inner, c).Some?)
    && (r.Ok? ==> Reported(inner, c).Some?)
    && (r.Ok? ==> forall x :: x in SpanSet(r.value) <==> x in Reported(inner, c).value && keep(x))
  }

  lemma FilterKeeps(r: Result<seq<Hit>>, q: A.Query, c: Corpus, keep: Span -> bool)
    requires q.Within? || q.WithinDocument?
    requires Plannable(q.inner) && AllFixed(q.inner) && Finds(r, q, c)
    requires Denoted(q, c, Possible) == FilterDenotation(Denotation(q.inner, c), keep)
    requires Denoted(q, c, Seeded) == FilterDenotation(Reported(q.inner, c), keep)
    ensures Keeps(r, q.inner, c, keep)
  {
  }

  lemma SameFilter(d: Option<set<Span>>, a: Span -> bool, b: Span -> bool)
    requires d.Some? ==> forall x :: x in d.value ==> (a(x) <==> b(x))
    ensures FilterDenotation(d, a) == FilterDenotation(d, b)
  {
    if d.Some? {
      assert FilterDenotation(d, a).value == FilterDenotation(d, b).value;
    }
  }

  // A layer that is missing filters nothing, which is no matter where there is nothing.
  lemma WithinReads(inner: A.Query, c: Corpus, layer: string, keep: Span -> bool, side: Side)
    requires layer in c.spans ==> forall x :: InsideOne(c.spans[layer], x) <==> keep(x)
    requires layer !in c.spans ==> c.tokenCount == 0 && c.spans == map[]
    ensures Denoted(A.Within(inner, layer), c, side) == FilterDenotation(Denoted(inner, c, side), keep)
  {
    if layer in c.spans {
      SameFilter(Denoted(inner, c, side), x => InsideOne(c.spans[layer], x), keep);
    } else if Denoted(inner, c, side).Some? {
      NothingThere(inner, c, side);
      assert FilterDenotation(Denoted(inner, c, side), keep).value == {};
    }
  }

  // The sentence layer of the corpus is the sentences of the input.
  ghost predicate ReadsSentences(c: Corpus, ds: seq<S.Document>) {
    && ("sentence" in c.spans ==> forall x :: InsideOne(c.spans["sentence"], x) <==> InSentence(ds, x))
    && ("sentence" !in c.spans ==> c.tokenCount == 0 && c.spans == map[])
  }

  lemma BuiltReadsSentences(o: S.Options, withForward: bool, ds: seq<S.Document>, rest: Rest)
    ensures ReadsSentences(CorpusFor(o, withForward, ds, rest), ds)
  {
    SentencesHold(o, withForward, ds);
    SentencesAt(S.Built(o, S.Empty(withForward), ds), AllSentences(ds), rest);
    if AllSentences(ds) == [] {
      EmptyCorpus(o, withForward, ds, rest);
    }
  }

  ghost predicate ReadsDocuments(c: Corpus, ds: seq<S.Document>) {
    forall x, names :: InDocuments(c, x, names) <==> InNamed(ds, x, names)
  }

  lemma BuiltReadsDocuments(o: S.Options, withForward: bool, ds: seq<S.Document>, rest: Rest)
    ensures ReadsDocuments(CorpusFor(o, withForward, ds, rest), ds)
  {
    var s, ss := S.Built(o, S.Empty(withForward), ds), AllDocuments(ds);
    DocumentsHold(o, withForward, ds);
    forall x, names
      ensures InDocuments(CorpusOf(s, rest), x, names) <==> InOneNamed(ss, x, names)
    {
      NamedDocuments(s, ss, rest, x, names);
    }
  }

  lemma SentencesKeep(ds: seq<S.Document>, inner: A.Query, c: Corpus, r: Result<seq<Hit>>)
    requires ReadsSentences(c, ds) && Plannable(inner) && AllFixed(inner) && Finds(r, A.Within(inner, "sentence"), c)
    ensures Keeps(r, inner, c, x => InSentence(ds, x))
  {
    var keep := (x: Span) => InSentence(ds, x);
    WithinReads(inner, c, "sentence", keep, Possible);
    WithinReads(inner, c, "sentence", keep, Seeded);
    FilterKeeps(r, A.Within(inner, "sentence"), c, keep);
  }

  lemma DocumentsKeep(ds: seq<S.Document>, inner: A.Query, names: seq<string>, c: Corpus, r: Result<seq<Hit>>)
    requires ReadsDocuments(c, ds) && Plannable(inner) && AllFixed(inner)
    requires Finds(r, A.WithinDocument(inner, names), c)
    ensures Keeps(r, inner, c, x => InNamed(ds, x, names))
  {
    var keep := (x: Span) => InNamed(ds, x, names);
    SameFilter(Denoted(inner, c, Possible), x => InDocuments(c, x, names), keep);
    SameFilter(Denoted(inner, c, Seeded), x => InDocuments(c, x, names), keep);
    FilterKeeps(r, A.WithinDocument(inner, names), c, keep);
  }

  // `within sentence` keeps exactly the hits that lie in one sentence of the input.
  lemma WithinSentence(o: S.Options, withForward: bool, ds: seq<S.Document>, rest: Rest, inner: A.Query,
      r: Result<seq<Hit>>)
    requires Plannable(inner) && AllFixed(inner)
    requires Finds(r, A.Within(inner, "sentence"), CorpusFor(o, withForward, ds, rest))
    ensures Keeps(r, inner, CorpusFor(o, withForward, ds, rest), x => InSentence(ds, x))
  {
    BuiltReadsSentences(o, withForward, ds, rest);
    SentencesKeep(ds, inner, CorpusFor(o, withForward, ds, rest), r);
  }

  // `within document` keeps exactly those in one document of the input with one of the names.
  lemma WithinDocument(o: S.Options, withForward: bool, ds: seq<S.Document>, rest: Rest, inner: A.Query,
      names: seq<string>, r: Result<seq<Hit>>)
    requires Plannable(inner) && AllFixed(inner)
    requires Finds(r, A.WithinDocument(inner, names), CorpusFor(o, withForward, ds, rest))
    ensures Keeps(r, inner, CorpusFor(o, withForward, ds, rest), x => InNamed(ds, x, names))
  {
    BuiltReadsDocuments(o, withForward, ds, rest);
    DocumentsKeep(ds, inner, names, CorpusFor(o, withForward, ds, rest), r);
  }

  // ---------------------------------------------------------------------------------
  // Words one after the other, in one sentence.

  // The tokens of document d, from start on.
  ghost predicate Stands(us: seq<I.Situated>, ts: seq<S.Token>, start: nat) {
    forall i, k: nat :: 0 <= i < |us| && k < |us[i].sentence.tokens| ==> StandsAt(us[i], ts, start, k)
  }

  ghost predicate StandsAt(u: I.Situated, ts: seq<S.Token>, start: nat, k: nat)
    requires k < |u.sentence.tokens|
  {
    0 <= u.start + k - start < |ts| && ts[u.start + k - start] == u.sentence.tokens[k]
  }

  lemma {:induction false} SentencesStand(d: S.Document, start: nat, n: nat)
    requires n <= |d.sentences|
    ensures Stands(I.SentencesIn(d, start, n), SinkFacts.SentenceTokens(d), start)
  {
    if n > 0 {
      SentencesStand(d, start, n - 1);
      var at := start + |SinkFacts.Flat(SinkFacts.OwnTokens, d.sentences, n - 1)|;
      var u := I.Situated(d.name, |I.SentencesIn(d, start, n - 1)|, at, d.sentences[n - 1]);
      SentenceStands(d, start, n - 1, u);
    }
  }

  lemma SentenceStands(d: S.Document, start: nat, n: nat, u: I.Situated)
    requires n < |d.sentences| && u.sentence == d.sentences[n]
    requires u.start == start + |SinkFacts.Flat(SinkFacts.OwnTokens, d.sentences, n)|
    ensures forall k: nat :: k < |u.sentence.tokens| ==> StandsAt(u, SinkFacts.SentenceTokens(d), start, k)
  {
    var x, before := d.sentences[n], |SinkFacts.Flat(SinkFacts.OwnTokens, d.sentences, n)|;
    FlatHolds(SinkFacts.OwnTokens, d.sentences, |d.sentences|, n);
    forall k: nat | k < |x.tokens|
      ensures StandsAt(u, SinkFacts.SentenceTokens(d), start, k)
    {
      assert SinkFacts.SentenceTokens(d)[before..before + |x.tokens|][k] == x.tokens[k];
    }
  }

  lemma StandsFurther(us: seq<I.Situated>, ts: seq<S.Token>, all: seq<S.Token>, start: nat)
    requires Stands(us, ts, start) && StandsIn(ts, all, start)
    ensures Stands(us, all, 0)
  {
    forall i, k: nat | 0 <= i < |us| && k < |us[i].sentence.tokens|
      ensures StandsAt(us[i], all, 0, k)
    {
      assert StandsAt(us[i], ts, start, k);
      var j := us[i].start + k - start;
      assert all[start..start + |ts|][j] == ts[j];
    }
  }

  ghost predicate StandsIn<T>(ts: seq<T>, all: seq<T>, start: nat) {
    start + |ts| <= |all| && all[start..start + |ts|] == ts
  }

  lemma {:induction false} FlatHolds<X, Y>(f: X -> seq<Y>, xs: seq<X>, n: nat, i: nat)
    requires i < n <= |xs|
    ensures StandsIn(f(xs[i]), SinkFacts.Flat(f, xs, n), |SinkFacts.Flat(f, xs, i)|)
  {
    if i < n - 1 {
      FlatHolds(f, xs, n - 1, i);
      var start, before := |SinkFacts.Flat(f, xs, i)|, SinkFacts.Flat(f, xs, n - 1);
      var end := start + |f(xs[i])|;
      assert (before + f(xs[n - 1]))[start..end] == before[start..end];
    }
  }

  // Every sentence stands where the index says.
  lemma {:induction false} AllStand(ds: seq<S.Document>, n: nat, all: seq<S.Token>)
    requires n <= |ds| && all == SinkFacts.TokensOf(ds)
    ensures Stands(I.SentencesOf(ds, n), all, 0)
  {
    if n > 0 {
      AllStand(ds, n - 1, all);
      var d, start := ds[n - 1], |SinkFacts.Flat(SinkFacts.SentenceTokens, ds, n - 1)|;
      var ts := SinkFacts.SentenceTokens(d);
      SentencesStand(d, start, |d.sentences|);
      FlatHolds(SinkFacts.SentenceTokens, ds, |ds|, n - 1);
      StandsFurther(I.SentencesIn(d, start, |d.sentences|), ts, all, start);
    }
  }

  // A word asked for in a layer.
  datatype Asked = Asked(layer: Buffer, value: Buffer)

  function PatternFor(w: Asked): A.TokenPattern {
    A.TokenPattern([A.Constraint(AsString(w.layer), A.IsEq, A.Literal(AsString(w.value)))])
  }

  function PatternsFor(ws: seq<Asked>): (r: seq<A.TokenPattern>)
    ensures |r| == |ws| && forall i :: 0 <= i < |r| ==> r[i] == PatternFor(ws[i])
  {
    seq(|ws|, i requires 0 <= i < |ws| => PatternFor(ws[i]))
  }

  predicate Has(t: S.Token, w: Asked) {
    Inverse.OwnValue(t, w.layer) == Some(w.value)
  }

  lemma PatternAt(c: Corpus, w: Asked, p: nat)
    ensures C.TokenAt(PatternFor(w), c, p) <==>
      p < c.tokenCount && p in Bitmap(c, AsString(w.layer), AsString(w.value))
  {
    var k := PatternFor(w).constraints[0];
    assert PatternFor(w).constraints == [k] && k in PatternFor(w).constraints;
    assert ValuePositions(k, c) == Bitmap(c, AsString(w.layer), AsString(w.value));
  }

  // The corpus has these tokens, and finds their values.
  ghost predicate ReadsValues(c: Corpus, ts: seq<S.Token>) {
    && c.tokenCount == |ts|
    && forall l, v {:trigger TokensWith(ts, l, v)} :: l in Inverse.COLUMNS ==>
         Bitmap(c, AsString(l), AsString(v)) == TokensWith(ts, l, v)
  }

  lemma BuiltReadsValues(o: S.Options, withForward: bool, ds: seq<S.Document>, rest: Rest)
    ensures ReadsValues(CorpusFor(o, withForward, ds, rest), SinkFacts.TokensOf(ds))
  {
    SentencesHold(o, withForward, ds);
    forall l, v | l in Inverse.COLUMNS
      ensures Bitmap(CorpusFor(o, withForward, ds, rest), AsString(l), AsString(v)) ==
        TokensWith(SinkFacts.TokensOf(ds), l, v)
    {
      LiteralFinds(o, withForward, ds, l, v, rest);
    }
  }

  lemma AskedAt(c: Corpus, ts: seq<S.Token>, w: Asked, p: nat)
    requires w.layer in Inverse.COLUMNS && ReadsValues(c, ts)
    ensures C.TokenAt(PatternFor(w), c, p) <==> p < |ts| && Has(ts[p], w)
  {
    PatternAt(c, w, p);
    assert Bitmap(c, AsString(w.layer), AsString(w.value)) == TokensWith(ts, w.layer, w.value);
  }

  // The words stand one after the other in a sentence of the input, from its token k on.
  ghost predicate SaidAt(u: I.Situated, ws: seq<Asked>, k: nat) {
    k + |ws| <= |u.sentence.tokens| && forall j :: 0 <= j < |ws| ==> Has(u.sentence.tokens[k + j], ws[j])
  }

  ghost predicate Said(us: seq<I.Situated>, ws: seq<Asked>, x: Span) {
    exists i: nat, k: nat :: i < |us| && SaidAt(us[i], ws, k) && x == Span(us[i].start + k, us[i].start + k + |ws|)
  }

  // The same, counted through all documents.
  ghost predicate Run(ts: seq<S.Token>, ws: seq<Asked>, x: Span) {
    x.end == x.start + |ws| <= |ts| && forall j :: 0 <= j < |ws| ==> Has(ts[x.start + j], ws[j])
  }

  lemma RunIsSaid(us: seq<I.Situated>, ts: seq<S.Token>, ws: seq<Asked>, x: Span)
    requires ws != [] && Stands(us, ts, 0)
    ensures Run(ts, ws, x) && InOneOf(us, x) <==> Said(us, ws, x)
  {
    if Run(ts, ws, x) && InOneOf(us, x) {
      var i: nat :| i < |us| && Between(x, us[i].start, |us[i].sentence.tokens|);
      var k: nat := x.start - us[i].start;
      forall j | 0 <= j < |ws|
        ensures Has(us[i].sentence.tokens[k + j], ws[j])
      {
        assert StandsAt(us[i], ts, 0, k + j);
        assert Has(ts[x.start + j], ws[j]);
      }
      assert SaidAt(us[i], ws, k);
    }
    if Said(us, ws, x) {
      var i: nat, k: nat :| i < |us| && SaidAt(us[i], ws, k) &&
        x == Span(us[i].start + k, us[i].start + k + |ws|);
      forall j | 0 <= j < |ws|
        ensures x.start + j < |ts| && Has(ts[x.start + j], ws[j])
      {
        assert Has(us[i].sentence.tokens[k + j], ws[j]);
        assert StandsAt(us[i], ts, 0, k + j);
      }
      assert StandsAt(us[i], ts, 0, k + |ws| - 1);
      assert Between(x, us[i].start, |us[i].sentence.tokens|);
    }
  }

  function WordsQuery(ws: seq<Asked>): A.Query {
    A.Sequence(C.TokenParts(PatternsFor(ws)))
  }

  lemma AsksForWords(ws: seq<Asked>, c: Corpus)
    ensures !Readings.KeepsToDocuments(c, C.TokenParts(PatternsFor(ws)))
  {
    var parts := C.TokenParts(PatternsFor(ws));
    forall i | 0 <= i < |parts|
      ensures !Readings.Widens(parts[i])
    {
      assert PatternFor(ws[i]).constraints[0] in parts[i].pattern.constraints;
    }
  }

  // On the corpus, the words are the runs of tokens that have them.
  lemma WordsRun(ws: seq<Asked>, c: Corpus, ts: seq<S.Token>, x: Span)
    requires ws != [] && ReadsValues(c, ts) && forall i :: 0 <= i < |ws| ==> ws[i].layer in Inverse.COLUMNS
    ensures Denotation(WordsQuery(ws), c).Some?
    ensures x in Denotation(WordsQuery(ws), c).value <==> Run(ts, ws, x)
  {
    var ps := PatternsFor(ws);
    C.PlainSequenceReads(ps, c, x);
    AsksForWords(ws, c);
    forall j | 0 <= j < |ws|
      ensures C.TokenAt(ps[j], c, x.start + j) <==> x.start + j < |ts| && Has(ts[x.start + j], ws[j])
    {
      AskedAt(c, ts, ws[j], x.start + j);
    }
  }

  // What a query that leaves nothing open finds, under a filter.
  lemma DefiniteFinds(r: Result<seq<Hit>>, q: A.Query, c: Corpus, keep: Span -> bool)
    requires q.Within? || q.WithinDocument?
    requires Plannable(q.inner) && SafeQuery(q.inner) && AllFixed(q.inner) && Finds(r, q, c)
    requires Denotation(q.inner, c).Some? && Denotation(q, c) == FilterDenotation(Denotation(q.inner, c), keep)
    ensures r.Ok? && forall x :: x in SpanSet(r.value) <==> x in Denotation(q.inner, c).value && keep(x)
  {
  }

  lemma WordsFound(ws: seq<Asked>, ds: seq<S.Document>, c: Corpus, r: Result<seq<Hit>>)
    requires ws != [] && forall i :: 0 <= i < |ws| ==> ws[i].layer in Inverse.COLUMNS
    requires ReadsSentences(c, ds) && ReadsValues(c, SinkFacts.TokensOf(ds))
    requires Finds(r, A.Within(WordsQuery(ws), "sentence"), c)
    ensures r.Ok? && forall x :: x in SpanSet(r.value) <==> Said(AllSentences(ds), ws, x)
  {
    var inner, ts, keep := WordsQuery(ws), SinkFacts.TokensOf(ds), (x: Span) => InSentence(ds, x);
    C.PlainIsDefinite(PatternsFor(ws));
    WithinReads(inner, c, "sentence", keep, Possible);
    WordsRun(ws, c, ts, Span(0, 0));
    DefiniteFinds(r, A.Within(inner, "sentence"), c, keep);
    AllStand(ds, |ds|, ts);
    forall x
      ensures x in SpanSet(r.value) <==> Said(AllSentences(ds), ws, x)
    {
      WordsRun(ws, c, ts, x);
      RunIsSaid(AllSentences(ds), ts, ws, x);
    }
  }

  // From documents to hits: `[l="v"] [l="w"] within sentence`, and the same of any words, finds exactly
  // the places where the words stand one after the other in a sentence of the input.
  lemma WordsWithinSentence(o: S.Options, withForward: bool, ds: seq<S.Document>, rest: Rest, ws: seq<Asked>,
      r: Result<seq<Hit>>)
    requires ws != [] && forall i :: 0 <= i < |ws| ==> ws[i].layer in Inverse.COLUMNS
    requires Finds(r, A.Within(WordsQuery(ws), "sentence"), CorpusFor(o, withForward, ds, rest))
    ensures r.Ok? && forall x :: x in SpanSet(r.value) <==> Said(AllSentences(ds), ws, x)
  {
    BuiltReadsSentences(o, withForward, ds, rest);
    BuiltReadsValues(o, withForward, ds, rest);
    WordsFound(ws, ds, CorpusFor(o, withForward, ds, rest), r);
  }

  // The same in the documents with some names.
  ghost predicate RunNamed(ds: seq<S.Document>, ws: seq<Asked>, names: seq<string>, x: Span) {
    Run(SinkFacts.TokensOf(ds), ws, x) && InNamed(ds, x, names)
  }

  lemma WordsWithinDocument(o: S.Options, withForward: bool, ds: seq<S.Document>, rest: Rest, ws: seq<Asked>,
      names: seq<string>, r: Result<seq<Hit>>)
    requires ws != [] && forall i :: 0 <= i < |ws| ==> ws[i].layer in Inverse.COLUMNS
    requires Finds(r, A.WithinDocument(WordsQuery(ws), names), CorpusFor(o, withForward, ds, rest))
    ensures r.Ok? && forall x :: x in SpanSet(r.value) <==> RunNamed(ds, ws, names, x)
  {
    BuiltReadsDocuments(o, withForward, ds, rest);
    BuiltReadsValues(o, withForward, ds, rest);
    WordsNamed(ws, ds, names, CorpusFor(o, withForward, ds, rest), r);
  }

  lemma WordsNamed(ws: seq<Asked>, ds: seq<S.Document>, names: seq<string>, c: Corpus, r: Result<seq<Hit>>)
    requires ws != [] && forall i :: 0 <= i < |ws| ==> ws[i].layer in Inverse.COLUMNS
    requires ReadsDocuments(c, ds) && ReadsValues(c, SinkFacts.TokensOf(ds))
    requires Finds(r, A.WithinDocument(WordsQuery(ws), names), c)
    ensures r.Ok? && forall x :: x in SpanSet(r.value) <==> RunNamed(ds, ws, names, x)
  {
    var inner, ts, keep := WordsQuery(ws), SinkFacts.TokensOf(ds), (x: Span) => InNamed(ds, x, names);
    C.PlainIsDefinite(PatternsFor(ws));
    SameFilter(Denotation(inner, c), x => InDocuments(c, x, names), keep);
    WordsRun(ws, c, ts, Span(0, 0));
    DefiniteFinds(r, A.WithinDocument(inner, names), c, keep);
    forall x
      ensures x in SpanSet(r.value) <==> RunNamed(ds, ws, names, x)
    {
      WordsRun(ws, c, ts, x);
    }
  }
}
