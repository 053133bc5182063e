// crates/montre-daemon/src/handlers/query.rs, crates/montre-query/src/executor.rs: what running common
// kinds of queries gives, position by position.
module CommonQueries {
  import opened Core
  import Align
  import opened Ast
  import opened Plan
  import opened Hits
  import opened Constraints
  import opened Determined
  import opened Verdict
  import opened Labelled
  import opened QueryMeaning
  import opened Readings
  import opened Planner
  import opened Query

  // The pattern matches the token.
  ghost predicate TokenAt(p: TokenPattern, c: Corpus, i: nat) {
    (forall k :: k in p.constraints ==> Compiles(k, c)) && TokenMatches(p, c, i)
  }

  // The tokens of [a, b) all match.
  ghost predicate TokensAt(p: TokenPattern, c: Corpus, a: nat, b: nat) {
    forall i :: a <= i < b ==> TokenAt(p, c, i)
  }

  lemma TokenBegins(p: TokenPattern, c: Corpus, side: Side, i: nat)
    ensures BeginsAt(Token(p), c, side, i) <==> TokenAt(p, c, i)
  {
    if TokenAt(p, c, i) {
      assert Singleton(i) in Denoted(Token(p), c, side).value;
    }
  }

  // A pattern, labelled or not, repeated or not.
  predicate IsOf(part: Ast.Query, p: TokenPattern) {
    match part
    case Repetition(inner, _, _) => inner == Token(p) || (inner.Capture? && inner.inner == Token(p))
    case Capture(_, inner) => inner == Token(p)
    case _ => part == Token(p)
  }

  lemma TokensTaken(part: Ast.Query, p: TokenPattern, c: Corpus, side: Side, a: nat, b: nat)
    requires IsOf(part, p)
    ensures Takes(part, c, side, a, b) <==>
      && TokensAt(p, c, a, b)
      && if part.Repetition? then a <= b && part.min <= b - a <= 100 && (part.max.Some? ==> b - a <= part.max.value)
         else b == a + 1
  {
    forall i: nat
      ensures PartAt(part, c, side, i) <==> TokenAt(p, c, i)
    {
      TokenBegins(p, c, side, i);
    }
  }

  // ---------------------------------------------------------------------------------
  // One token after another.

  function TokenParts(ps: seq<TokenPattern>): (r: seq<Ast.Query>)
    ensures |r| == |ps| && forall i :: 0 <= i < |r| ==> r[i] == Token(ps[i])
  {
    seq(|ps|, i requires 0 <= i < |ps| => Token(ps[i]))
  }

  lemma PlainTakes(p: TokenPattern, c: Corpus, side: Side, a: nat, b: nat)
    ensures Takes(Token(p), c, side, a, b) <==> b == a + 1 && TokenAt(p, c, a)
  {
    TokensTaken(Token(p), p, c, side, a, b);
  }

  lemma {:induction false} PlainChainStep(ps: seq<TokenPattern>, c: Corpus, side: Side, x: Span, cs: seq<nat>, k: nat)
    requires Chain(TokenParts(ps), c, side, x, cs) && k <= |ps|
    ensures cs[k] == x.start + k && forall i :: 0 <= i < k ==> TokenAt(ps[i], c, x.start + i)
  {
    if k > 0 {
      PlainChainStep(ps, c, side, x, cs, k - 1);
      assert Takes(TokenParts(ps)[k - 1], c, side, cs[k - 1], cs[k]);
      PlainTakes(ps[k - 1], c, side, cs[k - 1], cs[k]);
    }
  }

  lemma PlainChain(ps: seq<TokenPattern>, c: Corpus, side: Side, x: Span)
    requires x.start <= x.end
    ensures (exists cs :: Chain(TokenParts(ps), c, side, x, cs)) <==>
      x.end == x.start + |ps| && forall i :: 0 <= i < |ps| ==> TokenAt(ps[i], c, x.start + i)
  {
    if cs :| Chain(TokenParts(ps), c, side, x, cs) {
      PlainChainStep(ps, c, side, x, cs, |ps|);
    }
    if x.end == x.start + |ps| && forall i :: 0 <= i < |ps| ==> TokenAt(ps[i], c, x.start + i) {
      var cs := seq(|ps| + 1, (i: nat) => x.start + i);
      forall i | 0 <= i < |ps|
        ensures Takes(TokenParts(ps)[i], c, side, cs[i], cs[i + 1])
      {
        PlainTakes(ps[i], c, side, cs[i], cs[i + 1]);
      }
      assert Chain(TokenParts(ps), c, side, x, cs);
    }
  }

  lemma PlainSequenceReads(ps: seq<TokenPattern>, c: Corpus, x: Span)
    requires ps != []
    ensures Denotation(Ast.Sequence(TokenParts(ps)), c).Some?
    ensures x in Denotation(Ast.Sequence(TokenParts(ps)), c).value <==>
      && x.end == x.start + |ps| <= c.tokenCount
      && (forall i :: 0 <= i < |ps| ==> TokenAt(ps[i], c, x.start + i))
      && (KeepsToDocuments(c, TokenParts(ps)) ==> InsideOne(c.spans["document"], x))
  {
    SequenceReads(TokenParts(ps), c, x);
    if x.start <= x.end {
      PlainChain(ps, c, Possible, x);
    }
  }

  // A sequence of tokens is found exactly where they stand one after the other: inside one document
  // where a pattern asks for no word.
  lemma PlainSequenceFound(ps: seq<TokenPattern>, r: Result<seq<Hit>>, c: Corpus)
    requires ps != [] && Finds(r, Ast.Sequence(TokenParts(ps)), c)
    ensures r.Ok?
    ensures forall x :: x in SpanSet(r.value) <==>
      && x.end == x.start + |ps| <= c.tokenCount
      && (forall i :: 0 <= i < |ps| ==> TokenAt(ps[i], c, x.start + i))
      && (KeepsToDocuments(c, TokenParts(ps)) ==> InsideOne(c.spans["document"], x))
  {
    PlainIsDefinite(ps);
    PlainSequenceReads(ps, c, Span(0, 0));
    forall x
      ensures x in SpanSet(r.value) <==>
        && x.end == x.start + |ps| <= c.tokenCount
        && (forall i :: 0 <= i < |ps| ==> TokenAt(ps[i], c, x.start + i))
        && (KeepsToDocuments(c, TokenParts(ps)) ==> InsideOne(c.spans["document"], x))
    {
      PlainSequenceReads(ps, c, x);
    }
  }

  lemma PlainIsDefinite(ps: seq<TokenPattern>)
    requires ps != []
    ensures var q := Ast.Sequence(TokenParts(ps)); Plannable(q) && SafeQuery(q) && AllFixed(q)
  {
  }

  // ---------------------------------------------------------------------------------
  // Repetitions and labels.

  // A repeated pattern is found in every stretch of its tokens that has a permitted length.
  lemma RepetitionFound(q: Ast.Query, p: TokenPattern, r: Result<seq<Hit>>, c: Corpus)
    requires q.Repetition? && IsOf(q, p) && Finds(r, q, c)
    ensures r.Ok?
    ensures forall x :: x in SpanSet(r.value) <==>
      && x.start < x.end <= c.tokenCount && TokensAt(p, c, x.start, x.end)
      && q.min <= x.end - x.start <= 100 && (q.max.Some? ==> x.end - x.start <= q.max.value)
      && (KeepsToDocuments(c, [q]) ==> InsideOne(c.spans["document"], x))
  {
    SingleReads(q, c, Possible);
    SequenceReads([q], c, Span(0, 0));
    SingleIsDefinite(q, p);
    forall x
      ensures x in Denotation(q, c).value <==>
        && x.start < x.end <= c.tokenCount && TokensAt(p, c, x.start, x.end)
        && q.min <= x.end - x.start <= 100 && (q.max.Some? ==> x.end - x.start <= q.max.value)
        && (KeepsToDocuments(c, [q]) ==> InsideOne(c.spans["document"], x))
    {
      SequenceReads([q], c, x);
      SingleChain(q, c, Possible, x);
      TokensTaken(q, p, c, Possible, x.start, x.end);
    }
  }

  lemma SingleIsDefinite(q: Ast.Query, p: TokenPattern)
    requires (q.Repetition? || q.Capture?) && IsOf(q, p)
    ensures Plannable(q) && SafeQuery(q) && AllFixed(q)
  {
  }

  lemma SingleChain(q: Ast.Query, c: Corpus, side: Side, x: Span)
    ensures (exists cs :: Chain([q], c, side, x, cs)) <==> Takes(q, c, side, x.start, x.end)
  {
    if Takes(q, c, side, x.start, x.end) {
      assert Chain([q], c, side, x, [x.start, x.end]);
    }
    if cs :| Chain([q], c, side, x, cs) {
      assert Takes([q][0], c, side, cs[0], cs[1]);
    }
  }

  // The label of a pattern, repeated or not, names the whole hit.
  lemma LabelFound(q: Ast.Query, name: string, r: Result<seq<Hit>>, c: Corpus, h: Hit)
    requires (q.Capture? && q.name == name) || (q.Repetition? && q.inner.Capture? && q.inner.name == name)
    requires Finds(r, q, c) && r.Ok? && h in r.value
    ensures h.captures == [(name, h.span)]
  {
    SingleReads(q, c, Possible);
    SequenceLabels([q], c, h);
    var cs :| Chain([q], c, Possible, h.span, cs) && h.captures == Labels([q], cs, 1);
    assert Labels([q], cs, 0) == [];
  }

  // In a sequence, every hit comes with a way to go through its parts, and its captures name what
  // the labelled parts take on it.
  lemma LabelsFound(parts: seq<Ast.Query>, r: Result<seq<Hit>>, c: Corpus, h: Hit)
    requires Finds(r, Ast.Sequence(parts), c) && r.Ok? && h in r.value
    ensures exists cs :: Chain(parts, c, Possible, h.span, cs) && h.captures == Labels(parts, cs, |parts|)
  {
    SequenceLabels(parts, c, h);
  }

  // ---------------------------------------------------------------------------------
  // A pattern that may be missing, and one that follows.

  // The corpus, or one of its documents where there are several.
  ghost predicate ScanRange(c: Corpus, lo: nat, hi: nat) {
    if "document" in c.spans && |c.spans["document"]| > 1 then Span(lo, hi) in c.spans["document"]
    else lo == 0 && hi == c.tokenCount
  }

  function OptionalParts(p: TokenPattern, q: TokenPattern): seq<Ast.Query> {
    [Repetition(Token(p), 0, Some(1)), Token(q)]
  }

  // With p, or without it where the token before is not a q.
  ghost predicate OptionalAt(p: TokenPattern, q: TokenPattern, c: Corpus, lo: nat, x: Span) {
    && lo <= x.start
    && ((x.end == x.start + 2 && TokenAt(p, c, x.start) && TokenAt(q, c, x.start + 1))
        || (x.end == x.start + 1 && TokenAt(q, c, x.start) && (x.start == lo || !TokenAt(q, c, x.start - 1))))
  }

  lemma OptionalTakes(p: TokenPattern, q: TokenPattern, c: Corpus, a: nat, b: nat)
    ensures Takes(OptionalParts(p, q)[0], c, Seeded, a, b) <==> a <= b <= a + 1 && TokensAt(p, c, a, b)
    ensures Takes(OptionalParts(p, q)[1], c, Seeded, a, b) <==> b == a + 1 && TokenAt(q, c, a)
    ensures PartAt(OptionalParts(p, q)[1], c, Seeded, a) <==> TokenAt(q, c, a)
  {
    TokensTaken(OptionalParts(p, q)[0], p, c, Seeded, a, b);
    PlainTakes(q, c, Seeded, a, b);
    TokenBegins(q, c, Seeded, a);
  }

  lemma OptionalBefore(p: TokenPattern, q: TokenPattern, c: Corpus, lo: nat, s: nat)
    ensures lo < s ==> (PartAt(OptionalParts(p, q)[1], c, Seeded, s - 1) <==> TokenAt(q, c, s - 1))
  {
    if lo < s {
      OptionalTakes(p, q, c, s - 1, s);
    }
  }

  lemma SeededOptional(p: TokenPattern, q: TokenPattern, c: Corpus, lo: nat, x: Span, cs: seq<nat>)
    requires x.start < x.end && Seeds(OptionalParts(p, q), c, lo, x, cs)
    ensures OptionalAt(p, q, c, lo, x)
  {
    var parts := OptionalParts(p, q);
    assert Takes(parts[0], c, Seeded, cs[0], cs[1]) && Takes(parts[1], c, Seeded, cs[1], cs[2]);
    OptionalTakes(p, q, c, cs[0], cs[1]);
    OptionalTakes(p, q, c, cs[1], cs[2]);
    OptionalBefore(p, q, c, lo, x.start);
  }

  lemma OptionalSeeds(p: TokenPattern, q: TokenPattern, c: Corpus, lo: nat, x: Span, cs: seq<nat>)
    requires x.start < x.end && OptionalAt(p, q, c, lo, x) && cs == [x.start, x.end - 1, x.end]
    ensures Seeds(OptionalParts(p, q), c, lo, x, cs)
  {
    OptionalTakes(p, q, c, cs[0], cs[1]);
    OptionalTakes(p, q, c, cs[1], cs[2]);
    OptionalBefore(p, q, c, lo, x.start);
  }

  lemma OptionalSeeded(p: TokenPattern, q: TokenPattern, c: Corpus, lo: nat, x: Span)
    requires x.start < x.end
    ensures SeededFrom(OptionalParts(p, q), c, lo, x) <==> OptionalAt(p, q, c, lo, x)
  {
    var parts := OptionalParts(p, q);
    if cs :| Seeds(parts, c, lo, x, cs) {
      SeededOptional(p, q, c, lo, x, cs);
    }
    if OptionalAt(p, q, c, lo, x) {
      OptionalSeeds(p, q, c, lo, x, [x.start, x.end - 1, x.end]);
    }
  }

  lemma OptionalIsFixed(p: TokenPattern, q: TokenPattern)
    ensures var o := Ast.Sequence(OptionalParts(p, q)); Plannable(o) && AllFixed(o)
  {
  }

  lemma OptionalKeeps(p: TokenPattern, q: TokenPattern, c: Corpus)
    ensures KeepsToDocuments(c, OptionalParts(p, q)) <==> "document" in c.spans && |c.spans["document"]| > 1
  {
    assert Widens(OptionalParts(p, q)[0]);
  }

  ghost predicate OptionalIn(p: TokenPattern, q: TokenPattern, c: Corpus, x: Span) {
    exists lo: nat, hi: nat :: ScanRange(c, lo, hi) && x.end <= hi && OptionalAt(p, q, c, lo, x)
  }

  lemma OptionalSeededIn(p: TokenPattern, q: TokenPattern, c: Corpus, x: Span)
    requires x.start < x.end <= c.tokenCount
    ensures SeededIn(OptionalParts(p, q), c, x) <==> OptionalIn(p, q, c, x)
  {
    var parts := OptionalParts(p, q);
    OptionalKeeps(p, q, c);
    forall lo: nat
      ensures SeededFrom(parts, c, lo, x) <==> OptionalAt(p, q, c, lo, x)
    {
      OptionalSeeded(p, q, c, lo, x);
    }
    if KeepsToDocuments(c, parts) {
      var docs := c.spans["document"];
      if d :| InOneDocument(parts, c, d, x) {
        assert docs[d] == Span(docs[d].start, docs[d].end) && docs[d] in docs;
        assert ScanRange(c, docs[d].start, docs[d].end);
      }
      if lo: nat, hi: nat :| ScanRange(c, lo, hi) && x.end <= hi && OptionalAt(p, q, c, lo, x) {
        var d :| 0 <= d < |docs| && docs[d] == Span(lo, hi);
        assert InOneDocument(parts, c, d, x);
      }
    } else {
      assert ScanRange(c, 0, c.tokenCount);
    }
  }

  // Running `p? q` finds every p with the q after it; and every q alone that begins a stretch of them
  // in the corpus, or in its document.
  lemma OptionalFound(p: TokenPattern, q: TokenPattern, r: Result<seq<Hit>>, c: Corpus)
    requires Finds(r, Ast.Sequence(OptionalParts(p, q)), c)
    ensures r.Ok?
    ensures forall x :: x in SpanSet(r.value) <==> x.end <= c.tokenCount && OptionalIn(p, q, c, x)
  {
    var parts := OptionalParts(p, q);
    OptionalIsFixed(p, q);
    SequenceReads(parts, c, Span(0, 0));
    forall x
      ensures x in SpanSet(r.value) <==> x.end <= c.tokenCount && OptionalIn(p, q, c, x)
    {
      SequenceFinds(parts, c, x);
      if x.start < x.end <= c.tokenCount {
        OptionalSeededIn(p, q, c, x);
      }
    }
  }

  // In a corpus of one document.
  lemma OptionalInOne(p: TokenPattern, q: TokenPattern, r: Result<seq<Hit>>, c: Corpus)
    requires "document" in c.spans ==> |c.spans["document"]| <= 1
    requires Finds(r, Ast.Sequence(OptionalParts(p, q)), c)
    ensures r.Ok?
    ensures forall x :: x in SpanSet(r.value) <==>
      || (x.end == x.start + 2 && TokenAt(p, c, x.start) && TokenAt(q, c, x.start + 1))
      || (x.end == x.start + 1 && TokenAt(q, c, x.start) && (x.start == 0 || !TokenAt(q, c, x.start - 1)))
  {
    OptionalFound(p, q, r, c);
    forall x: Span
      ensures x.end <= c.tokenCount && OptionalIn(p, q, c, x) <==> OptionalAt(p, q, c, 0, x)
    {
      OptionalWhole(p, q, c, x);
    }
  }

  lemma OptionalWhole(p: TokenPattern, q: TokenPattern, c: Corpus, x: Span)
    requires "document" in c.spans ==> |c.spans["document"]| <= 1
    ensures x.end <= c.tokenCount && OptionalIn(p, q, c, x) <==> OptionalAt(p, q, c, 0, x)
  {
    assert ScanRange(c, 0, c.tokenCount);
  }

  // ---------------------------------------------------------------------------------
  // Constraints between two labelled tokens.

  // a:p []{m,n} b:q, with any pattern in the middle.
  function GapParts(a: string, p: TokenPattern, middle: Ast.Query, b: string, q: TokenPattern): seq<Ast.Query> {
    [Capture(a, Token(p)), middle, Capture(b, Token(q))]
  }

  ghost predicate GapMatch(p: TokenPattern, middle: Ast.Query, q: TokenPattern, c: Corpus, x: Span) {
    && x.start + 2 <= x.end && TokenAt(p, c, x.start) && TokenAt(q, c, x.end - 1)
    && Takes(middle, c, Possible, x.start + 1, x.end - 1)
  }

  lemma GapTakes(a: string, p: TokenPattern, middle: Ast.Query, b: string, q: TokenPattern, c: Corpus, i: nat, j: nat)
    ensures Takes(GapParts(a, p, middle, b, q)[0], c, Possible, i, j) <==> j == i + 1 && TokenAt(p, c, i)
    ensures Takes(GapParts(a, p, middle, b, q)[2], c, Possible, i, j) <==> j == i + 1 && TokenAt(q, c, i)
  {
    TokensTaken(Capture(a, Token(p)), p, c, Possible, i, j);
    TokensTaken(Capture(b, Token(q)), q, c, Possible, i, j);
  }

  lemma GapChain(a: string, p: TokenPattern, middle: Ast.Query, b: string, q: TokenPattern, c: Corpus, x: Span,
      cs: seq<nat>)
    ensures Chain(GapParts(a, p, middle, b, q), c, Possible, x, cs) <==>
      GapMatch(p, middle, q, c, x) && cs == [x.start, x.start + 1, x.end - 1, x.end]
  {
    var parts := GapParts(a, p, middle, b, q);
    if Chain(parts, c, Possible, x, cs) {
      assert Takes(parts[0], c, Possible, cs[0], cs[1]) && Takes(parts[1], c, Possible, cs[1], cs[2]);
      assert Takes(parts[2], c, Possible, cs[2], cs[3]);
      GapTakes(a, p, middle, b, q, c, cs[0], cs[1]);
      GapTakes(a, p, middle, b, q, c, cs[2], cs[3]);
      assert cs[1] <= cs[2];
    }
    if GapMatch(p, middle, q, c, x) {
      GapTakes(a, p, middle, b, q, c, x.start, x.start + 1);
      GapTakes(a, p, middle, b, q, c, x.end - 1, x.end);
    }
  }

  function TwoLabels(a: string, b: string, x: Span): Captures
    requires x.start + 2 <= x.end
  {
    [(a, Span(x.start, x.start + 1)), (b, Span(x.end - 1, x.end))]
  }

  lemma GapCuts(a: string, p: TokenPattern, middle: Ast.Query, b: string, q: TokenPattern, c: Corpus, h: Hit)
    requires middle.Repetition? && middle.inner.Token?
    ensures Cuts(h, Ast.Sequence(GapParts(a, p, middle, b, q)), c) <==>
      GapMatch(p, middle, q, c, h.span) && h.captures == TwoLabels(a, b, h.span)
  {
    var parts := GapParts(a, p, middle, b, q);
    SequenceLabels(parts, c, h);
    if cs :| Chain(parts, c, Possible, h.span, cs) && h.captures == Labels(parts, cs, 3) {
      GapOf(a, p, middle, b, q, c, h, cs);
    }
    if GapMatch(p, middle, q, c, h.span) {
      GapCut(a, p, middle, b, q, c, h, [h.span.start, h.span.start + 1, h.span.end - 1, h.span.end]);
    }
  }

  lemma GapOf(a: string, p: TokenPattern, middle: Ast.Query, b: string, q: TokenPattern, c: Corpus, h: Hit,
      cs: seq<nat>)
    requires middle.Repetition? && middle.inner.Token?
    requires Chain(GapParts(a, p, middle, b, q), c, Possible, h.span, cs)
    requires h.captures == Labels(GapParts(a, p, middle, b, q), cs, 3)
    ensures GapMatch(p, middle, q, c, h.span) && h.captures == TwoLabels(a, b, h.span)
  {
    GapChain(a, p, middle, b, q, c, h.span, cs);
    GapLabels(a, p, middle, b, q, cs);
  }

  lemma GapCut(a: string, p: TokenPattern, middle: Ast.Query, b: string, q: TokenPattern, c: Corpus, h: Hit,
      cs: seq<nat>)
    requires middle.Repetition? && middle.inner.Token? && GapMatch(p, middle, q, c, h.span)
    requires cs == [h.span.start, h.span.start + 1, h.span.end - 1, h.span.end]
    ensures Chain(GapParts(a, p, middle, b, q), c, Possible, h.span, cs)
    ensures Labels(GapParts(a, p, middle, b, q), cs, 3) == TwoLabels(a, b, h.span)
  {
    GapChain(a, p, middle, b, q, c, h.span, cs);
    GapLabels(a, p, middle, b, q, cs);
  }

  lemma GapLabels(a: string, p: TokenPattern, middle: Ast.Query, b: string, q: TokenPattern, cs: seq<nat>)
    requires middle.Repetition? && middle.inner.Token? && |cs| == 4
    ensures Labels(GapParts(a, p, middle, b, q), cs, 3) == [(a, Span(cs[0], cs[1])), (b, Span(cs[2], cs[3]))]
  {
    var parts := GapParts(a, p, middle, b, q);
    assert Labels(parts, cs, 0) == [];
    assert Labels(parts, cs, 1) == [(a, Span(cs[0], cs[1]))];
    assert Labels(parts, cs, 2) == [(a, Span(cs[0], cs[1]))];
  }

  // The constraint is between the two labels.
  predicate Between(g: GlobalConstraint, a: string, b: string) {
    if g.Distance? then g.from == a && g.to == b else g.left.name == a && g.right.name == b
  }

  lemma GapIsDefinite(a: string, p: TokenPattern, middle: Ast.Query, b: string, q: TokenPattern, g: GlobalConstraint)
    requires middle.Repetition? && middle.inner.Token? && a != b && Between(g, a, b)
    ensures var r := Constrained(Ast.Sequence(GapParts(a, p, middle, b, q)), [g]);
      Plannable(r) && SafeQuery(r) && AllFixed(r)
  {
    var parts := GapParts(a, p, middle, b, q);
    var steps := QuerySteps(parts);
    assert steps[0].capture == Some(a) && steps[1].capture == None && steps[2].capture == Some(b);
    assert LabelOf(steps, a) == Some(0);
    assert LabelOf(steps, b) == Some(2);
    assert AllExact(steps[..0]) && AllExact(steps[..1]) && AllExact(steps[2..]);
    assert ReadFixed(steps, g);
    GapIsPlannable(a, p, middle, b, q, g);
  }

  lemma GapIsPlannable(a: string, p: TokenPattern, middle: Ast.Query, b: string, q: TokenPattern, g: GlobalConstraint)
    requires middle.Repetition? && middle.inner.Token? && Between(g, a, b)
    ensures Plannable(Constrained(Ast.Sequence(GapParts(a, p, middle, b, q)), [g]))
  {
    var parts := GapParts(a, p, middle, b, q);
    DeclaredNext(Capture(a, Token(p)), [middle, Capture(b, Token(q))]);
    DeclaredNext(middle, [Capture(b, Token(q))]);
    DeclaredNext(Capture(b, Token(q)), []);
    assert parts == [Capture(a, Token(p))] + ([middle] + ([Capture(b, Token(q))] + []));
    assert DeclaredLabels(Capture(a, Token(p))) == {a} && DeclaredLabels(Capture(b, Token(q))) == {b};
    assert DeclaredLabels(Ast.Sequence(parts)) == {a, b};
    assert Plannable(Ast.Sequence(parts));
  }

  lemma DeclaredNext(q: Ast.Query, rest: seq<Ast.Query>)
    ensures DeclaredInAll([q] + rest) == DeclaredLabels(q) + DeclaredInAll(rest)
  {
    assert ([q] + rest)[1..] == rest;
  }

  lemma GapMeets(a: string, p: TokenPattern, middle: Ast.Query, b: string, q: TokenPattern, g: GlobalConstraint,
      c: Corpus, x: Span)
    requires middle.Repetition? && middle.inner.Token? && GapMatch(p, middle, q, c, x)
    ensures Meets(x, Ast.Sequence(GapParts(a, p, middle, b, q)), [g], c, Possible) <==>
      Satisfies(c, Hit(x, TwoLabels(a, b, x)), g)
  {
    var o, h := Ast.Sequence(GapParts(a, p, middle, b, q)), Hit(x, TwoLabels(a, b, x));
    assert SatisfiesAll(c, h, [g]) <==> Satisfies(c, h, g) by {
      assert [g][0] in [g];
    }
    forall k: Hit | k.span == x
      ensures Cuts(k, o, c) <==> k == h
    {
      GapCuts(a, p, middle, b, q, c, k);
    }
  }

  // A constraint between two labelled tokens keeps exactly the hits whose captures satisfy it.
  lemma GapFound(a: string, p: TokenPattern, middle: Ast.Query, b: string, q: TokenPattern, g: GlobalConstraint,
      r: Result<seq<Hit>>, c: Corpus)
    requires middle.Repetition? && middle.inner.Token? && a != b && Between(g, a, b)
    requires Finds(r, Constrained(Ast.Sequence(GapParts(a, p, middle, b, q)), [g]), c)
    ensures r.Ok?
    ensures forall x :: x in SpanSet(r.value) <==>
      && x.end <= c.tokenCount && GapMatch(p, middle, q, c, x)
      && (KeepsToDocuments(c, GapParts(a, p, middle, b, q)) ==> InsideOne(c.spans["document"], x))
      && Satisfies(c, Hit(x, TwoLabels(a, b, x)), g)
  {
    var parts := GapParts(a, p, middle, b, q);
    var o := Ast.Sequence(parts);
    GapIsDefinite(a, p, middle, b, q, g);
    SequenceReads(parts, c, Span(0, 0));
    forall x
      ensures x in SpanSet(r.value) <==>
        && x.end <= c.tokenCount && GapMatch(p, middle, q, c, x)
        && (KeepsToDocuments(c, parts) ==> InsideOne(c.spans["document"], x))
        && Satisfies(c, Hit(x, TwoLabels(a, b, x)), g)
    {
      SequenceReads(parts, c, x);
      GapExists(a, p, middle, b, q, c, x);
      assert x in SpanSet(r.value) <==> x in Denotation(o, c).value && Meets(x, o, [g], c, Possible);
      if GapMatch(p, middle, q, c, x) {
        GapMeets(a, p, middle, b, q, g, c, x);
      }
    }
  }

  lemma GapExists(a: string, p: TokenPattern, middle: Ast.Query, b: string, q: TokenPattern, c: Corpus, x: Span)
    ensures (exists cs :: Chain(GapParts(a, p, middle, b, q), c, Possible, x, cs)) <==> GapMatch(p, middle, q, c, x)
  {
    if cs :| Chain(GapParts(a, p, middle, b, q), c, Possible, x, cs) {
      GapChain(a, p, middle, b, q, c, x, cs);
    }
    if GapMatch(p, middle, q, c, x) {
      GapChain(a, p, middle, b, q, c, x, [x.start, x.start + 1, x.end - 1, x.end]);
    }
  }

  // A distance keeps the hits with so many tokens between the two labels.
  lemma DistanceFound(a: string, p: TokenPattern, middle: Ast.Query, b: string, q: TokenPattern, op: CmpOp, k: nat,
      r: Result<seq<Hit>>, c: Corpus, x: Span)
    requires middle.Repetition? && middle.inner.Token? && a != b
    requires Finds(r, Constrained(Ast.Sequence(GapParts(a, p, middle, b, q)), [Distance(a, b, op, k)]), c)
    ensures r.Ok?
    ensures x in SpanSet(r.value) <==>
      && x.end <= c.tokenCount && GapMatch(p, middle, q, c, x)
      && (KeepsToDocuments(c, GapParts(a, p, middle, b, q)) ==> InsideOne(c.spans["document"], x))
      && (op == Lt ==> x.end < x.start + 2 + k) && (op == Le ==> x.end <= x.start + 2 + k)
      && (op == Gt ==> x.end > x.start + 2 + k) && (op == Ge ==> x.end >= x.start + 2 + k)
      && (op == Eq ==> x.end == x.start + 2 + k) && (op == Ne ==> x.end != x.start + 2 + k)
  {
    GapFound(a, p, middle, b, q, Distance(a, b, op, k), r, c);
    if GapMatch(p, middle, q, c, x) {
      DistanceReads(c, Hit(x, TwoLabels(a, b, x)), a, b, op, k, 0, 1);
    }
  }

  // An equation between attributes keeps the hits where both tokens have the same value, an
  // inequation those where they have two.
  lemma AttributesFound(a: string, p: TokenPattern, middle: Ast.Query, b: string, q: TokenPattern, l: string, m: string,
      same: bool, r: Result<seq<Hit>>, c: Corpus, x: Span)
    requires middle.Repetition? && middle.inner.Token? && a != b
    requires var g := if same then SameAttr(LabelAttr(a, l), LabelAttr(b, m))
                      else DifferentAttr(LabelAttr(a, l), LabelAttr(b, m));
      Finds(r, Constrained(Ast.Sequence(GapParts(a, p, middle, b, q)), [g]), c)
    ensures r.Ok?
    ensures x in SpanSet(r.value) <==>
      && x.end <= c.tokenCount && GapMatch(p, middle, q, c, x)
      && (KeepsToDocuments(c, GapParts(a, p, middle, b, q)) ==> InsideOne(c.spans["document"], x))
      && c.attribute(x.start, l).Some? && c.attribute(x.end - 1, m).Some?
      && (same <==> c.attribute(x.start, l) == c.attribute(x.end - 1, m))
  {
    var left, right := LabelAttr(a, l), LabelAttr(b, m);
    GapFound(a, p, middle, b, q, if same then SameAttr(left, right) else DifferentAttr(left, right), r, c);
    if GapMatch(p, middle, q, c, x) {
      AttrsRead(c, Hit(x, TwoLabels(a, b, x)), left, right, 0, 1);
    }
  }

  // ---------------------------------------------------------------------------------
  // Alternatives.

  // An alternation finds single tokens: those where a hit of some alternative begins.
  lemma AlternationFound(qs: seq<Ast.Query>, r: Result<seq<Hit>>, c: Corpus)
    requires Plannable(Or(qs)) && AllFixed(Or(qs)) && Finds(r, Or(qs), c)
    ensures r.Ok? <==> Denotation(Or(qs), c).Some?
    ensures r.Ok? ==> forall x :: x in SpanSet(r.value) <==>
      x.end == x.start + 1 && exists i :: 0 <= i < |qs| && BeginsAt(qs[i], c, Seeded, x.start)
  {
    if r.Ok? {
      AlternationReads(qs, c, Seeded);
    }
  }

  lemma AlternationReads(qs: seq<Ast.Query>, c: Corpus, side: Side)
    requires Denoted(Or(qs), c, side).Some?
    ensures forall x :: x in Denoted(Or(qs), c, side).value <==>
      x.end == x.start + 1 && exists i :: 0 <= i < |qs| && BeginsAt(qs[i], c, side, x.start)
  {
    var ds := DenotedEach(qs, c, side);
    AlternationDenotes(Or(qs), c, side);
    forall x: Span
      ensures x in AlternationOf(ds).value <==>
        x.end == x.start + 1 && exists i :: 0 <= i < |qs| && x.start in PositionsOf(ds[i])
    {
    }
    forall i, p: nat | 0 <= i < |qs|
      ensures p in PositionsOf(ds[i]) <==> BeginsAt(qs[i], c, side, p)
    {
    }
  }

  // ---------------------------------------------------------------------------------
  // Components and alignments.

  // Component number k is the first of this name.
  predicate FirstComponent(c: Corpus, name: string, k: nat) {
    && k < |c.components| && c.components[k].name == name
    && forall j :: 0 <= j < k ==> c.components[j].name != name
  }

  predicate FirstAlignment(c: Corpus, name: string, k: nat) {
    && k < |c.alignments| && c.alignments[k].name == name
    && forall j :: 0 <= j < k ==> c.alignments[j].name != name
  }

  // The span lies in a document that belongs to the component.
  ghost predicate InComponent(c: Corpus, x: Span, k: nat)
    requires "document" in c.spans && k < |c.components|
  {
    exists d: nat :: c.components[k].first <= d < c.components[k].last && d < |c.spans["document"]|
      && c.spans["document"][d].start <= x.start < c.spans["document"][d].end && x.end <= c.spans["document"][d].end
  }

  // Some name is the name of a component that the span lies in.
  ghost predicate InNamedComponent(c: Corpus, x: Span, names: seq<string>)
    requires "document" in c.spans
  {
    exists k: nat, name :: name in names && FirstComponent(c, name, k) && InComponent(c, x, k)
  }

  lemma FirstOf(cs: seq<Align.Component>, name: string, found: Align.Component) returns (k: nat)
    requires FindComponent(cs, name) == Some(found)
    ensures k < |cs| && cs[k] == found && found.name == name && forall j :: 0 <= j < k ==> cs[j].name != name
  {
    k := 0;
    while cs[k].name != name
      invariant k < |cs| && forall j :: 0 <= j < k ==> cs[j].name != name
      invariant exists i :: k <= i < |cs| && cs[i].name == name
      decreases |cs| - k
    {
      k := k + 1;
    }
    ComponentIs(cs, name, k);
  }

  lemma ComponentsRead(c: Corpus, x: Span, names: seq<string>)
    requires "document" in c.spans
    ensures InComponents(c, x, names) <==> InNamedComponent(c, x, names)
  {
    if InComponents(c, x, names) {
      var d: nat, name :| InsideDocument(c, x, d) && name in names && FindComponent(c.components, name).Some?
        && FindComponent(c.components, name).value.first <= d < FindComponent(c.components, name).value.last;
      var k := FirstOf(c.components, name, FindComponent(c.components, name).value);
      assert FirstComponent(c, name, k) && InComponent(c, x, k);
    }
    if InNamedComponent(c, x, names) {
      var k: nat, name :| name in names && FirstComponent(c, name, k) && InComponent(c, x, k);
      var docs := c.spans["document"];
      var d: nat :| c.components[k].first <= d < c.components[k].last && d < |docs|
        && docs[d].start <= x.start < docs[d].end && x.end <= docs[d].end;
      ComponentIs(c.components, name, k);
      assert InsideDocument(c, x, d);
    }
  }

  // A filter by components keeps what lies in the documents of the components with these names.
  lemma ComponentsFound(inner: Ast.Query, names: seq<string>, r: Result<seq<Hit>>, c: Corpus)
    requires "document" in c.spans && Plannable(inner) && AllFixed(inner)
    requires Finds(r, WithinComponent(inner, names), c)
    ensures r.Ok? <==> Denotation(inner, c).Some?
    ensures r.Ok? ==> Reported(inner, c).Some?
    ensures r.Ok? ==> forall x ::
      x in SpanSet(r.value) <==> x in Reported(inner, c).value && InNamedComponent(c, x, names)
  {
    forall x: Span
      ensures InComponents(c, x, names) <==> InNamedComponent(c, x, names)
    {
      ComponentsRead(c, x, names);
    }
  }

  // An edge leads from the sentence that holds the one span to the other.
  ghost predicate Leads(c: Corpus, m: AlignmentMeta, source: Align.Component, target: Align.Component, x: Span, y: Span)
    requires "document" in c.spans && m.sourceLayer in c.spans && m.targetLayer in c.spans && m.name in c.edges
  {
    exists u, t :: (u, t) in c.edges[m.name]
      && Align.Locates(x, c.spans["document"], c.spans[m.sourceLayer], source, u)
      && Align.Resolves(t, c.spans["document"], c.spans[m.targetLayer], target, y)
  }

  lemma AlignedLeads(c: Corpus, m: AlignmentMeta, source: Align.Component, target: Align.Component, g: Align.Setting,
      x: Span, y: Span)
    requires "document" in c.spans && m.sourceLayer in c.spans && m.targetLayer in c.spans && m.name in c.edges
    requires g == Align.Setting(c.spans["document"], c.spans[m.sourceLayer], c.spans[m.targetLayer], source, target,
                                c.edges[m.name])
    ensures Align.Aligned(g, x, y) <==> Leads(c, m, source, target, x, y)
  {
    if Align.Aligned(g, x, y) {
      var u, t :| Align.AlignedVia(g, x, y, u, t);
    }
    if Leads(c, m, source, target, x, y) {
      var u, t :| (u, t) in c.edges[m.name]
        && Align.Locates(x, c.spans["document"], c.spans[m.sourceLayer], source, u)
        && Align.Resolves(t, c.spans["document"], c.spans[m.targetLayer], target, y);
      assert Align.AlignedVia(g, x, y, u, t);
    }
  }

  // Alignment number i is the one of this name, with components j and k and all its layers.
  ghost predicate SetUp(c: Corpus, name: string, i: nat, j: nat, k: nat) {
    && FirstAlignment(c, name, i) && name in c.edges
    && FirstComponent(c, c.alignments[i].sourceComponent, j) && FirstComponent(c, c.alignments[i].targetComponent, k)
    && "document" in c.spans && c.alignments[i].sourceLayer in c.spans && c.alignments[i].targetLayer in c.spans
  }

  lemma SettingIs(c: Corpus, name: string, i: nat, j: nat, k: nat)
    requires SetUp(c, name, i, j, k)
    ensures Projection(c, name) == Some(c.alignments[i]) && HasProjectionLayers(c, c.alignments[i])
    ensures ProjectionSetting(c, name) ==
      Align.Setting(c.spans["document"], c.spans[c.alignments[i].sourceLayer], c.spans[c.alignments[i].targetLayer],
                    c.components[j], c.components[k], c.edges[name])
  {
    AlignmentIs(c.alignments, name, i);
    ComponentIs(c.components, c.alignments[i].sourceComponent, j);
    ComponentIs(c.components, c.alignments[i].targetComponent, k);
  }

  // What is projected to, from some of these spans.
  ghost predicate LedTo(c: Corpus, i: nat, j: nat, k: nat, xs: set<Span>, y: Span)
    requires i < |c.alignments| && SetUp(c, c.alignments[i].name, i, j, k)
  {
    exists x :: x in xs && Leads(c, c.alignments[i], c.components[j], c.components[k], x, y)
  }

  lemma ProjectReads(inner: Ast.Query, name: string, i: nat, j: nat, k: nat, c: Corpus, side: Side)
    requires SetUp(c, name, i, j, k)
    ensures var d := Denoted(Ast.Project(inner, name), c, side);
      && (d.Some? <==> Denoted(inner, c, side).Some?)
      && (d.Some? ==> forall y :: y in d.value <==> LedTo(c, i, j, k, Denoted(inner, c, side).value, y))
  {
    SettingIs(c, name, i, j, k);
    if Denoted(inner, c, side).Some? {
      ImageReads(c, name, i, j, k, Denoted(inner, c, side).value);
    }
  }

  lemma ImageReads(c: Corpus, name: string, i: nat, j: nat, k: nat, xs: set<Span>)
    requires SetUp(c, name, i, j, k) && Projection(c, name) == Some(c.alignments[i])
    requires HasProjectionLayers(c, c.alignments[i])
    ensures forall y :: y in ProjectionImage(ProjectionSetting(c, name), xs) <==> LedTo(c, i, j, k, xs, y)
  {
    var g := ProjectionSetting(c, name);
    SettingIs(c, name, i, j, k);
    forall x, y
      ensures Align.Aligned(g, x, y) <==> Leads(c, c.alignments[i], c.components[j], c.components[k], x, y)
    {
      AlignedLeads(c, c.alignments[i], c.components[j], c.components[k], g, x, y);
    }
  }

  // A projection gives the sentences of the target component that the alignment's edges lead to from
  // the sentences of the source component that hold a hit.
  lemma ProjectFound(inner: Ast.Query, name: string, i: nat, j: nat, k: nat, r: Result<seq<Hit>>, c: Corpus)
    requires SetUp(c, name, i, j, k) && Plannable(inner) && AllFixed(inner)
    requires Finds(r, Ast.Project(inner, name), c)
    ensures r.Ok? <==> Denotation(inner, c).Some?
    ensures r.Ok? ==> Reported(inner, c).Some?
    ensures r.Ok? ==> forall y :: y in SpanSet(r.value) <==> LedTo(c, i, j, k, Reported(inner, c).value, y)
  {
    ProjectReads(inner, name, i, j, k, c, Possible);
    ProjectReads(inner, name, i, j, k, c, Seeded);
  }
}
