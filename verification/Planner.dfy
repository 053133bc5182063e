// crates/montre-query/src/planner.rs: translation of the parsed query into a plan, proved
// against the denotation of the query.
module Planner {
  import opened Core
  import opened Runs
  import opened Sequence
  import opened Ast
  import opened Plan
  import opened Outcomes
  import opened Execute
  import opened QueryMeaning
  import opened Implements

  // ---------------------------------------------------------------------------------
  // plan_token

  function ScanFor(k: Constraint): PlanNode {
    match k.value
    case Literal(v) => ScanLiteral(k.layer, v)
    case Regex(r) => ScanRegex(k.layer, r)
  }

  // The node selects one-token spans at exactly these positions.
  ghost predicate Selects(node: PlanNode, c: Corpus, ps: set<nat>) {
    Meaning(node, c) == Some(Singletons(ps))
  }

  lemma ScanSelects(k: Constraint, c: Corpus)
    ensures !Compiles(k, c) ==> Meaning(ScanFor(k), c).None?
    ensures Compiles(k, c) ==> Selects(ScanFor(k), c, ValuePositions(k, c))
  {
  }

  lemma ValuesInCorpus(k: Constraint, c: Corpus)
    requires ValidCorpus(c) && Compiles(k, c)
    ensures ValuePositions(k, c) <= RangeSet(0, c.tokenCount)
  {
  }

  // sets[i] are the positions that node i selects.
  ghost predicate SelectEach(nodes: seq<PlanNode>, c: Corpus, sets: seq<set<nat>>) {
    |sets| == |nodes| && forall i :: 0 <= i < |nodes| ==> Selects(nodes[i], c, sets[i])
  }

  ghost predicate InEvery(sets: seq<set<nat>>, p: nat) {
    forall i :: 0 <= i < |sets| ==> p in sets[i]
  }

  ghost predicate InSome(sets: seq<set<nat>>, p: nat) {
    exists i :: 0 <= i < |sets| && p in sets[i]
  }

  lemma EachStarts(nodes: seq<PlanNode>, c: Corpus, sets: seq<set<nat>>, i: nat)
    requires SelectEach(nodes, c, sets) && i < |nodes|
    ensures Meaning(nodes[i], c).Some? && Starts(Meaning(nodes[i], c).value) == sets[i]
  {
    StartsOfSingletons(sets[i]);
  }

  lemma IntersectSelects(nodes: seq<PlanNode>, c: Corpus, sets: seq<set<nat>>, ps: set<nat>)
    requires nodes != [] && SelectEach(nodes, c, sets)
    requires forall p: nat :: p in ps <==> InEvery(sets, p)
    ensures Selects(Intersect(nodes), c, ps)
  {
    forall i | 0 <= i < |nodes|
      ensures Meaning(nodes[i], c).Some? && Starts(Meaning(nodes[i], c).value) == sets[i]
    {
      EachStarts(nodes, c, sets, i);
    }
    var got := set p | p in Starts(Meaning(nodes[0], c).value)
      && forall i :: 0 <= i < |nodes| ==> p in Starts(Meaning(nodes[i], c).value);
    assert Meaning(Intersect(nodes), c) == Some(Singletons(got));
    assert forall p: nat :: p in got <==> InEvery(sets, p);
    assert got == ps;
  }

  lemma UnionSelects(nodes: seq<PlanNode>, c: Corpus, sets: seq<set<nat>>, ps: set<nat>)
    requires SelectEach(nodes, c, sets)
    requires forall p: nat :: p in ps <==> InSome(sets, p)
    ensures Selects(Union(nodes), c, ps)
  {
    forall i | 0 <= i < |nodes|
      ensures Meaning(nodes[i], c).Some? && Starts(Meaning(nodes[i], c).value) == sets[i]
    {
      EachStarts(nodes, c, sets, i);
    }
    var got := set i, p | 0 <= i < |nodes| && p in Starts(Meaning(nodes[i], c).value) :: p;
    assert Meaning(Union(nodes), c) == Some(Singletons(got));
    assert forall p: nat :: p in got <==> InSome(sets, p);
    assert got == ps;
  }

  lemma GroupFails(nodes: seq<PlanNode>, c: Corpus)
    requires AnyFails(nodes, c)
    ensures Meaning(Intersect(nodes), c).None? && Meaning(Union(nodes), c).None?
  {
  }

  lemma DifferenceSelects(base: PlanNode, subtract: PlanNode, c: Corpus, ps: set<nat>, qs: set<nat>)
    requires Selects(base, c, ps) && Selects(subtract, c, qs)
    ensures Selects(Difference(base, subtract), c, ps - qs)
  {
    StartsOfSingletons(qs);
    var got := set s | s in Singletons(ps) && s.start !in Starts(Singletons(qs));
    assert Meaning(Difference(base, subtract), c) == Some(got);
    assert got == Singletons(ps - qs);
  }

  lemma DifferenceFails(base: PlanNode, subtract: PlanNode, c: Corpus)
    requires Meaning(base, c).None? || Meaning(subtract, c).None?
    ensures Meaning(Difference(base, subtract), c).None?
  {
  }

  // The nodes of all constraints with a given operator, in order.
  function ScansOf(ks: seq<Constraint>, op: ConstraintOp): (r: seq<PlanNode>)
    ensures forall n :: n in r ==> exists k :: k in ks && k.op == op && n == ScanFor(k)
    ensures forall k :: k in ks && k.op == op ==> ScanFor(k) in r
  {
    if ks == [] then []
    else
      var n := |ks| - 1;
      assert ks == ks[..n] + [ks[n]];
      ScansOf(ks[..n], op) + if ks[n].op == op then [ScanFor(ks[n])] else []
  }

  // What one scan of the list comes from.
  lemma ScanOrigin(ks: seq<Constraint>, op: ConstraintOp, i: nat) returns (k: Constraint)
    requires i < |ScansOf(ks, op)|
    ensures k in ks && k.op == op && ScansOf(ks, op)[i] == ScanFor(k)
  {
    assert ScansOf(ks, op)[i] in ScansOf(ks, op);
    k :| k in ks && k.op == op && ScansOf(ks, op)[i] == ScanFor(k);
  }

  lemma ScanIndex(ks: seq<Constraint>, op: ConstraintOp, k: Constraint) returns (i: nat)
    requires k in ks && k.op == op
    ensures i < |ScansOf(ks, op)| && ScansOf(ks, op)[i] == ScanFor(k)
  {
    assert ScanFor(k) in ScansOf(ks, op);
    i :| 0 <= i < |ScansOf(ks, op)| && ScansOf(ks, op)[i] == ScanFor(k);
  }

  ghost predicate AllCompile(ks: seq<Constraint>, c: Corpus) {
    forall k :: k in ks ==> Compiles(k, c)
  }

  ghost function MeetsAll(ks: seq<Constraint>, c: Corpus): set<nat>
    requires AllCompile(ks, c)
  {
    set i | i in RangeSet(0, c.tokenCount) && forall k :: k in ks && k.op == IsEq ==> i in ValuePositions(k, c)
  }

  ghost function MeetsSome(ks: seq<Constraint>, c: Corpus): set<nat>
    requires AllCompile(ks, c)
  {
    set i | i in RangeSet(0, c.tokenCount) && exists k :: k in ks && k.op == IsNe && i in ValuePositions(k, c)
  }

  ghost predicate Bad(ks: seq<Constraint>, op: ConstraintOp, c: Corpus) {
    exists k :: k in ks && k.op == op && !Compiles(k, c)
  }

  ghost predicate PositiveOf(positive: PlanNode, positives: seq<PlanNode>) {
    positive == if positives == [] then ScanAll else if |positives| == 1 then positives[0] else Intersect(positives)
  }

  ghost predicate NegativeOf(negative: PlanNode, negatives: seq<PlanNode>) {
    negatives != [] && negative == if |negatives| == 1 then negatives[0] else Union(negatives)
  }

  lemma ScanFails(ks: seq<Constraint>, op: ConstraintOp, c: Corpus) returns (i: nat)
    requires Bad(ks, op, c)
    ensures i < |ScansOf(ks, op)| && Meaning(ScansOf(ks, op)[i], c).None?
  {
    var k :| k in ks && k.op == op && !Compiles(k, c);
    ScanSelects(k, c);
    i := ScanIndex(ks, op, k);
  }

  lemma SideFails(ks: seq<Constraint>, op: ConstraintOp, node: PlanNode, c: Corpus)
    requires Bad(ks, op, c)
    requires (op == IsEq && PositiveOf(node, ScansOf(ks, op))) || (op == IsNe && NegativeOf(node, ScansOf(ks, op)))
    ensures Meaning(node, c).None?
  {
    var ns := ScansOf(ks, op);
    var i := ScanFails(ks, op, c);
    if |ns| > 1 {
      GroupFails(ns, c);
    } else {
      assert node == ns[0] && i == 0;
    }
  }

  // The position sets of the scans, in the order of the scans.
  ghost function ValueSets(ks: seq<Constraint>, op: ConstraintOp, c: Corpus): (r: seq<set<nat>>)
    requires AllCompile(ks, c)
    ensures |r| == |ScansOf(ks, op)|
  {
    if ks == [] then []
    else
      var n := |ks| - 1;
      ValueSets(ks[..n], op, c) + if ks[n].op == op then [ValuePositions(ks[n], c)] else []
  }

  lemma ScansSelect(ks: seq<Constraint>, op: ConstraintOp, c: Corpus)
    requires AllCompile(ks, c)
    ensures SelectEach(ScansOf(ks, op), c, ValueSets(ks, op, c))
  {
    if ks != [] {
      var n := |ks| - 1;
      ScansSelect(ks[..n], op, c);
      ScanSelects(ks[n], c);
    }
  }

  ghost predicate MeetsEvery(ks: seq<Constraint>, op: ConstraintOp, c: Corpus, p: nat)
    requires AllCompile(ks, c)
  {
    forall k :: k in ks && k.op == op ==> p in ValuePositions(k, c)
  }

  ghost predicate MeetsAny(ks: seq<Constraint>, op: ConstraintOp, c: Corpus, p: nat)
    requires AllCompile(ks, c)
  {
    exists k :: k in ks && k.op == op && p in ValuePositions(k, c)
  }

  lemma MeetsLast(ks: seq<Constraint>, op: ConstraintOp, c: Corpus, p: nat)
    requires ks != [] && AllCompile(ks, c)
    ensures var n := |ks| - 1;
      && (MeetsEvery(ks, op, c, p) <==>
        MeetsEvery(ks[..n], op, c, p) && (ks[n].op == op ==> p in ValuePositions(ks[n], c)))
      && (MeetsAny(ks, op, c, p) <==> MeetsAny(ks[..n], op, c, p) || (ks[n].op == op && p in ValuePositions(ks[n], c)))
  {
    var n := |ks| - 1;
    assert forall k :: k in ks <==> k in ks[..n] || k == ks[n] by {
      assert ks == ks[..n] + [ks[n]];
    }
  }

  lemma {:induction false} InEveryValueSet(ks: seq<Constraint>, op: ConstraintOp, c: Corpus, p: nat)
    requires AllCompile(ks, c)
    ensures InEvery(ValueSets(ks, op, c), p) <==> MeetsEvery(ks, op, c, p)
    ensures InSome(ValueSets(ks, op, c), p) <==> MeetsAny(ks, op, c, p)
  {
    if ks != [] {
      var n := |ks| - 1;
      InEveryValueSet(ks[..n], op, c, p);
      MeetsLast(ks, op, c, p);
      if ks[n].op == op {
        InEveryAppend(ValueSets(ks[..n], op, c), ValuePositions(ks[n], c), p);
      } else {
        assert ValueSets(ks, op, c) == ValueSets(ks[..n], op, c);
      }
    }
  }

  lemma InEveryAppend(sets: seq<set<nat>>, last: set<nat>, p: nat)
    ensures InEvery(sets + [last], p) <==> InEvery(sets, p) && p in last
    ensures InSome(sets + [last], p) <==> InSome(sets, p) || p in last
  {
    var all := sets + [last];
    assert forall i :: 0 <= i < |sets| ==> all[i] == sets[i];
    assert all[|sets|] == last;
  }

  lemma FirstValueSet(ks: seq<Constraint>, op: ConstraintOp, c: Corpus)
    requires ValidCorpus(c) && AllCompile(ks, c) && ScansOf(ks, op) != []
    ensures exists k :: k in ks && k.op == op && ValuePositions(k, c) <= RangeSet(0, c.tokenCount)
  {
    var k := ScanOrigin(ks, op, 0);
    ValuesInCorpus(k, c);
  }

  lemma MeetsAllIs(ks: seq<Constraint>, c: Corpus)
    requires ValidCorpus(c) && AllCompile(ks, c) && ScansOf(ks, IsEq) != []
    ensures forall p: nat :: p in MeetsAll(ks, c) <==> InEvery(ValueSets(ks, IsEq, c), p)
  {
    FirstValueSet(ks, IsEq, c);
    forall p: nat
      ensures p in MeetsAll(ks, c) <==> InEvery(ValueSets(ks, IsEq, c), p)
    {
      InEveryValueSet(ks, IsEq, c, p);
    }
  }

  lemma MeetsSomeIs(ks: seq<Constraint>, c: Corpus)
    requires ValidCorpus(c) && AllCompile(ks, c)
    ensures forall p: nat :: p in MeetsSome(ks, c) <==> InSome(ValueSets(ks, IsNe, c), p)
  {
    forall k | k in ks
      ensures ValuePositions(k, c) <= RangeSet(0, c.tokenCount)
    {
      ValuesInCorpus(k, c);
    }
    forall p: nat
      ensures p in MeetsSome(ks, c) <==> InSome(ValueSets(ks, IsNe, c), p)
    {
      InEveryValueSet(ks, IsNe, c, p);
    }
  }

  // One node, or several put together.
  lemma OneSelects(nodes: seq<PlanNode>, c: Corpus, sets: seq<set<nat>>, ps: set<nat>)
    requires |nodes| == 1 && SelectEach(nodes, c, sets)
    requires forall p: nat :: p in ps <==> InEvery(sets, p)
    ensures Selects(nodes[0], c, ps)
  {
    OneSet(sets);
    assert ps == sets[0];
  }

  lemma OneSet(sets: seq<set<nat>>)
    requires |sets| == 1
    ensures forall p: nat :: InEvery(sets, p) <==> p in sets[0]
  {
  }

  lemma PositiveSelects(ks: seq<Constraint>, positive: PlanNode, c: Corpus)
    requires ValidCorpus(c) && AllCompile(ks, c) && PositiveOf(positive, ScansOf(ks, IsEq))
    ensures Selects(positive, c, MeetsAll(ks, c))
  {
    var ns := ScansOf(ks, IsEq);
    if ns == [] {
      NoPositives(ks, c);
    } else {
      ScansSelect(ks, IsEq, c);
      MeetsAllIs(ks, c);
      if |ns| == 1 {
        OneSelects(ns, c, ValueSets(ks, IsEq, c), MeetsAll(ks, c));
      } else {
        IntersectSelects(ns, c, ValueSets(ks, IsEq, c), MeetsAll(ks, c));
      }
    }
  }

  lemma NoPositives(ks: seq<Constraint>, c: Corpus)
    requires AllCompile(ks, c) && ScansOf(ks, IsEq) == []
    ensures MeetsAll(ks, c) == RangeSet(0, c.tokenCount)
  {
    assert forall k :: k in ks && k.op == IsEq ==> ScanFor(k) in ScansOf(ks, IsEq);
  }

  lemma NegativeSelects(ks: seq<Constraint>, negative: PlanNode, c: Corpus)
    requires ValidCorpus(c) && AllCompile(ks, c) && NegativeOf(negative, ScansOf(ks, IsNe))
    ensures Selects(negative, c, MeetsSome(ks, c))
  {
    var ns := ScansOf(ks, IsNe);
    ScansSelect(ks, IsNe, c);
    MeetsSomeIs(ks, c);
    if |ns| == 1 {
      OneSelects(ns, c, ValueSets(ks, IsNe, c), MeetsSome(ks, c));
    } else {
      UnionSelects(ns, c, ValueSets(ks, IsNe, c), MeetsSome(ks, c));
    }
  }

  // What plan_token promises about its node.
  ghost predicate TokenPlan(node: PlanNode, p: TokenPattern) {
    && Pure(node) && Unlabelled(node)
    && (forall c :: ValidCorpus(c) ==> Meaning(node, c) == TokenDenotation(p, c))
    && (node.ScanAll? || (node.Difference? && node.base.ScanAll?) <==> OnlyNegative(p))
  }

  lemma MatchAllPlan(p: TokenPattern)
    requires p.constraints == []
    ensures TokenPlan(ScanAll, p)
  {
    forall c | ValidCorpus(c)
      ensures Meaning(ScanAll, c) == TokenDenotation(p, c)
    {
      assert (set i | i in RangeSet(0, c.tokenCount) && TokenMatches(p, c, i)) == RangeSet(0, c.tokenCount);
    }
  }

  lemma TokenPlanKind(positives: seq<PlanNode>, negatives: seq<PlanNode>, positive: PlanNode, node: PlanNode)
    requires forall i :: 0 <= i < |positives| ==> positives[i].ScanLiteral? || positives[i].ScanRegex?
    requires forall i :: 0 <= i < |negatives| ==> negatives[i].ScanLiteral? || negatives[i].ScanRegex?
    requires PositiveOf(positive, positives)
    requires if negatives == [] then node == positive
      else node.Difference? && node.base == positive && NegativeOf(node.subtract, negatives)
    ensures Pure(node) && Unlabelled(node)
    ensures node.ScanAll? || (node.Difference? && node.base.ScanAll?) <==> positives == []
  {
    assert Pure(positive);
    if negatives != [] {
      assert Pure(node.subtract);
      assert node == Difference(positive, node.subtract);
    }
  }

  lemma TokenPlanEverywhere(p: TokenPattern, negatives: seq<PlanNode>, positive: PlanNode, node: PlanNode)
    requires negatives == ScansOf(p.constraints, IsNe) && PositiveOf(positive, ScansOf(p.constraints, IsEq))
    requires if negatives == [] then node == positive
      else node.Difference? && node.base == positive && NegativeOf(node.subtract, negatives)
    ensures forall c :: ValidCorpus(c) ==> Meaning(node, c) == TokenDenotation(p, c)
  {
    forall c | ValidCorpus(c)
      ensures Meaning(node, c) == TokenDenotation(p, c)
    {
      TokenPlanDenotes(p, negatives, positive, node, c);
    }
  }

  lemma TokenPlanMeaning(p: TokenPattern, positives: seq<PlanNode>, negatives: seq<PlanNode>,
                         positive: PlanNode, node: PlanNode)
    requires p.constraints != []
    requires positives == ScansOf(p.constraints, IsEq) && negatives == ScansOf(p.constraints, IsNe)
    requires PositiveOf(positive, positives)
    requires if negatives == [] then node == positive
      else node.Difference? && node.base == positive && NegativeOf(node.subtract, negatives)
    ensures TokenPlan(node, p)
  {
    TokenPlanShape(p.constraints, positives, negatives);
    TokenPlanKind(positives, negatives, positive, node);
    TokenPlanEverywhere(p, negatives, positive, node);
  }

  lemma TokenPlanShape(ks: seq<Constraint>, positives: seq<PlanNode>, negatives: seq<PlanNode>)
    requires positives == ScansOf(ks, IsEq) && negatives == ScansOf(ks, IsNe) && ks != []
    ensures forall n :: n in positives || n in negatives ==> n.ScanLiteral? || n.ScanRegex?
    ensures positives == [] <==> forall k :: k in ks ==> k.op.IsNe?
    ensures positives == [] ==> negatives != []
    ensures forall i :: 0 <= i < |positives| ==> positives[i] in positives
    ensures forall i :: 0 <= i < |negatives| ==> negatives[i] in negatives
  {
    if positives == [] {
      assert forall k :: k in ks && k.op == IsEq ==> ScanFor(k) in positives;
      assert ks[0] in ks && ScanFor(ks[0]) in negatives;
    } else {
      assert positives[0] in positives;
    }
  }

  lemma OnlyPositive(p: TokenPattern, c: Corpus)
    requires AllCompile(p.constraints, c) && forall k :: k in p.constraints ==> k.op.IsEq?
    ensures TokenDenotation(p, c) == Some(Singletons(MeetsAll(p.constraints, c)))
  {
    assert (set i | i in RangeSet(0, c.tokenCount) && TokenMatches(p, c, i)) == MeetsAll(p.constraints, c);
  }

  lemma BothSides(p: TokenPattern, c: Corpus)
    requires AllCompile(p.constraints, c)
    ensures TokenDenotation(p, c) == Some(Singletons(MeetsAll(p.constraints, c) - MeetsSome(p.constraints, c)))
  {
    assert (set i | i in RangeSet(0, c.tokenCount) && TokenMatches(p, c, i)) ==
      MeetsAll(p.constraints, c) - MeetsSome(p.constraints, c);
  }

  lemma CompiledDenotes(p: TokenPattern, negatives: seq<PlanNode>, positive: PlanNode, node: PlanNode, c: Corpus)
    requires ValidCorpus(c) && AllCompile(p.constraints, c)
    requires negatives == ScansOf(p.constraints, IsNe) && PositiveOf(positive, ScansOf(p.constraints, IsEq))
    requires if negatives == [] then node == positive
      else node.Difference? && node.base == positive && NegativeOf(node.subtract, negatives)
    ensures Meaning(node, c) == TokenDenotation(p, c)
  {
    var ks := p.constraints;
    PositiveSelects(ks, positive, c);
    if negatives == [] {
      assert forall k :: k in ks && k.op == IsNe ==> ScanFor(k) in negatives;
      OnlyPositive(p, c);
    } else {
      NegativeSelects(ks, node.subtract, c);
      DifferenceSelects(positive, node.subtract, c, MeetsAll(ks, c), MeetsSome(ks, c));
      assert node == Difference(positive, node.subtract);
      BothSides(p, c);
    }
  }

  lemma TokenPlanDenotes(p: TokenPattern, negatives: seq<PlanNode>, positive: PlanNode, node: PlanNode, c: Corpus)
    requires ValidCorpus(c)
    requires negatives == ScansOf(p.constraints, IsNe) && PositiveOf(positive, ScansOf(p.constraints, IsEq))
    requires if negatives == [] then node == positive
      else node.Difference? && node.base == positive && NegativeOf(node.subtract, negatives)
    ensures Meaning(node, c) == TokenDenotation(p, c)
  {
    var ks := p.constraints;
    assert forall k :: k in ks && k.op == IsNe ==> ScanFor(k) in negatives;
    if AllCompile(ks, c) {
      CompiledDenotes(p, negatives, positive, node, c);
    } else {
      var k :| k in ks && !Compiles(k, c);
      if k.op == IsEq {
        SideFails(ks, IsEq, positive, c);
      } else {
        SideFails(ks, IsNe, node.subtract, c);
      }
      if negatives != [] {
        DifferenceFails(positive, node.subtract, c);
        assert node == Difference(positive, node.subtract);
      }
    }
  }

  lemma ScansNext(ks: seq<Constraint>, i: nat, op: ConstraintOp)
    requires i < |ks|
    ensures ScansOf(ks[..i + 1], op) == ScansOf(ks[..i], op) + if ks[i].op == op then [ScanFor(ks[i])] else []
  {
    assert ks[..i + 1][..i] == ks[..i];
  }

  method PlanToken(p: TokenPattern) returns (node: PlanNode)
    ensures TokenPlan(node, p)
  {
    if p.constraints == [] {
      MatchAllPlan(p);
      return ScanAll;
    }
    var positives, negatives := [], [];
    for i := 0 to |p.constraints|
      invariant positives == ScansOf(p.constraints[..i], IsEq)
      invariant negatives == ScansOf(p.constraints[..i], IsNe)
    {
      ScansNext(p.constraints, i, IsEq);
      ScansNext(p.constraints, i, IsNe);
      var scan := ScanFor(p.constraints[i]);
      match p.constraints[i].op {
        case IsEq => positives := positives + [scan];
        case IsNe => negatives := negatives + [scan];
      }
    }
    assert p.constraints[..|p.constraints|] == p.constraints;
    var positive := if positives == [] then ScanAll else if |positives| == 1 then positives[0]
      else Intersect(positives);
    if negatives == [] {
      node := positive;
    } else {
      var negative := if |negatives| == 1 then negatives[0] else Union(negatives);
      node := Difference(positive, negative);
    }
    TokenPlanMeaning(p, positives, negatives, positive, node);
  }

  // ---------------------------------------------------------------------------------
  // plan_node

  function DeclaredLabels(q: Query): set<string>
    decreases q
  {
    match q
    case Capture(name, inner) => {name} + DeclaredLabels(inner)
    case Sequence(parts) => DeclaredInAll(parts)
    case Or(alternatives) => DeclaredInAll(alternatives)
    case Token(_) => {}
    case _ => DeclaredLabels(q.inner)
  }

  function DeclaredInAll(qs: seq<Query>): set<string>
    decreases qs
  {
    if qs == [] then {} else DeclaredLabels(qs[0]) + DeclaredInAll(qs[1..])
  }

  method CollectDeclaredLabels(q: Query, out: set<string>) returns (r: set<string>)
    ensures r == out + DeclaredLabels(q)
    decreases q, 0
  {
    match q {
      case Token(_) => r := out;
      case Sequence(parts) => r := CollectFromAll(q, parts, out);
      case Or(alternatives) => r := CollectFromAll(q, alternatives, out);
      case Capture(name, inner) => r := CollectDeclaredLabels(inner, out + {name});
      case _ => r := CollectDeclaredLabels(q.inner, out);
    }
  }

  // for part in parts { collect_declared_labels(part, out) }
  method CollectFromAll(ghost q: Query, parts: seq<Query>, out: set<string>) returns (r: set<string>)
    requires forall i :: 0 <= i < |parts| ==> parts[i] < q
    ensures r == out + DeclaredInAll(parts)
    decreases q, 0, |parts|
  {
    r := out;
    for i := 0 to |parts|
      invariant r + DeclaredInAll(parts[i..]) == out + DeclaredInAll(parts)
    {
      assert parts[i..][1..] == parts[i + 1..];
      r := CollectDeclaredLabels(parts[i], r);
    }
  }

  function LabelsIn(g: GlobalConstraint): set<string> {
    match g
    case SameAttr(l, r) => {l.name, r.name}
    case DifferentAttr(l, r) => {l.name, r.name}
    case Distance(from, to, _, _) => {from, to}
  }

  method ReferencedLabels(gs: seq<GlobalConstraint>) returns (r: set<string>)
    ensures forall x :: x in r <==> exists g :: g in gs && x in LabelsIn(g)
  {
    r := {};
    for i := 0 to |gs|
      invariant forall x :: x in r <==> exists g :: g in gs[..i] && x in LabelsIn(g)
    {
      assert gs[..i + 1] == gs[..i] + [gs[i]];
      r := r + LabelsIn(gs[i]);
      assert gs[i] in gs[..i + 1];
    }
    assert gs[..|gs|] == gs;
  }

  // Every constraint refers only to labels declared below it.
  ghost predicate Plannable(q: Query)
    decreases q
  {
    match q
    case Token(_) => true
    case Sequence(parts) => forall i :: 0 <= i < |parts| ==> Plannable(PartOf(parts[i]).inner)
    case Or(alternatives) => forall i :: 0 <= i < |alternatives| ==> Plannable(alternatives[i])
    case Repetition(_, _, _) => Plannable(PartOf(q).inner)
    case Capture(_, inner) => Plannable(inner)
    case Within(inner, _) => Plannable(inner)
    case WithinComponent(inner, _) => Plannable(inner)
    case WithinDocument(inner, _) => Plannable(inner)
    case Project(inner, _) => Plannable(inner)
    case Constrained(inner, gs) =>
      (forall g, x :: g in gs && x in LabelsIn(g) ==> x in DeclaredLabels(inner)) && Plannable(inner)
  }

  // What planning promises: it fails exactly on undeclared labels, and its result implements the
  // query, constraints at any place included.
  ghost predicate Planned(r: Result<PlanNode>, q: Query) {
    (r.Ok? <==> Plannable(q)) && (r.Ok? ==> PlanFor(r.value, q))
  }

  lemma TokenImplements(node: PlanNode, q: Query)
    requires q.Token? && TokenPlan(node, q.pattern)
    ensures PlanFor(node, q)
  {
    forall c | ValidCorpus(c)
      ensures Faithful(node, q, c)
    {
      TokenFaithful(node, q, c);
    }
  }

  method PlanQuery(q: Query) returns (r: Result<PlanNode>)
    ensures Planned(r, q)
    decreases q, 2
  {
    match q {
      case Token(pattern) =>
        var node := PlanToken(pattern);
        TokenImplements(node, q);
        r := Ok(node);
      case Sequence(parts) =>
        var steps := PlanSteps(q, parts);
        if steps.Err? {
          return Err;
        }
        SequenceImplements(steps.value, q);
        r := Ok(SequenceScan(steps.value));
      case Repetition(inner, min, max) =>
        r := PlanSingle(q);
      case Capture(name, inner) =>
        r := PlanSingle(q);
      case Or(alternatives) =>
        r := PlanAlternation(q);
      case Within(inner, layer) =>
        var plan := PlanQuery(inner);
        if plan.Err? {
          return Err;
        }
        r := Ok(FilterBySpan(plan.value, layer));
        WrapImplements(plan.value, r.value, q);
      case WithinComponent(inner, names) =>
        var plan := PlanQuery(inner);
        if plan.Err? {
          return Err;
        }
        r := Ok(FilterByComponent(plan.value, names));
        WrapImplements(plan.value, r.value, q);
      case WithinDocument(inner, names) =>
        var plan := PlanQuery(inner);
        if plan.Err? {
          return Err;
        }
        r := Ok(FilterByDocument(plan.value, names));
        WrapImplements(plan.value, r.value, q);
      case Project(inner, alignment) =>
        var plan := PlanQuery(inner);
        if plan.Err? {
          return Err;
        }
        r := Ok(ProjectAlignment(plan.value, alignment));
        WrapImplements(plan.value, r.value, q);
      case Constrained(inner, constraints) =>
        r := PlanConstrained(q);
    }
  }

  method PlanConstrained(q: Query) returns (r: Result<PlanNode>)
    requires q.Constrained?
    ensures Planned(r, q)
    decreases q, 1
  {
    var declared := CollectDeclaredLabels(q.inner, {});
    var referenced := ReferencedLabels(q.constraints);
    if !(referenced <= declared) {
      var x :| x in referenced && x !in declared;
      assert !Plannable(q);
      return Err;
    }
    var plan := PlanQuery(q.inner);
    if plan.Err? {
      return Err;
    }
    ConstraintImplements(plan.value, q);
    r := Ok(GlobalConstraintFilter(plan.value, q.constraints));
  }

  // The step for one part, with the label pulled out of a capture.
  method PlanPart(ghost q: Query, part: Query) returns (r: Result<SequenceStep>)
    requires PartOf(part).inner < q
    ensures r.Ok? <==> Plannable(PartOf(part).inner)
    ensures r.Ok? ==> StepFor(r.value, part)
    decreases q, 0
  {
    var p := PartOf(part);
    var plan := PlanQuery(p.inner);
    if plan.Err? {
      return Err;
    }
    r := Ok(SequenceStep(plan.value, p.min, p.max, p.capture));
  }

  method PlanSingle(q: Query) returns (r: Result<PlanNode>)
    requires q.Repetition? || q.Capture?
    ensures Planned(r, q)
    decreases q, 1
  {
    var step := PlanPart(q, q);
    if step.Err? {
      return Err;
    }
    var steps := [step.value];
    assert StepsFor(steps, PartsOf(q));
    SequenceImplements(steps, q);
    r := Ok(SequenceScan(steps));
  }

  method PlanSteps(ghost q: Query, parts: seq<Query>) returns (r: Result<seq<SequenceStep>>)
    requires q == Sequence(parts)
    ensures r.Ok? <==> Plannable(q)
    ensures r.Ok? ==> StepsFor(r.value, parts)
    decreases q, 1
  {
    var steps := [];
    for i := 0 to |parts|
      invariant StepsFor(steps, parts[..i])
      invariant forall j :: 0 <= j < i ==> Plannable(PartOf(parts[j]).inner)
    {
      assert parts[i] < q;
      assert PartOf(parts[i]).inner < q;
      var step := PlanPart(q, parts[i]);
      if step.Err? {
        return Err;
      }
      steps := steps + [step.value];
    }
    assert parts[..|parts|] == parts;
    r := Ok(steps);
  }

  method PlanAlternation(q: Query) returns (r: Result<PlanNode>)
    requires q.Or?
    ensures Planned(r, q)
    decreases q, 1
  {
    var nodes := [];
    for i := 0 to |q.alternatives|
      invariant |nodes| == i
      invariant forall j :: 0 <= j < i ==> Plannable(q.alternatives[j])
      invariant forall j :: 0 <= j < i ==> Realizes(nodes[j], q.alternatives[j])
    {
      var node := PlanQuery(q.alternatives[i]);
      if node.Err? {
        return Err;
      }
      nodes := nodes + [node.value];
    }
    AlternationImplements(nodes, q);
    r := Ok(Union(nodes));
  }
}
