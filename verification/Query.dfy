// crates/montre-daemon/src/handlers/query.rs, crates/montre-query/src/lib.rs: planning a query and
// executing or counting its plan, end to end.
module Query {
  import opened Core
  import opened Ast
  import opened Plan
  import opened Hits
  import opened Outcomes
  import opened Execute
  import opened Count
  import opened QueryMeaning
  import opened Implements
  import opened Planner

  // An error exactly where the query cannot be planned or denotes one; hits sorted and each span
  // once, with captures of the query's cuts. Nothing outside the denotation; where the engine
  // misses nothing, all that is sure to be found. Where the quantifiers fix what the constraints
  // read, exactly what is reported, and where the engine also misses nothing, the denotation.
  ghost predicate Finds(r: Result<seq<Hit>>, q: Ast.Query, c: Corpus) {
    && (r.Ok? <==> Plannable(q) && Denotation(q, c).Some?)
    && (r.Ok? ==> StrictHits(r.value) && SpanSet(r.value) <= Denotation(q, c).value)
    && (r.Ok? ==> forall h :: h in r.value ==> Cuts(h, q, c))
    && (r.Ok? && SafeQuery(q) ==> Assured(q, c).Some? && Assured(q, c).value <= SpanSet(r.value))
    && (r.Ok? && AllFixed(q) ==> Reported(q, c).Some? && SpanSet(r.value) == Reported(q, c).value)
    && (r.Ok? && SafeQuery(q) && AllFixed(q) ==> SpanSet(r.value) == Denotation(q, c).value)
  }

  // The same for the number of hits.
  ghost predicate Counts(r: Result<nat>, q: Ast.Query, c: Corpus) {
    && (r.Ok? <==> Plannable(q) && Denotation(q, c).Some?)
    && (r.Ok? ==> r.value <= |Denotation(q, c).value|)
    && (r.Ok? && SafeQuery(q) ==> Assured(q, c).Some? && |Assured(q, c).value| <= r.value)
    && (r.Ok? && AllFixed(q) ==> Reported(q, c).Some? && r.value == |Reported(q, c).value|)
    && (r.Ok? && SafeQuery(q) && AllFixed(q) ==> r.value == |Denotation(q, c).value|)
  }

  method RunQuery(q: Ast.Query, c: Corpus) returns (r: Result<seq<Hit>>)
    requires ValidCorpus(c)
    ensures Finds(r, q, c)
  {
    var plan := PlanQuery(q);
    if plan.Err? {
      return Err;
    }
    r := ExecuteNode(plan.value, c);
    PlanFinds(plan.value, q, r, c);
  }

  method CountQuery(q: Ast.Query, c: Corpus) returns (r: Result<nat>)
    requires ValidCorpus(c)
    ensures Counts(r, q, c)
  {
    var plan := PlanQuery(q);
    if plan.Err? {
      return Err;
    }
    r := CountNode(plan.value, c);
    PlanCounts(plan.value, q, r, c);
  }

  lemma YieldFinds(node: PlanNode, q: Ast.Query, hs: seq<Hit>, c: Corpus)
    requires ValidCorpus(c) && Plannable(q) && PlanFor(node, q) && Meaning(node, c).Some? && Yields(node, hs, c)
    ensures Finds(Ok(hs), q, c)
  {
    assert Faithful(node, q, c);
    assert Fulfils(hs, q, c);
    SpansBetween(node, q, hs, c);
    if SafeQuery(q) && AllFixed(q) {
      FixedIsAssured(q, c);
    }
  }

  // The same from any plan of the query and anything that executing it may return.
  lemma PlanFinds(node: PlanNode, q: Ast.Query, r: Result<seq<Hit>>, c: Corpus)
    requires ValidCorpus(c) && Plannable(q) && PlanFor(node, q) && Returns(r, node, c)
    ensures Finds(r, q, c)
  {
    assert FailsAlike(node, q, c);
    if r.Ok? {
      YieldFinds(node, q, r.value, c);
    }
  }

  lemma {:induction false} SubsetSize<T>(a: set<T>, b: set<T>)
    requires a <= b
    ensures |a| <= |b|
  {
    if a != {} {
      var x :| x in a;
      SubsetSize(a - {x}, b - {x});
    }
  }

  lemma PlanCounts(node: PlanNode, q: Ast.Query, r: Result<nat>, c: Corpus)
    requires ValidCorpus(c) && Plannable(q) && PlanFor(node, q) && CountReturns(r, node, c)
    ensures Counts(r, q, c)
  {
    assert FailsAlike(node, q, c);
    if r.Ok? {
      var hs :| Yields(node, hs, c) && r.value == |hs|;
      YieldFinds(node, q, hs, c);
      DeliversCount(hs, SpanSet(hs));
      SubsetSize(SpanSet(hs), Denotation(q, c).value);
      if SafeQuery(q) {
        SubsetSize(Assured(q, c).value, SpanSet(hs));
      }
    }
  }

  // ---------------------------------------------------------------------------------
  // Queries without constraints.

  // No attribute constraints anywhere.
  predicate Unconstrained(q: Ast.Query)
    decreases q
  {
    match q
    case Token(_) => true
    case Sequence(parts) => forall i :: 0 <= i < |parts| ==> Unconstrained(parts[i])
    case Or(alternatives) => forall i :: 0 <= i < |alternatives| ==> Unconstrained(alternatives[i])
    case Constrained(_, _) => false
    case _ => Unconstrained(q.inner)
  }

  lemma PartUnconstrained(q: Ast.Query, i: nat)
    requires Unconstrained(q) && IsSequence(q) && i < |PartsOf(q)|
    ensures Unconstrained(PartOf(PartsOf(q)[i]).inner) && PartOf(PartsOf(q)[i]).inner < q
  {
    if q.Sequence? {
      assert Unconstrained(q.parts[i]);
    }
  }

  // They can be planned, and nothing is left open: for them it depends on the engine alone.
  lemma {:induction false} UnconstrainedIsFixed(q: Ast.Query)
    requires Unconstrained(q)
    ensures Plannable(q) && AllFixed(q)
    decreases q
  {
    match q {
      case Token(_) =>
      case Sequence(parts) =>
        forall i | 0 <= i < |parts|
          ensures Plannable(PartOf(parts[i]).inner) && AllFixed(PartOf(parts[i]).inner)
        {
          PartUnconstrained(q, i);
          UnconstrainedIsFixed(PartOf(parts[i]).inner);
        }
      case Or(alternatives) =>
        forall i | 0 <= i < |alternatives|
          ensures Plannable(alternatives[i]) && AllFixed(alternatives[i])
        {
          UnconstrainedIsFixed(alternatives[i]);
        }
      case Repetition(_, _, _) =>
        PartUnconstrained(q, 0);
        UnconstrainedIsFixed(PartOf(q).inner);
      case Capture(_, inner) => UnconstrainedIsFixed(inner);
      case Within(inner, _) => UnconstrainedIsFixed(inner);
      case WithinComponent(inner, _) => UnconstrainedIsFixed(inner);
      case WithinDocument(inner, _) => UnconstrainedIsFixed(inner);
      case Project(inner, _) => UnconstrainedIsFixed(inner);
    }
  }
}
