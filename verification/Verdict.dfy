// crates/montre-query/src/executor.rs: what evaluate_constraints reads of the captures. Attributes
// are looked up where a capture starts; a distance is read from the end of one to the start of
// another. When that is the same for all cuts of a span, as a condition on quantifiers and labels.
module Verdict {
  import opened Core
  import opened Runs
  import opened Sequence
  import opened Engine
  import opened Labelled
  import opened Determined
  import opened Ast
  import opened Plan
  import opened Hits
  import opened Constraints

  // The first of the first k steps that carries a label: the one whose capture is found.
  function FirstLabel(steps: seq<Step>, name: string, k: nat): (r: Option<nat>)
    requires k <= |steps|
    ensures r.Some? ==> r.value < k && steps[r.value].capture == Some(name)
    ensures r.Some? ==> forall j :: 0 <= j < r.value ==> steps[j].capture != Some(name)
    ensures r.None? ==> forall j :: 0 <= j < k ==> steps[j].capture != Some(name)
  {
    if k == 0 then None
    else if FirstLabel(steps, name, k - 1).Some? then FirstLabel(steps, name, k - 1)
    else if steps[k - 1].capture == Some(name) then Some(k - 1) else None
  }

  function LabelOf(steps: seq<Step>, name: string): Option<nat> {
    FirstLabel(steps, name, |steps|)
  }

  // Where the capture of a label begins is the same for all cuts of a span.
  predicate StartFixed(steps: seq<Step>, name: string) {
    var i := LabelOf(steps, name);
    i.Some? ==> FixedBoundary(steps, i.value)
  }

  // So is the distance between two captures: no step between them can vary, or none outside.
  predicate GapFixed(steps: seq<Step>, from: string, to: string) {
    var i, j := LabelOf(steps, from), LabelOf(steps, to);
    i.Some? && j.Some? && i.value < j.value ==>
      || AllExact(steps[i.value + 1..j.value])
      || (AllExact(steps[..i.value + 1]) && AllExact(steps[j.value..]))
  }

  predicate ReadFixed(steps: seq<Step>, g: GlobalConstraint) {
    match g
    case SameAttr(l, r) => StartFixed(steps, l.name) && StartFixed(steps, r.name)
    case DifferentAttr(l, r) => StartFixed(steps, l.name) && StartFixed(steps, r.name)
    case Distance(from, to, _, _) => GapFixed(steps, from, to)
  }

  // Some step admits no length, or nothing that the constraints read varies.
  predicate VerdictFixed(steps: seq<Step>, gs: seq<GlobalConstraint>) {
    || (exists i :: 0 <= i < |steps| && Impossible(steps[i]))
    || (forall g :: g in gs ==> ReadFixed(steps, g))
  }

  // ---------------------------------------------------------------------------------
  // Fixed readings leave no choice.

  lemma {:induction false} CapturedAppend(a: Captures, b: Captures, name: string)
    ensures Captured(a + b, name) == if Captured(a, name).Some? then Captured(a, name) else Captured(b, name)
  {
    if a == [] {
      assert a + b == b;
    } else {
      assert (a + b)[1..] == a[1..] + b;
      CapturedAppend(a[1..], b, name);
    }
  }

  lemma {:induction false} CapturedIs(steps: seq<Step>, cs: seq<nat>, name: string, k: nat)
    requires k <= |steps| && k < |cs|
    ensures var i := FirstLabel(steps, name, k);
      Captured(CapturesOf(steps, cs, k), name) == if i.None? then None else Some(Span(cs[i.value], cs[i.value + 1]))
  {
    if k > 0 {
      CapturedIs(steps, cs, name, k - 1);
      CapturedAppend(CapturesOf(steps, cs, k - 1), Labelled.Capture(steps[k - 1], cs[k - 1], cs[k]), name);
    }
  }

  // The hit has the captures of a cut of its span.
  ghost predicate LabelledBy(h: Hit, steps: seq<Step>, cs: seq<nat>) {
    && CutOf(steps, cs)
    && cs[0] == h.span.start && cs[|steps|] == h.span.end
    && h.captures == CapturesOf(steps, cs, |steps|)
  }

  lemma StartRead(h: Hit, steps: seq<Step>, cs: seq<nat>, name: string)
    requires LabelledBy(h, steps, cs)
    ensures var i := LabelOf(steps, name);
      Captured(h.captures, name) == if i.None? then None else Some(Span(cs[i.value], cs[i.value + 1]))
  {
    CapturedIs(steps, cs, name, |steps|);
  }

  lemma SameAttrs(c: Corpus, g: Hit, h: Hit, steps: seq<Step>, cs: seq<nat>, ds: seq<nat>, name: string, attr: string)
    requires LabelledBy(g, steps, cs) && LabelledBy(h, steps, ds) && g.span == h.span && StartFixed(steps, name)
    ensures AttrOf(c, g, name, attr) == AttrOf(c, h, name, attr)
  {
    StartRead(g, steps, cs, name);
    StartRead(h, steps, ds, name);
    if LabelOf(steps, name).Some? {
      BoundaryFixed(steps, cs, ds, LabelOf(steps, name).value);
    }
  }

  function GapIn(cs: seq<nat>, i: nat, j: nat): nat
    requires i + 1 < |cs| && j + 1 < |cs|
  {
    Gap(Span(cs[i], cs[i + 1]), Span(cs[j], cs[j + 1]))
  }

  lemma SameGap(steps: seq<Step>, cs: seq<nat>, ds: seq<nat>, i: nat, j: nat)
    requires SameEnds(steps, cs, ds) && i < |steps| && j < |steps|
    requires i < j ==> AllExact(steps[i + 1..j]) || (AllExact(steps[..i + 1]) && AllExact(steps[j..]))
    ensures GapIn(cs, i, j) == GapIn(ds, i, j)
  {
    if i < j {
      if AllExact(steps[i + 1..j]) {
        ExactBetween(steps, cs, ds, i + 1, j);
      } else {
        BoundaryFixed(steps, cs, ds, i + 1);
        BoundaryFixed(steps, cs, ds, j);
      }
      CutAscends(steps, cs, i + 1, j);
      CutAscends(steps, ds, i + 1, j);
    } else {
      CutAscends(steps, cs, j, i + 1);
      CutAscends(steps, ds, j, i + 1);
    }
  }

  lemma SameReading(c: Corpus, g: Hit, h: Hit, steps: seq<Step>, cs: seq<nat>, ds: seq<nat>, k: GlobalConstraint)
    requires LabelledBy(g, steps, cs) && LabelledBy(h, steps, ds) && g.span == h.span && ReadFixed(steps, k)
    ensures Satisfies(c, g, k) <==> Satisfies(c, h, k)
  {
    match k {
      case SameAttr(l, r) =>
        SameAttrs(c, g, h, steps, cs, ds, l.name, l.attr);
        SameAttrs(c, g, h, steps, cs, ds, r.name, r.attr);
      case DifferentAttr(l, r) =>
        SameAttrs(c, g, h, steps, cs, ds, l.name, l.attr);
        SameAttrs(c, g, h, steps, cs, ds, r.name, r.attr);
      case Distance(from, to, op, k) =>
        var i, j := LabelOf(steps, from), LabelOf(steps, to);
        StartRead(g, steps, cs, from);
        StartRead(h, steps, ds, from);
        StartRead(g, steps, cs, to);
        StartRead(h, steps, ds, to);
        if i.Some? && j.Some? {
          SameGap(steps, cs, ds, i.value, j.value);
          CompareIsApart(Span(cs[i.value], cs[i.value + 1]), Span(cs[j.value], cs[j.value + 1]), op, k);
          CompareIsApart(Span(ds[i.value], ds[i.value + 1]), Span(ds[j.value], ds[j.value + 1]), op, k);
        }
    }
  }

  // All cuts of a span get the same verdict.
  lemma {:induction false} FixedVerdict(
      c: Corpus, g: Hit, h: Hit, steps: seq<Step>, cs: seq<nat>, ds: seq<nat>, gs: seq<GlobalConstraint>)
    requires LabelledBy(g, steps, cs) && LabelledBy(h, steps, ds) && g.span == h.span && VerdictFixed(steps, gs)
    ensures SatisfiesAll(c, g, gs) <==> SatisfiesAll(c, h, gs)
  {
    NoneImpossible(steps, cs);
    forall k | k in gs
      ensures Satisfies(c, g, k) <==> Satisfies(c, h, k)
    {
      SameReading(c, g, h, steps, cs, ds, k);
    }
  }

  // ---------------------------------------------------------------------------------
  // Otherwise two cuts of a span read differently.

  // The gap between steps i and j is one longer when a step between them takes the spare token.
  lemma {:induction false} MovableGap(steps: seq<Step>, i: nat, j: nat) returns (m: nat, k: nat)
    requires i < j < |steps| && !AllExact(steps[i + 1..j]) && !(AllExact(steps[..i + 1]) && AllExact(steps[j..]))
    ensures i < m < j && !Exact(steps[m])
    ensures k < |steps| && (k <= i || j <= k) && !Exact(steps[k])
  {
    var x: nat :| x < j - i - 1 && !Exact(steps[i + 1..j][x]);
    m := i + 1 + x;
    if !AllExact(steps[..i + 1]) {
      k :| 0 <= k < i + 1 && !Exact(steps[..i + 1][k]);
    } else {
      var y: nat :| y < |steps| - j && !Exact(steps[j..][y]);
      k := j + y;
    }
  }

  // All of n tokens, cut in two ways.
  ghost predicate FreeCuts(steps: seq<Step>, n: nat, cs: seq<nat>, ds: seq<nat>) {
    && TwoCuts(WithSets(Quants(StepQuant, steps), AllTokens(|steps|, n)), cs, ds)
    && cs[0] == 0 && cs[|steps|] == n
  }

  lemma {:induction false} SpareTokens(steps: seq<Step>, m: nat, k: nat) returns (n: nat, cs: seq<nat>, ds: seq<nat>)
    requires m < |steps| && k < |steps| && !Exact(steps[m]) && !Exact(steps[k])
    requires forall i :: 0 <= i < |steps| ==> !Impossible(steps[i])
    ensures cs == CutPoints(steps, m) && ds == CutPoints(steps, k) && FreeCuts(steps, n, cs, ds)
  {
    n := CutPoint(steps, m, |steps|);
    cs, ds := CutPoints(steps, m), CutPoints(steps, k);
    CutPointAt(steps, m, |steps|);
    CutPointAt(steps, k, |steps|);
    CutPointsCut(steps, m, n);
    CutPointsCut(steps, k, n);
  }

  lemma {:induction false} StartVaries(steps: seq<Step>, i: nat) returns (n: nat, cs: seq<nat>, ds: seq<nat>)
    requires i < |steps| && !FixedBoundary(steps, i)
    requires forall i :: 0 <= i < |steps| ==> !Impossible(steps[i])
    ensures FreeCuts(steps, n, cs, ds) && cs[i] != ds[i]
  {
    var m, k := MovableBoundary(steps, i);
    n, cs, ds := SpareTokens(steps, m, k);
    CutPointAt(steps, m, i);
    CutPointAt(steps, k, i);
  }

  lemma {:induction false} GapAt(steps: seq<Step>, at: nat, i: nat, j: nat)
    requires i < j < |steps|
    ensures GapIn(CutPoints(steps, at), i, j) == CutPoint(steps, at, j) - CutPoint(steps, at, i + 1)
    ensures GapIn(CutPoints(steps, at), i, j) ==
      CutPoint(steps, |steps|, j) - CutPoint(steps, |steps|, i + 1) + if i < at < j then 1 else 0
  {
    CutPointsGrow(steps, at, i + 1, j);
    CutPointAt(steps, at, i + 1);
    CutPointAt(steps, at, j);
  }

  lemma {:induction false} GapVaries(steps: seq<Step>, i: nat, j: nat) returns (n: nat, cs: seq<nat>, ds: seq<nat>)
    requires i < j < |steps| && !AllExact(steps[i + 1..j]) && !(AllExact(steps[..i + 1]) && AllExact(steps[j..]))
    requires forall i :: 0 <= i < |steps| ==> !Impossible(steps[i])
    ensures FreeCuts(steps, n, cs, ds) && GapIn(cs, i, j) != GapIn(ds, i, j)
  {
    var m, k := MovableGap(steps, i, j);
    n, cs, ds := SpareTokens(steps, m, k);
    GapAt(steps, m, i, j);
    GapAt(steps, k, i, j);
  }

  // Every attribute has the value yes, but attribute x only at one position.
  function Telling(at: nat): (nat, string) -> Option<string> {
    (p, attr) => if attr == "x" && p != at then Some("no") else Some("yes")
  }

  function StartsThere(name: string): GlobalConstraint {
    SameAttr(LabelAttr(name, "x"), LabelAttr(name, "y"))
  }

  lemma StartVerdict(c: Corpus, h: Hit, steps: seq<Step>, cs: seq<nat>, name: string, at: nat)
    requires LabelledBy(h, steps, cs) && LabelOf(steps, name).Some? && c.attribute == Telling(at)
    ensures SatisfiesAll(c, h, [StartsThere(name)]) <==> cs[LabelOf(steps, name).value] == at
  {
    StartRead(h, steps, cs, name);
    var gs := [StartsThere(name)];
    assert gs[0] in gs;
  }

  lemma GapVerdict(c: Corpus, h: Hit, steps: seq<Step>, cs: seq<nat>, from: string, to: string, d: nat)
    requires LabelledBy(h, steps, cs) && LabelOf(steps, from).Some? && LabelOf(steps, to).Some?
    ensures SatisfiesAll(c, h, [Distance(from, to, Eq, d)]) <==>
      GapIn(cs, LabelOf(steps, from).value, LabelOf(steps, to).value) == d
  {
    StartRead(h, steps, cs, from);
    StartRead(h, steps, cs, to);
    var gs := [Distance(from, to, Eq, d)];
    assert gs[0] in gs;
    var i, j := LabelOf(steps, from).value, LabelOf(steps, to).value;
    CompareIsApart(Span(cs[i], cs[i + 1]), Span(cs[j], cs[j + 1]), Eq, d);
  }

  // ---------------------------------------------------------------------------------
  // Constraints that read no more than these do.

  predicate ReadsStart(gs: seq<GlobalConstraint>, name: string) {
    exists g :: g in gs && !g.Distance? && (g.left.name == name || g.right.name == name)
  }

  predicate ReadsGap(gs: seq<GlobalConstraint>, from: string, to: string) {
    exists g :: g in gs && g.Distance? && g.from == from && g.to == to
  }

  // Other attributes, comparisons and values, but of the same labels.
  predicate ReadsOnly(more: seq<GlobalConstraint>, gs: seq<GlobalConstraint>) {
    forall g :: g in more ==>
      if g.Distance? then ReadsGap(gs, g.from, g.to) else ReadsStart(gs, g.left.name) && ReadsStart(gs, g.right.name)
  }

  lemma FixedForLess(steps: seq<Step>, gs: seq<GlobalConstraint>, more: seq<GlobalConstraint>)
    requires VerdictFixed(steps, gs) && ReadsOnly(more, gs)
    ensures VerdictFixed(steps, more)
  {
    if !(exists i :: 0 <= i < |steps| && Impossible(steps[i])) {
      forall g | g in more
        ensures ReadFixed(steps, g)
      {
        if g.Distance? {
          var k :| k in gs && k.Distance? && k.from == g.from && k.to == g.to;
          assert ReadFixed(steps, k);
        } else {
          StartsRead(steps, gs, g.left.name);
          StartsRead(steps, gs, g.right.name);
        }
      }
    }
  }

  lemma StartsRead(steps: seq<Step>, gs: seq<GlobalConstraint>, name: string)
    requires ReadsStart(gs, name) && forall g :: g in gs ==> ReadFixed(steps, g)
    ensures StartFixed(steps, name)
  {
    var k :| k in gs && !k.Distance? && (k.left.name == name || k.right.name == name);
    assert ReadFixed(steps, k);
  }

  // ---------------------------------------------------------------------------------
  // All constraints over the labels of the steps.

  predicate Visible(steps: seq<Step>, i: nat) {
    i < |steps| && steps[i].capture.Some? && LabelOf(steps, steps[i].capture.value) == Some(i)
  }

  ghost predicate LaterVisible(steps: seq<Step>, i: nat) {
    exists j: nat :: i < j && Visible(steps, j)
  }

  // Some step admits no length, or every capture that can be found begins at a fixed boundary,
  // and ends at one too unless it is the last.
  ghost predicate EveryVerdictFixed(steps: seq<Step>) {
    || (exists i :: 0 <= i < |steps| && Impossible(steps[i]))
    || (forall i: nat :: Visible(steps, i) ==>
          FixedBoundary(steps, i) && (LaterVisible(steps, i) ==> FixedBoundary(steps, i + 1)))
  }

  // The constraints mention only labels of the steps.
  predicate Declared(steps: seq<Step>, gs: seq<GlobalConstraint>) {
    forall g :: g in gs ==>
      if g.Distance? then LabelOf(steps, g.from).Some? && LabelOf(steps, g.to).Some?
      else LabelOf(steps, g.left.name).Some? && LabelOf(steps, g.right.name).Some?
  }

  lemma DeclaredForLess(steps: seq<Step>, gs: seq<GlobalConstraint>, more: seq<GlobalConstraint>)
    requires Declared(steps, gs) && ReadsOnly(more, gs)
    ensures Declared(steps, more)
  {
  }

  lemma LabelIsVisible(steps: seq<Step>, name: string)
    requires LabelOf(steps, name).Some?
    ensures Visible(steps, LabelOf(steps, name).value)
  {
  }

  lemma BetweenExact(steps: seq<Step>, a: nat, b: nat)
    requires a <= b <= |steps| && FixedBoundary(steps, a) && FixedBoundary(steps, b)
    ensures AllExact(steps[a..b]) || (AllExact(steps[..a]) && AllExact(steps[b..]))
  {
    if AllExact(steps[a..]) {
      PartExact(steps[a..], 0, b - a);
      assert steps[a..][..b - a] == steps[a..b];
    } else if AllExact(steps[..b]) {
      PartExact(steps[..b], a, b);
      assert steps[..b][a..b] == steps[a..b];
    }
  }

  lemma PartExact(steps: seq<Step>, a: nat, b: nat)
    requires a <= b <= |steps| && AllExact(steps)
    ensures AllExact(steps[a..b])
  {
  }

  lemma JoinExact(steps: seq<Step>, a: nat)
    requires a <= |steps| && AllExact(steps[..a]) && AllExact(steps[a..])
    ensures AllExact(steps)
  {
    forall i | 0 <= i < |steps|
      ensures Exact(steps[i])
    {
      assert if i < a then Exact(steps[..a][i]) else Exact(steps[a..][i - a]);
    }
  }

  lemma EveryFixed(steps: seq<Step>, gs: seq<GlobalConstraint>)
    requires EveryVerdictFixed(steps)
    ensures VerdictFixed(steps, gs)
  {
    if !(exists i :: 0 <= i < |steps| && Impossible(steps[i])) {
      forall g | g in gs
        ensures ReadFixed(steps, g)
      {
        if g.Distance? {
          GapOfFixed(steps, g.from, g.to);
        } else {
          StartOfFixed(steps, g.left.name);
          StartOfFixed(steps, g.right.name);
        }
      }
    }
  }

  lemma StartOfFixed(steps: seq<Step>, name: string)
    requires EveryVerdictFixed(steps) && !exists i :: 0 <= i < |steps| && Impossible(steps[i])
    ensures StartFixed(steps, name)
  {
    if LabelOf(steps, name).Some? {
      LabelIsVisible(steps, name);
    }
  }

  lemma GapOfFixed(steps: seq<Step>, from: string, to: string)
    requires EveryVerdictFixed(steps) && !exists i :: 0 <= i < |steps| && Impossible(steps[i])
    ensures GapFixed(steps, from, to)
  {
    var i, j := LabelOf(steps, from), LabelOf(steps, to);
    if i.Some? && j.Some? && i.value < j.value {
      LabelIsVisible(steps, from);
      LabelIsVisible(steps, to);
      assert LaterVisible(steps, i.value);
      BetweenExact(steps, i.value + 1, j.value);
    }
  }

  // Otherwise some constraint over the labels reads what varies.
  lemma {:induction false} SomeVerdictFree(steps: seq<Step>) returns (gs: seq<GlobalConstraint>)
    requires !EveryVerdictFixed(steps)
    ensures Declared(steps, gs) && !VerdictFixed(steps, gs)
  {
    var i: nat :| Visible(steps, i) &&
      !(FixedBoundary(steps, i) && (LaterVisible(steps, i) ==> FixedBoundary(steps, i + 1)));
    if !FixedBoundary(steps, i) {
      gs := StartFree(steps, i);
    } else {
      var j := LaterLabel(steps, i);
      if FixedBoundary(steps, j) {
        gs := GapFree(steps, i, j);
      } else {
        gs := StartFree(steps, j);
      }
    }
  }

  lemma LaterLabel(steps: seq<Step>, i: nat) returns (j: nat)
    requires LaterVisible(steps, i)
    ensures i < j && Visible(steps, j)
  {
    j :| i < j && Visible(steps, j);
  }

  lemma StartFree(steps: seq<Step>, i: nat) returns (gs: seq<GlobalConstraint>)
    requires Visible(steps, i) && !FixedBoundary(steps, i) && !exists k :: 0 <= k < |steps| && Impossible(steps[k])
    ensures Declared(steps, gs) && !VerdictFixed(steps, gs)
  {
    gs := [StartsThere(steps[i].capture.value)];
    assert gs[0] in gs && !ReadFixed(steps, gs[0]);
  }

  lemma GapFree(steps: seq<Step>, i: nat, j: nat) returns (gs: seq<GlobalConstraint>)
    requires Visible(steps, i) && Visible(steps, j) && i < j && FixedBoundary(steps, j) && !FixedBoundary(steps, i + 1)
    requires !exists k :: 0 <= k < |steps| && Impossible(steps[k])
    ensures Declared(steps, gs) && !VerdictFixed(steps, gs)
  {
    gs := [Distance(steps[i].capture.value, steps[j].capture.value, Eq, 0)];
    if AllExact(steps[i + 1..j]) {
      BoundaryBefore(steps, i + 1, j);
    }
    assert gs[0] in gs && !ReadFixed(steps, gs[0]);
  }

  lemma BoundaryBefore(steps: seq<Step>, a: nat, b: nat)
    requires a <= b <= |steps| && AllExact(steps[a..b]) && FixedBoundary(steps, b)
    ensures FixedBoundary(steps, a)
  {
    if AllExact(steps[..b]) {
      PartExact(steps[..b], 0, a);
      assert steps[..b][0..a] == steps[..a];
    } else {
      assert steps[a..][..b - a] == steps[a..b] && steps[a..][b - a..] == steps[b..];
      JoinExact(steps[a..], b - a);
    }
  }
}
