// crates/montre-query/src/executor.rs: the executor keeps the captures of one cut for every span.
// When that is no choice: exactly when the captures of a match do not depend on how it is cut,
// as a condition on the quantifiers and labels, and what it means for constraint filters.
module Determined {
  import opened Core
  import opened Runs
  import opened Sequence
  import opened Engine
  import opened Labelled

  function StepQuant(s: Step): Quant {
    Quant(s.min, s.max)
  }

  // Two ways to cut the same non-empty span.
  ghost predicate TwoCuts(pieces: seq<Piece>, cs: seq<nat>, ds: seq<nat>) {
    && IsCut(pieces, cs) && IsCut(pieces, ds)
    && cs[0] == ds[0] && cs[|pieces|] == ds[|pieces|] && cs[0] < cs[|pieces|]
  }

  // Whatever the position sets are, all cuts of a span give the same captures.
  ghost predicate AlwaysSame(steps: seq<Step>) {
    forall sets: seq<set<nat>>, cs: seq<nat>, ds: seq<nat> ::
      |sets| == |steps| && TwoCuts(WithSets(Quants(StepQuant, steps), sets), cs, ds) ==>
        CapturesOf(steps, cs, |steps|) == CapturesOf(steps, ds, |steps|)
  }

  // One length only.
  predicate Exact(s: Step) {
    s.min == MaxLen(s.max)
  }

  predicate Impossible(s: Step) {
    s.min > MaxLen(s.max)
  }

  predicate AllExact(steps: seq<Step>) {
    forall i :: 0 <= i < |steps| ==> Exact(steps[i])
  }

  // The boundary before step b is a fixed distance from the start of the match, or from its end.
  predicate FixedBoundary(steps: seq<Step>, b: nat)
    requires b <= |steps|
  {
    AllExact(steps[..b]) || AllExact(steps[b..])
  }

  // Some step admits no length, or every labelled step has both its boundaries fixed.
  predicate CapturesFixed(steps: seq<Step>) {
    || (exists i :: 0 <= i < |steps| && Impossible(steps[i]))
    || (forall i :: 0 <= i < |steps| && steps[i].capture.Some? ==>
      FixedBoundary(steps, i) && FixedBoundary(steps, i + 1))
  }

  // ---------------------------------------------------------------------------------
  // Fixed boundaries leave no choice.

  // The lengths of the pieces are permitted.
  ghost predicate CutOf(steps: seq<Step>, cs: seq<nat>) {
    && |cs| == |steps| + 1
    && forall i :: 0 <= i < |steps| ==> cs[i] <= cs[i + 1] && steps[i].min <= cs[i + 1] - cs[i] <= MaxLen(steps[i].max)
  }

  ghost predicate PiecesFor(steps: seq<Step>, pieces: seq<Piece>) {
    |pieces| == |steps| && forall i :: 0 <= i < |steps| ==>
      pieces[i].min == steps[i].min && pieces[i].max == steps[i].max
  }

  lemma CutHasLengths(steps: seq<Step>, pieces: seq<Piece>, cs: seq<nat>)
    requires PiecesFor(steps, pieces) && IsCut(pieces, cs)
    ensures CutOf(steps, cs)
  {
    forall i | 0 <= i < |steps|
      ensures cs[i] <= cs[i + 1] && steps[i].min <= cs[i + 1] - cs[i] <= MaxLen(steps[i].max)
    {
      assert PieceFits(pieces[i], cs[i], cs[i + 1]);
    }
  }

  lemma {:induction false} CutAscends(steps: seq<Step>, cs: seq<nat>, a: nat, b: nat)
    requires CutOf(steps, cs) && a <= b <= |steps|
    ensures cs[a] <= cs[b]
    decreases b - a
  {
    if a < b {
      CutAscends(steps, cs, a, b - 1);
    }
  }

  // Steps of one length each take the same number of tokens in every cut.
  lemma {:induction false} ExactBetween(steps: seq<Step>, cs: seq<nat>, ds: seq<nat>, a: nat, b: nat)
    requires CutOf(steps, cs) && CutOf(steps, ds) && a <= b <= |steps| && AllExact(steps[a..b])
    ensures cs[b] + ds[a] == ds[b] + cs[a]
    decreases b - a
  {
    if a < b {
      assert AllExact(steps[a..b - 1]) by {
        assert steps[a..b - 1] == steps[a..b][..b - 1 - a];
      }
      ExactBetween(steps, cs, ds, a, b - 1);
      assert Exact(steps[a..b][b - 1 - a]);
    }
  }

  lemma BoundaryFixed(steps: seq<Step>, cs: seq<nat>, ds: seq<nat>, b: nat)
    requires b <= |steps| && FixedBoundary(steps, b) && SameEnds(steps, cs, ds)
    ensures cs[b] == ds[b]
  {
    if AllExact(steps[..b]) {
      assert steps[0..b] == steps[..b];
      ExactBetween(steps, cs, ds, 0, b);
    } else {
      assert steps[b..|steps|] == steps[b..];
      ExactBetween(steps, cs, ds, b, |steps|);
    }
  }

  // Two cuts of the same span.
  ghost predicate SameEnds(steps: seq<Step>, cs: seq<nat>, ds: seq<nat>) {
    CutOf(steps, cs) && CutOf(steps, ds) && cs[0] == ds[0] && cs[|steps|] == ds[|steps|]
  }

  lemma {:induction false} SameCaptures(steps: seq<Step>, cs: seq<nat>, ds: seq<nat>, k: nat)
    requires k <= |steps| && k < |cs| && k < |ds|
    requires forall i :: 0 <= i < k && steps[i].capture.Some? ==> cs[i] == ds[i] && cs[i + 1] == ds[i + 1]
    ensures CapturesOf(steps, cs, k) == CapturesOf(steps, ds, k)
  {
    if k > 0 {
      SameCaptures(steps, cs, ds, k - 1);
    }
  }

  lemma NoneImpossible(steps: seq<Step>, cs: seq<nat>)
    requires CutOf(steps, cs)
    ensures forall i :: 0 <= i < |steps| ==> !Impossible(steps[i])
  {
    forall i | 0 <= i < |steps|
      ensures !Impossible(steps[i])
    {
      assert cs[i] <= cs[i + 1];
    }
  }

  // All cuts of a span, over any position sets, give the same captures.
  lemma {:induction false} FixedMeansSame(steps: seq<Step>, cs: seq<nat>, ds: seq<nat>)
    requires CapturesFixed(steps) && SameEnds(steps, cs, ds)
    ensures CapturesOf(steps, cs, |steps|) == CapturesOf(steps, ds, |steps|)
  {
    NoneImpossible(steps, cs);
    forall i | 0 <= i < |steps| && steps[i].capture.Some?
      ensures cs[i] == ds[i] && cs[i + 1] == ds[i + 1]
    {
      BoundaryFixed(steps, cs, ds, i);
      BoundaryFixed(steps, cs, ds, i + 1);
    }
    SameCaptures(steps, cs, ds, |steps|);
  }

  // ---------------------------------------------------------------------------------
  // A boundary that is not fixed can be moved: one step before it may be longer, or one after it.

  // Every step as short as it may be, but for step at, which takes one more.
  function CutPoint(steps: seq<Step>, at: nat, i: nat): nat
    requires i <= |steps|
  {
    if i == 0 then 0 else CutPoint(steps, at, i - 1) + steps[i - 1].min + if i - 1 == at then 1 else 0
  }

  lemma {:induction false} CutPointAt(steps: seq<Step>, at: nat, i: nat)
    requires i <= |steps|
    ensures CutPoint(steps, at, i) == CutPoint(steps, |steps|, i) + if at < i then 1 else 0
  {
    if i > 0 {
      CutPointAt(steps, at, i - 1);
    }
  }

  lemma {:induction false} CutPointsGrow(steps: seq<Step>, at: nat, i: nat, j: nat)
    requires i <= j <= |steps|
    ensures CutPoint(steps, at, i) <= CutPoint(steps, at, j)
    decreases j - i
  {
    if i < j {
      CutPointsGrow(steps, at, i, j - 1);
    }
  }

  function CutPoints(steps: seq<Step>, at: nat): (r: seq<nat>)
    ensures |r| == |steps| + 1 && forall i :: 0 <= i <= |steps| ==> r[i] == CutPoint(steps, at, i)
  {
    seq(|steps| + 1, i requires 0 <= i <= |steps| => CutPoint(steps, at, i))
  }

  lemma {:induction false} CutPointsCut(steps: seq<Step>, at: nat, n: nat)
    requires at < |steps| && !Exact(steps[at]) && CutPoint(steps, at, |steps|) <= n
    requires forall i :: 0 <= i < |steps| ==> !Impossible(steps[i])
    ensures IsCut(WithSets(Quants(StepQuant, steps), AllTokens(|steps|, n)), CutPoints(steps, at))
  {
    var pieces, cs := WithSets(Quants(StepQuant, steps), AllTokens(|steps|, n)), CutPoints(steps, at);
    forall i | 0 <= i < |pieces|
      ensures PieceFits(pieces[i], cs[i], cs[i + 1])
    {
      CutPointsGrow(steps, at, i + 1, |steps|);
      assert !Impossible(steps[i]);
    }
  }

  lemma {:induction false} MovableBoundary(steps: seq<Step>, b: nat) returns (j: nat, k: nat)
    requires b <= |steps| && !FixedBoundary(steps, b)
    ensures j < b <= k < |steps| && !Exact(steps[j]) && !Exact(steps[k])
  {
    j :| 0 <= j < b && !Exact(steps[..b][j]);
    var m :| 0 <= m < |steps| - b && !Exact(steps[b..][m]);
    k := b + m;
  }

  lemma {:induction false} CapturesDiffer(steps: seq<Step>, cs: seq<nat>, ds: seq<nat>, k: nat, i: nat)
    requires i < k <= |steps| && k < |cs| && k < |ds| && steps[i].capture.Some?
    requires cs[i] != ds[i] || cs[i + 1] != ds[i + 1]
    ensures CapturesOf(steps, cs, k) != CapturesOf(steps, ds, k)
  {
    SameCount(steps, cs, ds, k - 1);
    var a, b := CapturesOf(steps, cs, k - 1), CapturesOf(steps, ds, k - 1);
    var x, y := Capture(steps[k - 1], cs[k - 1], cs[k]), Capture(steps[k - 1], ds[k - 1], ds[k]);
    if i < k - 1 {
      CapturesDiffer(steps, cs, ds, k - 1, i);
      assert (a + x)[..|a|] == a && (b + y)[..|a|] == b;
    } else {
      assert (a + x)[|a|] == x[0] && (b + y)[|a|] == y[0];
    }
  }

  lemma {:induction false} SameCount(steps: seq<Step>, cs: seq<nat>, ds: seq<nat>, k: nat)
    requires k <= |steps| && k < |cs| && k < |ds|
    ensures |CapturesOf(steps, cs, k)| == |CapturesOf(steps, ds, k)|
  {
    if k > 0 {
      SameCount(steps, cs, ds, k - 1);
    }
  }

  // Over position sets that hold all of the first n tokens, these n tokens can be cut in two
  // ways with different captures.
  lemma {:induction false} FreeWitness(steps: seq<Step>) returns (n: nat, cs: seq<nat>, ds: seq<nat>)
    requires !CapturesFixed(steps)
    ensures TwoCuts(WithSets(Quants(StepQuant, steps), AllTokens(|steps|, n)), cs, ds)
    ensures cs[0] == 0 && cs[|steps|] == n
    ensures CapturesOf(steps, cs, |steps|) != CapturesOf(steps, ds, |steps|)
  {
    var i :| 0 <= i < |steps| && steps[i].capture.Some? && !(FixedBoundary(steps, i) && FixedBoundary(steps, i + 1));
    var b := if FixedBoundary(steps, i) then i + 1 else i;
    var j, k := MovableBoundary(steps, b);
    n := CutPoint(steps, j, |steps|);
    cs, ds := CutPoints(steps, j), CutPoints(steps, k);
    CutPointAt(steps, j, |steps|);
    CutPointAt(steps, k, |steps|);
    CutPointAt(steps, j, b);
    CutPointAt(steps, k, b);
    CutPointsCut(steps, j, n);
    CutPointsCut(steps, k, n);
    CapturesDiffer(steps, cs, ds, |steps|, i);
  }

  // The captures of a match never depend on how it is cut, whatever the position sets, if and
  // only if the check on the quantifiers passes.
  lemma {:induction false} SameIffFixed(steps: seq<Step>)
    ensures AlwaysSame(steps) <==> CapturesFixed(steps)
  {
    if CapturesFixed(steps) {
      forall sets: seq<set<nat>>, cs: seq<nat>, ds: seq<nat> | |sets| == |steps| &&
        TwoCuts(WithSets(Quants(StepQuant, steps), sets), cs, ds)
        ensures CapturesOf(steps, cs, |steps|) == CapturesOf(steps, ds, |steps|)
      {
        CutHasLengths(steps, WithSets(Quants(StepQuant, steps), sets), cs);
        CutHasLengths(steps, WithSets(Quants(StepQuant, steps), sets), ds);
        FixedMeansSame(steps, cs, ds);
      }
    } else {
      var n, cs, ds := FreeWitness(steps);
      assert TwoCuts(WithSets(Quants(StepQuant, steps), AllTokens(|steps|, n)), cs, ds);
    }
  }
}
