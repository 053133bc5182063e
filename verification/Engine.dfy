// crates/montre-query/src/executor.rs: run_sequence_steps_unlabeled and
// run_sequence_steps_labeled. An active set maps the end of a partial match to its starts
// and is pushed through one quantified step after the other. Hash maps are iterated in an
// arbitrary order, so every loop over a map takes its keys in any order at all.
module Engine {
  import opened Core
  import opened Runs
  import opened Sequence

  // One step as the engine sees it; its position set is given by runs.
  datatype Step = Step(min: nat, max: Option<nat>, isScanAll: bool, capture: Option<string>)

  type Active = map<nat, seq<nat>>

  ghost predicate In(a: Active, s: nat, e: nat) {
    e in a && s in a[e]
  }

  // runs[i] compresses the position set of step i inside [lo, hi).
  ghost predicate Prepared(steps: seq<Step>, runs: seq<seq<Run>>, lo: nat, hi: nat, pieces: seq<Piece>) {
    && |steps| == |runs| == |pieces|
    && forall i :: 0 <= i < |steps| ==> StepPrepared(steps[i], runs[i], lo, hi, pieces[i])
  }

  ghost predicate StepPrepared(step: Step, runs: seq<Run>, lo: nat, hi: nat, piece: Piece) {
    && Represents(runs, piece.ps)
    && piece.min == step.min && piece.max == step.max
    && piece.ps <= RangeSet(lo, hi)
    && (step.isScanAll ==> piece.ps == RangeSet(lo, hi))
  }

  ghost predicate Inside(a: Active, lo: nat, hi: nat) {
    forall s: nat, e: nat :: In(a, s, e) ==> lo <= s <= e <= hi
  }

  ghost predicate DistinctStarts(a: Active) {
    forall e :: e in a ==> NoDup(a[e])
  }

  ghost predicate NonEmptyEntries(a: Active) {
    forall e :: e in a ==> a[e] != []
  }

  function StartsAt(a: Active, e: nat): seq<nat> {
    if e in a then a[e] else []
  }

  function Push(a: Active, e: nat, s: nat): (r: Active)
    ensures forall x: nat, y: nat :: In(r, x, y) <==> In(a, x, y) || (x == s && y == e)
  {
    a[e := StartsAt(a, e) + [s]]
  }

  // for &s in starts { active.entry(e).or_default().push(s) }
  method PushAll(a: Active, e: nat, starts: seq<nat>) returns (r: Active)
    ensures forall x: nat, y: nat :: In(r, x, y) <==> In(a, x, y) || (y == e && x in starts)
    ensures NonEmptyEntries(a) ==> NonEmptyEntries(r)
  {
    r := a;
    for i := 0 to |starts|
      invariant forall x: nat, y: nat :: In(r, x, y) <==> In(a, x, y) || (y == e && x in starts[..i])
      invariant NonEmptyEntries(a) ==> NonEmptyEntries(r)
    {
      assert starts[..i + 1] == starts[..i] + [starts[i]];
      r := Push(r, e, starts[i]);
    }
    assert starts[..|starts|] == starts;
  }

  ghost predicate Seeds(a: Active, pieces: seq<Piece>)
    requires pieces != []
  {
    forall s: nat, e: nat :: In(a, s, e) <==> Reach(pieces, 1, s, e)
  }

  // The initial active set: pieces of the first step, then empty first pieces at the
  // places where a run of the second step begins.
  method SeedActive(steps: seq<Step>, runs: seq<seq<Run>>, ghost lo: nat, ghost hi: nat, ghost pieces: seq<Piece>)
    returns (active: Active)
    requires steps != [] && Prepared(steps, runs, lo, hi, pieces)
    ensures Seeds(active, pieces)
    ensures NonEmptyEntries(active)
    ensures DistinctStarts(active)
  {
    assert StepPrepared(steps[0], runs[0], lo, hi, pieces[0]);
    var spans := SpansForQuantifier(runs[0], steps[0].min, steps[0].max, pieces[0].ps);
    active := map[];
    for i := 0 to |spans|
      invariant forall s: nat, e: nat :: In(active, s, e) <==> (s, e) in spans[..i]
      invariant NonEmptyEntries(active) && DistinctStarts(active)
    {
      assert spans[..i + 1] == spans[..i] + [spans[i]];
      assert !In(active, spans[i].0, spans[i].1) by {
        assert (spans[i].0, spans[i].1) !in spans[..i];
      }
      active := Push(active, spans[i].1, spans[i].0);
    }
    assert spans[..|spans|] == spans;
    ghost var first := active;
    if steps[0].min == 0 && |steps| > 1 {
      assert StepPrepared(steps[1], runs[1], lo, hi, pieces[1]);
      var next := runs[1];
      for i := 0 to |next|
        invariant forall s: nat, e: nat :: In(active, s, e) <==>
          In(first, s, e) || (s == e && exists j :: 0 <= j < i && next[j].start == s)
        invariant NonEmptyEntries(active) && DistinctStarts(active)
      {
        assert !In(active, next[i].start, next[i].start) by {
          assert (next[i].start, next[i].start) !in spans;
          assert forall j :: 0 <= j < i ==> next[j].start < next[i].start;
        }
        active := Push(active, next[i].start, next[i].start);
      }
    }
    forall s: nat, e: nat
      ensures In(active, s, e) <==> Reach(pieces, 1, s, e)
    {
      ReachFirst(pieces, s, e);
      if |steps| > 1 {
        assert StepPrepared(steps[1], runs[1], lo, hi, pieces[1]);
        RunStarts(runs[1], pieces[1].ps, s);
      }
    }
  }

  // The ends that step k can reach from end m.
  method Extensions(step: Step, runs: seq<Run>, lo: nat, hi: nat, ghost piece: Piece, m: nat)
    returns (ends: seq<nat>)
    requires StepPrepared(step, runs, lo, hi, piece) && lo <= m <= hi
    ensures forall e: nat :: PieceFits(piece, m, e) <==> e in ends || (step.min == 0 && e == m)
  {
    if step.isScanAll {
      ends := SpansForScanAll(m, step.min, step.max, hi);
    } else {
      ends := ContinuationsAt(runs, m, step.min, step.max, piece.ps);
    }
    forall e: nat
      ensures PieceFits(piece, m, e) <==> e in ends || (step.min == 0 && e == m)
    {
      if m < e && PieceFits(piece, m, e) {
        assert m in piece.ps && e - 1 in piece.ps;
      }
    }
  }

  // One entry (m, starts) of the active set is pushed through a step.
  method Advance(step: Step, runs: seq<Run>, lo: nat, hi: nat, ghost piece: Piece,
                 m: nat, starts: seq<nat>, next: Active)
    returns (r: Active)
    requires StepPrepared(step, runs, lo, hi, piece) && lo <= m <= hi
    requires NonEmptyEntries(next)
    ensures forall s: nat, e: nat :: In(r, s, e) <==> In(next, s, e) || (s in starts && PieceFits(piece, m, e))
    ensures NonEmptyEntries(r)
  {
    r := next;
    if step.min == 0 {
      r := PushAll(r, m, starts);
    }
    var ends := Extensions(step, runs, lo, hi, piece, m);
    ghost var base := r;
    for i := 0 to |ends|
      invariant forall s: nat, e: nat :: In(r, s, e) <==> In(base, s, e) || (s in starts && e in ends[..i])
      invariant NonEmptyEntries(r)
    {
      assert ends[..i + 1] == ends[..i] + [ends[i]];
      r := PushAll(r, ends[i], starts);
    }
    assert ends[..|ends|] == ends;
  }

  // for starts in next_active.values_mut() { sort; dedup }
  function SortEntries(a: Active): (r: Active)
    ensures r.Keys == a.Keys
    ensures forall s: nat, e: nat :: In(r, s, e) <==> In(a, s, e)
    ensures DistinctStarts(r)
    ensures NonEmptyEntries(a) ==> NonEmptyEntries(r)
  {
    map e | e in a :: SortDedup(a[e])
  }

  // The active set after step k, from the active set before it.
  method StepActive(step: Step, runs: seq<Run>, lo: nat, hi: nat, active: Active,
                    ghost pieces: seq<Piece>, ghost k: nat)
    returns (next: Active)
    requires 1 <= k < |pieces| && StepPrepared(step, runs, lo, hi, pieces[k])
    requires Inside(active, lo, hi) && NonEmptyEntries(active)
    requires forall s: nat, e: nat :: In(active, s, e) <==> Reach(pieces, k, s, e)
    ensures forall s: nat, e: nat :: In(next, s, e) <==> Reach(pieces, k + 1, s, e)
    ensures Inside(next, lo, hi) && NonEmptyEntries(next) && DistinctStarts(next)
  {
    next := map[];
    var todo := active.Keys;
    while todo != {}
      invariant todo <= active.Keys
      invariant forall s: nat, e: nat :: In(next, s, e) <==>
        exists m :: m in active.Keys - todo && s in active[m] && PieceFits(pieces[k], m, e)
      invariant NonEmptyEntries(next)
    {
      var m :| m in todo;
      assert In(active, active[m][0], m);
      next := Advance(step, runs, lo, hi, pieces[k], m, active[m], next);
      todo := todo - {m};
    }
    forall s: nat, e: nat
      ensures In(next, s, e) <==> Reach(pieces, k + 1, s, e)
      ensures In(next, s, e) ==> lo <= s <= e <= hi
    {
      ReachNext(pieces, k, s, e);
      if m :| ReachVia(pieces, k, s, m, e) {
        assert In(active, s, m);
      }
      if In(next, s, e) {
        var m :| m in active.Keys && s in active[m] && PieceFits(pieces[k], m, e);
        assert In(active, s, m);
        assert ReachVia(pieces, k, s, m, e);
        assert m < e ==> e - 1 in pieces[k].ps;
      }
    }
    next := SortEntries(next);
  }

  lemma SeedsInside(active: Active, pieces: seq<Piece>, lo: nat, hi: nat)
    requires pieces != [] && Seeds(active, pieces)
    requires forall i :: 0 <= i < |pieces| ==> pieces[i].ps <= RangeSet(lo, hi)
    ensures Inside(active, lo, hi)
  {
    forall s: nat, e: nat | In(active, s, e)
      ensures lo <= s <= e <= hi
    {
      ReachFirst(pieces, s, e);
      if s < e {
        assert s in pieces[0].ps && e - 1 in pieces[0].ps;
      } else {
        assert s in pieces[1].ps;
      }
    }
  }

  lemma NothingWithoutSteps(pieces: seq<Piece>, s: nat, e: nat)
    requires pieces == [] || forall i :: 0 <= i < |pieces| ==> pieces[i].ps == {}
    ensures !Reach(pieces, |pieces|, s, e)
  {
    forall cs: seq<nat> | pieces != [] && |cs| == |pieces| + 1
      ensures !Trace(pieces, |pieces|, cs)
    {
      assert cs[0] !in pieces[0].ps;
      assert PieceFits(pieces[0], cs[0], cs[1]) ==> cs[0] == cs[1];
      assert |pieces| > 1 ==> pieces[1].ps == {};
    }
  }

  // The fast path computes exactly the reachable (start, end) pairs.
  method RunUnlabeled(steps: seq<Step>, runs: seq<seq<Run>>, lo: nat, hi: nat, ghost pieces: seq<Piece>)
    returns (active: Active)
    requires Prepared(steps, runs, lo, hi, pieces)
    ensures forall s: nat, e: nat :: In(active, s, e) <==> Reach(pieces, |pieces|, s, e)
    ensures forall s: nat, e: nat :: s < e ==> (In(active, s, e) <==> Explored(pieces, 0, s, e))
    ensures DistinctStarts(active)
  {
    forall s: nat, e: nat | s < e
      ensures Reach(pieces, |pieces|, s, e) <==> Explored(pieces, 0, s, e)
    {
      SeededIffExplored(pieces, s, e);
    }
    assert forall i :: 0 <= i < |steps| ==> StepPrepared(steps[i], runs[i], lo, hi, pieces[i]);
    if steps == [] || lo >= hi {
      assert forall i :: 0 <= i < |steps| ==> pieces[i].ps == {};
      forall s: nat, e: nat
        ensures !Reach(pieces, |pieces|, s, e)
      {
        NothingWithoutSteps(pieces, s, e);
      }
      return map[];
    }
    active := SeedActive(steps, runs, lo, hi, pieces);
    SeedsInside(active, pieces, lo, hi);
    var k := 1;
    while k < |steps| && active != map[]
      invariant 1 <= k <= |steps|
      invariant forall s: nat, e: nat :: In(active, s, e) <==> Reach(pieces, k, s, e)
      invariant Inside(active, lo, hi) && NonEmptyEntries(active) && DistinctStarts(active)
    {
      active := StepActive(steps[k], runs[k], lo, hi, active, pieces, k);
      k := k + 1;
    }
    if active == map[] {
      forall s: nat, e: nat
        ensures !Reach(pieces, |pieces|, s, e)
      {
        assert forall x, y :: Reach(pieces, k, x, y) ==> In(active, x, y);
        ReachNothing(pieces, k, |pieces|, s, e);
      }
    }
  }
}
