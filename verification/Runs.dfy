// crates/montre-query/src/executor.rs: RunIndex. A set of token positions is compressed
// into maximal runs, and quantified pieces are read off the runs.
module Runs {
  import opened Core

  const MAX_QUANTIFIER: nat := 100

  datatype Run = Run(start: nat, end: nat)

  function MaxLen(max: Option<nat>): nat {
    Min(if max.Some? then max.value else MAX_QUANTIFIER, MAX_QUANTIFIER)
  }

  // The declarative reading of one quantified step over a position set: [a, b) is made
  // of positions of ps and has a permitted length.
  ghost predicate Fits(ps: set<nat>, min: nat, max: Option<nat>, a: nat, b: nat) {
    && a <= b
    && min <= b - a <= MaxLen(max)
    && Covered(ps, a, b)
  }

  ghost predicate Covered(ps: set<nat>, a: nat, b: nat) {
    forall p :: a <= p < b ==> p in ps
  }

  // All positions of [lo, hi).
  function RangeSet(lo: nat, hi: nat): (r: set<nat>)
    ensures forall p: nat :: p in r <==> lo <= p < hi
    decreases hi - lo
  {
    if lo >= hi then {} else {lo} + RangeSet(lo + 1, hi)
  }

  // A position of ps whose predecessor is not one.
  ghost predicate RunStart(ps: set<nat>, p: nat) {
    p in ps && (p == 0 || p - 1 !in ps)
  }

  // Non-empty runs separated by gaps, hence maximal.
  ghost predicate Separated(runs: seq<Run>) {
    && (forall i :: 0 <= i < |runs| ==> runs[i].start < runs[i].end)
    && (forall i, j :: 0 <= i < j < |runs| ==> runs[i].end < runs[j].start)
  }

  ghost predicate InRuns(runs: seq<Run>, p: nat) {
    exists i :: 0 <= i < |runs| && runs[i].start <= p < runs[i].end
  }

  ghost predicate Represents(runs: seq<Run>, ps: set<nat>) {
    && Separated(runs)
    && (forall p: nat :: p in ps <==> InRuns(runs, p))
  }

  lemma RunEdges(runs: seq<Run>, ps: set<nat>, i: nat)
    requires Represents(runs, ps) && i < |runs|
    ensures Covered(ps, runs[i].start, runs[i].end)
    ensures runs[i].end !in ps
    ensures RunStart(ps, runs[i].start)
  {
    forall p | runs[i].start <= p < runs[i].end
      ensures p in ps
    {
      assert InRuns(runs, p);
    }
    assert !InRuns(runs, runs[i].end);
    assert InRuns(runs, runs[i].start);
    var s := runs[i].start;
    assert s > 0 ==> !InRuns(runs, s - 1);
  }

  // From inside run i, covered stretches are exactly the ones that end inside run i.
  lemma CoveredFrom(runs: seq<Run>, ps: set<nat>, i: nat, a: nat, b: nat)
    requires Represents(runs, ps) && i < |runs| && runs[i].start <= a < runs[i].end && a <= b
    ensures Covered(ps, a, b) <==> b <= runs[i].end
  {
    RunEdges(runs, ps, i);
    if b > runs[i].end {
      assert a <= runs[i].end < b;
    }
  }

  // The run starts are exactly the positions of ps without a predecessor in ps.
  lemma RunStarts(runs: seq<Run>, ps: set<nat>, p: nat)
    requires Represents(runs, ps)
    ensures RunStart(ps, p) <==> exists i :: 0 <= i < |runs| && runs[i].start == p
  {
    if RunStart(ps, p) {
      var i :| 0 <= i < |runs| && runs[i].start <= p < runs[i].end;
      RunEdges(runs, ps, i);
      assert forall q: nat :: runs[i].start <= q < p ==> InRuns(runs, q);
    }
    if i :| 0 <= i < |runs| && runs[i].start == p {
      RunEdges(runs, ps, i);
    }
  }

  ghost predicate StrictlySorted(s: seq<nat>) {
    forall i, j :: 0 <= i < j < |s| ==> s[i] < s[j]
  }

  function InsertSorted(s: seq<nat>, x: nat): (r: seq<nat>)
    requires StrictlySorted(s)
    ensures StrictlySorted(r)
    ensures forall y :: y in r <==> y in s || y == x
  {
    if s == [] then [x]
    else if x < s[0] then [x] + s
    else if x == s[0] then s
    else
      assert s == [s[0]] + s[1..];
      var rest := InsertSorted(s[1..], x);
      assert forall y :: y in rest ==> s[0] < y;
      var r := [s[0]] + rest;
      assert forall i :: 1 <= i < |r| ==> r[i] == rest[i - 1] && r[i] in rest;
      r
  }

  // sort_unstable followed by dedup.
  function SortDedup(s: seq<nat>): (r: seq<nat>)
    ensures StrictlySorted(r)
    ensures forall y :: y in r <==> y in s
    ensures s != [] ==> r != []
  {
    if s == [] then []
    else
      assert s[|s| - 1] in s;
      assert s == s[..|s| - 1] + [s[|s| - 1]];
      InsertSorted(SortDedup(s[..|s| - 1]), s[|s| - 1])
  }

  // The runs, together with the run [open, prev] still being extended, cover sorted[..k].
  ghost predicate Scanned(runs: seq<Run>, sorted: seq<nat>, k: nat, open: nat, prev: nat) {
    && 0 < k <= |sorted|
    && open <= prev == sorted[k - 1]
    && Represents(runs + [Run(open, prev + 1)], Elements(sorted[..k]))
  }

  lemma GrowLast(runs: seq<Run>, open: nat, prev: nat, ps: set<nat>)
    requires open <= prev && Represents(runs + [Run(open, prev + 1)], ps)
    ensures Represents(runs + [Run(open, prev + 2)], ps + {prev + 1})
  {
    var before, after := runs + [Run(open, prev + 1)], runs + [Run(open, prev + 2)];
    assert forall i :: 0 <= i < |runs| ==> before[i] == after[i];
    assert before[|runs|] == Run(open, prev + 1) && after[|runs|] == Run(open, prev + 2);
    forall p: nat
      ensures p in ps + {prev + 1} <==> InRuns(after, p)
    {
      if InRuns(before, p) {
        var i :| 0 <= i < |before| && before[i].start <= p < before[i].end;
        assert after[i].start <= p < after[i].end;
      }
      if InRuns(after, p) && p != prev + 1 {
        var i :| 0 <= i < |after| && after[i].start <= p < after[i].end;
        assert before[i].start <= p < before[i].end;
      }
    }
  }

  lemma AddSingleton(runs: seq<Run>, p: nat, ps: set<nat>)
    requires Represents(runs, ps)
    requires forall i :: 0 <= i < |runs| ==> runs[i].end < p
    ensures Represents(runs + [Run(p, p + 1)], ps + {p})
  {
    var after := runs + [Run(p, p + 1)];
    assert forall i :: 0 <= i < |runs| ==> runs[i] == after[i];
    assert after[|runs|] == Run(p, p + 1);
    forall q: nat
      ensures q in ps + {p} <==> InRuns(after, q)
    {
      if InRuns(runs, q) {
        var i :| 0 <= i < |runs| && runs[i].start <= q < runs[i].end;
        assert after[i].start <= q < after[i].end;
      }
      if InRuns(after, q) && q != p {
        var i :| 0 <= i < |after| && after[i].start <= q < after[i].end;
        assert runs[i].start <= q < runs[i].end;
      }
    }
  }

  lemma ScanFirst(sorted: seq<nat>)
    requires sorted != []
    ensures Scanned([], sorted, 1, sorted[0], sorted[0])
  {
    AddSingleton([], sorted[0], {});
    assert Elements(sorted[..1]) == {} + {sorted[0]};
  }

  lemma ScanExtend(runs: seq<Run>, sorted: seq<nat>, k: nat, open: nat, prev: nat)
    requires k < |sorted| && Scanned(runs, sorted, k, open, prev) && sorted[k] == prev + 1
    ensures Scanned(runs, sorted, k + 1, open, sorted[k])
  {
    assert sorted[..k + 1] == sorted[..k] + [sorted[k]];
    GrowLast(runs, open, prev, Elements(sorted[..k]));
    assert Elements(sorted[..k + 1]) == Elements(sorted[..k]) + {sorted[k]};
  }

  lemma ScanBreak(runs: seq<Run>, sorted: seq<nat>, k: nat, open: nat, prev: nat)
    requires k < |sorted| && Scanned(runs, sorted, k, open, prev) && sorted[k] > prev + 1
    ensures Scanned(runs + [Run(open, prev + 1)], sorted, k + 1, sorted[k], sorted[k])
  {
    assert sorted[..k + 1] == sorted[..k] + [sorted[k]];
    var closed := runs + [Run(open, prev + 1)];
    assert closed[|runs|] == Run(open, prev + 1);
    AddSingleton(closed, sorted[k], Elements(sorted[..k]));
    assert Elements(sorted[..k + 1]) == Elements(sorted[..k]) + {sorted[k]};
  }

  lemma ScanDone(runs: seq<Run>, sorted: seq<nat>, open: nat, prev: nat, positions: seq<nat>)
    requires Scanned(runs, sorted, |sorted|, open, prev)
    requires forall y :: y in sorted <==> y in positions
    ensures Represents(runs + [Run(open, prev + 1)], Elements(positions))
  {
    assert sorted[..|sorted|] == sorted;
    assert Elements(sorted) == Elements(positions);
  }

  // RunIndex::from_positions: one pass over the sorted positions, closing a run at every gap.
  method FromPositions(positions: seq<nat>) returns (runs: seq<Run>)
    ensures Represents(runs, Elements(positions))
  {
    runs := [];
    if positions == [] {
      return;
    }
    var sorted := SortDedup(positions);
    var runStart, prev := sorted[0], sorted[0];
    ScanFirst(sorted);
    for k := 1 to |sorted|
      invariant Scanned(runs, sorted, k, runStart, prev)
    {
      var pos := sorted[k];
      if pos == prev + 1 {
        ScanExtend(runs, sorted, k, runStart, prev);
        prev := pos;
      } else {
        ScanBreak(runs, sorted, k, runStart, prev);
        runs := runs + [Run(runStart, prev + 1)];
        runStart := pos;
        prev := pos;
      }
    }
    ScanDone(runs, sorted, runStart, prev, positions);
    runs := runs + [Run(runStart, prev + 1)];
  }

  ghost predicate LexBefore(x: (nat, nat), y: (nat, nat)) {
    x.0 < y.0 || (x.0 == y.0 && x.1 < y.1)
  }

  ghost predicate LexSorted(s: seq<(nat, nat)>) {
    forall i, j :: 0 <= i < j < |s| ==> LexBefore(s[i], s[j])
  }

  // [a, b) is a non-empty piece of this run with a length between minLen and maxLen.
  ghost predicate PieceOf(run: Run, minLen: nat, maxLen: nat, a: nat, b: nat) {
    run.start <= a < b <= run.end && minLen <= b - a <= maxLen
  }

  ghost predicate PieceOfSome(runs: seq<Run>, minLen: nat, maxLen: nat, a: nat, b: nat) {
    exists i :: 0 <= i < |runs| && PieceOf(runs[i], minLen, maxLen, a, b)
  }

  lemma PiecesFit(runs: seq<Run>, ps: set<nat>, min: nat, max: Option<nat>, a: nat, b: nat)
    requires Represents(runs, ps)
    ensures PieceOfSome(runs, Max(min, 1), MaxLen(max), a, b) <==> a < b && Fits(ps, min, max, a, b)
  {
    if i :| 0 <= i < |runs| && PieceOf(runs[i], Max(min, 1), MaxLen(max), a, b) {
      CoveredFrom(runs, ps, i, a, b);
    }
    if a < b && Fits(ps, min, max, a, b) {
      assert InRuns(runs, a);
      var i :| 0 <= i < |runs| && runs[i].start <= a < runs[i].end;
      CoveredFrom(runs, ps, i, a, b);
      assert PieceOf(runs[i], Max(min, 1), MaxLen(max), a, b);
    }
  }

  // The pieces of one run, starts ascending and lengths ascending for each start.
  method SpansOfRun(run: Run, minLen: nat, maxLen: nat) returns (spans: seq<(nat, nat)>)
    requires run.start < run.end && 1 <= minLen
    ensures LexSorted(spans)
    ensures forall a: nat, b: nat :: (a, b) in spans <==> PieceOf(run, minLen, maxLen, a, b)
  {
    spans := [];
    if run.end - run.start < minLen {
      return;
    }
    var maxStart := run.end - minLen;
    for spanStart := run.start to maxStart + 1
      invariant LexSorted(spans)
      invariant forall a: nat, b: nat :: (a, b) in spans <==> PieceOf(run, minLen, maxLen, a, b) && a < spanStart
    {
      var spanMax := Min(run.end - spanStart, maxLen);
      var spanLen := minLen;
      while spanLen <= spanMax
        invariant minLen <= spanLen
        invariant LexSorted(spans)
        invariant forall a: nat, b: nat :: (a, b) in spans <==>
          PieceOf(run, minLen, maxLen, a, b) && LexBefore((a, b), (spanStart, spanStart + spanLen))
      {
        assert forall i :: 0 <= i < |spans| ==> spans[i] in spans && spans[i] == (spans[i].0, spans[i].1);
        spans := spans + [(spanStart, spanStart + spanLen)];
        spanLen := spanLen + 1;
      }
    }
  }

  method SpansForQuantifier(runs: seq<Run>, min: nat, max: Option<nat>, ghost ps: set<nat>)
    returns (spans: seq<(nat, nat)>)
    requires Represents(runs, ps)
    ensures LexSorted(spans)
    ensures forall a: nat, b: nat :: (a, b) in spans <==> a < b && Fits(ps, min, max, a, b)
  {
    var maxLen := MaxLen(max);
    var minLen := Max(min, 1);
    spans := [];
    for i := 0 to |runs|
      invariant LexSorted(spans)
      invariant forall a: nat, b: nat :: (a, b) in spans <==> PieceOfSome(runs[..i], minLen, maxLen, a, b)
    {
      var more := SpansOfRun(runs[i], minLen, maxLen);
      JoinSpans(runs, i, minLen, maxLen, spans, more);
      spans := spans + more;
    }
    assert runs[..|runs|] == runs;
    forall a: nat, b: nat
      ensures (a, b) in spans <==> a < b && Fits(ps, min, max, a, b)
    {
      PiecesFit(runs, ps, min, max, a, b);
    }
  }

  lemma JoinSpans(runs: seq<Run>, i: nat, minLen: nat, maxLen: nat,
                  spans: seq<(nat, nat)>, more: seq<(nat, nat)>)
    requires Separated(runs) && i < |runs|
    requires LexSorted(spans) && LexSorted(more)
    requires forall a: nat, b: nat :: (a, b) in spans <==> PieceOfSome(runs[..i], minLen, maxLen, a, b)
    requires forall a: nat, b: nat :: (a, b) in more <==> PieceOf(runs[i], minLen, maxLen, a, b)
    ensures LexSorted(spans + more)
    ensures forall a: nat, b: nat :: (a, b) in spans + more <==> PieceOfSome(runs[..i + 1], minLen, maxLen, a, b)
  {
    forall x, y | x in spans && y in more
      ensures LexBefore(x, y)
    {
      assert (x.0, x.1) in spans && (y.0, y.1) in more;
    }
    assert runs[..i + 1] == runs[..i] + [runs[i]];
    forall a: nat, b: nat
      ensures (a, b) in spans + more <==> PieceOfSome(runs[..i + 1], minLen, maxLen, a, b)
    {
      if (a, b) in more {
        assert PieceOf(runs[..i + 1][i], minLen, maxLen, a, b);
      }
      if (a, b) in spans {
        var j :| 0 <= j < i && PieceOf(runs[..i][j], minLen, maxLen, a, b);
        assert PieceOf(runs[..i + 1][j], minLen, maxLen, a, b);
      }
      if PieceOfSome(runs[..i + 1], minLen, maxLen, a, b) {
        var j :| 0 <= j < |runs[..i + 1]| && PieceOf(runs[..i + 1][j], minLen, maxLen, a, b);
        if j < i {
          assert PieceOf(runs[..i][j], minLen, maxLen, a, b);
        }
      }
    }
  }

  // RunIndex::run_containing: partition_point on run ends, then one comparison.
  function RunContaining(runs: seq<Run>, pos: nat): (r: Option<nat>)
    requires Separated(runs)
    ensures r.Some? ==> r.value < |runs| && runs[r.value].start <= pos < runs[r.value].end
    ensures r.None? ==> !InRuns(runs, pos)
  {
    var idx := PartitionPoint(runs, (run: Run) => run.end <= pos, 0, |runs|);
    if idx < |runs| && runs[idx].start <= pos then Some(idx) else None
  }

  // Where a step can end when it begins at pos. Length 0 is offered only from inside a run.
  // From inside a run, the fitting ends are those that the rest of the run leaves.
  lemma EndsInRun(runs: seq<Run>, ps: set<nat>, i: nat, pos: nat, min: nat, max: Option<nat>, e: nat)
    requires Represents(runs, ps) && i < |runs| && runs[i].start <= pos < runs[i].end && pos <= e
    ensures Fits(ps, min, max, pos, e) <==> min <= e - pos <= Min(runs[i].end - pos, MaxLen(max))
  {
    CoveredFrom(runs, ps, i, pos, e);
  }

  method EndsFrom(pos: nat, min: nat, usable: int) returns (ends: seq<nat>)
    ensures forall e: nat :: e in ends <==> pos + min <= e && e - pos <= usable
  {
    ends := [];
    var len := min;
    while len <= usable
      invariant min <= len
      invariant forall e: nat :: e in ends <==> pos + min <= e < pos + len && e - pos <= usable
    {
      ends := ends + [pos + len];
      len := len + 1;
    }
  }

  method ContinuationsAt(runs: seq<Run>, pos: nat, min: nat, max: Option<nat>, ghost ps: set<nat>)
    returns (ends: seq<nat>)
    requires Represents(runs, ps)
    ensures forall e: nat :: e in ends <==> pos <= e && Fits(ps, min, max, pos, e) && pos in ps
  {
    var found := RunContaining(runs, pos);
    if found.None? {
      return [];
    }
    var run := runs[found.value];
    assert InRuns(runs, pos);
    forall e: nat | pos <= e
      ensures Fits(ps, min, max, pos, e) <==> min <= e - pos <= Min(run.end - pos, MaxLen(max))
    {
      EndsInRun(runs, ps, found.value, pos, min, max, e);
    }
    var available := run.end - pos;
    if available < min {
      return [];
    }
    ends := EndsFrom(pos, min, Min(available, MaxLen(max)));
  }

  // The same for a step that matches every token: bounded by the end of the range only.
  method SpansForScanAll(start: nat, min: nat, max: Option<nat>, tokenCount: nat) returns (ends: seq<nat>)
    ensures forall e: nat :: e in ends <==> start <= e <= tokenCount && min <= e - start <= MaxLen(max)
  {
    var maxLen := MaxLen(max);
    ends := [];
    var len := min;
    while len <= maxLen
      invariant min <= len
      invariant forall e: nat :: e in ends <==> start + min <= e < start + len && e <= tokenCount && e - start <= maxLen
    {
      var end := start + len;
      if end <= tokenCount {
        ends := ends + [end];
      } else {
        break;
      }
      len := len + 1;
    }
  }
}
