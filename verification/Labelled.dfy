// crates/montre-query/src/executor.rs: run_sequence_steps_labeled. The same propagation,
// with each partial match carrying the captures of the labelled pieces it went through.
// Partial matches with equal end and start are collapsed to one of them, whichever the
// unstable sort puts first.
module Labelled {
  import opened Core
  import opened Runs
  import opened Sequence
  import opened Engine

  type Captures = seq<(string, Span)>

  datatype ActiveMatch = ActiveMatch(start: nat, captures: Captures)

  type LabelledActive = map<nat, seq<ActiveMatch>>

  function Capture(step: Step, a: nat, b: nat): Captures {
    if step.capture.Some? then [(step.capture.value, Span(a, b))] else []
  }

  // The captures a cut determines: one per labelled step, in step order.
  ghost function CapturesOf(steps: seq<Step>, cs: seq<nat>, k: nat): Captures
    requires k <= |steps| && k < |cs|
  {
    if k == 0 then [] else CapturesOf(steps, cs, k - 1) + Capture(steps[k - 1], cs[k - 1], cs[k])
  }

  lemma CapturesPrefix(steps: seq<Step>, cs: seq<nat>, e: nat, k: nat)
    requires k <= |steps| && k < |cs|
    ensures CapturesOf(steps, cs + [e], k) == CapturesOf(steps, cs, k)
  {
    if k > 0 {
      CapturesPrefix(steps, cs, e, k - 1);
    }
  }

  // m is justified by a genuine cut of the first k steps that ends at e.
  ghost predicate Justified(steps: seq<Step>, pieces: seq<Piece>, k: nat, e: nat, m: ActiveMatch)
    requires |steps| == |pieces|
  {
    exists cs :: JustifiedBy(steps, pieces, k, e, m, cs)
  }

  ghost predicate JustifiedBy(steps: seq<Step>, pieces: seq<Piece>, k: nat, e: nat, m: ActiveMatch, cs: seq<nat>)
    requires |steps| == |pieces|
  {
    Trace(pieces, k, cs) && cs[0] == m.start && cs[k] == e && m.captures == CapturesOf(steps, cs, k)
  }

  ghost predicate Holds(a: LabelledActive, e: nat, m: ActiveMatch) {
    e in a && m in a[e]
  }

  ghost predicate HasStart(a: LabelledActive, s: nat, e: nat) {
    exists m :: Holds(a, e, m) && m.start == s
  }

  ghost predicate AllJustified(a: LabelledActive, steps: seq<Step>, pieces: seq<Piece>, k: nat)
    requires |steps| == |pieces|
  {
    forall e: nat, m :: Holds(a, e, m) ==> Justified(steps, pieces, k, e, m)
  }

  ghost predicate AllReached(a: LabelledActive, pieces: seq<Piece>, k: nat) {
    forall s: nat, e: nat :: Reach(pieces, k, s, e) ==> HasStart(a, s, e)
  }

  ghost predicate DistinctByStart(ms: seq<ActiveMatch>) {
    forall i, j :: 0 <= i < j < |ms| ==> ms[i].start != ms[j].start
  }

  ghost predicate EntriesDistinct(a: LabelledActive) {
    forall e :: e in a ==> DistinctByStart(a[e])
  }

  ghost predicate EntriesFilled(a: LabelledActive) {
    forall e :: e in a ==> a[e] != []
  }

  lemma JustifiedReaches(a: LabelledActive, steps: seq<Step>, pieces: seq<Piece>, k: nat, s: nat, e: nat)
    requires |steps| == |pieces| && AllJustified(a, steps, pieces, k) && AllReached(a, pieces, k)
    ensures HasStart(a, s, e) <==> Reach(pieces, k, s, e)
  {
    if HasStart(a, s, e) {
      var m :| Holds(a, e, m) && m.start == s;
      var cs :| JustifiedBy(steps, pieces, k, e, m, cs);
    }
  }

  lemma JustifyFirst(steps: seq<Step>, pieces: seq<Piece>, s: nat, e: nat)
    requires |steps| == |pieces| > 0 && Reach(pieces, 1, s, e)
    ensures Justified(steps, pieces, 1, e, ActiveMatch(s, Capture(steps[0], s, e)))
  {
    ReachFirst(pieces, s, e);
    var cs := [s, e];
    assert CapturesOf(steps, cs, 0) == [];
    assert JustifiedBy(steps, pieces, 1, e, ActiveMatch(s, Capture(steps[0], s, e)), cs);
  }

  lemma JustifyNext(steps: seq<Step>, pieces: seq<Piece>, k: nat, m: ActiveMatch, at: nat, e: nat)
    requires |steps| == |pieces| && 1 <= k < |pieces|
    requires Justified(steps, pieces, k, at, m) && PieceFits(pieces[k], at, e)
    ensures Justified(steps, pieces, k + 1, e, Extend(steps[k], m, at, e))
  {
    var cs :| JustifiedBy(steps, pieces, k, at, m, cs);
    CapturesPrefix(steps, cs, e, k);
    assert JustifiedBy(steps, pieces, k + 1, e, Extend(steps[k], m, at, e), cs + [e]);
  }

  function MatchesAt(a: LabelledActive, e: nat): seq<ActiveMatch> {
    if e in a then a[e] else []
  }

  function PushMatch(a: LabelledActive, e: nat, m: ActiveMatch): (r: LabelledActive)
    ensures forall y: nat, x :: Holds(r, y, x) <==> Holds(a, y, x) || (x == m && y == e)
  {
    a[e := MatchesAt(a, e) + [m]]
  }

  function Extend(step: Step, m: ActiveMatch, at: nat, e: nat): ActiveMatch {
    ActiveMatch(m.start, m.captures + Capture(step, at, e))
  }

  ghost predicate ExtendsOne(step: Step, ms: seq<ActiveMatch>, at: nat, e: nat, x: ActiveMatch) {
    exists m :: m in ms && x == Extend(step, m, at, e)
  }

  lemma ExtendsOneMore(step: Step, ms: seq<ActiveMatch>, at: nat, e: nat, i: nat)
    requires i < |ms|
    ensures forall x :: ExtendsOne(step, ms[..i + 1], at, e, x) <==>
      (ExtendsOne(step, ms[..i], at, e, x) || x == Extend(step, ms[i], at, e))
  {
    assert ms[..i + 1] == ms[..i] + [ms[i]];
    forall x
      ensures ExtendsOne(step, ms[..i + 1], at, e, x) <==>
        (ExtendsOne(step, ms[..i], at, e, x) || x == Extend(step, ms[i], at, e))
    {
      if ExtendsOne(step, ms[..i], at, e, x) {
        var m :| m in ms[..i] && x == Extend(step, m, at, e);
        assert m in ms[..i + 1];
      }
      if x == Extend(step, ms[i], at, e) {
        assert ms[i] in ms[..i + 1];
      }
    }
  }

  method PushExtended(a: LabelledActive, step: Step, ms: seq<ActiveMatch>, at: nat, e: nat)
    returns (r: LabelledActive)
    ensures forall y: nat, x :: Holds(r, y, x) <==> Holds(a, y, x) || (y == e && ExtendsOne(step, ms, at, e, x))
    ensures EntriesFilled(a) ==> EntriesFilled(r)
  {
    r := a;
    for i := 0 to |ms|
      invariant forall y: nat, x :: Holds(r, y, x) <==>
        Holds(a, y, x) || (y == e && ExtendsOne(step, ms[..i], at, e, x))
      invariant EntriesFilled(a) ==> EntriesFilled(r)
    {
      ExtendsOneMore(step, ms, at, e, i);
      r := PushMatch(r, e, Extend(step, ms[i], at, e));
    }
    assert ms[..|ms|] == ms;
  }

  ghost predicate StartIn(ms: seq<ActiveMatch>, s: nat) {
    exists m :: m in ms && m.start == s
  }

  // Another match with the same start takes a place.
  lemma Replaced(r: seq<ActiveMatch>, j: nat, m: ActiveMatch)
    requires DistinctByStart(r) && j < |r| && r[j].start == m.start
    ensures DistinctByStart(r[j := m])
    ensures forall x :: x in r[j := m] ==> x in r || x == m
    ensures forall s :: StartIn(r, s) ==> StartIn(r[j := m], s)
  {
    forall s | StartIn(r, s)
      ensures StartIn(r[j := m], s)
    {
      var x :| x in r && x.start == s;
      var n :| 0 <= n < |r| && r[n] == x;
      assert r[j := m][n] in r[j := m];
    }
  }

  lemma Appended(r: seq<ActiveMatch>, m: ActiveMatch)
    requires DistinctByStart(r) && forall j :: 0 <= j < |r| ==> r[j].start != m.start
    ensures DistinctByStart(r + [m]) && StartIn(r + [m], m.start)
    ensures forall s :: StartIn(r, s) ==> StartIn(r + [m], s)
  {
    assert m in r + [m];
  }

  // sort_unstable_by_key(start), dedup_by_key(start): one match per start survives, and
  // the contract does not say which.
  method CollapseByStart(ms: seq<ActiveMatch>) returns (r: seq<ActiveMatch>)
    ensures DistinctByStart(r)
    ensures forall m :: m in r ==> m in ms
    ensures forall m :: m in ms ==> StartIn(r, m.start)
    ensures ms != [] ==> r != []
  {
    r := [];
    for i := 0 to |ms|
      invariant DistinctByStart(r)
      invariant forall m :: m in r ==> m in ms
      invariant forall j :: 0 <= j < i ==> StartIn(r, ms[j].start)
      invariant i > 0 ==> r != []
    {
      if j :| 0 <= j < |r| && r[j].start == ms[i].start {
        assert r[j] in r && StartIn(r, ms[i].start);
        Replaced(r, j, ms[i]);
        if * {
          r := r[j := ms[i]];
        }
      } else {
        Appended(r, ms[i]);
        r := r + [ms[i]];
      }
    }
  }

  // for matches in next_active.values_mut()
  method CollapseEntries(a: LabelledActive) returns (r: LabelledActive)
    ensures EntriesDistinct(r)
    ensures forall e: nat, m :: Holds(r, e, m) ==> Holds(a, e, m)
    ensures forall s: nat, e: nat :: HasStart(a, s, e) ==> HasStart(r, s, e)
    ensures EntriesFilled(a) ==> EntriesFilled(r)
  {
    r := map[];
    var todo := a.Keys;
    while todo != {}
      invariant todo <= a.Keys && r.Keys == a.Keys - todo
      invariant EntriesDistinct(r)
      invariant forall e: nat, m :: Holds(r, e, m) ==> Holds(a, e, m)
      invariant forall e: nat, m :: e in r && Holds(a, e, m) ==> HasStart(r, m.start, e)
      invariant EntriesFilled(a) ==> EntriesFilled(r)
    {
      var e :| e in todo;
      var collapsed := CollapseByStart(a[e]);
      ghost var before := r;
      r := r[e := collapsed];
      todo := todo - {e};
      forall y: nat, m | y in r && Holds(a, y, m)
        ensures HasStart(r, m.start, y)
      {
        if y == e {
          var x :| x in collapsed && x.start == m.start;
          assert Holds(r, y, x);
        } else {
          var x :| Holds(before, y, x) && x.start == m.start;
          assert Holds(r, y, x);
        }
      }
    }
  }

  method SeedLabelled(steps: seq<Step>, runs: seq<seq<Run>>, ghost lo: nat, ghost hi: nat, ghost pieces: seq<Piece>)
    returns (active: LabelledActive)
    requires steps != [] && Prepared(steps, runs, lo, hi, pieces)
    ensures AllJustified(active, steps, pieces, 1) && AllReached(active, pieces, 1)
    ensures EntriesFilled(active) && EntriesDistinct(active)
  {
    assert StepPrepared(steps[0], runs[0], lo, hi, pieces[0]);
    var spans := SpansForQuantifier(runs[0], steps[0].min, steps[0].max, pieces[0].ps);
    active := map[];
    for i := 0 to |spans|
      invariant forall e: nat, m :: Holds(active, e, m) <==>
        (m.start, e) in spans[..i] && m == ActiveMatch(m.start, Capture(steps[0], m.start, e))
      invariant EntriesFilled(active) && EntriesDistinct(active)
    {
      assert spans[..i + 1] == spans[..i] + [spans[i]];
      assert (spans[i].0, spans[i].1) !in spans[..i];
      var m := ActiveMatch(spans[i].0, Capture(steps[0], spans[i].0, spans[i].1));
      FreshStart(active, spans[i].1, m);
      active := PushMatch(active, spans[i].1, m);
    }
    assert spans[..|spans|] == spans;
    ghost var first := active;
    if steps[0].min == 0 && |steps| > 1 {
      assert StepPrepared(steps[1], runs[1], lo, hi, pieces[1]);
      var next := runs[1];
      for i := 0 to |next|
        invariant forall e: nat, m :: Holds(active, e, m) <==>
          (Holds(first, e, m)
           || (m == ActiveMatch(e, Capture(steps[0], e, e)) && exists j :: 0 <= j < i && next[j].start == e))
        invariant EntriesFilled(active) && EntriesDistinct(active)
      {
        var p := next[i].start;
        var m := ActiveMatch(p, Capture(steps[0], p, p));
        assert (p, p) !in spans;
        assert forall j :: 0 <= j < i ==> next[j].start < p;
        FreshStart(active, p, m);
        active := PushMatch(active, p, m);
      }
    }
    forall s: nat, e: nat
      ensures Holds(active, e, ActiveMatch(s, Capture(steps[0], s, e))) <==> Reach(pieces, 1, s, e)
    {
      ReachFirst(pieces, s, e);
      if |steps| > 1 {
        assert StepPrepared(steps[1], runs[1], lo, hi, pieces[1]);
        RunStarts(runs[1], pieces[1].ps, s);
      }
    }
    FirstJustified(active, steps, pieces);
  }

  lemma FreshStart(a: LabelledActive, e: nat, m: ActiveMatch)
    requires EntriesDistinct(a) && forall x :: Holds(a, e, x) ==> x.start != m.start
    ensures EntriesDistinct(PushMatch(a, e, m))
  {
    assert forall i :: 0 <= i < |MatchesAt(a, e)| ==> Holds(a, e, MatchesAt(a, e)[i]);
  }

  lemma FirstJustified(active: LabelledActive, steps: seq<Step>, pieces: seq<Piece>)
    requires |steps| == |pieces| > 0
    requires forall e: nat, m :: Holds(active, e, m) ==> m == ActiveMatch(m.start, Capture(steps[0], m.start, e))
    requires forall s: nat, e: nat ::
      Holds(active, e, ActiveMatch(s, Capture(steps[0], s, e))) <==> Reach(pieces, 1, s, e)
    ensures AllJustified(active, steps, pieces, 1) && AllReached(active, pieces, 1)
  {
    forall e: nat, m | Holds(active, e, m)
      ensures Justified(steps, pieces, 1, e, m)
    {
      JustifyFirst(steps, pieces, m.start, e);
    }
  }

  method AdvanceLabelled(step: Step, runs: seq<Run>, lo: nat, hi: nat, ghost piece: Piece,
                         at: nat, ms: seq<ActiveMatch>, next: LabelledActive)
    returns (r: LabelledActive)
    requires StepPrepared(step, runs, lo, hi, piece) && lo <= at <= hi
    requires EntriesFilled(next)
    ensures forall e: nat, x :: Holds(r, e, x) <==>
      Holds(next, e, x) || (PieceFits(piece, at, e) && ExtendsOne(step, ms, at, e, x))
    ensures EntriesFilled(r)
  {
    r := next;
    if step.min == 0 {
      r := PushExtended(r, step, ms, at, at);
    }
    var ends := Extensions(step, runs, lo, hi, piece, at);
    ghost var base := r;
    for i := 0 to |ends|
      invariant forall e: nat, x :: Holds(r, e, x) <==>
        Holds(base, e, x) || (e in ends[..i] && ExtendsOne(step, ms, at, e, x))
      invariant EntriesFilled(r)
    {
      assert ends[..i + 1] == ends[..i] + [ends[i]];
      r := PushExtended(r, step, ms, at, ends[i]);
    }
    assert ends[..|ends|] == ends;
  }

  ghost predicate ReachesInside(pieces: seq<Piece>, k: nat, lo: nat, hi: nat) {
    forall s: nat, e: nat :: Reach(pieces, k, s, e) ==> lo <= s <= e <= hi
  }

  method StepLabelled(steps: seq<Step>, runs: seq<Run>, lo: nat, hi: nat, active: LabelledActive,
                      ghost pieces: seq<Piece>, k: nat)
    returns (next: LabelledActive)
    requires |steps| == |pieces| && 1 <= k < |pieces| && StepPrepared(steps[k], runs, lo, hi, pieces[k])
    requires AllJustified(active, steps, pieces, k) && AllReached(active, pieces, k)
    requires ReachesInside(pieces, k, lo, hi) && EntriesFilled(active)
    ensures AllJustified(next, steps, pieces, k + 1) && AllReached(next, pieces, k + 1)
    ensures EntriesFilled(next) && EntriesDistinct(next)
  {
    next := map[];
    var todo := active.Keys;
    while todo != {}
      invariant todo <= active.Keys
      invariant forall e: nat, x :: Holds(next, e, x) <==> exists at ::
        at in active.Keys - todo && PieceFits(pieces[k], at, e) && ExtendsOne(steps[k], active[at], at, e, x)
      invariant EntriesFilled(next)
    {
      var at :| at in todo;
      assert Holds(active, at, active[at][0]);
      JustifiedReaches(active, steps, pieces, k, active[at][0].start, at);
      next := AdvanceLabelled(steps[k], runs, lo, hi, pieces[k], at, active[at], next);
      todo := todo - {at};
    }
    StepJustified(steps, pieces, k, active, next);
    next := CollapseEntries(next);
  }

  lemma StepJustified(steps: seq<Step>, pieces: seq<Piece>, k: nat, active: LabelledActive, next: LabelledActive)
    requires |steps| == |pieces| && 1 <= k < |pieces|
    requires AllJustified(active, steps, pieces, k) && AllReached(active, pieces, k)
    requires forall e: nat, x :: Holds(next, e, x) <==> exists at ::
      at in active.Keys && PieceFits(pieces[k], at, e) && ExtendsOne(steps[k], active[at], at, e, x)
    ensures AllJustified(next, steps, pieces, k + 1) && AllReached(next, pieces, k + 1)
  {
    forall e: nat, x | Holds(next, e, x)
      ensures Justified(steps, pieces, k + 1, e, x)
    {
      var at :| at in active.Keys && PieceFits(pieces[k], at, e) && ExtendsOne(steps[k], active[at], at, e, x);
      var m :| m in active[at] && x == Extend(steps[k], m, at, e);
      assert Holds(active, at, m);
      JustifyNext(steps, pieces, k, m, at, e);
    }
    forall s: nat, e: nat | Reach(pieces, k + 1, s, e)
      ensures HasStart(next, s, e)
    {
      ReachNext(pieces, k, s, e);
      var at :| ReachVia(pieces, k, s, at, e);
      var m :| Holds(active, at, m) && m.start == s;
      assert ExtendsOne(steps[k], active[at], at, e, Extend(steps[k], m, at, e));
      assert Holds(next, e, Extend(steps[k], m, at, e));
    }
  }

  lemma ReachInside(pieces: seq<Piece>, k: nat, lo: nat, hi: nat)
    requires 1 <= k <= |pieces|
    requires forall i :: 0 <= i < |pieces| ==> pieces[i].ps <= RangeSet(lo, hi)
    ensures ReachesInside(pieces, k, lo, hi)
  {
    if k == 1 {
      forall s: nat, e: nat | Reach(pieces, 1, s, e)
        ensures lo <= s <= e <= hi
      {
        ReachFirst(pieces, s, e);
        assert if s < e then s in pieces[0].ps && e - 1 in pieces[0].ps else s in pieces[1].ps;
      }
    } else {
      ReachInside(pieces, k - 1, lo, hi);
      forall s: nat, e: nat | Reach(pieces, k, s, e)
        ensures lo <= s <= e <= hi
      {
        ReachNext(pieces, k - 1, s, e);
        var m: nat :| ReachVia(pieces, k - 1, s, m, e);
        assert m < e ==> e - 1 in pieces[k - 1].ps;
      }
    }
  }

  lemma ReachedExplored(active: LabelledActive, steps: seq<Step>, pieces: seq<Piece>)
    requires |steps| == |pieces| && AllJustified(active, steps, pieces, |pieces|) &&
      AllReached(active, pieces, |pieces|)
    ensures forall s: nat, e: nat :: s < e ==> (HasStart(active, s, e) <==> Explored(pieces, 0, s, e))
  {
    forall s: nat, e: nat | s < e
      ensures HasStart(active, s, e) <==> Explored(pieces, 0, s, e)
    {
      JustifiedReaches(active, steps, pieces, |pieces|, s, e);
      SeededIffExplored(pieces, s, e);
    }
  }

  // The capture-tracking path reaches the same (start, end) pairs, each once, and every
  // capture list it keeps is the one of a genuine cut for that pair.
  method RunLabelled(steps: seq<Step>, runs: seq<seq<Run>>, lo: nat, hi: nat, ghost pieces: seq<Piece>)
    returns (active: LabelledActive)
    requires Prepared(steps, runs, lo, hi, pieces)
    ensures AllJustified(active, steps, pieces, |pieces|)
    ensures AllReached(active, pieces, |pieces|)
    ensures forall s: nat, e: nat :: s < e ==> (HasStart(active, s, e) <==> Explored(pieces, 0, s, e))
    ensures EntriesDistinct(active)
  {
    assert forall i :: 0 <= i < |steps| ==> StepPrepared(steps[i], runs[i], lo, hi, pieces[i]);
    if steps == [] || lo >= hi {
      assert forall i :: 0 <= i < |steps| ==> pieces[i].ps == {};
      forall s: nat, e: nat
        ensures !Reach(pieces, |pieces|, s, e)
      {
        NothingWithoutSteps(pieces, s, e);
      }
      active := map[];
      ReachedExplored(active, steps, pieces);
      return;
    }
    active := SeedLabelled(steps, runs, lo, hi, pieces);
    var k := 1;
    while k < |steps| && active != map[]
      invariant 1 <= k <= |steps|
      invariant AllJustified(active, steps, pieces, k) && AllReached(active, pieces, k)
      invariant EntriesFilled(active) && EntriesDistinct(active)
    {
      ReachInside(pieces, k, lo, hi);
      active := StepLabelled(steps, runs[k], lo, hi, active, pieces, k);
      k := k + 1;
    }
    if active == map[] {
      forall s: nat, e: nat
        ensures !Reach(pieces, |pieces|, s, e)
      {
        assert forall x: nat, y: nat :: !HasStart(active, x, y);
        ReachNothing(pieces, k, |pieces|, s, e);
      }
    }
    ReachedExplored(active, steps, pieces);
  }
}
