// The meaning of a sequence of quantified steps, independent of how it is computed:
// choose cut points so that each piece fits its step. The engine explores only the cuts
// it seeds, so seeded cuts are defined beside the declarative ones and compared here.
module Sequence {
  import opened Core
  import opened Runs

  datatype Piece = Piece(ps: set<nat>, min: nat, max: Option<nat>)

  ghost predicate PieceFits(p: Piece, a: nat, b: nat) {
    Fits(p.ps, p.min, p.max, a, b)
  }

  // cs[i] is where piece i begins and cs[i + 1] where it ends.
  ghost predicate IsCut(pieces: seq<Piece>, cs: seq<nat>) {
    && |cs| == |pieces| + 1
    && forall i :: 0 <= i < |pieces| ==> PieceFits(pieces[i], cs[i], cs[i + 1])
  }

  // The declarative meaning: the non-empty span [s, e) is cut into fitting pieces.
  ghost predicate Matches(pieces: seq<Piece>, s: nat, e: nat) {
    s < e && exists cs :: IsCut(pieces, cs) && cs[0] == s && cs[|pieces|] == e
  }

  // Where the engine may begin: with a non-empty first piece, or, when there is a second
  // step, with an empty first piece at a place where a run of the second step begins.
  ghost predicate SeededAt(pieces: seq<Piece>, a: nat, b: nat) {
    a < b || (|pieces| > 1 && RunStart(pieces[1].ps, a))
  }

  // The cut points of the first k pieces of a seeded exploration.
  ghost predicate Trace(pieces: seq<Piece>, k: nat, cs: seq<nat>) {
    && 1 <= k <= |pieces|
    && |cs| == k + 1
    && (forall i :: 0 <= i < k ==> PieceFits(pieces[i], cs[i], cs[i + 1]))
    && SeededAt(pieces, cs[0], cs[1])
  }

  ghost predicate Reach(pieces: seq<Piece>, k: nat, s: nat, e: nat) {
    exists cs :: Trace(pieces, k, cs) && cs[0] == s && cs[k] == e
  }

  // What the engine is proved to return: non-empty spans with a seeded cut.
  ghost predicate SeededMatch(pieces: seq<Piece>, s: nat, e: nat) {
    s < e && Reach(pieces, |pieces|, s, e)
  }

  lemma ReachFirst(pieces: seq<Piece>, s: nat, e: nat)
    requires pieces != []
    ensures Reach(pieces, 1, s, e) <==> PieceFits(pieces[0], s, e) && SeededAt(pieces, s, e)
  {
    if PieceFits(pieces[0], s, e) && SeededAt(pieces, s, e) {
      assert Trace(pieces, 1, [s, e]);
    }
  }

  ghost predicate ReachVia(pieces: seq<Piece>, k: nat, s: nat, m: nat, e: nat)
    requires k < |pieces|
  {
    Reach(pieces, k, s, m) && PieceFits(pieces[k], m, e)
  }

  lemma ReachNext(pieces: seq<Piece>, k: nat, s: nat, e: nat)
    requires 1 <= k < |pieces|
    ensures Reach(pieces, k + 1, s, e) <==> exists m :: ReachVia(pieces, k, s, m, e)
  {
    if Reach(pieces, k + 1, s, e) {
      var cs :| Trace(pieces, k + 1, cs) && cs[0] == s && cs[k + 1] == e;
      assert Trace(pieces, k, cs[..k + 1]);
      assert ReachVia(pieces, k, s, cs[k], e);
    }
    if m :| ReachVia(pieces, k, s, m, e) {
      var cs :| Trace(pieces, k, cs) && cs[0] == s && cs[k] == m;
      assert Trace(pieces, k + 1, cs + [e]);
    }
  }

  // Once nothing is reachable, nothing becomes reachable later.
  lemma ReachNothing(pieces: seq<Piece>, j: nat, k: nat, s: nat, e: nat)
    requires 1 <= j <= k <= |pieces|
    requires forall x, y :: !Reach(pieces, j, x, y)
    ensures !Reach(pieces, k, s, e)
  {
    if Reach(pieces, k, s, e) {
      var cs :| Trace(pieces, k, cs) && cs[0] == s && cs[k] == e;
      assert Trace(pieces, j, cs[..j + 1]) && cs[..j + 1][0] == s && cs[..j + 1][j] == cs[j];
      assert false by { assert Reach(pieces, j, s, cs[j]); }
    }
  }

  lemma CutsAscend(pieces: seq<Piece>, k: nat, cs: seq<nat>, i: nat, j: nat)
    requires |cs| == k + 1 && k <= |pieces|
    requires forall i :: 0 <= i < k ==> PieceFits(pieces[i], cs[i], cs[i + 1])
    requires i <= j <= k
    ensures cs[i] <= cs[j]
    decreases j - i
  {
    if i < j {
      CutsAscend(pieces, k, cs, i, j - 1);
    }
  }

  // Every span the engine returns is a match: soundness for all steps.
  lemma SeededIsMatch(pieces: seq<Piece>, s: nat, e: nat)
    requires SeededMatch(pieces, s, e)
    ensures Matches(pieces, s, e)
  {
    var cs :| Trace(pieces, |pieces|, cs) && cs[0] == s && cs[|pieces|] == e;
    assert IsCut(pieces, cs);
  }

  // The engine finds a match when the first step cannot be empty or is the only step.
  lemma MatchIsSeeded(pieces: seq<Piece>, s: nat, e: nat)
    requires Matches(pieces, s, e)
    requires |pieces| == 1 || (pieces != [] && pieces[0].min >= 1)
    ensures SeededMatch(pieces, s, e)
  {
    var cs :| IsCut(pieces, cs) && cs[0] == s && cs[|pieces|] == e;
    assert PieceFits(pieces[0], cs[0], cs[1]);
    assert Trace(pieces, |pieces|, cs);
  }

  // ---------------------------------------------------------------------------------
  // Exactly when the engine is complete, as a condition on the quantifiers alone.

  datatype Quant = Quant(min: nat, max: Option<nat>)

  // The quantifiers of the elements.
  function Quants<X>(of: X -> Quant, xs: seq<X>): (r: seq<Quant>)
    ensures |r| == |xs| && forall i :: 0 <= i < |r| ==> r[i] == of(xs[i])
  {
    seq(|xs|, i requires 0 <= i < |xs| => of(xs[i]))
  }

  function PieceQuant(p: Piece): Quant {
    Quant(p.min, p.max)
  }

  // The same n tokens for every step.
  function AllTokens(k: nat, n: nat): (r: seq<set<nat>>)
    ensures |r| == k && forall i :: 0 <= i < k ==> r[i] == RangeSet(0, n)
  {
    seq(k, i => RangeSet(0, n))
  }

  function WithSets(qs: seq<Quant>, sets: seq<set<nat>>): (pieces: seq<Piece>)
    requires |qs| == |sets|
    ensures |pieces| == |qs|
    ensures forall i :: 0 <= i < |qs| ==> pieces[i] == Piece(sets[i], qs[i].min, qs[i].max)
  {
    seq(|qs|, i requires 0 <= i < |qs| => Piece(sets[i], qs[i].min, qs[i].max))
  }

  // Whatever the position sets of the steps are, no match is missed.
  ghost predicate AlwaysComplete(qs: seq<Quant>) {
    forall sets: seq<set<nat>>, s: nat, e: nat ::
      |sets| == |qs| && Matches(WithSets(qs, sets), s, e) ==> SeededMatch(WithSets(qs, sets), s, e)
  }

  // Either the empty first piece is not an issue, or no later step can consume a token,
  // or some step admits no length at all.
  predicate FirstStepSafe(qs: seq<Quant>) {
    || |qs| <= 1
    || qs[0].min >= 1
    || (exists i :: 0 <= i < |qs| && qs[i].min > MaxLen(qs[i].max))
    || (forall i :: 1 <= i < |qs| ==> MaxLen(qs[i].max) == 0)
  }

  lemma CutsStay(pieces: seq<Piece>, cs: seq<nat>, i: nat)
    requires IsCut(pieces, cs) && 1 <= i <= |pieces|
    requires forall j :: 1 <= j < |pieces| ==> MaxLen(pieces[j].max) == 0
    ensures cs[i] == cs[1]
  {
    if i > 1 {
      CutsStay(pieces, cs, i - 1);
      assert PieceFits(pieces[i - 1], cs[i - 1], cs[i]);
    }
  }

  lemma SafeIsComplete(qs: seq<Quant>, sets: seq<set<nat>>, s: nat, e: nat)
    requires FirstStepSafe(qs) && |sets| == |qs| && Matches(WithSets(qs, sets), s, e)
    ensures SeededMatch(WithSets(qs, sets), s, e)
  {
    var pieces := WithSets(qs, sets);
    var cs :| IsCut(pieces, cs) && cs[0] == s && cs[|pieces|] == e;
    assert pieces != [];
    forall i | 0 <= i < |qs|
      ensures qs[i].min <= MaxLen(qs[i].max)
    {
      assert PieceFits(pieces[i], cs[i], cs[i + 1]);
    }
    if forall i :: 1 <= i < |qs| ==> MaxLen(qs[i].max) == 0 {
      CutsStay(pieces, cs, |pieces|);
    }
    assert PieceFits(pieces[0], cs[0], cs[1]);
    assert Trace(pieces, |pieces|, cs);
  }

  // Lengths for a match of the later steps that consumes a token at step `at`.
  function Lengths(qs: seq<Quant>, at: nat, i: nat): nat
    requires i < |qs|
  {
    if i == 0 then 0 else if i == at then Max(qs[i].min, 1) else qs[i].min
  }

  function CutsFrom(qs: seq<Quant>, at: nat, k: nat): (cs: seq<nat>)
    requires k <= |qs|
    ensures |cs| == k + 1 && cs[0] == 1
    ensures forall i :: 0 <= i < k ==> cs[i + 1] == cs[i] + Lengths(qs, at, i)
  {
    if k == 0 then [1]
    else
      var cs := CutsFrom(qs, at, k - 1);
      cs + [cs[k - 1] + Lengths(qs, at, k - 1)]
  }

  lemma CutsGrow(qs: seq<Quant>, at: nat, i: nat, j: nat)
    requires i <= j <= |qs|
    ensures CutsFrom(qs, at, |qs|)[i] <= CutsFrom(qs, at, |qs|)[j]
    decreases j - i
  {
    if i < j {
      CutsGrow(qs, at, i, j - 1);
    }
  }

  // Take no positions for the first step and all of [0, n) for the others: the span that
  // starts at 1 matches with an empty first piece, but no run begins at 1.
  lemma UnsafeWitness(qs: seq<Quant>) returns (sets: seq<set<nat>>, cs: seq<nat>, n: nat)
    requires !FirstStepSafe(qs)
    ensures 1 < n && |sets| == |qs| > 1 && sets[1] == RangeSet(0, n)
    ensures IsCut(WithSets(qs, sets), cs) && cs[0] == 1 && cs[|qs|] == n
    ensures !SeededMatch(WithSets(qs, sets), 1, n)
  {
    var at :| 1 <= at < |qs| && MaxLen(qs[at].max) != 0;
    cs := CutsFrom(qs, at, |qs|);
    n := cs[|qs|];
    sets := seq(|qs|, i => if i == 0 then {} else RangeSet(0, n));
    var pieces := WithSets(qs, sets);
    forall i | 0 <= i < |qs|
      ensures PieceFits(pieces[i], cs[i], cs[i + 1])
    {
      CutsGrow(qs, at, i + 1, |qs|);
      assert qs[i].min <= MaxLen(qs[i].max);
      assert cs[i + 1] == cs[i] + Lengths(qs, at, i);
      assert pieces[i].ps == if i == 0 then {} else RangeSet(0, n);
    }
    CutsGrow(qs, at, 0, at);
    CutsGrow(qs, at, at + 1, |qs|);
    assert cs[at + 1] == cs[at] + Lengths(qs, at, at);
    forall t | Trace(pieces, |pieces|, t)
      ensures t[0] != 1
    {
      assert PieceFits(pieces[0], t[0], t[1]);
      assert t[0] !in pieces[0].ps;
      assert t[0] == t[1];
      assert RunStart(pieces[1].ps, t[0]);
      assert pieces[1].ps == RangeSet(0, n);
    }
  }

  // The engine misses nothing on any position sets if and only if the quantifiers are safe.
  lemma CompleteIffSafe(qs: seq<Quant>)
    ensures AlwaysComplete(qs) <==> FirstStepSafe(qs)
  {
    if FirstStepSafe(qs) {
      forall sets: seq<set<nat>>, s: nat, e: nat | |sets| == |qs| && Matches(WithSets(qs, sets), s, e)
        ensures SeededMatch(WithSets(qs, sets), s, e)
      {
        SafeIsComplete(qs, sets, s, e);
      }
    } else {
      var sets, cs, n := UnsafeWitness(qs);
      assert Matches(WithSets(qs, sets), 1, n);
    }
  }

  // ---------------------------------------------------------------------------------
  // Restricting every step to a range keeps exactly the matches inside the range.

  ghost function Clipped(ps: set<nat>, lo: nat, hi: nat): set<nat> {
    set p | p in ps && lo <= p < hi
  }

  ghost function Restrict(pieces: seq<Piece>, lo: nat, hi: nat): (r: seq<Piece>)
    ensures |r| == |pieces|
    ensures forall i :: 0 <= i < |r| ==> r[i] == Piece(Clipped(pieces[i].ps, lo, hi), pieces[i].min, pieces[i].max)
  {
    seq(|pieces|, i requires 0 <= i < |pieces| => Piece(Clipped(pieces[i].ps, lo, hi), pieces[i].min, pieces[i].max))
  }

  lemma PieceInRange(pieces: seq<Piece>, lo: nat, hi: nat, i: nat, a: nat, b: nat)
    requires i < |pieces| && PieceFits(pieces[i], a, b) && lo <= a && b <= hi
    ensures PieceFits(Restrict(pieces, lo, hi)[i], a, b)
  {
    assert Covered(pieces[i].ps, a, b);
  }

  lemma PieceOutOfRange(pieces: seq<Piece>, lo: nat, hi: nat, i: nat, a: nat, b: nat)
    requires i < |pieces| && PieceFits(Restrict(pieces, lo, hi)[i], a, b)
    ensures PieceFits(pieces[i], a, b)
  {
    var inner := Restrict(pieces, lo, hi)[i];
    assert Covered(inner.ps, a, b);
    assert inner.ps <= pieces[i].ps;
  }

  lemma CutInRange(pieces: seq<Piece>, lo: nat, hi: nat, cs: seq<nat>)
    requires IsCut(pieces, cs) && lo <= cs[0] && cs[|pieces|] <= hi
    ensures IsCut(Restrict(pieces, lo, hi), cs)
  {
    forall i | 0 <= i < |pieces|
      ensures PieceFits(Restrict(pieces, lo, hi)[i], cs[i], cs[i + 1])
    {
      CutsAscend(pieces, |pieces|, cs, 0, i);
      CutsAscend(pieces, |pieces|, cs, i + 1, |pieces|);
      PieceInRange(pieces, lo, hi, i, cs[i], cs[i + 1]);
    }
  }

  lemma CutOutOfRange(pieces: seq<Piece>, lo: nat, hi: nat, cs: seq<nat>)
    requires IsCut(Restrict(pieces, lo, hi), cs) && cs[0] < cs[|pieces|]
    ensures IsCut(pieces, cs) && lo <= cs[0] && cs[|pieces|] <= hi
  {
    forall i | 0 <= i < |pieces|
      ensures PieceFits(pieces[i], cs[i], cs[i + 1])
    {
      PieceOutOfRange(pieces, lo, hi, i, cs[i], cs[i + 1]);
    }
    FirstAndLastTokenInRange(Restrict(pieces, lo, hi), cs, lo, hi);
  }

  lemma MatchesInRange(pieces: seq<Piece>, lo: nat, hi: nat, s: nat, e: nat)
    requires pieces != []
    ensures Matches(Restrict(pieces, lo, hi), s, e) <==> Matches(pieces, s, e) && lo <= s && e <= hi
  {
    var inner := Restrict(pieces, lo, hi);
    if Matches(pieces, s, e) && lo <= s && e <= hi {
      var cs :| IsCut(pieces, cs) && cs[0] == s && cs[|pieces|] == e;
      CutInRange(pieces, lo, hi, cs);
    }
    if Matches(inner, s, e) {
      var cs :| IsCut(inner, cs) && cs[0] == s && cs[|pieces|] == e;
      CutOutOfRange(pieces, lo, hi, cs);
    }
  }

  // A non-empty cut over restricted sets begins and ends inside the range.
  lemma FirstAndLastTokenInRange(inner: seq<Piece>, cs: seq<nat>, lo: nat, hi: nat)
    requires IsCut(inner, cs) && cs[0] < cs[|inner|]
    requires forall i :: 0 <= i < |inner| ==> forall p :: p in inner[i].ps ==> lo <= p < hi
    ensures lo <= cs[0] && cs[|inner|] <= hi
  {
    var i := CrossingPiece(inner, cs, cs[0]);
    assert PieceFits(inner[i], cs[i], cs[i + 1]);
    assert cs[0] in inner[i].ps;
    var j := CrossingPiece(inner, cs, cs[|inner|] - 1);
    assert PieceFits(inner[j], cs[j], cs[j + 1]);
    assert cs[|inner|] - 1 in inner[j].ps;
  }

  // Every token of a match lies in one of its pieces.
  lemma CrossingPiece(pieces: seq<Piece>, cs: seq<nat>, p: nat) returns (i: nat)
    requires IsCut(pieces, cs) && cs[0] <= p < cs[|pieces|]
    ensures i < |pieces| && cs[i] <= p < cs[i + 1]
  {
    i := 0;
    while cs[i + 1] <= p
      invariant i < |pieces| && cs[i] <= p
      decreases |pieces| - i
    {
      i := i + 1;
    }
  }

  // ---------------------------------------------------------------------------------
  // The cuts that the engine finds, said directly: a cut inside the range, from lo on, whose first
  // piece holds a token, or which begins where a stretch of tokens of the second piece begins.

  ghost predicate ExploredBy(pieces: seq<Piece>, lo: nat, s: nat, e: nat, cs: seq<nat>) {
    && pieces != [] && IsCut(pieces, cs) && cs[0] == s && cs[|pieces|] == e && lo <= s
    && (s < cs[1] || (|pieces| > 1 && s in pieces[1].ps && (s == lo || s - 1 !in pieces[1].ps)))
  }

  ghost predicate Explored(pieces: seq<Piece>, lo: nat, s: nat, e: nat) {
    exists cs :: ExploredBy(pieces, lo, s, e, cs)
  }

  lemma SeededIffExplored(pieces: seq<Piece>, s: nat, e: nat)
    ensures SeededMatch(pieces, s, e) <==> s < e && Explored(pieces, 0, s, e)
  {
    if SeededMatch(pieces, s, e) {
      var cs :| Trace(pieces, |pieces|, cs) && cs[0] == s && cs[|pieces|] == e;
      assert PieceFits(pieces[0], cs[0], cs[1]);
      assert ExploredBy(pieces, 0, s, e, cs);
    }
    if s < e && Explored(pieces, 0, s, e) {
      var cs :| ExploredBy(pieces, 0, s, e, cs);
      assert Trace(pieces, |pieces|, cs);
    }
  }

  // The same for a scan of [lo, hi): a stretch also begins where the range does.
  lemma ExploredInRange(pieces: seq<Piece>, lo: nat, hi: nat, s: nat, e: nat)
    ensures SeededMatch(Restrict(pieces, lo, hi), s, e) <==> s < e <= hi && Explored(pieces, lo, s, e)
  {
    var inner := Restrict(pieces, lo, hi);
    SeededIffExplored(inner, s, e);
    if s < e && Explored(inner, 0, s, e) {
      var cs :| ExploredBy(inner, 0, s, e, cs);
      CutOutOfRange(pieces, lo, hi, cs);
      assert ExploredBy(pieces, lo, s, e, cs);
    }
    if s < e <= hi && Explored(pieces, lo, s, e) {
      var cs :| ExploredBy(pieces, lo, s, e, cs);
      CutInRange(pieces, lo, hi, cs);
      assert ExploredBy(inner, 0, s, e, cs);
    }
  }
}
