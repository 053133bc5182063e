// Shared vocabulary: optional and failing values, token spans, and the two binary
// searches that the index and the query engine run over sorted slices.
module Core {

  datatype Option<+T> = None | Some(value: T)

  datatype Result<+T> = Ok(value: T) | Err

  // A half-open range of token positions.
  datatype Span = Span(start: nat, end: nat)

  function Min(a: int, b: int): int {
    if a < b then a else b
  }

  function Max(a: int, b: int): int {
    if a < b then b else a
  }

  ghost predicate NoDup<T(!new)>(s: seq<T>) {
    forall i, j :: 0 <= i < j < |s| ==> s[i] != s[j]
  }

  ghost function Elements<T>(s: seq<T>): set<T> {
    set x | x in s
  }

  lemma ElementsNext<T>(s: seq<T>, i: nat)
    requires i < |s|
    ensures Elements(s[..i + 1]) == Elements(s[..i]) + {s[i]}
  {
    assert s[..i + 1] == s[..i] + [s[i]];
  }

  // Non-empty spans in order, not overlapping: what the builder writes for one layer.
  ghost predicate Ordered(spans: seq<Span>) {
    && (forall i :: 0 <= i < |spans| ==> spans[i].start < spans[i].end)
    && (forall i, j :: 0 <= i < j < |spans| ==> spans[i].end <= spans[j].start)
  }

  // Ordered spans without gaps from 0 to total.
  ghost predicate Tiles(spans: seq<Span>, total: nat) {
    && Ordered(spans)
    && (spans == [] ==> total == 0)
    && (spans != [] ==> spans[0].start == 0 && spans[|spans| - 1].end == total)
    && (forall i :: 0 <= i && i + 1 < |spans| ==> spans[i].end == spans[i + 1].start)
  }

  // First index at which p fails, for a p that never holds again once it has failed.
  function PartitionPoint<T>(s: seq<T>, p: T -> bool, lo: nat, hi: nat): (k: nat)
    requires lo <= hi <= |s|
    requires forall i, j :: 0 <= i < j < |s| && p(s[j]) ==> p(s[i])
    requires forall i :: 0 <= i < lo ==> p(s[i])
    requires forall i :: hi <= i < |s| ==> !p(s[i])
    ensures lo <= k <= hi
    ensures forall i :: 0 <= i < k ==> p(s[i])
    ensures forall i :: k <= i < |s| ==> !p(s[i])
    decreases hi - lo
  {
    if lo == hi then lo
    else
      var mid := lo + (hi - lo) / 2;
      if p(s[mid]) then PartitionPoint(s, p, mid + 1, hi)
      else PartitionPoint(s, p, lo, mid)
  }

  // The span that covers a position, found by bisection.
  function SpanContaining(spans: seq<Span>, position: nat): (r: Option<nat>)
    requires Ordered(spans)
    ensures r.Some? ==> r.value < |spans| && spans[r.value].start <= position < spans[r.value].end
    ensures r.None? ==> forall i :: 0 <= i < |spans| ==> !(spans[i].start <= position < spans[i].end)
  {
    Bisect(spans, position, 0, |spans|)
  }

  function Bisect(spans: seq<Span>, position: nat, lo: nat, hi: nat): (r: Option<nat>)
    requires Ordered(spans) && lo <= hi <= |spans|
    requires forall i :: 0 <= i < lo ==> spans[i].end <= position
    requires forall i :: hi <= i < |spans| ==> position < spans[i].start
    ensures r.Some? ==> r.value < |spans| && spans[r.value].start <= position < spans[r.value].end
    ensures r.None? ==> forall i :: 0 <= i < |spans| ==> !(spans[i].start <= position < spans[i].end)
    decreases hi - lo
  {
    if lo == hi then None
    else
      var mid := lo + (hi - lo) / 2;
      if spans[mid].end <= position then Bisect(spans, position, mid + 1, hi)
      else if position < spans[mid].start then Bisect(spans, position, lo, mid)
      else Some(mid)
  }

  lemma AppendAssoc<T>(a: seq<T>, b: seq<T>, c: seq<T>)
    ensures a + (b + c) == (a + b) + c
  {
  }

  lemma AppendNothing<T>(a: seq<T>)
    ensures [] + a == a && a + [] == a
  {
  }

  // f applied to the first n elements.
  function Each<A, B>(f: A -> B, s: seq<A>, n: nat): (r: seq<B>)
    requires n <= |s|
    ensures |r| == n
  {
    if n == 0 then [] else Each(f, s, n - 1) + [f(s[n - 1])]
  }

  lemma {:induction false} EachAt<A, B>(f: A -> B, s: seq<A>, n: nat, i: nat)
    requires i < n <= |s|
    ensures Each(f, s, n)[i] == f(s[i])
  {
    if i < n - 1 {
      EachAt(f, s, n - 1, i);
    }
  }

  lemma {:induction false} EachSame<A, B>(f: A -> B, a: seq<A>, b: seq<A>, n: nat)
    requires n <= |a| && n <= |b| && forall i :: 0 <= i < n ==> f(a[i]) == f(b[i])
    ensures Each(f, a, n) == Each(f, b, n)
  {
    if n > 0 {
      EachSame(f, a, b, n - 1);
    }
  }

  lemma EachNext<A, B>(f: A -> B, s: seq<A>, x: A)
    ensures Each(f, s + [x], |s| + 1) == Each(f, s, |s|) + [f(x)]
  {
    EachSame(f, s + [x], s, |s|);
  }

  lemma EachIs<A, B>(f: A -> B, s: seq<A>, n: nat)
    requires n <= |s|
    ensures forall i :: 0 <= i < n ==> Each(f, s, n)[i] == f(s[i])
  {
    forall i | 0 <= i < n
      ensures Each(f, s, n)[i] == f(s[i])
    {
      EachAt(f, s, n, i);
    }
  }
}
