// crates/montre-index/src/mwt.rs: multiword tokens, each a range of positions with one
// surface form, found by bisection.
module Mwt {
  import opened Core
  import opened Bytes

  datatype Entry = Entry(start: nat, end: nat, form: Buffer, noSpaceAfter: bool)

  // Sorted, disjoint and not empty, as the builder writes them.
  ghost predicate Sorted(es: seq<Entry>) {
    && (forall i :: 0 <= i < |es| ==> es[i].start < es[i].end)
    && (forall i, j :: 0 <= i < j < |es| ==> es[i].end <= es[j].start)
  }

  predicate Contains(e: Entry, position: nat) {
    e.start <= position < e.end
  }

  predicate Overlaps(e: Entry, start: nat, end: nat) {
    e.end > start && e.start < end
  }

  // The last entry that starts at the position or before.
  method Search(es: seq<Entry>, position: nat) returns (r: Option<nat>)
    requires Sorted(es)
    ensures r.Some? ==> r.value < |es| && es[r.value].start <= position && forall i :: r.value < i < |es| ==>
      position < es[i].start
    ensures r.None? ==> forall i :: 0 <= i < |es| ==> position < es[i].start
  {
    if |es| == 0 {
      return None;
    }
    var lo, hi := 0, |es|;
    while lo < hi
      invariant 0 <= lo <= hi <= |es|
      invariant forall i :: 0 <= i < lo ==> es[i].start <= position
      invariant forall i :: hi <= i < |es| ==> position < es[i].start
    {
      var mid := lo + (hi - lo) / 2;
      if es[mid].start <= position {
        lo := mid + 1;
        assert forall i :: 0 <= i < mid ==> es[i].end <= es[mid].start;
      } else {
        hi := mid;
        assert forall i :: mid < i < |es| ==> es[mid].end <= es[i].start;
      }
    }
    r := if lo > 0 then Some(lo - 1) else None;
  }

  // The first entry that ends after the position.
  method LowerBound(es: seq<Entry>, position: nat) returns (r: Option<nat>)
    requires Sorted(es)
    ensures r.Some? ==> r.value < |es| && position < es[r.value].end && forall i :: 0 <= i < r.value ==>
      es[i].end <= position
    ensures r.None? ==> forall i :: 0 <= i < |es| ==> es[i].end <= position
  {
    if |es| == 0 {
      return None;
    }
    var lo, hi := 0, |es|;
    while lo < hi
      invariant 0 <= lo <= hi <= |es|
      invariant forall i :: 0 <= i < lo ==> es[i].end <= position
      invariant forall i :: hi <= i < |es| ==> position < es[i].end
    {
      var mid := lo + (hi - lo) / 2;
      if es[mid].end <= position {
        lo := mid + 1;
        assert forall i :: 0 <= i < mid ==> es[i].end <= es[mid].start;
      } else {
        hi := mid;
        assert forall i :: mid < i < |es| ==> es[mid].end <= es[i].start;
      }
    }
    r := if lo < |es| then Some(lo) else None;
  }

  // The entry that contains the position, if there is one.
  method Covering(es: seq<Entry>, position: nat) returns (r: Option<Entry>)
    requires Sorted(es)
    ensures r.Some? ==> r.value in es && Contains(r.value, position)
    ensures r.None? ==> forall e :: e in es ==> !Contains(e, position)
  {
    var idx := Search(es, position);
    if idx.None? {
      return None;
    }
    var e := es[idx.value];
    if position < e.end {
      return Some(e);
    }
    forall x | x in es
      ensures !Contains(x, position)
    {
      var i :| 0 <= i < |es| && es[i] == x;
      assert i < idx.value ==> es[i].end <= e.start;
    }
    r := None;
  }

  // part is the entries from lo to hi, and these are the ones that overlap the range.
  ghost predicate IsOverlap(es: seq<Entry>, part: seq<Entry>, start: nat, end: nat, lo: nat, hi: nat) {
    && lo <= hi <= |es| && part == es[lo..hi]
    && forall i :: 0 <= i < |es| ==> (Overlaps(es[i], start, end) <==> lo <= i < hi)
  }

  // Exactly the entries that overlap the range, in order.
  method InRange(es: seq<Entry>, start: nat, end: nat) returns (r: seq<Entry>)
    requires Sorted(es)
    ensures exists lo, hi :: IsOverlap(es, r, start, end, lo, hi)
  {
    var first := LowerBound(es, start);
    if first.None? {
      r := [];
      assert IsOverlap(es, r, start, end, 0, 0);
      return;
    }
    r := [];
    var i := first.value;
    while i < |es|
      invariant first.value <= i <= |es| && r == es[first.value..i]
      invariant forall k :: first.value <= k < i ==> Overlaps(es[k], start, end)
    {
      if es[i].start >= end {
        EndsHere(es, start, end, first.value, i);
        assert IsOverlap(es, r, start, end, first.value, i);
        return;
      }
      assert first.value < i ==> es[first.value].end <= es[i].start;
      r := r + [es[i]];
      i := i + 1;
    }
    assert IsOverlap(es, r, start, end, first.value, i);
  }

  lemma EndsHere(es: seq<Entry>, start: nat, end: nat, lo: nat, hi: nat)
    requires Sorted(es) && lo <= hi < |es| && es[hi].start >= end
    requires forall i :: 0 <= i < lo ==> es[i].end <= start
    requires forall k :: lo <= k < hi ==> Overlaps(es[k], start, end)
    ensures forall i :: 0 <= i < |es| ==> (Overlaps(es[i], start, end) <==> lo <= i < hi)
  {
    forall i | hi < i < |es|
      ensures !Overlaps(es[i], start, end)
    {
      assert es[hi].end <= es[i].start;
    }
  }
}
