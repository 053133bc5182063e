// crates/montre-build/src/builder.rs (decompose_feats_annotation): reading a feature string is the
// inverse of writing one.
module Features {
  import opened Core
  import opened Bytes
  import opened Sink
  import L = Layers
  import Inverse

  // Texts with a separator between them.
  function Joined(ts: seq<Text>, c: Byte): Text
    requires ts != []
  {
    if |ts| == 1 then ts[0] else ts[0] + [c] + Joined(ts[1..], c)
  }

  // The first separator is where the text before it ends.
  lemma {:induction false} CutFinds(a: Text, c: Byte, b: Text)
    requires c !in a
    ensures CutAt(a + [c] + b, c) == |a| && CutAt(a, c) == |a|
  {
    if a != [] {
      CutFinds(a[1..], c, b);
      assert (a + [c] + b)[1..] == a[1..] + [c] + b;
    }
  }

  // Splitting cuts a text into parts without the separator, and joining them gives it back.
  lemma {:induction false} SplitJoins(s: Text, c: Byte)
    ensures Split(s, c) != [] && Joined(Split(s, c), c) == s
    ensures forall i :: 0 <= i < |Split(s, c)| ==> c !in Split(s, c)[i]
    decreases |s|
  {
    var i := CutAt(s, c);
    if i < |s| {
      SplitJoins(s[i + 1..], c);
      assert s == s[..i] + [c] + s[i + 1..];
    } else {
      assert s[..i] == s;
    }
  }

  lemma SplitStep(a: Text, c: Byte, b: Text)
    requires c !in a
    ensures Split(a + [c] + b, c) == [a] + Split(b, c) && Split(a, c) == [a]
  {
    CutFinds(a, c, b);
    assert (a + [c] + b)[..|a|] == a && (a + [c] + b)[|a| + 1..] == b;
  }

  // Joining texts without the separator and splitting again gives them back.
  lemma {:induction false} JoinSplits(ts: seq<Text>, c: Byte)
    requires ts != [] && forall i :: 0 <= i < |ts| ==> c !in ts[i]
    ensures Split(Joined(ts, c), c) == ts
  {
    if |ts| == 1 {
      SplitStep(ts[0], c, []);
    } else {
      JoinSplits(ts[1..], c);
      SplitStep(ts[0], c, Joined(ts[1..], c));
    }
  }

  // ---------------------------------------------------------------------------------
  // Features.

  datatype Feat = Feat(key: Text, value: Text)

  // A key has neither separator, a value no bar.
  predicate Clean(f: Feat) {
    EQUALS !in f.key && BAR !in f.key && BAR !in f.value
  }

  function Shown(f: Feat): Text {
    f.key + [EQUALS] + f.value
  }

  function ShownEach(fs: seq<Feat>): (r: seq<Text>)
    ensures |r| == |fs| && forall i :: 0 <= i < |r| ==> r[i] == Shown(fs[i])
  {
    seq(|fs|, i requires 0 <= i < |fs| => Shown(fs[i]))
  }

  // The feature string of these features, as CoNLL-U writes it.
  function Render(fs: seq<Feat>): Text
    requires fs != []
  {
    Joined(ShownEach(fs), BAR)
  }

  // The values of a key among the first n features, in order.
  function ValuesOf(fs: seq<Feat>, n: nat, key: Text): seq<L.Value>
    requires n <= |fs|
  {
    if n == 0 then []
    else ValuesOf(fs, n - 1, key) + if fs[n - 1].key == key then [L.Str(fs[n - 1].value)] else []
  }

  lemma PairReads(f: Feat, key: Text)
    requires Clean(f)
    ensures Inverse.KeyValue(Shown(f), key) == if f.key == key then [L.Str(f.value)] else []
  {
    CutFinds(f.key, EQUALS, f.value);
    assert Shown(f)[..|f.key|] == f.key && Shown(f)[|f.key| + 1..] == f.value;
  }

  lemma {:induction false} PairsRead(fs: seq<Feat>, n: nat, key: Text)
    requires n <= |fs| && forall i :: 0 <= i < |fs| ==> Clean(fs[i])
    ensures Inverse.KeyValues(ShownEach(fs), n, key) == ValuesOf(fs, n, key)
  {
    if n > 0 {
      PairsRead(fs, n - 1, key);
      PairReads(fs[n - 1], key);
    }
  }

  // A token whose feature string was written from these features gives to the layer of a key
  // exactly the values of that key, in order.
  lemma FeaturesRead(fs: seq<Feat>, t: Token, key: Text)
    requires fs != [] && t.feats == Some(Render(fs)) && forall i :: 0 <= i < |fs| ==> Clean(fs[i])
    ensures Inverse.FeatureValues(t, key) == ValuesOf(fs, |fs|, key)
  {
    forall i | 0 <= i < |fs|
      ensures BAR !in Shown(fs[i])
    {
    }
    JoinSplits(ShownEach(fs), BAR);
    PairsRead(fs, |fs|, key);
  }
}
