// crates/montre-index/src/forward_flat.rs: the two layer encodings. A dictionary-encoded
// layer keeps the positions that carry a non-empty string in a bitmap, the distinct strings
// in a sorted table, and one term id of 1, 2 or 4 bytes per present position.
module Layers {
  import opened Core
  import opened Bytes

  const U32: nat := 0x1_0000_0000

  // Strings are byte sequences; integers are the i64 values of the source.
  datatype Value = Str(text: Buffer) | Num(n: int)

  // Library routines the format relies on: bitmap serialization and UTF-8 validation.
  datatype Codec = Codec(ser: set<nat> -> Buffer, de: Buffer -> Option<set<nat>>, utf8: Buffer -> bool)

  // Bitmaps hold positions of 32 bits.
  ghost predicate ValidCodec(k: Codec) {
    forall s: set<nat> :: (forall p :: p in s ==> p < U32) ==> k.de(k.ser(s)) == Some(s)
  }

  const ENCODING_DICT: Byte := 1
  const ENCODING_DENSE_NUMERIC: Byte := 2

  datatype LayerBuild = LayerBuild(
    name: Buffer,
    encoding: Byte,
    idWidth: Byte,
    vocabCount: nat,
    dataCount: nat,
    termOffsets: seq<nat>,
    termStrings: Buffer,
    bitmapBytes: Buffer,
    dataBytes: Buffer)

  predicate Present(v: Value) {
    v.Str? && v.text != []
  }

  // ---------------------------------------------------------------------------------
  // What the encoding is made of.

  function PositionSet(data: seq<Value>, k: nat): (r: set<nat>)
    requires k <= |data|
    ensures forall p: nat :: p in r <==> p < k && Present(data[p])
  {
    if k == 0 then {}
    else if Present(data[k - 1]) then PositionSet(data, k - 1) + {k - 1}
    else PositionSet(data, k - 1)
  }

  // The bitmap: present positions, cut to 32 bits.
  function Bits(data: seq<Value>, k: nat): (r: set<nat>)
    requires k <= |data|
    ensures forall p: nat :: p in r ==> p < U32
  {
    if k == 0 then {}
    else if Present(data[k - 1]) then Bits(data, k - 1) + {(k - 1) % U32}
    else Bits(data, k - 1)
  }

  lemma {:induction false} BitsArePositions(data: seq<Value>, k: nat)
    requires k <= |data| && k <= U32
    ensures Bits(data, k) == PositionSet(data, k)
  {
    if k > 0 {
      BitsArePositions(data, k - 1);
    }
  }

  // The strings of the first `k` positions that have one, in position order.
  function Texts(data: seq<Value>, k: nat): seq<Buffer>
    requires k <= |data|
  {
    if k == 0 then []
    else if Present(data[k - 1]) then Texts(data, k - 1) + [data[k - 1].text]
    else Texts(data, k - 1)
  }

  predicate LexLess(a: Buffer, b: Buffer) {
    if b == [] then false
    else if a == [] then true
    else if a[0] != b[0] then a[0] < b[0]
    else LexLess(a[1..], b[1..])
  }

  lemma LexTotal(a: Buffer, b: Buffer)
    ensures a == b || LexLess(a, b) || LexLess(b, a)
  {
    if a != [] && b != [] && a[0] == b[0] {
      LexTotal(a[1..], b[1..]);
      assert a == [a[0]] + a[1..] && b == [b[0]] + b[1..];
    }
  }

  lemma LexTransitive(a: Buffer, b: Buffer, c: Buffer)
    requires LexLess(a, b) && LexLess(b, c)
    ensures LexLess(a, c)
  {
    if a != [] && a[0] == b[0] && b[0] == c[0] {
      LexTransitive(a[1..], b[1..], c[1..]);
    }
  }

  ghost predicate SortedTerms(ts: seq<Buffer>) {
    forall i, j :: 0 <= i < j < |ts| ==> LexLess(ts[i], ts[j])
  }

  function InsertTerm(ts: seq<Buffer>, t: Buffer): (r: seq<Buffer>)
    requires SortedTerms(ts)
    ensures SortedTerms(r)
    ensures forall x :: x in r <==> x in ts || x == t
  {
    if ts == [] then [t]
    else if t == ts[0] then ts
    else if LexLess(t, ts[0]) then
      assert forall i :: 0 < i < |ts| ==> LexLess(t, ts[i]) by {
        forall i | 0 < i < |ts| ensures LexLess(t, ts[i]) { LexTransitive(t, ts[0], ts[i]); }
      }
      [t] + ts
    else
      LexTotal(t, ts[0]);
      var rest := InsertTerm(ts[1..], t);
      assert forall x :: x in rest ==> LexLess(ts[0], x);
      [ts[0]] + rest
  }

  // The distinct strings in sorted order.
  function Distinct(texts: seq<Buffer>): (r: seq<Buffer>)
    ensures SortedTerms(r)
    ensures forall x :: x in r <==> x in texts
    decreases |texts|
  {
    if texts == [] then []
    else
      var n := |texts| - 1;
      assert texts == texts[..n] + [texts[n]];
      InsertTerm(Distinct(texts[..n]), texts[n])
  }

  function TermId(ts: seq<Buffer>, t: Buffer): (i: nat)
    requires t in ts
    ensures i < |ts| && ts[i] == t
  {
    if ts[0] == t then 0 else TermId(ts[1..], t) + 1
  }

  function IdWidth(vocab: nat): (w: Byte)
    ensures w == 1 || w == 2 || w == 4
  {
    if vocab <= 256 then 1 else if vocab <= 65536 then 2 else 4
  }

  function Concat(bs: seq<Buffer>): Buffer {
    if bs == [] then [] else Concat(bs[..|bs| - 1]) + bs[|bs| - 1]
  }

  function Offset(bs: seq<Buffer>, i: nat): nat
    requires i <= |bs|
  {
    |Concat(bs[..i])|
  }

  function Offsets(bs: seq<Buffer>): (r: seq<nat>)
    ensures |r| == |bs| + 1
    ensures forall i :: 0 <= i <= |bs| ==> r[i] == Offset(bs, i) % U32
  {
    seq(|bs| + 1, i requires 0 <= i <= |bs| => Offset(bs, i) % U32)
  }

  // The first n term ids, each in w bytes.
  function Ids(o: Order, texts: seq<Buffer>, ts: seq<Buffer>, w: nat, n: nat): (r: seq<Buffer>)
    requires n <= |texts| && forall x :: x in texts ==> x in ts
    ensures |r| == n
  {
    if n == 0 then [] else Ids(o, texts, ts, w, n - 1) + [Encode(o, TermId(ts, texts[n - 1]), w)]
  }

  function DictLayer(k: Codec, o: Order, name: Buffer, data: seq<Value>): LayerBuild {
    var texts := Texts(data, |data|);
    var ts := Distinct(texts);
    var w := IdWidth(|ts| % U32);
    LayerBuild(name, ENCODING_DICT, w, |ts| % U32, |texts|, Offsets(ts), Concat(ts),
               k.ser(Bits(data, |data|)), Concat(Ids(o, texts, ts, w, |texts|)))
  }

  function NumberAt(data: seq<Value>, p: nat): nat {
    if p < |data| && data[p].Num? then data[p].n % U32 else 0
  }

  // The first n numbers, each in 4 bytes.
  function Numbers(o: Order, data: seq<Value>, n: nat): (r: seq<Buffer>)
    ensures |r| == n
  {
    if n == 0 then [] else Numbers(o, data, n - 1) + [Encode(o, NumberAt(data, n - 1), 4)]
  }

  function DenseLayer(o: Order, name: Buffer, data: seq<Value>, tokenCount: nat): LayerBuild {
    LayerBuild(name, ENCODING_DENSE_NUMERIC, 0, 0, tokenCount, [], [], [], Concat(Numbers(o, data, tokenCount)))
  }

  predicate IsNumeric(data: seq<Value>) {
    exists i :: 0 <= i < |data| && data[i].Num?
  }

  // ---------------------------------------------------------------------------------
  // The builders.

  lemma ConcatNext(bs: seq<Buffer>, i: nat)
    requires i < |bs|
    ensures Concat(bs[..i + 1]) == Concat(bs[..i]) + bs[i]
  {
    assert bs[..i + 1][..i] == bs[..i];
  }

  lemma ConcatSnoc(bs: seq<Buffer>, b: Buffer)
    ensures Concat(bs + [b]) == Concat(bs) + b
  {
    assert (bs + [b])[..|bs|] == bs;
  }

  // First pass: the bitmap of present positions and their strings.
  method ScanValues(data: seq<Value>) returns (bitmap: set<nat>, rawValues: seq<Buffer>)
    ensures bitmap == Bits(data, |data|)
    ensures rawValues == Texts(data, |data|)
  {
    bitmap, rawValues := {}, [];
    for pos := 0 to |data|
      invariant bitmap == Bits(data, pos)
      invariant rawValues == Texts(data, pos)
    {
      if data[pos].Str? {
        if data[pos].text != [] {
          bitmap := bitmap + {pos % U32};
          rawValues := rawValues + [data[pos].text];
        }
      }
    }
  }

  // Second pass: string offsets, with a closing one, and the strings themselves.
  method BuildTermTable(terms: seq<Buffer>) returns (offsets: seq<nat>, strings: Buffer)
    ensures offsets == Offsets(terms) && strings == Concat(terms)
  {
    offsets, strings := [], [];
    for i := 0 to |terms|
      invariant |offsets| == i && forall j :: 0 <= j < i ==> offsets[j] == Offset(terms, j) % U32
      invariant strings == Concat(terms[..i])
    {
      offsets := offsets + [|strings| % U32];
      ConcatNext(terms, i);
      strings := strings + terms[i];
    }
    offsets := offsets + [|strings| % U32];
    assert terms[..|terms|] == terms;
  }

  // Third pass: one id per present value.
  method EncodeIds(o: Order, rawValues: seq<Buffer>, terms: seq<Buffer>, idWidth: nat) returns (bytes: Buffer)
    requires forall x :: x in rawValues ==> x in terms
    ensures bytes == Concat(Ids(o, rawValues, terms, idWidth, |rawValues|))
  {
    bytes := [];
    for i := 0 to |rawValues|
      invariant bytes == Concat(Ids(o, rawValues, terms, idWidth, i))
    {
      var id := Encode(o, TermId(terms, rawValues[i]), idWidth);
      ConcatSnoc(Ids(o, rawValues, terms, idWidth, i), id);
      bytes := bytes + id;
    }
  }

  method BuildDictEncodedLayer(k: Codec, o: Order, name: Buffer, data: seq<Value>) returns (layer: LayerBuild)
    ensures layer == DictLayer(k, o, name, data)
  {
    var bitmap, rawValues := ScanValues(data);
    var distinct := Distinct(rawValues);
    var termOffsets, termStrings := BuildTermTable(distinct);
    var vocabCount := |distinct| % U32;
    var idWidth := IdWidth(vocabCount);
    var dataBytes := EncodeIds(o, rawValues, distinct, idWidth);
    layer := LayerBuild(name, ENCODING_DICT, idWidth, vocabCount, |rawValues|, termOffsets, termStrings,
                        k.ser(bitmap), dataBytes);
  }

  method BuildDenseNumericLayer(o: Order, name: Buffer, data: seq<Value>, tokenCount: nat) returns (layer: LayerBuild)
    ensures layer == DenseLayer(o, name, data, tokenCount)
  {
    var dataBytes: Buffer := [];
    for pos := 0 to tokenCount
      invariant dataBytes == Concat(Numbers(o, data, pos))
    {
      var val := if pos < |data| && data[pos].Num? then data[pos].n % U32 else 0;
      ConcatSnoc(Numbers(o, data, pos), Encode(o, val, 4));
      dataBytes := dataBytes + Encode(o, val, 4);
    }
    layer := LayerBuild(name, ENCODING_DENSE_NUMERIC, 0, 0, tokenCount, [], [], [], dataBytes);
  }

  // ---------------------------------------------------------------------------------
  // Both encodings depend only on the values that are present.

  // Trailing positions without a string change nothing.
  lemma {:induction false} TextsOfPrefix(a: seq<Value>, b: seq<Value>, k: nat)
    requires k <= |a| && k <= |b| && forall i :: 0 <= i < k ==> Normal(a[i]) == Normal(b[i])
    ensures Bits(a, k) == Bits(b, k) && Texts(a, k) == Texts(b, k)
  {
    if k > 0 {
      TextsOfPrefix(a, b, k - 1);
      assert Normal(a[k - 1]) == Normal(b[k - 1]);
    }
  }

  lemma {:induction false} NothingAfter(a: seq<Value>, m: nat, k: nat)
    requires m <= k <= |a| && forall i :: m <= i < k ==> !Present(a[i])
    ensures Bits(a, k) == Bits(a, m) && Texts(a, k) == Texts(a, m)
    decreases k
  {
    if m < k {
      NothingAfter(a, m, k - 1);
    }
  }

  // The value as far as a string layer can see it.
  function Normal(v: Value): Value {
    if Present(v) then v else Str([])
  }

  // b extends a by values without a string, and is otherwise the same.
  ghost predicate SamePresent(a: seq<Value>, b: seq<Value>) {
    && |a| <= |b|
    && (forall i :: 0 <= i < |a| ==> Normal(a[i]) == Normal(b[i]))
    && (forall i :: |a| <= i < |b| ==> !Present(b[i]))
  }

  lemma SameDictLayer(k: Codec, o: Order, name: Buffer, a: seq<Value>, b: seq<Value>)
    requires SamePresent(a, b)
    ensures DictLayer(k, o, name, a) == DictLayer(k, o, name, b)
  {
    TextsOfPrefix(a, b, |a|);
    NothingAfter(b, |a|, |b|);
  }

  lemma SameDenseLayer(o: Order, name: Buffer, a: seq<Value>, b: seq<Value>, n: nat)
    requires forall p :: 0 <= p < n ==> NumberAt(a, p) == NumberAt(b, p)
    ensures DenseLayer(o, name, a, n) == DenseLayer(o, name, b, n)
  {
    SameNumbers(o, a, b, n);
  }

  lemma {:induction false} SameNumbers(o: Order, a: seq<Value>, b: seq<Value>, n: nat)
    requires forall p :: 0 <= p < n ==> NumberAt(a, p) == NumberAt(b, p)
    ensures Numbers(o, a, n) == Numbers(o, b, n)
  {
    if n > 0 {
      SameNumbers(o, a, b, n - 1);
    }
  }
}
