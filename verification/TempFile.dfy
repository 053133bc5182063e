// crates/montre-build/src/streaming_forward.rs: the temporary file of one layer, a tagged
// record per position.
module TempFile {
  import opened Core
  import opened Bytes
  import opened Layers
  import opened FlatFile
  import opened Forward

  const TAG_ABSENT: Byte := 0
  const TAG_STRING: Byte := 1
  const TAG_INT: Byte := 2
  const I63: int := 0x8000_0000_0000_0000

  // Rust strings are valid UTF-8, integers are i64.
  ghost predicate ValidValue(k: Codec, v: Value) {
    match v
    case Str(t) => t != [] ==> k.utf8(t)
    case Num(n) => -I63 <= n < I63
  }

  ghost predicate AllValid(k: Codec, vs: seq<Value>) {
    forall i :: 0 <= i < |vs| ==> ValidValue(k, vs[i])
  }

  // The length prefix of a string has two bytes.
  predicate Short(v: Value) {
    v.Str? ==> |v.text| < 65536
  }

  predicate AllShort(vs: seq<Value>) {
    forall i :: 0 <= i < |vs| ==> Short(vs[i])
  }

  // write_value
  function ValueBytes(v: Value): (r: Buffer)
    ensures |r| > 0
  {
    if v.Num? then [TAG_INT] + LowBytes(v.n % U64, 8)
    else if v.text != [] then [TAG_STRING] + LowBytes(|v.text|, 2) + v.text
    else [TAG_ABSENT]
  }

  function Joined<T>(f: T -> Buffer, vs: seq<T>): Buffer {
    if vs == [] then [] else f(vs[0]) + Joined(f, vs[1..])
  }

  lemma {:induction false} JoinedAppend<T>(f: T -> Buffer, a: seq<T>, b: seq<T>)
    ensures Joined(f, a + b) == Joined(f, a) + Joined(f, b)
  {
    if a == [] {
      assert a + b == b;
    } else {
      JoinedAppend(f, a[1..], b);
      assert (a + b)[1..] == a[1..] + b && (a + b)[0] == a[0];
      Assoc(f(a[0]), Joined(f, a[1..]), Joined(f, b));
    }
  }

  // The records of a layer.
  function Rendered(vs: seq<Value>): Buffer {
    Joined(ValueBytes, vs)
  }

  lemma RenderedAppend(a: seq<Value>, b: seq<Value>)
    ensures Rendered(a + b) == Rendered(a) + Rendered(b)
  {
    JoinedAppend(ValueBytes, a, b);
  }

  lemma RenderedNext(vs: seq<Value>, i: nat)
    requires i < |vs|
    ensures Rendered(vs[..i + 1]) == Rendered(vs[..i]) + ValueBytes(vs[i])
  {
    assert vs[..i + 1] == vs[..i] + [vs[i]];
    RenderedAppend(vs[..i], [vs[i]]);
    assert [vs[i]][1..] == [];
    assert Rendered([vs[i]]) == ValueBytes(vs[i]) + Joined(ValueBytes, []);
  }

  lemma {:induction false} RenderedBlanks(n: nat)
    ensures Rendered(seq(n, _ => BLANK)) == Zeros(n)
  {
    if n > 0 {
      RenderedBlanks(n - 1);
      assert seq(n, _ => BLANK)[1..] == seq(n - 1, _ => BLANK);
      ZerosFront(n - 1);
    }
  }

  lemma {:induction false} ZerosFront(n: nat)
    ensures Zeros(n + 1) == [0] + Zeros(n)
  {
    if n > 0 {
      ZerosFront(n - 1);
      Assoc([0], Zeros(n - 1), [0]);
    }
  }

  function FromTwosComplement(n: nat): int {
    if n < I63 then n else n - U64
  }

  // One record: its value and its length.
  function ReadOne(k: Codec, b: Buffer): (r: Result<(Value, nat)>)
    ensures r.Ok? ==> 0 < r.value.1 <= |b|
  {
    if b == [] then Err
    else if b[0] == TAG_ABSENT then Ok((BLANK, 1))
    else if b[0] == TAG_STRING then
      if |b| < 3 then Err
      else
        var len := FromLow(b[1..3]);
        if |b| < 3 + len || !k.utf8(b[3..3 + len]) then Err else Ok((Str(b[3..3 + len]), 3 + len))
    else if b[0] == TAG_INT then
      if |b| < 9 then Err else Ok((Num(FromTwosComplement(FromLow(b[1..9]))), 9))
    else Err
  }

  // The first n records.
  function ReadValues(k: Codec, b: Buffer, n: nat): Result<seq<Value>> {
    if n == 0 then Ok([])
    else
      var one := ReadOne(k, b);
      if one.Err? then Err
      else
        var rest := ReadValues(k, b[one.value.1..], n - 1);
        if rest.Err? then Err else Ok([one.value.0] + rest.value)
  }

  // Reading the whole comes to what was read so far followed by the rest.
  ghost predicate Continues(whole: Result<seq<Value>>, done: seq<Value>, rest: Result<seq<Value>>) {
    && (whole.Ok? <==> rest.Ok?)
    && (rest.Ok? ==> whole.value == done + rest.value)
  }

  lemma ReadStep(k: Codec, file: Buffer, at: nat, n: nat, whole: Result<seq<Value>>, done: seq<Value>)
    requires n > 0 && at <= |file| && Continues(whole, done, ReadValues(k, file[at..], n))
    ensures ReadOne(k, file[at..]).Err? ==> whole == Err
    ensures ReadOne(k, file[at..]).Ok? ==>
      var one := ReadOne(k, file[at..]).value;
      Continues(whole, done + [one.0], ReadValues(k, file[at + one.1..], n - 1))
  {
    var one := ReadOne(k, file[at..]);
    if one.Ok? {
      assert file[at..][one.value.1..] == file[at + one.value.1..];
      var rest := ReadValues(k, file[at + one.value.1..], n - 1);
      if rest.Ok? {
        assert done + ([one.value.0] + rest.value) == (done + [one.value.0]) + rest.value;
      }
    }
  }

  // read_temp_layer
  method ReadTempLayer(k: Codec, file: Buffer, tokenCount: nat) returns (r: Result<seq<Value>>)
    ensures r == ReadValues(k, file, tokenCount)
  {
    var values: seq<Value> := [];
    var at: nat := 0;
    ghost var whole := ReadValues(k, file, tokenCount);
    assert file[0..] == file;
    for i := 0 to tokenCount
      invariant at <= |file| && Continues(whole, values, ReadValues(k, file[at..], tokenCount - i))
    {
      var one := ReadOne(k, file[at..]);
      ReadStep(k, file, at, tokenCount - i, whole, values);
      if one.Err? {
        return Err;
      }
      values := values + [one.value.0];
      at := at + one.value.1;
    }
    assert values + [] == values;
    r := Ok(values);
  }

  // ---------------------------------------------------------------------------------
  // Reading back what was written.

  lemma NumberBack(n: int)
    requires -I63 <= n < I63
    ensures FromTwosComplement(FromLow(LowBytes(n % U64, 8))) == n
  {
    PowValues();
    LowRoundTrip(n % U64, 8);
    SmallMod(n % U64, U64);
    if n >= 0 {
      DivUnique(n, U64, 0, n);
    } else {
      DivUnique(n, U64, -1, n + U64);
    }
  }

  lemma NumberRecordReads(k: Codec, n: int, rest: Buffer)
    requires -I63 <= n < I63
    ensures ReadOne(k, ValueBytes(Num(n)) + rest) == Ok((Num(n), |ValueBytes(Num(n))|))
  {
    var low := LowBytes(n % U64, 8);
    var b := ValueBytes(Num(n)) + rest;
    NumberBack(n);
    assert b[0] == TAG_INT && b[1..9] == low;
  }

  // A string reads back as its first |text| mod 2^16 bytes.
  lemma StringRecordReads(k: Codec, text: Buffer, rest: Buffer)
    requires text != []
    ensures var len := |text| % 65536;
      ReadOne(k, ValueBytes(Str(text)) + rest) == if k.utf8(text[..len]) then Ok((Str(text[..len]), 3 + len)) else Err
  {
    var len, low := |text| % 65536, LowBytes(|text|, 2);
    var b := ValueBytes(Str(text)) + rest;
    PowValues();
    LowRoundTrip(|text|, 2);
    assert b == [TAG_STRING] + (low + (text + rest));
    assert b[0] == TAG_STRING && b[1..3] == low;
    assert b[3..] == text + rest;
    assert b[3..3 + len] == text[..len];
  }

  lemma OneReads(k: Codec, v: Value, rest: Buffer)
    requires ValidValue(k, v)
    ensures var r := ReadOne(k, ValueBytes(v) + rest);
      (r.Ok? && r.value.0 == v <==> Short(v)) && (Short(v) ==> r.value.1 == |ValueBytes(v)|)
  {
    if v.Num? {
      NumberRecordReads(k, v.n, rest);
    } else if v.text != [] {
      StringRecordReads(k, v.text, rest);
      var len := |v.text| % 65536;
      if Short(v) {
        SmallMod(|v.text|, 65536);
        assert v.text[..len] == v.text;
      } else {
        assert |v.text[..len]| < |v.text|;
      }
    }
  }

  lemma ReadSplit(k: Codec, b: Buffer, v: Value, vs: seq<Value>, len: nat)
    requires ReadOne(k, b) == Ok((v, len))
    ensures ReadValues(k, b, |vs| + 1) == Ok([v] + vs) <==> ReadValues(k, b[len..], |vs|) == Ok(vs)
  {
    var r := ReadValues(k, b[len..], |vs|);
    if r.Ok? && ReadValues(k, b, |vs| + 1) == Ok([v] + vs) {
      assert ([v] + vs)[1..] == vs && ([v] + r.value)[1..] == r.value;
    }
  }

  lemma ReadDiffers(k: Codec, b: Buffer, v: Value, vs: seq<Value>)
    requires ReadOne(k, b).Err? || ReadOne(k, b).value.0 != v
    ensures ReadValues(k, b, |vs| + 1) != Ok([v] + vs)
  {
    var r := ReadValues(k, b, |vs| + 1);
    if r.Ok? {
      assert r.value[0] != ([v] + vs)[0];
    }
  }

  lemma ReadRecord(k: Codec, head: Buffer, tail: Buffer, v: Value, vs: seq<Value>, fits: bool)
    requires var r := ReadOne(k, head + tail); (r.Ok? && r.value.0 == v <==> fits) && (fits ==> r.value.1 == |head|)
    ensures ReadValues(k, head + tail, |vs| + 1) == Ok([v] + vs) <==> fits && ReadValues(k, tail, |vs|) == Ok(vs)
  {
    if fits {
      assert (head + tail)[|head|..] == tail;
      ReadSplit(k, head + tail, v, vs, |head|);
    } else {
      ReadDiffers(k, head + tail, v, vs);
    }
  }

  // A layer survives its temporary file exactly when every string fits the length prefix.
  lemma {:induction false} TempRoundTrip(k: Codec, vs: seq<Value>)
    requires AllValid(k, vs)
    ensures ReadValues(k, Rendered(vs), |vs|) == Ok(vs) <==> AllShort(vs)
  {
    if vs != [] {
      var v, rest := vs[0], vs[1..];
      OneReads(k, v, Rendered(rest));
      TempRoundTrip(k, rest);
      ShortSplit(vs);
      assert vs == [v] + rest;
      ReadRecord(k, ValueBytes(v), Rendered(rest), v, rest, Short(v));
    }
  }

  lemma ShortSplit(vs: seq<Value>)
    requires vs != []
    ensures AllShort(vs) <==> Short(vs[0]) && AllShort(vs[1..])
  {
    if Short(vs[0]) && AllShort(vs[1..]) {
      forall i | 0 <= i < |vs|
        ensures Short(vs[i])
      {
        assert i > 0 ==> vs[i] == vs[1..][i - 1];
      }
    }
  }
}
