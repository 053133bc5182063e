// Fixed-width integers as bytes, and slices of a file image.
module Bytes {
  import opened Core

  type Byte = x: int | 0 <= x < 256

  type Buffer = seq<Byte>

  // The byte order of the machine that writes or reads a file.
  datatype Order = Little | Big

  function Pow256(w: nat): (r: nat)
    ensures r > 0
  {
    if w == 0 then 1 else 256 * Pow256(w - 1)
  }

  // The low w bytes of n, least significant first.
  function LowBytes(n: nat, w: nat): (r: Buffer)
    ensures |r| == w
    decreases w, n
  {
    if w == 0 then [] else [n % 256] + LowBytes(n / 256, w - 1)
  }

  function FromLow(b: Buffer): (r: nat)
    ensures r < Pow256(|b|)
  {
    if b == [] then 0 else b[0] + 256 * FromLow(b[1..])
  }

  // A value cast to w bytes reads back modulo 256^w.
  lemma {:induction false} LowRoundTrip(n: nat, w: nat)
    ensures FromLow(LowBytes(n, w)) == n % Pow256(w)
    decreases w
  {
    if w > 0 {
      LowRoundTrip(n / 256, w - 1);
      var p := Pow256(w - 1);
      assert LowBytes(n, w)[1..] == LowBytes(n / 256, w - 1);
      ModSplit(n, p);
    }
  }

  lemma ModSplit(n: nat, p: nat)
    requires p > 0
    ensures n % (256 * p) == n % 256 + 256 * ((n / 256) % p)
  {
    var q, r := n / 256, n % 256;
    var a, b := q / p, q % p;
    assert n == (256 * p) * a + (256 * b + r) by {
      assert n == 256 * q + r && q == p * a + b;
      assert 256 * (p * a) == (256 * p) * a;
    }
    assert 0 <= 256 * b + r < 256 * p;
    DivUnique(n, 256 * p, a, 256 * b + r);
  }

  lemma DivUnique(n: int, d: nat, a: int, r: nat)
    requires d > 0 && n == d * a + r && r < d
    ensures n % d == r && n / d == a
  {
    var q := n / d;
    assert d * (q - a) == r - n % d by {
      assert n == d * q + n % d;
      assert d * q - d * a == d * (q - a);
    }
    SmallMultiple(d, q - a);
  }

  lemma SmallMultiple(d: int, x: int)
    requires d > 0 && -d < d * x < d
    ensures x == 0
  {
    assert x >= 1 ==> d * x >= d * 1;
    assert x <= -1 ==> d * x <= d * -1;
  }

  lemma SmallMod(n: nat, p: nat)
    requires n < p
    ensures n % p == n
  {
  }

  function Reverse(b: Buffer): (r: Buffer)
    ensures |r| == |b|
    ensures forall i :: 0 <= i < |b| ==> r[i] == b[|b| - 1 - i]
  {
    if b == [] then [] else Reverse(b[1..]) + [b[0]]
  }

  lemma ReverseTwice(b: Buffer)
    ensures Reverse(Reverse(b)) == b
  {
  }

  // to_ne_bytes and from_ne_bytes.
  function Encode(o: Order, n: nat, w: nat): (r: Buffer)
    ensures |r| == w
  {
    if o.Little? then LowBytes(n, w) else Reverse(LowBytes(n, w))
  }

  function Decode(o: Order, b: Buffer): nat {
    if o.Little? then FromLow(b) else FromLow(Reverse(b))
  }

  lemma DivTwice(n: nat, p: nat)
    requires p > 0
    ensures n / (256 * p) == (n / 256) / p
  {
    var q, r := n / 256, n % 256;
    var a, b := q / p, q % p;
    assert n == (256 * p) * a + (256 * b + r) by {
      assert n == 256 * q + r && q == p * a + b;
      assert 256 * (p * a) == (256 * p) * a;
    }
    DivUnique(n, 256 * p, a, 256 * b + r);
  }

  lemma {:induction false} LowByte(n: nat, w: nat, i: nat)
    requires i < w
    ensures LowBytes(n, w)[i] == n / Pow256(i) % 256
    decreases w
  {
    if i > 0 {
      LowByte(n / 256, w - 1, i - 1);
      DivTwice(n, Pow256(i - 1));
    }
  }

  lemma EncodeOrder(o: Order, n: nat, w: nat, i: nat)
    requires i < w
    ensures Encode(o, n, w)[if o.Little? then i else w - 1 - i] == LowBytes(n, w)[i]
  {
    var b := LowBytes(n, w);
    assert b[i] == Reverse(b)[w - 1 - i];
  }

  // The byte that stands for 256^i: from the left in little-endian order, from the right in
  // big-endian order.
  lemma EncodedByte(o: Order, n: nat, w: nat, i: nat)
    requires i < w
    ensures Encode(o, n, w)[if o.Little? then i else w - 1 - i] == n / Pow256(i) % 256
  {
    EncodeOrder(o, n, w, i);
    LowByte(n, w, i);
  }

  lemma EncodeRoundTrip(o: Order, n: nat, w: nat)
    ensures Decode(o, Encode(o, n, w)) == n % Pow256(w)
  {
    LowRoundTrip(n, w);
    ReverseTwice(LowBytes(n, w));
  }

  lemma EncodeExact(o: Order, n: nat, w: nat)
    requires n < Pow256(w)
    ensures Decode(o, Encode(o, n, w)) == n
  {
    EncodeRoundTrip(o, n, w);
    SmallMod(n, Pow256(w));
  }

  lemma PowValues()
    ensures Pow256(1) == 256 && Pow256(2) == 65536 && Pow256(4) == 0x1_0000_0000
    ensures Pow256(8) == 0x1_0000_0000 * 0x1_0000_0000
  {
    assert Pow256(3) == 256 * Pow256(2);
    assert Pow256(5) == 256 * Pow256(4);
    assert Pow256(6) == 256 * Pow256(5);
    assert Pow256(7) == 256 * Pow256(6);
  }

  // The bytes stand in the buffer at this offset.
  ghost predicate Has(buf: Buffer, off: nat, bytes: Buffer) {
    off + |bytes| <= |buf| && forall i :: 0 <= i < |bytes| ==> bytes[i] == buf[off + i]
  }

  lemma HasSlice(buf: Buffer, off: nat, bytes: Buffer)
    ensures Has(buf, off, bytes) <==> off + |bytes| <= |buf| && buf[off..off + |bytes|] == bytes
  {
    if off + |bytes| <= |buf| && buf[off..off + |bytes|] == bytes {
      forall i | 0 <= i < |bytes|
        ensures bytes[i] == buf[off + i]
      {
        assert buf[off..off + |bytes|][i] == buf[off + i];
      }
    }
  }

  lemma HasPart(buf: Buffer, off: nat, bytes: Buffer, lo: nat, hi: nat)
    requires Has(buf, off, bytes) && lo <= hi <= |bytes|
    ensures Has(buf, off + lo, bytes[lo..hi])
  {
    HasSlice(buf, off, bytes);
    HasSlice(buf, off + lo, bytes[lo..hi]);
    var part := buf[off..off + |bytes|];
    forall i | 0 <= i < hi - lo
      ensures buf[off + lo..off + hi][i] == part[lo..hi][i]
    {
    }
    assert buf[off + lo..off + hi] == part[lo..hi];
  }

  lemma HasAppended(buf: Buffer, more: Buffer, off: nat, bytes: Buffer)
    requires Has(buf, off, bytes)
    ensures Has(buf + more, off, bytes)
  {
    HasSlice(buf, off, bytes);
    HasSlice(buf + more, off, bytes);
    assert (buf + more)[off..off + |bytes|] == buf[off..off + |bytes|];
  }

  lemma HasAtEnd(buf: Buffer, bytes: Buffer)
    ensures Has(buf + bytes, |buf|, bytes)
  {
    HasSlice(buf + bytes, |buf|, bytes);
  }

  lemma HasFits(buf: Buffer, off: nat, bytes: Buffer)
    requires Has(buf, off, bytes)
    ensures off + |bytes| <= |buf|
  {
    HasSlice(buf, off, bytes);
  }

  lemma HasWhole(buf: Buffer)
    ensures Has(buf, 0, buf)
  {
    HasSlice(buf, 0, buf);
  }

  // The next multiple of 8.
  function AlignTo8(n: nat): (r: nat)
    ensures n <= r < n + 8
  {
    (n + 7) / 8 * 8
  }

  lemma AlignIsMultiple(n: nat)
    ensures AlignTo8(n) % 8 == 0
    ensures n <= AlignTo8(n) < n + 8
  {
  }

  function Zeros(n: nat): (r: Buffer)
    ensures |r| == n
    decreases n, 0
  {
    if n == 0 then [] else Zeros(n - 1) + [0]
  }
}
