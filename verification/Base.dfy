/** Datatypes and byte encodings every component shares. */
module Base {

  datatype Option<+T> = None | Some(value: T)

  datatype Result<+T, +E> = Ok(value: T) | Err(error: E)

  type byte = n: nat | n < 256
  type Bytes = seq<byte>

  datatype Proto = Tcp | Udp

  /** How a server is dialled. */
  datatype Transport = DialAuto | DialUdp | DialTcp

  /** The two capabilities a peer can provide. */
  const PROVIDES_EXIT: byte := 1
  const PROVIDES_SEGMENT: byte := 2

  const U16_LIMIT: nat := 0x1_0000
  const U32_LIMIT: nat := 0x1_0000_0000
  const U64_LIMIT: nat := 0x1_0000_0000_0000_0000

  function Zeros(n: nat): (z: Bytes)
    ensures |z| == n
  {
    seq(n, _ => 0)
  }

  /** The concatenation of a list of byte strings. */
  function Join(parts: seq<Bytes>): Bytes {
    if parts == [] then [] else parts[0] + Join(parts[1..])
  }

  lemma {:induction false} JoinConcat(a: seq<Bytes>, b: seq<Bytes>)
    ensures Join(a + b) == Join(a) + Join(b)
  {
    if a == [] {
      assert a + b == b;
    } else {
      JoinConcat(a[1..], b);
      assert (a + b)[1..] == a[1..] + b && (a + b)[0] == a[0];
      assert Join(a + b) == a[0] + (Join(a[1..]) + Join(b));
    }
  }

  lemma {:induction false} JoinFew(a: Bytes, b: Bytes, rest: seq<Bytes>)
    ensures Join([a]) == a && Join([a, b]) == a + b && Join([a] + rest) == a + Join(rest)
  {
    var one: seq<Bytes> := [b];
    assert one[1..] == [] && Join(one) == b + Join(one[1..]);
    assert [a, b][1..] == one;
    var first: seq<Bytes> := [a];
    assert first[1..] == [] && Join(first) == a + Join(first[1..]);
    assert ([a] + rest)[1..] == rest;
  }

  /** The big-endian rendering of `v` in `width` bytes, truncating like an `as` cast. */
  function BigEndian(v: nat, width: nat): (b: Bytes)
    ensures |b| == width
    decreases width
  {
    if width == 0 then [] else BigEndian(v / 256, width - 1) + [v % 256]
  }

  /** The value of big-endian bytes. */
  function FromBigEndian(b: Bytes): nat
  {
    if b == [] then 0 else 256 * FromBigEndian(b[..|b| - 1]) + b[|b| - 1]
  }

  function Pow256(width: nat): (p: nat)
    ensures p >= 1
  {
    if width == 0 then 1 else 256 * Pow256(width - 1)
  }

  function Pow2(n: nat): (p: nat)
    ensures p >= 1
  {
    if n == 0 then 1 else 2 * Pow2(n - 1)
  }

  /** A value that fits its width survives the trip through its bytes. */
  lemma {:induction false} BigEndianRoundTrip(v: nat, width: nat)
    requires v < Pow256(width)
    ensures FromBigEndian(BigEndian(v, width)) == v
    decreases width
  {
    if width > 0 {
      var front := BigEndian(v / 256, width - 1);
      BigEndianRoundTrip(v / 256, width - 1);
      assert (front + [v % 256])[..|front|] == front;
    }
  }

  /** Bytes are the rendering of their own value, so equal values mean equal bytes. */
  lemma {:induction false} FromBigEndianRoundTrip(b: Bytes)
    ensures FromBigEndian(b) < Pow256(|b|)
    ensures BigEndian(FromBigEndian(b), |b|) == b
    decreases |b|
  {
    if b != [] {
      var front := b[..|b| - 1];
      FromBigEndianRoundTrip(front);
      assert b == front + [b[|b| - 1]];
    }
  }

  lemma {:induction false} SmallMultiple(d: int, x: int)
    requires -d < d * x < d
    ensures x == 0
  {
  }

  lemma {:induction false} QuotientIs(w: nat, d: nat, q: nat, r: nat)
    requires w == d * q + r && r < d
    ensures w / d == q
  {
    var x := q - w / d;
    assert d * x == d * q - d * (w / d);
    SmallMultiple(d, x);
  }

  lemma {:induction false} Regroup(p: nat, q: nat, r: nat, low: nat)
    ensures 256 * (p * q + r) + low == (256 * p) * q + (256 * r + low)
  {
  }

  lemma {:induction false} DivTwice(w: nat, p: nat)
    requires p > 0
    ensures w / 256 / p == w / (256 * p)
  {
    var high, low := w / 256, w % 256;
    var q, r := high / p, high % p;
    assert high == p * q + r && r <= p - 1;
    Regroup(p, q, r, low);
    QuotientIs(w, 256 * p, q, 256 * r + low);
  }

  /** Big-endian bytes are the digits to base 256, the highest first. */
  lemma {:induction false} BigEndianByte(v: nat, width: nat, i: nat)
    requires i < width
    ensures BigEndian(v, width)[i] == v / Pow256(width - 1 - i) % 256
    decreases width
  {
    if i < width - 1 {
      BigEndianByte(v / 256, width - 1, i);
      DivTwice(v, Pow256(width - 2 - i));
    }
  }

  lemma {:induction false} WidthLimits()
    ensures Pow256(1) == 256 && Pow256(2) == U16_LIMIT
    ensures Pow256(4) == U32_LIMIT && Pow256(8) == U64_LIMIT
  {
    assert Pow256(3) == 256 * Pow256(2);
    assert Pow256(4) == 256 * Pow256(3);
    assert Pow256(5) == 256 * Pow256(4);
    assert Pow256(6) == 256 * Pow256(5);
    assert Pow256(7) == 256 * Pow256(6);
  }

  lemma {:induction false} SubsetSize<T>(a: set<T>, b: set<T>)
    requires a <= b
    ensures |a| <= |b|
  {
    if a != {} {
      var x :| x in a;
      SubsetSize(a - {x}, b - {x});
    }
  }
}
