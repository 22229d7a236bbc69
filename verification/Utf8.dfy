/** UTF-8 well-formedness, as `String::from_utf8` decides it (Unicode Standard, table 3-7). */
module Utf8 {
  import opened Base

  predicate Continuation(b: byte) {
    0x80 <= b <= 0xBF
  }

  /** The length of the well-formed code point at the front of `s`, or 0 when there is none. */
  function LeadingCodePoint(s: Bytes): (n: nat)
    ensures n <= |s| && n <= 4
  {
    if s == [] then 0
    else if s[0] <= 0x7F then 1
    else if |s| >= 2 && 0xC2 <= s[0] <= 0xDF && Continuation(s[1]) then 2
    else if |s| >= 3 && Continuation(s[2]) && ThreeByteLead(s[0], s[1]) then 3
    else if |s| >= 4 && Continuation(s[2]) && Continuation(s[3]) && FourByteLead(s[0], s[1]) then 4
    else 0
  }

  predicate ThreeByteLead(a: byte, b: byte) {
    || (a == 0xE0 && 0xA0 <= b <= 0xBF)
    || (0xE1 <= a <= 0xEC && Continuation(b))
    || (a == 0xED && 0x80 <= b <= 0x9F)
    || (0xEE <= a <= 0xEF && Continuation(b))
  }

  predicate FourByteLead(a: byte, b: byte) {
    || (a == 0xF0 && 0x90 <= b <= 0xBF)
    || (0xF1 <= a <= 0xF3 && Continuation(b))
    || (a == 0xF4 && 0x80 <= b <= 0x8F)
  }

  /** Whether `s` is a concatenation of well-formed code points. */
  predicate Valid(s: Bytes)
    decreases |s|
  {
    s == [] || (var n := LeadingCodePoint(s); n > 0 && Valid(s[n..]))
  }

  // ---------------------------------------------------------------- the text it stands for

  /** A Unicode scalar value: any code point but the surrogates. */
  predicate Scalar(c: nat) {
    c < 0xD800 || 0xE000 <= c < 0x11_0000
  }

  /** The bytes of one scalar value: six bits to a continuation byte, in the fewest bytes that hold it. */
  function Encoded(c: nat): (s: Bytes)
    requires Scalar(c)
    ensures 1 <= |s| <= 4
  {
    if c < 0x80 then [c]
    else if c < 0x800 then [0xC0 + c / 64, 0x80 + c % 64]
    else if c < 0x1_0000 then [0xE0 + c / 4096, 0x80 + c / 64 % 64, 0x80 + c % 64]
    else [0xF0 + c / 26_2144, 0x80 + c / 4096 % 64, 0x80 + c / 64 % 64, 0x80 + c % 64]
  }

  ghost predicate Scalars(cs: seq<nat>) {
    forall i :: 0 <= i < |cs| ==> Scalar(cs[i])
  }

  function Text(cs: seq<nat>): Bytes
    requires Scalars(cs)
  {
    if cs == [] then [] else Encoded(cs[0]) + Text(cs[1..])
  }

  /** A scalar value's bytes are read off the front of any string they begin. */
  lemma {:induction false} EncodedLeads(c: nat, rest: Bytes)
    requires Scalar(c)
    ensures LeadingCodePoint(Encoded(c) + rest) == |Encoded(c)|
  {
    var s := Encoded(c) + rest;
    assert |s| == |Encoded(c)| + |rest|;
    assert forall i :: 0 <= i < |Encoded(c)| ==> s[i] == Encoded(c)[i];
  }

  /** Taking the six low bits off a number put together from them. */
  lemma {:induction false} SixBits(hi: nat, lo: nat)
    requires lo < 64
    ensures (64 * hi + lo) / 64 == hi && (64 * hi + lo) % 64 == lo
  {}

  /** What stands at the front of a string is the encoding of a scalar value. */
  lemma {:induction false} LeadIsEncoded(s: Bytes) returns (c: nat)
    requires LeadingCodePoint(s) > 0
    ensures Scalar(c) && Encoded(c) == s[..LeadingCodePoint(s)]
  {
    var n := LeadingCodePoint(s);
    if n == 1 {
      c := s[0];
    } else if n == 2 {
      c := Two(s[0], s[1]);
    } else if n == 3 {
      c := Three(s[0], s[1], s[2]);
    } else {
      c := Four(s[0], s[1], s[2], s[3]);
    }
  }

  lemma {:induction false} Two(a: nat, b: nat) returns (c: nat)
    requires 0xC2 <= a <= 0xDF && 0x80 <= b <= 0xBF
    ensures Scalar(c) && Encoded(c) == [a, b]
  {
    c := 64 * (a - 0xC0) + (b - 0x80);
    SixBits(a - 0xC0, b - 0x80);
  }

  lemma {:induction false} Three(a: byte, b: byte, d: byte) returns (c: nat)
    requires ThreeByteLead(a, b) && Continuation(d)
    ensures Scalar(c) && Encoded(c) == [a, b, d]
  {
    var x: nat, y: nat, z: nat := a - 0xE0, b - 0x80, d - 0x80;
    c := 64 * (64 * x + y) + z;
    SixBits(64 * x + y, z);
    SixBits(x, y);
    assert c / 4096 == x;
  }

  lemma {:induction false} Four(a: byte, b: byte, d: byte, e: byte) returns (c: nat)
    requires FourByteLead(a, b) && Continuation(d) && Continuation(e)
    ensures Scalar(c) && Encoded(c) == [a, b, d, e]
  {
    var x: nat, y: nat, z: nat, w: nat := a - 0xF0, b - 0x80, d - 0x80, e - 0x80;
    c := 64 * (64 * (64 * x + y) + z) + w;
    SixBits(64 * (64 * x + y) + z, w);
    SixBits(64 * x + y, z);
    SixBits(x, y);
    assert c / 4096 == 64 * x + y;
    assert c / 26_2144 == x;
  }

  lemma {:induction false} TextIsValid(cs: seq<nat>)
    requires Scalars(cs)
    ensures Valid(Text(cs))
  {
    if cs == [] {
    } else {
      EncodedLeads(cs[0], Text(cs[1..]));
      TextIsValid(cs[1..]);
      assert Text(cs)[|Encoded(cs[0])|..] == Text(cs[1..]);
    }
  }

  lemma {:induction false} ValidIsText(s: Bytes) returns (cs: seq<nat>)
    requires Valid(s)
    ensures Scalars(cs) && Text(cs) == s
    decreases |s|
  {
    if s == [] {
      cs := [];
    } else {
      var n := LeadingCodePoint(s);
      var c := LeadIsEncoded(s);
      var rest := ValidIsText(s[n..]);
      cs := [c] + rest;
      assert cs[1..] == rest;
      assert s == s[..n] + s[n..];
    }
  }

  /** A byte string is accepted exactly when it spells some sequence of scalar values. */
  lemma {:induction false} ValidIffText(s: Bytes)
    ensures Valid(s) <==> exists cs :: Scalars(cs) && Text(cs) == s
  {
    if Valid(s) {
      var cs := ValidIsText(s);
    }
    forall cs | Scalars(cs) && Text(cs) == s ensures Valid(s) {
      TextIsValid(cs);
    }
  }
}
