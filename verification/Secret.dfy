/** 32-byte secrets as 64 hexadecimal characters, and the values a seed derives
    (`crates/secret/src/lib.rs`, `src/seed.rs`). */
module Secret {
  import opened Base

  const BYTE_LEN: nat := 32
  const HEX_LEN: nat := 64

  function Nibble(c: char): Option<nat> {
    if '0' <= c <= '9' then Some(c as nat - '0' as nat)
    else if 'a' <= c <= 'f' then Some(c as nat - 'a' as nat + 10)
    else if 'A' <= c <= 'F' then Some(c as nat - 'A' as nat + 10)
    else None
  }

  function Digit(n: nat): char
    requires n < 16
  {
    if n < 10 then ('0' as nat + n) as char else ('a' as nat + n - 10) as char
  }

  function FromHex(s: string): (b: Option<Bytes>)
    ensures b.Some? ==> 2 * |b.value| == |s|
  {
    if s == [] then Some([])
    else if |s| == 1 then None
    else
      match (Nibble(s[0]), Nibble(s[1]), FromHex(s[2..]))
      case (Some(hi), Some(lo), Some(rest)) => Some([16 * hi + lo] + rest)
      case _ => None
  }

  function Decode(s: string): (b: Option<Bytes>)
    ensures b.Some? ==> |b.value| == BYTE_LEN
  {
    if |s| != HEX_LEN then None else FromHex(s)
  }

  function Encode(b: Bytes): (s: string)
    ensures |s| == 2 * |b|
    ensures Lexable(s)
  {
    if b == [] then [] else [Digit(b[0] / 16), Digit(b[0] % 16)] + Encode(b[1..])
  }

  /** The characters the config lexer takes inside a quoted string. */
  predicate Lexable(s: string) {
    forall i :: 0 <= i < |s| ==> s[i] >= ' '
  }

  function Normalize(s: string): Option<string> {
    match Decode(s)
    case Some(b) => Some(Encode(b))
    case None => None
  }

  lemma {:induction false} FromHexOfEncode(b: Bytes)
    ensures FromHex(Encode(b)) == Some(b)
  {
    if b != [] {
      FromHexOfEncode(b[1..]);
      assert Encode(b)[2..] == Encode(b[1..]);
      assert [b[0]] + b[1..] == b;
    }
  }

  /** Encoding is undone by decoding, and normalizing keeps the key. */
  lemma {:induction false} DecodeOfEncode(b: Bytes)
    requires |b| == BYTE_LEN
    ensures Decode(Encode(b)) == Some(b)
  {
    FromHexOfEncode(b);
  }

  lemma {:induction false} NormalizeKeepsKey(s: string)
    requires Normalize(s).Some?
    ensures Decode(Normalize(s).value) == Decode(s)
  {
    DecodeOfEncode(Decode(s).value);
  }

  const LOWER: string := "0123456789abcdef"
  const UPPER: string := "0123456789ABCDEF"

  /** Two digits a byte, the high one first and letters in lower case; */
  lemma {:induction false} EncodeDigits(b: Bytes, i: nat)
    requires i < |b|
    ensures Encode(b)[2 * i] == LOWER[b[i] / 16] && Encode(b)[2 * i + 1] == LOWER[b[i] % 16]
  {
    if i > 0 {
      EncodeDigits(b[1..], i - 1);
      assert Encode(b)[2 * i] == Encode(b[1..])[2 * (i - 1)];
      assert Encode(b)[2 * i + 1] == Encode(b[1..])[2 * (i - 1) + 1];
    }
  }

  /** either case is read. */
  lemma {:induction false} NibbleIff(c: char, n: nat)
    requires n < 16
    ensures Nibble(c) == Some(n) <==> c == LOWER[n] || c == UPPER[n]
  {
  }

  /** The hash behind every derived value: a label, a suffix and the seed, to 32 bytes. */
  type Derivation = (string, string, Bytes) -> Bytes

  function Network(h: Derivation, seed: Bytes): (s: string)
    ensures Lexable(s)
  {
    Encode(h("zeronat:v1:network", "", seed))
  }

  function Discovery(h: Derivation, seed: Bytes): (s: string)
    ensures Lexable(s)
  {
    Encode(h("zeronat:v1:discovery", "", seed))
  }

  function Client(h: Derivation, seed: Bytes, id: string): (s: string)
    ensures Lexable(s)
  {
    Encode(h("zeronat:v1:client:", id, seed))
  }
}
