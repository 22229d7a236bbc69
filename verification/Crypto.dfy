/** The primitives the tunnel builds on, as parameters with the laws it relies on. */
module Crypto {
  import opened Base

  const TAGLEN: nat := 16

  /** ChaCha20-Poly1305 with its counter nonce: `seal(key, nonce, ad, plaintext)` is the
      ciphertext followed by its tag, and `open` inverts it or refuses. */
  datatype Aead = Aead(
    seal: (Bytes, nat, Bytes, Bytes) -> Bytes,
    open: (Bytes, nat, Bytes, Bytes) -> Option<Bytes>)

  /** Opening undoes sealing, and only sealed text opens. */
  ghost predicate LawfulAead(a: Aead) {
    && (forall k, n, ad, p :: |a.seal(k, n, ad, p)| == |p| + TAGLEN)
    && (forall k, n, ad, p :: a.open(k, n, ad, a.seal(k, n, ad, p)) == Some(p))
    && (forall k, n, ad, c :: a.open(k, n, ad, c).Some? ==> c == a.seal(k, n, ad, a.open(k, n, ad, c).value))
  }

  lemma {:induction false} OpenedLength(a: Aead, k: Bytes, n: nat, ad: Bytes, c: Bytes)
    requires LawfulAead(a) && a.open(k, n, ad, c).Some?
    ensures |c| == |a.open(k, n, ad, c).value| + TAGLEN
  {
    assert c == a.seal(k, n, ad, a.open(k, n, ad, c).value);
  }

  /** Sealing as an appended zero tag: useless as a cipher, and lawful. */
  function TagOnly(): Aead {
    Aead((k, n, ad, p) => p + Zeros(TAGLEN),
         (k, n, ad, c) => if |c| >= TAGLEN && c[|c| - TAGLEN..] == Zeros(TAGLEN) then Some(c[..|c| - TAGLEN]) else None)
  }

  /** The laws contradict neither each other nor anything else: something meets them. */
  lemma {:induction false} AeadLawsAreConsistent()
    ensures LawfulAead(TagOnly())
  {
    var a := TagOnly();
    forall k: Bytes, n: nat, ad: Bytes, p: Bytes
      ensures a.open(k, n, ad, a.seal(k, n, ad, p)) == Some(p)
    {
      var c := p + Zeros(TAGLEN);
      assert c[..|p|] == p && c[|p|..] == Zeros(TAGLEN);
    }
    forall k: Bytes, n: nat, ad: Bytes, c: Bytes | a.open(k, n, ad, c).Some?
      ensures c == a.seal(k, n, ad, a.open(k, n, ad, c).value)
    {
      assert c == c[..|c| - TAGLEN] + c[|c| - TAGLEN..];
    }
  }
}
