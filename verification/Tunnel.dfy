/** The layers put together: a handshake computed with BLAKE2s, and the datagrams its keys seal. */
module Tunnel {
  import opened Base
  import opened Crypto
  import B = Blake2s
  import H = Handshake
  import D = Datagram

  /** The suite of both handshakes, over a compression function, an AEAD and a key exchange. */
  ghost function SuiteOf(f: B.Compress, aead: Aead, dh: (Bytes, Bytes) -> Bytes, point: Bytes): H.Suite
    requires B.EightWords(f)
  {
    H.Suite(aead, x => B.Hash(f, x), (k, x) => B.HmacAnyKey(f, k, x), dh, point)
  }

  ghost predicate LawfulExchange(dh: (Bytes, Bytes) -> Bytes, point: Bytes) {
    && (forall x, y :: |dh(x, y)| == H.DHLEN)
    && (forall x, y :: dh(x, dh(y, point)) == dh(y, dh(x, point)))
  }

  lemma {:induction false} DigestLength(f: B.Compress, x: Bytes)
    requires B.EightWords(f)
    ensures |B.Hash(f, x)| == H.HASHLEN
  {
  }

  lemma {:induction false} MacLength(f: B.Compress, k: Bytes, x: Bytes)
    requires B.EightWords(f)
    ensures |B.HmacAnyKey(f, k, x)| == H.HASHLEN
  {
    DigestLength(f, k);
    var k' := if |k| > B.BLOCK then B.Hash(f, k) else k;
    DigestLength(f, B.FlippedPad(0x5c, k') + B.Hash(f, B.FlippedPad(0x36, k') + x));
  }

  /** BLAKE2s and its HMAC meet what the handshakes ask of a hash, whatever its round does. */
  lemma {:induction false} SuiteIsLawful(f: B.Compress, aead: Aead, dh: (Bytes, Bytes) -> Bytes, point: Bytes)
    requires B.EightWords(f) && LawfulAead(aead) && LawfulExchange(dh, point)
    ensures H.LawfulSuite(SuiteOf(f, aead, dh, point))
  {
    var suite := SuiteOf(f, aead, dh, point);
    forall x
      ensures |suite.hash(x)| == H.HASHLEN
    {
      DigestLength(f, x);
    }
    forall k, x
      ensures |suite.hmac(k, x)| == H.HASHLEN
    {
      MacLength(f, k, x);
    }
    assert forall x, y :: suite.dh(x, H.Public(suite, y)) == suite.dh(y, H.Public(suite, x));
  }

  /** The datagram lanes between two ends that hold these keys; the initiator is on the left. */
  function NetOf(aead: Aead, tag: nat, initiator: H.Keys, responder: H.Keys): D.Net {
    D.Net(aead, tag, initiator.send, responder.send)
  }

  /** Mirrored keys are one net's: each end opens with what the other seals with, and the net is
      lawful exactly when the two directions have different keys. */
  lemma {:induction false} MirroredKeysMakeANet(aead: Aead, tag: nat, initiator: H.Keys, responder: H.Keys)
    requires LawfulAead(aead) && tag < U32_LIMIT && H.Mirrored(initiator, responder)
    ensures var net := NetOf(aead, tag, initiator, responder);
            && D.SendKey(net, D.Left) == initiator.send && D.RecvKey(net, D.Left) == initiator.recv
            && D.SendKey(net, D.Right) == responder.send && D.RecvKey(net, D.Right) == responder.recv
            && (D.Lawful(net) <==> initiator.send != initiator.recv)
  {
  }

  /** This run, if the net allows it, delivers at each end only what the other sealed, each under
      a nonce of its own. */
  ghost predicate DeliversOnce(net: D.Net, steps: seq<D.Step>) {
    D.ValidRun(net, D.INIT, steps) ==>
      var w := D.Run(net, D.INIT, steps);
      && (forall s: D.Side, i :: 0 <= i < |D.At(w, s).delivered| ==>
            D.Genuine(w.seals, D.SendKey(net, D.Other(s)), D.At(w, s).delivered[i]))
      && (forall s: D.Side, i, j :: 0 <= i < j < |D.At(w, s).delivered| ==>
            D.At(w, s).delivered[i].0 != D.At(w, s).delivered[j].0)
  }

  /** What two ends with these keys get: one net between them, and if its directions differ in
      key, safe delivery over any network. */
  ghost predicate Tunnels(aead: Aead, tag: nat, initiator: H.Keys, responder: H.Keys, steps: seq<D.Step>) {
    var net := NetOf(aead, tag, initiator, responder);
    && D.RecvKey(net, D.Left) == initiator.recv && D.RecvKey(net, D.Right) == responder.recv
    && (initiator.send != initiator.recv ==> DeliversOnce(net, steps))
  }

  lemma {:induction false} MirroredKeysTunnel(aead: Aead, tag: nat, initiator: H.Keys, responder: H.Keys,
                                              steps: seq<D.Step>)
    requires LawfulAead(aead) && tag < U32_LIMIT && H.Mirrored(initiator, responder)
    ensures Tunnels(aead, tag, initiator, responder, steps)
  {
    MirroredKeysMakeANet(aead, tag, initiator, responder);
    var net := NetOf(aead, tag, initiator, responder);
    if initiator.send != initiator.recv && D.ValidRun(net, D.INIT, steps) {
      D.EveryRunDeliversWhatWasSentOnce(net, steps);
    }
  }

  /** Main result: after any XX handshake whose two transport keys differ, over any network and in
      every run, each end delivers only what the other sealed, each at most once. */
  lemma {:induction false} HandshakeThenDatagrams(
      f: B.Compress, aead: Aead, dh: (Bytes, Bytes) -> Bytes, point: Bytes,
      sI: Bytes, eI: Bytes, sR: Bytes, eR: Bytes, prologue: Bytes, payloads: (Bytes, Bytes, Bytes),
      tag: nat, steps: seq<D.Step>)
    requires B.EightWords(f) && LawfulAead(aead) && LawfulExchange(dh, point) && tag < U32_LIMIT
    ensures var suite := SuiteOf(f, aead, dh, point);
            var i, r := H.XxStart(suite, sI, eI, prologue), H.XxStart(suite, sR, eR, prologue);
            var out := H.XxExchange(suite, i, r, payloads.0, payloads.1, payloads.2);
            && out.Some?
            && Tunnels(aead, tag, H.Split(suite, out.value.initiator.sym, true),
                       H.Split(suite, out.value.responder.sym, false), steps)
  {
    var suite := SuiteOf(f, aead, dh, point);
    SuiteIsLawful(f, aead, dh, point);
    H.XxCompletes(suite, sI, eI, sR, eR, prologue, payloads.0, payloads.1, payloads.2);
    var i, r := H.XxStart(suite, sI, eI, prologue), H.XxStart(suite, sR, eR, prologue);
    var out := H.XxExchange(suite, i, r, payloads.0, payloads.1, payloads.2).value;
    MirroredKeysTunnel(aead, tag, H.Split(suite, out.initiator.sym, true),
                       H.Split(suite, out.responder.sym, false), steps);
  }

  /** The same after any NNpsk0 handshake. */
  lemma {:induction false} PskHandshakeThenDatagrams(
      f: B.Compress, aead: Aead, dh: (Bytes, Bytes) -> Bytes, point: Bytes, psk: Bytes, prologue: Bytes,
      eI: Bytes, eR: Bytes, payloads: (Bytes, Bytes), tag: nat, steps: seq<D.Step>)
    requires B.EightWords(f) && LawfulAead(aead) && LawfulExchange(dh, point) && tag < U32_LIMIT
    ensures var suite := SuiteOf(f, aead, dh, point);
            var start := H.NnStart(suite, psk, prologue);
            var (i1, m1) := H.NnWrite(suite, start, eI, None, payloads.0);
            H.NnRead(suite, start, None, m1) == Some((i1, H.Public(suite, eI), payloads.0))
            && var (r2, m2) := H.NnWrite(suite, i1, eR, Some(H.Public(suite, eI)), payloads.1);
            && H.NnRead(suite, i1, Some(eI), m2) == Some((r2, H.Public(suite, eR), payloads.1))
            && Tunnels(aead, tag, H.Split(suite, r2, true), H.Split(suite, r2, false), steps)
  {
    var suite := SuiteOf(f, aead, dh, point);
    SuiteIsLawful(f, aead, dh, point);
    H.NnCompletes(suite, psk, prologue, eI, eR, payloads.0, payloads.1);
    var (i1, _) := H.NnWrite(suite, H.NnStart(suite, psk, prologue), eI, None, payloads.0);
    var (r2, _) := H.NnWrite(suite, i1, eR, Some(H.Public(suite, eI)), payloads.1);
    MirroredKeysTunnel(aead, tag, H.Split(suite, r2, true), H.Split(suite, r2, false), steps);
  }
}
