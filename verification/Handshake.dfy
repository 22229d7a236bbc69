/** The two Noise handshakes, `Noise_NNpsk0` and `Noise_XX`, as symmetric-state machines
    (`src/noise.rs`; Noise Protocol Framework revision 34, sections 5.2, 5.3, 7.5 and 9). */
module Handshake {
  import opened Base
  import opened Crypto

  const HASHLEN: nat := 32
  const DHLEN: nat := 32

  /** What a handshake computes with. `hash` and `hmac` are BLAKE2s, `dh` is X25519 and
      `base` its base point. */
  datatype Suite = Suite(
    aead: Aead, hash: Bytes -> Bytes, hmac: (Bytes, Bytes) -> Bytes, dh: (Bytes, Bytes) -> Bytes, base: Bytes)

  function Public(suite: Suite, secret: Bytes): Bytes {
    suite.dh(secret, suite.base)
  }

  ghost predicate LawfulSuite(suite: Suite) {
    && LawfulAead(suite.aead)
    && (forall x :: |suite.hash(x)| == HASHLEN)
    && (forall x, y :: |suite.hmac(x, y)| == HASHLEN)
    && (forall x, y :: |suite.dh(x, y)| == DHLEN)
    && (forall x, y :: suite.dh(x, Public(suite, y)) == suite.dh(y, Public(suite, x)))
  }

  /** The suite's laws can be met together. */
  lemma {:induction false} SuiteLawsAreConsistent()
    ensures exists suite :: LawfulSuite(suite)
  {
    AeadLawsAreConsistent();
    var suite := Suite(TagOnly(), x => Zeros(HASHLEN), (x, y) => Zeros(HASHLEN), (x, y) => Zeros(DHLEN), Zeros(DHLEN));
    assert LawfulSuite(suite);
  }

  // ---------------------------------------------------------------- symmetric state

  datatype Sym = Sym(ck: Bytes, h: Bytes, k: Option<Bytes>, n: nat)

  function Padded(name: Bytes): (b: Bytes)
    requires |name| <= HASHLEN
    ensures |b| == HASHLEN
    decreases HASHLEN - |name|
  {
    if |name| == HASHLEN then name else Padded(name + [0])
  }

  function InitializeSymmetric(suite: Suite, name: Bytes): Sym {
    var h := if |name| <= HASHLEN then Padded(name) else suite.hash(name);
    Sym(h, h, None, 0)
  }

  /** The HKDF outputs, each keyed by the extracted key and chained on the one before. */
  function Hkdf(suite: Suite, ck: Bytes, ikm: Bytes): (Bytes, Bytes, Bytes) {
    var temp := suite.hmac(ck, ikm);
    var o1 := suite.hmac(temp, [1]);
    var o2 := suite.hmac(temp, o1 + [2]);
    (o1, o2, suite.hmac(temp, o2 + [3]))
  }

  function MixHash(suite: Suite, s: Sym, data: Bytes): Sym {
    s.(h := suite.hash(s.h + data))
  }

  function MixKey(suite: Suite, s: Sym, ikm: Bytes): Sym {
    var (ck, temp, _) := Hkdf(suite, s.ck, ikm);
    s.(ck := ck, k := Some(temp), n := 0)
  }

  function MixKeyAndHash(suite: Suite, s: Sym, ikm: Bytes): Sym {
    var (ck, tempH, tempK) := Hkdf(suite, s.ck, ikm);
    MixHash(suite, s.(ck := ck), tempH).(k := Some(tempK), n := 0)
  }

  function EncryptAndHash(suite: Suite, s: Sym, plain: Bytes): (Sym, Bytes) {
    match s.k
    case Some(k) =>
      var out := suite.aead.seal(k, s.n, s.h, plain);
      (MixHash(suite, s.(n := s.n + 1), out), out)
    case None => (MixHash(suite, s, plain), plain)
  }

  function DecryptAndHash(suite: Suite, s: Sym, cipher: Bytes): Option<(Sym, Bytes)> {
    match s.k
    case Some(k) =>
      (match suite.aead.open(k, s.n, s.h, cipher)
       case None => None
       case Some(plain) => Some((MixHash(suite, s.(n := s.n + 1), cipher), plain)))
    case None => Some((MixHash(suite, s, cipher), cipher))
  }

  datatype Keys = Keys(send: Bytes, recv: Bytes)

  function Split(suite: Suite, s: Sym, initiator: bool): Keys {
    var (t1, t2, _) := Hkdf(suite, s.ck, []);
    if initiator then Keys(t1, t2) else Keys(t2, t1)
  }

  predicate Mirrored(a: Keys, b: Keys) {
    a.send == b.recv && a.recv == b.send
  }

  /** Reading what was written restores the plaintext and keeps the two states equal. */
  lemma {:induction false} DecryptInvertsEncrypt(suite: Suite, s: Sym, plain: Bytes)
    requires LawfulSuite(suite)
    ensures DecryptAndHash(suite, s, EncryptAndHash(suite, s, plain).1)
         == Some((EncryptAndHash(suite, s, plain).0, plain))
    ensures |EncryptAndHash(suite, s, plain).1| == |plain| + if s.k.Some? then TAGLEN else 0
  {
  }

  // ---------------------------------------------------------------- XX

  /** One side of an XX handshake. */
  datatype Party = Party(sym: Sym, s: Bytes, e: Bytes, re: Bytes, rs: Option<Bytes>)

  const XX_PATTERN: Bytes := [78, 111, 105, 115, 101, 95, 88, 88, 95, 50, 53, 53, 49, 57, 95, 67, 104, 97, 67, 104,
    97, 80, 111, 108, 121, 95, 66, 76, 65, 75, 69, 50, 115]

  function XxStart(suite: Suite, s: Bytes, e: Bytes, prologue: Bytes): Party {
    Party(MixHash(suite, InitializeSymmetric(suite, XX_PATTERN), prologue), s, e, Zeros(DHLEN), None)
  }

  /** The initiator opens with its ephemeral key and an unsealed payload. */
  function WriteOne(suite: Suite, p: Party, payload: Bytes): (Party, Bytes) {
    var e := Public(suite, p.e);
    var (sym, ct) := EncryptAndHash(suite, MixHash(suite, p.sym, e), payload);
    (p.(sym := sym), e + ct)
  }

  function ReadOne(suite: Suite, p: Party, msg: Bytes): Option<(Party, Bytes)> {
    if |msg| < DHLEN then None
    else
      var re := msg[..DHLEN];
      match DecryptAndHash(suite, MixHash(suite, p.sym, re), msg[DHLEN..])
      case None => None
      case Some((sym, payload)) => Some((p.(sym := sym, re := re), payload))
  }

  /** The responder answers with its ephemeral, then its static sealed under `ee`, then a payload
      sealed once `es` is mixed in as well. */
  function WriteTwo(suite: Suite, p: Party, payload: Bytes): (Party, Bytes) {
    var e := Public(suite, p.e);
    var s1 := MixKey(suite, MixHash(suite, p.sym, e), suite.dh(p.e, p.re));
    var (s2, ct1) := EncryptAndHash(suite, s1, Public(suite, p.s));
    var s3 := MixKey(suite, s2, suite.dh(p.s, p.re));
    var (s4, ct2) := EncryptAndHash(suite, s3, payload);
    (p.(sym := s4), e + ct1 + ct2)
  }

  /** A sealed static key and the token that mixes it in. */
  function ReadStatic(suite: Suite, s: Sym, ct: Bytes): Option<(Sym, Bytes)> {
    match DecryptAndHash(suite, s, ct)
    case None => None
    case Some((s', rs)) => if |rs| == DHLEN then Some((s', rs)) else None
  }

  function ReadTwo(suite: Suite, p: Party, msg: Bytes): Option<(Party, Bytes)> {
    if |msg| < 2 * DHLEN + 2 * TAGLEN then None
    else
      var re := msg[..DHLEN];
      var s1 := MixKey(suite, MixHash(suite, p.sym, re), suite.dh(p.e, re));
      match ReadStatic(suite, s1, msg[DHLEN..DHLEN + DHLEN + TAGLEN])
      case None => None
      case Some((s2, rs)) =>
        match DecryptAndHash(suite, MixKey(suite, s2, suite.dh(p.e, rs)), msg[DHLEN + DHLEN + TAGLEN..])
        case None => None
        case Some((s4, payload)) => Some((p.(sym := s4, re := re, rs := Some(rs)), payload))
  }

  /** The initiator closes with its sealed static key and a payload under `se`. */
  function WriteThree(suite: Suite, p: Party, payload: Bytes): (Party, Bytes) {
    var (s1, ct1) := EncryptAndHash(suite, p.sym, Public(suite, p.s));
    var (s3, ct2) := EncryptAndHash(suite, MixKey(suite, s1, suite.dh(p.s, p.re)), payload);
    (p.(sym := s3), ct1 + ct2)
  }

  function ReadThree(suite: Suite, p: Party, msg: Bytes): Option<(Party, Bytes)> {
    if |msg| < DHLEN + 2 * TAGLEN then None
    else
      match ReadStatic(suite, p.sym, msg[..DHLEN + TAGLEN])
      case None => None
      case Some((s1, rs)) =>
        match DecryptAndHash(suite, MixKey(suite, s1, suite.dh(p.e, rs)), msg[DHLEN + TAGLEN..])
        case None => None
        case Some((s3, payload)) => Some((p.(sym := s3, rs := Some(rs)), payload))
  }

  /** Message one read by a responder in the same state. */
  lemma {:induction false} MessageOneAgrees(suite: Suite, i: Party, r: Party, payload: Bytes)
    requires LawfulSuite(suite) && i.sym == r.sym
    ensures var (i', msg) := WriteOne(suite, i, payload);
      ReadOne(suite, r, msg) == Some((r.(sym := i'.sym, re := Public(suite, i.e)), payload))
  {
    var e := Public(suite, i.e);
    var s := MixHash(suite, i.sym, e);
    var (_, ct) := EncryptAndHash(suite, s, payload);
    DecryptInvertsEncrypt(suite, s, payload);
    assert (e + ct)[..DHLEN] == e && (e + ct)[DHLEN..] == ct;
  }

  lemma {:induction false} MessageTwoAgrees(suite: Suite, i: Party, r: Party, payload: Bytes)
    requires LawfulSuite(suite) && i.sym == r.sym && r.re == Public(suite, i.e)
    ensures var (r', msg) := WriteTwo(suite, r, payload);
      ReadTwo(suite, i, msg)
      == Some((i.(sym := r'.sym, re := Public(suite, r.e), rs := Some(Public(suite, r.s))), payload))
    ensures var (r', _) := WriteTwo(suite, r, payload); r'.sym.k.Some?
  {
    var e := Public(suite, r.e);
    var s1 := MixKey(suite, MixHash(suite, r.sym, e), suite.dh(r.e, r.re));
    var (s2, ct1) := EncryptAndHash(suite, s1, Public(suite, r.s));
    var s3 := MixKey(suite, s2, suite.dh(r.s, r.re));
    var (_, ct2) := EncryptAndHash(suite, s3, payload);
    DecryptInvertsEncrypt(suite, s1, Public(suite, r.s));
    DecryptInvertsEncrypt(suite, s3, payload);
    var msg := e + ct1 + ct2;
    assert msg[..DHLEN] == e;
    assert msg[DHLEN..DHLEN + DHLEN + TAGLEN] == ct1;
    assert msg[DHLEN + DHLEN + TAGLEN..] == ct2;
    assert suite.dh(i.e, e) == suite.dh(r.e, r.re);
    assert suite.dh(i.e, Public(suite, r.s)) == suite.dh(r.s, r.re);
  }

  lemma {:induction false} MessageThreeAgrees(suite: Suite, i: Party, r: Party, payload: Bytes)
    requires LawfulSuite(suite) && i.sym == r.sym && i.sym.k.Some? && i.re == Public(suite, r.e)
    ensures var (i', msg) := WriteThree(suite, i, payload);
      ReadThree(suite, r, msg) == Some((r.(sym := i'.sym, rs := Some(Public(suite, i.s))), payload))
  {
    var (s1, ct1) := EncryptAndHash(suite, i.sym, Public(suite, i.s));
    var s2 := MixKey(suite, s1, suite.dh(i.s, i.re));
    var (_, ct2) := EncryptAndHash(suite, s2, payload);
    DecryptInvertsEncrypt(suite, i.sym, Public(suite, i.s));
    DecryptInvertsEncrypt(suite, s2, payload);
    var msg := ct1 + ct2;
    assert msg[..DHLEN + TAGLEN] == ct1 && msg[DHLEN + TAGLEN..] == ct2;
    assert suite.dh(r.e, Public(suite, i.s)) == suite.dh(i.s, i.re);
  }

  /** How an XX handshake ends: both sides, the three messages and their payloads as read. */
  datatype XxOutcome = XxOutcome(initiator: Party, responder: Party, messages: seq<Bytes>, payloads: seq<Bytes>)

  /** The whole exchange, each side reading what the other wrote. */
  function XxExchange(suite: Suite, i0: Party, r0: Party, p1: Bytes, p2: Bytes, p3: Bytes): Option<XxOutcome> {
    var (i1, m1) := WriteOne(suite, i0, p1);
    match ReadOne(suite, r0, m1)
    case None => None
    case Some((r1, got1)) =>
      var (r2, m2) := WriteTwo(suite, r1, p2);
      match ReadTwo(suite, i1, m2)
      case None => None
      case Some((i2, got2)) =>
        var (i3, m3) := WriteThree(suite, i2, p3);
        match ReadThree(suite, r2, m3)
        case None => None
        case Some((r3, got3)) => Some(XxOutcome(i3, r3, [m1, m2, m3], [got1, got2, got3]))
  }

  /** For all keys, prologues and payloads the XX handshake completes: payloads arrive,
      each side holds the other's public identity, the states agree in ck, h, k and n, and
      the transport keys mirror each other. */
  lemma {:induction false} XxCompletes(suite: Suite, sI: Bytes, eI: Bytes, sR: Bytes, eR: Bytes, prologue: Bytes,
                    p1: Bytes, p2: Bytes, p3: Bytes)
    requires LawfulSuite(suite)
    ensures var i, r := XxStart(suite, sI, eI, prologue), XxStart(suite, sR, eR, prologue);
      var out := XxExchange(suite, i, r, p1, p2, p3);
      && out.Some?
      && out.value.payloads == [p1, p2, p3]
      && out.value.initiator.sym == out.value.responder.sym
      && out.value.initiator.rs == Some(Public(suite, sR))
      && out.value.responder.rs == Some(Public(suite, sI))
      && Mirrored(Split(suite, out.value.initiator.sym, true), Split(suite, out.value.responder.sym, false))
  {
    var i0, r0 := XxStart(suite, sI, eI, prologue), XxStart(suite, sR, eR, prologue);
    var (i1, m1) := WriteOne(suite, i0, p1);
    MessageOneAgrees(suite, i0, r0, p1);
    var (r1, _) := ReadOne(suite, r0, m1).value;
    var (r2, m2) := WriteTwo(suite, r1, p2);
    MessageTwoAgrees(suite, i1, r1, p2);
    var (i2, _) := ReadTwo(suite, i1, m2).value;
    MessageThreeAgrees(suite, i2, r2, p3);
  }

  lemma {:induction false} OpenedWasSealed(suite: Suite, s: Sym, cipher: Bytes)
    requires LawfulSuite(suite) && DecryptAndHash(suite, s, cipher).Some?
    ensures var (s', plain) := DecryptAndHash(suite, s, cipher).value;
      EncryptAndHash(suite, s, plain) == (s', cipher)
  {
  }

  /** The converse for message two: what an initiator accepts is, byte for byte, what the
      holder of the static and ephemeral keys it names writes to it. */
  lemma {:induction false} AcceptedTwoWasWritten(suite: Suite, i: Party, msg: Bytes, sR: Bytes, eR: Bytes)
    requires LawfulSuite(suite) && ReadTwo(suite, i, msg).Some?
    requires var (i', _) := ReadTwo(suite, i, msg).value;
      i'.re == Public(suite, eR) && i'.rs == Some(Public(suite, sR))
    ensures var (i', payload) := ReadTwo(suite, i, msg).value;
      var responder := Party(i.sym, sR, eR, Public(suite, i.e), None);
      WriteTwo(suite, responder, payload) == (responder.(sym := i'.sym), msg)
  {
    var (i', payload) := ReadTwo(suite, i, msg).value;
    var re, ct1, ct2 := msg[..DHLEN], msg[DHLEN..DHLEN + DHLEN + TAGLEN], msg[DHLEN + DHLEN + TAGLEN..];
    var s1 := MixKey(suite, MixHash(suite, i.sym, re), suite.dh(i.e, re));
    OpenedWasSealed(suite, s1, ct1);
    var (s2, rs) := DecryptAndHash(suite, s1, ct1).value;
    OpenedWasSealed(suite, MixKey(suite, s2, suite.dh(i.e, rs)), ct2);
    assert suite.dh(i.e, re) == suite.dh(eR, Public(suite, i.e));
    assert suite.dh(i.e, rs) == suite.dh(sR, Public(suite, i.e));
    assert msg == re + ct1 + ct2;
  }

  /** The converse for message three. */
  lemma {:induction false} AcceptedThreeWasWritten(suite: Suite, r: Party, msg: Bytes, sI: Bytes)
    requires LawfulSuite(suite) && ReadThree(suite, r, msg).Some?
    requires ReadThree(suite, r, msg).value.0.rs == Some(Public(suite, sI))
    ensures var (r', payload) := ReadThree(suite, r, msg).value;
      forall eI :: var initiator := Party(r.sym, sI, eI, Public(suite, r.e), r.rs);
        WriteThree(suite, initiator, payload) == (initiator.(sym := r'.sym), msg)
  {
    var (r', payload) := ReadThree(suite, r, msg).value;
    var ct1, ct2 := msg[..DHLEN + TAGLEN], msg[DHLEN + TAGLEN..];
    OpenedWasSealed(suite, r.sym, ct1);
    var (s1, rs) := DecryptAndHash(suite, r.sym, ct1).value;
    OpenedWasSealed(suite, MixKey(suite, s1, suite.dh(r.e, rs)), ct2);
    assert suite.dh(r.e, rs) == suite.dh(sI, Public(suite, r.e));
    assert msg == ct1 + ct2;
  }

  // ---------------------------------------------------------------- NNpsk0

  const NN_PATTERN: Bytes := [78, 111, 105, 115, 101, 95, 78, 78, 112, 115, 107, 48, 95, 50, 53, 53, 49, 57, 95, 67,
    104, 97, 67, 104, 97, 80, 111, 108, 121, 95, 66, 76, 65, 75, 69, 50, 115]

  function NnStart(suite: Suite, psk: Bytes, prologue: Bytes): Sym {
    MixKeyAndHash(suite, MixHash(suite, InitializeSymmetric(suite, NN_PATTERN), prologue), psk)
  }

  /** The `e` token and, with a remote ephemeral, the `ee` token behind it. */
  function NnTokens(suite: Suite, s: Sym, e: Bytes, ee: Option<Bytes>): Sym {
    var s1 := MixKey(suite, MixHash(suite, s, e), e);
    if ee.Some? then MixKey(suite, s1, ee.value) else s1
  }

  function NnWrite(suite: Suite, s: Sym, e: Bytes, re: Option<Bytes>, payload: Bytes): (Sym, Bytes) {
    var pub := Public(suite, e);
    var ee := if re.Some? then Some(suite.dh(e, re.value)) else None;
    var (s', ct) := EncryptAndHash(suite, NnTokens(suite, s, pub, ee), payload);
    (s', pub + ct)
  }

  function NnRead(suite: Suite, s: Sym, e: Option<Bytes>, msg: Bytes): Option<(Sym, Bytes, Bytes)> {
    if |msg| < DHLEN then None
    else
      var re := msg[..DHLEN];
      var ee := if e.Some? then Some(suite.dh(e.value, re)) else None;
      match DecryptAndHash(suite, NnTokens(suite, s, re, ee), msg[DHLEN..])
      case None => None
      case Some((s', payload)) => Some((s', re, payload))
  }

  lemma {:induction false} NnMessageAgrees(suite: Suite, s: Sym, eW: Bytes, eR: Option<Bytes>, payload: Bytes)
    requires LawfulSuite(suite)
    ensures var re := if eR.Some? then Some(Public(suite, eR.value)) else None;
      var (s', msg) := NnWrite(suite, s, eW, re, payload);
      NnRead(suite, s, eR, msg) == Some((s', Public(suite, eW), payload))
  {
    var pub := Public(suite, eW);
    var ee := if eR.Some? then Some(suite.dh(eW, Public(suite, eR.value))) else None;
    var tokens := NnTokens(suite, s, pub, ee);
    var (_, ct) := EncryptAndHash(suite, tokens, payload);
    DecryptInvertsEncrypt(suite, tokens, payload);
    assert (pub + ct)[..DHLEN] == pub && (pub + ct)[DHLEN..] == ct;
  }

  /** For all keys, prologues and payloads the NNpsk0 handshake completes: after each message
      the two states are the same, both payloads arrive, and the transport keys mirror. */
  lemma {:induction false} NnCompletes(suite: Suite, psk: Bytes, prologue: Bytes, eI: Bytes, eR: Bytes, p1: Bytes,
                                       p2: Bytes)
    requires LawfulSuite(suite)
    ensures var start := NnStart(suite, psk, prologue);
      var (i1, m1) := NnWrite(suite, start, eI, None, p1);
      NnRead(suite, start, None, m1) == Some((i1, Public(suite, eI), p1))
      && var (r2, m2) := NnWrite(suite, i1, eR, Some(Public(suite, eI)), p2);
      && NnRead(suite, i1, Some(eI), m2) == Some((r2, Public(suite, eR), p2))
      && r2.k.Some? && r2.n == 1
      && Mirrored(Split(suite, r2, true), Split(suite, r2, false))
  {
    var start := NnStart(suite, psk, prologue);
    NnMessageAgrees(suite, start, eI, None, p1);
    var (i1, _) := NnWrite(suite, start, eI, None, p1);
    NnMessageAgrees(suite, i1, eR, Some(eI), p2);
  }

  // ---------------------------------------------------------------- the objects

  /** The running symmetric state of one handshake side. */
  class SymmetricState {
    const suite: Suite
    var ck: Bytes
    var h: Bytes
    var k: Option<Bytes>
    var n: nat

    function Value(): Sym
      reads this
    {
      Sym(ck, h, k, n)
    }

    constructor (suite: Suite, name: Bytes)
      ensures this.suite == suite && Value() == InitializeSymmetric(suite, name)
    {
      this.suite := suite;
      var digest := if |name| <= HASHLEN then Padded(name) else suite.hash(name);
      ck, h, k, n := digest, digest, None, 0;
    }

    /** The first outputs of HKDF, chained in a loop as the wire specification lists them. */
    method Expand(ikm: Bytes, count: nat) returns (out: seq<Bytes>)
      requires count <= 3
      ensures |out| == count
      ensures count >= 1 ==> out[0] == Hkdf(suite, ck, ikm).0
      ensures count >= 2 ==> out[1] == Hkdf(suite, ck, ikm).1
      ensures count >= 3 ==> out[2] == Hkdf(suite, ck, ikm).2
    {
      var temp := suite.hmac(ck, ikm);
      var prev: Bytes := [];
      out := [];
      for i := 0 to count
        invariant |out| == i && (i == 0 ==> prev == []) && (i > 0 ==> prev == out[i - 1])
        invariant i >= 1 ==> out[0] == suite.hmac(temp, [1])
        invariant i >= 2 ==> out[1] == suite.hmac(temp, out[0] + [2])
        invariant i >= 3 ==> out[2] == suite.hmac(temp, out[1] + [3])
      {
        assert i == 0 ==> prev + [1] == [1];
        prev := suite.hmac(temp, prev + [i + 1]);
        out := out + [prev];
      }
    }

    method MixInHash(data: Bytes)
      modifies this`h
      ensures Value() == MixHash(suite, old(Value()), data)
    {
      h := suite.hash(h + data);
    }

    method MixInKey(ikm: Bytes)
      modifies this
      ensures Value() == MixKey(suite, old(Value()), ikm)
    {
      var out := Expand(ikm, 2);
      ck, k, n := out[0], Some(out[1]), 0;
    }

    method MixInKeyAndHash(ikm: Bytes)
      modifies this
      ensures Value() == MixKeyAndHash(suite, old(Value()), ikm)
    {
      var out := Expand(ikm, 3);
      ck := out[0];
      MixInHash(out[1]);
      k, n := Some(out[2]), 0;
    }

    method Encrypt(plain: Bytes) returns (out: Bytes)
      modifies this
      ensures (Value(), out) == EncryptAndHash(suite, old(Value()), plain)
    {
      if k.Some? {
        out := suite.aead.seal(k.value, n, h, plain);
        n := n + 1;
      } else {
        out := plain;
      }
      MixInHash(out);
    }

    /** A refused ciphertext leaves the state as it was. */
    method Decrypt(cipher: Bytes) returns (r: Option<Bytes>)
      modifies this
      ensures r.Some? ==> DecryptAndHash(suite, old(Value()), cipher) == Some((Value(), r.value))
      ensures r.None? ==> DecryptAndHash(suite, old(Value()), cipher) == None && Value() == old(Value())
    {
      if k.Some? {
        r := suite.aead.open(k.value, n, h, cipher);
        if r.None? {
          return;
        }
        n := n + 1;
      } else {
        r := Some(cipher);
      }
      MixInHash(cipher);
    }
  }

  /** The object form of a party; each method is one message written or read. */
  class XxHandshake {
    const suite: Suite
    const ss: SymmetricState
    const initiator: bool
    const s: Bytes
    const e: Bytes
    var re: Bytes
    var rs: Option<Bytes>

    ghost predicate Valid() {
      ss.suite == suite
    }

    function Value(): Party
      reads this, ss
    {
      Party(ss.Value(), s, e, re, rs)
    }

    /** `e` is the fresh ephemeral private key the source draws at random. */
    constructor (suite: Suite, initiator: bool, s: Bytes, e: Bytes, prologue: Bytes)
      ensures Valid() && fresh(ss) && this.suite == suite && this.initiator == initiator
      ensures Value() == XxStart(suite, s, e, prologue)
    {
      this.suite, this.initiator, this.s, this.e := suite, initiator, s, e;
      re, rs := Zeros(DHLEN), None;
      ss := new SymmetricState(suite, XX_PATTERN);
      new;
      ss.MixInHash(prologue);
    }

    method WriteMessageOne(payload: Bytes) returns (msg: Bytes)
      requires Valid()
      modifies ss
      ensures (Value(), msg) == WriteOne(suite, old(Value()), payload)
    {
      var pub := Public(suite, e);
      ss.MixInHash(pub);
      msg := pub;
      var ct := ss.Encrypt(payload);
      msg := msg + ct;
    }

    method ReadMessageOne(msg: Bytes) returns (payload: Option<Bytes>)
      requires Valid()
      modifies this, ss
      ensures payload.Some? ==> ReadOne(suite, old(Value()), msg) == Some((Value(), payload.value))
      ensures payload.None? ==> ReadOne(suite, old(Value()), msg) == None
    {
      if |msg| < DHLEN {
        return None;
      }
      re := msg[..DHLEN];
      ss.MixInHash(re);
      payload := ss.Decrypt(msg[DHLEN..]);
    }

    method WriteMessageTwo(payload: Bytes) returns (msg: Bytes)
      requires Valid()
      modifies ss
      ensures (Value(), msg) == WriteTwo(suite, old(Value()), payload)
    {
      var pub := Public(suite, e);
      ss.MixInHash(pub);
      msg := pub;
      ss.MixInKey(suite.dh(e, re));
      var ct := ss.Encrypt(Public(suite, s));
      msg := msg + ct;
      ss.MixInKey(suite.dh(s, re));
      ct := ss.Encrypt(payload);
      msg := msg + ct;
    }

    method ReadSealedStatic(ct: Bytes) returns (r: Option<Bytes>)
      requires Valid()
      modifies ss
      ensures r.Some? ==> ReadStatic(suite, old(ss.Value()), ct) == Some((ss.Value(), r.value))
      ensures r.None? ==> ReadStatic(suite, old(ss.Value()), ct) == None
    {
      r := ss.Decrypt(ct);
      if r.Some? && |r.value| != DHLEN {
        r := None;
      }
    }

    method ReadMessageTwo(msg: Bytes) returns (payload: Option<Bytes>)
      requires Valid()
      modifies this, ss
      ensures payload.Some? ==> ReadTwo(suite, old(Value()), msg) == Some((Value(), payload.value))
      ensures payload.None? ==> ReadTwo(suite, old(Value()), msg) == None
    {
      if |msg| < 2 * DHLEN + 2 * TAGLEN {
        return None;
      }
      re := msg[..DHLEN];
      ss.MixInHash(re);
      ss.MixInKey(suite.dh(e, re));
      var remote := ReadSealedStatic(msg[DHLEN..DHLEN + DHLEN + TAGLEN]);
      if remote.None? {
        return None;
      }
      ss.MixInKey(suite.dh(e, remote.value));
      rs := remote;
      payload := ss.Decrypt(msg[DHLEN + DHLEN + TAGLEN..]);
    }

    method WriteMessageThree(payload: Bytes) returns (msg: Bytes)
      requires Valid()
      modifies ss
      ensures (Value(), msg) == WriteThree(suite, old(Value()), payload)
    {
      msg := ss.Encrypt(Public(suite, s));
      ss.MixInKey(suite.dh(s, re));
      var ct := ss.Encrypt(payload);
      msg := msg + ct;
    }

    method ReadMessageThree(msg: Bytes) returns (payload: Option<Bytes>)
      requires Valid()
      modifies this, ss
      ensures payload.Some? ==> ReadThree(suite, old(Value()), msg) == Some((Value(), payload.value))
      ensures payload.None? ==> ReadThree(suite, old(Value()), msg) == None
    {
      if |msg| < DHLEN + 2 * TAGLEN {
        return None;
      }
      var remote := ReadSealedStatic(msg[..DHLEN + TAGLEN]);
      if remote.None? {
        return None;
      }
      ss.MixInKey(suite.dh(e, remote.value));
      rs := remote;
      payload := ss.Decrypt(msg[DHLEN + TAGLEN..]);
    }

    /** The directional keys of the handshake split, by role. */
    method IntoTransport() returns (keys: Keys)
      requires Valid()
      ensures keys == Split(suite, ss.Value(), initiator)
    {
      var out := ss.Expand([], 2);
      keys := if initiator then Keys(out[0], out[1]) else Keys(out[1], out[0]);
    }
  }
}
