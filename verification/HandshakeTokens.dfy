/** What the handshakes are written against: message patterns run token by token, and the bytes,
    chaining key and transcript hash an exchange comes to (Noise Protocol Framework revision 34,
    sections 4.3, 5.3, 7.5 and 9). */
module HandshakeTokens {
  import opened Base
  import opened Crypto
  import opened Handshake

  // ---------------------------------------------------------------- patterns

  datatype Token = E | S | EE | ES | SE | Psk

  const XX: seq<seq<Token>> := [[E], [E, EE, S, ES], [S, SE]]
  const NN_PSK0: seq<seq<Token>> := [[Psk, E], [E, EE]]

  /** One end of a handshake of any pattern; a handshake with a pre-shared key also mixes in
      every ephemeral key it sends or meets. */
  datatype End = End(p: Party, initiator: bool, psk: Option<Bytes>)

  function WithSym(x: End, sym: Sym): End {
    x.(p := x.p.(sym := sym))
  }

  /** The two letters of a token name the initiator's key and then the responder's. */
  function Shared(suite: Suite, x: End, first: bool, second: bool): Option<Bytes> {
    var own := if (if x.initiator then first else second) then x.p.s else x.p.e;
    var theirsIsStatic := if x.initiator then second else first;
    if !theirsIsStatic then Some(suite.dh(own, x.p.re))
    else match x.p.rs case Some(rs) => Some(suite.dh(own, rs)) case None => None
  }

  function Agreed(suite: Suite, x: End, t: Token): Option<Bytes> {
    match t
    case EE => Shared(suite, x, false, false)
    case ES => Shared(suite, x, false, true)
    case SE => Shared(suite, x, true, false)
    case _ => None
  }

  function MixEphemeral(suite: Suite, x: End, e: Bytes): End {
    var sym := MixHash(suite, x.p.sym, e);
    WithSym(x, if x.psk.Some? then MixKey(suite, sym, e) else sym)
  }

  function MixShared(suite: Suite, x: End, t: Token): Option<End> {
    match Agreed(suite, x, t)
    case Some(secret) => Some(WithSym(x, MixKey(suite, x.p.sym, secret)))
    case None => None
  }

  function MixPsk(suite: Suite, x: End): Option<End> {
    match x.psk
    case Some(psk) => Some(WithSym(x, MixKeyAndHash(suite, x.p.sym, psk)))
    case None => None
  }

  /** A token written: what it leaves and the bytes it sends. */
  function WriteToken(suite: Suite, x: End, t: Token): Option<(End, Bytes)> {
    match t
    case E => Some((MixEphemeral(suite, x, Public(suite, x.p.e)), Public(suite, x.p.e)))
    case S =>
      var (sym, ct) := EncryptAndHash(suite, x.p.sym, Public(suite, x.p.s));
      Some((WithSym(x, sym), ct))
    case Psk => (match MixPsk(suite, x) case Some(y) => Some((y, [])) case None => None)
    case _ => (match MixShared(suite, x, t) case Some(y) => Some((y, [])) case None => None)
  }

  /** A token read off the front of a message: what it leaves and what follows it. */
  function ReadToken(suite: Suite, x: End, t: Token, msg: Bytes): Option<(End, Bytes)> {
    match t
    case E =>
      if |msg| < DHLEN then None
      else
        var y := MixEphemeral(suite, x, msg[..DHLEN]);
        Some((y.(p := y.p.(re := msg[..DHLEN])), msg[DHLEN..]))
    case S =>
      var size := if x.p.sym.k.Some? then DHLEN + TAGLEN else DHLEN;
      if |msg| < size then None
      else
        (match DecryptAndHash(suite, x.p.sym, msg[..size])
         case Some((sym, rs)) => Some((x.(p := x.p.(sym := sym, rs := Some(rs))), msg[size..]))
         case None => None)
    case Psk => (match MixPsk(suite, x) case Some(y) => Some((y, msg)) case None => None)
    case _ => (match MixShared(suite, x, t) case Some(y) => Some((y, msg)) case None => None)
  }

  function WriteMessage(suite: Suite, x: End, ts: seq<Token>, payload: Bytes): Option<(End, Bytes)>
    decreases |ts|
  {
    if ts == [] then
      var (sym, ct) := EncryptAndHash(suite, x.p.sym, payload);
      Some((WithSym(x, sym), ct))
    else
      match WriteToken(suite, x, ts[0])
      case None => None
      case Some((y, out)) =>
        match WriteMessage(suite, y, ts[1..], payload)
        case None => None
        case Some((z, rest)) => Some((z, out + rest))
  }

  function ReadMessage(suite: Suite, x: End, ts: seq<Token>, msg: Bytes): Option<(End, Bytes)>
    decreases |ts|
  {
    if ts == [] then
      match DecryptAndHash(suite, x.p.sym, msg)
      case None => None
      case Some((sym, payload)) => Some((WithSym(x, sym), payload))
    else
      match ReadToken(suite, x, ts[0], msg)
      case None => None
      case Some((y, rest)) => ReadMessage(suite, y, ts[1..], rest)
  }

  // ---------------------------------------------------------------- the messages follow their tokens

  function Alone(p: Party, initiator: bool): End {
    End(p, initiator, None)
  }

  function Ended(r: Option<(Party, Bytes)>, initiator: bool): Option<(End, Bytes)> {
    match r case Some((p, bytes)) => Some((Alone(p, initiator), bytes)) case None => None
  }

  /** Message one of XX is its tokens, written and read. */
  lemma {:induction false} OneFollowsItsTokens(suite: Suite, p: Party, payload: Bytes, msg: Bytes)
    requires LawfulSuite(suite)
    ensures WriteMessage(suite, Alone(p, true), XX[0], payload) == Ended(Some(WriteOne(suite, p, payload)), true)
    ensures ReadMessage(suite, Alone(p, false), XX[0], msg) == Ended(ReadOne(suite, p, msg), false)
  {
    assert XX[0][1..] == [];
  }

  lemma {:induction false} WriteStep(
      suite: Suite, x: End, t: Token, ts: seq<Token>, payload: Bytes, y: End, out: Bytes, z: End, rest: Bytes)
    requires WriteToken(suite, x, t) == Some((y, out)) && WriteMessage(suite, y, ts, payload) == Some((z, rest))
    ensures WriteMessage(suite, x, [t] + ts, payload) == Some((z, out + rest))
  {
    assert ([t] + ts)[1..] == ts;
  }

  lemma {:induction false} ReadStep(suite: Suite, x: End, t: Token, ts: seq<Token>, msg: Bytes)
    ensures ReadMessage(suite, x, [t] + ts, msg) ==
            match ReadToken(suite, x, t, msg) case Some((y, rest)) => ReadMessage(suite, y, ts, rest) case None => None
  {
    assert ([t] + ts)[1..] == ts;
  }

  lemma {:induction false} ShortIsRefused(suite: Suite, s: Sym, ct: Bytes)
    requires LawfulSuite(suite) && s.k.Some?
    ensures |ct| < TAGLEN ==> DecryptAndHash(suite, s, ct).None?
    ensures DecryptAndHash(suite, s, ct).Some? ==> |DecryptAndHash(suite, s, ct).value.1| + TAGLEN == |ct|
  {
    if suite.aead.open(s.k.value, s.n, s.h, ct).Some? {
      OpenedLength(suite.aead, s.k.value, s.n, s.h, ct);
    }
  }

  lemma {:induction false} WriteTwoFollowsItsTokens(suite: Suite, p: Party, payload: Bytes)
    requires LawfulSuite(suite)
    ensures WriteMessage(suite, Alone(p, false), XX[1], payload) == Ended(Some(WriteTwo(suite, p, payload)), false)
  {
    var x0, e := Alone(p, false), Public(suite, p.e);
    var x1 := WithSym(x0, MixHash(suite, p.sym, e));
    var x2 := WithSym(x0, MixKey(suite, x1.p.sym, suite.dh(p.e, p.re)));
    var (s3, ct1) := EncryptAndHash(suite, x2.p.sym, Public(suite, p.s));
    var x3 := WithSym(x0, s3);
    var x4 := WithSym(x0, MixKey(suite, s3, suite.dh(p.s, p.re)));
    var (s5, ct2) := EncryptAndHash(suite, x4.p.sym, payload);
    var x5 := WithSym(x0, s5);
    WriteStep(suite, x3, ES, [], payload, x4, [], x5, ct2);
    WriteStep(suite, x2, S, [ES], payload, x3, ct1, x5, [] + ct2);
    WriteStep(suite, x1, EE, [S, ES], payload, x2, [], x5, ct1 + ([] + ct2));
    WriteStep(suite, x0, E, [EE, S, ES], payload, x1, e, x5, [] + (ct1 + ([] + ct2)));
    assert e + ([] + (ct1 + ([] + ct2))) == e + ct1 + ct2;
  }

  lemma {:induction false} ReadTwoFollowsItsTokens(suite: Suite, p: Party, msg: Bytes)
    requires LawfulSuite(suite)
    ensures ReadMessage(suite, Alone(p, true), XX[1], msg) == Ended(ReadTwo(suite, p, msg), true)
  {
    ReadStep(suite, Alone(p, true), E, [EE, S, ES], msg);
    if |msg| >= DHLEN {
      var re, m1 := msg[..DHLEN], msg[DHLEN..];
      var s1 := MixHash(suite, p.sym, re);
      var x1 := Alone(p.(sym := s1, re := re), true);
      ReadStep(suite, x1, EE, [S, ES], m1);
      var s2 := MixKey(suite, s1, suite.dh(p.e, re));
      ReadStep(suite, WithSym(x1, s2), S, [ES], m1);
      if |m1| >= DHLEN + TAGLEN {
        var ct1, m2 := m1[..DHLEN + TAGLEN], m1[DHLEN + TAGLEN..];
        assert ct1 == msg[DHLEN..DHLEN + DHLEN + TAGLEN] && m2 == msg[DHLEN + DHLEN + TAGLEN..];
        ShortIsRefused(suite, s2, ct1);
        match DecryptAndHash(suite, s2, ct1) {
          case None =>
          case Some((s3, rs)) =>
            ReadStep(suite, Alone(p.(sym := s3, re := re, rs := Some(rs)), true), ES, [], m2);
            ShortIsRefused(suite, MixKey(suite, s3, suite.dh(p.e, rs)), m2);
        }
      }
    }
  }

  /** Message two of XX is its tokens. */
  lemma {:induction false} TwoFollowsItsTokens(suite: Suite, p: Party, payload: Bytes, msg: Bytes)
    requires LawfulSuite(suite)
    ensures WriteMessage(suite, Alone(p, false), XX[1], payload) == Ended(Some(WriteTwo(suite, p, payload)), false)
    ensures ReadMessage(suite, Alone(p, true), XX[1], msg) == Ended(ReadTwo(suite, p, msg), true)
  {
    WriteTwoFollowsItsTokens(suite, p, payload);
    ReadTwoFollowsItsTokens(suite, p, msg);
  }

  /** Message three of XX is its tokens, between ends that have a key by then. */
  lemma {:induction false} ThreeFollowsItsTokens(suite: Suite, p: Party, payload: Bytes, msg: Bytes)
    requires LawfulSuite(suite) && p.sym.k.Some?
    ensures WriteMessage(suite, Alone(p, true), XX[2], payload) == Ended(Some(WriteThree(suite, p, payload)), true)
    ensures ReadMessage(suite, Alone(p, false), XX[2], msg) == Ended(ReadThree(suite, p, msg), false)
  {
    var x0 := Alone(p, true);
    var (s1, ct1) := EncryptAndHash(suite, p.sym, Public(suite, p.s));
    var x1 := WithSym(x0, s1);
    var x2 := WithSym(x0, MixKey(suite, s1, suite.dh(p.s, p.re)));
    var (s3, ct2) := EncryptAndHash(suite, x2.p.sym, payload);
    WriteStep(suite, x1, SE, [], payload, x2, [], WithSym(x0, s3), ct2);
    WriteStep(suite, x0, S, [SE], payload, x1, ct1, WithSym(x0, s3), [] + ct2);
    assert ct1 + ([] + ct2) == ct1 + ct2;
    ReadStep(suite, Alone(p, false), S, [SE], msg);
    if |msg| >= DHLEN + TAGLEN {
      var ct, rest := msg[..DHLEN + TAGLEN], msg[DHLEN + TAGLEN..];
      ShortIsRefused(suite, p.sym, ct);
      match DecryptAndHash(suite, p.sym, ct) {
        case None =>
        case Some((s1, rs)) =>
          ReadStep(suite, Alone(p.(sym := s1, rs := Some(rs)), false), SE, [], rest);
          ShortIsRefused(suite, MixKey(suite, s1, suite.dh(p.e, rs)), rest);
      }
    }
  }

  /** An NNpsk0 end, which has no static key. */
  function WithPsk(sym: Sym, e: Bytes, re: Bytes, initiator: bool, psk: Bytes): End {
    End(Party(sym, [], e, re, None), initiator, Some(psk))
  }

  /** Message one of NNpsk0 is its tokens, run from before the key is mixed in. */
  lemma {:induction false} NnOneFollowsItsTokens(
      suite: Suite, psk: Bytes, prologue: Bytes, e: Bytes, re: Bytes, payload: Bytes, msg: Bytes)
    requires LawfulSuite(suite)
    ensures var begin := MixHash(suite, InitializeSymmetric(suite, NN_PATTERN), prologue);
            var start := NnStart(suite, psk, prologue);
            var (s', m) := NnWrite(suite, start, e, None, payload);
            && WriteMessage(suite, WithPsk(begin, e, re, true, psk), NN_PSK0[0], payload)
               == Some((WithPsk(s', e, re, true, psk), m))
            && ReadMessage(suite, WithPsk(begin, e, re, false, psk), NN_PSK0[0], msg)
               == match NnRead(suite, start, None, msg)
                  case Some((s, r, got)) => Some((WithPsk(s, e, r, false, psk), got))
                  case None => None
  {
    var begin := MixHash(suite, InitializeSymmetric(suite, NN_PATTERN), prologue);
    var start := NnStart(suite, psk, prologue);
    var (s', m) := NnWrite(suite, start, e, None, payload);
    var pub := Public(suite, e);
    var mixed := NnTokens(suite, start, pub, None);
    var (_, ct) := EncryptAndHash(suite, mixed, payload);
    var x0, x1 := WithPsk(begin, e, re, true, psk), WithPsk(start, e, re, true, psk);
    WriteStep(suite, x1, E, [], payload, WithSym(x1, mixed), pub, WithSym(x1, s'), ct);
    WriteStep(suite, x0, Psk, [E], payload, x1, [], WithSym(x1, s'), pub + ct);
    assert [] + (pub + ct) == pub + ct;
    ReadStep(suite, WithPsk(begin, e, re, false, psk), Psk, [E], msg);
    ReadStep(suite, WithPsk(start, e, re, false, psk), E, [], msg);
  }

  /** Message two of NNpsk0 is its tokens. */
  lemma {:induction false} NnTwoFollowsItsTokens(
      suite: Suite, psk: Bytes, sym: Sym, e: Bytes, re: Bytes, payload: Bytes, msg: Bytes)
    requires LawfulSuite(suite)
    ensures var (s', m) := NnWrite(suite, sym, e, Some(re), payload);
            && WriteMessage(suite, WithPsk(sym, e, re, false, psk), NN_PSK0[1], payload)
               == Some((WithPsk(s', e, re, false, psk), m))
            && ReadMessage(suite, WithPsk(sym, e, re, true, psk), NN_PSK0[1], msg)
               == match NnRead(suite, sym, Some(e), msg)
                  case Some((s, r, got)) => Some((WithPsk(s, e, r, true, psk), got))
                  case None => None
  {
    var (s', m) := NnWrite(suite, sym, e, Some(re), payload);
    var pub := Public(suite, e);
    var s1 := MixKey(suite, MixHash(suite, sym, pub), pub);
    var s2 := MixKey(suite, s1, suite.dh(e, re));
    var (_, ct) := EncryptAndHash(suite, s2, payload);
    var x0 := WithPsk(sym, e, re, false, psk);
    WriteStep(suite, WithSym(x0, s1), EE, [], payload, WithSym(x0, s2), [], WithSym(x0, s'), ct);
    WriteStep(suite, x0, E, [EE], payload, WithSym(x0, s1), pub, WithSym(x0, s'), [] + ct);
    assert pub + ([] + ct) == pub + ct;
    ReadStep(suite, WithPsk(sym, e, re, true, psk), E, [EE], msg);
    if |msg| >= DHLEN {
      var r, rest := msg[..DHLEN], msg[DHLEN..];
      ReadStep(suite, WithPsk(MixKey(suite, MixHash(suite, sym, r), r), e, r, true, psk), EE, [], rest);
    }
  }

  // ---------------------------------------------------------------- on the wire

  /** The outputs of HKDF one after another: each is keyed by the extracted key and authenticates
      the one before and its own number. */
  function Output(suite: Suite, ck: Bytes, ikm: Bytes, i: nat): Bytes
    requires i < 256
  {
    if i == 0 then [] else suite.hmac(suite.hmac(ck, ikm), Output(suite, ck, ikm, i - 1) + [i])
  }

  lemma {:induction false} HkdfIsItsOutputs(suite: Suite, ck: Bytes, ikm: Bytes)
    ensures Hkdf(suite, ck, ikm) ==
            (Output(suite, ck, ikm, 1), Output(suite, ck, ikm, 2), Output(suite, ck, ikm, 3))
  {
    assert Output(suite, ck, ikm, 0) + [1] == [1];
    assert Output(suite, ck, ikm, 1) == suite.hmac(suite.hmac(ck, ikm), [1]);
    assert Output(suite, ck, ikm, 2) == suite.hmac(suite.hmac(ck, ikm), Output(suite, ck, ikm, 1) + [2]);
  }

  /** The chaining key after these secrets. */
  function Chained(suite: Suite, ck: Bytes, secrets: seq<Bytes>): Bytes {
    if secrets == [] then ck
    else Output(suite, Chained(suite, ck, secrets[..|secrets| - 1]), secrets[|secrets| - 1], 1)
  }

  /** The cipher key the last of these secrets leaves. */
  function CipherKey(suite: Suite, ck: Bytes, secrets: seq<Bytes>): Bytes
    requires secrets != []
  {
    Output(suite, Chained(suite, ck, secrets[..|secrets| - 1]), secrets[|secrets| - 1], 2)
  }

  /** The transcript hash over these pieces. */
  function Transcript(suite: Suite, h: Bytes, pieces: seq<Bytes>): Bytes {
    if pieces == [] then h
    else suite.hash(Transcript(suite, h, pieces[..|pieces| - 1]) + pieces[|pieces| - 1])
  }

  /** The symmetric state these secrets and pieces lead to. */
  function Reached(suite: Suite, h0: Bytes, secrets: seq<Bytes>, pieces: seq<Bytes>, n: nat): Sym {
    Sym(Chained(suite, h0, secrets), Transcript(suite, h0, pieces),
        if secrets == [] then None else Some(CipherKey(suite, h0, secrets)), n)
  }

  lemma {:induction false} PieceReaches(
      suite: Suite, h0: Bytes, secrets: seq<Bytes>, pieces: seq<Bytes>, n: nat, piece: Bytes)
    ensures MixHash(suite, Reached(suite, h0, secrets, pieces, n), piece)
         == Reached(suite, h0, secrets, pieces + [piece], n)
  {
    assert (pieces + [piece])[..|pieces|] == pieces;
  }

  lemma {:induction false} SecretReaches(
      suite: Suite, h0: Bytes, secrets: seq<Bytes>, pieces: seq<Bytes>, s: Sym, secret: Bytes)
    requires s.ck == Chained(suite, h0, secrets) && s.h == Transcript(suite, h0, pieces)
    ensures MixKey(suite, s, secret) == Reached(suite, h0, secrets + [secret], pieces, 0)
  {
    assert (secrets + [secret])[..|secrets|] == secrets;
    HkdfIsItsOutputs(suite, s.ck, secret);
  }

  lemma {:induction false} SealReaches(
      suite: Suite, h0: Bytes, secrets: seq<Bytes>, pieces: seq<Bytes>, n: nat, plain: Bytes, ct: Bytes)
    requires secrets != []
    requires ct == suite.aead.seal(CipherKey(suite, h0, secrets), n, Transcript(suite, h0, pieces), plain)
    ensures EncryptAndHash(suite, Reached(suite, h0, secrets, pieces, n), plain)
         == (Reached(suite, h0, secrets, pieces + [ct], n + 1), ct)
  {
    PieceReaches(suite, h0, secrets, pieces, n + 1, ct);
  }

  /** A text of ASCII characters, byte for byte; anything else is a question mark. */
  function Ascii(s: string): (b: Bytes)
    ensures |b| == |s|
  {
    seq(|s|, i requires 0 <= i < |s| => if s[i] as int < 256 then s[i] as int else 63)
  }

  lemma {:induction false} XxName()
    ensures XX_PATTERN == Ascii("Noise_XX_25519_ChaChaPoly_BLAKE2s")
  {
  }

  lemma {:induction false} NnName()
    ensures NN_PATTERN == Ascii("Noise_NNpsk0_25519_ChaChaPoly_BLAKE2s")
  {
  }

  /** Both names are longer than a hash and are hashed. */
  lemma {:induction false} NameIsHashed(suite: Suite, name: Bytes)
    requires |name| > HASHLEN
    ensures InitializeSymmetric(suite, name) == Reached(suite, suite.hash(name), [], [], 0)
  {
  }

  /** A name that fits would be padded with zeros. */
  lemma {:induction false} NameIsPadded(suite: Suite, name: Bytes)
    requires |name| <= HASHLEN
    ensures InitializeSymmetric(suite, name) == Reached(suite, name + Zeros(HASHLEN - |name|), [], [], 0)
    decreases HASHLEN - |name|
  {
    PaddedIs(name);
  }

  lemma {:induction false} PaddedIs(name: Bytes)
    requires |name| <= HASHLEN
    ensures Padded(name) == name + Zeros(HASHLEN - |name|)
    decreases HASHLEN - |name|
  {
    if |name| < HASHLEN {
      PaddedIs(name + [0]);
      assert name + [0] + Zeros(HASHLEN - |name| - 1) == name + Zeros(HASHLEN - |name|);
    } else {
      assert name + Zeros(0) == name;
    }
  }

  /** A pre-shared key feeds all three: the chaining key, the transcript and the cipher key. */
  lemma {:induction false} PskReaches(suite: Suite, s: Sym, psk: Bytes)
    ensures MixKeyAndHash(suite, s, psk) ==
            Sym(Output(suite, s.ck, psk, 1), suite.hash(s.h + Output(suite, s.ck, psk, 2)),
                Some(Output(suite, s.ck, psk, 3)), 0)
  {
    HkdfIsItsOutputs(suite, s.ck, psk);
  }

  lemma {:induction false} OneOnTheWire(suite: Suite, i: Party, h0: Bytes, pieces: seq<Bytes>, payload: Bytes)
    requires i.sym == Reached(suite, h0, [], pieces, 0)
    ensures var e := Public(suite, i.e);
            WriteOne(suite, i, payload) ==
            (i.(sym := Reached(suite, h0, [], pieces + [e, payload], 0)), e + payload)
  {
    var e := Public(suite, i.e);
    PieceReaches(suite, h0, [], pieces, 0, e);
    PieceReaches(suite, h0, [], pieces + [e], 0, payload);
    assert pieces + [e] + [payload] == pieces + [e, payload];
  }

  lemma {:induction false} TwoOnTheWire(
      suite: Suite, r: Party, h0: Bytes, pieces: seq<Bytes>, ee: Bytes, es: Bytes, ct1: Bytes, ct2: Bytes,
      payload: Bytes)
    requires r.sym == Reached(suite, h0, [], pieces, 0) && ee == suite.dh(r.e, r.re) && es == suite.dh(r.s, r.re)
    requires var heard := pieces + [Public(suite, r.e)];
             && ct1 == suite.aead.seal(CipherKey(suite, h0, [ee]), 0, Transcript(suite, h0, heard), Public(suite, r.s))
             && ct2 == suite.aead.seal(CipherKey(suite, h0, [ee, es]), 0, Transcript(suite, h0, heard + [ct1]), payload)
    ensures var e := Public(suite, r.e);
            WriteTwo(suite, r, payload) ==
            (r.(sym := Reached(suite, h0, [ee, es], pieces + [e] + [ct1] + [ct2], 1)), e + ct1 + ct2)
  {
    var e := Public(suite, r.e);
    var heard := pieces + [e];
    PieceReaches(suite, h0, [], pieces, 0, e);
    SecretReaches(suite, h0, [], heard, Reached(suite, h0, [], heard, 0), ee);
    assert [] + [ee] == [ee] && [ee] + [es] == [ee, es];
    SealReaches(suite, h0, [ee], heard, 0, Public(suite, r.s), ct1);
    SecretReaches(suite, h0, [ee], heard + [ct1], Reached(suite, h0, [ee], heard + [ct1], 1), es);
    SealReaches(suite, h0, [ee, es], heard + [ct1], 0, payload, ct2);
  }

  lemma {:induction false} ThreeOnTheWire(
      suite: Suite, i: Party, h0: Bytes, secrets: seq<Bytes>, pieces: seq<Bytes>, se: Bytes, ct3: Bytes, ct4: Bytes,
      payload: Bytes)
    requires secrets != [] && i.sym == Reached(suite, h0, secrets, pieces, 1) && se == suite.dh(i.s, i.re)
    requires ct3 == suite.aead.seal(CipherKey(suite, h0, secrets), 1, Transcript(suite, h0, pieces), Public(suite, i.s))
    requires var h := Transcript(suite, h0, pieces + [ct3]);
             ct4 == suite.aead.seal(CipherKey(suite, h0, secrets + [se]), 0, h, payload)
    ensures WriteThree(suite, i, payload) ==
            (i.(sym := Reached(suite, h0, secrets + [se], pieces + [ct3] + [ct4], 1)), ct3 + ct4)
  {
    SealReaches(suite, h0, secrets, pieces, 1, Public(suite, i.s), ct3);
    SecretReaches(suite, h0, secrets, pieces + [ct3], Reached(suite, h0, secrets, pieces + [ct3], 2), se);
    SealReaches(suite, h0, secrets + [se], pieces + [ct3], 0, payload, ct4);
  }

  /** The long-term and ephemeral private keys of the two ends. */
  datatype Secrets = Secrets(sI: Bytes, eI: Bytes, sR: Bytes, eR: Bytes)

  /** What an XX exchange should come to, from the keys alone: its messages, the secrets mixed in,
      in order, and the transcript. */
  datatype Wire = Wire(messages: seq<Bytes>, secrets: seq<Bytes>, pieces: seq<Bytes>)

  function XxWire(suite: Suite, keys: Secrets, prologue: Bytes, p1: Bytes, p2: Bytes, p3: Bytes): Wire {
    var h0 := suite.hash(Ascii("Noise_XX_25519_ChaChaPoly_BLAKE2s"));
    var eI, eR := Public(suite, keys.eI), Public(suite, keys.eR);
    var sI, sR := Public(suite, keys.sI), Public(suite, keys.sR);
    var ee, es, se := suite.dh(keys.eI, eR), suite.dh(keys.eI, sR), suite.dh(keys.sI, eR);
    var t2 := [prologue, eI, p1, eR];
    var ct1 := suite.aead.seal(CipherKey(suite, h0, [ee]), 0, Transcript(suite, h0, t2), sR);
    var ct2 := suite.aead.seal(CipherKey(suite, h0, [ee, es]), 0, Transcript(suite, h0, t2 + [ct1]), p2);
    var t3 := t2 + [ct1] + [ct2];
    var ct3 := suite.aead.seal(CipherKey(suite, h0, [ee, es]), 1, Transcript(suite, h0, t3), sI);
    var ct4 := suite.aead.seal(CipherKey(suite, h0, [ee, es, se]), 0, Transcript(suite, h0, t3 + [ct3]), p3);
    Wire([eI + p1, eR + ct1 + ct2, ct3 + ct4], [ee, es, se], t3 + [ct3] + [ct4])
  }

  /** Main result: for all keys, prologues and payloads the XX messages are these bytes, and both
      ends come to the chaining key of `ee`, `es` and `se` in that order, to the hash of the whole
      transcript, and to the transport keys of that chaining key. */
  lemma {:induction false} XxOnTheWire(
      suite: Suite, keys: Secrets, prologue: Bytes, p1: Bytes, p2: Bytes, p3: Bytes)
    requires LawfulSuite(suite)
    ensures var h0 := suite.hash(Ascii("Noise_XX_25519_ChaChaPoly_BLAKE2s"));
            var i0, r0 := XxStart(suite, keys.sI, keys.eI, prologue), XxStart(suite, keys.sR, keys.eR, prologue);
            var out := XxExchange(suite, i0, r0, p1, p2, p3);
            var wire := XxWire(suite, keys, prologue, p1, p2, p3);
            && out.Some? && out.value.messages == wire.messages
            && out.value.initiator.sym == out.value.responder.sym
            && out.value.initiator.sym == Reached(suite, h0, wire.secrets, wire.pieces, 1)
            && var ck := Chained(suite, h0, wire.secrets);
               Split(suite, out.value.initiator.sym, true) == Keys(Output(suite, ck, [], 1), Output(suite, ck, [], 2))
  {
    var h0 := suite.hash(XX_PATTERN);
    XxName();
    NameIsHashed(suite, XX_PATTERN);
    var i0, r0 := XxStart(suite, keys.sI, keys.eI, prologue), XxStart(suite, keys.sR, keys.eR, prologue);
    var eI, eR := Public(suite, keys.eI), Public(suite, keys.eR);
    var ee, es, se := suite.dh(keys.eI, eR), suite.dh(keys.eI, Public(suite, keys.sR)), suite.dh(keys.sI, eR);
    PieceReaches(suite, h0, [], [], 0, prologue);
    assert [] + [prologue] == [prologue];
    OneOnTheWire(suite, i0, h0, [prologue], p1);
    MessageOneAgrees(suite, i0, r0, p1);
    var t1 := [prologue] + [eI, p1];
    var s1 := Reached(suite, h0, [], t1, 0);
    var i1, r1 := i0.(sym := s1), r0.(sym := s1, re := eI);
    assert t1 + [eR] == [prologue, eI, p1, eR];
    var t2 := t1 + [eR];
    var ct1 := suite.aead.seal(CipherKey(suite, h0, [ee]), 0, Transcript(suite, h0, t2), Public(suite, keys.sR));
    var ct2 := suite.aead.seal(CipherKey(suite, h0, [ee, es]), 0, Transcript(suite, h0, t2 + [ct1]), p2);
    TwoOnTheWire(suite, r1, h0, t1, ee, es, ct1, ct2, p2);
    MessageTwoAgrees(suite, i1, r1, p2);
    var t3 := t2 + [ct1] + [ct2];
    var s2 := Reached(suite, h0, [ee, es], t3, 1);
    var i2, r2 := i1.(sym := s2, re := eR, rs := Some(Public(suite, keys.sR))), r1.(sym := s2);
    var ct3 := suite.aead.seal(CipherKey(suite, h0, [ee, es]), 1, Transcript(suite, h0, t3), Public(suite, keys.sI));
    assert [ee, es] + [se] == [ee, es, se];
    var ct4 := suite.aead.seal(CipherKey(suite, h0, [ee, es, se]), 0, Transcript(suite, h0, t3 + [ct3]), p3);
    ThreeOnTheWire(suite, i2, h0, [ee, es], t3, se, ct3, ct4, p3);
    MessageThreeAgrees(suite, i2, r2, p3);
    HkdfIsItsOutputs(suite, Chained(suite, h0, [ee, es, se]), []);
  }

  /** The NNpsk0 state after these secrets: the pre-shared key is the first, and the second of its
      outputs is hashed into the transcript. */
  function NnWire(suite: Suite, psk: Bytes, eI: Bytes, eR: Bytes, prologue: Bytes, p1: Bytes, p2: Bytes): Wire {
    var h0 := suite.hash(Ascii("Noise_NNpsk0_25519_ChaChaPoly_BLAKE2s"));
    var i, r := Public(suite, eI), Public(suite, eR);
    var t1 := [prologue, Output(suite, h0, psk, 2), i];
    var ct1 := suite.aead.seal(CipherKey(suite, h0, [psk, i]), 0, Transcript(suite, h0, t1), p1);
    var t2 := t1 + [ct1] + [r];
    var secrets := [psk, i, r, suite.dh(eI, r)];
    var ct2 := suite.aead.seal(CipherKey(suite, h0, secrets), 0, Transcript(suite, h0, t2), p2);
    Wire([i + ct1, r + ct2], secrets, t2 + [ct2])
  }

  /** The same for NNpsk0. */
  lemma {:induction false} NnOnTheWire(
      suite: Suite, psk: Bytes, eI: Bytes, eR: Bytes, prologue: Bytes, p1: Bytes, p2: Bytes)
    requires LawfulSuite(suite)
    ensures var h0 := suite.hash(Ascii("Noise_NNpsk0_25519_ChaChaPoly_BLAKE2s"));
            var wire := NnWire(suite, psk, eI, eR, prologue, p1, p2);
            var (s1, m1) := NnWrite(suite, NnStart(suite, psk, prologue), eI, None, p1);
            var (s2, m2) := NnWrite(suite, s1, eR, Some(Public(suite, eI)), p2);
            && wire.messages == [m1, m2] && s2 == Reached(suite, h0, wire.secrets, wire.pieces, 1)
            && var ck := Chained(suite, h0, wire.secrets);
               Split(suite, s2, true) == Keys(Output(suite, ck, [], 1), Output(suite, ck, [], 2))
  {
    var h0 := suite.hash(NN_PATTERN);
    NnName();
    NameIsHashed(suite, NN_PATTERN);
    var i, r := Public(suite, eI), Public(suite, eR);
    var start := NnStart(suite, psk, prologue);
    PieceReaches(suite, h0, [], [], 0, prologue);
    assert [] + [prologue] == [prologue] && [] + [psk] == [psk] && [psk][..0] == [];
    HkdfIsItsOutputs(suite, h0, psk);
    var begun := [prologue] + [Output(suite, h0, psk, 2)];
    PieceReaches(suite, h0, [], [prologue], 0, Output(suite, h0, psk, 2));
    assert start.h == Transcript(suite, h0, begun) && start.ck == Chained(suite, h0, [psk]);
    var t1 := begun + [i];
    assert t1 == [prologue, Output(suite, h0, psk, 2), i] && t1[..2] == begun;
    SecretReaches(suite, h0, [psk], t1, MixHash(suite, start, i), i);
    assert [psk] + [i] == [psk, i];
    var ct1 := suite.aead.seal(CipherKey(suite, h0, [psk, i]), 0, Transcript(suite, h0, t1), p1);
    SealReaches(suite, h0, [psk, i], t1, 0, p1, ct1);
    var s1 := Reached(suite, h0, [psk, i], t1 + [ct1], 1);
    PieceReaches(suite, h0, [psk, i], t1 + [ct1], 1, r);
    var t2 := t1 + [ct1] + [r];
    SecretReaches(suite, h0, [psk, i], t2, MixHash(suite, s1, r), r);
    SecretReaches(suite, h0, [psk, i] + [r], t2, Reached(suite, h0, [psk, i] + [r], t2, 0), suite.dh(eI, r));
    var secrets := [psk, i, r, suite.dh(eI, r)];
    assert [psk, i] + [r] + [suite.dh(eI, r)] == secrets;
    var ct2 := suite.aead.seal(CipherKey(suite, h0, secrets), 0, Transcript(suite, h0, t2), p2);
    SealReaches(suite, h0, secrets, t2, 0, p2, ct2);
    HkdfIsItsOutputs(suite, Chained(suite, h0, secrets), []);
  }
}
