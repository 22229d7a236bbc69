/** The encrypted datagram channel: the packets `DgramTx` builds, the router's lane, and
    what `DgramRx` delivers, over a network that may do anything but forge
    (`src/dgram.rs`, `StatelessNoise` in `src/noise.rs`, `route_inner` in `src/kcp.rs`). */
module Datagram {
  import opened Base
  import opened Crypto
  import opened ReplayWindow
  import Utf8

  const CLASS_DGRAM: byte := 0x03
  const KIND_DATA: byte := 0x00
  const KIND_KEEPALIVE: byte := 0x01
  const KIND_NAME: byte := 0x02
  const MAX_NAME_LEN: nat := 256
  const NONCE_LEN: nat := 8

  datatype Frame = Data(payload: Bytes) | Keepalive | Name(text: Bytes)

  /** A label is text: the sender takes a `&str`. */
  predicate WellFormed(f: Frame) {
    f.Name? ==> Utf8.Valid(f.text)
  }

  function Plaintext(f: Frame): (p: Bytes)
    ensures p != []
  {
    match f
    case Data(payload) => [KIND_DATA] + payload
    case Keepalive => [KIND_KEEPALIVE]
    case Name(text) => [KIND_NAME] + text
  }

  /** A `[nonce:8][ciphertext][tag:16]` datagram body. */
  function SealedBody(aead: Aead, key: Bytes, nonce: nat, plain: Bytes): Bytes {
    BigEndian(nonce, NONCE_LEN) + aead.seal(key, nonce, [], plain)
  }

  /** A whole packet, `[class][tag:4]` and then the body. */
  function Packet(aead: Aead, key: Bytes, tag: nat, nonce: nat, plain: Bytes): Bytes {
    [CLASS_DGRAM] + BigEndian(tag, 4) + SealedBody(aead, key, nonce, plain)
  }

  /** The body the router hands to the lane registered under `tag`, if any. */
  function Routed(datagram: Bytes, tag: nat): Option<Bytes> {
    if |datagram| < 5 || datagram[0] != CLASS_DGRAM then None
    else if FromBigEndian(datagram[1..5]) != tag then None
    else Some(datagram[5..])
  }

  datatype OpenError = ShortDatagram | Unauthentic | Refused(verdict: Verdict)

  /** `open_in_place`: authenticate first, and only then consult the replay window. */
  function OpenBody(aead: Aead, key: Bytes, w: Window, body: Bytes): (Window, Result<Bytes, OpenError>) {
    if |body| < NONCE_LEN + TAGLEN then (w, Err(ShortDatagram))
    else
      var nonce := FromBigEndian(body[..NONCE_LEN]);
      match aead.open(key, nonce, [], body[NONCE_LEN..])
      case None => (w, Err(Unauthentic))
      case Some(plain) =>
        var (w', verdict) := Mark(w, nonce);
        (w', if verdict == Accepted then Ok(plain) else Err(Refused(verdict)))
  }

  /** What a decrypted body means to `recv`; unknown kinds and bad labels are dropped. */
  function Classify(plain: Bytes): Option<Frame> {
    if plain == [] then None
    else if plain[0] == KIND_DATA then Some(Data(plain[1..]))
    else if plain[0] == KIND_KEEPALIVE then Some(Keepalive)
    else if plain[0] == KIND_NAME && |plain| - 1 <= MAX_NAME_LEN && Utf8.Valid(plain[1..]) then
      Some(Name(plain[1..]))
    else None
  }

  /** One body through `next` and `recv`: the window after it and the frame it yields. */
  function ReceiveBody(aead: Aead, key: Bytes, w: Window, body: Bytes): (Window, Option<Frame>) {
    var (w', outcome) := OpenBody(aead, key, w, body);
    (w', if outcome.Ok? then Classify(outcome.value) else None)
  }

  /** A label its receiver will not take. */
  predicate Overlong(f: Frame) {
    f.Name? && |f.text| > MAX_NAME_LEN
  }

  /** Every frame but an overlong label comes back as the sender meant it. */
  lemma {:induction false} ClassifyInvertsPlaintext(f: Frame)
    requires WellFormed(f)
    ensures Classify(Plaintext(f)) == if Overlong(f) then None else Some(f)
  {
    match f
    case Data(payload) => assert Plaintext(f)[1..] == payload;
    case Keepalive =>
    case Name(text) => assert Plaintext(f)[1..] == text;
  }

  /** What a decrypted body is taken for: a payload behind a zero, a lone one, or up to 256 bytes of
      text behind a two. A one may have anything behind it; nothing else is taken. */
  lemma {:induction false} ClassifyIff(plain: Bytes)
    ensures forall payload :: Classify(plain) == Some(Data(payload)) <==> plain == [0] + payload
    ensures Classify(plain) == Some(Keepalive) <==> |plain| > 0 && plain[0] == 1
    ensures forall text :: Classify(plain) == Some(Name(text)) <==>
              plain == [2] + text && |text| <= 256 && Utf8.Valid(text)
  {
    if plain != [] {
      assert plain == [plain[0]] + plain[1..];
      forall rest: Bytes, k: byte
        ensures plain == [k] + rest <==> plain[0] == k && plain[1..] == rest
      {
        assert ([k] + rest)[1..] == rest;
      }
    }
  }

  /** A packet on the wire: three, the tag and the nonce with their high bytes first, and the kind
      and payload sealed under that nonce with nothing authenticated beside them. */
  lemma {:induction false} PacketBytes(aead: Aead, key: Bytes, tag: nat, nonce: nat, f: Frame)
    ensures var kind: byte := if f.Data? then 0 else if f.Keepalive? then 1 else 2;
            var rest := if f.Data? then f.payload else if f.Keepalive? then [] else f.text;
            Packet(aead, key, tag, nonce, Plaintext(f)) ==
            [3] + BigEndian(tag, 4) + BigEndian(nonce, 8) + aead.seal(key, nonce, [], [kind] + rest)
  {
    assert f.Keepalive? ==> Plaintext(f) == [1] + [];
    Regrouped([3], BigEndian(tag, 4), BigEndian(nonce, 8), aead.seal(key, nonce, [], Plaintext(f)));
  }

  lemma {:induction false} Regrouped(a: Bytes, b: Bytes, c: Bytes, d: Bytes)
    ensures a + b + (c + d) == a + b + c + d
  {
  }

  /** A packet reaches the lane of its own tag, whole, and no other lane. */
  lemma {:induction false} PacketRoutes(aead: Aead, key: Bytes, tag: nat, nonce: nat, plain: Bytes, lane: nat)
    requires tag < U32_LIMIT
    ensures Routed(Packet(aead, key, tag, nonce, plain), lane)
         == if lane == tag then Some(SealedBody(aead, key, nonce, plain)) else None
  {
    var packet := Packet(aead, key, tag, nonce, plain);
    assert packet[1..5] == BigEndian(tag, 4);
    assert packet[5..] == SealedBody(aead, key, nonce, plain);
    WidthLimits();
    BigEndianRoundTrip(tag, 4);
  }

  /** And a lane gets exactly what follows three and its own tag, be it nothing. */
  lemma {:induction false} RoutedIff(datagram: Bytes, tag: nat, body: Bytes)
    requires tag < U32_LIMIT
    ensures Routed(datagram, tag) == Some(body) <==> datagram == [3] + BigEndian(tag, 4) + body
  {
    WidthLimits();
    BigEndianRoundTrip(tag, 4);
    var whole := [3] + BigEndian(tag, 4) + body;
    assert whole[1..5] == BigEndian(tag, 4) && whole[5..] == body;
    if Routed(datagram, tag) == Some(body) {
      FromBigEndianRoundTrip(datagram[1..5]);
      assert datagram == [datagram[0]] + datagram[1..5] + datagram[5..];
    }
  }

  /** A sealed body opens to its plaintext unless the replay window refuses its nonce. */
  lemma {:induction false} SealedBodyOpens(aead: Aead, key: Bytes, w: Window, nonce: nat, plain: Bytes)
    requires LawfulAead(aead) && nonce < U64_LIMIT
    ensures OpenBody(aead, key, w, SealedBody(aead, key, nonce, plain))
         == (Mark(w, nonce).0,
             if Mark(w, nonce).1 == Accepted then Ok(plain) else Err(Refused(Mark(w, nonce).1)))
  {
    var body := SealedBody(aead, key, nonce, plain);
    assert body[..NONCE_LEN] == BigEndian(nonce, NONCE_LEN);
    assert body[NONCE_LEN..] == aead.seal(key, nonce, [], plain);
    WidthLimits();
    BigEndianRoundTrip(nonce, NONCE_LEN);
  }

  // ---------------------------------------------------------------- two ends and a network

  datatype Side = Left | Right

  function Other(s: Side): Side {
    if s == Left then Right else Left
  }

  /** One end: its nonce counter, its replay window, the bodies queued for it, and the
      frames it has delivered with the nonce each came under. `accepted` is the
      reference's memory of the window. */
  datatype End = End(
    sendNonce: nat, window: Window, accepted: set<nat>, lane: seq<Bytes>, delivered: seq<(nat, Frame)>)

  datatype Seal = Seal(key: Bytes, nonce: nat, frame: Frame)

  /** `seals` lists every AEAD sealing either end performed, oldest first. */
  datatype World = World(left: End, right: End, seals: seq<Seal>)

  /** The parties' fixed setup: `leftKey` seals what the left end sends. */
  datatype Net = Net(aead: Aead, tag: nat, leftKey: Bytes, rightKey: Bytes)

  function SendKey(net: Net, s: Side): Bytes {
    if s == Left then net.leftKey else net.rightKey
  }

  function RecvKey(net: Net, s: Side): Bytes {
    SendKey(net, Other(s))
  }

  function At(w: World, s: Side): End {
    if s == Left then w.left else w.right
  }

  function With(w: World, s: Side, e: End): World {
    if s == Left then w.(left := e) else w.(right := e)
  }

  /** Whether `key` has sealed `plain` under `nonce`. */
  predicate Sealed(seals: seq<Seal>, key: Bytes, nonce: nat, plain: Bytes) {
    exists i :: 0 <= i < |seals| && SealIs(seals[i], key, nonce, plain)
  }

  predicate SealIs(s: Seal, key: Bytes, nonce: nat, plain: Bytes) {
    s.key == key && s.nonce == nonce && Plaintext(s.frame) == plain
  }

  /** What the network may bring: any bytes at all, as long as a body that authenticates
      under a session key was sealed under it. */
  predicate Unforged(net: Net, seals: seq<Seal>, key: Bytes, body: Bytes) {
    |body| >= NONCE_LEN + TAGLEN ==>
      var nonce := FromBigEndian(body[..NONCE_LEN]);
      var plain := net.aead.open(key, nonce, [], body[NONCE_LEN..]);
      plain.Some? ==> Sealed(seals, key, nonce, plain.value)
  }

  datatype Step =
    | Send(side: Side, frame: Frame)
    | Arrive(side: Side, datagram: Bytes, room: bool)
    | Receive(side: Side)

  predicate Enabled(net: Net, w: World, step: Step) {
    match step
    case Send(_, frame) => WellFormed(frame)
    case Arrive(side, datagram, _) =>
      var body := Routed(datagram, net.tag);
      body.Some? ==> Unforged(net, w.seals, RecvKey(net, side), body.value)
    case Receive(side) => At(w, side).lane != []
  }

  function Next(net: Net, w: World, step: Step): World
    requires Enabled(net, w, step)
  {
    match step
    case Send(side, frame) =>
      var e := At(w, side);
      // The counter refuses to pass u64::MAX, and a refused seal changes nothing. A sealed
      // packet the socket queue has no room for has still spent its nonce.
      if e.sendNonce + 1 >= U64_LIMIT then w
      else
        With(w, side, e.(sendNonce := e.sendNonce + 1))
          .(seals := w.seals + [Seal(SendKey(net, side), e.sendNonce, frame)])
    case Arrive(side, datagram, room) =>
      var body := Routed(datagram, net.tag);
      if body.Some? && room then
        var e := At(w, side);
        With(w, side, e.(lane := e.lane + [body.value]))
      else w
    case Receive(side) =>
      var e := At(w, side);
      var (window, frame) := ReceiveBody(net.aead, RecvKey(net, side), e.window, e.lane[0]);
      var nonce := if |e.lane[0]| >= NONCE_LEN then FromBigEndian(e.lane[0][..NONCE_LEN]) else 0;
      var outcome := OpenBody(net.aead, RecvKey(net, side), e.window, e.lane[0]).1.Ok?;
      With(w, side, e.(
        window := window,
        accepted := if outcome then e.accepted + {nonce} else e.accepted,
        lane := e.lane[1..],
        delivered := if frame.Some? then e.delivered + [(nonce, frame.value)] else e.delivered))
  }

  const START: End := End(0, EMPTY, {}, [], [])
  const INIT: World := World(START, START, [])

  predicate ValidRun(net: Net, w: World, steps: seq<Step>)
    decreases |steps|
  {
    steps == [] || (Enabled(net, w, steps[0]) && ValidRun(net, Next(net, w, steps[0]), steps[1..]))
  }

  function Run(net: Net, w: World, steps: seq<Step>): World
    requires ValidRun(net, w, steps)
    decreases |steps|
  {
    if steps == [] then w else Run(net, Next(net, w, steps[0]), steps[1..])
  }

  // ---------------------------------------------------------------- what every step keeps

  ghost predicate Lawful(net: Net) {
    LawfulAead(net.aead) && net.leftKey != net.rightKey && net.tag < U32_LIMIT
  }

  /** Under each key the nonces sealed are distinct, in counter order, below the counter. */
  predicate NoncesOnce(net: Net, w: World) {
    && (forall s: Side :: At(w, s).sendNonce < U64_LIMIT)
    && (forall i :: 0 <= i < |w.seals| ==>
          WellFormed(w.seals[i].frame)
          && exists s: Side :: w.seals[i].key == SendKey(net, s) && w.seals[i].nonce < At(w, s).sendNonce)
    && (forall i, j :: 0 <= i < j < |w.seals| && w.seals[i].key == w.seals[j].key ==>
          w.seals[i].nonce < w.seals[j].nonce)
  }

  predicate LanesUnforged(net: Net, w: World) {
    forall s: Side, i :: 0 <= i < |At(w, s).lane| ==> Unforged(net, w.seals, RecvKey(net, s), At(w, s).lane[i])
  }

  /** A delivery is a frame the other end sealed, under that nonce. */
  predicate Genuine(seals: seq<Seal>, key: Bytes, d: (nat, Frame)) {
    Seal(key, d.0, d.1) in seals
  }

  ghost predicate DeliveredOnce(net: Net, w: World, s: Side) {
    var e := At(w, s);
    && Represents(e.window, e.accepted)
    && (forall i :: 0 <= i < |e.delivered| ==>
          e.delivered[i].0 in e.accepted && Genuine(w.seals, RecvKey(net, s), e.delivered[i]))
    && (forall i, j :: 0 <= i < j < |e.delivered| ==> e.delivered[i].0 != e.delivered[j].0)
  }

  ghost predicate Invariant(net: Net, w: World) {
    NoncesOnce(net, w) && LanesUnforged(net, w) && DeliveredOnce(net, w, Left) && DeliveredOnce(net, w, Right)
  }

  lemma {:induction false} SealedGrows(seals: seq<Seal>, more: seq<Seal>, key: Bytes, nonce: nat, plain: Bytes)
    requires Sealed(seals, key, nonce, plain)
    ensures Sealed(seals + more, key, nonce, plain)
  {
    var i :| 0 <= i < |seals| && SealIs(seals[i], key, nonce, plain);
    assert (seals + more)[i] == seals[i];
  }

  lemma {:induction false} UnforgedGrows(net: Net, seals: seq<Seal>, more: seq<Seal>, key: Bytes, body: Bytes)
    requires Unforged(net, seals, key, body)
    ensures Unforged(net, seals + more, key, body)
  {
    if |body| >= NONCE_LEN + TAGLEN {
      var nonce := FromBigEndian(body[..NONCE_LEN]);
      var plain := net.aead.open(key, nonce, [], body[NONCE_LEN..]);
      if plain.Some? {
        SealedGrows(seals, more, key, nonce, plain.value);
      }
    }
  }

  lemma {:induction false} SendKeeps(net: Net, w: World, side: Side, frame: Frame)
    requires Lawful(net) && Invariant(net, w) && WellFormed(frame)
    ensures Invariant(net, Next(net, w, Send(side, frame)))
  {
    var w' := Next(net, w, Send(side, frame));
    if w' != w {
      var seal := Seal(SendKey(net, side), At(w, side).sendNonce, frame);
      assert w'.seals == w.seals + [seal];
      assert NoncesOnce(net, w');
      forall s: Side, i | 0 <= i < |At(w', s).lane|
        ensures Unforged(net, w'.seals, RecvKey(net, s), At(w', s).lane[i])
      {
        UnforgedGrows(net, w.seals, [seal], RecvKey(net, s), At(w, s).lane[i]);
      }
      DeliveredGrows(net, w, w', seal, Left);
      DeliveredGrows(net, w, w', seal, Right);
    }
  }

  lemma {:induction false} DeliveredGrows(net: Net, w: World, w': World, seal: Seal, s: Side)
    requires DeliveredOnce(net, w, s) && w'.seals == w.seals + [seal]
    requires At(w', s) == At(w, s).(sendNonce := At(w', s).sendNonce)
    ensures DeliveredOnce(net, w', s)
  {
  }

  lemma {:induction false} ArriveKeeps(net: Net, w: World, side: Side, datagram: Bytes, room: bool)
    requires Lawful(net) && Invariant(net, w) && Enabled(net, w, Arrive(side, datagram, room))
    ensures Invariant(net, Next(net, w, Arrive(side, datagram, room)))
  {
  }

  /** A body that yields a frame was sealed by the other end as that very frame. */
  lemma {:induction false} ReceivedWasSent(net: Net, w: World, side: Side)
    requires Lawful(net) && Invariant(net, w) && At(w, side).lane != []
    requires ReceiveBody(net.aead, RecvKey(net, side), At(w, side).window, At(w, side).lane[0]).1.Some?
    ensures var body := At(w, side).lane[0];
      && |body| >= NONCE_LEN
      && Genuine(w.seals, RecvKey(net, side),
           (FromBigEndian(body[..NONCE_LEN]),
            ReceiveBody(net.aead, RecvKey(net, side), At(w, side).window, body).1.value))
  {
    var key, body := RecvKey(net, side), At(w, side).lane[0];
    var nonce := FromBigEndian(body[..NONCE_LEN]);
    var plain := net.aead.open(key, nonce, [], body[NONCE_LEN..]);
    assert Unforged(net, w.seals, key, body);
    var i :| 0 <= i < |w.seals| && SealIs(w.seals[i], key, nonce, plain.value);
    ClassifyInvertsPlaintext(w.seals[i].frame);
    assert w.seals[i] in w.seals;
  }

  /** The window after a body stands for the nonces accepted so far, and a body that yields
      a frame was under a new one. */
  lemma {:induction false} BodyMarks(aead: Aead, key: Bytes, w: Window, accepted: set<nat>, body: Bytes)
    requires Represents(w, accepted)
    ensures var nonce := if |body| >= NONCE_LEN then FromBigEndian(body[..NONCE_LEN]) else 0;
            var (w', outcome) := OpenBody(aead, key, w, body);
            && Represents(w', if outcome.Ok? then accepted + {nonce} else accepted)
            && (outcome.Ok? ==> nonce !in accepted)
  {
    if |body| >= NONCE_LEN + TAGLEN {
      MarkRefines(w, accepted, FromBigEndian(body[..NONCE_LEN]));
    }
  }

  /** The delivery is under a nonce no earlier delivery at this end came under. */
  lemma {:induction false} ReceiveDeliversOnce(net: Net, w: World, side: Side)
    requires Lawful(net) && Invariant(net, w) && At(w, side).lane != []
    ensures DeliveredOnce(net, Next(net, w, Receive(side)), side)
  {
    var e := At(w, side);
    BodyMarks(net.aead, RecvKey(net, side), e.window, e.accepted, e.lane[0]);
    if ReceiveBody(net.aead, RecvKey(net, side), e.window, e.lane[0]).1.Some? {
      ReceivedWasSent(net, w, side);
    }
  }

  lemma {:induction false} ReceiveKeeps(net: Net, w: World, side: Side)
    requires Lawful(net) && Invariant(net, w) && At(w, side).lane != []
    ensures Invariant(net, Next(net, w, Receive(side)))
  {
    var w' := Next(net, w, Receive(side));
    ReceiveDeliversOnce(net, w, side);
    assert w'.seals == w.seals && At(w', Other(side)) == At(w, Other(side));
    assert At(w', side).sendNonce == At(w, side).sendNonce && At(w', side).lane == At(w, side).lane[1..];
    assert NoncesOnce(net, w') by {
      assert forall s: Side :: At(w', s).sendNonce == At(w, s).sendNonce;
    }
    forall s: Side, i | 0 <= i < |At(w', s).lane|
      ensures Unforged(net, w'.seals, RecvKey(net, s), At(w', s).lane[i])
    {
      assert At(w', s).lane[i] == At(w, s).lane[if s == side then i + 1 else i];
    }
  }

  lemma {:induction false} RunKeeps(net: Net, w: World, steps: seq<Step>)
    requires Lawful(net) && Invariant(net, w) && ValidRun(net, w, steps)
    ensures Invariant(net, Run(net, w, steps))
    decreases |steps|
  {
    if steps != [] {
      match steps[0] {
        case Send(side, frame) => SendKeeps(net, w, side, frame);
        case Arrive(side, datagram, room) => ArriveKeeps(net, w, side, datagram, room);
        case Receive(side) => ReceiveKeeps(net, w, side);
      }
      RunKeeps(net, Next(net, w, steps[0]), steps[1..]);
    }
  }

  /** However the network drops, duplicates, reorders or invents packets: each end delivers
      only frames the other end sent, unchanged, each under a nonce of its own, and no key
      ever seals two messages under one nonce. */
  lemma {:induction false} EveryRunDeliversWhatWasSentOnce(net: Net, steps: seq<Step>)
    requires Lawful(net) && ValidRun(net, INIT, steps)
    ensures var w := Run(net, INIT, steps);
      && (forall s: Side, i :: 0 <= i < |At(w, s).delivered| ==>
            Seal(SendKey(net, Other(s)), At(w, s).delivered[i].0, At(w, s).delivered[i].1) in w.seals)
      && (forall s: Side, i, j :: 0 <= i < j < |At(w, s).delivered| ==>
            At(w, s).delivered[i].0 != At(w, s).delivered[j].0)
      && (forall i, j :: 0 <= i < j < |w.seals| && w.seals[i].key == w.seals[j].key ==>
            w.seals[i].nonce != w.seals[j].nonce)
      && (forall i :: 0 <= i < |w.seals| ==> w.seals[i].nonce + 1 < U64_LIMIT)
  {
    RunKeeps(net, INIT, steps);
    var w := Run(net, INIT, steps);
    assert forall s: Side :: DeliveredOnce(net, w, s);
    forall s: Side, i | 0 <= i < |At(w, s).delivered|
      ensures Seal(SendKey(net, Other(s)), At(w, s).delivered[i].0, At(w, s).delivered[i].1) in w.seals
    {
      assert Genuine(w.seals, RecvKey(net, s), At(w, s).delivered[i]);
    }
  }

  /** A body that does not authenticate is dropped and moves nothing but the lane. */
  lemma {:induction false} UnauthenticMovesNothing(net: Net, w: World, side: Side)
    requires At(w, side).lane != []
    requires var body := At(w, side).lane[0];
      || |body| < NONCE_LEN + TAGLEN
      || net.aead.open(RecvKey(net, side), FromBigEndian(body[..NONCE_LEN]), [], body[NONCE_LEN..]) == None
    ensures Next(net, w, Receive(side)) == With(w, side, At(w, side).(lane := At(w, side).lane[1..]))
  {
  }

  /** The converse: a sealed frame at the head of the lane is delivered as it was sent exactly
      when its nonce is new, no accepted one is 128 or more ahead, and it is no overlong label. */
  lemma {:induction false} FreshSealIsDelivered(net: Net, w: World, side: Side, k: nat)
    requires Lawful(net) && Invariant(net, w) && At(w, side).lane != []
    requires k < |w.seals| && w.seals[k].key == RecvKey(net, side)
    requires At(w, side).lane[0] == SealedBody(net.aead, w.seals[k].key, w.seals[k].nonce, Plaintext(w.seals[k].frame))
    ensures At(Next(net, w, Receive(side)), side).delivered
         == At(w, side).delivered
            + if ReferenceAccepts(At(w, side).accepted, w.seals[k].nonce) && !Overlong(w.seals[k].frame)
              then [(w.seals[k].nonce, w.seals[k].frame)] else []
  {
    var seal, e := w.seals[k], At(w, side);
    assert seal.nonce < U64_LIMIT;
    SealedBodyOpens(net.aead, seal.key, e.window, seal.nonce, Plaintext(seal.frame));
    ClassifyInvertsPlaintext(seal.frame);
    MarkRefines(e.window, e.accepted, seal.nonce);
    var body := e.lane[0];
    assert body[..NONCE_LEN] == BigEndian(seal.nonce, NONCE_LEN);
    WidthLimits();
    BigEndianRoundTrip(seal.nonce, NONCE_LEN);
  }

  /** The packet of a sealing may always arrive, and lands on the lane as its sealed body. */
  lemma {:induction false} GenuineArrives(net: Net, w: World, side: Side, k: nat)
    requires Lawful(net) && Invariant(net, w) && k < |w.seals| && w.seals[k].key == RecvKey(net, side)
    ensures var seal := w.seals[k];
            var plain := Plaintext(seal.frame);
            var step := Arrive(side, Packet(net.aead, seal.key, net.tag, seal.nonce, plain), true);
            && Enabled(net, w, step)
            && Next(net, w, step)
               == With(w, side, At(w, side).(lane := At(w, side).lane
                                             + [SealedBody(net.aead, seal.key, seal.nonce, plain)]))
  {
    var seal := w.seals[k];
    var plain := Plaintext(seal.frame);
    PacketRoutes(net.aead, seal.key, net.tag, seal.nonce, plain, net.tag);
    var body := SealedBody(net.aead, seal.key, seal.nonce, plain);
    assert body[..NONCE_LEN] == BigEndian(seal.nonce, NONCE_LEN)
           && body[NONCE_LEN..] == net.aead.seal(seal.key, seal.nonce, [], plain);
    WidthLimits();
    BigEndianRoundTrip(seal.nonce, NONCE_LEN);
    assert SealIs(w.seals[k], seal.key, seal.nonce, plain);
  }

  /** Every nonce a window has accepted is behind the other end's counter. */
  predicate AcceptedBelow(w: World, s: Side) {
    forall n :: n in At(w, s).accepted ==> n < At(w, Other(s)).sendNonce
  }

  lemma {:induction false} ReceiveAcceptsBelow(net: Net, w: World, side: Side)
    requires Lawful(net) && Invariant(net, w) && At(w, side).lane != [] && AcceptedBelow(w, side)
    ensures AcceptedBelow(Next(net, w, Receive(side)), side)
  {
    var key, e := RecvKey(net, side), At(w, side);
    var body := e.lane[0];
    if OpenBody(net.aead, key, e.window, body).1.Ok? {
      var nonce := FromBigEndian(body[..NONCE_LEN]);
      assert Unforged(net, w.seals, key, body);
      var i :| 0 <= i < |w.seals| && w.seals[i].key == key && w.seals[i].nonce == nonce;
      assert nonce < At(w, Other(side)).sendNonce;
    }
  }

  lemma {:induction false} RunAcceptsBelow(net: Net, w: World, steps: seq<Step>, s: Side)
    requires Lawful(net) && Invariant(net, w) && AcceptedBelow(w, s) && ValidRun(net, w, steps)
    ensures AcceptedBelow(Run(net, w, steps), s)
    decreases |steps|
  {
    if steps != [] {
      var w' := Next(net, w, steps[0]);
      RunKeeps(net, w, [steps[0]]);
      assert [steps[0]][1..] == [] && Run(net, w, [steps[0]]) == w';
      if steps[0] == Receive(s) {
        ReceiveAcceptsBelow(net, w, s);
      }
      RunAcceptsBelow(net, w', steps[1..], s);
    }
  }

  /** The steps that send a frame, bring its packet and take it off the lane. */
  function Hop(net: Net, w: World, side: Side, frame: Frame): seq<Step> {
    var nonce := At(w, Other(side)).sendNonce;
    [Send(Other(side), frame),
     Arrive(side, Packet(net.aead, RecvKey(net, side), net.tag, nonce, Plaintext(frame)), true),
     Receive(side)]
  }

  /** Main result: at any moment of any run, a frame sent and brought at once to an empty lane is
      delivered, whatever went before; only an overlong label is lost. */
  lemma {:induction false} FreshFrameGetsThrough(net: Net, steps: seq<Step>, side: Side, frame: Frame)
    requires Lawful(net) && ValidRun(net, INIT, steps) && WellFormed(frame)
    requires var w := Run(net, INIT, steps); At(w, side).lane == [] && At(w, Other(side)).sendNonce + 1 < U64_LIMIT
    ensures var w := Run(net, INIT, steps);
            && ValidRun(net, w, Hop(net, w, side, frame))
            && At(Run(net, w, Hop(net, w, side, frame)), side).delivered
               == At(w, side).delivered + if Overlong(frame) then [] else [(At(w, Other(side)).sendNonce, frame)]
  {
    var w := Run(net, INIT, steps);
    RunKeeps(net, INIT, steps);
    RunAcceptsBelow(net, INIT, steps, side);
    HopDelivers(net, w, side, frame);
  }

  lemma {:induction false} HopDelivers(net: Net, w: World, side: Side, frame: Frame)
    requires Lawful(net) && Invariant(net, w) && AcceptedBelow(w, side) && WellFormed(frame)
    requires At(w, side).lane == [] && At(w, Other(side)).sendNonce + 1 < U64_LIMIT
    ensures ValidRun(net, w, Hop(net, w, side, frame))
    ensures At(Run(net, w, Hop(net, w, side, frame)), side).delivered
         == At(w, side).delivered + if Overlong(frame) then [] else [(At(w, Other(side)).sendNonce, frame)]
  {
    var hop := Hop(net, w, side, frame);
    var w1 := Next(net, w, hop[0]);
    SendKeeps(net, w, Other(side), frame);
    var k := |w.seals|;
    assert w1.seals[k] == Seal(RecvKey(net, side), At(w, Other(side)).sendNonce, frame);
    GenuineArrives(net, w1, side, k);
    var w2 := Next(net, w1, hop[1]);
    ArriveKeeps(net, w1, side, hop[1].datagram, true);
    FreshSealIsDelivered(net, w2, side, k);
    ThreeSteps(net, w, hop[0], hop[1], hop[2]);
  }

  lemma {:induction false} ThreeSteps(net: Net, w: World, a: Step, b: Step, c: Step)
    requires Enabled(net, w, a) && Enabled(net, Next(net, w, a), b) && Enabled(net, Next(net, Next(net, w, a), b), c)
    ensures ValidRun(net, w, [a, b, c])
    ensures Run(net, w, [a, b, c]) == Next(net, Next(net, Next(net, w, a), b), c)
  {
    var w1 := Next(net, w, a);
    var w2 := Next(net, w1, b);
    var w3 := Next(net, w2, c);
    assert [a, b, c][1..] == [b, c] && [b, c][1..] == [c] && [c][1..] == [];
    assert ValidRun(net, w3, []) && Run(net, w3, []) == w3;
    assert ValidRun(net, w2, [c]) && Run(net, w2, [c]) == w3;
    assert ValidRun(net, w1, [b, c]) && Run(net, w1, [b, c]) == w3;
  }

  // ---------------------------------------------------------------- the objects

  /** A lane drained by `next`: bodies that fail to open or open to nothing are dropped. */
  function NextPlain(aead: Aead, key: Bytes, w: Window, lane: seq<Bytes>): (Window, seq<Bytes>, Option<Bytes>)
    decreases |lane|
  {
    if lane == [] then (w, [], None)
    else
      var (w', outcome) := OpenBody(aead, key, w, lane[0]);
      if outcome.Ok? && outcome.value != [] then (w', lane[1..], Some(outcome.value))
      else NextPlain(aead, key, w', lane[1..])
  }

  /** A lane drained by `recv`: `Receive` steps up to the first that yields a frame. */
  function ReceiveLane(aead: Aead, key: Bytes, w: Window, lane: seq<Bytes>): (Window, seq<Bytes>, Option<Frame>)
    decreases |lane|
  {
    if lane == [] then (w, [], None)
    else
      var (w', frame) := ReceiveBody(aead, key, w, lane[0]);
      if frame.Some? then (w', lane[1..], frame) else ReceiveLane(aead, key, w', lane[1..])
  }

  /** `recv` one `next` at a time is `recv` one body at a time. */
  lemma {:induction false} ReceiveLaneByNext(aead: Aead, key: Bytes, w: Window, lane: seq<Bytes>)
    ensures var (w', rest, plain) := NextPlain(aead, key, w, lane);
      ReceiveLane(aead, key, w, lane)
      == if plain.Some? && Classify(plain.value).Some? then (w', rest, Classify(plain.value))
         else ReceiveLane(aead, key, w', rest)
    ensures |NextPlain(aead, key, w, lane).1| <= |lane|
    ensures NextPlain(aead, key, w, lane).2.Some? ==> |NextPlain(aead, key, w, lane).1| < |lane|
    ensures NextPlain(aead, key, w, lane).2.None? ==> NextPlain(aead, key, w, lane).1 == []
    decreases |lane|
  {
    if lane != [] {
      var (w', outcome) := OpenBody(aead, key, w, lane[0]);
      if !(outcome.Ok? && outcome.value != []) {
        ReceiveLaneByNext(aead, key, w', lane[1..]);
      }
    }
  }

  function ReceiveTimes(side: Side, n: nat): (steps: seq<Step>)
    ensures |steps| == n
  {
    if n == 0 then [] else [Receive(side)] + ReceiveTimes(side, n - 1)
  }

  function Frames(delivered: seq<(nat, Frame)>): (fs: seq<Frame>)
    ensures |fs| == |delivered|
    ensures forall i :: 0 <= i < |fs| ==> fs[i] == delivered[i].1
  {
    if delivered == [] then [] else [delivered[0].1] + Frames(delivered[1..])
  }

  lemma {:induction false} ReceiveStep(net: Net, w: World, side: Side)
    requires At(w, side).lane != []
    ensures var e, e' := At(w, side), At(Next(net, w, Receive(side)), side);
            var (window, frame) := ReceiveBody(net.aead, RecvKey(net, side), e.window, e.lane[0]);
            && e'.window == window && e'.lane == e.lane[1..] && e'.sendNonce == e.sendNonce
            && Frames(e'.delivered) == Frames(e.delivered) + Yield(frame)
  {
  }

  function Yield(frame: Option<Frame>): seq<Frame> {
    match frame
    case None => []
    case Some(f) => [f]
  }

  /** The first `n` bodies of a lane: the window after them and the frames they yield. */
  function DrainLane(aead: Aead, key: Bytes, w: Window, lane: seq<Bytes>, n: nat): (Window, seq<Frame>)
    requires n <= |lane|
    decreases n
  {
    if n == 0 then (w, [])
    else
      var (w', frame) := ReceiveBody(aead, key, w, lane[0]);
      var (w'', frames) := DrainLane(aead, key, w', lane[1..], n - 1);
      (w'', Yield(frame) + frames)
  }

  /** `n` `Receive` steps drain `n` bodies. */
  lemma {:induction false} DrainIsReceiveSteps(net: Net, w: World, side: Side, n: nat)
    requires n <= |At(w, side).lane|
    ensures ValidRun(net, w, ReceiveTimes(side, n))
    ensures var e, e' := At(w, side), At(Run(net, w, ReceiveTimes(side, n)), side);
      var (window, frames) := DrainLane(net.aead, RecvKey(net, side), e.window, e.lane, n);
      && e'.window == window && e'.lane == e.lane[n..] && e'.sendNonce == e.sendNonce
      && Frames(e'.delivered) == Frames(e.delivered) + frames
    decreases n
  {
    if n > 0 {
      var e, w1 := At(w, side), Next(net, w, Receive(side));
      ReceiveStep(net, w, side);
      DrainIsReceiveSteps(net, w1, side, n - 1);
      StepThenMore(net, w, side, n - 1);
      DrainFirst(net.aead, RecvKey(net, side), e.window, e.lane, n, Frames(e.delivered));
    }
  }

  lemma {:induction false} StepThenMore(net: Net, w: World, side: Side, n: nat)
    requires At(w, side).lane != [] && ValidRun(net, Next(net, w, Receive(side)), ReceiveTimes(side, n))
    ensures ValidRun(net, w, ReceiveTimes(side, n + 1))
    ensures Run(net, w, ReceiveTimes(side, n + 1)) == Run(net, Next(net, w, Receive(side)), ReceiveTimes(side, n))
  {
    assert ReceiveTimes(side, n + 1)[1..] == ReceiveTimes(side, n);
  }

  lemma {:induction false} DrainFirst(aead: Aead, key: Bytes, w: Window, lane: seq<Bytes>, n: nat, before: seq<Frame>)
    requires 0 < n <= |lane|
    ensures var (w', frame) := ReceiveBody(aead, key, w, lane[0]);
      var (w1, frames) := DrainLane(aead, key, w', lane[1..], n - 1);
      var (w2, all) := DrainLane(aead, key, w, lane, n);
      && w1 == w2 && all == Yield(frame) + frames && before + Yield(frame) + frames == before + all
      && (frame.None? ==> all == frames) && (frames == [] ==> all == Yield(frame))
      && lane[1..][n - 1..] == lane[n..]
  {
  }

  lemma {:induction false} RecvDrains(aead: Aead, key: Bytes, w: Window, lane: seq<Bytes>)
    ensures var (w', rest, frame) := ReceiveLane(aead, key, w, lane);
      var n := |lane| - |rest|;
      && 0 <= n && rest == lane[n..]
      && DrainLane(aead, key, w, lane, n) == (w', Yield(frame))
    decreases |lane|
  {
    if lane != [] {
      var (w', frame) := ReceiveBody(aead, key, w, lane[0]);
      if frame.None? {
        RecvDrains(aead, key, w', lane[1..]);
      }
      DrainFirst(aead, key, w, lane, |lane| - |ReceiveLane(aead, key, w, lane).1|, []);
    }
  }

  /** One `recv` is a run of `Receive` steps of the two-ended world: same window, same
      lane, and at most the one frame it answers added to the deliveries. */
  lemma {:induction false} RecvIsReceiveSteps(net: Net, w: World, side: Side)
    ensures var e := At(w, side);
      var (window, rest, frame) := ReceiveLane(net.aead, RecvKey(net, side), e.window, e.lane);
      && |rest| <= |e.lane|
      && var steps := ReceiveTimes(side, |e.lane| - |rest|);
      && ValidRun(net, w, steps)
      && var e' := At(Run(net, w, steps), side);
      && e'.window == window && e'.lane == rest && e'.sendNonce == e.sendNonce
      && Frames(e'.delivered) == Frames(e.delivered) + Yield(frame)
  {
    var e := At(w, side);
    RecvDrains(net.aead, RecvKey(net, side), e.window, e.lane);
    var (_, rest, _) := ReceiveLane(net.aead, RecvKey(net, side), e.window, e.lane);
    DrainIsReceiveSteps(net, w, side, |e.lane| - |rest|);
  }

  /** `recv_data`: the next data frame with a payload, everything else skipped. */
  function DataLane(aead: Aead, key: Bytes, w: Window, lane: seq<Bytes>): (Window, seq<Bytes>, Option<Bytes>)
    decreases |lane|
  {
    if lane == [] then (w, [], None)
    else
      var (w', frame) := ReceiveBody(aead, key, w, lane[0]);
      if frame.Some? && frame.value.Data? && frame.value.payload != [] then (w', lane[1..], Some(frame.value.payload))
      else DataLane(aead, key, w', lane[1..])
  }

  predicate Carries(f: Frame) {
    f.Data? && f.payload != []
  }

  /** `recv_data` answers as a loop over `recv` that skips what carries no payload would. */
  lemma {:induction false} DataLaneByRecv(aead: Aead, key: Bytes, w: Window, lane: seq<Bytes>)
    ensures var (w', rest, frame) := ReceiveLane(aead, key, w, lane);
      DataLane(aead, key, w, lane)
      == if frame.None? then (w', rest, None)
         else if Carries(frame.value) then (w', rest, Some(frame.value.payload))
         else DataLane(aead, key, w', rest)
    decreases |lane|
  {
    if lane != [] {
      var (w', frame) := ReceiveBody(aead, key, w, lane[0]);
      if frame.None? {
        DataLaneByRecv(aead, key, w', lane[1..]);
      }
    }
  }

  /** What `recv_data` takes off a lane: frames without a payload, then the one it answers. */
  lemma {:induction false} DataDrains(aead: Aead, key: Bytes, w: Window, lane: seq<Bytes>) returns (skipped: seq<Frame>)
    ensures forall i :: 0 <= i < |skipped| ==> !Carries(skipped[i])
    ensures var (w', rest, data) := DataLane(aead, key, w, lane);
      var n := |lane| - |rest|;
      && 0 <= n && rest == lane[n..]
      && DrainLane(aead, key, w, lane, n) == (w', skipped + if data.Some? then [Data(data.value)] else [])
    decreases |lane|
  {
    skipped := [];
    if lane != [] {
      var (w', frame) := ReceiveBody(aead, key, w, lane[0]);
      if frame.None? || !Carries(frame.value) {
        var more := DataDrains(aead, key, w', lane[1..]);
        skipped := Yield(frame) + more;
        var (_, _, data) := DataLane(aead, key, w', lane[1..]);
        var last := if data.Some? then [Data(data.value)] else [];
        assert Yield(frame) + (more + last) == skipped + last;
      } else {
        assert skipped + [frame.value] == Yield(frame);
      }
      DrainFirst(aead, key, w, lane, |lane| - |DataLane(aead, key, w, lane).1|, []);
    }
    var none: seq<Frame> := [];
    assert none + none == none;
  }

  /** One `recv_data` is a run of `Receive` steps of the two-ended world: same window, same
      lane, and the deliveries grow by frames without a payload and then the one it answers. */
  lemma {:induction false} RecvDataIsReceiveSteps(net: Net, w: World, side: Side) returns (skipped: seq<Frame>)
    ensures forall i :: 0 <= i < |skipped| ==> !Carries(skipped[i])
    ensures var e := At(w, side);
      var (window, rest, data) := DataLane(net.aead, RecvKey(net, side), e.window, e.lane);
      && |rest| <= |e.lane|
      && var steps := ReceiveTimes(side, |e.lane| - |rest|);
      && ValidRun(net, w, steps)
      && var e' := At(Run(net, w, steps), side);
      && e'.window == window && e'.lane == rest && e'.sendNonce == e.sendNonce
      && Frames(e'.delivered) == Frames(e.delivered) + (skipped + if data.Some? then [Data(data.value)] else [])
  {
    var e := At(w, side);
    skipped := DataDrains(net.aead, RecvKey(net, side), e.window, e.lane);
    var (_, rest, _) := DataLane(net.aead, RecvKey(net, side), e.window, e.lane);
    DrainIsReceiveSteps(net, w, side, |e.lane| - |rest|);
  }

  lemma {:induction false} DataLaneByNext(aead: Aead, key: Bytes, w: Window, lane: seq<Bytes>)
    ensures var (w', rest, plain) := NextPlain(aead, key, w, lane);
      DataLane(aead, key, w, lane)
      == if plain.Some? && |plain.value| > 1 && plain.value[0] == KIND_DATA then (w', rest, Some(plain.value[1..]))
         else DataLane(aead, key, w', rest)
    decreases |lane|
  {
    if lane != [] {
      var (w', outcome) := OpenBody(aead, key, w, lane[0]);
      if !(outcome.Ok? && outcome.value != []) {
        DataLaneByNext(aead, key, w', lane[1..]);
      }
    }
  }

  /** A finished stateless session: directional keys, the nonce counter, the replay window. */
  class StatelessNoise {
    const aead: Aead
    const sendKey: Bytes
    const recvKey: Bytes
    const filter: ReplayFilter
    var sendNonce: nat

    ghost predicate Valid()
      reads this, filter
    {
      filter.Valid() && sendNonce < U64_LIMIT && LawfulAead(aead)
    }

    function ReplayState(): Window
      reads filter
    {
      Window(filter.highest, filter.seen)
    }

    constructor (aead: Aead, sendKey: Bytes, recvKey: Bytes)
      requires LawfulAead(aead)
      ensures Valid() && fresh(filter) && sendNonce == 0 && ReplayState() == EMPTY
      ensures this.aead == aead && this.sendKey == sendKey && this.recvKey == recvKey
    {
      this.aead, this.sendKey, this.recvKey, sendNonce := aead, sendKey, recvKey, 0;
      filter := new ReplayFilter();
    }

    /** Everything past the nonce field at `at` is replaced by its sealing; the last counter value is never used. */
    method SealAt(out: Bytes, at: nat) returns (r: Result<Bytes, string>)
      requires Valid() && at + NONCE_LEN <= |out|
      modifies this`sendNonce
      ensures Valid()
      ensures r.Ok? <==> old(sendNonce) + 1 < U64_LIMIT
      ensures sendNonce == if r.Ok? then old(sendNonce) + 1 else old(sendNonce)
      ensures r.Ok? ==> r.value == out[..at] + SealedBody(aead, sendKey, old(sendNonce), out[at + NONCE_LEN..])
    {
      var nonce := sendNonce;
      if nonce + 1 >= U64_LIMIT {
        return Err("stateless send nonce exhausted");
      }
      sendNonce := nonce + 1;
      var numbered := out[..at] + BigEndian(nonce, NONCE_LEN);
      r := Ok(numbered + aead.seal(sendKey, nonce, [], out[at + NONCE_LEN..]));
    }

    /** Open a `[nonce:8][ciphertext]` body in place: `buffer` is the datagram afterwards. */
    method OpenInPlace(datagram: Bytes) returns (buffer: Bytes, r: Result<Bytes, OpenError>)
      requires Valid()
      modifies filter
      ensures Valid()
      ensures (ReplayState(), r) == OpenBody(aead, recvKey, old(ReplayState()), datagram)
      ensures r.Ok? ==> |buffer| == |datagram| && buffer[NONCE_LEN..][..|r.value|] == r.value
    {
      buffer := datagram;
      if |datagram| < NONCE_LEN + TAGLEN {
        return buffer, Err(ShortDatagram);
      }
      var nonce := FromBigEndian(datagram[..NONCE_LEN]);
      FromBigEndianRoundTrip(datagram[..NONCE_LEN]);
      WidthLimits();
      var plain := aead.open(recvKey, nonce, [], datagram[NONCE_LEN..]);
      if plain.None? {
        return buffer, Err(Unauthentic);
      }
      OpenedLength(aead, recvKey, nonce, [], datagram[NONCE_LEN..]);
      buffer := datagram[..NONCE_LEN] + plain.value + datagram[NONCE_LEN + |plain.value|..];
      var verdict := filter.CheckAndMark(nonce);
      r := if verdict == Accepted then Ok(plain.value) else Err(Refused(verdict));
      assert buffer[NONCE_LEN..][..|plain.value|] == plain.value;
    }
  }

  const LANE_CAP: nat := 256

  /** The sending half. `queue` is the socket writer's bounded queue and `spares` the
      buffers it has handed back. */
  class DgramTx {
    const noise: StatelessNoise
    const tag: nat
    const capacity: nat
    var queue: seq<Bytes>
    var closed: bool
    var spares: seq<Bytes>

    ghost predicate Valid()
      reads this, noise, noise.filter
    {
      noise.Valid() && tag < U32_LIMIT && |queue| <= capacity && |spares| <= LANE_CAP
    }

    constructor (noise: StatelessNoise, tag: nat, capacity: nat)
      requires noise.Valid() && tag < U32_LIMIT
      ensures Valid() && queue == [] && !closed && spares == []
      ensures this.noise == noise && this.tag == tag && this.capacity == capacity
    {
      this.noise, this.tag, this.capacity := noise, tag, capacity;
      queue, closed, spares := [], false, [];
    }

    /** Build and queue one sealed packet, in a recycled buffer when there is one. A full
        queue drops the packet and keeps its buffer; the nonce is spent either way. */
    method Emit(kind: byte, payload: Bytes) returns (r: Result<(), string>)
      requires Valid()
      modifies this, noise`sendNonce
      ensures Valid() && closed == old(closed)
      ensures noise.sendNonce ==
              if old(noise.sendNonce) + 1 < U64_LIMIT then old(noise.sendNonce) + 1 else old(noise.sendNonce)
      ensures r.Ok? <==> old(noise.sendNonce) + 1 < U64_LIMIT && !old(closed)
      ensures queue == if r.Ok? && |old(queue)| < capacity
        then old(queue) + [Packet(noise.aead, noise.sendKey, tag, old(noise.sendNonce), [kind] + payload)]
        else old(queue)
    {
      var pkt: Bytes := [];
      if spares != [] {
        pkt, spares := spares[0], spares[1..];
      }
      pkt := [];
      pkt := pkt + [CLASS_DGRAM];
      pkt := pkt + BigEndian(tag, 4);
      pkt := pkt + BigEndian(0, NONCE_LEN);
      pkt := pkt + [kind];
      pkt := pkt + payload;
      assert pkt[..5] == [CLASS_DGRAM] + BigEndian(tag, 4);
      assert pkt[5 + NONCE_LEN..] == [kind] + payload;
      var sealed := noise.SealAt(pkt, 5);
      if sealed.Err? {
        return Err(sealed.error);
      }
      if closed {
        return Err("transport closed");
      }
      if |queue| < capacity {
        queue := queue + [sealed.value];
      } else if |spares| < LANE_CAP {
        spares := spares + [sealed.value];
      }
      return Ok(());
    }

    /** `send`, `probe` and `send_name`: one frame of each kind. */
    method Transmit(frame: Frame) returns (r: Result<(), string>)
      requires Valid()
      modifies this, noise`sendNonce
      ensures Valid() && closed == old(closed)
      ensures r.Ok? <==> old(noise.sendNonce) + 1 < U64_LIMIT && !old(closed)
      ensures noise.sendNonce ==
              if old(noise.sendNonce) + 1 < U64_LIMIT then old(noise.sendNonce) + 1 else old(noise.sendNonce)
      ensures queue == if r.Ok? && |old(queue)| < capacity
        then old(queue) + [Packet(noise.aead, noise.sendKey, tag, old(noise.sendNonce), Plaintext(frame))]
        else old(queue)
    {
      match frame {
        case Data(payload) => r := Emit(KIND_DATA, payload);
        case Keepalive =>
          assert [KIND_KEEPALIVE] + [] == [KIND_KEEPALIVE];
          r := Emit(KIND_KEEPALIVE, []);
        case Name(text) => r := Emit(KIND_NAME, text);
      }
    }
  }

  /** The receiving half: `inbound` is the router's lane and `body` the datagram last
      received. An answer of `None` is where the source waits for the lane. */
  class DgramRx {
    const noise: StatelessNoise
    var inbound: seq<Bytes>
    var body: Bytes

    ghost predicate Valid()
      reads this, noise, noise.filter
    {
      noise.Valid()
    }

    constructor (noise: StatelessNoise, inbound: seq<Bytes>)
      requires noise.Valid()
      ensures Valid() && this.noise == noise && this.inbound == inbound && body == []
    {
      this.noise, this.inbound, body := noise, inbound, [];
    }

    /** The next non-empty plaintext, left at `body[8..8 + n]`. */
    method Next() returns (n: Option<nat>)
      requires Valid()
      modifies this, noise.filter
      ensures Valid()
      ensures n.Some? ==> n.value > 0 && NONCE_LEN + n.value <= |body|
      ensures (noise.ReplayState(), inbound, if n.Some? then Some(body[NONCE_LEN..NONCE_LEN + n.value]) else None)
           == NextPlain(noise.aead, noise.recvKey, old(noise.ReplayState()), old(inbound))
    {
      while inbound != []
        invariant Valid()
        invariant NextPlain(noise.aead, noise.recvKey, noise.ReplayState(), inbound)
               == NextPlain(noise.aead, noise.recvKey, old(noise.ReplayState()), old(inbound))
        decreases |inbound|
      {
        body, inbound := inbound[0], inbound[1..];
        var buffer, plain := noise.OpenInPlace(body);
        body := buffer;
        if plain.Ok? && plain.value != [] {
          assert body[NONCE_LEN..NONCE_LEN + |plain.value|] == body[NONCE_LEN..][..|plain.value|];
          return Some(|plain.value|);
        }
      }
      return None;
    }

    /** The next frame; unknown kinds and bad labels are dropped along the way. */
    method Recv() returns (frame: Option<Frame>)
      requires Valid()
      modifies this, noise.filter
      ensures Valid()
      ensures (noise.ReplayState(), inbound, frame)
           == ReceiveLane(noise.aead, noise.recvKey, old(noise.ReplayState()), old(inbound))
    {
      while true
        invariant Valid()
        invariant ReceiveLane(noise.aead, noise.recvKey, noise.ReplayState(), inbound)
               == ReceiveLane(noise.aead, noise.recvKey, old(noise.ReplayState()), old(inbound))
        decreases |inbound|
      {
        ReceiveLaneByNext(noise.aead, noise.recvKey, noise.ReplayState(), inbound);
        var n := Next();
        if n.None? {
          return None;
        }
        ghost var plain := body[NONCE_LEN..NONCE_LEN + n.value];
        var rest := body[NONCE_LEN + 1..NONCE_LEN + n.value];
        assert plain[1..] == rest && plain[0] == body[NONCE_LEN];
        if body[NONCE_LEN] == KIND_DATA {
          return Some(Data(rest));
        } else if body[NONCE_LEN] == KIND_KEEPALIVE {
          return Some(Keepalive);
        } else if body[NONCE_LEN] == KIND_NAME && |rest| <= MAX_NAME_LEN {
          if Utf8.Valid(rest) {
            return Some(Name(rest));
          }
        }
      }
    }

    /** The payload of the first frame `recv` would answer that carries one. */
    method RecvData() returns (data: Option<Bytes>)
      requires Valid()
      modifies this, noise.filter
      ensures Valid()
      ensures (noise.ReplayState(), inbound, data)
           == DataLane(noise.aead, noise.recvKey, old(noise.ReplayState()), old(inbound))
    {
      while true
        invariant Valid()
        invariant DataLane(noise.aead, noise.recvKey, noise.ReplayState(), inbound)
               == DataLane(noise.aead, noise.recvKey, old(noise.ReplayState()), old(inbound))
        decreases |inbound|
      {
        ReceiveLaneByNext(noise.aead, noise.recvKey, noise.ReplayState(), inbound);
        DataLaneByNext(noise.aead, noise.recvKey, noise.ReplayState(), inbound);
        var n := Next();
        if n.None? {
          return None;
        }
        ghost var plain := body[NONCE_LEN..NONCE_LEN + n.value];
        assert plain[0] == body[NONCE_LEN] && plain[1..] == body[NONCE_LEN + 1..NONCE_LEN + n.value];
        if body[NONCE_LEN] == KIND_DATA && n.value > 1 {
          return Some(body[NONCE_LEN + 1..NONCE_LEN + n.value]);
        }
      }
    }
  }
}
