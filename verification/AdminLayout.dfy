/** The admin protocol's wire format as a table of fields, message by message
    (`src/clientproto.rs`). */
module AdminLayout {
  import opened Base
  import opened AdminWire

  /** One, two or four bytes, the high one first, or a text behind its two-byte length. */
  datatype Field = Byte(b: byte) | Short(n: nat) | Word(n: nat) | Text(s: Bytes)

  function Render(f: Field): Bytes {
    match f
    case Byte(b) => [b]
    case Short(n) => BigEndian(n, 2)
    case Word(n) => BigEndian(n, 4)
    case Text(s) => BigEndian(|s|, 2) + s
  }

  function RenderAll(fs: seq<Field>): Bytes {
    if fs == [] then [] else Render(fs[0]) + RenderAll(fs[1..])
  }

  /** A two-byte count and then every entry's fields. */
  function RenderList<X>(entry: X -> seq<Field>, xs: seq<X>): Bytes {
    BigEndian(|xs|, 2) + RenderEach(entry, xs)
  }

  function RenderEach<X>(entry: X -> seq<Field>, xs: seq<X>): Bytes {
    if xs == [] then [] else RenderAll(entry(xs[0])) + RenderEach(entry, xs[1..])
  }

  function Flagged(b: bool): Field {
    Byte(if b then 1 else 0)
  }

  /** TCP is 1 and UDP is 2. */
  function ProtoField(p: Proto): Field {
    Byte(if p == Tcp then 1 else 2)
  }

  function TransportField(t: Transport): Field {
    Byte(if t == DialAuto then 0 else if t == DialUdp then 1 else 2)
  }

  /** Offline, dialing, connected, backing off. */
  function LinkField(l: LinkStatus): Field {
    Byte(match l case LinkOffline => 0 case Dialing => 1 case Connected => 2 case Backoff => 3)
  }

  function ForwardFields(f: Forward): seq<Field> {
    [ProtoField(f.proto), Short(f.port), Text(f.target), Flagged(f.proxy), Word(f.idleSecs), Flagged(f.enabled)]
  }

  function ServerFields(s: Server): seq<Field> {
    [Text(s.name), Text(s.addr), TransportField(s.transport)]
  }

  function SlotFields(p: PeerSlot): seq<Field> {
    [Text(p.peerId), Byte(p.want), Text(p.iface), LinkField(p.link),
     Byte(match p.path case None => 0 case Some(Direct) => 1 case Some(Relay) => 2)]
  }

  function NameFields(name: Bytes): seq<Field> {
    [Text(name)]
  }

  /** The fields behind the tag, for every message but the snapshot. */
  function FieldsOf(m: Msg): seq<Field>
    requires !m.ClientSnapshot?
  {
    match m
    case ClientAdminHello(version, mode) => [Byte(1), Byte(version), Byte(mode)]
    case MutationResult(ok, msg) => [Byte(3), Flagged(ok), Text(msg)]
    case SelectServer(name) => [Byte(4), Text(name)]
    case SetForwardOptions(proto, port, enabled, proxy, idle) =>
      [Byte(5), ProtoField(proto), Short(port), Flagged(enabled), Flagged(proxy), Word(idle)]
    case SpawnPppoe(name) => [Byte(6), Text(name)]
    case StopSession(name) => [Byte(7), Text(name)]
    case AddServer(name, addr, secret, transport) =>
      [Byte(8), Text(name), Text(addr), Text(secret), TransportField(transport)]
    case RemoveServer(name) => [Byte(9), Text(name)]
    case Connect(name) => [Byte(10), Text(name)]
    case Disconnect => [Byte(11)]
    case AddForward(f) => [Byte(12)] + ForwardFields(f)
    case RemoveForward(proto, port) => [Byte(13), ProtoField(proto), Short(port)]
    case AttachPeer(peerId, want, dev, exit, exitStrict, iface) =>
      [Byte(14), Text(peerId), Byte(want), Text(dev), Flagged(exit), Flagged(exitStrict), Text(iface)]
    case DetachPeer(peerId, want) => [Byte(15), Text(peerId), Byte(want)]
  }

  function ModeField(m: SessionMode): Field {
    Byte(match m case Idle => 0 case Forwards => 1 case Device => 2 case Pppoe => 3 case Offline => 4)
  }

  /** None, discovering, negotiating, up, down, dead. */
  function PhaseField(p: PppPhase): Field {
    Byte(if p == NoPhase then 0 else if p == Discovery then 1 else if p == Negotiating then 2
         else if p == Established then 3 else if p == LinkDown then 4 else 5)
  }

  /** A snapshot: its head, then four lists with the session and link before the last. */
  function SnapshotBytes(s: Snapshot): Bytes {
    RenderAll([Byte(2), Byte(s.version), Text(s.active), ModeField(s.mode), PhaseField(s.phase)])
    + RenderList(ForwardFields, s.forwards) + RenderList(ServerFields, s.servers) + RenderList(NameFields, s.pppoe)
    + RenderAll([Text(s.session), LinkField(s.link)]) + RenderList(SlotFields, s.peers)
  }

  // ---------------------------------------------------------------- the encoder keeps to it

  lemma {:induction false} TwoIsBigEndian(v: nat)
    requires v < U16_LIMIT
    ensures Two(v) == BigEndian(v, 2)
  {
    assert BigEndian(v / 256, 1) == BigEndian(v / 256 / 256, 0) + [v / 256 % 256];
  }

  lemma {:induction false} FourIsBigEndian(v: nat)
    requires v < U32_LIMIT
    ensures Two(v / U16_LIMIT) + Two(v % U16_LIMIT) == BigEndian(v, 4)
  {
    var hi, lo := v / U16_LIMIT, v % U16_LIMIT;
    TwoIsBigEndian(hi);
    TwoIsBigEndian(lo);
    assert v / 256 / 256 == hi && v % 256 == lo % 256 && v / 256 % 256 == lo / 256;
    assert BigEndian(v, 4) == BigEndian(v / 256, 3) + [v % 256];
    assert BigEndian(v / 256, 3) == BigEndian(v / 256 / 256, 2) + [v / 256 % 256];
  }

  predicate FieldFits(f: Field) {
    match f
    case Byte(_) => true
    case Short(n) => n < U16_LIMIT
    case Word(n) => n < U32_LIMIT
    case Text(s) => |s| < U16_LIMIT
  }

  /** What the encoder puts for a field. */
  function PutField(f: Field, tail: Bytes): Bytes {
    match f
    case Byte(b) => PutU8(b, tail)
    case Short(n) => PutU16(n, tail)
    case Word(n) => PutU32(n, tail)
    case Text(s) => PutStr(s, tail)
  }

  lemma {:induction false} PutFieldIs(f: Field, tail: Bytes)
    requires FieldFits(f)
    ensures PutField(f, tail) == Render(f) + tail
  {
    match f {
      case Byte(b) =>
      case Short(n) => TwoIsBigEndian(n);
      case Word(n) =>
        FourIsBigEndian(n);
        assert Two(n / U16_LIMIT) + (Two(n % U16_LIMIT) + tail) == Two(n / U16_LIMIT) + Two(n % U16_LIMIT) + tail;
      case Text(s) =>
        TwoIsBigEndian(|s|);
        assert BigEndian(|s|, 2) + (s + tail) == BigEndian(|s|, 2) + s + tail;
    }
  }

  function PutFields(fs: seq<Field>, tail: Bytes): Bytes {
    if fs == [] then tail else PutField(fs[0], PutFields(fs[1..], tail))
  }

  predicate AllFieldsFit(fs: seq<Field>) {
    forall i :: 0 <= i < |fs| ==> FieldFits(fs[i])
  }

  lemma {:induction false} PutFieldsAre(fs: seq<Field>, tail: Bytes)
    requires AllFieldsFit(fs)
    ensures PutFields(fs, tail) == RenderAll(fs) + tail
  {
    if fs != [] {
      PutFieldsAre(fs[1..], tail);
      PutFieldIs(fs[0], PutFields(fs[1..], tail));
      assert Render(fs[0]) + (RenderAll(fs[1..]) + tail) == RenderAll(fs) + tail;
    }
  }

  lemma {:induction false} PutOne(f: Field, fs: seq<Field>, tail: Bytes)
    ensures PutFields([f] + fs, tail) == PutField(f, PutFields(fs, tail))
  {
    assert ([f] + fs)[1..] == fs;
  }

  lemma {:induction false} PutTwo(a: Field, b: Field, tail: Bytes)
    ensures PutFields([a, b], tail) == PutField(a, PutField(b, tail))
  {
    PutOne(b, [], tail);
    PutOne(a, [b], tail);
    assert [a] + [b] == [a, b] && [b] + [] == [b];
  }

  lemma {:induction false} PutThree(a: Field, b: Field, c: Field, tail: Bytes)
    ensures PutFields([a, b, c], tail) == PutField(a, PutField(b, PutField(c, tail)))
  {
    PutTwo(b, c, tail);
    PutOne(a, [b, c], tail);
    assert [a] + [b, c] == [a, b, c];
  }

  lemma {:induction false} PutFive(a: Field, b: Field, c: Field, d: Field, e: Field, tail: Bytes)
    ensures PutFields([a, b, c, d, e], tail) == PutField(a, PutField(b, PutField(c, PutField(d, PutField(e, tail)))))
  {
    PutThree(c, d, e, tail);
    PutOne(b, [c, d, e], tail);
    PutOne(a, [b, c, d, e], tail);
    assert [b] + [c, d, e] == [b, c, d, e] && [a] + [b, c, d, e] == [a, b, c, d, e];
  }

  lemma {:induction false} PutSix(a: Field, b: Field, c: Field, d: Field, e: Field, f: Field, tail: Bytes)
    ensures PutFields([a, b, c, d, e, f], tail) ==
            PutField(a, PutField(b, PutField(c, PutField(d, PutField(e, PutField(f, tail))))))
  {
    PutFive(b, c, d, e, f, tail);
    PutOne(a, [b, c, d, e, f], tail);
    assert [a] + [b, c, d, e, f] == [a, b, c, d, e, f];
  }

  lemma {:induction false} PutForwardIs(f: Forward, tail: Bytes)
    ensures PutForward(f, tail) == PutFields(ForwardFields(f), tail)
  {
    PutSix(ProtoField(f.proto), Short(f.port), Text(f.target), Flagged(f.proxy), Word(f.idleSecs), Flagged(f.enabled),
           tail);
  }

  lemma {:induction false} PutServerIs(s: Server, tail: Bytes)
    ensures PutServer(s, tail) == PutFields(ServerFields(s), tail)
  {
    PutThree(Text(s.name), Text(s.addr), TransportField(s.transport), tail);
  }

  lemma {:induction false} PutSlotIs(p: PeerSlot, tail: Bytes)
    ensures PutPeerSlot(p, tail) == PutFields(SlotFields(p), tail)
  {
    PutFive(Text(p.peerId), Byte(p.want), Text(p.iface), LinkField(p.link),
            Byte(match p.path case None => 0 case Some(Direct) => 1 case Some(Relay) => 2), tail);
  }

  lemma {:induction false} PutNameIs(name: Bytes, tail: Bytes)
    ensures PutStr(name, tail) == PutFields(NameFields(name), tail)
  {
    PutOne(Text(name), [], tail);
    assert [Text(name)] + [] == NameFields(name);
  }

  lemma {:induction false} PutNamedIs(m: Msg, name: Bytes, tail: Bytes)
    requires m == SelectServer(name) || m == SpawnPppoe(name) || m == StopSession(name) || m == RemoveServer(name)
             || m == Connect(name)
    ensures Put(m, tail) == PutFields(FieldsOf(m), tail)
  {
    PutTwo(Byte(Tag(m)), Text(name), tail);
    assert FieldsOf(m) == [Byte(Tag(m)), Text(name)];
  }

  lemma {:induction false} PutEditIs(m: Msg, tail: Bytes)
    requires m.SetForwardOptions? || m.AddServer? || m.AddForward? || m.RemoveForward?
    ensures Put(m, tail) == PutFields(FieldsOf(m), tail)
  {
    match m {
      case SetForwardOptions(proto, port, enabled, proxy, idle) =>
        PutSix(Byte(5), ProtoField(proto), Short(port), Flagged(enabled), Flagged(proxy), Word(idle), tail);
      case AddServer(name, addr, secret, transport) =>
        PutFive(Byte(8), Text(name), Text(addr), Text(secret), TransportField(transport), tail);
      case AddForward(f) =>
        PutForwardIs(f, tail);
        PutOne(Byte(12), ForwardFields(f), tail);
      case RemoveForward(proto, port) => PutThree(Byte(13), ProtoField(proto), Short(port), tail);
      case _ =>
    }
  }

  lemma {:induction false} PutAttachIs(m: Msg, tail: Bytes)
    requires m.AttachPeer?
    ensures Put(m, tail) == PutFields(FieldsOf(m), tail)
  {
    var fs := [Text(m.peerId), Byte(m.want), Text(m.dev), Flagged(m.exit), Flagged(m.exitStrict), Text(m.iface)];
    PutSix(fs[0], fs[1], fs[2], fs[3], fs[4], fs[5], tail);
    PutOne(Byte(14), fs, tail);
    assert [Byte(14)] + fs == FieldsOf(m);
  }

  lemma {:induction false} PutMsgIs(m: Msg, tail: Bytes)
    requires !m.ClientSnapshot?
    ensures Put(m, tail) == PutFields(FieldsOf(m), tail)
  {
    match m {
      case ClientAdminHello(version, mode) => PutThree(Byte(1), Byte(version), Byte(mode), tail);
      case MutationResult(ok, msg) => PutThree(Byte(3), Flagged(ok), Text(msg), tail);
      case SelectServer(name) => PutNamedIs(m, name, tail);
      case SpawnPppoe(name) => PutNamedIs(m, name, tail);
      case StopSession(name) => PutNamedIs(m, name, tail);
      case RemoveServer(name) => PutNamedIs(m, name, tail);
      case Connect(name) => PutNamedIs(m, name, tail);
      case Disconnect =>
        PutOne(Byte(11), [], tail);
        assert [Byte(11)] + [] == FieldsOf(m);
      case AttachPeer(_, _, _, _, _, _) => PutAttachIs(m, tail);
      case DetachPeer(peerId, want) => PutThree(Byte(15), Text(peerId), Byte(want), tail);
      case _ => PutEditIs(m, tail);
    }
  }

  lemma {:induction false} FittingFields(m: Msg)
    requires Fits(m) && !m.ClientSnapshot?
    ensures AllFieldsFit(FieldsOf(m))
  {
  }

  /** Main result: every message that fits is encoded as its table says. */
  lemma {:induction false} EncodeKeepsTheLayout(m: Msg)
    requires Fits(m)
    ensures Encode(m) == if m.ClientSnapshot? then SnapshotBytes(m.snap) else RenderAll(FieldsOf(m))
  {
    if m.ClientSnapshot? {
      SnapshotIs(m.snap);
    } else {
      PutMsgIs(m, []);
      FittingFields(m);
      PutFieldsAre(FieldsOf(m), []);
      assert RenderAll(FieldsOf(m)) + [] == RenderAll(FieldsOf(m));
    }
  }

  ghost predicate PutsFields<X(!new)>(put: (X, Bytes) -> Bytes, entry: X -> seq<Field>) {
    forall x, tail :: put(x, tail) == PutFields(entry(x), tail)
  }

  ghost predicate EntriesFit<X>(entry: X -> seq<Field>, xs: seq<X>) {
    |xs| < U16_LIMIT && forall i :: 0 <= i < |xs| ==> AllFieldsFit(entry(xs[i]))
  }

  lemma {:induction false} PutEachIs<X(!new)>(put: (X, Bytes) -> Bytes, entry: X -> seq<Field>, xs: seq<X>, tail: Bytes)
    requires PutsFields(put, entry) && forall i :: 0 <= i < |xs| ==> AllFieldsFit(entry(xs[i]))
    ensures PutAll(put, xs, tail) == RenderEach(entry, xs) + tail
    decreases |xs|
  {
    if xs != [] {
      var rest, one := RenderEach(entry, xs[1..]), entry(xs[0]);
      PutEachIs(put, entry, xs[1..], tail);
      assert put(xs[0], rest + tail) == PutFields(one, rest + tail);
      PutFieldsAre(one, rest + tail);
      assert RenderAll(one) + (rest + tail) == RenderAll(one) + rest + tail;
    }
  }

  lemma {:induction false} PutListIs<X(!new)>(put: (X, Bytes) -> Bytes, entry: X -> seq<Field>, xs: seq<X>, tail: Bytes)
    requires PutsFields(put, entry) && EntriesFit(entry, xs)
    ensures PutList(put, xs, tail) == RenderList(entry, xs) + tail
  {
    assert Capped(xs) == xs;
    PutEachIs(put, entry, xs, tail);
    TwoIsBigEndian(|xs|);
    assert BigEndian(|xs|, 2) + (RenderEach(entry, xs) + tail) == RenderList(entry, xs) + tail;
  }

  lemma {:induction false} EntriesPut()
    ensures PutsFields(PutForward, ForwardFields) && PutsFields(PutServer, ServerFields)
    ensures PutsFields(PutStr, NameFields) && PutsFields(PutPeerSlot, SlotFields)
  {
    forall f, tail {
      PutForwardIs(f, tail);
    }
    forall s, tail {
      PutServerIs(s, tail);
    }
    forall name, tail {
      PutNameIs(name, tail);
    }
    forall p, tail {
      PutSlotIs(p, tail);
    }
  }

  lemma {:induction false} FittingEntries(s: Snapshot)
    requires FitsSnapshot(s)
    ensures EntriesFit(ForwardFields, s.forwards) && EntriesFit(ServerFields, s.servers)
    ensures EntriesFit(NameFields, s.pppoe) && EntriesFit(SlotFields, s.peers)
  {
    forall i | 0 <= i < |s.forwards|
      ensures AllFieldsFit(ForwardFields(s.forwards[i]))
    {
      assert FitsForward(s.forwards[i]);
    }
    forall i | 0 <= i < |s.servers|
      ensures AllFieldsFit(ServerFields(s.servers[i]))
    {
      assert FitsServer(s.servers[i]);
    }
    forall i | 0 <= i < |s.pppoe|
      ensures AllFieldsFit(NameFields(s.pppoe[i]))
    {
      assert FitsStr(s.pppoe[i]);
    }
    forall i | 0 <= i < |s.peers|
      ensures AllFieldsFit(SlotFields(s.peers[i]))
    {
      assert FitsPeerSlot(s.peers[i]);
    }
  }

  function LastBytes(s: Snapshot): Bytes {
    RenderAll([Text(s.session), LinkField(s.link)]) + RenderList(SlotFields, s.peers)
  }

  lemma {:induction false} LastIs(s: Snapshot)
    requires FitsSnapshot(s)
    ensures PutStr(s.session, PutU8(LinkByte(s.link), PutList(PutPeerSlot, s.peers, []))) == LastBytes(s)
  {
    EntriesPut();
    FittingEntries(s);
    var peers, mid := RenderList(SlotFields, s.peers), [Text(s.session), LinkField(s.link)];
    PutListIs(PutPeerSlot, SlotFields, s.peers, []);
    assert peers + [] == peers;
    PutTwo(mid[0], mid[1], peers);
    PutFieldsAre(mid, peers);
  }

  lemma {:induction false} ListsAre(s: Snapshot, tail: Bytes)
    requires FitsSnapshot(s)
    ensures PutList(PutForward, s.forwards, PutList(PutServer, s.servers, PutList(PutStr, s.pppoe, tail))) ==
            RenderList(ForwardFields, s.forwards)
            + (RenderList(ServerFields, s.servers) + (RenderList(NameFields, s.pppoe) + tail))
  {
    EntriesPut();
    FittingEntries(s);
    PutListIs(PutStr, NameFields, s.pppoe, tail);
    var t2 := RenderList(NameFields, s.pppoe) + tail;
    PutListIs(PutServer, ServerFields, s.servers, t2);
    PutListIs(PutForward, ForwardFields, s.forwards, RenderList(ServerFields, s.servers) + t2);
  }

  lemma {:induction false} Flatten(h: Bytes, f: Bytes, g: Bytes, n: Bytes, m: Bytes, p: Bytes)
    ensures h + (f + (g + (n + (m + p)))) == h + f + g + n + m + p
  {
  }

  lemma {:induction false} SnapshotIs(s: Snapshot)
    requires FitsSnapshot(s)
    ensures Encode(ClientSnapshot(s)) == SnapshotBytes(s)
  {
    LastIs(s);
    ListsAre(s, LastBytes(s));
    SnapshotHeadIs(
      s, PutList(PutForward, s.forwards, PutSnapshotRest(s.servers, s.pppoe, s.session, s.link, s.peers, [])));
    Flatten(RenderAll([Byte(2), Byte(s.version), Text(s.active), ModeField(s.mode), PhaseField(s.phase)]),
            RenderList(ForwardFields, s.forwards), RenderList(ServerFields, s.servers), RenderList(NameFields, s.pppoe),
            RenderAll([Text(s.session), LinkField(s.link)]), RenderList(SlotFields, s.peers));
  }

  lemma {:induction false} SnapshotHeadIs(s: Snapshot, tail: Bytes)
    requires FitsStr(s.active)
    ensures PutU8(2, PutU8(s.version, PutStr(s.active, PutU8(ModeByte(s.mode), PutU8(PhaseByte(s.phase), tail))))) ==
            RenderAll([Byte(2), Byte(s.version), Text(s.active), ModeField(s.mode), PhaseField(s.phase)]) + tail
  {
    var head := [Byte(2), Byte(s.version), Text(s.active), ModeField(s.mode), PhaseField(s.phase)];
    PutFive(head[0], head[1], head[2], head[3], head[4], tail);
    PutFieldsAre(head, tail);
  }
}
