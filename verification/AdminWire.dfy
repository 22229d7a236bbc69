/** The client admin socket's messages and their wire form (`src/clientproto.rs`, with the
    cursor and put helpers of `src/proto.rs`). Strings are their UTF-8 bytes. */
module AdminWire {
  import opened Base
  import Utf8

  // ---------------------------------------------------------------- the cursor

  datatype Fault = Message(what: string) | BadByte(what: string, n: byte) | Malformed(len: nat)

  /** What is left of the body, and the first failure. After a failure nothing advances. */
  datatype Rd = Rd(rest: Bytes, err: Option<Fault>)

  function Fail(r: Rd, e: Fault): Rd {
    if r.err.None? then r.(err := Some(e)) else r
  }

  function Need(r: Rd, n: nat, what: string): Rd {
    if r.err.None? && n > |r.rest| then r.(err := Some(Message(what))) else r
  }

  function Done(r: Rd, what: string): Rd {
    if r.err.None? && r.rest != [] then r.(err := Some(Message(what))) else r
  }

  /** The next `n` bytes, or none after a failure or when they are not all there. */
  function Take(r: Rd, n: nat): (Bytes, Rd) {
    if r.err.Some? || n > |r.rest| then ([], r) else (r.rest[..n], r.(rest := r.rest[n..]))
  }

  /** The low 16 bits of `v`, big-endian. */
  function Two(v: nat): (b: Bytes)
    ensures |b| == 2
  {
    [v / 256 % 256, v % 256]
  }

  function FromTwo(b: Bytes): (v: nat)
    requires |b| == 2
    ensures v < U16_LIMIT && Two(v) == b
  {
    var hi: nat := b[0];
    256 * hi + b[1]
  }

  function U8(r: Rd): (byte, Rd) {
    var (b, r') := Take(r, 1);
    (if b == [] then 0 else b[0], r')
  }

  function U16(r: Rd): (nat, Rd) {
    var (b, r') := Take(r, 2);
    (if |b| == 2 then FromTwo(b) else 0, r')
  }

  function U32(r: Rd): (nat, Rd) {
    var (b, r') := Take(r, 4);
    (if |b| == 4 then U16_LIMIT * FromTwo(b[..2]) + FromTwo(b[2..]) else 0, r')
  }

  function Count(r: Rd, what: string): (nat, Rd) {
    U16(Need(r, 2, what))
  }

  function Flag(r: Rd, what: string): (bool, Rd) {
    var (n, r') := U8(r);
    if n == 0 then (false, r') else if n == 1 then (true, r') else (false, Fail(r', BadByte(what, n)))
  }

  function Index(r: Rd, limit: nat, what: string): (i: (nat, Rd))
    ensures limit > 0 ==> i.0 < limit
  {
    var (n, r') := U8(r);
    if n >= limit then (0, Fail(r', BadByte(what, n))) else (n, r')
  }

  function Str(r: Rd): (Bytes, Rd) {
    var (len, r1) := U16(Need(r, 2, "truncated string length"));
    var (s, r2) := Take(Need(r1, len, "truncated string body"), len);
    if Utf8.Valid(s) then (s, r2) else ([], Fail(r2, Message("invalid utf-8 in string")))
  }

  // ---------------------------------------------------------------- the puts, before a tail

  function PutU8(v: byte, tail: Bytes): Bytes {
    [v] + tail
  }

  function PutU16(v: nat, tail: Bytes): Bytes {
    Two(v) + tail
  }

  function PutU32(v: nat, tail: Bytes): Bytes {
    Two(v / U16_LIMIT) + (Two(v % U16_LIMIT) + tail)
  }

  function PutBool(v: bool, tail: Bytes): Bytes {
    PutU8(if v then 1 else 0, tail)
  }

  /** The length goes out as its low 16 bits, the bytes in full. */
  function PutStr(s: Bytes, tail: Bytes): Bytes {
    PutU16(|s|, s + tail)
  }

  const MAX_COUNT: nat := 0xFFFF

  /** A list count, capped so it and the entries that follow agree. */
  function Capped<T>(xs: seq<T>): seq<T> {
    if |xs| > MAX_COUNT then xs[..MAX_COUNT] else xs
  }

  function PutAll<T>(put: (T, Bytes) -> Bytes, xs: seq<T>, tail: Bytes): Bytes {
    if xs == [] then tail else put(xs[0], PutAll(put, xs[1..], tail))
  }

  function PutList<T>(put: (T, Bytes) -> Bytes, xs: seq<T>, tail: Bytes): Bytes {
    PutU16(|Capped(xs)|, PutAll(put, Capped(xs), tail))
  }

  /** Entries until the count runs out or one fails. */
  function ReadAll<T>(one: Rd -> (T, Rd), r: Rd, count: nat): (seq<T>, Rd)
    decreases count
  {
    if count == 0 || r.err.Some? then ([], r)
    else
      var (x, r1) := one(r);
      var (xs, r2) := ReadAll(one, r1, count - 1);
      ([x] + xs, r2)
  }

  // ---------------------------------------------------------------- bytes read back as they were put

  predicate FitsStr(s: Bytes) {
    |s| < U16_LIMIT && Utf8.Valid(s)
  }

  lemma {:induction false} U8Back(r: Rd)
    requires r.err.None? && 1 <= |r.rest|
    ensures r.rest == PutU8(U8(r).0, U8(r).1.rest) && U8(r).1.err.None?
  {
  }

  lemma {:induction false} U16Forth(v: nat, tail: Bytes)
    requires v < U16_LIMIT
    ensures U16(Rd(PutU16(v, tail), None)) == (v, Rd(tail, None))
  {
  }

  lemma {:induction false} U32Back(r: Rd)
    requires r.err.None? && 4 <= |r.rest|
    ensures r.rest == PutU32(U32(r).0, U32(r).1.rest) && U32(r).1.err.None? && U32(r).0 < U32_LIMIT
  {
    var b := Take(r, 4).0;
    var hi, lo := FromTwo(b[..2]), FromTwo(b[2..]);
    assert (U16_LIMIT * hi + lo) / U16_LIMIT == hi && (U16_LIMIT * hi + lo) % U16_LIMIT == lo;
    assert b == Two(hi) + Two(lo);
  }

  lemma {:induction false} U32Forth(v: nat, tail: Bytes)
    requires v < U32_LIMIT
    ensures U32(Rd(PutU32(v, tail), None)) == (v, Rd(tail, None))
  {
    var hi, lo := v / U16_LIMIT, v % U16_LIMIT;
    var b := Two(hi) + Two(lo);
    assert PutU32(v, tail) == b + tail;
    assert b[..2] == Two(hi) && b[2..] == Two(lo);
  }

  lemma {:induction false} StrBack(r: Rd)
    requires Str(r).1.err.None?
    ensures r.err.None? && r.rest == PutStr(Str(r).0, Str(r).1.rest) && FitsStr(Str(r).0)
  {
    var r0 := Need(r, 2, "truncated string length");
    var (len, r1) := U16(r0);
  }

  lemma {:induction false} StrForth(s: Bytes, tail: Bytes)
    requires FitsStr(s)
    ensures Str(Rd(PutStr(s, tail), None)) == (s, Rd(tail, None))
  {
    U16Forth(|s|, s + tail);
  }

  /** A reader and a put that undo each other on the values that fit. */
  ghost predicate Inverse<T(!new)>(one: Rd -> (T, Rd), put: (T, Bytes) -> Bytes, fits: T -> bool) {
    && (forall r :: one(r).1.err.None? ==> r.err.None? && fits(one(r).0) && r.rest == put(one(r).0, one(r).1.rest))
    && (forall v, tail :: fits(v) ==> one(Rd(put(v, tail), None)) == (v, Rd(tail, None)))
  }

  ghost predicate AllFit<T(!new)>(fits: T -> bool, xs: seq<T>) {
    forall i :: 0 <= i < |xs| ==> fits(xs[i])
  }

  lemma {:induction false} AllBack<T(!new)>(one: Rd -> (T, Rd), put: (T, Bytes) -> Bytes, fits: T -> bool, r: Rd,
                                            count: nat)
    requires Inverse(one, put, fits) && ReadAll(one, r, count).1.err.None?
    ensures var (xs, r') := ReadAll(one, r, count);
            r.err.None? && |xs| == count && AllFit(fits, xs) && r.rest == PutAll(put, xs, r'.rest)
    decreases count
  {
    if count > 0 && r.err.None? {
      var (x, r1) := one(r);
      AllBack(one, put, fits, r1, count - 1);
      var xs := ReadAll(one, r1, count - 1).0;
      assert ([x] + xs)[1..] == xs;
    }
  }

  lemma {:induction false} AllForth<T(!new)>(one: Rd -> (T, Rd), put: (T, Bytes) -> Bytes, fits: T -> bool, xs: seq<T>,
                                             tail: Bytes)
    requires Inverse(one, put, fits) && AllFit(fits, xs)
    ensures ReadAll(one, Rd(PutAll(put, xs, tail), None), |xs|) == (xs, Rd(tail, None))
    decreases |xs|
  {
    if xs != [] {
      AllForth(one, put, fits, xs[1..], tail);
      assert fits(xs[0]);
      assert xs == [xs[0]] + xs[1..];
    }
  }

  // ---------------------------------------------------------------- small fields

  datatype SessionMode = Idle | Forwards | Device | Pppoe | Offline

  datatype PppPhase = NoPhase | Discovery | Negotiating | Established | LinkDown | Dead

  datatype LinkStatus = LinkOffline | Dialing | Connected | Backoff

  datatype PathStatus = Direct | Relay

  const MODES: seq<SessionMode> := [Idle, Forwards, Device, Pppoe, Offline]
  const PHASES: seq<PppPhase> := [NoPhase, Discovery, Negotiating, Established, LinkDown, Dead]
  const LINKS: seq<LinkStatus> := [LinkOffline, Dialing, Connected, Backoff]
  const TRANSPORTS: seq<Transport> := [DialAuto, DialUdp, DialTcp]
  const SETTLED_PATHS: seq<Option<PathStatus>> := [None, Some(Direct), Some(Relay)]

  function ProtoByte(p: Proto): byte {
    match p case Tcp => 1 case Udp => 2
  }

  function ModeByte(m: SessionMode): (n: byte)
    ensures n < |MODES| && MODES[n] == m
  {
    match m case Idle => 0 case Forwards => 1 case Device => 2 case Pppoe => 3 case Offline => 4
  }

  function PhaseByte(p: PppPhase): (n: byte)
    ensures n < |PHASES| && PHASES[n] == p
  {
    match p
    case NoPhase => 0
    case Discovery => 1
    case Negotiating => 2
    case Established => 3
    case LinkDown => 4
    case Dead => 5
  }

  function LinkByte(l: LinkStatus): (n: byte)
    ensures n < |LINKS| && LINKS[n] == l
  {
    match l case LinkOffline => 0 case Dialing => 1 case Connected => 2 case Backoff => 3
  }

  function TransportByte(t: Transport): (n: byte)
    ensures n < |TRANSPORTS| && TRANSPORTS[n] == t
  {
    match t case DialAuto => 0 case DialUdp => 1 case DialTcp => 2
  }

  function PathByte(p: Option<PathStatus>): (n: byte)
    ensures n < |SETTLED_PATHS| && SETTLED_PATHS[n] == p
  {
    match p case None => 0 case Some(Direct) => 1 case Some(Relay) => 2
  }

  function ReadProto(r: Rd): (Proto, Rd) {
    var (n, r') := U8(r);
    var r'' := if n != 1 && n != 2 then Fail(r', BadByte("unknown proto", n)) else r';
    (if n == 1 then Tcp else Udp, r'')
  }

  /** A slot's capability: exactly one defined bit. */
  function Want(r: Rd): (byte, Rd) {
    var (n, r') := U8(r);
    (n, if n != PROVIDES_EXIT && n != PROVIDES_SEGMENT then Fail(r', BadByte("unknown peer capability", n)) else r')
  }

  predicate FitsWant(want: byte) {
    want == PROVIDES_EXIT || want == PROVIDES_SEGMENT
  }

  lemma {:induction false} FlagBack(r: Rd, what: string)
    requires r.err.None? && 1 <= |r.rest| && Flag(r, what).1.err.None?
    ensures r.rest == PutBool(Flag(r, what).0, Flag(r, what).1.rest)
  {
    U8Back(r);
  }

  lemma {:induction false} WantBack(r: Rd)
    requires Want(r).1.err.None?
    ensures r.err.None? && r.rest == PutU8(Want(r).0, Want(r).1.rest) && FitsWant(Want(r).0)
  {
    U8Back(r);
  }

  // ---------------------------------------------------------------- list entries

  datatype Forward = Forward(proto: Proto, port: nat, target: Bytes, proxy: bool, idleSecs: nat, enabled: bool)

  datatype Server = Server(name: Bytes, addr: Bytes, transport: Transport)

  datatype PeerSlot = PeerSlot(peerId: Bytes, want: byte, iface: Bytes, link: LinkStatus, path: Option<PathStatus>)

  function ForwardOptions(r: Rd): ((bool, nat, bool), Rd) {
    var (proxy, r1) := Flag(r, "unknown forward proxy");
    var (idle, r2) := U32(r1);
    var (enabled, r3) := Flag(r2, "unknown forward enabled");
    ((proxy, idle, enabled), r3)
  }

  function ProtoPort(r: Rd): ((Proto, nat), Rd) {
    var (proto, r1) := ReadProto(r);
    var (port, r2) := U16(r1);
    ((proto, port), r2)
  }

  function PutProtoPort(proto: Proto, port: nat, tail: Bytes): Bytes {
    PutU8(ProtoByte(proto), PutU16(port, tail))
  }

  function ReadForwardAs(r: Rd, head: string, options: string): (Forward, Rd) {
    var ((proto, port), r2) := ProtoPort(Need(r, 3, head));
    var (target, r3) := Str(r2);
    var (o, r4) := ForwardOptions(Need(r3, 6, options));
    (Forward(proto, port, target, o.0, o.1, o.2), r4)
  }

  function ReadForward(r: Rd): (Forward, Rd) {
    ReadForwardAs(r, "truncated forward entry", "truncated forward entry options")
  }

  function PutForward(f: Forward, tail: Bytes): Bytes {
    PutProtoPort(f.proto, f.port, PutStr(f.target, PutBool(f.proxy, PutU32(f.idleSecs, PutBool(f.enabled, tail)))))
  }

  predicate FitsForward(f: Forward) {
    f.port < U16_LIMIT && FitsStr(f.target) && f.idleSecs < U32_LIMIT
  }

  lemma {:induction false} OptionsBack(r: Rd, what: string)
    requires ForwardOptions(Need(r, 6, what)).1.err.None?
    ensures var ((proxy, idle, enabled), r') := ForwardOptions(Need(r, 6, what));
            r.err.None? && idle < U32_LIMIT && r.rest == PutBool(proxy, PutU32(idle, PutBool(enabled, r'.rest)))
  {
    var r1 := Flag(r, "unknown forward proxy").1;
    assert r.err.None? && 6 <= |r.rest|;
    FlagBack(r, "unknown forward proxy");
    U32Back(r1);
    FlagBack(U32(r1).1, "unknown forward enabled");
  }

  lemma {:induction false} OptionsForth(proxy: bool, idle: nat, enabled: bool, tail: Bytes)
    requires idle < U32_LIMIT
    ensures var b := PutBool(proxy, PutU32(idle, PutBool(enabled, tail)));
            6 <= |b| && ForwardOptions(Rd(b, None)) == ((proxy, idle, enabled), Rd(tail, None))
  {
    U32Forth(idle, PutBool(enabled, tail));
  }

  lemma {:induction false} ProtoPortBack(r: Rd)
    requires ProtoPort(r).1.err.None? && 3 <= |r.rest|
    ensures var ((proto, port), r') := ProtoPort(r);
            r.err.None? && port < U16_LIMIT && r.rest == PutProtoPort(proto, port, r'.rest)
  {
    var r1 := ReadProto(r).1;
    assert r1.err.None?;
  }

  lemma {:induction false} ProtoPortForth(proto: Proto, port: nat, tail: Bytes)
    requires port < U16_LIMIT
    ensures var b := PutProtoPort(proto, port, tail);
            3 <= |b| && ProtoPort(Rd(b, None)) == ((proto, port), Rd(tail, None))
  {
    U16Forth(port, tail);
  }

  lemma {:induction false} ForwardBack(r: Rd, head: string, options: string)
    requires ReadForwardAs(r, head, options).1.err.None?
    ensures var (f, r') := ReadForwardAs(r, head, options);
            r.err.None? && FitsForward(f) && r.rest == PutForward(f, r'.rest)
  {
    var r0 := Need(r, 3, head);
    var r2 := ProtoPort(r0).1;
    OptionsBack(Str(r2).1, options);
    StrBack(r2);
    ProtoPortBack(r0);
  }

  lemma {:induction false} ForwardForth(f: Forward, tail: Bytes, head: string, options: string)
    requires FitsForward(f)
    ensures ReadForwardAs(Rd(PutForward(f, tail), None), head, options) == (f, Rd(tail, None))
  {
    var t3 := PutBool(f.proxy, PutU32(f.idleSecs, PutBool(f.enabled, tail)));
    ProtoPortForth(f.proto, f.port, PutStr(f.target, t3));
    StrForth(f.target, t3);
    OptionsForth(f.proxy, f.idleSecs, f.enabled, tail);
  }

  function ReadTransport(r: Rd): (Transport, Rd) {
    var (t, r1) := Index(r, 3, "unknown transport");
    (TRANSPORTS[t], r1)
  }

  lemma {:induction false} TransportBack(r: Rd)
    requires ReadTransport(r).1.err.None? && 1 <= |r.rest|
    ensures r.err.None? && r.rest == PutU8(TransportByte(ReadTransport(r).0), ReadTransport(r).1.rest)
  {
  }

  function ReadServer(r: Rd): (Server, Rd) {
    var (name, r1) := Str(r);
    var (addr, r2) := Str(r1);
    var (transport, r3) := ReadTransport(Need(r2, 1, "truncated server entry"));
    (Server(name, addr, transport), r3)
  }

  function PutServer(s: Server, tail: Bytes): Bytes {
    PutStr(s.name, PutStr(s.addr, PutU8(TransportByte(s.transport), tail)))
  }

  predicate FitsServer(s: Server) {
    FitsStr(s.name) && FitsStr(s.addr)
  }

  lemma {:induction false} ServerBack(r: Rd)
    requires ReadServer(r).1.err.None?
    ensures var (s, r') := ReadServer(r); r.err.None? && FitsServer(s) && r.rest == PutServer(s, r'.rest)
  {
    var r2 := Str(Str(r).1).1;
    TransportBack(Need(r2, 1, "truncated server entry"));
    StrBack(Str(r).1);
    StrBack(r);
  }

  lemma {:induction false} ServerForth(s: Server, tail: Bytes)
    requires FitsServer(s)
    ensures ReadServer(Rd(PutServer(s, tail), None)) == (s, Rd(tail, None))
  {
    var t := PutU8(TransportByte(s.transport), tail);
    StrForth(s.name, PutStr(s.addr, t));
    StrForth(s.addr, t);
  }

  function SlotStatus(r: Rd): ((LinkStatus, Option<PathStatus>), Rd) {
    var (link, r1) := Index(r, 4, "unknown link status");
    var (path, r2) := Index(r1, 3, "unknown settled path");
    ((LINKS[link], SETTLED_PATHS[path]), r2)
  }

  lemma {:induction false} SlotStatusBack(r: Rd)
    requires SlotStatus(r).1.err.None? && 2 <= |r.rest|
    ensures var ((link, path), r') := SlotStatus(r);
            r.err.None? && r.rest == PutU8(LinkByte(link), PutU8(PathByte(path), r'.rest))
  {
    var r1 := Index(r, 4, "unknown link status").1;
    assert r1.err.None? && r.err.None?;
  }

  function ReadPeerSlot(r: Rd): (PeerSlot, Rd) {
    var (peerId, r1) := Str(r);
    var (want, r2) := Want(Need(r1, 1, "truncated peer slot capability"));
    var (iface, r3) := Str(r2);
    var ((link, path), r4) := SlotStatus(Need(r3, 2, "truncated peer slot status"));
    (PeerSlot(peerId, want, iface, link, path), r4)
  }

  function PutPeerSlot(p: PeerSlot, tail: Bytes): Bytes {
    PutStr(p.peerId, PutU8(p.want, PutStr(p.iface, PutU8(LinkByte(p.link), PutU8(PathByte(p.path), tail)))))
  }

  predicate FitsPeerSlot(p: PeerSlot) {
    FitsStr(p.peerId) && FitsWant(p.want) && FitsStr(p.iface)
  }

  lemma {:induction false} PeerSlotBack(r: Rd)
    requires ReadPeerSlot(r).1.err.None?
    ensures var (p, r') := ReadPeerSlot(r); r.err.None? && FitsPeerSlot(p) && r.rest == PutPeerSlot(p, r'.rest)
  {
    var r1 := Need(Str(r).1, 1, "truncated peer slot capability");
    var r2 := Want(r1).1;
    SlotStatusBack(Need(Str(r2).1, 2, "truncated peer slot status"));
    StrBack(r2);
    WantBack(r1);
    StrBack(r);
  }

  lemma {:induction false} PeerSlotForth(p: PeerSlot, tail: Bytes)
    requires FitsPeerSlot(p)
    ensures ReadPeerSlot(Rd(PutPeerSlot(p, tail), None)) == (p, Rd(tail, None))
  {
    var t := PutU8(LinkByte(p.link), PutU8(PathByte(p.path), tail));
    StrForth(p.peerId, PutU8(p.want, PutStr(p.iface, t)));
    StrForth(p.iface, t);
  }

  lemma {:induction false} EntriesInvert()
    ensures Inverse(ReadForward, PutForward, FitsForward)
    ensures Inverse(ReadServer, PutServer, FitsServer)
    ensures Inverse(ReadPeerSlot, PutPeerSlot, FitsPeerSlot)
    ensures Inverse(Str, PutStr, FitsStr)
  {
    forall r | ReadForward(r).1.err.None? {
      ForwardBack(r, "truncated forward entry", "truncated forward entry options");
    }
    forall f, tail | FitsForward(f) {
      ForwardForth(f, tail, "truncated forward entry", "truncated forward entry options");
    }
    forall r | ReadServer(r).1.err.None? {
      ServerBack(r);
    }
    forall s, tail | FitsServer(s) {
      ServerForth(s, tail);
    }
    forall r | ReadPeerSlot(r).1.err.None? {
      PeerSlotBack(r);
    }
    forall p, tail | FitsPeerSlot(p) {
      PeerSlotForth(p, tail);
    }
    forall r | Str(r).1.err.None? {
      StrBack(r);
    }
    forall s, tail | FitsStr(s) {
      StrForth(s, tail);
    }
  }

  // ---------------------------------------------------------------- messages

  datatype Snapshot = Snapshot(version: byte, active: Bytes, mode: SessionMode, phase: PppPhase,
                               forwards: seq<Forward>, servers: seq<Server>, pppoe: seq<Bytes>,
                               session: Bytes, link: LinkStatus, peers: seq<PeerSlot>)

  datatype Msg =
    | ClientAdminHello(version: byte, helloMode: byte)
    | ClientSnapshot(snap: Snapshot)
    | MutationResult(ok: bool, msg: Bytes)
    | SelectServer(name: Bytes)
    | SetForwardOptions(proto: Proto, port: nat, enabled: bool, proxy: bool, idleSecs: nat)
    | SpawnPppoe(name: Bytes)
    | StopSession(name: Bytes)
    | AddServer(name: Bytes, addr: Bytes, secret: Bytes, transport: Transport)
    | RemoveServer(name: Bytes)
    | Connect(name: Bytes)
    | Disconnect
    | AddForward(forward: Forward)
    | RemoveForward(proto: Proto, port: nat)
    | AttachPeer(peerId: Bytes, want: byte, dev: Bytes, exit: bool, exitStrict: bool, iface: Bytes)
    | DetachPeer(peerId: Bytes, want: byte)

  function Tag(m: Msg): byte {
    match m
    case ClientAdminHello(_, _) => 1
    case ClientSnapshot(_) => 2
    case MutationResult(_, _) => 3
    case SelectServer(_) => 4
    case SetForwardOptions(_, _, _, _, _) => 5
    case SpawnPppoe(_) => 6
    case StopSession(_) => 7
    case AddServer(_, _, _, _) => 8
    case RemoveServer(_) => 9
    case Connect(_) => 10
    case Disconnect => 11
    case AddForward(_) => 12
    case RemoveForward(_, _) => 13
    case AttachPeer(_, _, _, _, _, _) => 14
    case DetachPeer(_, _) => 15
  }

  function PutSnapshot(s: Snapshot, tail: Bytes): Bytes {
    PutU8(s.version, PutStr(s.active, PutU8(ModeByte(s.mode), PutU8(PhaseByte(s.phase),
      PutList(PutForward, s.forwards, PutSnapshotRest(s.servers, s.pppoe, s.session, s.link, s.peers, tail))))))
  }

  /** A message's fields, before a tail. */
  function Fields(m: Msg, tail: Bytes): Bytes {
    match m
    case ClientAdminHello(version, mode) => PutU8(version, PutU8(mode, tail))
    case ClientSnapshot(snap) => PutSnapshot(snap, tail)
    case MutationResult(ok, msg) => PutBool(ok, PutStr(msg, tail))
    case SetForwardOptions(proto, port, enabled, proxy, idle) =>
      PutProtoPort(proto, port, PutBool(enabled, PutBool(proxy, PutU32(idle, tail))))
    case AddServer(name, addr, secret, transport) =>
      PutStr(name, PutStr(addr, PutStr(secret, PutU8(TransportByte(transport), tail))))
    case Disconnect => tail
    case AddForward(f) => PutForward(f, tail)
    case RemoveForward(proto, port) => PutProtoPort(proto, port, tail)
    case AttachPeer(peerId, want, dev, exit, exitStrict, iface) =>
      PutStr(peerId, PutU8(want, PutStr(dev, PutBool(exit, PutBool(exitStrict, PutStr(iface, tail))))))
    case DetachPeer(peerId, want) => PutStr(peerId, PutU8(want, tail))
    case SelectServer(name) => PutStr(name, tail)
    case SpawnPppoe(name) => PutStr(name, tail)
    case StopSession(name) => PutStr(name, tail)
    case RemoveServer(name) => PutStr(name, tail)
    case Connect(name) => PutStr(name, tail)
  }

  function Put(m: Msg, tail: Bytes): Bytes {
    PutU8(Tag(m), Fields(m, tail))
  }

  function Encode(m: Msg): Bytes {
    Put(m, [])
  }

  function HeadStatus(r: Rd): ((SessionMode, PppPhase, nat), Rd) {
    var (mode, r1) := Index(r, 5, "unknown session mode");
    var (phase, r2) := Index(r1, 6, "unknown ppp phase");
    var (count, r3) := U16(r2);
    ((MODES[mode], PHASES[phase], count), r3)
  }

  /** The snapshot up to its lists. */
  function SnapshotHead(r: Rd): ((byte, Bytes, SessionMode, PppPhase, nat), Rd) {
    var (version, r1) := U8(Need(r, 1, "truncated client snapshot"));
    var (active, r2) := Str(r1);
    var ((mode, phase, count), r3) := HeadStatus(Need(r2, 4, "truncated client snapshot header"));
    ((version, active, mode, phase, count), r3)
  }

  function ReadList<T>(one: Rd -> (T, Rd), r: Rd, what: string): (seq<T>, Rd) {
    var (count, r1) := Count(r, what);
    ReadAll(one, r1, count)
  }

  function ReadLink(r: Rd): (LinkStatus, Rd) {
    var (link, r1) := Index(Need(r, 1, "truncated client snapshot link"), 4, "unknown link status");
    (LINKS[link], r1)
  }

  /** What follows the forwards: servers, sessions, the link and the peer slots. */
  function SnapshotRest(r: Rd): ((seq<Server>, seq<Bytes>, Bytes, LinkStatus, seq<PeerSlot>), Rd) {
    var (servers, r1) := ReadList(ReadServer, r, "truncated client snapshot server list");
    var (pppoe, r2) := ReadList(Str, r1, "truncated client snapshot pppoe list");
    var (session, r3) := Str(r2);
    var (link, r4) := ReadLink(r3);
    var (peers, r5) := ReadList(ReadPeerSlot, r4, "truncated client snapshot peer list");
    ((servers, pppoe, session, link, peers), r5)
  }

  function PutSnapshotRest(servers: seq<Server>, pppoe: seq<Bytes>, session: Bytes, link: LinkStatus,
                           peers: seq<PeerSlot>, tail: Bytes): Bytes {
    var status := PutStr(session, PutU8(LinkByte(link), PutList(PutPeerSlot, peers, tail)));
    PutList(PutServer, servers, PutList(PutStr, pppoe, status))
  }

  function ReadSnapshot(r: Rd): (Snapshot, Rd) {
    var (head, r1) := SnapshotHead(r);
    var (forwards, r2) := ReadAll(ReadForward, r1, head.4);
    var (rest, r3) := SnapshotRest(r2);
    (Snapshot(head.0, head.1, head.2, head.3, forwards, rest.0, rest.1, rest.2, rest.3, rest.4), r3)
  }

  function ReadHello(r: Rd): (Msg, Rd) {
    var (version, r1) := U8(r);
    var (mode, r2) := U8(r1);
    (ClientAdminHello(version, mode), r2)
  }

  function ReadResult(r: Rd): (Msg, Rd) {
    var (ok, r1) := Flag(Need(r, 1, "truncated mutation result"), "unknown mutation result ok");
    var (msg, r2) := Str(r1);
    (MutationResult(ok, msg), r2)
  }

  /** A message that is a tag and one string. */
  function Named(tag: byte, name: Bytes): Msg {
    match tag
    case 4 => SelectServer(name)
    case 6 => SpawnPppoe(name)
    case 7 => StopSession(name)
    case 9 => RemoveServer(name)
    case _ => Connect(name)
  }

  predicate IsNamed(tag: byte) {
    tag == 4 || tag == 6 || tag == 7 || tag == 9 || tag == 10
  }

  function ReadNamed(tag: byte, r: Rd): (Msg, Rd) {
    var (name, r1) := Str(r);
    (Named(tag, name), r1)
  }

  function ReadDetachPeer(r: Rd): (Msg, Rd) {
    var (peerId, r1) := Str(r);
    var (want, r2) := Want(Need(r1, 1, "truncated detach peer"));
    (DetachPeer(peerId, want), r2)
  }

  function ThreeStrs(r: Rd): ((Bytes, Bytes, Bytes), Rd) {
    var (a, r1) := Str(r);
    var (b, r2) := Str(r1);
    var (c, r3) := Str(r2);
    ((a, b, c), r3)
  }

  function ReadAddServer(r: Rd): (Msg, Rd) {
    var ((name, addr, secret), r1) := ThreeStrs(r);
    var (transport, r2) := ReadTransport(Need(r1, 1, "truncated add server"));
    (AddServer(name, addr, secret, transport), r2)
  }

  function PeerFlags(r: Rd): ((bool, bool), Rd) {
    var (exit, r1) := Flag(r, "unknown peer exit");
    var (exitStrict, r2) := Flag(r1, "unknown peer exit_strict");
    ((exit, exitStrict), r2)
  }

  function AttachHead(r: Rd): ((Bytes, byte, Bytes), Rd) {
    var (peerId, r1) := Str(r);
    var (want, r2) := Want(Need(r1, 1, "truncated attach peer"));
    var (dev, r3) := Str(r2);
    ((peerId, want, dev), r3)
  }

  function AttachTail(r: Rd): ((bool, bool, Bytes), Rd) {
    var ((exit, exitStrict), r1) := PeerFlags(Need(r, 2, "truncated attach peer options"));
    var (iface, r2) := Str(r1);
    ((exit, exitStrict, iface), r2)
  }

  function ReadAttachPeer(r: Rd): (Msg, Rd) {
    var ((peerId, want, dev), r1) := AttachHead(r);
    var ((exit, exitStrict, iface), r2) := AttachTail(r1);
    (AttachPeer(peerId, want, dev, exit, exitStrict, iface), r2)
  }

  function ReadSetForwardOptions(r: Rd): (Msg, Rd) {
    var ((proto, port), r1) := ProtoPort(r);
    var (enabled, r2) := Flag(r1, "unknown forward enabled");
    var (proxy, r3) := Flag(r2, "unknown forward proxy");
    var (idle, r4) := U32(r3);
    (SetForwardOptions(proto, port, enabled, proxy, idle), r4)
  }

  /** The whole length of a message that has no variable part. */
  function FixedLen(tag: byte): Option<nat> {
    match tag case 1 => Some(3) case 5 => Some(10) case 11 => Some(1) case 13 => Some(4) case _ => None
  }

  predicate Known(tag: byte) {
    1 <= tag <= 15
  }

  function ReadSnapshotMsg(r: Rd): (Msg, Rd) {
    var (snap, r1) := ReadSnapshot(r);
    (ClientSnapshot(snap), r1)
  }

  function ReadAddForward(r: Rd): (Msg, Rd) {
    var (f, r1) := ReadForwardAs(r, "truncated add forward", "truncated add forward options");
    (AddForward(f), r1)
  }

  function ReadRemoveForward(r: Rd): (Msg, Rd) {
    var ((proto, port), r1) := ProtoPort(r);
    (RemoveForward(proto, port), r1)
  }

  function ReadDisconnect(r: Rd): (Msg, Rd) {
    (Disconnect, r)
  }

  /** The reader of a message's fields, up to where its body must end. */
  function Body(tag: byte): Rd -> (Msg, Rd)
    requires Known(tag)
  {
    match tag
    case 1 => ReadHello
    case 2 => ReadSnapshotMsg
    case 3 => ReadResult
    case 5 => ReadSetForwardOptions
    case 8 => ReadAddServer
    case 11 => ReadDisconnect
    case 12 => ReadAddForward
    case 13 => ReadRemoveForward
    case 14 => ReadAttachPeer
    case 15 => ReadDetachPeer
    case _ => (r: Rd) => ReadNamed(tag, r)
  }

  function Trailing(tag: byte): string {
    match tag
    case 2 => "trailing bytes in client snapshot"
    case 3 => "trailing bytes in mutation result"
    case 4 => "trailing bytes in select server"
    case 6 => "trailing bytes in spawn pppoe"
    case 7 => "trailing bytes in stop session"
    case 8 => "trailing bytes in add server"
    case 9 => "trailing bytes in remove server"
    case 10 => "trailing bytes in connect"
    case 12 => "trailing bytes in add forward"
    case 14 => "trailing bytes in attach peer"
    case 15 => "trailing bytes in detach peer"
    case _ => ""
  }

  /** A message with a fixed length is told by it; any other must end where its fields do. */
  function Decode(b: Bytes): Result<Msg, Fault> {
    if b == [] || !Known(b[0]) || (FixedLen(b[0]).Some? && FixedLen(b[0]).value != |b|) then Err(Malformed(|b|))
    else
      var (m, r) := Body(b[0])(Rd(b[1..], None));
      var r' := if FixedLen(b[0]).Some? then r else Done(r, Trailing(b[0]));
      match r'.err
      case None => Ok(m)
      case Some(e) => Err(e)
  }

  // ---------------------------------------------------------------- what fits

  ghost predicate FitsList<T(!new)>(fits: T -> bool, xs: seq<T>) {
    |xs| <= MAX_COUNT && AllFit(fits, xs)
  }

  ghost predicate FitsSnapshot(s: Snapshot) {
    && FitsStr(s.active) && FitsStr(s.session)
    && FitsList(FitsForward, s.forwards) && FitsList(FitsServer, s.servers)
    && FitsList(FitsStr, s.pppoe) && FitsList(FitsPeerSlot, s.peers)
  }

  /** Strings and lists within their 16-bit counts, numbers within their width, and a slot
      capability that is one defined bit. */
  ghost predicate Fits(m: Msg) {
    match m
    case ClientAdminHello(_, _) => true
    case ClientSnapshot(snap) => FitsSnapshot(snap)
    case MutationResult(_, msg) => FitsStr(msg)
    case SetForwardOptions(_, port, _, _, idle) => port < U16_LIMIT && idle < U32_LIMIT
    case AddServer(name, addr, secret, _) => FitsStr(name) && FitsStr(addr) && FitsStr(secret)
    case Disconnect => true
    case AddForward(f) => FitsForward(f)
    case RemoveForward(_, port) => port < U16_LIMIT
    case AttachPeer(peerId, want, dev, _, _, iface) =>
      FitsStr(peerId) && FitsWant(want) && FitsStr(dev) && FitsStr(iface)
    case DetachPeer(peerId, want) => FitsStr(peerId) && FitsWant(want)
    case SelectServer(name) => FitsStr(name)
    case SpawnPppoe(name) => FitsStr(name)
    case StopSession(name) => FitsStr(name)
    case RemoveServer(name) => FitsStr(name)
    case Connect(name) => FitsStr(name)
  }

  // ---------------------------------------------------------------- decode undoes encode

  lemma {:induction false} ListForth<T(!new)>(one: Rd -> (T, Rd), put: (T, Bytes) -> Bytes, fits: T -> bool,
                                              xs: seq<T>, tail: Bytes, what: string)
    requires Inverse(one, put, fits) && FitsList(fits, xs)
    ensures ReadList(one, Rd(PutList(put, xs, tail), None), what) == (xs, Rd(tail, None))
  {
    assert Capped(xs) == xs;
    U16Forth(|xs|, PutAll(put, xs, tail));
    AllForth(one, put, fits, xs, tail);
  }

  lemma {:induction false} HeadForth(s: Snapshot, count: nat, tail: Bytes)
    requires FitsStr(s.active) && count < U16_LIMIT
    ensures var phase := PutU8(PhaseByte(s.phase), PutU16(count, tail));
            SnapshotHead(Rd(PutU8(s.version, PutStr(s.active, PutU8(ModeByte(s.mode), phase))), None))
            == ((s.version, s.active, s.mode, s.phase, count), Rd(tail, None))
  {
    var t := PutU8(ModeByte(s.mode), PutU8(PhaseByte(s.phase), PutU16(count, tail)));
    StrForth(s.active, t);
    U16Forth(count, tail);
  }

  lemma {:induction false} SnapshotRestForth(servers: seq<Server>, pppoe: seq<Bytes>, session: Bytes, link: LinkStatus,
                                             peers: seq<PeerSlot>, tail: Bytes)
    requires FitsList(FitsServer, servers) && FitsList(FitsStr, pppoe) && FitsStr(session)
             && FitsList(FitsPeerSlot, peers)
    ensures SnapshotRest(Rd(PutSnapshotRest(servers, pppoe, session, link, peers, tail), None))
            == ((servers, pppoe, session, link, peers), Rd(tail, None))
  {
    EntriesInvert();
    var t3 := PutU8(LinkByte(link), PutList(PutPeerSlot, peers, tail));
    var t2 := PutStr(session, t3);
    ListForth(ReadServer, PutServer, FitsServer, servers, PutList(PutStr, pppoe, t2),
              "truncated client snapshot server list");
    ListForth(Str, PutStr, FitsStr, pppoe, t2, "truncated client snapshot pppoe list");
    StrForth(session, t3);
    ListForth(ReadPeerSlot, PutPeerSlot, FitsPeerSlot, peers, tail, "truncated client snapshot peer list");
  }

  lemma {:induction false} SnapshotForth(s: Snapshot, tail: Bytes)
    requires FitsSnapshot(s)
    ensures ReadSnapshot(Rd(PutSnapshot(s, tail), None)) == (s, Rd(tail, None))
  {
    EntriesInvert();
    var rest := PutSnapshotRest(s.servers, s.pppoe, s.session, s.link, s.peers, tail);
    assert Capped(s.forwards) == s.forwards;
    HeadForth(s, |s.forwards|, PutAll(PutForward, s.forwards, rest));
    AllForth(ReadForward, PutForward, FitsForward, s.forwards, rest);
    SnapshotRestForth(s.servers, s.pppoe, s.session, s.link, s.peers, tail);
  }

  lemma {:induction false} AttachForth(m: Msg, tail: Bytes)
    requires m.AttachPeer? && Fits(m)
    ensures ReadAttachPeer(Rd(Fields(m, tail), None)) == (m, Rd(tail, None))
  {
    var t3 := PutStr(m.iface, tail);
    var t2 := PutBool(m.exit, PutBool(m.exitStrict, t3));
    StrForth(m.peerId, PutU8(m.want, PutStr(m.dev, t2)));
    StrForth(m.dev, t2);
    StrForth(m.iface, tail);
  }

  lemma {:induction false} AddServerForth(m: Msg, tail: Bytes)
    requires m.AddServer? && Fits(m)
    ensures ReadAddServer(Rd(Fields(m, tail), None)) == (m, Rd(tail, None))
  {
    var t3 := PutU8(TransportByte(m.transport), tail);
    var t2 := PutStr(m.secret, t3);
    StrForth(m.name, PutStr(m.addr, t2));
    StrForth(m.addr, t2);
    StrForth(m.secret, t3);
  }

  lemma {:induction false} OptionsMsgForth(m: Msg, tail: Bytes)
    requires m.SetForwardOptions? && Fits(m)
    ensures ReadSetForwardOptions(Rd(Fields(m, tail), None)) == (m, Rd(tail, None))
  {
    ProtoPortForth(m.proto, m.port, PutBool(m.enabled, PutBool(m.proxy, PutU32(m.idleSecs, tail))));
    U32Forth(m.idleSecs, tail);
  }

  lemma {:induction false} NamedForth(tag: byte, name: Bytes, tail: Bytes)
    requires IsNamed(tag) && Fits(Named(tag, name))
    ensures Tag(Named(tag, name)) == tag && Fields(Named(tag, name), tail) == PutStr(name, tail)
    ensures ReadNamed(tag, Rd(Fields(Named(tag, name), tail), None)) == (Named(tag, name), Rd(tail, None))
  {
    StrForth(name, tail);
  }

  lemma {:induction false} ResultForth(m: Msg, tail: Bytes)
    requires m.MutationResult? && Fits(m)
    ensures ReadResult(Rd(Fields(m, tail), None)) == (m, Rd(tail, None))
  {
    StrForth(m.msg, tail);
  }

  lemma {:induction false} DetachForth(m: Msg, tail: Bytes)
    requires m.DetachPeer? && Fits(m)
    ensures ReadDetachPeer(Rd(Fields(m, tail), None)) == (m, Rd(tail, None))
  {
    StrForth(m.peerId, PutU8(m.want, tail));
  }

  lemma {:induction false} HelloForth(m: Msg, tail: Bytes)
    requires m.ClientAdminHello?
    ensures ReadHello(Rd(Fields(m, tail), None)) == (m, Rd(tail, None))
  {
  }

  lemma {:induction false} SnapshotBodyForth(m: Msg, tail: Bytes)
    requires Fits(m) && m.ClientSnapshot?
    ensures Body(Tag(m))(Rd(Fields(m, tail), None)) == (m, Rd(tail, None))
  {
    SnapshotForth(m.snap, tail);
  }

  lemma {:induction false} AttachBodyForth(m: Msg, tail: Bytes)
    requires Fits(m) && m.AttachPeer?
    ensures Body(Tag(m))(Rd(Fields(m, tail), None)) == (m, Rd(tail, None))
  {
    AttachForth(m, tail);
  }

  lemma {:induction false} AddServerBodyForth(m: Msg, tail: Bytes)
    requires Fits(m) && m.AddServer?
    ensures Body(Tag(m))(Rd(Fields(m, tail), None)) == (m, Rd(tail, None))
  {
    assert Body(8) == ReadAddServer;
    AddServerForth(m, tail);
  }

  lemma {:induction false} AddForwardBodyForth(m: Msg, tail: Bytes)
    requires Fits(m) && m.AddForward?
    ensures Body(Tag(m))(Rd(Fields(m, tail), None)) == (m, Rd(tail, None))
  {
    ForwardForth(m.forward, tail, "truncated add forward", "truncated add forward options");
  }

  lemma {:induction false} OptionsBodyForth(m: Msg, tail: Bytes)
    requires Fits(m) && m.SetForwardOptions?
    ensures Body(Tag(m))(Rd(Fields(m, tail), None)) == (m, Rd(tail, None))
  {
    OptionsMsgForth(m, tail);
  }

  lemma {:induction false} ShortBodyForth(m: Msg, tail: Bytes)
    requires Fits(m) && (m.ClientAdminHello? || m.MutationResult? || m.Disconnect? || m.DetachPeer? || m.RemoveForward?)
    ensures Body(Tag(m))(Rd(Fields(m, tail), None)) == (m, Rd(tail, None))
  {
    match m
    case ClientAdminHello(_, _) => HelloForth(m, tail);
    case MutationResult(_, _) => ResultForth(m, tail);
    case DetachPeer(_, _) => DetachForth(m, tail);
    case RemoveForward(proto, port) => ProtoPortForth(proto, port, tail);
    case Disconnect =>
  }

  lemma {:induction false} NamedBodyForth(m: Msg, tail: Bytes)
    requires Fits(m) && IsNamed(Tag(m))
    ensures Body(Tag(m))(Rd(Fields(m, tail), None)) == (m, Rd(tail, None))
  {
    NamedForth(Tag(m), m.name, tail);
  }

  lemma {:induction false} BodyForth(m: Msg, tail: Bytes)
    requires Fits(m)
    ensures Body(Tag(m))(Rd(Fields(m, tail), None)) == (m, Rd(tail, None))
  {
    match m
    case ClientSnapshot(_) => SnapshotBodyForth(m, tail);
    case AttachPeer(_, _, _, _, _, _) => AttachBodyForth(m, tail);
    case AddServer(_, _, _, _) => AddServerBodyForth(m, tail);
    case AddForward(_) => AddForwardBodyForth(m, tail);
    case SetForwardOptions(_, _, _, _, _) => OptionsBodyForth(m, tail);
    case _ =>
      if IsNamed(Tag(m)) {
        NamedBodyForth(m, tail);
      } else {
        ShortBodyForth(m, tail);
      }
  }

  lemma {:induction false} FixedForth(m: Msg, tail: Bytes)
    requires FixedLen(Tag(m)).Some?
    ensures |Put(m, tail)| == FixedLen(Tag(m)).value + |tail|
  {
  }

  /** A body read to its end is the message; one with bytes left over is refused. */
  lemma {:induction false} DecodeBody(tag: byte, rest: Bytes, m: Msg, tail: Bytes)
    requires Known(tag) && Body(tag)(Rd(rest, None)) == (m, Rd(tail, None))
    requires FixedLen(tag).Some? ==> FixedLen(tag).value + |tail| == |rest| + 1
    ensures tail == [] ==> Decode(PutU8(tag, rest)) == Ok(m)
    ensures tail != [] ==> Decode(PutU8(tag, rest)).Err?
  {
    assert PutU8(tag, rest)[1..] == rest;
  }

  lemma {:induction false} KnownTag(m: Msg)
    ensures Known(Tag(m))
  {
  }

  /** Main result: every message that fits is decoded from its own encoding, and from nothing
      longer. */
  lemma {:induction false} DecodeOfEncode(m: Msg, tail: Bytes)
    requires Fits(m)
    ensures Decode(Encode(m)) == Ok(m)
    ensures tail != [] ==> Decode(Put(m, tail)).Err?
  {
    KnownTag(m);
    BodyForth(m, []);
    BodyForth(m, tail);
    if FixedLen(Tag(m)).Some? {
      FixedForth(m, []);
      FixedForth(m, tail);
    }
    DecodeBody(Tag(m), Fields(m, []), m, []);
    DecodeBody(Tag(m), Fields(m, tail), m, tail);
  }

  // ---------------------------------------------------------------- encode undoes decode

  lemma {:induction false} ListBack<T(!new)>(one: Rd -> (T, Rd), put: (T, Bytes) -> Bytes, fits: T -> bool, r: Rd,
                                             what: string)
    requires Inverse(one, put, fits) && ReadList(one, r, what).1.err.None?
    ensures var (xs, r') := ReadList(one, r, what);
            r.err.None? && FitsList(fits, xs) && r.rest == PutList(put, xs, r'.rest)
  {
    var (count, r1) := Count(r, what);
    AllBack(one, put, fits, r1, count);
  }

  lemma {:induction false} HeadBack(r: Rd)
    requires SnapshotHead(r).1.err.None?
    ensures var ((version, active, mode, phase, count), r') := SnapshotHead(r);
            && r.err.None? && FitsStr(active) && count < U16_LIMIT
            && var tail := PutU8(PhaseByte(phase), PutU16(count, r'.rest));
               r.rest == PutU8(version, PutStr(active, PutU8(ModeByte(mode), tail)))
  {
    var r0 := Need(r, 1, "truncated client snapshot");
    var r1 := U8(r0).1;
    HeadStatusBack(Need(Str(r1).1, 4, "truncated client snapshot header"));
    StrBack(r1);
    U8Back(r0);
  }

  lemma {:induction false} HeadStatusBack(r: Rd)
    requires HeadStatus(r).1.err.None? && 4 <= |r.rest|
    ensures var ((mode, phase, count), r') := HeadStatus(r);
            && r.err.None? && count < U16_LIMIT
            && r.rest == PutU8(ModeByte(mode), PutU8(PhaseByte(phase), PutU16(count, r'.rest)))
  {
    var r1 := Index(r, 5, "unknown session mode").1;
    var r2 := Index(r1, 6, "unknown ppp phase").1;
    assert r2.err.None? && r1.err.None?;
  }

  lemma {:induction false} LinkBack(r: Rd)
    requires ReadLink(r).1.err.None?
    ensures r.err.None? && r.rest == PutU8(LinkByte(ReadLink(r).0), ReadLink(r).1.rest)
  {
  }

  lemma {:induction false} SnapshotRestBack(r: Rd)
    requires SnapshotRest(r).1.err.None?
    ensures var ((servers, pppoe, session, link, peers), r') := SnapshotRest(r);
            && r.err.None? && FitsList(FitsServer, servers) && FitsList(FitsStr, pppoe) && FitsStr(session)
            && FitsList(FitsPeerSlot, peers) && r.rest == PutSnapshotRest(servers, pppoe, session, link, peers, r'.rest)
  {
    EntriesInvert();
    var r1 := ReadList(ReadServer, r, "truncated client snapshot server list").1;
    var r2 := ReadList(Str, r1, "truncated client snapshot pppoe list").1;
    var r3 := Str(r2).1;
    ListBack(ReadPeerSlot, PutPeerSlot, FitsPeerSlot, ReadLink(r3).1, "truncated client snapshot peer list");
    LinkBack(r3);
    StrBack(r2);
    ListBack(Str, PutStr, FitsStr, r1, "truncated client snapshot pppoe list");
    ListBack(ReadServer, PutServer, FitsServer, r, "truncated client snapshot server list");
  }

  lemma {:induction false} SnapshotFrontBack(r: Rd)
    requires var (head, r1) := SnapshotHead(r); ReadAll(ReadForward, r1, head.4).1.err.None?
    ensures var ((version, active, mode, phase, count), r1) := SnapshotHead(r);
            var (forwards, r2) := ReadAll(ReadForward, r1, count);
            && r.err.None? && FitsStr(active) && FitsList(FitsForward, forwards)
            && var tail := PutU8(PhaseByte(phase), PutList(PutForward, forwards, r2.rest));
               r.rest == PutU8(version, PutStr(active, PutU8(ModeByte(mode), tail)))
  {
    EntriesInvert();
    var (head, r1) := SnapshotHead(r);
    var (forwards, r2) := ReadAll(ReadForward, r1, head.4);
    AllBack(ReadForward, PutForward, FitsForward, r1, head.4);
    HeadBack(r);
    assert Capped(forwards) == forwards;
  }

  lemma {:induction false} SnapshotBack(r: Rd)
    requires ReadSnapshot(r).1.err.None?
    ensures var (s, r') := ReadSnapshot(r); r.err.None? && FitsSnapshot(s) && r.rest == PutSnapshot(s, r'.rest)
  {
    var (head, r1) := SnapshotHead(r);
    SnapshotRestBack(ReadAll(ReadForward, r1, head.4).1);
    SnapshotFrontBack(r);
  }

  /** What a reader's success says of the message it read. */
  ghost predicate ReadFrom(r: Rd, m: Msg, r': Rd) {
    r.err.None? && Fits(m) && r.rest == Fields(m, r'.rest)
  }

  lemma {:induction false} AttachHeadBack(r: Rd)
    requires AttachHead(r).1.err.None?
    ensures var ((peerId, want, dev), r') := AttachHead(r);
            r.err.None? && FitsStr(peerId) && FitsWant(want) && FitsStr(dev)
            && r.rest == PutStr(peerId, PutU8(want, PutStr(dev, r'.rest)))
  {
    var r1 := Need(Str(r).1, 1, "truncated attach peer");
    StrBack(Want(r1).1);
    WantBack(r1);
    StrBack(r);
  }

  lemma {:induction false} AttachTailBack(r: Rd)
    requires AttachTail(r).1.err.None?
    ensures var ((exit, exitStrict, iface), r') := AttachTail(r);
            r.err.None? && FitsStr(iface) && r.rest == PutBool(exit, PutBool(exitStrict, PutStr(iface, r'.rest)))
  {
    var r0 := Need(r, 2, "truncated attach peer options");
    StrBack(PeerFlags(r0).1);
  }

  lemma {:induction false} AttachBack(r: Rd)
    requires ReadAttachPeer(r).1.err.None?
    ensures ReadFrom(r, ReadAttachPeer(r).0, ReadAttachPeer(r).1)
  {
    AttachTailBack(AttachHead(r).1);
    AttachHeadBack(r);
  }

  lemma {:induction false} ThreeStrsBack(r: Rd)
    requires ThreeStrs(r).1.err.None?
    ensures var ((a, b, c), r') := ThreeStrs(r);
            r.err.None? && FitsStr(a) && FitsStr(b) && FitsStr(c) && r.rest == PutStr(a, PutStr(b, PutStr(c, r'.rest)))
  {
    var r1 := Str(r).1;
    StrBack(Str(r1).1);
    StrBack(r1);
    StrBack(r);
  }

  lemma {:induction false} AddServerBack(r: Rd)
    requires ReadAddServer(r).1.err.None?
    ensures ReadFrom(r, ReadAddServer(r).0, ReadAddServer(r).1)
  {
    var ((name, addr, secret), r1) := ThreeStrs(r);
    var r2 := Need(r1, 1, "truncated add server");
    var (transport, r3) := ReadTransport(r2);
    TransportBack(r2);
    assert r1.rest == PutU8(TransportByte(transport), r3.rest) && r1.err.None?;
    ThreeStrsBack(r);
    assert ReadAddServer(r) == (AddServer(name, addr, secret, transport), r3);
  }

  lemma {:induction false} OptionsMsgBack(r: Rd)
    requires ReadSetForwardOptions(r).1.err.None? && |r.rest| == 9
    ensures ReadFrom(r, ReadSetForwardOptions(r).0, ReadSetForwardOptions(r).1) && ReadSetForwardOptions(r).1.rest == []
  {
    var r1 := ProtoPort(r).1;
    var r2 := Flag(r1, "unknown forward enabled").1;
    var r3 := Flag(r2, "unknown forward proxy").1;
    assert r3.err.None? && r2.err.None? && r1.err.None?;
    ProtoPortBack(r);
    FlagBack(r1, "unknown forward enabled");
    FlagBack(r2, "unknown forward proxy");
    U32Back(r3);
  }

  lemma {:induction false} ResultBack(r: Rd)
    requires ReadResult(r).1.err.None?
    ensures ReadFrom(r, ReadResult(r).0, ReadResult(r).1)
  {
    var r0 := Need(r, 1, "truncated mutation result");
    var r1 := Flag(r0, "unknown mutation result ok").1;
    StrBack(r1);
    FlagBack(r0, "unknown mutation result ok");
  }

  lemma {:induction false} DetachBack(r: Rd)
    requires ReadDetachPeer(r).1.err.None?
    ensures ReadFrom(r, ReadDetachPeer(r).0, ReadDetachPeer(r).1)
  {
    WantBack(Need(Str(r).1, 1, "truncated detach peer"));
    StrBack(r);
  }

  lemma {:induction false} NamedBack(tag: byte, r: Rd)
    requires IsNamed(tag) && ReadNamed(tag, r).1.err.None?
    ensures ReadFrom(r, ReadNamed(tag, r).0, ReadNamed(tag, r).1) && Tag(ReadNamed(tag, r).0) == tag
  {
    StrBack(r);
  }

  lemma {:induction false} AddForwardBack(r: Rd)
    requires ReadAddForward(r).1.err.None?
    ensures ReadFrom(r, ReadAddForward(r).0, ReadAddForward(r).1)
  {
    ForwardBack(r, "truncated add forward", "truncated add forward options");
  }

  lemma {:induction false} HelloBack(r: Rd)
    requires r.err.None? && |r.rest| == 2
    ensures ReadFrom(r, ReadHello(r).0, ReadHello(r).1) && ReadHello(r).1 == Rd([], None)
  {
    U8Back(r);
    U8Back(U8(r).1);
  }

  lemma {:induction false} RemoveForwardBack(r: Rd)
    requires ReadRemoveForward(r).1.err.None? && |r.rest| == 3
    ensures ReadFrom(r, ReadRemoveForward(r).0, ReadRemoveForward(r).1) && ReadRemoveForward(r).1.rest == []
  {
    ProtoPortBack(r);
  }

  lemma {:induction false} FixedBodyBack(tag: byte, b: Bytes)
    requires FixedLen(tag) == Some(|b| + 1) && Body(tag)(Rd(b, None)).1.err.None?
    ensures var (m, r') := Body(tag)(Rd(b, None));
            ReadFrom(Rd(b, None), m, r') && Tag(m) == tag && r'.rest == []
  {
    var r := Rd(b, None);
    match tag
    case 1 => HelloBack(r);
    case 5 => OptionsMsgBack(r);
    case 13 => RemoveForwardBack(r);
    case 11 =>
  }

  lemma {:induction false} SnapshotMsgBack(r: Rd)
    requires ReadSnapshotMsg(r).1.err.None?
    ensures ReadFrom(r, ReadSnapshotMsg(r).0, ReadSnapshotMsg(r).1)
  {
    SnapshotBack(r);
  }

  lemma {:induction false} SnapshotBodyBack(r: Rd)
    requires Body(2)(r).1.err.None?
    ensures var (m, r') := Body(2)(r); ReadFrom(r, m, r') && Tag(m) == 2
  {
    assert Body(2)(r) == ReadSnapshotMsg(r);
    SnapshotMsgBack(r);
  }

  lemma {:induction false} AddServerBodyBack(r: Rd)
    requires Body(8)(r).1.err.None?
    ensures var (m, r') := Body(8)(r); ReadFrom(r, m, r') && Tag(m) == 8
  {
    assert Body(8)(r) == ReadAddServer(r);
    AddServerBack(r);
  }

  lemma {:induction false} AttachBodyBack(r: Rd)
    requires Body(14)(r).1.err.None?
    ensures var (m, r') := Body(14)(r); ReadFrom(r, m, r') && Tag(m) == 14
  {
    assert Body(14)(r) == ReadAttachPeer(r);
    AttachBack(r);
  }

  lemma {:induction false} AddForwardBodyBack(r: Rd)
    requires Body(12)(r).1.err.None?
    ensures var (m, r') := Body(12)(r); ReadFrom(r, m, r') && Tag(m) == 12
  {
    assert Body(12)(r) == ReadAddForward(r);
    AddForwardBack(r);
  }

  lemma {:induction false} OpenBodyBack(tag: byte, r: Rd)
    requires Known(tag) && FixedLen(tag).None? && Body(tag)(r).1.err.None?
    ensures var (m, r') := Body(tag)(r); ReadFrom(r, m, r') && Tag(m) == tag
  {
    match tag
    case 2 => SnapshotBodyBack(r);
    case 3 => ResultBack(r);
    case 8 => AddServerBodyBack(r);
    case 12 => AddForwardBodyBack(r);
    case 14 => AttachBodyBack(r);
    case 15 => DetachBack(r);
    case _ => NamedBack(tag, r);
  }

  /** Main result: whatever bytes are accepted are the encoding of the message they gave, which
      fits: no message has two encodings. */
  lemma {:induction false} EncodeOfDecode(b: Bytes)
    requires Decode(b).Ok?
    ensures Fits(Decode(b).value) && Encode(Decode(b).value) == b
  {
    var tag, rest := b[0], b[1..];
    var (m, r) := Body(tag)(Rd(rest, None));
    if FixedLen(tag).Some? {
      FixedBodyBack(tag, rest);
    } else {
      OpenBodyBack(tag, Rd(rest, None));
    }
    assert Tag(m) == tag && rest == Fields(m, []);
    assert b == PutU8(tag, rest);
  }

  // ---------------------------------------------------------------- consequences

  /** Exactly the messages that fit survive the trip. */
  lemma {:induction false} RoundTripIffFits(m: Msg)
    ensures Decode(Encode(m)) == Ok(m) <==> Fits(m)
  {
    if Fits(m) {
      DecodeOfEncode(m, []);
    } else if Decode(Encode(m)) == Ok(m) {
      EncodeOfDecode(Encode(m));
    }
  }

  /** A put only ever goes in front of its tail. */
  ghost predicate Prefixes<T(!new)>(put: (T, Bytes) -> Bytes) {
    forall x, b, t :: put(x, b + t) == put(x, b) + t
  }

  lemma {:induction false} U8Prefix(v: byte, b: Bytes, t: Bytes)
    ensures PutU8(v, b + t) == PutU8(v, b) + t
  {
  }

  lemma {:induction false} U16Prefix(v: nat, b: Bytes, t: Bytes)
    ensures PutU16(v, b + t) == PutU16(v, b) + t
  {
  }

  lemma {:induction false} StrPrefix(s: Bytes, b: Bytes, t: Bytes)
    ensures PutStr(s, b + t) == PutStr(s, b) + t
  {
    assert s + (b + t) == s + b + t;
    U16Prefix(|s|, s + b, t);
  }

  lemma {:induction false} ForwardPrefix(f: Forward, b: Bytes, t: Bytes)
    ensures PutForward(f, b + t) == PutForward(f, b) + t
  {
    var b1 := PutBool(f.enabled, b);
    var b2 := PutU32(f.idleSecs, b1);
    var b3 := PutBool(f.proxy, b2);
    var b4 := PutStr(f.target, b3);
    var b5 := PutU16(f.port, b4);
    U8Prefix(if f.enabled then 1 else 0, b, t);
    U8Prefix(if f.proxy then 1 else 0, b2, t);
    StrPrefix(f.target, b3, t);
    U16Prefix(f.port, b4, t);
    U8Prefix(ProtoByte(f.proto), b5, t);
  }

  lemma {:induction false} ServerPrefix(s: Server, b: Bytes, t: Bytes)
    ensures PutServer(s, b + t) == PutServer(s, b) + t
  {
    var b1 := PutU8(TransportByte(s.transport), b);
    U8Prefix(TransportByte(s.transport), b, t);
    StrPrefix(s.addr, b1, t);
    StrPrefix(s.name, PutStr(s.addr, b1), t);
  }

  lemma {:induction false} PeerSlotPrefix(p: PeerSlot, b: Bytes, t: Bytes)
    ensures PutPeerSlot(p, b + t) == PutPeerSlot(p, b) + t
  {
    var b1 := PutU8(PathByte(p.path), b);
    var b2 := PutU8(LinkByte(p.link), b1);
    var b3 := PutStr(p.iface, b2);
    U8Prefix(PathByte(p.path), b, t);
    U8Prefix(LinkByte(p.link), b1, t);
    StrPrefix(p.iface, b2, t);
    U8Prefix(p.want, b3, t);
    StrPrefix(p.peerId, PutU8(p.want, b3), t);
  }

  lemma {:induction false} EntriesPrefix()
    ensures Prefixes(PutForward) && Prefixes(PutServer) && Prefixes(PutPeerSlot) && Prefixes(PutStr)
  {
    forall x, b, t {
      ForwardPrefix(x, b, t);
    }
    forall x, b, t {
      ServerPrefix(x, b, t);
    }
    forall x, b, t {
      PeerSlotPrefix(x, b, t);
    }
    forall x, b, t {
      StrPrefix(x, b, t);
    }
  }

  lemma {:induction false} AllPrefix<T(!new)>(put: (T, Bytes) -> Bytes, xs: seq<T>, b: Bytes, t: Bytes)
    requires Prefixes(put)
    ensures PutAll(put, xs, b + t) == PutAll(put, xs, b) + t
    decreases |xs|
  {
    if xs != [] {
      AllPrefix(put, xs[1..], b, t);
    }
  }

  lemma {:induction false} ListPrefix<T(!new)>(put: (T, Bytes) -> Bytes, xs: seq<T>, b: Bytes, t: Bytes)
    requires Prefixes(put)
    ensures PutList(put, xs, b + t) == PutList(put, xs, b) + t
  {
    AllPrefix(put, Capped(xs), b, t);
    U16Prefix(|Capped(xs)|, PutAll(put, Capped(xs), b), t);
  }

  lemma {:induction false} SnapshotPrefix(s: Snapshot, b: Bytes, t: Bytes)
    ensures PutSnapshot(s, b + t) == PutSnapshot(s, b) + t
  {
    EntriesPrefix();
    var b1 := PutList(PutPeerSlot, s.peers, b);
    var b2 := PutU8(LinkByte(s.link), b1);
    var b3 := PutStr(s.session, b2);
    var b4 := PutList(PutStr, s.pppoe, b3);
    var b5 := PutList(PutServer, s.servers, b4);
    var b6 := PutList(PutForward, s.forwards, b5);
    var b7 := PutU8(PhaseByte(s.phase), b6);
    var b8 := PutU8(ModeByte(s.mode), b7);
    ListPrefix(PutPeerSlot, s.peers, b, t);
    U8Prefix(LinkByte(s.link), b1, t);
    StrPrefix(s.session, b2, t);
    ListPrefix(PutStr, s.pppoe, b3, t);
    ListPrefix(PutServer, s.servers, b4, t);
    ListPrefix(PutForward, s.forwards, b5, t);
    U8Prefix(PhaseByte(s.phase), b6, t);
    U8Prefix(ModeByte(s.mode), b7, t);
    StrPrefix(s.active, b8, t);
    U8Prefix(s.version, PutStr(s.active, b8), t);
  }

  lemma {:induction false} AttachPrefix(m: Msg, t: Bytes)
    requires m.AttachPeer?
    ensures Fields(m, t) == Fields(m, []) + t
  {
    var b1 := PutStr(m.iface, []);
    var b2 := PutBool(m.exitStrict, b1);
    var b3 := PutBool(m.exit, b2);
    var b4 := PutStr(m.dev, b3);
    assert [] + t == t;
    StrPrefix(m.iface, [], t);
    U8Prefix(if m.exitStrict then 1 else 0, b1, t);
    U8Prefix(if m.exit then 1 else 0, b2, t);
    StrPrefix(m.dev, b3, t);
    U8Prefix(m.want, b4, t);
    StrPrefix(m.peerId, PutU8(m.want, b4), t);
  }

  lemma {:induction false} AddServerPrefix(m: Msg, t: Bytes)
    requires m.AddServer?
    ensures Fields(m, t) == Fields(m, []) + t
  {
    var b1 := PutU8(TransportByte(m.transport), []);
    assert [] + t == t;
    U8Prefix(TransportByte(m.transport), [], t);
    StrPrefix(m.secret, b1, t);
    StrPrefix(m.addr, PutStr(m.secret, b1), t);
    StrPrefix(m.name, PutStr(m.addr, PutStr(m.secret, b1)), t);
  }

  lemma {:induction false} OptionsPrefix(m: Msg, t: Bytes)
    requires m.SetForwardOptions?
    ensures Fields(m, t) == Fields(m, []) + t
  {
    var b1 := PutU32(m.idleSecs, []);
    var b2 := PutBool(m.proxy, b1);
    var b3 := PutBool(m.enabled, b2);
    assert [] + t == t;
    U8Prefix(if m.proxy then 1 else 0, b1, t);
    U8Prefix(if m.enabled then 1 else 0, b2, t);
    U16Prefix(m.port, b3, t);
    U8Prefix(ProtoByte(m.proto), PutU16(m.port, b3), t);
  }

  lemma {:induction false} NamedPrefix(m: Msg, t: Bytes)
    requires IsNamed(Tag(m))
    ensures Fields(m, t) == Fields(m, []) + t
  {
    assert [] + t == t;
    StrPrefix(m.name, [], t);
  }

  lemma {:induction false} ResultPrefix(m: Msg, t: Bytes)
    requires m.MutationResult?
    ensures Fields(m, t) == Fields(m, []) + t
  {
    assert [] + t == t;
    StrPrefix(m.msg, [], t);
    U8Prefix(if m.ok then 1 else 0, PutStr(m.msg, []), t);
  }

  lemma {:induction false} DetachPrefix(m: Msg, t: Bytes)
    requires m.DetachPeer?
    ensures Fields(m, t) == Fields(m, []) + t
  {
    assert [] + t == t;
    U8Prefix(m.want, [], t);
    StrPrefix(m.peerId, PutU8(m.want, []), t);
  }

  lemma {:induction false} RemoveForwardPrefix(m: Msg, t: Bytes)
    requires m.RemoveForward?
    ensures Fields(m, t) == Fields(m, []) + t
  {
    assert [] + t == t;
    U16Prefix(m.port, [], t);
    U8Prefix(ProtoByte(m.proto), PutU16(m.port, []), t);
  }

  lemma {:induction false} FieldsPrefix(m: Msg, t: Bytes)
    ensures Fields(m, t) == Fields(m, []) + t
  {
    assert [] + t == t;
    match m
    case ClientSnapshot(snap) => SnapshotPrefix(snap, [], t);
    case AttachPeer(_, _, _, _, _, _) => AttachPrefix(m, t);
    case AddServer(_, _, _, _) => AddServerPrefix(m, t);
    case AddForward(f) => ForwardPrefix(f, [], t);
    case SetForwardOptions(_, _, _, _, _) => OptionsPrefix(m, t);
    case MutationResult(_, _) => ResultPrefix(m, t);
    case DetachPeer(_, _) => DetachPrefix(m, t);
    case RemoveForward(_, _) => RemoveForwardPrefix(m, t);
    case ClientAdminHello(_, _) =>
    case Disconnect =>
    case _ => NamedPrefix(m, t);
  }

  /** Trailing bytes after any message that fits are refused, */
  lemma {:induction false} TrailingIsRefused(m: Msg, t: Bytes)
    requires Fits(m) && t != []
    ensures Decode(Encode(m) + t).Err?
  {
    FieldsPrefix(m, t);
    U8Prefix(Tag(m), Fields(m, []), t);
    DecodeOfEncode(m, t);
  }

  /** and so is every proper prefix of an accepted body. */
  lemma {:induction false} PrefixIsRefused(b: Bytes, n: nat)
    requires Decode(b).Ok? && n < |b|
    ensures Decode(b[..n]).Err?
  {
    var cut := b[..n];
    if Decode(cut).Ok? {
      EncodeOfDecode(cut);
      TrailingIsRefused(Decode(cut).value, b[n..]);
      assert cut + b[n..] == b;
    }
  }

  lemma {:induction false} TruncationIsRefused(m: Msg, n: nat)
    requires Fits(m) && n < |Encode(m)|
    ensures Decode(Encode(m)[..n]).Err?
  {
    DecodeOfEncode(m, []);
    PrefixIsRefused(Encode(m), n);
  }

  /** No two messages that fit share an encoding. */
  lemma {:induction false} EncodingsDiffer(m: Msg, m': Msg)
    requires Fits(m) && Fits(m') && Encode(m) == Encode(m')
    ensures m == m'
  {
    DecodeOfEncode(m, []);
    DecodeOfEncode(m', []);
  }

  // ---------------------------------------------------------------- the loops

  /** `seen` are the first `i` entries of a list whose rest is read from `r`. */
  ghost predicate Reading<T(!new)>(one: Rd -> (T, Rd), r0: Rd, count: nat, i: nat, seen: seq<T>, r: Rd) {
    && i <= count
    && var (all, end) := ReadAll(one, r0, count);
       var (rest, end') := ReadAll(one, r, count - i);
       all == seen + rest && end == end'
  }

  /** Entry by entry, stopping at the first failure. */
  method ReadEach<T(!new)>(one: Rd -> (T, Rd), r0: Rd, count: nat) returns (xs: seq<T>, r: Rd)
    ensures (xs, r) == ReadAll(one, r0, count)
  {
    xs, r := [], r0;
    var i := 0;
    while i < count
      invariant Reading(one, r0, count, i, xs, r)
    {
      if r.err.Some? {
        assert xs + [] == xs;
        break;
      }
      var (x, r1) := one(r);
      ghost var rest := ReadAll(one, r1, count - i - 1).0;
      assert xs + ([x] + rest) == xs + [x] + rest;
      xs, r := xs + [x], r1;
      i := i + 1;
    }
    assert xs + [] == xs;
  }

  method AppendEach<T(!new)>(put: (T, Bytes) -> Bytes, b0: Bytes, xs: seq<T>) returns (b: Bytes)
    requires Prefixes(put)
    ensures b == b0 + PutAll(put, xs, [])
  {
    b := b0;
    var i := 0;
    assert xs[0..] == xs;
    while i < |xs|
      invariant 0 <= i <= |xs|
      invariant b0 + PutAll(put, xs, []) == b + PutAll(put, xs[i..], [])
    {
      ghost var rest := PutAll(put, xs[i..][1..], []);
      assert xs[i..][1..] == xs[i + 1..];
      assert put(xs[i], [] + rest) == put(xs[i], []) + rest;
      assert [] + rest == rest;
      assert b + (put(xs[i], []) + rest) == b + put(xs[i], []) + rest;
      b := b + put(xs[i], []);
      i := i + 1;
    }
  }

  /** A capped count, then that many entries. */
  method AppendList<T(!new)>(put: (T, Bytes) -> Bytes, b0: Bytes, xs: seq<T>) returns (b: Bytes)
    requires Prefixes(put)
    ensures b == b0 + PutList(put, xs, [])
  {
    var count := if |xs| < MAX_COUNT then |xs| else MAX_COUNT;
    assert xs[..count] == Capped(xs);
    b := b0 + PutU16(count, []);
    ghost var head := PutU16(count, []);
    b := AppendEach(put, b, xs[..count]);
    ghost var body := PutAll(put, Capped(xs), []);
    U16Prefix(count, [], body);
    assert [] + body == body;
    assert b0 + head + body == b0 + (head + body);
  }

  method ReadListEach<T(!new)>(one: Rd -> (T, Rd), r0: Rd, what: string) returns (xs: seq<T>, r: Rd)
    ensures (xs, r) == ReadList(one, r0, what)
  {
    var (count, r1) := Count(r0, what);
    xs, r := ReadEach(one, r1, count);
  }

  /** A snapshot body read field by field, its four lists by loops. */
  method ReadSnapshotFields(r0: Rd) returns (s: Snapshot, r: Rd)
    ensures (s, r) == ReadSnapshot(r0)
  {
    var (head, r1) := SnapshotHead(r0);
    var forwards, r2 := ReadEach(ReadForward, r1, head.4);
    var servers, r3 := ReadListEach(ReadServer, r2, "truncated client snapshot server list");
    var pppoe, r4 := ReadListEach(Str, r3, "truncated client snapshot pppoe list");
    var (session, r5) := Str(r4);
    var (link, r6) := ReadLink(r5);
    var peers;
    peers, r := ReadListEach(ReadPeerSlot, r6, "truncated client snapshot peer list");
    s := Snapshot(head.0, head.1, head.2, head.3, forwards, servers, pppoe, session, link, peers);
  }
}
