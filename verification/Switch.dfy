/** The learning switch behind a shared TAP or TUN device (`src/bridge.rs`). */
module Switch {
  import opened Base

  type Mac = m: seq<byte> | |m| == 6 witness Zeros(6)

  const MAX_MACS_PER_SWITCH: nat := 4096
  const SWITCH_PORT_CAP: nat := 256
  const ZERO_MAC: Mac := Zeros(6)

  /** Destination and source of an Ethernet frame; too short a frame has neither. */
  function DstSrc(f: Bytes): Option<(Mac, Mac)> {
    if |f| < 14 then None else Some((f[0..6], f[6..12]))
  }

  predicate IsGroup(mac: Mac) {
    mac[0] % 2 == 1
  }

  predicate GroupOrZero(mac: Mac) {
    IsGroup(mac) || mac == ZERO_MAC
  }

  /** One client: its bounded queue toward the client, whether the client's end of the queue
      is gone, whether it has been heard from, and which attach made it. */
  datatype Port = Port(queue: seq<Bytes>, closed: bool, proven: bool, serial: nat)

  /** `attached` counts attach calls; port ids are its low 32 bits. */
  datatype State = State(l2: bool, portToPort: bool, ports: map<nat, Port>, macs: map<Mac, nat>, attached: nat)

  function Fresh(l2: bool, portToPort: bool): State {
    State(l2, portToPort, map[], map[], 0)
  }

  function IdOf(serial: nat): nat {
    serial % U32_LIMIT
  }

  // ---------------------------------------------------------------- the operations

  /** `try_send`: an open queue with room takes the frame; a full one drops it. */
  function Offered(p: Port, f: Bytes): Port {
    if !p.closed && |p.queue| < SWITCH_PORT_CAP then p.(queue := p.queue + [f]) else p
  }

  function EvictAll(s: State, ids: set<nat>): State {
    s.(ports := map id | id in s.ports && id !in ids :: s.ports[id],
       macs := map m | m in s.macs && s.macs[m] !in ids :: s.macs[m])
  }

  function Evict(s: State, id: nat): State {
    EvictAll(s, {id})
  }

  function Targets(s: State, except: Option<nat>): set<nat> {
    set id | id in s.ports && Some(id) != except
  }

  function Dead(s: State, ids: set<nat>): set<nat> {
    set id | id in ids && id in s.ports && s.ports[id].closed
  }

  function OfferPorts(ports: map<nat, Port>, f: Bytes, ids: set<nat>): map<nat, Port> {
    map id | id in ports :: if id in ids then Offered(ports[id], f) else ports[id]
  }

  function OfferAll(s: State, f: Bytes, ids: set<nat>): State {
    s.(ports := OfferPorts(s.ports, f, ids))
  }

  /** A copy to every port but one; ports whose client is gone are evicted. */
  function Flooded(s: State, f: Bytes, except: Option<nat>): State {
    var ids := Targets(s, except);
    EvictAll(OfferAll(s, f, ids), Dead(s, ids))
  }

  function Learned(s: State, src: Mac, port: nat): State {
    if GroupOrZero(src) then s
    else if src in s.macs || |s.macs| < MAX_MACS_PER_SWITCH then s.(macs := s.macs[src := port])
    else s
  }

  function Unlearned(s: State, src: Mac): State {
    if GroupOrZero(src) then s else s.(macs := s.macs - {src})
  }

  /** Unicast to an attached port: offered to it, or the port evicted if its client is gone. */
  function Unicast(s: State, id: nat, f: Bytes): State
    requires id in s.ports
  {
    if s.ports[id].closed then Evict(s, id) else s.(ports := s.ports[id := Offered(s.ports[id], f)])
  }

  /** A frame from the device, by destination. */
  function ForwardInbound(s: State, dst: Mac, src: Mac, f: Bytes): State {
    var s := Unlearned(s, src);
    if IsGroup(dst) || dst !in s.macs || s.macs[dst] !in s.ports then Flooded(s, f, None)
    else Unicast(s, s.macs[dst], f)
  }

  /** One pass of the reader: a sole port takes the frame unparsed. */
  function Inbound(s: State, f: Bytes): State {
    if |s.ports| == 1 then OfferAll(s, f, s.ports.Keys)
    else
      match DstSrc(f)
      case None => Flooded(s, f, None)
      case Some((dst, src)) => ForwardInbound(s, dst, src, f)
  }

  /** A frame from a port among the other ports; the answer is whether that delivered it. */
  function ForwardEgress(s: State, dst: Mac, f: Bytes, from: nat): (State, bool) {
    if IsGroup(dst) then (Flooded(s, f, Some(from)), false)
    else if dst !in s.macs || s.macs[dst] == from || s.macs[dst] !in s.ports then (s, false)
    else (Unicast(s, s.macs[dst], f), !s.ports[s.macs[dst]].closed)
  }

  /** A frame from a port; the answer is whether it is written to the device. */
  function Egress(s: State, f: Bytes, from: nat): (State, bool) {
    var hdr := DstSrc(f);
    if !s.l2 || hdr.None? then (s, true)
    else
      var (dst, src) := hdr.value;
      var s := Learned(s, src, from);
      if !s.portToPort then (s, true)
      else
        var (s, done) := ForwardEgress(s, dst, f, from);
        (s, !done)
  }

  predicate Refuses(s: State) {
    !s.l2 && exists id :: id in s.ports && s.ports[id].proven
  }

  /** Attach: the admission test, then the insert, then the superseded ports' eviction. */
  function Attached(s: State, proven: bool): (State, bool) {
    var id := IdOf(s.attached);
    var serial := s.attached;
    var s := s.(attached := s.attached + 1);
    if Refuses(s) then (s, false)
    else
      var superseded := if s.l2 then {} else s.ports.Keys;
      var kept := if s.l2 then s.ports else map[];
      (EvictAll(s.(ports := kept[id := Port([], false, proven, serial)]), superseded), true)
  }

  // ---------------------------------------------------------------- runs

  /** What the readers, relays and clients can do. A handle is known by its serial, and may act
      after its port was evicted. */
  datatype Event =
    | Attach(proven: bool)
    | Prove(serial: nat)
    | DropHandle(serial: nat)
    | CloseQueue(id: nat)
    | Take(id: nat)
    | FromDevice(frame: Bytes)
    | FromPort(frame: Bytes, serial: nat)

  function Next(s: State, e: Event): State {
    match e
    case Attach(proven) => Attached(s, proven).0
    case Prove(serial) =>
      var id := IdOf(serial);
      if id in s.ports && s.ports[id].serial == serial then
        s.(ports := s.ports[id := s.ports[id].(proven := true)])
      else s
    case DropHandle(serial) => Evict(s, IdOf(serial))
    case CloseQueue(id) => if id in s.ports then s.(ports := s.ports[id := s.ports[id].(closed := true)]) else s
    case Take(id) =>
      if id in s.ports && s.ports[id].queue != []
      then s.(ports := s.ports[id := s.ports[id].(queue := s.ports[id].queue[1..])]) else s
    case FromDevice(frame) => Inbound(s, frame)
    case FromPort(frame, serial) => Egress(s, frame, IdOf(serial)).0
  }

  function Run(s: State, es: seq<Event>): State
    decreases |es|
  {
    if es == [] then s else Run(Next(s, es[0]), es[1..])
  }

  ghost predicate Invariant(s: State) {
    && |s.macs| <= MAX_MACS_PER_SWITCH
    && (forall m :: m in s.macs ==> !GroupOrZero(m))
    && (!s.l2 ==> s.macs == map[] && |s.ports| <= 1)
    && (forall id :: id in s.ports ==> s.ports[id].serial < s.attached && IdOf(s.ports[id].serial) == id
                                       && |s.ports[id].queue| <= SWITCH_PORT_CAP)
  }

  lemma {:induction false} SubmapSize<K, V>(a: map<K, V>, b: map<K, V>)
    requires a.Keys <= b.Keys
    ensures |a| <= |b|
  {
    SubsetSize(a.Keys, b.Keys);
  }

  lemma {:induction false} EvictKeeps(s: State, ids: set<nat>)
    requires Invariant(s)
    ensures Invariant(EvictAll(s, ids))
  {
    SubmapSize(EvictAll(s, ids).macs, s.macs);
    SubmapSize(EvictAll(s, ids).ports, s.ports);
  }

  lemma {:induction false} OfferKeeps(s: State, f: Bytes, ids: set<nat>)
    requires Invariant(s)
    ensures Invariant(OfferAll(s, f, ids))
  {
    SubmapSize(OfferAll(s, f, ids).ports, s.ports);
  }

  lemma {:induction false} FloodKeeps(s: State, f: Bytes, except: Option<nat>)
    requires Invariant(s)
    ensures Invariant(Flooded(s, f, except))
  {
    OfferKeeps(s, f, Targets(s, except));
    EvictKeeps(OfferAll(s, f, Targets(s, except)), Dead(s, Targets(s, except)));
  }

  lemma {:induction false} SetPortKeeps(s: State, id: nat, p: Port)
    requires Invariant(s) && id in s.ports
    requires p.serial == s.ports[id].serial && |p.queue| <= SWITCH_PORT_CAP
    ensures Invariant(s.(ports := s.ports[id := p]))
  {
    assert s.ports[id := p].Keys == s.ports.Keys;
    SubmapSize(s.ports[id := p], s.ports);
  }

  lemma {:induction false} LearnKeeps(s: State, src: Mac, port: nat)
    requires Invariant(s) && s.l2
    ensures Invariant(Learned(s, src, port))
  {
    if src in s.macs {
      assert s.macs[src := port].Keys == s.macs.Keys;
      SubmapSize(s.macs[src := port], s.macs);
    }
  }

  lemma {:induction false} UnlearnKeeps(s: State, src: Mac)
    requires Invariant(s)
    ensures Invariant(Unlearned(s, src))
  {
    SubmapSize(Unlearned(s, src).macs, s.macs);
  }

  lemma {:induction false} UnicastKeeps(s: State, id: nat, f: Bytes)
    requires Invariant(s) && id in s.ports
    ensures Invariant(Unicast(s, id, f))
  {
    EvictKeeps(s, {id});
    SetPortKeeps(s, id, Offered(s.ports[id], f));
  }

  lemma {:induction false} AttachKeeps(s: State, proven: bool)
    requires Invariant(s)
    ensures Invariant(Attached(s, proven).0)
  {
    var s1 := s.(attached := s.attached + 1);
    assert Invariant(s1);
    if !Refuses(s1) {
      var p := Port([], false, proven, s.attached);
      var kept := if s.l2 then s.ports else map[];
      var s2 := s1.(ports := kept[IdOf(s.attached) := p]);
      assert Invariant(s2);
      EvictKeeps(s2, if s.l2 then {} else s.ports.Keys);
    }
  }

  lemma {:induction false} NextKeeps(s: State, e: Event)
    requires Invariant(s)
    ensures Invariant(Next(s, e))
  {
    match e
    case Attach(proven) => AttachKeeps(s, proven);
    case Prove(serial) =>
      var id := IdOf(serial);
      if id in s.ports {
        SetPortKeeps(s, id, s.ports[id].(proven := true));
      }
    case DropHandle(serial) => EvictKeeps(s, {IdOf(serial)});
    case CloseQueue(id) =>
      if id in s.ports {
        SetPortKeeps(s, id, s.ports[id].(closed := true));
      }
    case Take(id) =>
      if id in s.ports && s.ports[id].queue != [] {
        SetPortKeeps(s, id, s.ports[id].(queue := s.ports[id].queue[1..]));
      }
    case FromDevice(frame) => InboundKeeps(s, frame);
    case FromPort(frame, serial) => EgressKeeps(s, frame, IdOf(serial));
  }

  lemma {:induction false} InboundKeeps(s: State, f: Bytes)
    requires Invariant(s)
    ensures Invariant(Inbound(s, f))
  {
    OfferKeeps(s, f, s.ports.Keys);
    match DstSrc(f)
    case None => FloodKeeps(s, f, None);
    case Some((dst, src)) =>
      UnlearnKeeps(s, src);
      var s1 := Unlearned(s, src);
      FloodKeeps(s1, f, None);
      if dst in s1.macs && s1.macs[dst] in s1.ports {
        UnicastKeeps(s1, s1.macs[dst], f);
      }
  }

  lemma {:induction false} EgressKeeps(s: State, f: Bytes, from: nat)
    requires Invariant(s)
    ensures Invariant(Egress(s, f, from).0)
  {
    if s.l2 && DstSrc(f).Some? {
      var (dst, src) := DstSrc(f).value;
      LearnKeeps(s, src, from);
      var s1 := Learned(s, src, from);
      FloodKeeps(s1, f, Some(from));
      if dst in s1.macs && s1.macs[dst] in s1.ports {
        UnicastKeeps(s1, s1.macs[dst], f);
      }
    }
  }

  lemma {:induction false} RunKeeps(s: State, es: seq<Event>)
    requires Invariant(s)
    ensures Invariant(Run(s, es))
    decreases |es|
  {
    if es != [] {
      NextKeeps(s, es[0]);
      RunKeeps(Next(s, es[0]), es[1..]);
    }
  }

  /** Main result: in every run from a new switch the table holds at most 4096 stations, none a
      group or zero address, and a TUN switch has learned nothing and has one port at most. */
  lemma {:induction false} EveryRunKeepsTheTable(l2: bool, portToPort: bool, es: seq<Event>)
    ensures var s := Run(Fresh(l2, portToPort), es);
            && |s.macs| <= MAX_MACS_PER_SWITCH
            && (forall m :: m in s.macs ==> !IsGroup(m) && m != ZERO_MAC)
            && s.l2 == l2 && s.portToPort == portToPort && (!l2 ==> s.macs == map[] && |s.ports| <= 1)
  {
    RunKeeps(Fresh(l2, portToPort), es);
    RunIsSameKind(Fresh(l2, portToPort), es);
  }

  lemma {:induction false} NextIsSameKind(s: State, e: Event)
    ensures Next(s, e).l2 == s.l2 && Next(s, e).portToPort == s.portToPort
  {
  }

  lemma {:induction false} RunIsSameKind(s: State, es: seq<Event>)
    ensures Run(s, es).l2 == s.l2 && Run(s, es).portToPort == s.portToPort
    decreases |es|
  {
    if es != [] {
      NextIsSameKind(s, es[0]);
      RunIsSameKind(Next(s, es[0]), es[1..]);
    }
  }

  // ---------------------------------------------------------------- who gets a frame

  /** The ports whose clients are still there. */
  function Live(s: State): set<nat> {
    set id | id in s.ports && !s.ports[id].closed
  }

  /** From `s` to `s'` the frame was offered to exactly the live ports of `ids`: each put it at the
      end of its queue if that held less than 256 frames, and nothing else changed in any port. */
  predicate OfferedTo(s: State, s': State, f: Bytes, ids: set<nat>) {
    && (forall id :: id in s.ports && id in s'.ports ==>
          var was := s.ports[id];
          s'.ports[id] ==
          if id in ids && !was.closed && |was.queue| < 256
          then Port(was.queue + [f], false, was.proven, was.serial) else was)
    && Live(s) == Live(s')
    && s'.ports.Keys <= s.ports.Keys
  }

  lemma {:induction false} FloodReaches(s: State, f: Bytes, except: Option<nat>)
    ensures OfferedTo(s, Flooded(s, f, except), f, Targets(s, except))
    ensures forall id :: id in Targets(s, except) && id in Flooded(s, f, except).ports ==> id in Live(s)
  {
  }

  lemma {:induction false} UnicastReaches(s: State, id: nat, f: Bytes)
    requires id in s.ports
    ensures OfferedTo(s, Unicast(s, id, f), f, {id})
  {
  }

  /** An Ethernet frame: destination, source, and at least the type field behind them. */
  function Frame(dst: Mac, src: Mac, rest: Bytes): Bytes {
    dst + src + rest
  }

  lemma {:induction false} FrameNamesItsStations(dst: Mac, src: Mac, rest: Bytes)
    ensures DstSrc(Frame(dst, src, rest)) == if |rest| >= 2 then Some((dst, src)) else None
  {
    var f := Frame(dst, src, rest);
    assert f[0..6] == dst;
    assert |f| >= 14 ==> f[6..12] == src;
  }

  /** Whether the device's side has just claimed a station: only a unicast source is heard. */
  predicate Claims(src: Mac, station: Mac) {
    src == station && src[0] % 2 == 0 && src != [0, 0, 0, 0, 0, 0]
  }

  /** Main result: a frame from the device goes to its owner alone, and to every port when it
      is a group frame or no attached port owns its destination, which a stale binding and a
      destination that just spoke on the device's side both count as. */
  lemma {:induction false} InboundReaches(s: State, dst: Mac, src: Mac, rest: Bytes)
    requires |rest| >= 2
    ensures var f := Frame(dst, src, rest);
            OfferedTo(s, Inbound(s, f), f,
                      if |s.ports| != 1 && dst[0] % 2 == 0 && dst in s.macs && s.macs[dst] in s.ports
                         && !Claims(src, dst)
                      then {s.macs[dst]} else s.ports.Keys)
  {
    FrameNamesItsStations(dst, src, rest);
    if |s.ports| != 1 {
      ForwardReaches(s, dst, src, Frame(dst, src, rest));
    }
  }

  /** A frame too short for a header goes to every port. */
  lemma {:induction false} ShortFrameFloods(s: State, f: Bytes)
    requires |f| < 14
    ensures OfferedTo(s, Inbound(s, f), f, s.ports.Keys)
  {
    if |s.ports| != 1 {
      FloodReaches(s, f, None);
      assert Targets(s, None) == s.ports.Keys;
    }
  }

  lemma {:induction false} ForwardReaches(s: State, dst: Mac, src: Mac, f: Bytes)
    ensures OfferedTo(s, ForwardInbound(s, dst, src, f), f,
                      if dst[0] % 2 == 0 && dst in s.macs && s.macs[dst] in s.ports && !Claims(src, dst)
                      then {s.macs[dst]} else s.ports.Keys)
  {
    var s1 := Unlearned(s, src);
    assert Live(s1) == Live(s) && ZERO_MAC == [0, 0, 0, 0, 0, 0];
    if !IsGroup(dst) && dst in s1.macs && s1.macs[dst] in s1.ports {
      UnicastReaches(s1, s1.macs[dst], f);
    } else {
      FloodReaches(s1, f, None);
      assert Targets(s1, None) == s.ports.Keys;
    }
  }

  /** Main result: an egress frame never comes back to the port it arrived on. */
  lemma {:induction false} NoReturnToSender(s: State, f: Bytes, from: nat)
    ensures var s' := Egress(s, f, from).0;
            (from in s.ports <==> from in s'.ports) && (from in s.ports ==> s'.ports[from] == s.ports[from])
  {
    if s.l2 && DstSrc(f).Some? {
      var (dst, src) := DstSrc(f).value;
      var s1 := Learned(s, src, from);
      FloodReaches(s1, f, Some(from));
    }
  }

  /** The other attached port, with its client still there, that owns a destination; a station
      that speaks from a port is that port's at once. */
  function OtherOwner(s: State, dst: Mac, src: Mac, from: nat): Option<nat> {
    if dst !in s.macs || Claims(src, dst) || s.macs[dst] == from then None
    else if s.macs[dst] in s.ports && !s.ports[s.macs[dst]].closed then Some(s.macs[dst])
    else None
  }

  /** Main result: on a port-to-port switch a unicast frame goes to the other port that owns
      its destination or to the device, one and never both; a group frame goes to every other
      port and to the device. */
  lemma {:induction false} EgressGoesOneWay(s: State, dst: Mac, src: Mac, rest: Bytes, from: nat)
    requires s.l2 && s.portToPort && |rest| >= 2
    ensures var f := Frame(dst, src, rest);
            var (s', device) := Egress(s, f, from);
            if dst[0] % 2 == 1 then device && OfferedTo(s, s', f, s.ports.Keys - {from})
            else
              match OtherOwner(s, dst, src, from)
              case Some(owner) => !device && OfferedTo(s, s', f, {owner})
              case None => device && OfferedTo(s, s', f, {})
  {
    var f := Frame(dst, src, rest);
    FrameNamesItsStations(dst, src, rest);
    var s1 := Learned(s, src, from);
    assert s1.ports == s.ports && Live(s1) == Live(s) && ZERO_MAC == [0, 0, 0, 0, 0, 0];
    if IsGroup(dst) {
      FloodReaches(s1, f, Some(from));
      assert Targets(s1, Some(from)) == s.ports.Keys - {from};
    } else if dst in s1.macs && s1.macs[dst] in s1.ports && s1.macs[dst] != from {
      UnicastReaches(s1, s1.macs[dst], f);
    }
  }

  /** The port a station is bound to. */
  function BoundTo(s: State, m: Mac): Option<nat> {
    if m in s.macs then Some(s.macs[m]) else None
  }

  /** A station bound to a port until that is found dead and evicted. */
  predicate LeftBound(s: State, s': State, m: Mac, port: Option<nat>) {
    BoundTo(s', m) == if port.Some? && port.value in s.ports && port.value !in s'.ports then None else port
  }

  /** Once a frame is dealt with, a station is bound where `told` says or where it was, unless that
      port was found dead and evicted. */
  ghost predicate Rebound(s: State, s': State, told: Mac -> Option<Option<nat>>) {
    forall m: Mac :: LeftBound(s, s', m, match told(m) case Some(p) => p case None => BoundTo(s, m))
  }

  lemma {:induction false} FloodLeaves(s: State, f: Bytes, except: Option<nat>, m: Mac)
    ensures LeftBound(s, Flooded(s, f, except), m, BoundTo(s, m))
  {
  }

  lemma {:induction false} UnicastLeaves(s: State, id: nat, f: Bytes, m: Mac)
    requires id in s.ports
    ensures LeftBound(s, Unicast(s, id, f), m, BoundTo(s, m))
  {
  }

  lemma {:induction false} LearnedIs(s: State, src: Mac, from: nat, m: Mac)
    ensures BoundTo(Learned(s, src, from), m)
         == if Claims(src, m) && (m in s.macs || |s.macs| < 4096) then Some(from) else BoundTo(s, m)
  {
    assert ZERO_MAC == [0, 0, 0, 0, 0, 0];
  }

  lemma {:induction false} UnlearnedIs(s: State, src: Mac, m: Mac)
    ensures BoundTo(Unlearned(s, src), m) == if Claims(src, m) then None else BoundTo(s, m)
  {
    assert ZERO_MAC == [0, 0, 0, 0, 0, 0];
  }

  lemma {:induction false} EgressLeaves(s: State, dst: Mac, f: Bytes, from: nat, m: Mac)
    ensures LeftBound(s, ForwardEgress(s, dst, f, from).0, m, BoundTo(s, m))
  {
    FloodLeaves(s, f, Some(from), m);
    if dst in s.macs && s.macs[dst] in s.ports {
      UnicastLeaves(s, s.macs[dst], f, m);
    }
  }

  lemma {:induction false} InboundLeaves(s: State, dst: Mac, src: Mac, f: Bytes, m: Mac)
    ensures LeftBound(s, ForwardInbound(s, dst, src, f), m, if Claims(src, m) then None else BoundTo(s, m))
  {
    var s1 := Unlearned(s, src);
    UnlearnedIs(s, src, m);
    FloodLeaves(s1, f, None, m);
    if dst in s1.macs && s1.macs[dst] in s1.ports {
      UnicastLeaves(s1, s1.macs[dst], f, m);
    }
  }

  /** Main result: what an egress frame teaches. Its source, if a unicast one for which there is
      room, is bound to the port it came from; no other station moves. */
  lemma {:induction false} EgressTeaches(s: State, dst: Mac, src: Mac, rest: Bytes, from: nat)
    requires s.l2 && |rest| >= 2
    ensures Rebound(s, Egress(s, Frame(dst, src, rest), from).0,
                    (m: Mac) => if Claims(src, m) && (m in s.macs || |s.macs| < 4096) then Some(Some(from)) else None)
  {
    var f, s1 := Frame(dst, src, rest), Learned(s, src, from);
    FrameNamesItsStations(dst, src, rest);
    forall m: Mac
      ensures LeftBound(s, Egress(s, f, from).0, m, BoundTo(s1, m))
      ensures BoundTo(s1, m) == if Claims(src, m) && (m in s.macs || |s.macs| < 4096) then Some(from) else BoundTo(s, m)
    {
      LearnedIs(s, src, from, m);
      EgressLeaves(s1, dst, f, from, m);
    }
  }

  /** And what a frame from the device teaches: its source is behind no port. A sole port takes
      its frames unread. */
  lemma {:induction false} InboundTeaches(s: State, dst: Mac, src: Mac, rest: Bytes)
    requires |rest| >= 2
    ensures Rebound(s, Inbound(s, Frame(dst, src, rest)),
                    (m: Mac) => if |s.ports| != 1 && Claims(src, m) then Some(None) else None)
  {
    var f := Frame(dst, src, rest);
    FrameNamesItsStations(dst, src, rest);
    forall m: Mac
      ensures LeftBound(s, Inbound(s, f), m, if |s.ports| != 1 && Claims(src, m) then None else BoundTo(s, m))
    {
      InboundLeaves(s, dst, src, f, m);
    }
  }

  /** Without port-to-port forwarding, and on a TUN switch, egress is the device's alone. */
  lemma {:induction false} PlainEgressIsTheDevices(s: State, f: Bytes, from: nat)
    requires !s.portToPort || !s.l2
    ensures Egress(s, f, from).1 && Egress(s, f, from).0.ports == s.ports
    ensures !s.l2 ==> Egress(s, f, from).0 == s
  {
  }

  /** A station heard behind a port is reached through that port alone, */
  lemma {:induction false} HeardThenReached(
      s: State, dst: Mac, src: Mac, rest: Bytes, from: nat, sender: Mac, reply: Bytes)
    requires Invariant(s) && s.l2 && from in s.ports && |rest| >= 2 && |reply| >= 2
    requires Claims(src, src) && (src in s.macs || |s.macs| < 4096) && sender != src
    ensures var s1 := Egress(s, Frame(dst, src, rest), from).0;
            var g := Frame(src, sender, reply);
            OfferedTo(s1, Inbound(s1, g), g, {from})
  {
    var s1 := Egress(s, Frame(dst, src, rest), from).0;
    NoReturnToSender(s, Frame(dst, src, rest), from);
    EgressTeaches(s, dst, src, rest, from);
    assert BoundTo(s1, src) == Some(from);
    InboundReaches(s1, src, sender, reply);
    if |s1.ports| == 1 {
      OnlyKey(s1.ports, from);
    }
  }

  lemma {:induction false} UnboundIsFlooded(s: State, dst: Mac, src: Mac, rest: Bytes)
    requires |rest| >= 2 && (|s.ports| == 1 || BoundTo(s, dst) == None)
    ensures OfferedTo(s, Inbound(s, Frame(dst, src, rest)), Frame(dst, src, rest), s.ports.Keys)
  {
    InboundReaches(s, dst, src, rest);
  }

  lemma {:induction false} SoleStaysSole(s: State, f: Bytes)
    requires |s.ports| == 1
    ensures |Inbound(s, f).ports| == 1
  {
    assert Inbound(s, f).ports.Keys == s.ports.Keys;
    assert |Inbound(s, f).ports| == |Inbound(s, f).ports.Keys| && |s.ports| == |s.ports.Keys|;
  }

  /** until it is heard on the device's side, after which frames for it flood. */
  lemma {:induction false} MovedThenFlooded(s: State, dst: Mac, src: Mac, rest: Bytes, sender: Mac, reply: Bytes)
    requires Claims(src, src) && |rest| >= 2 && |reply| >= 2
    ensures var s1 := Inbound(s, Frame(dst, src, rest));
            var g := Frame(src, sender, reply);
            OfferedTo(s1, Inbound(s1, g), g, s1.ports.Keys)
  {
    var f := Frame(dst, src, rest);
    if |s.ports| == 1 {
      SoleStaysSole(s, f);
    } else {
      InboundTeaches(s, dst, src, rest);
      assert LeftBound(s, Inbound(s, f), src, None);
    }
    UnboundIsFlooded(Inbound(s, f), src, sender, reply);
  }

  // ---------------------------------------------------------------- handles

  /** Ids meet exactly at multiples of 2^32. */
  lemma {:induction false} SameIdIff(a: nat, b: nat)
    requires a <= b
    ensures IdOf(a) == IdOf(b) <==> (b - a) % U32_LIMIT == 0
  {
  }

  /** Main result: at any moment, however many attaches there have been, a handle's drop spares a
      later port exactly when their attaches are no multiple of 2^32 apart. */
  lemma {:induction false} DropSparesIff(s: State, serial: nat, id: nat)
    requires Invariant(s) && id in s.ports && s.ports[id].serial > serial
    ensures id in Next(s, DropHandle(serial)).ports <==> (s.ports[id].serial - serial) % U32_LIMIT != 0
  {
    SameIdIff(serial, s.ports[id].serial);
  }

  /** A port that is spared is untouched, and so is every station bound to it. */
  lemma {:induction false} DropSparesOthers(s: State, serial: nat, id: nat)
    requires Invariant(s) && id in s.ports && s.ports[id].serial > serial
    requires (s.ports[id].serial - serial) % U32_LIMIT != 0
    ensures var s' := Next(s, DropHandle(serial));
            && id in s'.ports && s'.ports[id] == s.ports[id]
            && forall m :: m in s.macs && s.macs[m] == id ==> m in s'.macs && s'.macs[m] == id
  {
    DropSparesIff(s, serial, id);
  }

  /** Any number of whole turns later it takes whoever has its id. */
  lemma {:induction false} DropMeetsItsWrap(s: State, serial: nat, turns: nat)
    requires Invariant(s) && turns > 0
    requires IdOf(serial) in s.ports && s.ports[IdOf(serial)].serial == serial + turns * U32_LIMIT
    ensures IdOf(serial) !in Next(s, DropHandle(serial)).ports
  {
    assert (turns * U32_LIMIT) % U32_LIMIT == 0;
    DropSparesIff(s, serial, IdOf(serial));
  }

  /** Clients that come and go, `n` of them, the first under serial `from`. */
  function Visits(from: nat, n: nat): seq<Event>
    decreases n
  {
    if n == 0 then [] else [Attach(false), DropHandle(from)] + Visits(from + 1, n - 1)
  }

  lemma {:induction false} RunConcat(s: State, a: seq<Event>, b: seq<Event>)
    ensures Run(s, a + b) == Run(Run(s, a), b)
    decreases |a|
  {
    if a == [] {
      assert a + b == b;
    } else {
      assert (a + b)[1..] == a[1..] + b;
      RunConcat(Next(s, a[0]), a[1..], b);
    }
  }

  lemma {:induction false} VisitLeaves(s: State)
    requires s.l2 && s.macs == map[] && IdOf(s.attached) !in s.ports
    ensures Run(s, [Attach(false), DropHandle(s.attached)]) == s.(attached := s.attached + 1)
  {
    var s1 := Next(s, Attach(false));
    var s2 := Next(s1, DropHandle(s.attached));
    assert s2.ports == s.ports && s2.macs == map[];
    assert [Attach(false), DropHandle(s.attached)][1..] == [DropHandle(s.attached)];
    assert Run(s1, [DropHandle(s.attached)]) == Run(s2, []) == s2;
  }

  lemma {:induction false} VisitsLeave(s: State, n: nat)
    requires s.l2 && s.macs == map[] && forall i :: s.attached <= i < s.attached + n ==> IdOf(i) !in s.ports
    ensures Run(s, Visits(s.attached, n)) == s.(attached := s.attached + n)
    decreases n
  {
    if n > 0 {
      VisitLeaves(s);
      RunConcat(s, [Attach(false), DropHandle(s.attached)], Visits(s.attached + 1, n - 1));
      VisitsLeave(s.(attached := s.attached + 1), n - 1);
    }
  }

  /** A run on which it fails: a first client whose handle is held, 2^32 - 1 visitors, one more
      client. Dropping the first handle then takes the last client's port. */
  lemma {:induction false} WrapIsReached(n: nat)
    requires n + 1 == U32_LIMIT
    ensures var s := Run(Fresh(true, false), [Attach(false)] + Visits(1, n) + [Attach(false)]);
            0 in s.ports && s.ports[0].serial == U32_LIMIT && 0 !in Next(s, DropHandle(0)).ports
  {
    var s0, one := Fresh(true, false), [Attach(false)];
    var s1 := Next(s0, Attach(false));
    assert s1.ports.Keys == {0} && s1.attached == 1 && s1.macs == map[];
    assert one[1..] == [] && Run(s0, one) == s1;
    VisitsLeave(s1, n);
    var s2 := s1.(attached := 1 + n);
    RunConcat(s0, one, Visits(1, n));
    RunConcat(s0, one + Visits(1, n), one);
    assert Run(s2, one) == Next(s2, Attach(false));
  }

  /** A dropped handle leaves no port and no station behind it. */
  lemma {:induction false} DropLeavesNothing(s: State, serial: nat)
    ensures var s' := Next(s, DropHandle(serial));
            IdOf(serial) !in s'.ports && forall m :: m in s'.macs ==> s'.macs[m] != IdOf(serial)
  {
  }

  /** On a TUN switch a port is proven or is the newest attach. */
  predicate Newest(s: State) {
    !s.l2 ==> forall id :: id in s.ports ==> s.ports[id].proven || s.ports[id].serial + 1 == s.attached
  }

  lemma {:induction false} OfferNewest(s: State, f: Bytes, ids: set<nat>)
    requires Newest(s)
    ensures Newest(OfferAll(s, f, ids))
  {
  }

  lemma {:induction false} AttachNewest(s: State, proven: bool)
    requires Invariant(s) && Newest(s)
    ensures Newest(Attached(s, proven).0)
  {
    if !s.l2 && Refuses(s) {
      var held :| held in s.ports && s.ports[held].proven;
      OnlyKey(s.ports, held);
    }
  }

  lemma {:induction false} InboundNewest(s: State, f: Bytes)
    requires Newest(s)
    ensures Newest(Inbound(s, f))
  {
    if |s.ports| == 1 {
      OfferNewest(s, f, s.ports.Keys);
    } else {
      match DstSrc(f)
      case None => FloodNewest(s, f);
      case Some((dst, src)) =>
        var s1 := Unlearned(s, src);
        FloodNewest(s1, f);
        if !IsGroup(dst) && dst in s1.macs && s1.macs[dst] in s1.ports {
          UnicastNewest(s1, s1.macs[dst], f);
        }
    }
  }

  lemma {:induction false} FloodNewest(s: State, f: Bytes)
    requires Newest(s)
    ensures Newest(Flooded(s, f, None))
  {
  }

  lemma {:induction false} UnicastNewest(s: State, id: nat, f: Bytes)
    requires Newest(s) && id in s.ports
    ensures Newest(Unicast(s, id, f))
  {
  }

  lemma {:induction false} NextNewest(s: State, e: Event)
    requires Invariant(s) && Newest(s)
    ensures Newest(Next(s, e))
  {
    match e
    case Attach(proven) => AttachNewest(s, proven);
    case FromDevice(frame) => InboundNewest(s, frame);
    case FromPort(frame, serial) =>
      if !s.l2 {
        PlainEgressIsTheDevices(s, frame, IdOf(serial));
      }
    case _ =>
  }

  lemma {:induction false} RunNewest(s: State, es: seq<Event>)
    requires Invariant(s) && Newest(s)
    ensures Newest(Run(s, es))
    decreases |es|
  {
    if es != [] {
      NextKeeps(s, es[0]);
      NextNewest(s, es[0]);
      RunNewest(Next(s, es[0]), es[1..]);
    }
  }

  /** Main result: in every run of a TUN switch, however long, an attach is refused exactly while
      a proven client holds the slot, and an admitted one is the only port, its predecessor gone. */
  lemma {:induction false} TunServesOne(portToPort: bool, es: seq<Event>, proven: bool)
    ensures var s := Run(Fresh(false, portToPort), es);
            var (s', ok) := Attached(s, proven);
            && (ok <==> forall id :: id in s.ports ==> !s.ports[id].proven)
            && (ok ==> s'.ports == map[IdOf(s.attached) := Port([], false, proven, s.attached)])
            && (!ok ==> s'.ports == s.ports)
  {
    var s := Run(Fresh(false, portToPort), es);
    RunKeeps(Fresh(false, portToPort), es);
    RunNewest(Fresh(false, portToPort), es);
    EveryRunKeepsTheTable(false, portToPort, es);
    TunAttach(s, proven);
  }

  lemma {:induction false} TunAttach(s: State, proven: bool)
    requires Invariant(s) && Newest(s) && !s.l2
    ensures var (s', ok) := Attached(s, proven);
            && (ok <==> forall id :: id in s.ports ==> !s.ports[id].proven)
            && (ok ==> s'.ports == map[IdOf(s.attached) := Port([], false, proven, s.attached)])
            && (!ok ==> s'.ports == s.ports)
  {
    forall id | id in s.ports && !s.ports[id].proven
      ensures id != IdOf(s.attached)
    {
      SameIdIff(s.ports[id].serial, s.attached);
    }
  }

  // ---------------------------------------------------------------- the switch itself

  lemma {:induction false} OfferOneMore(ports: map<nat, Port>, f: Bytes, ids: set<nat>, id: nat)
    requires id in ports && id !in ids
    ensures OfferPorts(ports, f, {}) == ports
    ensures OfferPorts(ports, f, ids)[id] == ports[id]
    ensures OfferPorts(ports, f, ids + {id}) == OfferPorts(ports, f, ids)[id := Offered(ports[id], f)]
  {
  }

  lemma {:induction false} EvictOneMore(s: State, ids: set<nat>, id: nat)
    ensures Evict(EvictAll(s, ids), id) == EvictAll(s, ids + {id})
  {
  }

  /** The two maps and the id counter. `attached` and each port's `serial` only name the
      attaches of a run; the code reads the 32-bit counter. */
  class TapSwitch {
    const l2: bool
    const portToPort: bool
    var ports: map<nat, Port>
    var macs: map<Mac, nat>
    var nextPort: nat
    var device: seq<Bytes>
    var attached: nat

    ghost predicate Valid()
      reads this
    {
      nextPort == IdOf(attached)
    }

    function Now(): State
      reads this
    {
      State(l2, portToPort, ports, macs, attached)
    }

    constructor (isL2: bool, p2p: bool)
      ensures Valid() && Now() == Fresh(isL2, p2p) && device == []
    {
      l2, portToPort := isL2, p2p;
      ports, macs, nextPort, device, attached := map[], map[], 0, [], 0;
    }

    method EvictPort(id: nat)
      modifies this`ports, this`macs
      ensures Now() == Evict(old(Now()), id)
    {
      ports := ports - {id};
      macs := map m | m in macs && macs[m] != id :: macs[m];
      assert Now() == Evict(old(Now()), id);
    }

    method Learn(src: Mac, port: nat)
      modifies this`macs
      ensures Now() == Learned(old(Now()), src, port)
    {
      if GroupOrZero(src) {
        return;
      }
      if src in macs {
        macs := macs[src := port];
      } else if |macs| < MAX_MACS_PER_SWITCH {
        macs := macs[src := port];
      }
    }

    method Unlearn(src: Mac)
      modifies this`macs
      ensures Now() == Unlearned(old(Now()), src)
    {
      if !GroupOrZero(src) {
        macs := macs - {src};
      }
    }

    /** `try_send`: false when the client's end of the queue is gone. */
    method TrySend(id: nat, f: Bytes) returns (open: bool)
      requires id in ports
      modifies this`ports
      ensures open == !old(ports[id].closed)
      ensures ports == old(ports)[id := Offered(old(ports[id]), f)]
    {
      open := !ports[id].closed;
      if open && |ports[id].queue| < SWITCH_PORT_CAP {
        ports := ports[id := ports[id].(queue := ports[id].queue + [f])];
      }
    }

    method OfferEach(f: Bytes, targets: set<nat>) returns (closed: set<nat>)
      requires targets <= ports.Keys
      modifies this`ports
      ensures ports == OfferPorts(old(ports), f, targets)
      ensures closed == set id | id in targets && old(ports)[id].closed
    {
      ghost var was := ports;
      closed := {};
      ghost var sent: set<nat> := {};
      var left := targets;
      while left != {}
        invariant sent + left == targets && sent !! left
        invariant closed == set id | id in sent && was[id].closed
        invariant ports == OfferPorts(was, f, sent)
        decreases |left|
      {
        var id :| id in left;
        left := left - {id};
        OfferOneMore(was, f, sent, id);
        sent := sent + {id};
        var open := TrySend(id, f);
        if !open {
          closed := closed + {id};
        }
      }
    }

    method EvictEach(ids: set<nat>)
      modifies this`ports, this`macs
      ensures Now() == EvictAll(old(Now()), ids)
    {
      ghost var s := Now();
      ghost var gone: set<nat> := {};
      var left := ids;
      while left != {}
        invariant gone + left == ids
        invariant Now() == EvictAll(s, gone)
        decreases |left|
      {
        var id :| id in left;
        left := left - {id};
        EvictOneMore(s, gone, id);
        EvictPort(id);
        gone := gone + {id};
      }
    }

    /** Offer to every other port in any order, then evict those found closed. */
    method FloodExcept(f: Bytes, except: Option<nat>)
      modifies this`ports, this`macs
      ensures Now() == Flooded(old(Now()), f, except)
    {
      var targets := Targets(Now(), except);
      var closed := OfferEach(f, targets);
      assert closed == Dead(old(Now()), targets);
      EvictEach(closed);
    }

    method ForwardInboundFrame(dst: Mac, src: Mac, f: Bytes)
      modifies this`ports, this`macs
      ensures Now() == ForwardInbound(old(Now()), dst, src, f)
    {
      Unlearn(src);
      if IsGroup(dst) {
        FloodExcept(f, None);
        return;
      }
      if dst !in macs {
        FloodExcept(f, None);
        return;
      }
      var id := macs[dst];
      if id in ports {
        SendTo(id, f);
      } else {
        FloodExcept(f, None);
      }
    }

    /** To one port, evicting it if its client is gone. */
    method SendTo(id: nat, f: Bytes)
      requires id in ports
      modifies this`ports, this`macs
      ensures Now() == Unicast(old(Now()), id, f)
    {
      ghost var s := Now();
      var open := TrySend(id, f);
      if !open {
        assert Now() == s;
        EvictPort(id);
      }
    }

    /** One pass of the reader loop over a frame read from the device. */
    method ReadFrame(f: Bytes)
      modifies this`ports, this`macs
      ensures Now() == Inbound(old(Now()), f)
    {
      if |ports| == 1 {
        var id :| id in ports;
        OnlyKey(ports, id);
        var _ := TrySend(id, f);
        return;
      }
      match DstSrc(f)
      case Some((dst, src)) => ForwardInboundFrame(dst, src, f);
      case None => FloodExcept(f, None);
    }

    method ForwardEgressFrame(dst: Mac, f: Bytes, from: nat) returns (done: bool)
      modifies this`ports, this`macs
      ensures (Now(), done) == ForwardEgress(old(Now()), dst, f, from)
    {
      if IsGroup(dst) {
        FloodExcept(f, Some(from));
        return false;
      }
      if dst !in macs || macs[dst] == from {
        return false;
      }
      var id := macs[dst];
      if id !in ports {
        return false;
      }
      done := !ports[id].closed;
      SendTo(id, f);
    }

    method LearnAndWriteEgress(f: Bytes, port: nat)
      modifies this`ports, this`macs, this`device
      ensures var (s, written) := Egress(old(Now()), f, port);
              Now() == s && device == old(device) + if written then [f] else []
    {
      var hdr := DstSrc(f);
      if hdr.None? || !l2 {
        device := device + [f];
        return;
      }
      var (dst, src) := hdr.value;
      Learn(src, port);
      if portToPort {
        var done := ForwardEgressFrame(dst, f, port);
        if done {
          return;
        }
      }
      device := device + [f];
    }

    /** Admit a client, or refuse it; a TUN switch's unproven ports give way. */
    method AttachPort(proven: bool) returns (id: Option<nat>)
      requires Valid()
      modifies this`ports, this`macs, this`nextPort, this`attached
      ensures Valid()
      ensures var (s, ok) := Attached(old(Now()), proven);
              Now() == s && id == if ok then Some(old(nextPort)) else None
    {
      var port := nextPort;
      var serial := attached;
      nextPort, attached := (nextPort + 1) % U32_LIMIT, attached + 1;
      var superseded: set<nat> := {};
      if !l2 {
        if exists i :: i in ports && ports[i].proven {
          return None;
        }
        superseded := ports.Keys;
        ports := map[];
      }
      ports := ports[port := Port([], false, proven, serial)];
      EvictEach(superseded);
      id := Some(port);
    }
  }

  lemma {:induction false} OnlyKey<V>(m: map<nat, V>, k: nat)
    requires |m| == 1 && k in m
    ensures m.Keys == {k}
  {
    var rest := m.Keys - {k};
    assert |rest| == 0;
    assert m.Keys == rest + {k};
  }
}
