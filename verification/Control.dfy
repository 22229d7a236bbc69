/** A running client's admin dispatcher: every mutation edits the live maps, the shared target
    and the parsed config together (`src/clientctl.rs`). */
module Control {
  import opened Base
  import opened Secret
  import C = Config
  import K = ConfigCodec
  import T = ActiveTarget

  const DEFAULT_TUN_NAME := "zn0"
  const DEFAULT_PEER_EXIT_NAME := "znx0"
  const DEFAULT_PEER_SEGMENT_NAME := "zns0"
  const PPPOE_TUN_NAME := "zppp0"

  // ---------------------------------------------------------------- live views of a config

  datatype Fwd = Fwd(target: string, proxy: bool, idle: Option<nat>, enabled: bool)

  type ForwardKey = (Proto, nat)

  function KeyOf(f: C.Forward): ForwardKey {
    (f.proto, f.port)
  }

  function FwdOf(f: C.Forward): Fwd {
    Fwd(f.target, f.proxy, f.idle, f.enabled)
  }

  function ForwardMap(fs: seq<C.Forward>): map<ForwardKey, Fwd> {
    if fs == [] then map[] else ForwardMap(fs[..|fs| - 1])[KeyOf(fs[|fs| - 1]) := FwdOf(fs[|fs| - 1])]
  }

  function Norm(s: string): string {
    match Normalize(s) case Some(n) => n case None => s
  }

  /** A server as it is dialled, its keys in canonical hex. */
  function TargetOf(s: C.Server): T.Target {
    T.Target(s.name, s.addr, Norm(s.secret), Norm(s.credential),
             match s.discovery case Some(d) => Some(Norm(d)) case None => None, s.transport)
  }

  function Targets(ss: seq<C.Server>): (ts: seq<T.Target>)
    ensures |ts| == |ss| && forall i :: 0 <= i < |ss| ==> ts[i] == TargetOf(ss[i])
  {
    if ss == [] then [] else Targets(ss[..|ss| - 1]) + [TargetOf(ss[|ss| - 1])]
  }

  /** The first profile of a name. */
  function Find(ts: seq<T.Target>, name: string): (t: Option<T.Target>)
    ensures t.Some? ==> t.value in ts && t.value.name == name
    ensures t.None? ==> forall i :: 0 <= i < |ts| ==> ts[i].name != name
  {
    if ts == [] then None else if ts[0].name == name then Some(ts[0]) else Find(ts[1..], name)
  }

  function Allowed(allow: seq<string>): seq<Bytes> {
    if allow == [] then []
    else Allowed(allow[..|allow| - 1]) + match Decode(allow[|allow| - 1]) case Some(b) => [b] case None => []
  }

  function ConsumerSlot(t: C.Tun): T.SlotSpec
    requires t.exitVia.Some?
  {
    T.Consumer(t.exitVia.value, PROVIDES_EXIT, K.Or(t.dev, DEFAULT_TUN_NAME), t.exit, t.exitStrict)
  }

  function ExitSlot(p: C.Peer): T.SlotSpec {
    T.Provider(PROVIDES_EXIT, T.ExitTun(DEFAULT_PEER_EXIT_NAME, p.exitIface), Allowed(p.allow))
  }

  function SegmentSlot(p: C.Peer): T.SlotSpec
    requires p.segment.Some?
  {
    T.Provider(PROVIDES_SEGMENT, T.SegmentTap(DEFAULT_PEER_SEGMENT_NAME, p.segment.value), Allowed(p.allow))
  }

  /** A provider's records that can be opened at all. */
  predicate ProviderOk(p: C.Peer) {
    && C.AllowOk(p)
    && !(p.exit && p.exitIface == Some(DEFAULT_PEER_EXIT_NAME))
    && p.segment != Some(DEFAULT_PEER_SEGMENT_NAME)
  }

  function ConsumerSlots(tun: Option<C.Tun>): seq<T.SlotSpec> {
    if C.ForPeer(tun) then [ConsumerSlot(tun.value)] else []
  }

  function ProviderSlots(p: C.Peer): seq<T.SlotSpec> {
    (if p.exit then [ExitSlot(p)] else []) + if p.segment.Some? then [SegmentSlot(p)] else []
  }

  /** One slot per role the two tables take on. */
  function PeerSlots(tun: Option<C.Tun>, peer: Option<C.Peer>): Option<seq<T.SlotSpec>> {
    match peer
    case None => Some(ConsumerSlots(tun))
    case Some(p) => if ProviderOk(p) then Some(ConsumerSlots(tun) + ProviderSlots(p)) else None
  }

  function DeriveMode(forwards: map<ForwardKey, Fwd>, fallback: T.RunMode): T.RunMode {
    if forwards != map[] then T.Forwards else fallback
  }

  // ---------------------------------------------------------------- the dispatcher's state

  datatype Ctl = Ctl(cfg: C.Config, forwards: map<ForwardKey, Fwd>, servers: seq<T.Target>, active: T.Active,
                     pppoe: seq<(string, T.PppoeRun)>, fallback: T.RunMode, hasPeerSecret: bool)

  function BootMode(c: Ctl): T.RunMode {
    DeriveMode(c.forwards, c.fallback)
  }

  function BaseMode(c: Ctl): T.RunMode {
    DeriveMode(c.forwards, T.Idle)
  }

  function PppoeRuns(ps: seq<C.Pppoe>): seq<(string, T.PppoeRun)> {
    if ps == [] then []
    else
      var p := ps[|ps| - 1];
      PppoeRuns(ps[..|ps| - 1]) + [(p.name, T.PppoeRun(PPPOE_TUN_NAME, p.defaultRoute))]
  }

  function Autostart(ps: seq<C.Pppoe>): Option<C.Pppoe> {
    if ps == [] then None else if ps[0].autostart then Some(ps[0]) else Autostart(ps[1..])
  }

  /** The boot chain without its forwards arm: the autostart session, else the device, else idle. */
  function FallbackOf(c: C.Config): T.RunMode {
    match Autostart(c.pppoe)
    case Some(p) => T.Pppoe(p.name, T.PppoeRun(PPPOE_TUN_NAME, p.defaultRoute))
    case None =>
      if C.ForServer(c.tun) then
        var tun := c.tun.value;
        T.Device(T.TunDevice(K.Or(tun.dev, DEFAULT_TUN_NAME), tun.exit, tun.exitStrict))
      else if c.tap.Some? then T.Device(T.TapDevice(c.tap.value, None))
      else T.Idle
  }

  function ActiveServer(c: C.Config): Option<T.Target> {
    match c.active
    case Some(name) => Find(Targets(c.servers), name)
    case None => if c.servers == [] then None else Some(TargetOf(c.servers[0]))
  }

  /** A file-sourced boot, refused when there is nothing to dial or the slots contend. */
  function Boot(c: C.Config): Option<Ctl> {
    var target, slots := ActiveServer(c), PeerSlots(c.tun, c.peer);
    if target.None? || slots.None? then None
    else
      var forwards, fallback := ForwardMap(c.forwards), FallbackOf(c);
      var (active, ok) := T.InitSlots(T.New(target.value), slots.value, DeriveMode(forwards, fallback));
      if !ok then None
      else Some(Ctl(c, forwards, Targets(c.servers), active, PppoeRuns(c.pppoe), fallback, c.peerSecret.Some?))
  }

  // ---------------------------------------------------------------- the mutations

  datatype Mutation =
    | SelectServer(name: string)
    | SetForwardOptions(proto: Proto, port: nat, enabled: bool, proxy: bool, idleSecs: nat)
    | SpawnPppoe(name: string)
    | StopSession(name: string)
    | AddServer(name: string, addr: string, secret: string, transport: Transport)
    | RemoveServer(name: string)
    | ConnectTo(name: string)
    | Disconnect
    | AddForward(proto: Proto, port: nat, target: string, proxy: bool, idleSecs: nat, enabled: bool)
    | RemoveForward(proto: Proto, port: nat)
    | AttachPeer(peerId: string, want: byte, dev: string, exit: bool, exitStrict: bool, iface: string)
    | DetachPeer(peerId: string, want: byte)

  /** What the wire's integer widths already bound. */
  predicate OnTheWire(m: Mutation) {
    match m
    case SetForwardOptions(_, port, _, _, idle) => port < U16_LIMIT && idle < U32_LIMIT
    case AddForward(_, port, _, _, idle, _) => port < U16_LIMIT && idle < U32_LIMIT
    case _ => true
  }

  predicate IsControl(c: char) {
    c < ' ' || '\U{7f}' <= c <= '\U{9f}'
  }

  predicate HasControl(s: string) {
    exists i :: 0 <= i < |s| && IsControl(s[i])
  }

  predicate Undialable(t: T.Target, dht: bool) {
    t.addr == "dht" && (!dht || t.discovery.None?)
  }

  function SelectServerIn(c: Ctl, name: string, dht: bool): (Ctl, bool) {
    match Find(c.servers, name)
    case None => (c, false)
    case Some(t) =>
      if Undialable(t, dht) then (c, false)
      else (c.(active := T.SwitchTo(c.active, t), cfg := c.cfg.(active := Some(name))), true)
  }

  function IdleOf(secs: nat): Option<nat> {
    if secs == 0 then None else Some(secs)
  }

  /** The first entry of a key in the declared list. */
  function IndexOf(fs: seq<C.Forward>, k: ForwardKey): (i: Option<nat>)
    ensures i.Some? ==> i.value < |fs| && KeyOf(fs[i.value]) == k
    ensures i.None? ==> forall j :: 0 <= j < |fs| ==> KeyOf(fs[j]) != k
  {
    if fs == [] then None
    else if KeyOf(fs[0]) == k then Some(0)
    else match IndexOf(fs[1..], k) case Some(i) => Some(i + 1) case None => None
  }

  function SetForwardOptionsIn(c: Ctl, m: Mutation): (Ctl, bool)
    requires m.SetForwardOptions?
  {
    var k := (m.proto, m.port);
    if m.proxy && m.proto == Udp then (c, false)
    else if k !in c.forwards then (c, false)
    else
      var live := c.forwards[k := c.forwards[k].(enabled := m.enabled, proxy := m.proxy, idle := IdleOf(m.idleSecs))];
      var fs := c.cfg.forwards;
      var declared := match IndexOf(fs, k)
        case Some(i) => fs[i := fs[i].(enabled := m.enabled, proxy := m.proxy, idle := IdleOf(m.idleSecs))]
        case None => fs;
      (c.(forwards := live, cfg := c.cfg.(forwards := declared)), true)
  }

  function FindSession(ps: seq<(string, T.PppoeRun)>, name: string): Option<T.PppoeRun> {
    if ps == [] then None else if ps[0].0 == name then Some(ps[0].1) else FindSession(ps[1..], name)
  }

  function SpawnPppoeIn(c: Ctl, name: string): (Ctl, bool) {
    match FindSession(c.pppoe, name)
    case None => (c, false)
    case Some(config) =>
      var (a, ok) := T.SetMode(c.active, T.Pppoe(name, config));
      (c.(active := a), ok)
  }

  function StopSessionIn(c: Ctl, name: string): (Ctl, bool) {
    var (a, ok) := T.StopPppoe(c.active, name, BaseMode(c));
    (c.(active := a), ok)
  }

  /** `host:port`, the host not empty and the port a non-zero 16-bit number. */
  function LastColon(s: string): Option<nat> {
    if s == [] then None else if s[|s| - 1] == ':' then Some(|s| - 1) else LastColon(s[..|s| - 1])
  }

  function PortOf(s: string): Option<nat> {
    K.Unsigned(s, U16_LIMIT)
  }

  predicate ValidHostPort(s: string) {
    match LastColon(s)
    case None => false
    case Some(i) => 0 < i < |s| && PortOf(s[i + 1..]).Some? && PortOf(s[i + 1..]).value != 0
  }

  /** Some profile's discovery credential is this key. */
  predicate IsDiscovery(ts: seq<T.Target>, k: Option<Bytes>) {
    exists i :: 0 <= i < |ts| && ts[i].discovery.Some?
                && Decode(ts[i].discovery.value).Some? && Decode(ts[i].discovery.value) == k
  }

  function AddServerIn(c: Ctl, m: Mutation): (Ctl, bool)
    requires m.AddServer?
  {
    if m.name == "" || HasControl(m.name) || HasControl(m.addr) || HasControl(m.secret) then (c, false)
    else
      match Normalize(m.secret)
      case None => (c, false)
      case Some(secret) =>
        if m.addr == "dht" || !ValidHostPort(m.addr) || IsDiscovery(c.servers, Decode(secret)) then (c, false)
        else if Find(c.servers, m.name).Some? then (c, false)
        else
          var target := T.Target(m.name, m.addr, secret, secret, None, m.transport);
          var entry := C.Server(m.name, m.addr, None, secret, secret, None, m.transport);
          (c.(servers := c.servers + [target], cfg := c.cfg.(servers := c.cfg.servers + [entry])), true)
  }

  function DropTarget(ts: seq<T.Target>, name: string): seq<T.Target> {
    if ts == [] then []
    else DropTarget(ts[..|ts| - 1], name) + if ts[|ts| - 1].name == name then [] else [ts[|ts| - 1]]
  }

  function DropServer(ss: seq<C.Server>, name: string): seq<C.Server> {
    if ss == [] then []
    else DropServer(ss[..|ss| - 1], name) + if ss[|ss| - 1].name == name then [] else [ss[|ss| - 1]]
  }

  function RemoveServerIn(c: Ctl, name: string): (Ctl, bool) {
    if c.active.target.name == name then (c, false)
    else if |DropTarget(c.servers, name)| == |c.servers| then (c, false)
    else (c.(servers := DropTarget(c.servers, name), cfg := c.cfg.(servers := DropServer(c.cfg.servers, name))), true)
  }

  /** An empty name is the current target; only a named connect is recorded. */
  function ConnectIn(c: Ctl, name: string, dht: bool): (Ctl, bool) {
    var target := if name == "" then None else Find(c.servers, name);
    if name != "" && (target.None? || Undialable(target.value, dht)) then (c, false)
    else
      var (a, ok) := T.Connect(c.active, target, BootMode(c));
      if !ok then (c, false)
      else (c.(active := a, cfg := if name == "" then c.cfg else c.cfg.(active := Some(name))), true)
  }

  function AddForwardIn(c: Ctl, m: Mutation): (Ctl, bool)
    requires m.AddForward?
  {
    var target := if m.target == "" then K.DefaultTarget(m.port) else m.target;
    var k := (m.proto, m.port);
    if (m.proxy && m.proto == Udp) || !ValidHostPort(target) || HasControl(target) then (c, false)
    else if c.fallback.Device? || k in c.forwards then (c, false)
    else
      var f := C.Forward(m.proto, m.port, target, m.proxy, IdleOf(m.idleSecs), m.enabled);
      (c.(forwards := c.forwards[k := FwdOf(f)], cfg := c.cfg.(forwards := c.cfg.forwards + [f])), true)
  }

  function DropForward(fs: seq<C.Forward>, k: ForwardKey): seq<C.Forward> {
    if fs == [] then []
    else DropForward(fs[..|fs| - 1], k) + if KeyOf(fs[|fs| - 1]) == k then [] else [fs[|fs| - 1]]
  }

  function RemoveForwardIn(c: Ctl, k: ForwardKey): (Ctl, bool) {
    if k !in c.forwards then (c, false)
    else (c.(forwards := c.forwards - {k}, cfg := c.cfg.(forwards := DropForward(c.cfg.forwards, k))), true)
  }

  /** A consumer and a provider may each set their own fields only. */
  predicate AttachFields(m: Mutation)
    requires m.AttachPeer?
  {
    if m.peerId == "" then
      && m.dev == "" && !m.exit && !m.exitStrict
      && (m.want == PROVIDES_EXIT || (m.want == PROVIDES_SEGMENT && m.iface != ""))
    else
      && Decode(m.peerId).Some? && m.iface == "" && m.want == PROVIDES_EXIT
      && (m.exitStrict ==> m.exit)
  }

  function OptOf(s: string): Option<string> {
    if s == "" then None else Some(s)
  }

  /** The record a consumer attach saves. */
  function ConsumerRecord(m: Mutation): C.Tun
    requires m.AttachPeer?
  {
    C.Tun(OptOf(m.dev), None, m.exit, m.exitStrict, Some(m.peerId))
  }

  /** The record a provider attach is derived from: its own capability and the saved allowlist. */
  function ProviderRecord(c: Ctl, m: Mutation): C.Peer
    requires m.AttachPeer?
  {
    var allow := match c.cfg.peer case Some(p) => p.allow case None => [];
    if m.want == PROVIDES_EXIT then C.Peer(true, OptOf(m.iface), None, allow)
    else C.Peer(false, None, Some(m.iface), allow)
  }

  /** The saved table with an attached provider's keys in it. */
  function MergePeer(saved: Option<C.Peer>, r: C.Peer): C.Peer {
    var p := K.Or(saved, C.NO_PEER);
    var p := if r.exit then p.(exit := true, exitIface := r.exitIface) else p;
    if r.segment.Some? then p.(segment := r.segment) else p
  }

  function AttachConsumerIn(c: Ctl, m: Mutation): (Ctl, bool)
    requires m.AttachPeer?
  {
    if c.fallback.Device? && c.fallback.device.TunDevice? then (c, false)
    else
      var (a, ok) := T.AttachPeer(c.active, ConsumerSlot(ConsumerRecord(m)), BootMode(c));
      if !ok then (c, false) else (c.(active := a, cfg := c.cfg.(tun := Some(ConsumerRecord(m)))), true)
  }

  function AttachProviderIn(c: Ctl, m: Mutation): (Ctl, bool)
    requires m.AttachPeer? && AttachFields(m) && m.peerId == ""
  {
    var r := ProviderRecord(c, m);
    if !ProviderOk(r) then (c, false)
    else
      var spec := if r.exit then ExitSlot(r) else SegmentSlot(r);
      var (a, ok) := T.AttachPeer(c.active, spec, BootMode(c));
      if !ok then (c, false) else (c.(active := a, cfg := c.cfg.(peer := Some(MergePeer(c.cfg.peer, r)))), true)
  }

  function AttachPeerIn(c: Ctl, m: Mutation): (Ctl, bool)
    requires m.AttachPeer?
  {
    if HasControl(m.peerId) || HasControl(m.dev) || HasControl(m.iface) then (c, false)
    else if !c.hasPeerSecret || !AttachFields(m) then (c, false)
    else if m.peerId != "" then AttachConsumerIn(c, m)
    else AttachProviderIn(c, m)
  }

  /** A `[peer]` table that declares nothing is dropped. */
  function ClearPeer(saved: Option<C.Peer>, want: byte): Option<C.Peer> {
    match saved
    case None => None
    case Some(p) =>
      var p := if want == PROVIDES_EXIT then p.(exit := false, exitIface := None) else p.(segment := None);
      if p == C.NO_PEER then None else Some(p)
  }

  function DetachPeerIn(c: Ctl, peerId: string, want: byte): (Ctl, bool) {
    if want != PROVIDES_EXIT && want != PROVIDES_SEGMENT then (c, false)
    else
      var (a, ok) := T.DetachPeer(c.active, peerId, want);
      if !ok then (c, false)
      else
        var cfg := if peerId == "" then c.cfg.(peer := ClearPeer(c.cfg.peer, want)) else c.cfg.(tun := None);
        (c.(active := a, cfg := cfg), true)
  }

  function DisconnectIn(c: Ctl): (Ctl, bool) {
    var (a, ok) := T.Disconnect(c.active);
    (c.(active := a), ok)
  }

  /** What a message dispatches to. `dht` is whether this build can dial a DHT profile. */
  function Handler(m: Mutation, dht: bool): Ctl -> (Ctl, bool) {
    match m
    case SelectServer(name) => (c: Ctl) => SelectServerIn(c, name, dht)
    case SetForwardOptions(_, _, _, _, _) => (c: Ctl) => SetForwardOptionsIn(c, m)
    case SpawnPppoe(name) => (c: Ctl) => SpawnPppoeIn(c, name)
    case StopSession(name) => (c: Ctl) => StopSessionIn(c, name)
    case AddServer(_, _, _, _) => (c: Ctl) => AddServerIn(c, m)
    case RemoveServer(name) => (c: Ctl) => RemoveServerIn(c, name)
    case ConnectTo(name) => (c: Ctl) => ConnectIn(c, name, dht)
    case Disconnect => (c: Ctl) => DisconnectIn(c)
    case AddForward(_, _, _, _, _, _) => (c: Ctl) => AddForwardIn(c, m)
    case RemoveForward(proto, port) => (c: Ctl) => RemoveForwardIn(c, (proto, port))
    case AttachPeer(_, _, _, _, _, _) => (c: Ctl) => AttachPeerIn(c, m)
    case DetachPeer(peerId, want) => (c: Ctl) => DetachPeerIn(c, peerId, want)
  }

  /** One admin mutation up to its save, and whether it was accepted. */
  function Apply(c: Ctl, m: Mutation, dht: bool): (Ctl, bool) {
    Handler(m, dht)(c)
  }

  /** A mutation that is not accepted changes nothing at all. */
  lemma {:induction false} RefusedChangesNothing(c: Ctl, m: Mutation, dht: bool)
    requires !Apply(c, m, dht).1
    ensures Apply(c, m, dht).0 == c
    ensures forall inTime :: Answer(c, Request(m, inTime), dht).0 == c
  {
  }

  // ---------------------------------------------------------------- whole exchanges

  /** What an accepted mutation leaves for after its save. */
  datatype After = Nothing | KickIfForwards | ServeForwards | PairsLater

  /** `c` is the state the mutation left. */
  function AfterOf(c: Ctl, m: Mutation): After {
    match m
    case SetForwardOptions(_, _, _, _, _) => KickIfForwards
    case RemoveForward(_, _) => KickIfForwards
    case AddForward(_, _, _, _, _, _) => ServeForwards
    case AttachPeer(_, _, _, _, _, _) => if c.active.mode.Forwards? || c.active.mode.Idle? then Nothing else PairsLater
    case _ => Nothing
  }

  function Follow(c: Ctl, a: After): Ctl {
    match a
    case KickIfForwards => c.(active := T.KickIfForwards(c.active))
    case ServeForwards => c.(active := T.ServeForwards(c.active))
    case _ => c
  }

  /** One exchange with an admin. They come one at a time; `inTime` is whether the save came
      back, well or badly, before the exchange was given up. */
  datatype Request = Request(m: Mutation, inTime: bool)

  function Answer(c: Ctl, r: Request, dht: bool): (Ctl, bool) {
    var (c', ok) := Apply(c, r.m, dht);
    (if ok && r.inTime then Follow(c', AfterOf(c', r.m)) else c', ok)
  }

  function AnswerAll(c: Ctl, rs: seq<Request>, dht: bool): Ctl
    decreases |rs|
  {
    if rs == [] then c else AnswerAll(Answer(c, rs[0], dht).0, rs[1..], dht)
  }
}
