/** The client config file as tables of ordered keys: parsing, serializing, and the trip there
    and back (`src/clientcfg.rs`, `src/config/codec.rs`). */
module ConfigCodec {
  import opened Base
  import opened Secret
  import opened Config

  // ---------------------------------------------------------------- tables

  datatype Value =
    | Str(s: string)
    | Num(n: nat)
    | Bool(b: bool)
    | Addr(cidr: Cidr)
    | Strs(ss: seq<string>)

  datatype Key =
    | KId | KPeerSecret | KActive | KControl
    | KName | KAddr | KSeed | KSecret | KCredential | KDiscovery | KTransport
    | KProto | KPort | KTarget | KEnabled | KProxy | KIdle
    | KAutostart | KUsername | KPassword | KPasswordFile | KService | KMtu | KDefaultRoute | KClampMss | KRequestDns
    | KDev | KAddress | KExit | KExitStrict | KExitVia | KExitIface | KSegment | KAllow

  datatype Header = HClient | HServers | HForwards | HPppoe | HTap | HTun | HPeer

  type Record = seq<(Key, Value)>

  datatype Table = Table(header: Header, record: Record)

  predicate Single(h: Header) {
    !(h.HServers? || h.HForwards? || h.HPppoe?)
  }

  datatype Kind = StrKind | BoolKind | IntKind | IdleKind | ProtoKind | TransportKind | CidrKind | ListKind

  /** The grammar: which keys a table takes, and of what kind. */
  function KindOf(h: Header, k: Key): Option<Kind> {
    match h
    case HClient => if k.KId? || k.KPeerSecret? || k.KActive? || k.KControl? then Some(StrKind) else None
    case HServers =>
      if k.KName? || k.KAddr? || k.KSeed? || k.KSecret? || k.KCredential? || k.KDiscovery? then Some(StrKind)
      else if k.KTransport? then Some(TransportKind) else None
    case HForwards =>
      if k.KProto? then Some(ProtoKind) else if k.KPort? then Some(IntKind) else if k.KTarget? then Some(StrKind)
      else if k.KProxy? || k.KEnabled? then Some(BoolKind) else if k.KIdle? then Some(IdleKind) else None
    case HPppoe =>
      if k.KName? || k.KUsername? || k.KPassword? || k.KPasswordFile? || k.KService? then Some(StrKind)
      else if k.KAutostart? || k.KDefaultRoute? || k.KClampMss? || k.KRequestDns? then Some(BoolKind)
      else if k.KMtu? then Some(IntKind) else None
    case HTap => if k.KDev? then Some(StrKind) else None
    case HTun =>
      if k.KDev? || k.KExitVia? then Some(StrKind) else if k.KAddress? then Some(CidrKind)
      else if k.KExit? || k.KExitStrict? then Some(BoolKind) else None
    case HPeer =>
      if k.KExit? then Some(BoolKind) else if k.KExitIface? || k.KSegment? then Some(StrKind)
      else if k.KAllow? then Some(ListKind) else None
  }

  predicate CidrOk(a: Cidr) {
    a.ip < U32_LIMIT && a.len <= 32
  }

  predicate AllLexable(ss: seq<string>) {
    forall i :: 0 <= i < |ss| ==> Lexable(ss[i])
  }

  /** A value of the kind its key wants; strings hold no control characters. */
  predicate Takes(kind: Kind, v: Value) {
    match kind
    case StrKind => v.Str? && Lexable(v.s)
    case BoolKind => v.Bool?
    case IntKind => v.Num? && v.n < U16_LIMIT
    case IdleKind => v.Num? && 1 <= v.n < U32_LIMIT
    case ProtoKind => v.Str? && (v.s == "tcp" || v.s == "udp")
    case TransportKind => v.Str? && (v.s == "auto" || v.s == "udp" || v.s == "tcp")
    case CidrKind => v.Addr? && CidrOk(v.cidr)
    case ListKind => v.Strs? && AllLexable(v.ss)
  }

  predicate Typed(h: Header, r: Record) {
    forall i :: 0 <= i < |r| ==> KindOf(h, r[i].0).Some? && Takes(KindOf(h, r[i].0).value, r[i].1)
  }

  predicate NoRepeats(r: Record) {
    forall i, j :: 0 <= i < j < |r| ==> r[i].0 != r[j].0
  }

  /** The first value of each key. */
  function Filed(r: Record): map<Key, Value> {
    if r == [] then map[] else Filed(r[1..])[r[0].0 := r[0].1]
  }

  function Lookup(r: Record, k: Key): Option<Value> {
    var m := Filed(r);
    if k in m then Some(m[k]) else None
  }

  function GetStr(r: Record, k: Key): Option<string> {
    match Lookup(r, k) case Some(Str(s)) => Some(s) case _ => None
  }

  function GetBool(r: Record, k: Key): Option<bool> {
    match Lookup(r, k) case Some(Bool(b)) => Some(b) case _ => None
  }

  function GetNum(r: Record, k: Key): Option<nat> {
    match Lookup(r, k) case Some(Num(n)) => Some(n) case _ => None
  }

  function GetCidr(r: Record, k: Key): Option<Cidr> {
    match Lookup(r, k) case Some(Addr(a)) => Some(a) case _ => None
  }

  function GetStrs(r: Record, k: Key): Option<seq<string>> {
    match Lookup(r, k) case Some(Strs(ss)) => Some(ss) case _ => None
  }

  function Or<T>(o: Option<T>, d: T): T {
    match o case Some(v) => v case None => d
  }

  // ---------------------------------------------------------------- parsing

  /** The config so far, the servers whose credential waits for the client id, and the single
      tables already met. */
  datatype Parsing = Parsing(cfg: Config, seeded: seq<(nat, Bytes)>, seen: set<Header>)

  const START: Parsing := Parsing(EMPTY, [], {})

  function CloseClient(st: Parsing, r: Record): Parsing {
    st.(cfg := st.cfg.(id := GetStr(r, KId), peerSecret := GetStr(r, KPeerSecret),
                       active := GetStr(r, KActive), control := GetStr(r, KControl)))
  }

  function TransportOf(s: string): Transport {
    if s == "udp" then DialUdp else if s == "tcp" then DialTcp else DialAuto
  }

  /** A seed fills what the entry leaves out. The credential names the client id, which may be
      declared later, so the secret stands in for it until the whole file is read. */
  function CloseServer(h: Derivation, st: Parsing, r: Record): Option<Parsing> {
    var name, addr, hex := GetStr(r, KName), GetStr(r, KAddr), GetStr(r, KSeed);
    var seed := match hex case Some(x) => Decode(x) case None => None;
    if name.None? || name.value == "" || addr.None? || (hex.Some? && seed.None?) then None
    else if GetStr(r, KSecret).None? && seed.None? then None
    else
      var secret := match GetStr(r, KSecret) case Some(s) => s case None => Network(h, seed.value);
      var discovery :=
        if GetStr(r, KDiscovery).Some? then GetStr(r, KDiscovery)
        else if seed.Some? then Some(Discovery(h, seed.value)) else None;
      var explicit := GetStr(r, KCredential);
      var transport := match GetStr(r, KTransport) case Some(t) => TransportOf(t) case None => DialAuto;
      var server := Server(name.value, addr.value, hex, secret, Or(explicit, secret), discovery, transport);
      var seeded := if explicit.None? && seed.Some? then st.seeded + [(|st.cfg.servers|, seed.value)] else st.seeded;
      Some(st.(cfg := st.cfg.(servers := st.cfg.servers + [server]), seeded := seeded))
  }

  /** The decimal rendering of a number. */
  function Decimal(n: nat): string {
    if n < 10 then [(n + 48) as char] else Decimal(n / 10) + [(n % 10 + 48) as char]
  }

  function Digits(s: string): Option<nat> {
    if s == [] then Some(0)
    else if !('0' <= s[|s| - 1] <= '9') then None
    else match Digits(s[..|s| - 1]) case Some(n) => Some(10 * n + (s[|s| - 1] as nat - '0' as nat)) case None => None
  }

  /** The number a text gives below a limit: digits, after at most one plus sign. */
  function Unsigned(s: string, limit: nat): Option<nat> {
    var digits := if s != [] && s[0] == '+' then s[1..] else s;
    if digits == [] then None
    else match Digits(digits) case Some(n) => (if n < limit then Some(n) else None) case None => None
  }

  function DefaultTarget(port: nat): string {
    "127.0.0.1:" + Decimal(port)
  }

  function CloseForward(st: Parsing, r: Record): Option<Parsing> {
    var proto, port := GetStr(r, KProto), GetNum(r, KPort);
    if proto.None? || port.None? || (GetBool(r, KProxy).Some? && proto.value == "udp") then None
    else
      var f := Forward(if proto.value == "udp" then Udp else Tcp, port.value,
                       Or(GetStr(r, KTarget), DefaultTarget(port.value)), Or(GetBool(r, KProxy), false),
                       GetNum(r, KIdle), Or(GetBool(r, KEnabled), true));
      Some(st.(cfg := st.cfg.(forwards := st.cfg.forwards + [f])))
  }

  function ClosePppoe(st: Parsing, r: Record): Option<Parsing> {
    var name, username := GetStr(r, KName), GetStr(r, KUsername);
    var defaultRoute := Or(GetBool(r, KDefaultRoute), false);
    if name.None? || name.value == "" || username.None? then None
    else if GetBool(r, KClampMss) == Some(false) && !defaultRoute then None
    else
      var p := Pppoe(name.value, Or(GetBool(r, KAutostart), false), username.value, GetStr(r, KPassword),
                     GetStr(r, KPasswordFile), Or(GetStr(r, KService), ""), Or(GetNum(r, KMtu), 1492),
                     defaultRoute, Or(GetBool(r, KClampMss), true), Or(GetBool(r, KRequestDns), false));
      Some(st.(cfg := st.cfg.(pppoe := st.cfg.pppoe + [p])))
  }

  function CloseTap(st: Parsing, r: Record): Option<Parsing> {
    var dev := GetStr(r, KDev);
    if dev.None? || dev.value == "" then None else Some(st.(cfg := st.cfg.(tap := dev)))
  }

  function CloseTun(st: Parsing, r: Record): Option<Parsing> {
    var exit, strict, via := Or(GetBool(r, KExit), false), Or(GetBool(r, KExitStrict), false), GetStr(r, KExitVia);
    if (strict && !exit) || via == Some("") then None
    else Some(st.(cfg := st.cfg.(tun := Some(Tun(GetStr(r, KDev), GetCidr(r, KAddress), exit, strict, via)))))
  }

  function ClosePeer(st: Parsing, r: Record): Option<Parsing> {
    var exit, iface, segment := Or(GetBool(r, KExit), false), GetStr(r, KExitIface), GetStr(r, KSegment);
    if segment == Some("") || iface == Some("") || (iface.Some? && !exit) then None
    else Some(st.(cfg := st.cfg.(peer := Some(Peer(exit, iface, segment, Or(GetStrs(r, KAllow), []))))))
  }

  function Close(h: Derivation, st: Parsing, t: Table): Option<Parsing> {
    match t.header
    case HClient => Some(CloseClient(st, t.record))
    case HServers => CloseServer(h, st, t.record)
    case HForwards => CloseForward(st, t.record)
    case HPppoe => ClosePppoe(st, t.record)
    case HTap => CloseTap(st, t.record)
    case HTun => CloseTun(st, t.record)
    case HPeer => ClosePeer(st, t.record)
  }

  /** One table: a second single table, a key twice, an unknown key or a wrong kind is refused. */
  function Take(h: Derivation, st: Parsing, t: Table): Option<Parsing> {
    if Single(t.header) && t.header in st.seen then None
    else if !NoRepeats(t.record) || !Typed(t.header, t.record) then None
    else Close(h, st.(seen := if Single(t.header) then st.seen + {t.header} else st.seen), t)
  }

  function ParseTables(h: Derivation, file: seq<Table>): Option<Parsing> {
    if file == [] then Some(START)
    else
      match ParseTables(h, file[..|file| - 1])
      case None => None
      case Some(st) => Take(h, st, file[|file| - 1])
  }

  /** The waiting credentials, once the client id is known. */
  function Fill(h: Derivation, id: string, ss: seq<Server>, seeded: seq<(nat, Bytes)>): (r: seq<Server>)
    ensures |r| == |ss|
  {
    if seeded == [] then ss
    else
      var (i, seed) := seeded[|seeded| - 1];
      var ss := Fill(h, id, ss, seeded[..|seeded| - 1]);
      if i < |ss| then ss[i := ss[i].(credential := Client(h, seed, id))] else ss
  }

  function Parse(h: Derivation, file: seq<Table>): Option<Config> {
    match ParseTables(h, file)
    case None => None
    case Some(st) =>
      if st.seeded == [] then Some(st.cfg)
      else if st.cfg.id.None? then None
      else Some(st.cfg.(servers := Fill(h, st.cfg.id.value, st.cfg.servers, st.seeded)))
  }

  // ---------------------------------------------------------------- serializing

  /** A table's keys as they are appended: those that have a value, in order. */
  function Present(opts: seq<(Key, Option<Value>)>): Record {
    if opts == [] then []
    else (match opts[0].1 case Some(v) => [(opts[0].0, v)] case None => []) + Present(opts[1..])
  }

  function OptStr(o: Option<string>): Option<Value> {
    match o case Some(s) => Some(Str(s)) case None => None
  }

  function Unless(skip: bool, v: Value): Option<Value> {
    if skip then None else Some(v)
  }

  function TransportStr(t: Transport): string {
    match t case DialAuto => "auto" case DialUdp => "udp" case DialTcp => "tcp"
  }

  /** The seed of a server whose credential the seed and the client id derive. */
  function Elided(h: Derivation, id: Option<string>, s: Server): Option<Bytes> {
    var seed := SeedOf(s);
    if seed.Some? && id.Some? && Client(h, seed.value, id.value) == s.credential then seed else None
  }

  function SeedOf(s: Server): Option<Bytes> {
    match s.seed case Some(x) => Decode(x) case None => None
  }

  function ClientOpts(c: Config): seq<(Key, Option<Value>)> {
    [(KId, OptStr(c.id)), (KPeerSecret, OptStr(c.peerSecret)), (KActive, OptStr(c.active)),
     (KControl, OptStr(c.control))]
  }

  /** Keys whose values the seed gives back are not written. */
  function ServerOpts(h: Derivation, id: Option<string>, s: Server): seq<(Key, Option<Value>)> {
    var seed := SeedOf(s);
    var derivedSecret := seed.Some? && Network(h, seed.value) == s.secret;
    var derivedDiscovery := seed.Some? && s.discovery == Some(Discovery(h, seed.value));
    [(KName, Some(Str(s.name))), (KAddr, Some(Str(s.addr))), (KSeed, OptStr(s.seed)),
     (KSecret, Unless(derivedSecret, Str(s.secret))),
     (KCredential, Unless(Elided(h, id, s).Some?, Str(s.credential))),
     (KDiscovery, if derivedDiscovery then None else OptStr(s.discovery)),
     (KTransport, Unless(s.transport == DialAuto, Str(TransportStr(s.transport))))]
  }

  function ForwardOpts(f: Forward): seq<(Key, Option<Value>)> {
    [(KProto, Some(Str(if f.proto == Tcp then "tcp" else "udp"))), (KPort, Some(Num(f.port))),
     (KTarget, Some(Str(f.target))), (KEnabled, Unless(f.enabled, Bool(false))), (KProxy, Unless(!f.proxy, Bool(true))),
     (KIdle, match f.idle case Some(n) => Some(Num(n)) case None => None)]
  }

  function PppoeOpts(p: Pppoe): seq<(Key, Option<Value>)> {
    [(KName, Some(Str(p.name))), (KAutostart, Unless(!p.autostart, Bool(true))), (KUsername, Some(Str(p.username))),
     (KPassword, OptStr(p.password)), (KPasswordFile, OptStr(p.passwordFile)),
     (KService, Unless(p.service == "", Str(p.service))), (KMtu, Unless(p.mtu == 1492, Num(p.mtu))),
     (KDefaultRoute, Unless(!p.defaultRoute, Bool(true))), (KClampMss, Unless(p.clampMss, Bool(false))),
     (KRequestDns, Unless(!p.requestDns, Bool(true)))]
  }

  function TunOpts(t: Tun): seq<(Key, Option<Value>)> {
    [(KDev, OptStr(t.dev)), (KAddress, match t.address case Some(a) => Some(Addr(a)) case None => None),
     (KExit, Unless(!t.exit, Bool(true))), (KExitStrict, Unless(!t.exitStrict, Bool(true))),
     (KExitVia, OptStr(t.exitVia))]
  }

  function PeerOpts(p: Peer): seq<(Key, Option<Value>)> {
    [(KExit, Unless(!p.exit, Bool(true))), (KExitIface, OptStr(p.exitIface)), (KSegment, OptStr(p.segment)),
     (KAllow, Unless(p.allow == [], Strs(p.allow)))]
  }

  function ClientTables(c: Config): seq<Table> {
    if c.id.None? && c.peerSecret.None? && c.active.None? && c.control.None? then []
    else [Table(HClient, Present(ClientOpts(c)))]
  }

  /** One table per entry, in declaration order. */
  function TablesOf<T>(tab: T -> Table, xs: seq<T>): seq<Table> {
    if xs == [] then [] else TablesOf(tab, xs[..|xs| - 1]) + [tab(xs[|xs| - 1])]
  }

  function ServerTable(h: Derivation, id: Option<string>): Server -> Table {
    (s: Server) => Table(HServers, Present(ServerOpts(h, id, s)))
  }

  function ForwardTable(f: Forward): Table {
    Table(HForwards, Present(ForwardOpts(f)))
  }

  function PppoeTable(p: Pppoe): Table {
    Table(HPppoe, Present(PppoeOpts(p)))
  }

  function TapTables(tap: Option<string>): seq<Table> {
    match tap case Some(dev) => [Table(HTap, Present([(KDev, Some(Str(dev)))]))] case None => []
  }

  function TunTables(tun: Option<Tun>): seq<Table> {
    match tun case Some(t) => [Table(HTun, Present(TunOpts(t)))] case None => []
  }

  function PeerTables(peer: Option<Peer>): seq<Table> {
    match peer case Some(p) => [Table(HPeer, Present(PeerOpts(p)))] case None => []
  }

  function Serialize(h: Derivation, c: Config): seq<Table> {
    ClientTables(c) + TablesOf(ServerTable(h, c.id), c.servers) + TablesOf(ForwardTable, c.forwards)
    + TablesOf(PppoeTable, c.pppoe)
    + TapTables(c.tap) + TunTables(c.tun) + PeerTables(c.peer)
  }

  // ---------------------------------------------------------------- reading back what was appended

  predicate DistinctOpts(opts: seq<(Key, Option<Value>)>) {
    forall i, j :: 0 <= i < j < |opts| ==> opts[i].0 != opts[j].0
  }

  predicate TypedOpts(h: Header, opts: seq<(Key, Option<Value>)>) {
    forall i :: 0 <= i < |opts| && opts[i].1.Some? ==>
      KindOf(h, opts[i].0).Some? && Takes(KindOf(h, opts[i].0).value, opts[i].1.value)
  }

  /** The appended keys come from the list. */
  lemma {:induction false} PresentFrom(opts: seq<(Key, Option<Value>)>, i: nat) returns (j: nat)
    requires i < |Present(opts)|
    ensures j < |opts| && opts[j] == (Present(opts)[i].0, Some(Present(opts)[i].1))
    decreases |opts|
  {
    var here := if opts[0].1.Some? then 1 else 0;
    if i < here {
      j := 0;
    } else {
      j := PresentFrom(opts[1..], i - here);
      j := j + 1;
    }
  }

  lemma {:induction false} PresentMisses(opts: seq<(Key, Option<Value>)>, k: Key)
    requires forall i :: 0 <= i < |opts| ==> opts[i].0 != k
    ensures Lookup(Present(opts), k) == None
    decreases |opts|
  {
    if opts != [] {
      PresentMisses(opts[1..], k);
      if opts[0].1.Some? {
        assert Present(opts)[1..] == Present(opts[1..]);
      } else {
        assert Present(opts) == Present(opts[1..]);
      }
    }
  }

  lemma {:induction false} PresentAt(opts: seq<(Key, Option<Value>)>, i: nat)
    requires i < |opts| && DistinctOpts(opts)
    ensures Lookup(Present(opts), opts[i].0) == opts[i].1
    decreases |opts|
  {
    if opts[0].1.Some? {
      assert Present(opts)[1..] == Present(opts[1..]);
    } else {
      assert Present(opts) == Present(opts[1..]);
    }
    if i == 0 {
      PresentMisses(opts[1..], opts[0].0);
    } else {
      PresentAt(opts[1..], i - 1);
    }
  }

  lemma {:induction false} PresentNoRepeats(opts: seq<(Key, Option<Value>)>)
    requires DistinctOpts(opts)
    ensures NoRepeats(Present(opts))
    decreases |opts|
  {
    if opts != [] {
      PresentNoRepeats(opts[1..]);
      var rest := Present(opts[1..]);
      if opts[0].1.Some? {
        assert Present(opts) == [(opts[0].0, opts[0].1.value)] + rest;
        forall j | 0 <= j < |rest|
          ensures rest[j].0 != opts[0].0
        {
          var m := PresentFrom(opts[1..], j);
        }
      } else {
        assert Present(opts) == rest;
      }
    }
  }

  /** A table built from distinct, well-kinded options passes the grammar. */
  lemma {:induction false} PresentPasses(h: Header, opts: seq<(Key, Option<Value>)>)
    requires DistinctOpts(opts) && TypedOpts(h, opts)
    ensures NoRepeats(Present(opts)) && Typed(h, Present(opts))
  {
    PresentNoRepeats(opts);
    forall i | 0 <= i < |Present(opts)|
      ensures KindOf(h, Present(opts)[i].0).Some? && Takes(KindOf(h, Present(opts)[i].0).value, Present(opts)[i].1)
    {
      var j := PresentFrom(opts, i);
    }
  }

  // ---------------------------------------------------------------- configs that have a file

  predicate OptLexable(o: Option<string>) {
    o.Some? ==> Lexable(o.value)
  }

  predicate ServerFits(s: Server) {
    && s.name != "" && Lexable(s.name) && Lexable(s.addr) && Lexable(s.secret) && Lexable(s.credential)
    && OptLexable(s.seed) && OptLexable(s.discovery)
    && (s.seed.Some? ==> Decode(s.seed.value).Some? && s.discovery.Some?)
  }

  predicate ForwardFits(f: Forward) {
    && f.port < U16_LIMIT && Lexable(f.target)
    && (f.proxy ==> f.proto == Tcp)
    && (f.idle.Some? ==> 1 <= f.idle.value < U32_LIMIT)
  }

  predicate PppoeFits(p: Pppoe) {
    && p.name != "" && Lexable(p.name) && Lexable(p.username) && OptLexable(p.password) && OptLexable(p.passwordFile)
    && Lexable(p.service) && p.mtu < U16_LIMIT && (!p.clampMss ==> p.defaultRoute)
  }

  predicate TapFits(tap: Option<string>) {
    tap.Some? ==> tap.value != "" && Lexable(tap.value)
  }

  predicate TunFits(tun: Option<Tun>) {
    tun.Some? ==>
      var t := tun.value;
      && OptLexable(t.dev) && OptLexable(t.exitVia) && t.exitVia != Some("")
      && (t.address.Some? ==> CidrOk(t.address.value)) && (t.exitStrict ==> t.exit)
  }

  predicate PeerFits(peer: Option<Peer>) {
    peer.Some? ==>
      var p := peer.value;
      && OptLexable(p.exitIface) && p.exitIface != Some("") && (p.exitIface.Some? ==> p.exit)
      && OptLexable(p.segment) && p.segment != Some("") && AllLexable(p.allow)
  }

  predicate ClientFits(c: Config) {
    OptLexable(c.id) && OptLexable(c.peerSecret) && OptLexable(c.active) && OptLexable(c.control)
  }

  predicate ServersFit(ss: seq<Server>) {
    forall i :: 0 <= i < |ss| ==> ServerFits(ss[i])
  }

  predicate ForwardsFit(fs: seq<Forward>) {
    forall i :: 0 <= i < |fs| ==> ForwardFits(fs[i])
  }

  predicate PppoesFit(ps: seq<Pppoe>) {
    forall i :: 0 <= i < |ps| ==> PppoeFits(ps[i])
  }

  /** The per-entry rules of the grammar, which every parsed config meets. */
  predicate WellFormed(c: Config) {
    && ClientFits(c)
    && ServersFit(c.servers) && ForwardsFit(c.forwards) && PppoesFit(c.pppoe)
    && TapFits(c.tap) && TunFits(c.tun) && PeerFits(c.peer)
  }

  // ---------------------------------------------------------------- one table there and back

  lemma {:induction false} ClientDistinct(c: Config)
    ensures DistinctOpts(ClientOpts(c))
  {
  }

  lemma {:induction false} ClientReads(c: Config)
    ensures var opts := ClientOpts(c);
            var r := Present(opts);
            && Lookup(r, KId) == opts[0].1 && Lookup(r, KPeerSecret) == opts[1].1 && Lookup(r, KActive) == opts[2].1
            && Lookup(r, KControl) == opts[3].1
  {
    var opts := ClientOpts(c);
    ClientDistinct(c);
    PresentAt(opts, 0);
    PresentAt(opts, 1);
    PresentAt(opts, 2);
    PresentAt(opts, 3);
  }

  lemma {:induction false} ClientBack(st: Parsing, c: Config)
    requires ClientFits(c)
    ensures var r := Present(ClientOpts(c));
            NoRepeats(r) && Typed(HClient, r)
            && CloseClient(st, r) == st.(cfg := st.cfg.(id := c.id, peerSecret := c.peerSecret, active := c.active,
                                                        control := c.control))
  {
    ClientDistinct(c);
    PresentPasses(HClient, ClientOpts(c));
    ClientReads(c);
  }

  /** A server as it stands before the waiting credentials are filled in. */
  function Standin(h: Derivation, id: Option<string>, s: Server): Server {
    if Elided(h, id, s).Some? then s.(credential := s.secret) else s
  }

  function Waiting(h: Derivation, id: Option<string>, s: Server, i: nat): seq<(nat, Bytes)> {
    match Elided(h, id, s) case Some(seed) => [(i, seed)] case None => []
  }

  lemma {:induction false} ServerDistinct(h: Derivation, id: Option<string>, s: Server)
    ensures DistinctOpts(ServerOpts(h, id, s))
  {
  }

  /** A record that reads as the options say. */
  predicate ServerRecord(h: Derivation, id: Option<string>, s: Server, r: Record) {
    var opts := ServerOpts(h, id, s);
    && Lookup(r, KName) == opts[0].1 && Lookup(r, KAddr) == opts[1].1 && Lookup(r, KSeed) == opts[2].1
    && Lookup(r, KSecret) == opts[3].1 && Lookup(r, KCredential) == opts[4].1 && Lookup(r, KDiscovery) == opts[5].1
    && Lookup(r, KTransport) == opts[6].1
  }

  lemma {:induction false} ServerReads(h: Derivation, id: Option<string>, s: Server)
    ensures ServerRecord(h, id, s, Present(ServerOpts(h, id, s)))
  {
    var opts := ServerOpts(h, id, s);
    ServerDistinct(h, id, s);
    PresentAt(opts, 0);
    PresentAt(opts, 1);
    PresentAt(opts, 2);
    PresentAt(opts, 3);
    PresentAt(opts, 4);
    PresentAt(opts, 5);
    PresentAt(opts, 6);
  }

  lemma {:induction false} ServerPasses(h: Derivation, id: Option<string>, s: Server)
    requires ServerFits(s)
    ensures var r := Present(ServerOpts(h, id, s)); NoRepeats(r) && Typed(HServers, r)
  {
    ServerDistinct(h, id, s);
    PresentPasses(HServers, ServerOpts(h, id, s));
  }

  lemma {:induction false} ServerClosed(h: Derivation, id: Option<string>, st: Parsing, s: Server, r: Record)
    requires ServerFits(s) && ServerRecord(h, id, s, r)
    ensures CloseServer(h, st, r) ==
            Some(st.(cfg := st.cfg.(servers := st.cfg.servers + [Standin(h, id, s)]),
                     seeded := st.seeded + Waiting(h, id, s, |st.cfg.servers|)))
  {
    assert st.seeded + [] == st.seeded;
  }

  lemma {:induction false} ServerBack(h: Derivation, id: Option<string>, st: Parsing, s: Server)
    requires ServerFits(s)
    ensures CloseServer(h, st, Present(ServerOpts(h, id, s))) ==
            Some(st.(cfg := st.cfg.(servers := st.cfg.servers + [Standin(h, id, s)]),
                     seeded := st.seeded + Waiting(h, id, s, |st.cfg.servers|)))
  {
    ServerReads(h, id, s);
    ServerClosed(h, id, st, s, Present(ServerOpts(h, id, s)));
  }

  lemma {:induction false} ForwardDistinct(f: Forward)
    ensures DistinctOpts(ForwardOpts(f))
  {
  }

  /** A record that reads as the options say. */
  predicate ForwardRecord(f: Forward, r: Record) {
    var opts := ForwardOpts(f);
    && Lookup(r, KProto) == opts[0].1 && Lookup(r, KPort) == opts[1].1 && Lookup(r, KTarget) == opts[2].1
    && Lookup(r, KEnabled) == opts[3].1 && Lookup(r, KProxy) == opts[4].1 && Lookup(r, KIdle) == opts[5].1
  }

  lemma {:induction false} ForwardReads(f: Forward)
    ensures ForwardRecord(f, Present(ForwardOpts(f)))
  {
    var opts := ForwardOpts(f);
    ForwardDistinct(f);
    PresentAt(opts, 0);
    PresentAt(opts, 1);
    PresentAt(opts, 2);
    PresentAt(opts, 3);
    PresentAt(opts, 4);
    PresentAt(opts, 5);
  }

  lemma {:induction false} ForwardPasses(f: Forward)
    requires ForwardFits(f)
    ensures var r := Present(ForwardOpts(f)); NoRepeats(r) && Typed(HForwards, r)
  {
    ForwardDistinct(f);
    PresentPasses(HForwards, ForwardOpts(f));
  }

  lemma {:induction false} ForwardBack(st: Parsing, f: Forward)
    requires ForwardFits(f)
    ensures CloseForward(st, Present(ForwardOpts(f))) == Some(st.(cfg := st.cfg.(forwards := st.cfg.forwards + [f])))
  {
    ForwardReads(f);
  }

  lemma {:induction false} PppoeDistinct(p: Pppoe)
    ensures DistinctOpts(PppoeOpts(p))
  {
  }

  /** A record that reads as the options say. */
  predicate PppoeRecord(p: Pppoe, r: Record) {
    var opts := PppoeOpts(p);
    && Lookup(r, KName) == opts[0].1 && Lookup(r, KAutostart) == opts[1].1 && Lookup(r, KUsername) == opts[2].1
    && Lookup(r, KPassword) == opts[3].1 && Lookup(r, KPasswordFile) == opts[4].1 && Lookup(r, KService) == opts[5].1
    && Lookup(r, KMtu) == opts[6].1 && Lookup(r, KDefaultRoute) == opts[7].1 && Lookup(r, KClampMss) == opts[8].1
    && Lookup(r, KRequestDns) == opts[9].1
  }

  lemma {:induction false} PppoeReads(p: Pppoe)
    ensures PppoeRecord(p, Present(PppoeOpts(p)))
  {
    var opts := PppoeOpts(p);
    PppoeDistinct(p);
    PresentAt(opts, 0);
    PresentAt(opts, 1);
    PresentAt(opts, 2);
    PresentAt(opts, 3);
    PresentAt(opts, 4);
    PresentAt(opts, 5);
    PresentAt(opts, 6);
    PresentAt(opts, 7);
    PresentAt(opts, 8);
    PresentAt(opts, 9);
  }

  lemma {:induction false} PppoePasses(p: Pppoe)
    requires PppoeFits(p)
    ensures var r := Present(PppoeOpts(p)); NoRepeats(r) && Typed(HPppoe, r)
  {
    PppoeDistinct(p);
    PresentPasses(HPppoe, PppoeOpts(p));
  }

  lemma {:induction false} PppoeClosed(st: Parsing, p: Pppoe, r: Record)
    requires PppoeFits(p) && PppoeRecord(p, r)
    ensures ClosePppoe(st, r) == Some(st.(cfg := st.cfg.(pppoe := st.cfg.pppoe + [p])))
  {
  }

  lemma {:induction false} PppoeBack(st: Parsing, p: Pppoe)
    requires PppoeFits(p)
    ensures ClosePppoe(st, Present(PppoeOpts(p))) == Some(st.(cfg := st.cfg.(pppoe := st.cfg.pppoe + [p])))
  {
    PppoeReads(p);
    PppoeClosed(st, p, Present(PppoeOpts(p)));
  }

  lemma {:induction false} TapBack(st: Parsing, dev: string)
    requires TapFits(Some(dev))
    ensures var r := Present([(KDev, Some(Str(dev)))]);
            NoRepeats(r) && Typed(HTap, r) && CloseTap(st, r) == Some(st.(cfg := st.cfg.(tap := Some(dev))))
  {
    var opts := [(KDev, Some(Str(dev)))];
    PresentPasses(HTap, opts);
    PresentAt(opts, 0);
  }

  lemma {:induction false} TunDistinct(t: Tun)
    ensures DistinctOpts(TunOpts(t))
  {
  }

  /** A record that reads as the options say. */
  predicate TunRecord(t: Tun, r: Record) {
    var opts := TunOpts(t);
    && Lookup(r, KDev) == opts[0].1 && Lookup(r, KAddress) == opts[1].1 && Lookup(r, KExit) == opts[2].1
    && Lookup(r, KExitStrict) == opts[3].1 && Lookup(r, KExitVia) == opts[4].1
  }

  lemma {:induction false} TunReads(t: Tun)
    ensures TunRecord(t, Present(TunOpts(t)))
  {
    var opts := TunOpts(t);
    TunDistinct(t);
    PresentAt(opts, 0);
    PresentAt(opts, 1);
    PresentAt(opts, 2);
    PresentAt(opts, 3);
    PresentAt(opts, 4);
  }

  lemma {:induction false} TunPasses(t: Tun)
    requires TunFits(Some(t))
    ensures var r := Present(TunOpts(t)); NoRepeats(r) && Typed(HTun, r)
  {
    TunDistinct(t);
    PresentPasses(HTun, TunOpts(t));
  }

  lemma {:induction false} TunBack(st: Parsing, t: Tun)
    requires TunFits(Some(t))
    ensures CloseTun(st, Present(TunOpts(t))) == Some(st.(cfg := st.cfg.(tun := Some(t))))
  {
    TunReads(t);
  }

  lemma {:induction false} PeerDistinct(p: Peer)
    ensures DistinctOpts(PeerOpts(p))
  {
  }

  /** A record that reads as the options say. */
  predicate PeerRecord(p: Peer, r: Record) {
    var opts := PeerOpts(p);
    && Lookup(r, KExit) == opts[0].1 && Lookup(r, KExitIface) == opts[1].1 && Lookup(r, KSegment) == opts[2].1
    && Lookup(r, KAllow) == opts[3].1
  }

  lemma {:induction false} PeerReads(p: Peer)
    ensures PeerRecord(p, Present(PeerOpts(p)))
  {
    var opts := PeerOpts(p);
    PeerDistinct(p);
    PresentAt(opts, 0);
    PresentAt(opts, 1);
    PresentAt(opts, 2);
    PresentAt(opts, 3);
  }

  lemma {:induction false} PeerPasses(p: Peer)
    requires PeerFits(Some(p))
    ensures var r := Present(PeerOpts(p)); NoRepeats(r) && Typed(HPeer, r)
  {
    PeerDistinct(p);
    PresentPasses(HPeer, PeerOpts(p));
  }

  lemma {:induction false} PeerBack(st: Parsing, p: Peer)
    requires PeerFits(Some(p))
    ensures ClosePeer(st, Present(PeerOpts(p))) == Some(st.(cfg := st.cfg.(peer := Some(p))))
  {
    PeerReads(p);
  }

  // ---------------------------------------------------------------- the whole file there and back

  lemma {:induction false} ParseStep(h: Derivation, a: seq<Table>, b: seq<Table>, t: Table, st: Parsing, st': Parsing)
    requires ParseTables(h, a + b) == Some(st) && Take(h, st, t) == Some(st')
    ensures ParseTables(h, a + (b + [t])) == Some(st')
  {
    assert a + (b + [t]) == a + b + [t];
  }

  function AfterClient(c: Config): Parsing {
    Parsing(EMPTY.(id := c.id, peerSecret := c.peerSecret, active := c.active, control := c.control), [],
            if ClientTables(c) == [] then {} else {HClient})
  }

  lemma {:induction false} ClientStage(h: Derivation, c: Config)
    requires ClientFits(c)
    ensures ParseTables(h, ClientTables(c)) == Some(AfterClient(c))
  {
    if ClientTables(c) != [] {
      var t := Table(HClient, Present(ClientOpts(c)));
      ClientBack(START.(seen := {HClient}), c);
      assert START.seen + {HClient} == {HClient};
      assert Take(h, START, t) == Some(CloseClient(START.(seen := {HClient}), t.record));
      assert [] + [t] == ClientTables(c);
    }
  }

  function Standins(h: Derivation, id: Option<string>, ss: seq<Server>): (r: seq<Server>)
    ensures |r| == |ss|
  {
    if ss == [] then [] else Standins(h, id, ss[..|ss| - 1]) + [Standin(h, id, ss[|ss| - 1])]
  }

  function Waitings(h: Derivation, id: Option<string>, ss: seq<Server>): seq<(nat, Bytes)> {
    if ss == [] then [] else Waitings(h, id, ss[..|ss| - 1]) + Waiting(h, id, ss[|ss| - 1], |ss| - 1)
  }

  function Met(st: Parsing, h: Header, present: bool): Parsing {
    if present then st.(seen := st.seen + {h}) else st
  }

  lemma {:induction false} PppoeTakenBack(h: Derivation, st: Parsing, x: Pppoe)
    requires PppoeFits(x)
    ensures Take(h, st, PppoeTable(x)) == Some(st.(cfg := st.cfg.(pppoe := st.cfg.pppoe + [x])))
  {
    PppoePasses(x);
    PppoeBack(st, x);
  }

  lemma {:induction false} ForwardTakenBack(h: Derivation, st: Parsing, x: Forward)
    requires ForwardFits(x)
    ensures Take(h, st, ForwardTable(x)) == Some(st.(cfg := st.cfg.(forwards := st.cfg.forwards + [x])))
  {
    ForwardPasses(x);
    ForwardBack(st, x);
  }

  lemma {:induction false} TunTakenBack(h: Derivation, st: Parsing, x: Tun)
    requires TunFits(Some(x)) && HTun !in st.seen
    ensures Take(h, st, Table(HTun, Present(TunOpts(x)))) == Some(Met(st, HTun, true).(cfg := st.cfg.(tun := Some(x))))
  {
    TunPasses(x);
    TunBack(Met(st, HTun, true), x);
  }

  lemma {:induction false} PeerTakenBack(h: Derivation, st: Parsing, x: Peer)
    requires PeerFits(Some(x)) && HPeer !in st.seen
    ensures Take(h, st, Table(HPeer, Present(PeerOpts(x))))
            == Some(Met(st, HPeer, true).(cfg := st.cfg.(peer := Some(x))))
  {
    PeerPasses(x);
    PeerBack(Met(st, HPeer, true), x);
  }

  /** Tables taken one after another, `after` being where each prefix of them leads. */
  lemma {:induction false} FoldTo<T(!new)>(h: Derivation, a: seq<Table>, tab: T -> Table, after: seq<T> -> Parsing,
                                           xs: seq<T>, n: nat)
    requires n <= |xs| && ParseTables(h, a) == Some(after([]))
    requires forall i :: 0 <= i < |xs| ==> Take(h, after(xs[..i]), tab(xs[i])) == Some(after(xs[..i + 1]))
    ensures ParseTables(h, a + TablesOf(tab, xs[..n])) == Some(after(xs[..n]))
  {
    if n == 0 {
      assert a + [] == a;
    } else {
      FoldTo(h, a, tab, after, xs, n - 1);
      assert xs[..n][..n - 1] == xs[..n - 1];
      assert Take(h, after(xs[..n - 1]), tab(xs[n - 1])) == Some(after(xs[..n]));
      ParseStep(h, a, TablesOf(tab, xs[..n - 1]), tab(xs[n - 1]), after(xs[..n - 1]), after(xs[..n]));
    }
  }

  lemma {:induction false} ServerStage(h: Derivation, id: Option<string>, a: seq<Table>, st: Parsing, ss: seq<Server>)
    requires ParseTables(h, a) == Some(st) && st.cfg.servers == [] && st.seeded == [] && ServersFit(ss)
    ensures ParseTables(h, a + TablesOf(ServerTable(h, id), ss)) ==
            Some(st.(cfg := st.cfg.(servers := Standins(h, id, ss)), seeded := Waitings(h, id, ss)))
  {
    var after := (xs: seq<Server>) => st.(cfg := st.cfg.(servers := Standins(h, id, xs)),
                                          seeded := Waitings(h, id, xs));
    forall i | 0 <= i < |ss|
      ensures Take(h, after(ss[..i]), ServerTable(h, id)(ss[i])) == Some(after(ss[..i + 1]))
    {
      ServerTakenBack(h, id, after(ss[..i]), ss[i]);
      StandinsStep(h, id, ss, i);
    }
    FoldTo(h, a, ServerTable(h, id), after, ss, |ss|);
    assert ss[..|ss|] == ss;
  }

  lemma {:induction false} StandinsStep(h: Derivation, id: Option<string>, ss: seq<Server>, i: nat)
    requires i < |ss|
    ensures Standins(h, id, ss[..i + 1]) == Standins(h, id, ss[..i]) + [Standin(h, id, ss[i])]
    ensures Waitings(h, id, ss[..i + 1]) == Waitings(h, id, ss[..i]) + Waiting(h, id, ss[i], i)
  {
    assert ss[..i + 1][..i] == ss[..i];
  }

  lemma {:induction false} ServerTakenBack(h: Derivation, id: Option<string>, st: Parsing, s: Server)
    requires ServerFits(s)
    ensures Take(h, st, ServerTable(h, id)(s)) ==
            Some(st.(cfg := st.cfg.(servers := st.cfg.servers + [Standin(h, id, s)]),
                     seeded := st.seeded + Waiting(h, id, s, |st.cfg.servers|)))
  {
    ServerPasses(h, id, s);
    ServerBack(h, id, st, s);
  }

  lemma {:induction false} ForwardTakenNext(h: Derivation, st: Parsing, fs: seq<Forward>, i: nat)
    requires i < |fs| && ForwardsFit(fs)
    ensures Take(h, st.(cfg := st.cfg.(forwards := fs[..i])), ForwardTable(fs[i]))
            == Some(st.(cfg := st.cfg.(forwards := fs[..i + 1])))
  {
    ForwardTakenBack(h, st.(cfg := st.cfg.(forwards := fs[..i])), fs[i]);
    assert fs[..i] + [fs[i]] == fs[..i + 1];
  }

  lemma {:induction false} ForwardStage(h: Derivation, a: seq<Table>, st: Parsing, fs: seq<Forward>)
    requires ParseTables(h, a) == Some(st) && st.cfg.forwards == [] && ForwardsFit(fs)
    ensures ParseTables(h, a + TablesOf(ForwardTable, fs)) == Some(st.(cfg := st.cfg.(forwards := fs)))
  {
    var after := (xs: seq<Forward>) => st.(cfg := st.cfg.(forwards := xs));
    forall i | 0 <= i < |fs|
      ensures Take(h, after(fs[..i]), ForwardTable(fs[i])) == Some(after(fs[..i + 1]))
    {
      ForwardTakenNext(h, st, fs, i);
    }
    FoldTo(h, a, ForwardTable, after, fs, |fs|);
    assert fs[..|fs|] == fs;
  }

  lemma {:induction false} PppoeTakenNext(h: Derivation, st: Parsing, ps: seq<Pppoe>, i: nat)
    requires i < |ps| && PppoesFit(ps)
    ensures Take(h, st.(cfg := st.cfg.(pppoe := ps[..i])), PppoeTable(ps[i]))
            == Some(st.(cfg := st.cfg.(pppoe := ps[..i + 1])))
  {
    PppoeTakenBack(h, st.(cfg := st.cfg.(pppoe := ps[..i])), ps[i]);
    assert ps[..i] + [ps[i]] == ps[..i + 1];
  }

  lemma {:induction false} PppoeStage(h: Derivation, a: seq<Table>, st: Parsing, ps: seq<Pppoe>)
    requires ParseTables(h, a) == Some(st) && st.cfg.pppoe == [] && PppoesFit(ps)
    ensures ParseTables(h, a + TablesOf(PppoeTable, ps)) == Some(st.(cfg := st.cfg.(pppoe := ps)))
  {
    var after := (xs: seq<Pppoe>) => st.(cfg := st.cfg.(pppoe := xs));
    forall i | 0 <= i < |ps|
      ensures Take(h, after(ps[..i]), PppoeTable(ps[i])) == Some(after(ps[..i + 1]))
    {
      PppoeTakenNext(h, st, ps, i);
    }
    FoldTo(h, a, PppoeTable, after, ps, |ps|);
    assert ps[..|ps|] == ps;
  }

  lemma {:induction false} TapStage(h: Derivation, a: seq<Table>, st: Parsing, tap: Option<string>)
    requires ParseTables(h, a) == Some(st) && st.cfg.tap == None && HTap !in st.seen && TapFits(tap)
    ensures ParseTables(h, a + TapTables(tap)) == Some(Met(st, HTap, tap.Some?).(cfg := st.cfg.(tap := tap)))
  {
    if tap.None? {
      assert a + [] == a;
    } else {
      TapBack(Met(st, HTap, true), tap.value);
    }
  }

  lemma {:induction false} TunStage(h: Derivation, a: seq<Table>, st: Parsing, tun: Option<Tun>)
    requires ParseTables(h, a) == Some(st) && st.cfg.tun == None && HTun !in st.seen && TunFits(tun)
    ensures ParseTables(h, a + TunTables(tun)) == Some(Met(st, HTun, tun.Some?).(cfg := st.cfg.(tun := tun)))
  {
    if tun.None? {
      assert a + [] == a;
    } else {
      TunTakenBack(h, st, tun.value);
    }
  }

  lemma {:induction false} PeerStage(h: Derivation, a: seq<Table>, st: Parsing, peer: Option<Peer>)
    requires ParseTables(h, a) == Some(st) && st.cfg.peer == None && HPeer !in st.seen && PeerFits(peer)
    ensures ParseTables(h, a + PeerTables(peer)) == Some(Met(st, HPeer, peer.Some?).(cfg := st.cfg.(peer := peer)))
  {
    if peer.None? {
      assert a + [] == a;
    } else {
      PeerTakenBack(h, st, peer.value);
    }
  }

  /** The whole file gives everything but the credentials left to their seeds. */
  lemma {:induction false} AllStages(h: Derivation, c: Config)
    requires WellFormed(c)
    ensures var st := ParseTables(h, Serialize(h, c));
            st.Some? && st.value.cfg == c.(servers := Standins(h, c.id, c.servers))
            && st.value.seeded == Waitings(h, c.id, c.servers)
  {
    var a0, s0 := ClientTables(c), AfterClient(c);
    ClientStage(h, c);
    var a1 := a0 + TablesOf(ServerTable(h, c.id), c.servers);
    ServerStage(h, c.id, a0, s0, c.servers);
    var s1 := s0.(cfg := s0.cfg.(servers := Standins(h, c.id, c.servers)), seeded := Waitings(h, c.id, c.servers));
    var a2 := a1 + TablesOf(ForwardTable, c.forwards);
    ForwardStage(h, a1, s1, c.forwards);
    var s2 := s1.(cfg := s1.cfg.(forwards := c.forwards));
    var a3 := a2 + TablesOf(PppoeTable, c.pppoe);
    PppoeStage(h, a2, s2, c.pppoe);
    var s3 := s2.(cfg := s2.cfg.(pppoe := c.pppoe));
    SingleStages(h, a3, s3, c.tap, c.tun, c.peer);
  }

  /** The tables a file holds at most once. */
  lemma {:induction false} SingleStages(h: Derivation, a: seq<Table>, st: Parsing, tap: Option<string>,
                                        tun: Option<Tun>, peer: Option<Peer>)
    requires ParseTables(h, a) == Some(st) && st.cfg.tap == None && st.cfg.tun == None && st.cfg.peer == None
    requires HTap !in st.seen && HTun !in st.seen && HPeer !in st.seen && TapFits(tap) && TunFits(tun) && PeerFits(peer)
    ensures var st' := ParseTables(h, a + TapTables(tap) + TunTables(tun) + PeerTables(peer));
            st'.Some? && st'.value.cfg == st.cfg.(tap := tap, tun := tun, peer := peer) && st'.value.seeded == st.seeded
  {
    TapStage(h, a, st, tap);
    var s1 := Met(st, HTap, tap.Some?).(cfg := st.cfg.(tap := tap));
    TunStage(h, a + TapTables(tap), s1, tun);
    var s2 := Met(s1, HTun, tun.Some?).(cfg := s1.cfg.(tun := tun));
    PeerStage(h, a + TapTables(tap) + TunTables(tun), s2, peer);
  }

  // ---------------------------------------------------------------- the waiting credentials

  predicate Below(seeded: seq<(nat, Bytes)>, n: nat) {
    forall i :: 0 <= i < |seeded| ==> seeded[i].0 < n
  }

  lemma {:induction false} FillFront(h: Derivation, id: string, ss: seq<Server>, x: Server, seeded: seq<(nat, Bytes)>)
    requires Below(seeded, |ss|)
    ensures Fill(h, id, ss + [x], seeded) == Fill(h, id, ss, seeded) + [x]
    decreases |seeded|
  {
    if seeded != [] {
      FillFront(h, id, ss, x, seeded[..|seeded| - 1]);
    }
  }

  lemma {:induction false} WaitingsBelow(h: Derivation, id: Option<string>, ss: seq<Server>)
    ensures Below(Waitings(h, id, ss), |ss|)
    decreases |ss|
  {
    if ss != [] {
      WaitingsBelow(h, id, ss[..|ss| - 1]);
    }
  }

  /** Filling in one more server, on top of those before it. */
  lemma {:induction false} FillOneMore(h: Derivation, id: string, kept: seq<Server>, w: seq<(nat, Bytes)>,
                                       front: seq<Server>, last: Server)
    requires Fill(h, id, kept, w) == front && Below(w, |kept|)
    ensures Fill(h, id, kept + [Standin(h, Some(id), last)], w + Waiting(h, Some(id), last, |kept|)) == front + [last]
  {
    var x := Standin(h, Some(id), last);
    FillFront(h, id, kept, x, w);
    match Elided(h, Some(id), last)
    case Some(seed) =>
    case None =>
      assert w + [] == w;
  }

  lemma {:induction false} FillRestores(h: Derivation, id: string, ss: seq<Server>)
    ensures Fill(h, id, Standins(h, Some(id), ss), Waitings(h, Some(id), ss)) == ss
    decreases |ss|
  {
    if ss != [] {
      var front, last := ss[..|ss| - 1], ss[|ss| - 1];
      FillRestores(h, id, front);
      WaitingsBelow(h, Some(id), front);
      FillOneMore(h, id, Standins(h, Some(id), front), Waitings(h, Some(id), front), front, last);
      assert front + [last] == ss;
    }
  }

  lemma {:induction false} NothingWaits(h: Derivation, ss: seq<Server>)
    ensures Standins(h, None, ss) == ss && Waitings(h, None, ss) == []
    decreases |ss|
  {
    if ss != [] {
      NothingWaits(h, ss[..|ss| - 1]);
      assert ss[..|ss| - 1] + [ss[|ss| - 1]] == ss;
    }
  }

  /** Main result: every config the grammar can produce is parsed back from its own file, the
      values its seeds derive and the credentials that wait for the client id included. */
  lemma {:induction false} ParseOfSerialize(h: Derivation, c: Config)
    requires WellFormed(c)
    ensures Parse(h, Serialize(h, c)) == Some(c)
  {
    AllStages(h, c);
    match c.id
    case Some(id) => FillRestores(h, id, c.servers);
    case None => NothingWaits(h, c.servers);
  }

  // ---------------------------------------------------------------- what parsing can produce

  lemma {:induction false} LookupTyped(h: Header, r: Record, k: Key)
    requires Typed(h, r) && Lookup(r, k).Some?
    ensures KindOf(h, k).Some? && Takes(KindOf(h, k).value, Lookup(r, k).value)
    decreases |r|
  {
    if r[0].0 != k {
      LookupTyped(h, r[1..], k);
    }
  }

  lemma {:induction false} StrTyped(h: Header, r: Record, k: Key)
    requires Typed(h, r) && KindOf(h, k) == Some(StrKind)
    ensures OptLexable(GetStr(r, k))
  {
    if Lookup(r, k).Some? {
      LookupTyped(h, r, k);
    }
  }

  lemma {:induction false} NumTyped(h: Header, r: Record, k: Key)
    requires Typed(h, r) && KindOf(h, k).Some? && GetNum(r, k).Some?
    ensures KindOf(h, k) == Some(IntKind) ==> GetNum(r, k).value < U16_LIMIT
    ensures KindOf(h, k) == Some(IdleKind) ==> 1 <= GetNum(r, k).value < U32_LIMIT
  {
    LookupTyped(h, r, k);
  }

  lemma {:induction false} DecimalLexable(n: nat)
    ensures Lexable(Decimal(n))
  {
    if n >= 10 {
      DecimalLexable(n / 10);
    }
  }

  lemma {:induction false} ServerTaken(h: Derivation, st: Parsing, r: Record)
    requires Typed(HServers, r) && CloseServer(h, st, r).Some?
    ensures var st' := CloseServer(h, st, r).value;
            && |st'.cfg.servers| == |st.cfg.servers| + 1 && st'.cfg.servers[..|st.cfg.servers|] == st.cfg.servers
            && ServerFits(st'.cfg.servers[|st.cfg.servers|])
            && st'.cfg == st.cfg.(servers := st'.cfg.servers)
  {
    StrTyped(HServers, r, KName);
    StrTyped(HServers, r, KAddr);
    StrTyped(HServers, r, KSeed);
    StrTyped(HServers, r, KSecret);
    StrTyped(HServers, r, KCredential);
    StrTyped(HServers, r, KDiscovery);
  }

  lemma {:induction false} ForwardTaken(st: Parsing, r: Record)
    requires Typed(HForwards, r) && CloseForward(st, r).Some?
    ensures var st' := CloseForward(st, r).value;
            && |st'.cfg.forwards| == |st.cfg.forwards| + 1 && st'.cfg.forwards[..|st.cfg.forwards|] == st.cfg.forwards
            && ForwardFits(st'.cfg.forwards[|st.cfg.forwards|])
            && st'.cfg == st.cfg.(forwards := st'.cfg.forwards)
  {
    StrTyped(HForwards, r, KTarget);
    NumTyped(HForwards, r, KPort);
    if GetNum(r, KIdle).Some? {
      NumTyped(HForwards, r, KIdle);
    }
    DecimalLexable(GetNum(r, KPort).value);
  }

  lemma {:induction false} PppoeTaken(st: Parsing, r: Record)
    requires Typed(HPppoe, r) && ClosePppoe(st, r).Some?
    ensures var st' := ClosePppoe(st, r).value;
            && |st'.cfg.pppoe| == |st.cfg.pppoe| + 1 && st'.cfg.pppoe[..|st.cfg.pppoe|] == st.cfg.pppoe
            && PppoeFits(st'.cfg.pppoe[|st.cfg.pppoe|])
            && st'.cfg == st.cfg.(pppoe := st'.cfg.pppoe)
  {
    StrTyped(HPppoe, r, KName);
    StrTyped(HPppoe, r, KUsername);
    StrTyped(HPppoe, r, KPassword);
    StrTyped(HPppoe, r, KPasswordFile);
    StrTyped(HPppoe, r, KService);
    if GetNum(r, KMtu).Some? {
      NumTyped(HPppoe, r, KMtu);
    }
  }

  lemma {:induction false} DevicesTaken(st: Parsing, t: Table)
    requires Typed(t.header, t.record)
    ensures t.header.HTap? && CloseTap(st, t.record).Some? ==> TapFits(CloseTap(st, t.record).value.cfg.tap)
    ensures t.header.HTun? && CloseTun(st, t.record).Some? ==> TunFits(CloseTun(st, t.record).value.cfg.tun)
    ensures t.header.HPeer? && ClosePeer(st, t.record).Some? ==> PeerFits(ClosePeer(st, t.record).value.cfg.peer)
  {
    var r := t.record;
    if t.header.HTap? {
      StrTyped(HTap, r, KDev);
    } else if t.header.HTun? {
      StrTyped(HTun, r, KDev);
      StrTyped(HTun, r, KExitVia);
      if Lookup(r, KAddress).Some? {
        LookupTyped(HTun, r, KAddress);
      }
    } else if t.header.HPeer? {
      StrTyped(HPeer, r, KExitIface);
      StrTyped(HPeer, r, KSegment);
      if Lookup(r, KAllow).Some? {
        LookupTyped(HPeer, r, KAllow);
      }
    }
  }

  lemma {:induction false} TakeKeepsForm(h: Derivation, st: Parsing, t: Table)
    requires WellFormed(st.cfg) && Take(h, st, t).Some?
    ensures WellFormed(Take(h, st, t).value.cfg)
  {
    var r := t.record;
    var s1 := st.(seen := if Single(t.header) then st.seen + {t.header} else st.seen);
    match t.header
    case HClient =>
      StrTyped(HClient, r, KId);
      StrTyped(HClient, r, KPeerSecret);
      StrTyped(HClient, r, KActive);
      StrTyped(HClient, r, KControl);
    case HServers => ServerTaken(h, s1, r);
    case HForwards => ForwardTaken(s1, r);
    case HPppoe => PppoeTaken(s1, r);
    case HTap => DevicesTaken(s1, t);
    case HTun => DevicesTaken(s1, t);
    case HPeer => DevicesTaken(s1, t);
  }

  lemma {:induction false} TablesKeepForm(h: Derivation, file: seq<Table>)
    requires ParseTables(h, file).Some?
    ensures WellFormed(ParseTables(h, file).value.cfg)
    decreases |file|
  {
    if file != [] {
      TablesKeepForm(h, file[..|file| - 1]);
      TakeKeepsForm(h, ParseTables(h, file[..|file| - 1]).value, file[|file| - 1]);
    }
  }

  lemma {:induction false} FillKeepsForm(h: Derivation, id: string, ss: seq<Server>, seeded: seq<(nat, Bytes)>)
    requires ServersFit(ss)
    ensures ServersFit(Fill(h, id, ss, seeded))
    decreases |seeded|
  {
    if seeded != [] {
      FillKeepsForm(h, id, ss, seeded[..|seeded| - 1]);
    }
  }

  /** Parsing only ever produces well-formed configs, */
  lemma {:induction false} ParsedIsWellFormed(h: Derivation, file: seq<Table>)
    requires Parse(h, file).Some?
    ensures WellFormed(Parse(h, file).value)
  {
    TablesKeepForm(h, file);
    var st := ParseTables(h, file).value;
    if st.seeded != [] {
      FillKeepsForm(h, st.cfg.id.value, st.cfg.servers, st.seeded);
    }
  }

  /** so they are exactly the configs whose file parses back to them, */
  lemma {:induction false} RoundTripIffWellFormed(h: Derivation, c: Config)
    ensures Parse(h, Serialize(h, c)) == Some(c) <==> WellFormed(c)
  {
    if WellFormed(c) {
      ParseOfSerialize(h, c);
    } else if Parse(h, Serialize(h, c)) == Some(c) {
      ParsedIsWellFormed(h, Serialize(h, c));
    }
  }

  /** and a saved file is a fixed point: parsing it and saving again changes nothing. */
  lemma {:induction false} SavingSettles(h: Derivation, file: seq<Table>)
    requires Parse(h, file).Some?
    ensures var saved := Serialize(h, Parse(h, file).value);
            Parse(h, saved) == Parse(h, file) && Serialize(h, Parse(h, saved).value) == saved
  {
    ParsedIsWellFormed(h, file);
    ParseOfSerialize(h, Parse(h, file).value);
  }

  // ---------------------------------------------------------------- the loops

  /** Table by table, then the waiting credentials. */
  method ParseFile(h: Derivation, file: seq<Table>) returns (c: Option<Config>)
    ensures c == Parse(h, file)
    ensures c.Some? ==> WellFormed(c.value)
  {
    var st := START;
    var i := 0;
    while i < |file|
      invariant 0 <= i <= |file| && ParseTables(h, file[..i]) == Some(st)
    {
      var next := Take(h, st, file[i]);
      assert file[..i + 1][..i] == file[..i];
      if next.None? {
        RefusedStays(h, file, i + 1);
        return None;
      }
      st := next.value;
      i := i + 1;
    }
    assert file[..i] == file;
    if st.seeded == [] {
      c := Some(st.cfg);
    } else if st.cfg.id.None? {
      return None;
    } else {
      var ss := FillEach(h, st.cfg.id.value, st.cfg.servers, st.seeded);
      c := Some(st.cfg.(servers := ss));
    }
    ParsedIsWellFormed(h, file);
  }

  lemma {:induction false} RefusedStays(h: Derivation, file: seq<Table>, n: nat)
    requires n <= |file| && ParseTables(h, file[..n]) == None
    ensures ParseTables(h, file) == None
    decreases |file|
  {
    if n == |file| {
      assert file[..n] == file;
    } else {
      assert file[..|file| - 1][..n] == file[..n];
      RefusedStays(h, file[..|file| - 1], n);
    }
  }

  method FillEach(h: Derivation, id: string, ss: seq<Server>, seeded: seq<(nat, Bytes)>) returns (r: seq<Server>)
    ensures r == Fill(h, id, ss, seeded)
  {
    r := ss;
    var i := 0;
    while i < |seeded|
      invariant 0 <= i <= |seeded| && r == Fill(h, id, ss, seeded[..i]) && |r| == |ss|
    {
      assert seeded[..i + 1][..i] == seeded[..i];
      var (index, seed) := seeded[i];
      if index < |r| {
        r := r[index := r[index].(credential := Client(h, seed, id))];
      }
      i := i + 1;
    }
    assert seeded[..i] == seeded;
  }

  /** Entry by entry, in declaration order. */
  method WriteEach<T>(tab: T -> Table, xs: seq<T>) returns (ts: seq<Table>)
    ensures ts == TablesOf(tab, xs)
  {
    ts := [];
    var i := 0;
    while i < |xs|
      invariant 0 <= i <= |xs| && ts == TablesOf(tab, xs[..i])
    {
      assert xs[..i + 1][..i] == xs[..i];
      ts := ts + [tab(xs[i])];
      i := i + 1;
    }
    assert xs[..i] == xs;
  }

  /** The file written for a config, which is read back as that config if it is well formed. */
  method WriteFile(h: Derivation, c: Config) returns (file: seq<Table>)
    ensures file == Serialize(h, c)
    ensures WellFormed(c) ==> Parse(h, file) == Some(c)
  {
    var servers := WriteEach(ServerTable(h, c.id), c.servers);
    var forwards := WriteEach(ForwardTable, c.forwards);
    var pppoe := WriteEach(PppoeTable, c.pppoe);
    file := ClientTables(c) + servers + forwards + pppoe + TapTables(c.tap) + TunTables(c.tun) + PeerTables(c.peer);
    if WellFormed(c) {
      ParseOfSerialize(h, c);
    }
  }

  // ---------------------------------------------------------------- strings on the line

  /** A value in double quotes, `"` and `\` escaped, up to and with its closing quote. */
  function Quoted(s: string): string {
    if s == [] then ['"']
    else (if s[0] == '"' || s[0] == '\\' then ['\\', s[0]] else [s[0]]) + Quoted(s[1..])
  }

  /** The lexer past an opening quote: the string and what follows its closing quote. */
  function LexString(line: string): Option<(string, string)>
    decreases |line|
  {
    if line == [] then None
    else if line[0] == '"' then Some(([], line[1..]))
    else if line[0] == '\\' then
      if |line| < 2 || !(line[1] == '"' || line[1] == '\\') then None
      else match LexString(line[2..]) case Some((s, rest)) => Some(([line[1]] + s, rest)) case None => None
    else if line[0] < ' ' then None
    else match LexString(line[1..]) case Some((s, rest)) => Some(([line[0]] + s, rest)) case None => None
  }

  /** A quoted string is lexed back exactly when it holds no control character. */
  lemma {:induction false} LexOfQuoted(s: string, rest: string)
    ensures LexString(Quoted(s) + rest) == if Lexable(s) then Some((s, rest)) else None
    decreases |s|
  {
    if s == [] {
      assert (Quoted(s) + rest)[1..] == rest;
    } else {
      LexOfQuoted(s[1..], rest);
      assert [s[0]] + s[1..] == s;
      if s[0] == '"' || s[0] == '\\' {
        assert Quoted(s) + rest == ['\\', s[0]] + (Quoted(s[1..]) + rest);
      } else {
        assert Quoted(s) + rest == [s[0]] + (Quoted(s[1..]) + rest);
      }
    }
  }
}
