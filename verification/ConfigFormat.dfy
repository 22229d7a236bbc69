/** What is written for each part of a config: which keys, with what values, in what order
    (`src/clientcfg.rs`). */
module ConfigFormat {
  import opened Base
  import opened Secret
  import opened Config
  import opened ConfigCodec

  /** A key that is there or not. */
  function If(b: bool, k: Key, v: Value): Record {
    if b then [(k, v)] else []
  }

  function IfText(k: Key, o: Option<string>): Record {
    if o.Some? then [(k, Str(o.value))] else []
  }

  function ClientKeys(c: Config): Record {
    IfText(KId, c.id) + IfText(KPeerSecret, c.peerSecret) + IfText(KActive, c.active) + IfText(KControl, c.control)
  }

  /** A value its seed gives back is left out. */
  function ServerKeys(h: Derivation, id: Option<string>, s: Server): Record {
    var seed := if s.seed.Some? then Decode(s.seed.value) else None;
    var network := if seed.Some? then Some(Network(h, seed.value)) else None;
    var client := if seed.Some? && id.Some? then Some(Client(h, seed.value, id.value)) else None;
    var discovery := if seed.Some? then Some(Discovery(h, seed.value)) else None;
    [(KName, Str(s.name))] + [(KAddr, Str(s.addr))] + IfText(KSeed, s.seed)
    + If(network != Some(s.secret), KSecret, Str(s.secret))
    + If(client != Some(s.credential), KCredential, Str(s.credential))
    + IfText(KDiscovery, if discovery == s.discovery then None else s.discovery)
    + IfText(KTransport,
             if s.transport == DialUdp then Some("udp") else if s.transport == DialTcp then Some("tcp") else None)
  }

  function ForwardKeys(f: Forward): Record {
    [(KProto, Str(if f.proto == Udp then "udp" else "tcp"))] + [(KPort, Num(f.port))] + [(KTarget, Str(f.target))]
    + If(!f.enabled, KEnabled, Bool(false)) + If(f.proxy, KProxy, Bool(true))
    + (if f.idle.Some? then [(KIdle, Num(f.idle.value))] else [])
  }

  function PppoeKeys(p: Pppoe): Record {
    [(KName, Str(p.name))] + If(p.autostart, KAutostart, Bool(true)) + [(KUsername, Str(p.username))]
    + IfText(KPassword, p.password) + IfText(KPasswordFile, p.passwordFile)
    + If(p.service != "", KService, Str(p.service)) + If(p.mtu != 1492, KMtu, Num(p.mtu))
    + If(p.defaultRoute, KDefaultRoute, Bool(true)) + If(!p.clampMss, KClampMss, Bool(false))
    + If(p.requestDns, KRequestDns, Bool(true))
  }

  function TunKeys(t: Tun): Record {
    IfText(KDev, t.dev) + (if t.address.Some? then [(KAddress, Addr(t.address.value))] else [])
    + If(t.exit, KExit, Bool(true)) + If(t.exitStrict, KExitStrict, Bool(true)) + IfText(KExitVia, t.exitVia)
  }

  function PeerKeys(p: Peer): Record {
    If(p.exit, KExit, Bool(true)) + IfText(KExitIface, p.exitIface) + IfText(KSegment, p.segment)
    + If(|p.allow| > 0, KAllow, Strs(p.allow))
  }

  function Devices(c: Config): seq<Table> {
    (if c.tap.Some? then [Table(HTap, [(KDev, Str(c.tap.value))])] else [])
    + (if c.tun.Some? then [Table(HTun, TunKeys(c.tun.value))] else [])
    + (if c.peer.Some? then [Table(HPeer, PeerKeys(c.peer.value))] else [])
  }

  function Servers(h: Derivation, c: Config): seq<Table> {
    seq(|c.servers|, i requires 0 <= i < |c.servers| => Table(HServers, ServerKeys(h, c.id, c.servers[i])))
  }

  function Forwards(c: Config): seq<Table> {
    seq(|c.forwards|, i requires 0 <= i < |c.forwards| => Table(HForwards, ForwardKeys(c.forwards[i])))
  }

  function Sessions(c: Config): seq<Table> {
    seq(|c.pppoe|, i requires 0 <= i < |c.pppoe| => Table(HPppoe, PppoeKeys(c.pppoe[i])))
  }

  /** The client, then the servers, the forwards and the sessions as they are declared, then the
      devices and the peer. */
  function FileOf(h: Derivation, c: Config): seq<Table> {
    (if ClientKeys(c) == [] then [] else [Table(HClient, ClientKeys(c))])
    + Servers(h, c) + Forwards(c) + Sessions(c) + Devices(c)
  }

  // ---------------------------------------------------------------- the writer keeps to it

  type Opt = (Key, Option<Value>)

  function KeyFor(o: Opt): Record {
    match o.1 case Some(v) => [(o.0, v)] case None => []
  }

  lemma {:induction false} PresentMore(opts: seq<Opt>, o: Opt)
    ensures Present(opts + [o]) == Present(opts) + KeyFor(o)
  {
    if opts == [] {
      assert [o][1..] == [];
    } else {
      PresentMore(opts[1..], o);
      assert (opts + [o])[1..] == opts[1..] + [o];
    }
  }

  lemma {:induction false} PresentFour(a: Opt, b: Opt, c: Opt, d: Opt)
    ensures Present([a, b, c, d]) == KeyFor(a) + KeyFor(b) + KeyFor(c) + KeyFor(d)
  {
    PresentMore([], a);
    PresentMore([a], b);
    PresentMore([a, b], c);
    PresentMore([a, b, c], d);
    assert [] + [a] == [a] && [a] + [b] == [a, b] && [a, b] + [c] == [a, b, c] && [a, b, c] + [d] == [a, b, c, d];
    assert [] + KeyFor(a) == KeyFor(a);
  }

  lemma {:induction false} PresentFive(a: Opt, b: Opt, c: Opt, d: Opt, e: Opt)
    ensures Present([a, b, c, d, e]) == KeyFor(a) + KeyFor(b) + KeyFor(c) + KeyFor(d) + KeyFor(e)
  {
    PresentFour(a, b, c, d);
    PresentMore([a, b, c, d], e);
    assert [a, b, c, d] + [e] == [a, b, c, d, e];
  }

  lemma {:induction false} PresentTen(o: seq<Opt>)
    requires |o| == 10
    ensures Present(o) == KeyFor(o[0]) + KeyFor(o[1]) + KeyFor(o[2]) + KeyFor(o[3]) + KeyFor(o[4]) + KeyFor(o[5])
                          + KeyFor(o[6]) + KeyFor(o[7]) + KeyFor(o[8]) + KeyFor(o[9])
  {
    PresentFive(o[0], o[1], o[2], o[3], o[4]);
    assert o[..5] == [o[0], o[1], o[2], o[3], o[4]];
    PresentMore(o[..5], o[5]);
    PresentMore(o[..6], o[6]);
    PresentMore(o[..7], o[7]);
    PresentMore(o[..8], o[8]);
    PresentMore(o[..9], o[9]);
    assert o[..5] + [o[5]] == o[..6] && o[..6] + [o[6]] == o[..7] && o[..7] + [o[7]] == o[..8];
    assert o[..8] + [o[8]] == o[..9] && o[..9] + [o[9]] == o;
  }

  lemma {:induction false} ClientIs(c: Config)
    ensures Present(ClientOpts(c)) == ClientKeys(c)
    ensures ClientTables(c) == if ClientKeys(c) == [] then [] else [Table(HClient, ClientKeys(c))]
  {
    var o := ClientOpts(c);
    PresentFour(o[0], o[1], o[2], o[3]);
  }

  lemma {:induction false} ServerIs(h: Derivation, id: Option<string>, s: Server)
    ensures Present(ServerOpts(h, id, s)) == ServerKeys(h, id, s)
  {
    var o := ServerOpts(h, id, s);
    PresentFive(o[0], o[1], o[2], o[3], o[4]);
    PresentMore(o[..5], o[5]);
    PresentMore(o[..6], o[6]);
    assert o[..5] == [o[0], o[1], o[2], o[3], o[4]] && o[..5] + [o[5]] == o[..6] && o[..6] + [o[6]] == o;
  }

  lemma {:induction false} ForwardIs(f: Forward)
    ensures Present(ForwardOpts(f)) == ForwardKeys(f)
  {
    var o := ForwardOpts(f);
    PresentFive(o[0], o[1], o[2], o[3], o[4]);
    PresentMore(o[..5], o[5]);
    assert o[..5] == [o[0], o[1], o[2], o[3], o[4]] && o[..5] + [o[5]] == o;
  }

  lemma {:induction false} PppoeIs(p: Pppoe)
    ensures Present(PppoeOpts(p)) == PppoeKeys(p)
  {
    PresentTen(PppoeOpts(p));
  }

  lemma {:induction false} TunIs(t: Tun)
    ensures Present(TunOpts(t)) == TunKeys(t)
  {
    var o := TunOpts(t);
    PresentFive(o[0], o[1], o[2], o[3], o[4]);
  }

  lemma {:induction false} PeerIs(p: Peer)
    ensures Present(PeerOpts(p)) == PeerKeys(p)
  {
    var o := PeerOpts(p);
    PresentFour(o[0], o[1], o[2], o[3]);
  }

  lemma {:induction false} TapIs(dev: string)
    ensures Present([(KDev, Some(Str(dev)))]) == [(KDev, Str(dev))]
  {
    PresentMore([], (KDev, Some(Str(dev))));
    assert [] + [(KDev, Some(Str(dev)))] == [(KDev, Some(Str(dev)))];
  }

  lemma {:induction false} TablesAre<X>(tab: X -> Table, xs: seq<X>)
    ensures |TablesOf(tab, xs)| == |xs| && forall i :: 0 <= i < |xs| ==> TablesOf(tab, xs)[i] == tab(xs[i])
  {
    if xs != [] {
      TablesAre(tab, xs[..|xs| - 1]);
    }
  }

  lemma {:induction false} DevicesAre(c: Config)
    ensures TapTables(c.tap) + TunTables(c.tun) + PeerTables(c.peer) == Devices(c)
  {
    if c.tap.Some? {
      TapIs(c.tap.value);
    }
    if c.tun.Some? {
      TunIs(c.tun.value);
    }
    if c.peer.Some? {
      PeerIs(c.peer.value);
    }
  }

  lemma {:induction false} Regrouped(a: seq<Table>, b: seq<Table>, c: seq<Table>, d: seq<Table>, e: seq<Table>,
                                     f: seq<Table>, g: seq<Table>)
    ensures a + b + c + d + e + f + g == a + b + c + d + (e + f + g)
  {
  }

  lemma {:induction false} ServersAre(h: Derivation, c: Config)
    ensures TablesOf(ServerTable(h, c.id), c.servers) == Servers(h, c)
  {
    TablesAre(ServerTable(h, c.id), c.servers);
    forall i | 0 <= i < |c.servers|
      ensures ServerTable(h, c.id)(c.servers[i]) == Servers(h, c)[i]
    {
      ServerIs(h, c.id, c.servers[i]);
    }
  }

  lemma {:induction false} ForwardsAre(c: Config)
    ensures TablesOf(ForwardTable, c.forwards) == Forwards(c)
  {
    TablesAre(ForwardTable, c.forwards);
    forall i | 0 <= i < |c.forwards|
      ensures ForwardTable(c.forwards[i]) == Forwards(c)[i]
    {
      ForwardIs(c.forwards[i]);
    }
  }

  lemma {:induction false} SessionsAre(c: Config)
    ensures TablesOf(PppoeTable, c.pppoe) == Sessions(c)
  {
    TablesAre(PppoeTable, c.pppoe);
    forall i | 0 <= i < |c.pppoe|
      ensures PppoeTable(c.pppoe[i]) == Sessions(c)[i]
    {
      PppoeIs(c.pppoe[i]);
    }
  }

  /** Main result: the file written for any config holds exactly these tables and keys. */
  lemma {:induction false} FileIs(h: Derivation, c: Config)
    ensures Serialize(h, c) == FileOf(h, c)
  {
    ClientIs(c);
    ServersAre(h, c);
    ForwardsAre(c);
    SessionsAre(c);
    DevicesAre(c);
    Regrouped(ClientTables(c), Servers(h, c), Forwards(c), Sessions(c), TapTables(c.tap), TunTables(c.tun),
              PeerTables(c.peer));
  }
}
