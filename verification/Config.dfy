/** The parsed client config and the rules it must pass as a whole (`src/clientcfg.rs`). */
module Config {
  import opened Base
  import opened Secret

  datatype Server = Server(name: string, addr: string, seed: Option<string>, secret: string,
                           credential: string, discovery: Option<string>, transport: Transport)

  datatype Forward = Forward(proto: Proto, port: nat, target: string, proxy: bool, idle: Option<nat>, enabled: bool)

  datatype Pppoe = Pppoe(name: string, autostart: bool, username: string, password: Option<string>,
                         passwordFile: Option<string>, service: string, mtu: nat, defaultRoute: bool,
                         clampMss: bool, requestDns: bool)

  datatype Cidr = Cidr(ip: nat, len: nat)

  datatype Tun = Tun(dev: Option<string>, address: Option<Cidr>, exit: bool, exitStrict: bool, exitVia: Option<string>)

  datatype Peer = Peer(exit: bool, exitIface: Option<string>, segment: Option<string>, allow: seq<string>)

  const NO_PEER: Peer := Peer(false, None, None, [])

  datatype Config = Config(id: Option<string>, peerSecret: Option<string>, active: Option<string>,
                           control: Option<string>, servers: seq<Server>, forwards: seq<Forward>, pppoe: seq<Pppoe>,
                           tap: Option<string>, tun: Option<Tun>, peer: Option<Peer>)

  const EMPTY: Config := Config(None, None, None, None, [], [], [], None, None, None)

  /** A tun table that goes out through a peer belongs to a peer slot. */
  predicate ForPeer(t: Option<Tun>) {
    t.Some? && t.value.exitVia.Some?
  }

  predicate ForServer(t: Option<Tun>) {
    t.Some? && t.value.exitVia.None?
  }

  predicate Provides(p: Peer) {
    p.exit || p.segment.Some?
  }

  predicate HasPeerSlots(c: Config) {
    ForPeer(c.tun) || (c.peer.Some? && Provides(c.peer.value))
  }

  // ---------------------------------------------------------------- the rules

  /** The allowlist decodes, and is not empty for a provider. */
  predicate AllowOk(p: Peer) {
    && (forall i :: 0 <= i < |p.allow| ==> Decode(p.allow[i]).Some?)
    && (Provides(p) ==> p.allow != [])
  }

  predicate DistinctNames(ss: seq<Server>) {
    forall i, j :: 0 <= i < j < |ss| ==> ss[i].name != ss[j].name
  }

  predicate DistinctForwards(fs: seq<Forward>) {
    forall i, j :: 0 <= i < j < |fs| ==> fs[i].proto != fs[j].proto || fs[i].port != fs[j].port
  }

  predicate DistinctSessions(ps: seq<Pppoe>) {
    forall i, j :: 0 <= i < j < |ps| ==> ps[i].name != ps[j].name
  }

  predicate OneAutostart(ps: seq<Pppoe>) {
    forall i, j :: 0 <= i < j < |ps| ==> !(ps[i].autostart && ps[j].autostart)
  }

  /** A server's own keys decode and neither is the peer key. */
  predicate KeysOk(s: Server, peerSecret: Option<string>) {
    && Decode(s.secret).Some? && Decode(s.credential).Some?
    && (peerSecret.Some? ==>
          Decode(peerSecret.value) != Decode(s.secret) && Decode(peerSecret.value) != Decode(s.credential))
  }

  /** A key some server authenticates with. */
  predicate IsSessionKey(ss: seq<Server>, k: Option<Bytes>) {
    exists i :: 0 <= i < |ss| && (Decode(ss[i].secret) == k || Decode(ss[i].credential) == k)
  }

  /** A discovery credential locates and does nothing more: it is no authenticating key. A
      DHT address needs one. */
  predicate DiscoveryOk(s: Server, ss: seq<Server>, peerSecret: Option<string>) {
    match s.discovery
    case None => s.addr != "dht"
    case Some(d) =>
      && Decode(d).Some?
      && !IsSessionKey(ss, Decode(d))
      && (peerSecret.Some? ==> Decode(peerSecret.value) != Decode(d))
  }

  predicate ServersOk(ss: seq<Server>, peerSecret: Option<string>) {
    && DistinctNames(ss)
    && (forall i :: 0 <= i < |ss| ==> KeysOk(ss[i], peerSecret))
    && (forall i :: 0 <= i < |ss| ==> DiscoveryOk(ss[i], ss, peerSecret))
  }

  predicate Named(ss: seq<Server>, name: string) {
    exists i :: 0 <= i < |ss| && ss[i].name == name
  }

  predicate PeersOk(c: Config) {
    && (c.peerSecret.Some? ==> Decode(c.peerSecret.value).Some?)
    && (HasPeerSlots(c) ==> c.peerSecret.Some?)
    && (ForPeer(c.tun) ==> Decode(c.tun.value.exitVia.value).Some?)
    && (c.peer.Some? ==> AllowOk(c.peer.value))
  }

  predicate DevicesOk(c: Config) {
    && (ForPeer(c.tun) ==> c.tun.value.address.None?)
    && !(c.tap.Some? && ForServer(c.tun))
    && (c.tap.Some? || ForServer(c.tun) ==> c.forwards == [] && c.pppoe == [])
  }

  /** Everything boot checks across entries. */
  predicate Valid(c: Config) {
    && PeersOk(c)
    && ServersOk(c.servers, c.peerSecret)
    && (c.active.Some? ==> Named(c.servers, c.active.value))
    && DistinctForwards(c.forwards)
    && DistinctSessions(c.pppoe) && OneAutostart(c.pppoe)
    && DevicesOk(c)
  }

  // ---------------------------------------------------------------- the check as boot runs it

  method CheckAllow(p: Peer) returns (ok: bool)
    ensures ok <==> AllowOk(p)
  {
    var i := 0;
    while i < |p.allow|
      invariant 0 <= i <= |p.allow|
      invariant forall j :: 0 <= j < i ==> Decode(p.allow[j]).Some?
    {
      if Decode(p.allow[i]).None? {
        return false;
      }
      i := i + 1;
    }
    ok := !(Provides(p) && p.allow == []);
  }

  /** What the servers authenticate with, in declaration order. */
  function SessionKeys(ss: seq<Server>): seq<Option<Bytes>> {
    if ss == [] then []
    else SessionKeys(ss[..|ss| - 1]) + [Decode(ss[|ss| - 1].secret), Decode(ss[|ss| - 1].credential)]
  }

  lemma {:induction false} SessionKeysHold(ss: seq<Server>, k: Option<Bytes>)
    ensures k in SessionKeys(ss) <==> IsSessionKey(ss, k)
  {
    if ss != [] {
      var front, last := ss[..|ss| - 1], ss[|ss| - 1];
      SessionKeysHold(front, k);
      if IsSessionKey(front, k) {
        var j :| 0 <= j < |front| && (Decode(front[j].secret) == k || Decode(front[j].credential) == k);
        assert ss[j] == front[j];
      }
      if IsSessionKey(ss, k) {
        var j :| 0 <= j < |ss| && (Decode(ss[j].secret) == k || Decode(ss[j].credential) == k);
        assert j < |front| ==> front[j] == ss[j];
      }
    }
  }

  /** What the first pass has checked of the servers before `i`. */
  predicate PassedTo(ss: seq<Server>, peerSecret: Option<string>, i: nat)
    requires i <= |ss|
  {
    && (forall j, k :: 0 <= j < k < i ==> ss[j].name != ss[k].name)
    && (forall j :: 0 <= j < i ==> KeysOk(ss[j], peerSecret))
  }

  predicate NamesOf(names: seq<string>, ss: seq<Server>, i: nat)
    requires i <= |ss|
  {
    |names| == i && forall j :: 0 <= j < i ==> names[j] == ss[j].name
  }

  lemma {:induction false} OneMorePasses(ss: seq<Server>, peerSecret: Option<string>, names: seq<string>, i: nat)
    requires i < |ss| && PassedTo(ss, peerSecret, i) && NamesOf(names, ss, i)
    requires KeysOk(ss[i], peerSecret) && ss[i].name !in names
    ensures PassedTo(ss, peerSecret, i + 1) && NamesOf(names + [ss[i].name], ss, i + 1)
  {
  }

  /** The first pass over the servers, gathering names and session keys. */
  method CheckKeys(ss: seq<Server>, peerSecret: Option<string>) returns (ok: bool, keys: seq<Option<Bytes>>)
    ensures ok <==> DistinctNames(ss) && forall i :: 0 <= i < |ss| ==> KeysOk(ss[i], peerSecret)
    ensures ok ==> keys == SessionKeys(ss)
  {
    var names: seq<string> := [];
    keys := [];
    var i := 0;
    while i < |ss|
      invariant 0 <= i <= |ss| && PassedTo(ss, peerSecret, i)
      invariant NamesOf(names, ss, i)
      invariant keys == SessionKeys(ss[..i])
    {
      if !KeysOk(ss[i], peerSecret) {
        return false, keys;
      }
      if ss[i].name in names {
        return false, keys;
      }
      OneMorePasses(ss, peerSecret, names, i);
      assert ss[..i + 1][..i] == ss[..i];
      keys := keys + [Decode(ss[i].secret), Decode(ss[i].credential)];
      names := names + [ss[i].name];
      i := i + 1;
    }
    assert ss[..i] == ss;
    ok := true;
  }

  /** The second pass, over the discovery credentials, with the keys the first one gathered. */
  method CheckDiscovery(ss: seq<Server>, keys: seq<Option<Bytes>>, peerSecret: Option<string>) returns (ok: bool)
    requires forall k :: k in keys <==> IsSessionKey(ss, k)
    ensures ok <==> forall i :: 0 <= i < |ss| ==> DiscoveryOk(ss[i], ss, peerSecret)
  {
    var i := 0;
    while i < |ss|
      invariant 0 <= i <= |ss|
      invariant forall j :: 0 <= j < i ==> DiscoveryOk(ss[j], ss, peerSecret)
    {
      match ss[i].discovery {
        case None =>
          if ss[i].addr == "dht" {
            return false;
          }
        case Some(d) =>
          var key := Decode(d);
          if key.None? || key in keys || (peerSecret.Some? && Decode(peerSecret.value) == key) {
            return false;
          }
      }
      i := i + 1;
    }
    ok := true;
  }

  method CheckForwards(fs: seq<Forward>) returns (ok: bool)
    ensures ok <==> DistinctForwards(fs)
  {
    var seen: seq<(Proto, nat)> := [];
    var i := 0;
    while i < |fs|
      invariant 0 <= i <= |fs| && |seen| == i
      invariant forall j :: 0 <= j < i ==> seen[j] == (fs[j].proto, fs[j].port)
      invariant DistinctForwards(fs[..i])
    {
      if (fs[i].proto, fs[i].port) in seen {
        return false;
      }
      seen := seen + [(fs[i].proto, fs[i].port)];
      i := i + 1;
    }
    assert fs[..i] == fs;
    ok := true;
  }

  method CheckSessions(ps: seq<Pppoe>) returns (ok: bool)
    ensures ok <==> DistinctSessions(ps) && OneAutostart(ps)
  {
    var seen: seq<string> := [];
    var starting := 0;
    var i := 0;
    ghost var first := 0;
    while i < |ps|
      invariant 0 <= i <= |ps| && |seen| == i
      invariant forall j :: 0 <= j < i ==> seen[j] == ps[j].name
      invariant DistinctSessions(ps[..i]) && OneAutostart(ps[..i])
      invariant starting == 0 || starting == 1
      invariant starting == 0 ==> forall j :: 0 <= j < i ==> !ps[j].autostart
      invariant starting == 1 ==> 0 <= first < i && ps[first].autostart
    {
      if ps[i].name in seen {
        return false;
      }
      seen := seen + [ps[i].name];
      if ps[i].autostart {
        if starting == 1 {
          return false;
        }
        starting, first := 1, i;
      }
      i := i + 1;
    }
    assert ps[..i] == ps;
    ok := true;
  }

  /** Boot validation: passes exactly the valid configs. */
  method Validate(c: Config) returns (ok: bool)
    ensures ok <==> Valid(c)
  {
    if !(c.peerSecret.Some? ==> Decode(c.peerSecret.value).Some?) || (HasPeerSlots(c) && c.peerSecret.None?) {
      return false;
    }
    if ForPeer(c.tun) && Decode(c.tun.value.exitVia.value).None? {
      return false;
    }
    if c.peer.Some? {
      var allowed := CheckAllow(c.peer.value);
      if !allowed {
        return false;
      }
    }
    var keyed, keys := CheckKeys(c.servers, c.peerSecret);
    if !keyed {
      return false;
    }
    forall k {
      SessionKeysHold(c.servers, k);
    }
    var located := CheckDiscovery(c.servers, keys, c.peerSecret);
    if !located {
      return false;
    }
    if c.active.Some? && !(exists i :: 0 <= i < |c.servers| && c.servers[i].name == c.active.value) {
      return false;
    }
    var forwarded := CheckForwards(c.forwards);
    var session := CheckSessions(c.pppoe);
    ok := forwarded && session && DevicesOk(c);
  }
}
